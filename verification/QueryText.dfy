/** Text inside a query string (`src/multicast.rs`, `src/link.rs`): percent-encoding,
    UTF-8, hexadecimal keys and decimal numbers. A string stands for its bytes, one
    character below 256 each. */
module QueryText {
  import opened Basics

  /** A byte string. */
  type Octets = s: string | forall i :: 0 <= i < |s| ==> s[i] as int < 256 witness ""

  // ---------------------------------------------------------------- digits

  predicate IsDigit(c: char) {
    '0' <= c <= '9'
  }

  function UpperHex(n: nat): (c: char)
    requires n < 16
    ensures HexValue(c) == Some(n)
  {
    if n < 10 then ('0' as int + n) as char else ('A' as int + n - 10) as char
  }

  function LowerHex(n: nat): (c: char)
    requires n < 16
    ensures HexValue(c) == Some(n)
  {
    if n < 10 then ('0' as int + n) as char else ('a' as int + n - 10) as char
  }

  function HexValue(c: char): Option<nat> {
    if IsDigit(c) then Some(c as int - '0' as int)
    else if 'a' <= c <= 'f' then Some(c as int - 'a' as int + 10)
    else if 'A' <= c <= 'F' then Some(c as int - 'A' as int + 10)
    else None
  }

  /** Two characters read as a number in base 16; a plus sign may lead. */
  function HexPair(a: char, b: char): Option<nat> {
    if HexValue(b).None? then None
    else if a == '+' then HexValue(b)
    else if HexValue(a).None? then None
    else Some(16 * HexValue(a).value + HexValue(b).value)
  }

  // ---------------------------------------------------------------- percent-encoding

  predicate Unreserved(c: char) {
    'A' <= c <= 'Z' || 'a' <= c <= 'z' || IsDigit(c) || c == '-' || c == '_' || c == '.' || c == '~'
  }

  function EscapeOne(c: char): string
    requires c as int < 256
  {
    if Unreserved(c) then [c]
    else if c == ' ' then "+"
    else ['%', UpperHex(c as int / 16), UpperHex(c as int % 16)]
  }

  function Escape(v: Octets): string {
    if v == [] then "" else Escape(v[..|v| - 1]) + EscapeOne(v[|v| - 1])
  }

  method QueryEscape(v: Octets) returns (out: string)
    ensures out == Escape(v)
  {
    out := "";
    for i := 0 to |v|
      invariant out == Escape(v[..i])
    {
      assert v[..i + 1][..i] == v[..i];
      var b := v[i];
      if Unreserved(b) {
        out := out + [b];
      } else if b == ' ' {
        out := out + "+";
      } else {
        out := out + "%";
        out := out + [UpperHex(b as int / 16)];
        out := out + [UpperHex(b as int % 16)];
      }
    }
    assert v[..|v|] == v;
  }

  function Before(v: string, rest: Option<string>): Option<string> {
    if rest.None? then None else Some(v + rest.value)
  }

  lemma BeforeCat(a: string, b: string, rest: Option<string>)
    ensures Before(a, Before(b, rest)) == Before(a + b, rest) && Before("", rest) == rest
  {
    if rest.Some? {
      assert a + (b + rest.value) == (a + b) + rest.value;
      assert "" + rest.value == rest.value;
    }
  }

  /** The bytes behind an escaped text; a bad escape leaves none. */
  function Unescaped(s: string): Option<string> {
    if s == [] then Some([])
    else if s[0] == '%' then
      if |s| < 3 then None
      else
        var b := HexPair(s[1], s[2]);
        if b.None? then None else Before([b.value as char], Unescaped(s[3..]))
    else Before([if s[0] == '+' then ' ' else s[0]], Unescaped(s[1..]))
  }

  /** Unescaped, if that is UTF-8. */
  function Unescape(s: string): Option<string> {
    var bytes := Unescaped(s);
    if bytes.Some? && Utf8(bytes.value) then bytes else None
  }

  method QueryUnescape(s: string) returns (r: Option<string>)
    ensures r == Unescape(s)
  {
    var out := "";
    var at := 0;
    BeforeCat("", "", Unescaped(s));
    assert s[0..] == s;
    while at < |s|
      invariant 0 <= at <= |s|
      invariant Unescaped(s) == Before(out, Unescaped(s[at..]))
    {
      ghost var here := s[at..];
      if s[at] == '+' {
        assert here[1..] == s[at + 1..];
        BeforeCat(out, " ", Unescaped(s[at + 1..]));
        out := out + " ";
        at := at + 1;
      } else if s[at] == '%' {
        if |s| < at + 3 { return None; }
        var b := HexPair(s[at + 1], s[at + 2]);
        assert here[1] == s[at + 1] && here[2] == s[at + 2] && here[3..] == s[at + 3..];
        if b.None? { return None; }
        BeforeCat(out, [b.value as char], Unescaped(s[at + 3..]));
        out := out + [b.value as char];
        at := at + 3;
      } else {
        assert here[1..] == s[at + 1..];
        BeforeCat(out, [s[at]], Unescaped(s[at + 1..]));
        out := out + [s[at]];
        at := at + 1;
      }
    }
    assert out + [] == out;
    if Utf8(out) { return Some(out); }
    return None;
  }

  // ---------------------------------------------------------------- UTF-8

  predicate Tail(c: char) {
    0x80 <= c as int <= 0xBF
  }

  /** Well-formed UTF-8 (section 4 of RFC 3629): no overlong form, no surrogate, nothing
      above U+10FFFF. */
  predicate Utf8(s: string) {
    if s == [] then true
    else
      var a := s[0] as int;
      if a < 0x80 then Utf8(s[1..])
      else if 0xC2 <= a <= 0xDF then |s| >= 2 && Tail(s[1]) && Utf8(s[2..])
      else if 0xE0 <= a <= 0xEF then
        |s| >= 3 && Tail(s[1]) && Tail(s[2]) && (a == 0xE0 ==> s[1] as int >= 0xA0)
        && (a == 0xED ==> s[1] as int <= 0x9F) && Utf8(s[3..])
      else if 0xF0 <= a <= 0xF4 then
        |s| >= 4 && Tail(s[1]) && Tail(s[2]) && Tail(s[3]) && (a == 0xF0 ==> s[1] as int >= 0x90)
        && (a == 0xF4 ==> s[1] as int <= 0x8F) && Utf8(s[4..])
      else false
  }

  /** Plain text: nothing an escape, a separator or UTF-8 could touch. */
  predicate Plain(s: string) {
    forall i :: 0 <= i < |s| ==> Unreserved(s[i])
  }

  lemma {:induction false} PlainIsUtf8(s: string)
    requires Plain(s)
    ensures Utf8(s)
  {
    if s != [] { PlainIsUtf8(s[1..]); }
  }

  lemma {:induction false} PlainStays(s: string)
    requires Plain(s)
    ensures Unescape(s) == Some(s)
  {
    PlainIsUtf8(s);
    PlainUnescaped(s);
  }

  lemma {:induction false} PlainUnescaped(s: string)
    requires Plain(s)
    ensures Unescaped(s) == Some(s)
  {
    if s != [] {
      PlainUnescaped(s[1..]);
      assert s == [s[0]] + s[1..];
    }
  }

  // ---------------------------------------------------------------- escaping and back

  lemma UnescapedOne(c: char, rest: string)
    requires c as int < 256
    ensures Unescaped(EscapeOne(c) + rest) == Before([c], Unescaped(rest))
  {
    var s := EscapeOne(c) + rest;
    if Unreserved(c) || c == ' ' {
      assert s[1..] == rest;
    } else {
      assert s[0] == '%' && s[1] == UpperHex(c as int / 16) && s[2] == UpperHex(c as int % 16) && s[3..] == rest;
      assert 16 * (c as int / 16) + c as int % 16 == c as int;
    }
  }

  lemma {:induction false} UnescapedEscape(v: Octets, rest: string)
    ensures Unescaped(Escape(v) + rest) == Before(v, Unescaped(rest))
    decreases |v|
  {
    if v == [] {
      assert Escape(v) + rest == rest;
      BeforeCat("", "", Unescaped(rest));
    } else {
      var front, c := v[..|v| - 1], v[|v| - 1];
      assert v == front + [c];
      assert Escape(v) + rest == Escape(front) + (EscapeOne(c) + rest);
      UnescapedEscape(front, EscapeOne(c) + rest);
      UnescapedOne(c, rest);
      BeforeCat(front, [c], Unescaped(rest));
    }
  }

  /** Unescaping undoes escaping for UTF-8 text, and gives nothing for any other bytes. */
  lemma UnescapeEscape(v: Octets)
    ensures Unescape(Escape(v)) == if Utf8(v) then Some(v) else None
  {
    UnescapedEscape(v, "");
    assert Escape(v) + "" == Escape(v) && v + "" == v;
  }

  /** Nothing in escaped text separates options. */
  predicate Separates(c: char) {
    c == '&' || c == '=' || c == '?'
  }

  predicate Whole(s: string) {
    forall i :: 0 <= i < |s| ==> !Separates(s[i])
  }

  lemma {:induction false} EscapeIsWhole(v: Octets)
    ensures Whole(Escape(v))
    decreases |v|
  {
    if v != [] { EscapeIsWhole(v[..|v| - 1]); }
  }

  // ---------------------------------------------------------------- decimal

  function Decimal(n: nat): (s: string)
    ensures s != [] && forall i :: 0 <= i < |s| ==> IsDigit(s[i])
  {
    var d := ('0' as int + n % 10) as char;
    if n < 10 then [d] else Decimal(n / 10) + [d]
  }

  /** Digits read one by one, refused as soon as they leave the range of a `u8`. */
  function DigitsU8(s: string): Option<nat> {
    if s == [] then Some(0)
    else
      var front, c := DigitsU8(s[..|s| - 1]), s[|s| - 1];
      if front.None? || !IsDigit(c) then None
      else
        var n := 10 * front.value + (c as int - '0' as int);
        if n > 255 then None else Some(n)
  }

  /** A `u8` in decimal: at least one digit, and a plus sign may lead. */
  function ParseU8(s: string): Option<nat> {
    if s == [] then None
    else if s[0] == '+' && |s| > 1 then DigitsU8(s[1..])
    else DigitsU8(s)
  }

  lemma {:induction false} DigitsOfDecimal(n: nat)
    requires n < 256
    ensures DigitsU8(Decimal(n)) == Some(n)
  {
    var s := Decimal(n);
    assert DigitsU8("") == Some(0);
    if n < 10 {
      assert s[..0] == "";
    } else {
      DigitsOfDecimal(n / 10);
      assert s[..|s| - 1] == Decimal(n / 10);
    }
  }

  lemma ParseDecimal(n: nat)
    requires n < 256
    ensures ParseU8(Decimal(n)) == Some(n) && Plain(Decimal(n)) && Whole(Decimal(n))
  {
    DigitsOfDecimal(n);
  }

  /** A plus sign may lead, a number above 255 is refused, and so is none at all. */
  lemma NumbersTaken(n: nat)
    ensures n < 256 ==> ParseU8(['+'] + Decimal(n)) == Some(n)
    ensures n > 255 ==> ParseU8(Decimal(n)).None?
    ensures ParseU8("").None? && ParseU8("+").None?
  {
    var s := Decimal(n);
    assert (['+'] + s)[1..] == s;
    if n < 256 { DigitsOfDecimal(n); } else { DigitsTooMany(n); }
    assert "+"[..0] == "";
  }

  lemma {:induction false} DigitsTooMany(n: nat)
    requires n > 255
    ensures DigitsU8(Decimal(n)).None?
  {
    var s := Decimal(n);
    assert s[..|s| - 1] == Decimal(n / 10);
    if n / 10 > 255 { DigitsTooMany(n / 10); } else { DigitsOfDecimal(n / 10); }
  }

  // ---------------------------------------------------------------- hexadecimal

  type ByteSeq = s: seq<nat> | forall i :: 0 <= i < |s| ==> s[i] < 256 witness []

  function HexText(key: ByteSeq): (s: string)
    ensures |s| == 2 * |key|
    ensures Plain(s) && Whole(s)
  {
    if key == [] then "" else [LowerHex(key[0] / 16), LowerHex(key[0] % 16)] + HexText(key[1..])
  }

  /** Bytes from pairs of digits of either case. */
  function HexBytes(s: string): Option<ByteSeq> {
    if s == [] then Some([])
    else if |s| == 1 || HexValue(s[0]).None? || HexValue(s[1]).None? then None
    else
      var rest := HexBytes(s[2..]);
      if rest.None? then None else Some([16 * HexValue(s[0]).value + HexValue(s[1]).value] + rest.value)
  }

  lemma {:induction false} HexRoundTrip(key: ByteSeq)
    ensures HexBytes(HexText(key)) == Some(key)
  {
    if key != [] {
      HexRoundTrip(key[1..]);
      var s, hi, lo := HexText(key), key[0] / 16, key[0] % 16;
      assert s[0] == LowerHex(hi) && s[1] == LowerHex(lo) && s[2..] == HexText(key[1..]);
      assert 16 * hi + lo == key[0];
      assert key == [key[0]] + key[1..];
    }
  }

  // ---------------------------------------------------------------- the text itself

  /** An unreserved byte stands for itself, a space is a plus sign, and any other byte a
      percent sign and two digits, of which no letter is lower-case. */
  lemma EscapeShape(c: char)
    requires c as int < 256
    ensures var s := EscapeOne(c);
            if Unreserved(c) then s == [c]
            else if c == ' ' then s == "+"
            else |s| == 3 && s[0] == '%' && HexPair(s[1], s[2]) == Some(c as int) && s[1] <= 'F' && s[2] <= 'F'
  {
    assert 16 * (c as int / 16) + c as int % 16 == c as int;
  }

  /** Keys are printed in digits of which no letter is upper-case. */
  lemma {:induction false} HexTextIsLower(key: ByteSeq, i: nat)
    requires i < |HexText(key)|
    ensures HexText(key)[i] <= '9' || HexText(key)[i] >= 'a'
  {
    if i >= 2 { HexTextIsLower(key[1..], i - 2); }
  }

  /** The parser of two digits takes a plus sign for the first, as `%+F` for 15. */
  lemma PlusIsADigit()
    ensures Unescape("%+F") == Some([15 as char])
  {
    var s, c := "%+F", [15 as char];
    assert s[3..] == "" && Unescaped("") == Some("");
    assert HexPair(s[1], s[2]) == Some(15);
    assert c + "" == c && c[1..] == "" && Utf8("");
    assert Unescaped(s) == Some(c) && Utf8(c);
  }
}
