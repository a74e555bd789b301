/** Peer URIs: the printer of the announce machine (`src/multicast.rs`) and the parser
    of the link layer (`src/link.rs`). */
module PeerUris {
  import opened Basics
  import opened QueryText

  /** In seconds. */
  const MIN_MAX_BACKOFF: nat := 5

  datatype Scheme = Tcp | Tls | Ws | Wss | Quic

  datatype PeerUri = PeerUri(hostPort: string, password: string, priority: nat, pinnedKey: Option<ByteSeq>,
                             sni: Option<string>, maxBackoff: Option<nat>)

  datatype UriError =
    | UnrecognisedSchema | BadUri | PasswordInvalid | PriorityInvalid | PinnedKeyInvalid | MaxBackoffInvalid

  datatype Result<+T> = Ok(value: T) | Err(error: UriError)

  // ---------------------------------------------------------------- splitting

  /** The first position of `c`, or the length. */
  function Find(s: string, c: char): (i: nat)
    ensures i <= |s| && (i < |s| ==> s[i] == c) && forall j :: 0 <= j < i ==> s[j] != c
  {
    if s == [] || s[0] == c then 0 else 1 + Find(s[1..], c)
  }

  /** Around the first `c`; all of it and nothing when there is none. */
  function SplitOnce(s: string, c: char): (string, string) {
    var i := Find(s, c);
    if i < |s| then (s[..i], s[i + 1..]) else (s, "")
  }

  function Split(s: string, c: char): seq<string>
    decreases |s|
  {
    var i := Find(s, c);
    if i < |s| then [s[..i]] + Split(s[i + 1..], c) else [s]
  }

  lemma FindIs(s: string, c: char, i: nat)
    requires i <= |s| && (i < |s| ==> s[i] == c) && forall j :: 0 <= j < i ==> s[j] != c
    ensures Find(s, c) == i
  {
  }

  lemma SplitsOnce(a: string, c: char, b: string)
    requires c !in a
    ensures SplitOnce(a + [c] + b, c) == (a, b)
  {
    var s := a + [c] + b;
    FindIs(s, c, |a|);
    assert s[..|a|] == a && s[|a| + 1..] == b;
  }

  lemma SplitsFirst(a: string, c: char, b: string)
    requires c !in a
    ensures Split(a + [c] + b, c) == [a] + Split(b, c)
  {
    var s := a + [c] + b;
    FindIs(s, c, |a|);
    assert s[..|a|] == a && s[|a| + 1..] == b;
  }

  lemma SplitsNot(a: string, c: char)
    requires c !in a
    ensures Split(a, c) == [a]
  {
    FindIs(a, c, |a|);
  }

  // ---------------------------------------------------------------- the parser

  predicate Starts(s: string, p: string) {
    |p| <= |s| && s[..|p|] == p
  }

  function SchemeOf(uri: string): Option<(Scheme, string)> {
    if Starts(uri, "tcp://") then Some((Tcp, uri[6..]))
    else if Starts(uri, "tls://") then Some((Tls, uri[6..]))
    else if Starts(uri, "ws://") then Some((Ws, uri[5..]))
    else if Starts(uri, "wss://") then Some((Wss, uri[6..]))
    else if Starts(uri, "quic://") then Some((Quic, uri[7..]))
    else None
  }

  /** One option with its unescaped value; unknown options are ignored. */
  function Set(out: PeerUri, k: string, v: string, duration: string -> Option<nat>): Result<PeerUri> {
    if k == "password" then
      if |v| > MAX_PASSWORD_LEN then Err(PasswordInvalid) else Ok(out.(password := v))
    else if k == "priority" then
      if ParseU8(v).None? then Err(PriorityInvalid) else Ok(out.(priority := ParseU8(v).value))
    else if k == "key" then
      var raw := HexBytes(v);
      if raw.None? || |raw.value| != KEY_LEN then Err(PinnedKeyInvalid) else Ok(out.(pinnedKey := raw))
    else if k == "sni" then Ok(out.(sni := Some(v)))
    else if k == "maxbackoff" then
      var d := duration(v);
      if d.None? || d.value < MIN_MAX_BACKOFF then Err(MaxBackoffInvalid) else Ok(out.(maxBackoff := d))
    else Ok(out)
  }

  /** One pair of the query: an empty one, or one that cannot be unescaped, is dropped. */
  function Take(out: PeerUri, pair: string, duration: string -> Option<nat>): Result<PeerUri> {
    if pair == "" then Ok(out)
    else
      var (k, raw) := SplitOnce(pair, '=');
      var v := Unescape(raw);
      if v.None? then Ok(out) else Set(out, k, v.value, duration)
  }

  function TakeAll(out: PeerUri, pairs: seq<string>, duration: string -> Option<nat>): Result<PeerUri>
    decreases |pairs|
  {
    if pairs == [] then Ok(out)
    else
      var r := Take(out, pairs[0], duration);
      if r.Err? then r else TakeAll(r.value, pairs[1..], duration)
  }

  function Plainly(hostPort: string): PeerUri {
    PeerUri(hostPort, "", 0, None, None, None)
  }

  function Parse(uri: string, duration: string -> Option<nat>): Result<(Scheme, PeerUri)> {
    var s := SchemeOf(uri);
    if s.None? then Err(UnrecognisedSchema)
    else
      var (authority, query) := SplitOnce(s.value.1, '?');
      if authority == "" then Err(BadUri)
      else
        var r := TakeAll(Plainly(authority), Split(query, '&'), duration);
        if r.Err? then Err(r.error) else Ok((s.value.0, r.value))
  }

  /** `parse_link_uri`, filling in the peer field by field. */
  method ParseLinkUri(uri: string, duration: string -> Option<nat>) returns (r: Result<(Scheme, PeerUri)>)
    ensures r == Parse(uri, duration)
  {
    var s := SchemeOf(uri);
    if s.None? { return Err(UnrecognisedSchema); }
    var (authority, query) := SplitOnce(s.value.1, '?');
    if authority == "" { return Err(BadUri); }
    var out := Plainly(authority);
    var pairs := Split(query, '&');
    for i := 0 to |pairs|
      invariant TakeAll(out, pairs[i..], duration) == TakeAll(Plainly(authority), pairs, duration)
    {
      assert pairs[i..][0] == pairs[i] && pairs[i..][1..] == pairs[i + 1..];
      if pairs[i] != "" {
        var (k, raw) := SplitOnce(pairs[i], '=');
        var v := QueryUnescape(raw);
        if v.Some? {
          var set_ := Set(out, k, v.value, duration);
          if set_.Err? { return Err(set_.error); }
          out := set_.value;
        }
      }
    }
    return Ok((s.value.0, out));
  }

  // ---------------------------------------------------------------- the printer

  function Authority(host: string, port: nat): string {
    "[" + host + "]:" + Decimal(port)
  }

  function PasswordAndPriority(password: Octets, priority: nat): string {
    "password" + ['='] + Escape(password) + ['&'] + ("priority" + ['='] + Decimal(priority))
  }

  /** `listen_uri`; `host` is the text of the link-local address. */
  function ListenUri(host: string, port: nat, password: Octets, priority: nat): string {
    "tls://" + (Authority(host, port) + ['?'] + PasswordAndPriority(password, priority))
  }

  /** `dial_uri`; `host` is the text of the source address, a percent sign and the zone. */
  function DialUri(host: string, port: nat, key: ByteSeq, password: Octets, priority: nat): string {
    "tls://" + (Authority(host, port) + ['?']
                + ("key" + ['='] + HexText(key) + ['&'] + PasswordAndPriority(password, priority)))
  }

  // ---------------------------------------------------------------- printed, then parsed

  lemma TakesOption(out: PeerUri, k: string, raw: string, duration: string -> Option<nat>)
    requires '=' !in k
    ensures var v := Unescape(raw);
            Take(out, k + ['='] + raw, duration) == if v.None? then Ok(out) else Set(out, k, v.value, duration)
  {
    SplitsOnce(k, '=', raw);
  }

  lemma NoneSeparates(k: string, v: string)
    requires Whole(k) && Whole(v)
    ensures '&' !in k + ['='] + v && '?' !in k + ['='] + v && '=' !in k
  {
  }

  lemma TakesFirst(out: PeerUri, pair: string, rest: seq<string>, duration: string -> Option<nat>)
    ensures TakeAll(out, [pair] + rest, duration)
            == var r := Take(out, pair, duration); if r.Err? then r else TakeAll(r.value, rest, duration)
  {
    assert ([pair] + rest)[1..] == rest;
  }

  /** What the parser makes of a printed password and priority. */
  function Recovered(out: PeerUri, password: Octets, priority: nat): Result<PeerUri> {
    if !Utf8(password) then Ok(out.(priority := priority))
    else if |password| > MAX_PASSWORD_LEN then Err(PasswordInvalid)
    else Ok(out.(password := password, priority := priority))
  }

  lemma TakesPriority(out: PeerUri, priority: nat, duration: string -> Option<nat>)
    requires priority < 256
    ensures TakeAll(out, ["priority" + ['='] + Decimal(priority)], duration) == Ok(out.(priority := priority))
  {
    var pair := "priority" + ['='] + Decimal(priority);
    ParseDecimal(priority);
    PlainStays(Decimal(priority));
    TakesOption(out, "priority", Decimal(priority), duration);
    TakesFirst(out, pair, [], duration);
    assert [pair] + [] == [pair];
  }

  lemma TakesPasswordAndPriority(out: PeerUri, password: Octets, priority: nat, duration: string -> Option<nat>)
    requires priority < 256
    ensures TakeAll(out, Split(PasswordAndPriority(password, priority), '&'), duration)
            == Recovered(out, password, priority)
  {
    var one, two := "password" + ['='] + Escape(password), "priority" + ['='] + Decimal(priority);
    EscapeIsWhole(password);
    ParseDecimal(priority);
    NoneSeparates("password", Escape(password));
    NoneSeparates("priority", Decimal(priority));
    SplitsFirst(one, '&', two);
    SplitsNot(two, '&');
    TakesFirst(out, one, [two], duration);
    TakesOption(out, "password", Escape(password), duration);
    UnescapeEscape(password);
    TakesPriority(out, priority, duration);
    TakesPriority(out.(password := password), priority, duration);
  }

  lemma TakesKey(out: PeerUri, key: ByteSeq, rest: string, duration: string -> Option<nat>)
    requires |key| == KEY_LEN
    ensures TakeAll(out, Split("key" + ['='] + HexText(key) + ['&'] + rest, '&'), duration)
            == TakeAll(out.(pinnedKey := Some(key)), Split(rest, '&'), duration)
  {
    var one := "key" + ['='] + HexText(key);
    NoneSeparates("key", HexText(key));
    SplitsFirst(one, '&', rest);
    TakesFirst(out, one, Split(rest, '&'), duration);
    TakesOption(out, "key", HexText(key), duration);
    PlainStays(HexText(key));
    HexRoundTrip(key);
  }

  lemma {:induction false} HostKept(out: PeerUri, pairs: seq<string>, duration: string -> Option<nat>)
    ensures var r := TakeAll(out, pairs, duration); r.Ok? ==> r.value.hostPort == out.hostPort
    decreases |pairs|
  {
    if pairs != [] && Take(out, pairs[0], duration).Ok? {
      HostKept(Take(out, pairs[0], duration).value, pairs[1..], duration);
    }
  }

  lemma SplitsPrinted(authority: string, query: string)
    requires authority != "" && authority[0] != '?'
    ensures var rest := authority + ['?'] + query;
            && SchemeOf("tls://" + rest) == Some((Tls, rest))
            && (if '?' in authority then SplitOnce(rest, '?').0 != authority
                else SplitOnce(rest, '?') == (authority, query))
  {
    var rest := authority + ['?'] + query;
    var uri := "tls://" + rest;
    assert uri[..6] == "tls://" && uri[6..] == rest && uri[1] == 'l';
    assert !Starts(uri, "tcp://");
    if '?' !in authority { SplitsOnce(authority, '?', query); }
  }

  /** A printed URI comes back as `want` exactly when its authority holds no question
      mark and its options come back. */
  lemma ParsesPrinted(authority: string, query: string, want: PeerUri, duration: string -> Option<nat>)
    requires authority != "" && authority[0] != '?' && want.hostPort == authority
    ensures Parse("tls://" + (authority + ['?'] + query), duration) == Ok((Tls, want))
            <==> '?' !in authority && TakeAll(Plainly(authority), Split(query, '&'), duration) == Ok(want)
  {
    SplitsPrinted(authority, query);
    if '?' in authority {
      var (got, rest) := SplitOnce(authority + ['?'] + query, '?');
      HostKept(Plainly(got), Split(rest, '&'), duration);
    }
  }

  lemma AuthorityWhole(host: string, port: nat)
    ensures var a := Authority(host, port); a != "" && a[0] != '?' && ('?' in a <==> '?' in host)
  {
    var a, d := Authority(host, port), Decimal(port);
    assert a[0] == '[';
    forall i | 0 <= i < |host| ensures a[i + 1] == host[i] { }
    assert forall i :: 0 <= i < |d| ==> d[i] != '?';
  }

  /** A password that can be printed and read back: UTF-8, of at most 64 bytes. */
  predicate Printable(password: Octets) {
    Utf8(password) && |password| <= MAX_PASSWORD_LEN
  }

  lemma RecoversIff(out: PeerUri, password: Octets, priority: nat)
    requires out.password == ""
    ensures Recovered(out, password, priority) == Ok(out.(password := password, priority := priority))
            <==> Printable(password)
  {
    if password == "" { assert Utf8(password); }
  }

  /** Parsing a printed listen URI recovers address, port, password and priority
      exactly when the password is printable and the address has no question mark. */
  lemma ListenUriRoundTrips(host: string, port: nat, password: Octets, priority: nat, duration: string -> Option<nat>)
    requires priority < 256
    ensures Parse(ListenUri(host, port, password, priority), duration)
            == Ok((Tls, PeerUri(Authority(host, port), password, priority, None, None, None)))
            <==> Printable(password) && '?' !in host
  {
    var authority := Authority(host, port);
    var want := PeerUri(authority, password, priority, None, None, None);
    AuthorityWhole(host, port);
    ParsesPrinted(authority, PasswordAndPriority(password, priority), want, duration);
    TakesPasswordAndPriority(Plainly(authority), password, priority, duration);
    RecoversIff(Plainly(authority), password, priority);
  }

  /** The same for a dial URI, which also pins the peer's key. */
  lemma DialUriRoundTrips(host: string, port: nat, key: ByteSeq, password: Octets, priority: nat,
                          duration: string -> Option<nat>)
    requires priority < 256 && |key| == KEY_LEN
    ensures Parse(DialUri(host, port, key, password, priority), duration)
            == Ok((Tls, PeerUri(Authority(host, port), password, priority, Some(key), None, None)))
            <==> Printable(password) && '?' !in host
  {
    var authority, options := Authority(host, port), PasswordAndPriority(password, priority);
    var pinned := Plainly(authority).(pinnedKey := Some(key));
    AuthorityWhole(host, port);
    ParsesPrinted(authority, "key" + ['='] + HexText(key) + ['&'] + options,
                  pinned.(password := password, priority := priority), duration);
    TakesKey(Plainly(authority), key, options, duration);
    TakesPasswordAndPriority(pinned, password, priority, duration);
    RecoversIff(pinned, password, priority);
  }

  /** A password that is not UTF-8 is printed, and read back as no password at all. */
  lemma BrokenPasswordIsLost(host: string, port: nat, password: Octets, priority: nat, duration: string -> Option<nat>)
    requires priority < 256 && '?' !in host && !Utf8(password)
    ensures password != "" && Parse(ListenUri(host, port, password, priority), duration)
                              == Ok((Tls, PeerUri(Authority(host, port), "", priority, None, None, None)))
  {
    var authority := Authority(host, port);
    AuthorityWhole(host, port);
    ParsesPrinted(authority, PasswordAndPriority(password, priority), Plainly(authority).(priority := priority),
                  duration);
    TakesPasswordAndPriority(Plainly(authority), password, priority, duration);
  }

  /** For instance the one byte 0xFF. */
  lemma ByteFFIsLost(host: string, port: nat, duration: string -> Option<nat>)
    requires '?' !in host
    ensures Parse(ListenUri(host, port, [255 as char], 0), duration)
            == Ok((Tls, PeerUri(Authority(host, port), "", 0, None, None, None)))
  {
    BrokenPasswordIsLost(host, port, [255 as char], 0, duration);
  }

  // ---------------------------------------------------------------- every scheme and option

  function SchemeText(s: Scheme): string {
    match s
    case Tcp => "tcp://"
    case Tls => "tls://"
    case Ws => "ws://"
    case Wss => "wss://"
    case Quic => "quic://"
  }

  /** A URI has a scheme exactly if it starts with that scheme's text, and the rest is what
      follows. */
  lemma SchemeIff(uri: string, s: Scheme, rest: string)
    ensures SchemeOf(uri) == Some((s, rest)) <==> uri == SchemeText(s) + rest
  {
    var text := SchemeText(s);
    if uri == text + rest {
      assert uri[..|text|] == text && uri[|text|..] == rest;
      assert uri[0] == text[0] && uri[1] == text[1] && uri[2] == text[2] && uri[3] == text[3];
      assert Starts(uri, "tcp://") ==> uri[0] == 't' && uri[1] == 'c';
      assert Starts(uri, "tls://") ==> uri[0] == 't' && uri[1] == 'l';
      assert Starts(uri, "ws://") ==> uri[0] == 'w' && uri[2] == ':';
      assert Starts(uri, "wss://") ==> uri[0] == 'w' && uri[2] == 's';
    }
    if SchemeOf(uri) == Some((s, rest)) {
      assert uri == uri[..|text|] + uri[|text|..];
    }
  }

  /** A bare host, in every scheme, is read back with every option at its default. */
  lemma BareHostParses(s: Scheme, host: string, duration: string -> Option<nat>)
    requires '?' !in host
    ensures Parse(SchemeText(s) + host, duration)
            == if host == "" then Err(BadUri) else Ok((s, PeerUri(host, "", 0, None, None, None)))
  {
    SchemeIff(SchemeText(s) + host, s, host);
    FindIs(host, '?', |host|);
    SplitsNot("", '&');
    TakesFirst(Plainly(host), "", [], duration);
    assert [""] + [] == [""];
  }

  /** One option, in every scheme. */
  lemma OptionParses(s: Scheme, host: string, k: string, raw: string, duration: string -> Option<nat>)
    requires host != "" && '?' !in host && Whole(k) && Whole(raw)
    ensures var v := Unescape(raw);
            var r := if v.None? then Ok(Plainly(host)) else Set(Plainly(host), k, v.value, duration);
            Parse(SchemeText(s) + (host + ['?'] + (k + ['='] + raw)), duration)
            == if r.Err? then Err(r.error) else Ok((s, r.value))
  {
    var pair := k + ['='] + raw;
    var rest := host + ['?'] + pair;
    SchemeIff(SchemeText(s) + rest, s, rest);
    SplitsOnce(host, '?', pair);
    NoneSeparates(k, raw);
    SplitsNot(pair, '&');
    TakesFirst(Plainly(host), pair, [], duration);
    assert [pair] + [] == [pair];
    TakesOption(Plainly(host), k, raw, duration);
  }

  /** A server name is taken as it is, in every scheme. */
  lemma NameParses(s: Scheme, host: string, v: string, duration: string -> Option<nat>)
    requires host != "" && '?' !in host && Plain(v) && Whole(v)
    ensures ParsedWith(s, host, "sni", v, duration) == Ok((s, Plainly(host).(sni := Some(v))))
  {
    PlainStays(v);
    OptionParses(s, host, "sni", v, duration);
  }

  /** An unknown option is ignored, whatever its value. */
  lemma UnknownIsIgnored(s: Scheme, host: string, k: string, raw: string, duration: string -> Option<nat>)
    requires host != "" && '?' !in host && Whole(k) && Whole(raw)
    requires k != "sni" && k != "maxbackoff" && k != "key" && k != "priority" && k != "password"
    ensures ParsedWith(s, host, k, raw, duration) == Ok((s, Plainly(host)))
  {
    OptionParses(s, host, k, raw, duration);
  }

  /** A backoff below five seconds, or that is none, is refused, and any other taken. */
  lemma BackoffParses(s: Scheme, host: string, v: string, duration: string -> Option<nat>)
    requires host != "" && '?' !in host && Plain(v) && Whole(v)
    ensures ParsedWith(s, host, "maxbackoff", v, duration)
            == if duration(v).Some? && duration(v).value >= 5 then Ok((s, Plainly(host).(maxBackoff := duration(v))))
               else Err(MaxBackoffInvalid)
  {
    PlainStays(v);
    OptionParses(s, host, "maxbackoff", v, duration);
  }

  /** A key must be 64 hexadecimal digits. */
  lemma KeyParses(s: Scheme, host: string, v: string, duration: string -> Option<nat>)
    requires host != "" && '?' !in host && Plain(v) && Whole(v)
    ensures ParsedWith(s, host, "key", v, duration)
            == if HexBytes(v).Some? && |HexBytes(v).value| == 32 then Ok((s, Plainly(host).(pinnedKey := HexBytes(v))))
               else Err(PinnedKeyInvalid)
  {
    PlainStays(v);
    OptionParses(s, host, "key", v, duration);
  }

  /** A priority must be a number up to 255. */
  lemma PriorityParses(s: Scheme, host: string, v: string, duration: string -> Option<nat>)
    requires host != "" && '?' !in host && Plain(v) && Whole(v)
    ensures ParsedWith(s, host, "priority", v, duration)
            == if ParseU8(v).Some? then Ok((s, Plainly(host).(priority := ParseU8(v).value))) else Err(PriorityInvalid)
  {
    PlainStays(v);
    OptionParses(s, host, "priority", v, duration);
  }

  /** A password must be at most 64 bytes. */
  lemma PasswordParses(s: Scheme, host: string, v: string, duration: string -> Option<nat>)
    requires host != "" && '?' !in host && Plain(v) && Whole(v)
    ensures ParsedWith(s, host, "password", v, duration)
            == if |v| <= 64 then Ok((s, Plainly(host).(password := v))) else Err(PasswordInvalid)
  {
    PlainStays(v);
    OptionParses(s, host, "password", v, duration);
  }

  function ParsedWith(s: Scheme, host: string, k: string, v: string, duration: string -> Option<nat>)
    : Result<(Scheme, PeerUri)>
  {
    Parse(SchemeText(s) + (host + ['?'] + (k + ['='] + v)), duration)
  }

  lemma PrintedParts()
    ensures Authority("h", 1) == "[h]:1" && PasswordAndPriority("", 3) == "password=&priority=3" && HexText([10]) == "0a"
  {
    assert Decimal(1) == "1" && Decimal(3) == "3" && Escape("") == "";
    assert [10][1..] == [];
  }

  /** Printed URIs, letter by letter. */
  lemma PrintedListenUri()
    ensures ListenUri("h", 1, "", 3) == "tls://[h]:1?password=&priority=3"
  {
    PrintedParts();
  }

  lemma PrintedDialUri()
    ensures DialUri("h", 1, [10], "", 3) == "tls://[h]:1?key=0a&password=&priority=3"
  {
    PrintedParts();
  }
}
