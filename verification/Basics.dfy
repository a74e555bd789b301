/** Shared vocabulary: optional values and 64-bit unsigned integers. */
module Basics {

  datatype Option<+T> = None | Some(value: T)

  const U64_LIMIT: int := 0x1_0000_0000_0000_0000

  /** Values of the source's `u64`. Wrap-around is written out where it happens. */
  type U64 = x: int | 0 <= x < U64_LIMIT

  const U64_MAX: U64 := U64_LIMIT - 1

  type U8 = x: int | 0 <= x < 256

  /** Bytes in a key. */
  const KEY_LEN: nat := 32

  /** Bytes in a password, at most. */
  const MAX_PASSWORD_LEN: nat := 64

  predicate Distinct<T(==)>(s: seq<T>) {
    forall i, j :: 0 <= i < j < |s| ==> s[i] != s[j]
  }

  /** Multiplication that stops at the top of the range. */
  function SatMul(a: nat, b: nat): U64 {
    if a * b <= U64_MAX then a * b else U64_MAX
  }

  predicate IsMin(s: set<nat>, m: nat) {
    m in s && forall x :: x in s ==> m <= x
  }

  lemma MinExists(s: set<nat>)
    requires s != {}
    ensures exists m :: IsMin(s, m)
  {
    var x :| x in s;
    if s == {x} {
      assert IsMin(s, x);
    } else {
      MinExists(s - {x});
      var m :| IsMin(s - {x}, m);
      assert forall y :: y in s ==> y == x || y in s - {x};
      assert IsMin(s, if x < m then x else m);
    }
  }

  predicate Rises(r: seq<nat>) {
    forall i, j :: 0 <= i < j < |r| ==> r[i] < r[j]
  }

  /** `r` lists the elements of `s` in rising order. */
  predicate Orders(r: seq<nat>, s: set<nat>) {
    Rises(r) && (forall i :: 0 <= i < |r| ==> r[i] in s) && (forall x :: x in s ==> x in r)
  }

  lemma OrdersExists(s: set<nat>)
    ensures exists r :: Orders(r, s)
  {
    if s == {} {
      assert Orders([], s);
    } else {
      MinExists(s);
      var m :| IsMin(s, m);
      OrdersExists(s - {m});
      var r :| Orders(r, s - {m});
      assert Orders([m] + r, s);
    }
  }

  lemma {:induction false} OrdersUnique(r: seq<nat>, q: seq<nat>, s: set<nat>)
    requires Orders(r, s) && Orders(q, s)
    ensures r == q
  {
    assert r != [] ==> r[0] in q;
    assert q != [] ==> q[0] in r;
    if r != [] && q != [] {
      assert r[0] == q[0];
      var rest := s - {r[0]};
      assert Orders(r[1..], rest) && Orders(q[1..], rest);
      OrdersUnique(r[1..], q[1..], rest);
    }
  }

  ghost function Sorted(s: set<nat>): (r: seq<nat>)
    ensures Orders(r, s)
  {
    OrdersExists(s);
    var r :| Orders(r, s);
    r
  }

  method SortKeys(s: set<nat>) returns (r: seq<nat>)
    ensures r == Sorted(s)
  {
    r := [];
    var rest := s;
    while rest != {}
      invariant rest <= s && Orders(r, s - rest)
      invariant forall i, x :: 0 <= i < |r| && x in rest ==> r[i] < x
    {
      MinExists(rest);
      var m :| IsMin(rest, m);
      r := r + [m];
      rest := rest - {m};
    }
    assert s - rest == s;
    OrdersUnique(r, Sorted(s), s);
  }
}
