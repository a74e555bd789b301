/** The multicast announce machine (`src/multicast.rs`): scans, announce ticks and
    listener reports go in, bind, beacon and unbind commands come out. */
module Announcing {
  import opened Basics

  /** An interface name; names are ordered, as the keys of the source's map are. */
  type Name = nat
  type Port16 = x: int | 0 <= x < 65536
  type Text = seq<nat>

  const SECOND: nat := 1_000_000_000
  const MAX_INTERVAL: nat := 15 * SECOND

  datatype Config = Config(name: Name, linkLocal: nat, beacon: bool, listen: bool, port: Port16, priority: nat,
                           password: Text)

  /** The membership hash, taken to be injective in the password and the key. */
  datatype Hash = Hash(password: Text, key: nat)

  datatype Iface = Iface(cfg: Option<Config>, hash: Hash, listenerPort: Option<Port16>, bindAddr: Option<nat>,
                         lastBeacon: Option<nat>, interval: nat, joined: bool)

  datatype Advertisement = Advertisement(major: nat, minor: nat, key: nat, port: Port16, hash: Hash)

  datatype Command =
    | Bind(iface: Name, linkLocal: nat, port: Port16, listening: Config)
    | Beacon(iface: Name, adv: Advertisement)
    | Unbind(iface: Name)

  // ---------------------------------------------------------------- scans

  predicate Usable(c: Config) {
    (c.beacon || c.listen) && |c.password| <= MAX_PASSWORD_LEN
  }

  function Blank(hash: Hash): Iface {
    Iface(None, hash, None, None, None, 0, false)
  }

  /** One listed interface moves from the old table to the new one. */
  function TakeOne(key: nat, was: map<Name, Iface>, next: map<Name, Iface>,
                   c: Config): (map<Name, Iface>, map<Name, Iface>) {
    if !Usable(c) then (was, next)
    else
      var hash := Hash(c.password, key);
      var st := if c.name in was then was[c.name] else Blank(hash);
      (was - {c.name}, next[c.name := st.(cfg := Some(c), hash := hash)])
  }

  function TakeAll(key: nat, was: map<Name, Iface>, next: map<Name, Iface>,
                   list: seq<Config>): (map<Name, Iface>, map<Name, Iface>)
    decreases |list|
  {
    if list == [] then (was, next)
    else
      var (w, n) := TakeOne(key, was, next, list[0]);
      TakeAll(key, w, n, list[1..])
  }

  /** What is left and still bound stays, without a configuration. */
  function Leftover(was: map<Name, Iface>): map<Name, Iface> {
    map n | n in was && was[n].bindAddr.Some? :: was[n].(cfg := None)
  }

  function Rescan(key: nat, was: map<Name, Iface>, list: seq<Config>): map<Name, Iface> {
    var (w, n) := TakeAll(key, was, map[], list);
    n + Leftover(w)
  }

  function At(table: map<Name, Iface>, n: Name): Option<Iface> {
    if n in table then Some(table[n]) else None
  }

  /** A configuration for `n` that counts: with some purpose, and a password that can be hashed. */
  predicate Counts(c: Config, n: Name) {
    c.name == n && (c.listen || c.beacon) && |c.password| <= 64
  }

  /** How often a scan lists the interface so that it counts. */
  function Listed(list: seq<Config>, n: Name): nat {
    if list == [] then 0 else (if Counts(list[0], n) then 1 else 0) + Listed(list[1..], n)
  }

  function LastListed(list: seq<Config>, n: Name): Option<Config> {
    if list == [] then None
    else
      var later := LastListed(list[1..], n);
      if later.None? && Counts(list[0], n) then Some(list[0]) else later
  }

  lemma {:induction false} ListedSome(list: seq<Config>, n: Name)
    ensures LastListed(list, n).Some? <==> Listed(list, n) > 0
  {
    if list != [] { ListedSome(list[1..], n); }
  }

  /** What a scan leaves of one interface. */
  function ScanOf(key: nat, st: Option<Iface>, times: nat, last: Option<Config>): Option<Iface> {
    if times == 0 || last.None? then
      if st.Some? && st.value.bindAddr.Some? then Some(st.value.(cfg := None)) else None
    else
      var hash := Hash(last.value.password, key);
      var kept := if times == 1 && st.Some? then st.value else Blank(hash);
      Some(kept.(cfg := last, hash := hash))
  }

  /** Both tables at one name while the list is taken: `seen` is how often the name has
      come up, `last` its last configuration. */
  ghost predicate Taken(key: nat, st: Option<Iface>, seen: nat, last: Option<Config>, w: map<Name, Iface>,
                        t: map<Name, Iface>, n: Name) {
    if seen == 0 then At(w, n) == st && n !in t
    else n !in w && last.Some? && At(t, n) == ScanOf(key, st, seen, last)
  }

  lemma TakesOne(key: nat, st: Option<Iface>, seen: nat, last: Option<Config>, w: map<Name, Iface>,
                 t: map<Name, Iface>, c: Config, n: Name)
    requires Taken(key, st, seen, last, w, t, n)
    ensures var (w', t') := TakeOne(key, w, t, c);
            if c.name == n && Usable(c) then Taken(key, st, seen + 1, Some(c), w', t', n)
            else Taken(key, st, seen, last, w', t', n)
  {
    if seen > 0 && c.name == n && Usable(c) {
      var hash := Hash(c.password, key);
      assert Blank(hash).(cfg := Some(c), hash := hash)
             == Blank(Hash(last.value.password, key)).(cfg := Some(c), hash := hash);
    }
  }

  lemma {:induction false} TakesAll(key: nat, st: Option<Iface>, seen: nat, last: Option<Config>, w: map<Name, Iface>,
                                    t: map<Name, Iface>, list: seq<Config>, n: Name)
    requires Taken(key, st, seen, last, w, t, n)
    ensures var (w', t') := TakeAll(key, w, t, list);
            var later := LastListed(list, n);
            Taken(key, st, seen + Listed(list, n), if later.Some? then later else last, w', t', n)
    decreases |list|
  {
    if list != [] {
      var c := list[0];
      var (w1, t1) := TakeOne(key, w, t, c);
      TakesOne(key, st, seen, last, w, t, c, n);
      if c.name == n && Usable(c) {
        TakesAll(key, st, seen + 1, Some(c), w1, t1, list[1..], n);
      } else {
        TakesAll(key, st, seen, last, w1, t1, list[1..], n);
      }
    }
  }

  /** A scan, one name at a time. */
  lemma RescanAt(key: nat, was: map<Name, Iface>, list: seq<Config>, n: Name)
    ensures At(Rescan(key, was, list), n) == ScanOf(key, At(was, n), Listed(list, n), LastListed(list, n))
  {
    ListedSome(list, n);
    TakesAll(key, At(was, n), 0, None, was, map[], list, n);
  }

  function BoundTo(st: Option<Iface>): Option<nat> {
    if st.Some? then st.value.bindAddr else None
  }

  /** A scan forgets a listener exactly when it lists a bound interface more than once. */
  lemma ScanForgetsIff(key: nat, was: map<Name, Iface>, list: seq<Config>, n: Name)
    ensures BoundTo(At(Rescan(key, was, list), n)) == BoundTo(At(was, n))
            <==> !(BoundTo(At(was, n)).Some? && Listed(list, n) > 1)
  {
    ListedSome(list, n);
    RescanAt(key, was, list, n);
  }

  // ---------------------------------------------------------------- announce ticks

  predicate Stale(st: Iface) {
    st.bindAddr.Some? && (st.cfg.None? || st.cfg.value.linkLocal != st.bindAddr.value)
  }

  /** First pass: stop a listener that is no longer wanted. */
  function Stop(st: Iface): Iface {
    if Stale(st) then st.(listenerPort := None, bindAddr := None, lastBeacon := None, interval := 0) else st
  }

  function StopCommands(n: Name, st: Iface): seq<Command> {
    if Stale(st) then [Unbind(n)] else []
  }

  predicate TooSoon(st: Iface, now: nat) {
    st.lastBeacon.Some? && (if now < st.lastBeacon.value then 0 else now - st.lastBeacon.value) < st.interval
  }

  predicate Binds(st: Iface) {
    st.cfg.Some? && st.cfg.value.beacon && st.bindAddr.None?
  }

  predicate Beacons(st: Iface, now: nat) {
    st.cfg.Some? && st.cfg.value.beacon && st.bindAddr.Some? && st.listenerPort.Some? && !TooSoon(st, now)
  }

  /** Second pass: join, and bind or beacon. */
  function Go(st: Iface, now: nat): Iface {
    var j := if st.cfg.Some? && st.cfg.value.listen then st.(joined := true) else st;
    if Binds(st) then j.(bindAddr := Some(st.cfg.value.linkLocal))
    else if Beacons(st, now) then
      j.(lastBeacon := Some(now), interval := if st.interval < MAX_INTERVAL then st.interval + SECOND else st.interval)
    else j
  }

  function GoCommands(key: nat, n: Name, st: Iface, now: nat): seq<Command> {
    if Binds(st) then [Bind(n, st.cfg.value.linkLocal, st.cfg.value.port, st.cfg.value)]
    else if Beacons(st, now) then [Beacon(n, Advertisement(0, 5, key, st.listenerPort.value, st.hash))]
    else []
  }

  function Collect(names: seq<Name>, f: Name -> seq<Command>): seq<Command> {
    if names == [] then [] else Collect(names[..|names| - 1], f) + f(names[|names| - 1])
  }

  function AllStopped(t: map<Name, Iface>): map<Name, Iface> {
    map n | n in t :: Stop(t[n])
  }

  function AllGone(t: map<Name, Iface>, now: nat): map<Name, Iface> {
    map n | n in t :: Go(t[n], now)
  }

  function Stops(t: map<Name, Iface>): Name -> seq<Command> {
    n => if n in t then StopCommands(n, t[n]) else []
  }

  function Goes(key: nat, t: map<Name, Iface>, now: nat): Name -> seq<Command> {
    n => if n in t then GoCommands(key, n, t[n], now) else []
  }

  /** The commands of a tick: all unbinds, then all binds and beacons, each in name order. */
  ghost function TickCommands(key: nat, t: map<Name, Iface>, now: nat): seq<Command> {
    var names := Sorted(t.Keys);
    Collect(names, Stops(t)) + Collect(names, Goes(key, AllStopped(t), now))
  }

  /** A pass over the names that has done some of them. */
  ghost predicate Halfway(t: map<Name, Iface>, cur: map<Name, Iface>, done: seq<Name>, step: Iface -> Iface) {
    cur.Keys == t.Keys && forall n :: n in t ==> cur[n] == if n in done then step(t[n]) else t[n]
  }

  lemma HalfwayNext(t: map<Name, Iface>, cur: map<Name, Iface>, done: seq<Name>, step: Iface -> Iface, n: Name)
    requires Halfway(t, cur, done, step) && n in t && n !in done
    ensures cur[n] == t[n] && Halfway(t, cur[n := step(cur[n])], done + [n], step)
  {
  }

  lemma Picks(names: seq<Name>, keys: set<Name>, i: nat)
    requires Orders(names, keys) && i < |names|
    ensures names[i] in keys && names[i] !in names[..i]
    ensures names[..i + 1] == names[..i] + [names[i]] && names[..i + 1][..i] == names[..i]
  {
  }

  // ---------------------------------------------------------------- the machine

  class Multicast {
    const localKey: nat
    var ifaces: map<Name, Iface>

    constructor (key: nat)
      ensures localKey == key && ifaces == map[]
    {
      localKey, ifaces := key, map[];
    }

    method SetInterfaces(list: seq<Config>)
      modifies this
      ensures ifaces == Rescan(localKey, old(ifaces), list)
    {
      var was: map<Name, Iface>, next: map<Name, Iface> := ifaces, map[];
      for i := 0 to |list|
        invariant TakeAll(localKey, was, next, list[i..]) == TakeAll(localKey, ifaces, map[], list)
        invariant ifaces == old(ifaces)
      {
        var c := list[i];
        assert list[i..][0] == c && list[i..][1..] == list[i + 1..];
        if Usable(c) {
          var hash := Hash(c.password, localKey);
          var st := if c.name in was then was[c.name] else Blank(hash);
          was := was - {c.name};
          next := next[c.name := st.(cfg := Some(c), hash := hash)];
        }
      }
      ifaces := next + Leftover(was);
    }

    method Announce(now: nat) returns (out: seq<Command>)
      modifies this
      ensures out == TickCommands(localKey, old(ifaces), now)
      ensures ifaces == AllGone(AllStopped(old(ifaces)), now)
    {
      var names := SortKeys(ifaces.Keys);
      out := StopPass(names);
      var more := GoPass(names, now);
      out := out + more;
    }

    method StopPass(names: seq<Name>) returns (out: seq<Command>)
      requires Orders(names, ifaces.Keys)
      modifies this
      ensures out == Collect(names, Stops(old(ifaces)))
      ensures ifaces == AllStopped(old(ifaces))
    {
      out := [];
      ghost var t, step := ifaces, (st: Iface) => Stop(st);
      for i := 0 to |names|
        invariant out == Collect(names[..i], Stops(t))
        invariant Halfway(t, ifaces, names[..i], step)
      {
        var n := names[i];
        Picks(names, t.Keys, i);
        HalfwayNext(t, ifaces, names[..i], step, n);
        var more := StopOne(n);
        out := out + more;
      }
      assert names[..|names|] == names;
    }

    method StopOne(n: Name) returns (out: seq<Command>)
      requires n in ifaces
      modifies this
      ensures out == StopCommands(n, old(ifaces)[n])
      ensures ifaces == old(ifaces)[n := Stop(old(ifaces)[n])]
    {
      out := [];
      if Stale(ifaces[n]) {
        out := out + [Unbind(n)];
        ifaces := ifaces[n := ifaces[n].(listenerPort := None, bindAddr := None, lastBeacon := None, interval := 0)];
      }
    }

    method GoPass(names: seq<Name>, now: nat) returns (out: seq<Command>)
      requires Orders(names, ifaces.Keys)
      modifies this
      ensures out == Collect(names, Goes(localKey, old(ifaces), now))
      ensures ifaces == AllGone(old(ifaces), now)
    {
      out := [];
      ghost var t, step := ifaces, (st: Iface) => Go(st, now);
      for i := 0 to |names|
        invariant out == Collect(names[..i], Goes(localKey, t, now))
        invariant Halfway(t, ifaces, names[..i], step)
      {
        var n := names[i];
        Picks(names, t.Keys, i);
        HalfwayNext(t, ifaces, names[..i], step, n);
        var more := GoOne(n, now);
        out := out + more;
      }
      assert names[..|names|] == names;
    }

    /** The body of the second pass. */
    method GoOne(n: Name, now: nat) returns (out: seq<Command>)
      requires n in ifaces
      modifies this
      ensures out == GoCommands(localKey, n, old(ifaces)[n], now)
      ensures ifaces == old(ifaces)[n := Go(old(ifaces)[n], now)]
    {
      out := [];
      var st := ifaces[n];
      if st.cfg.None? { return; }
      var cfg := st.cfg.value;
      if cfg.listen {
        st := st.(joined := true);
        ifaces := ifaces[n := st];
      }
      if !cfg.beacon { return; }
      if st.bindAddr.None? {
        ifaces := ifaces[n := st.(bindAddr := Some(cfg.linkLocal))];
        return [Bind(n, cfg.linkLocal, cfg.port, cfg)];
      }
      if st.listenerPort.None? || TooSoon(st, now) { return; }
      out := [Beacon(n, Advertisement(0, 5, localKey, st.listenerPort.value, st.hash))];
      st := st.(lastBeacon := Some(now));
      if st.interval < MAX_INTERVAL { st := st.(interval := st.interval + SECOND); }
      ifaces := ifaces[n := st];
    }

    method ListenerUp(n: Name, port: Port16)
      modifies this
      ensures ifaces == Reported(old(ifaces), n, port)
    {
      if n in ifaces {
        ifaces := ifaces[n := ifaces[n].(listenerPort := Some(port))];
      }
    }
  }

  function Reported(t: map<Name, Iface>, n: Name, port: Port16): map<Name, Iface> {
    if n in t then t[n := t[n].(listenerPort := Some(port))] else t
  }
}
