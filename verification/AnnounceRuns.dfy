/** Whole runs of the announce machine (`src/multicast.rs`): per interface, Bind and
    Unbind alternate, beacons fall between them, carry the last reported port, and
    come at ever longer gaps. */
module AnnounceRuns {
  import opened Basics
  import opened Announcing

  /** What the client does, and what can be seen of it from outside: the ports the
      client reported and the commands it got, with their time. */
  datatype Action = Scan(list: seq<Config>) | Tick(now: nat) | Up(iface: Name, port: Port16)

  datatype Event = Told(iface: Name, port: Port16) | Did(cmd: Command, at: nat)

  // ---------------------------------------------------------------- runs

  function TableOf(key: nat, t: map<Name, Iface>, a: Action): map<Name, Iface> {
    match a
    case Scan(list) => Rescan(key, t, list)
    case Tick(now) => AllGone(AllStopped(t), now)
    case Up(n, port) => Announcing.Reported(t, n, port)
  }

  function Events(cmds: seq<Command>, at: nat): (es: seq<Event>)
    ensures |es| == |cmds|
  {
    seq(|cmds|, i requires 0 <= i < |cmds| => Did(cmds[i], at))
  }

  ghost function EventsOf(key: nat, t: map<Name, Iface>, a: Action): seq<Event> {
    match a
    case Scan(_) => []
    case Tick(now) => Events(TickCommands(key, t, now), now)
    case Up(n, port) => [Told(n, port)]
  }

  function TableAfter(key: nat, run: seq<Action>): map<Name, Iface> {
    if run == [] then map[] else TableOf(key, TableAfter(key, run[..|run| - 1]), run[|run| - 1])
  }

  ghost function History(key: nat, run: seq<Action>): seq<Event> {
    if run == [] then []
    else
      var before := run[..|run| - 1];
      History(key, before) + EventsOf(key, TableAfter(key, before), run[|run| - 1])
  }

  // ---------------------------------------------------------------- the safety monitor

  /** What has been seen of one interface. `count` and `last` are the beacons since the
      last Bind and the time of the latest, `addr` the address of that Bind; `since` says that a port was reported after
      the last Bind, and `prompt` that every beacon so far had such a report. */
  datatype Watch = Watch(ok: bool, bound: bool, addr: nat, told: Option<Port16>, count: nat, last: nat, since: bool,
                         prompt: bool)

  const START := Watch(true, false, 0, None, 0, 0, false, true)

  function Gap(count: nat): nat {
    if count < 15 then count * SECOND else MAX_INTERVAL
  }

  predicate Allowed(w: Watch, cmd: Command, at: nat) {
    match cmd
    case Bind(_, _, _, _) => !w.bound
    case Unbind(_) => w.bound
    case Beacon(_, adv) => w.bound && w.told == Some(adv.port) && (w.count > 0 ==> at >= w.last + Gap(w.count))
  }

  function See(w: Watch, n: Name, e: Event): Watch {
    match e
    case Told(m, port) => if m == n then w.(told := Some(port), since := true) else w
    case Did(cmd, at) =>
      if cmd.iface != n then w
      else
        var v := w.(ok := w.ok && Allowed(w, cmd, at));
        match cmd
        case Bind(_, addr, _, _) => v.(bound := true, addr := addr, count := 0, since := false)
        case Unbind(_) => v.(bound := false)
        case Beacon(_, _) => v.(count := w.count + 1, last := at, prompt := w.prompt && w.since)
  }

  function WatchAll(w: Watch, n: Name, es: seq<Event>): Watch {
    if es == [] then w else See(WatchAll(w, n, es[..|es| - 1]), n, es[|es| - 1])
  }

  lemma {:induction false} WatchCat(w: Watch, n: Name, a: seq<Event>, b: seq<Event>)
    ensures WatchAll(w, n, a + b) == WatchAll(WatchAll(w, n, a), n, b)
    decreases |b|
  {
    if b == [] {
      assert a + b == a;
    } else {
      assert (a + b)[..|a + b| - 1] == a + b[..|b| - 1];
      WatchCat(w, n, a, b[..|b| - 1]);
    }
  }

  // ---------------------------------------------------------------- a tick, one interface at a time

  ghost predicate Addressed(f: Name -> seq<Command>) {
    forall m, i {:trigger f(m)[i]} :: 0 <= i < |f(m)| ==> f(m)[i].iface == m
  }

  lemma EventsCat(a: seq<Command>, b: seq<Command>, at: nat)
    ensures Events(a + b, at) == Events(a, at) + Events(b, at)
  {
  }

  lemma {:induction false} OthersUnseen(w: Watch, n: Name, cmds: seq<Command>, at: nat)
    requires forall i :: 0 <= i < |cmds| ==> cmds[i].iface != n
    ensures WatchAll(w, n, Events(cmds, at)) == w
  {
    if cmds != [] {
      var front := cmds[..|cmds| - 1];
      assert Events(cmds, at)[..|cmds| - 1] == Events(front, at);
      OthersUnseen(w, n, front, at);
    }
  }

  /** Of a pass over all interfaces, one interface sees its own commands. */
  lemma {:induction false} PassSeen(w: Watch, n: Name, names: seq<Name>, f: Name -> seq<Command>, at: nat)
    requires Addressed(f) && Rises(names)
    ensures WatchAll(w, n, Events(Collect(names, f), at)) == if n in names then WatchAll(w, n, Events(f(n), at)) else w
  {
    if names != [] {
      var front, m := names[..|names| - 1], names[|names| - 1];
      assert names == front + [m];
      PassSeen(w, n, front, f, at);
      EventsCat(Collect(front, f), f(m), at);
      WatchCat(w, n, Events(Collect(front, f), at), Events(f(m), at));
      if m == n {
        assert n !in front;
      } else {
        OthersUnseen(WatchAll(w, n, Events(Collect(front, f), at)), n, f(m), at);
      }
    }
  }

  /** What one interface sees of a tick. */
  function TickSeen(w: Watch, key: nat, n: Name, st: Option<Iface>, now: nat): Watch {
    if st.None? then w
    else WatchAll(WatchAll(w, n, Events(StopCommands(n, st.value), now)),
                  n, Events(GoCommands(key, n, Stop(st.value), now), now))
  }

  lemma TwoPasses(w: Watch, n: Name, names: seq<Name>, f: Name -> seq<Command>, g: Name -> seq<Command>, at: nat)
    requires Addressed(f) && Addressed(g) && Rises(names)
    ensures WatchAll(w, n, Events(Collect(names, f) + Collect(names, g), at))
            == if n in names then WatchAll(WatchAll(w, n, Events(f(n), at)), n, Events(g(n), at)) else w
  {
    EventsCat(Collect(names, f), Collect(names, g), at);
    WatchCat(w, n, Events(Collect(names, f), at), Events(Collect(names, g), at));
    PassSeen(w, n, names, f, at);
    PassSeen(WatchAll(w, n, Events(Collect(names, f), at)), n, names, g, at);
  }

  lemma PassesAddressed(key: nat, t: map<Name, Iface>, now: nat)
    ensures Addressed(Stops(t)) && Addressed(Goes(key, t, now))
  {
  }

  lemma TickIsLocal(w: Watch, key: nat, t: map<Name, Iface>, n: Name, now: nat)
    ensures WatchAll(w, n, Events(TickCommands(key, t, now), now)) == TickSeen(w, key, n, At(t, n), now)
  {
    PassesAddressed(key, t, now);
    PassesAddressed(key, AllStopped(t), now);
    TwoPasses(w, n, Sorted(t.Keys), Stops(t), Goes(key, AllStopped(t), now), now);
  }

  // ---------------------------------------------------------------- what every action keeps

  /** What the machine knows of an interface is what has been seen of it. */
  predicate Agrees(st: Option<Iface>, w: Watch) {
    && w.bound == BoundTo(st).Some? && (w.bound ==> BoundTo(st) == Some(w.addr))
    && (st.Some? ==>
          var s := st.value;
          && (s.listenerPort.Some? ==> s.listenerPort == w.told)
          && (s.lastBeacon.Some? ==> s.bindAddr.Some? && w.count > 0 && s.lastBeacon.value == w.last)
          && (s.bindAddr.None? ==> s.interval == 0)
          && (s.bindAddr.Some? ==> s.interval == Gap(w.count) && (w.count > 0 ==> s.lastBeacon.Some?)))
  }

  predicate Good(st: Option<Iface>, w: Watch) {
    w.ok && Agrees(st, w)
  }

  lemma SeeOne(w: Watch, n: Name, cmd: Command, at: nat)
    ensures WatchAll(w, n, Events([cmd], at)) == See(w, n, Did(cmd, at))
  {
    var es := Events([cmd], at);
    assert es == [Did(cmd, at)] && es[..0] == [];
    assert WatchAll(w, n, []) == w;
  }

  lemma StopKeeps(w: Watch, n: Name, st: Iface, now: nat)
    requires Good(Some(st), w)
    ensures Good(Some(Stop(st)), WatchAll(w, n, Events(StopCommands(n, st), now)))
  {
    if Stale(st) { SeeOne(w, n, Unbind(n), now); }
  }

  lemma GoKeeps(w: Watch, key: nat, n: Name, st: Iface, now: nat)
    requires Good(Some(st), w)
    ensures Good(Some(Go(st, now)), WatchAll(w, n, Events(GoCommands(key, n, st, now), now)))
  {
    if GoCommands(key, n, st, now) != [] { SeeOne(w, n, GoCommands(key, n, st, now)[0], now); }
  }

  lemma TickKeeps(w: Watch, key: nat, t: map<Name, Iface>, n: Name, now: nat)
    requires Good(At(t, n), w)
    ensures Good(At(AllGone(AllStopped(t), now), n), WatchAll(w, n, Events(TickCommands(key, t, now), now)))
  {
    TickIsLocal(w, key, t, n, now);
    if n in t {
      StopKeeps(w, n, t[n], now);
      GoKeeps(WatchAll(w, n, Events(StopCommands(n, t[n]), now)), key, n, Stop(t[n]), now);
    }
  }

  /** A scan lists a bound interface twice. */
  predicate DropsListener(t: map<Name, Iface>, list: seq<Config>, n: Name) {
    BoundTo(At(t, n)).Some? && Listed(list, n) > 1
  }

  lemma ScanKeeps(w: Watch, key: nat, t: map<Name, Iface>, list: seq<Config>, n: Name)
    requires Good(At(t, n), w) && !DropsListener(t, list, n)
    ensures Good(At(Rescan(key, t, list), n), w)
  {
    RescanAt(key, t, list, n);
    ListedSome(list, n);
  }

  lemma UpKeeps(w: Watch, t: map<Name, Iface>, n: Name, m: Name, port: Port16)
    requires Good(At(t, n), w)
    ensures Good(At(Announcing.Reported(t, m, port), n), WatchAll(w, n, [Told(m, port)]))
  {
    assert [Told(m, port)][..0] == [];
    assert WatchAll(w, n, []) == w;
  }

  /** The client's side of the bargain: it lists no interface twice, or at least not
      while that interface is bound. */
  predicate Careful(key: nat, run: seq<Action>, n: Name) {
    forall i {:trigger run[i]} :: 0 <= i < |run| && run[i].Scan? ==>
      !DropsListener(TableAfter(key, run[..i]), run[i].list, n)
  }

  lemma CarefulBefore(key: nat, run: seq<Action>, n: Name)
    requires run != [] && Careful(key, run, n)
    ensures Careful(key, run[..|run| - 1], n)
  {
    var before := run[..|run| - 1];
    forall i | 0 <= i < |before| && before[i].Scan?
      ensures !DropsListener(TableAfter(key, before[..i]), before[i].list, n)
    {
      assert before[i] == run[i] && before[..i] == run[..i];
    }
  }

  lemma {:induction false} RunKeeps(key: nat, run: seq<Action>, n: Name)
    requires Careful(key, run, n)
    ensures Good(At(TableAfter(key, run), n), WatchAll(START, n, History(key, run)))
    decreases |run|
  {
    if run != [] {
      var before, a := run[..|run| - 1], run[|run| - 1];
      CarefulBefore(key, run, n);
      RunKeeps(key, before, n);
      var t := TableAfter(key, before);
      var w := WatchAll(START, n, History(key, before));
      WatchCat(START, n, History(key, before), EventsOf(key, t, a));
      match a
      case Scan(list) =>
        assert History(key, before) + [] == History(key, before);
        ScanKeeps(w, key, t, list, n);
      case Tick(now) => TickKeeps(w, key, t, n, now);
      case Up(m, port) => UpKeeps(w, t, n, m, port);
    }
  }

  // ---------------------------------------------------------------- in terms of the history

  predicate IsBind(e: Event, n: Name) {
    e.Did? && e.cmd.Bind? && e.cmd.iface == n
  }

  predicate IsUnbind(e: Event, n: Name) {
    e.Did? && e.cmd.Unbind? && e.cmd.iface == n
  }

  predicate IsBeacon(e: Event, n: Name) {
    e.Did? && e.cmd.Beacon? && e.cmd.iface == n
  }

  predicate IsReport(e: Event, n: Name) {
    e.Told? && e.iface == n
  }

  predicate Changes(e: Event, n: Name) {
    IsBind(e, n) || IsUnbind(e, n)
  }

  /** The last Bind or Unbind before position `i` is the one at `b`. */
  predicate LastChange(h: seq<Event>, n: Name, b: int, i: nat) {
    i <= |h| && 0 <= b < i && Changes(h[b], n) && forall m :: b < m < i ==> !Changes(h[m], n)
  }

  predicate NoChange(h: seq<Event>, n: Name, i: nat) {
    i <= |h| && forall m :: 0 <= m < i ==> !Changes(h[m], n)
  }

  predicate LastBeacon(h: seq<Event>, n: Name, j: int, i: nat) {
    i <= |h| && 0 <= j < i && IsBeacon(h[j], n) && forall m :: j < m < i ==> !IsBeacon(h[m], n)
  }

  predicate LastReport(h: seq<Event>, n: Name, r: int, i: nat) {
    i <= |h| && 0 <= r < i && IsReport(h[r], n) && forall m :: r < m < i ==> !IsReport(h[m], n)
  }

  /** Beacons of `n` among the events from `a` up to `b`. */
  function BeaconsIn(h: seq<Event>, n: Name, a: nat, b: nat): nat
    requires b <= |h|
    decreases b
  {
    if b <= a then 0 else BeaconsIn(h, n, a, b - 1) + (if IsBeacon(h[b - 1], n) then 1 else 0)
  }

  /** The monitor's fields, read off the history. */
  ghost predicate Reflects(h: seq<Event>, n: Name, i: nat, w: Watch)
    requires i <= |h|
  {
    && (w.bound ==> exists b :: LastChange(h, n, b, i) && IsBind(h[b], n) && w.count == BeaconsIn(h, n, b, i))
    && (!w.bound ==> NoChange(h, n, i) || exists b :: LastChange(h, n, b, i) && IsUnbind(h[b], n))
    && (w.bound && w.count > 0 ==> exists j :: LastBeacon(h, n, j, i) && h[j].at == w.last)
    && (w.told.Some? ==> exists r :: LastReport(h, n, r, i) && h[r].port == w.told.value)
  }

  lemma ReflectsNext(h: seq<Event>, n: Name, i: nat, w: Watch)
    requires i < |h| && Reflects(h, n, i, w) && See(w, n, h[i]).ok
    ensures Reflects(h, n, i + 1, See(w, n, h[i]))
  {
    var v := See(w, n, h[i]);
    if Changes(h[i], n) {
      assert LastChange(h, n, i, i + 1);
    } else if w.bound {
      var b :| LastChange(h, n, b, i) && IsBind(h[b], n) && w.count == BeaconsIn(h, n, b, i);
      assert LastChange(h, n, b, i + 1);
    } else if b :| LastChange(h, n, b, i) && IsUnbind(h[b], n) {
      assert LastChange(h, n, b, i + 1);
    }
    assert BeaconsIn(h, n, i, i) == 0;
    if IsBeacon(h[i], n) {
      assert LastBeacon(h, n, i, i + 1);
    } else if w.bound && w.count > 0 {
      var j :| LastBeacon(h, n, j, i) && h[j].at == w.last;
      assert LastBeacon(h, n, j, i + 1);
    }
    if IsReport(h[i], n) {
      assert LastReport(h, n, i, i + 1);
    } else if w.told.Some? {
      var r :| LastReport(h, n, r, i) && h[r].port == w.told.value;
      assert LastReport(h, n, r, i + 1);
    }
  }

  lemma {:induction false} ReflectsAll(h: seq<Event>, n: Name, i: nat)
    requires i <= |h| && WatchAll(START, n, h).ok
    ensures WatchAll(START, n, h[..i]).ok && Reflects(h, n, i, WatchAll(START, n, h[..i]))
    decreases i
  {
    assert h == h[..i] + h[i..];
    WatchCat(START, n, h[..i], h[i..]);
    OkStays(WatchAll(START, n, h[..i]), n, h[i..]);
    if i > 0 {
      ReflectsAll(h, n, i - 1);
      assert h[..i][..i - 1] == h[..i - 1];
      ReflectsNext(h, n, i - 1, WatchAll(START, n, h[..i - 1]));
    }
  }

  lemma {:induction false} OkStays(w: Watch, n: Name, es: seq<Event>)
    requires WatchAll(w, n, es).ok
    ensures w.ok
  {
    if es != [] { OkStays(w, n, es[..|es| - 1]); }
  }

  /** A report since the last Bind, read off the history. */
  ghost predicate ReflectsSince(h: seq<Event>, n: Name, i: nat, w: Watch)
    requires i <= |h|
  {
    w.bound && w.since ==> exists b, r :: LastChange(h, n, b, i) && LastReport(h, n, r, i) && b < r
  }

  lemma ReflectsSinceNext(h: seq<Event>, n: Name, i: nat, w: Watch)
    requires i < |h| && Reflects(h, n, i, w) && ReflectsSince(h, n, i, w)
    ensures ReflectsSince(h, n, i + 1, See(w, n, h[i]))
  {
    if w.bound && !Changes(h[i], n) {
      if IsReport(h[i], n) {
        var b :| LastChange(h, n, b, i) && IsBind(h[b], n) && w.count == BeaconsIn(h, n, b, i);
        assert LastChange(h, n, b, i + 1) && LastReport(h, n, i, i + 1);
      } else if w.since {
        var b, r :| LastChange(h, n, b, i) && LastReport(h, n, r, i) && b < r;
        assert LastChange(h, n, b, i + 1) && LastReport(h, n, r, i + 1);
      }
    }
  }

  lemma {:induction false} ReflectsSinceAll(h: seq<Event>, n: Name, i: nat)
    requires i <= |h| && WatchAll(START, n, h).ok
    ensures ReflectsSince(h, n, i, WatchAll(START, n, h[..i]))
    decreases i
  {
    if i > 0 {
      ReflectsSinceAll(h, n, i - 1);
      ReflectsAll(h, n, i - 1);
      assert h[..i][..i - 1] == h[..i - 1];
      ReflectsSinceNext(h, n, i - 1, WatchAll(START, n, h[..i - 1]));
    }
  }

  /** Nothing changed hands since the start, or the last change was an Unbind. */
  ghost predicate UnboundAt(h: seq<Event>, n: Name, i: nat) {
    NoChange(h, n, i) || exists b :: LastChange(h, n, b, i) && IsUnbind(h[b], n)
  }

  ghost predicate BoundAt(h: seq<Event>, n: Name, b: int, i: nat) {
    LastChange(h, n, b, i) && IsBind(h[b], n)
  }

  /** The beacon at `i`, in a period bound at `b`, keeps its distance from the one before
      it: if that was the period's k-th, by k seconds, and by 15 from the 15th on. */
  ghost predicate Spaced(h: seq<Event>, n: Name, b: int, i: nat)
    requires i < |h| && IsBeacon(h[i], n) && 0 <= b
  {
    forall j :: LastBeacon(h, n, j, i) && b < j ==> h[i].at >= h[j].at + Gap(BeaconsIn(h, n, b, i))
  }

  ghost predicate SafeAt(h: seq<Event>, n: Name, i: nat)
    requires i < |h|
  {
    && (IsBind(h[i], n) ==> UnboundAt(h, n, i))
    && (IsUnbind(h[i], n) ==> exists b :: BoundAt(h, n, b, i))
    && (IsBeacon(h[i], n) ==>
          && (exists b :: BoundAt(h, n, b, i) && Spaced(h, n, b, i))
          && (exists r :: LastReport(h, n, r, i) && h[r].port == h[i].cmd.adv.port))
  }

  lemma AllowedMeans(h: seq<Event>, n: Name, i: nat, w: Watch)
    requires i < |h| && Reflects(h, n, i, w) && h[i].Did? && h[i].cmd.iface == n && Allowed(w, h[i].cmd, h[i].at)
    ensures SafeAt(h, n, i)
  {
    if w.bound {
      var b :| LastChange(h, n, b, i) && IsBind(h[b], n) && w.count == BeaconsIn(h, n, b, i);
      assert BoundAt(h, n, b, i);
      if IsBeacon(h[i], n) {
        forall j | LastBeacon(h, n, j, i) && b < j
          ensures h[i].at >= h[j].at + Gap(BeaconsIn(h, n, b, i))
        {
          SomeBeacon(h, n, b, j, i);
          var k :| LastBeacon(h, n, k, i) && h[k].at == w.last;
          assert k == j;
        }
        assert Spaced(h, n, b, i);
      }
    }
  }

  lemma {:induction false} SomeBeacon(h: seq<Event>, n: Name, a: nat, j: nat, b: nat)
    requires b <= |h| && a <= j < b && IsBeacon(h[j], n)
    ensures BeaconsIn(h, n, a, b) > 0
    decreases b
  {
    if j < b - 1 { SomeBeacon(h, n, a, j, b - 1); }
  }

  /** Announce machine safety, over every run and for every interface: each Bind comes
      first or after an Unbind, each Unbind after a Bind, each Beacon in a bound period,
      with the port reported last and at its distance from the beacon before. */
  lemma RunIsSafe(key: nat, run: seq<Action>, n: Name, i: nat)
    requires Careful(key, run, n) && i < |History(key, run)|
    ensures SafeAt(History(key, run), n, i)
  {
    RunKeeps(key, run, n);
    OkIsSafe(History(key, run), n, i);
  }

  lemma OkIsSafe(h: seq<Event>, n: Name, i: nat)
    requires WatchAll(START, n, h).ok && i < |h|
    ensures SafeAt(h, n, i)
  {
    if h[i].Did? && h[i].cmd.iface == n {
      ReflectsAll(h, n, i);
      ReflectsAll(h, n, i + 1);
      assert h[..i + 1][..i] == h[..i];
      AllowedMeans(h, n, i, WatchAll(START, n, h[..i]));
    }
  }

  // ---------------------------------------------------------------- reports before their Bind

  /** The interface is known and not bound. */
  predicate Waiting(t: map<Name, Iface>, n: Name) {
    n in t && t[n].bindAddr.None?
  }

  /** No report comes while the interface waits to be bound. */
  predicate NoneEarly(key: nat, run: seq<Action>, n: Name) {
    forall i {:trigger run[i]} :: 0 <= i < |run| && run[i].Up? && run[i].iface == n ==>
      !Waiting(TableAfter(key, run[..i]), n)
  }

  /** A port on record was reported after the Bind it is used for. */
  predicate Timely(st: Option<Iface>, w: Watch) {
    && w.prompt && (st.Some? && st.value.listenerPort.Some? ==> w.bound && w.since)
    && (BoundTo(st).Some? && w.since ==> st.value.listenerPort.Some?)
  }

  lemma StopStaysTimely(w: Watch, n: Name, st: Iface, now: nat)
    requires Good(Some(st), w) && Timely(Some(st), w)
    ensures Timely(Some(Stop(st)), WatchAll(w, n, Events(StopCommands(n, st), now)))
  {
    if Stale(st) { SeeOne(w, n, Unbind(n), now); }
  }

  lemma GoStaysTimely(w: Watch, key: nat, n: Name, st: Iface, now: nat)
    requires Good(Some(st), w) && Timely(Some(st), w)
    ensures Timely(Some(Go(st, now)), WatchAll(w, n, Events(GoCommands(key, n, st, now), now)))
  {
    if GoCommands(key, n, st, now) != [] { SeeOne(w, n, GoCommands(key, n, st, now)[0], now); }
  }

  lemma TickStaysTimely(w: Watch, key: nat, t: map<Name, Iface>, n: Name, now: nat)
    requires Good(At(t, n), w) && Timely(At(t, n), w)
    ensures Timely(At(AllGone(AllStopped(t), now), n), WatchAll(w, n, Events(TickCommands(key, t, now), now)))
  {
    TickIsLocal(w, key, t, n, now);
    if n in t {
      StopKeeps(w, n, t[n], now);
      StopStaysTimely(w, n, t[n], now);
      GoStaysTimely(WatchAll(w, n, Events(StopCommands(n, t[n]), now)), key, n, Stop(t[n]), now);
    }
  }

  lemma ScanStaysTimely(w: Watch, key: nat, t: map<Name, Iface>, list: seq<Config>, n: Name)
    requires Timely(At(t, n), w) && !DropsListener(t, list, n)
    ensures Timely(At(Rescan(key, t, list), n), w)
  {
    RescanAt(key, t, list, n);
    ListedSome(list, n);
  }

  lemma UpStaysTimely(w: Watch, t: map<Name, Iface>, n: Name, m: Name, port: Port16)
    requires Good(At(t, n), w) && Timely(At(t, n), w) && (m == n ==> !Waiting(t, n))
    ensures Timely(At(Announcing.Reported(t, m, port), n), WatchAll(w, n, [Told(m, port)]))
  {
    assert [Told(m, port)][..0] == [];
    assert WatchAll(w, n, []) == w;
  }

  lemma NoneEarlyBefore(key: nat, run: seq<Action>, n: Name)
    requires run != [] && NoneEarly(key, run, n)
    ensures NoneEarly(key, run[..|run| - 1], n)
  {
    var before := run[..|run| - 1];
    forall i | 0 <= i < |before| && before[i].Up? && before[i].iface == n
      ensures !Waiting(TableAfter(key, before[..i]), n)
    {
      assert before[i] == run[i] && before[..i] == run[..i];
    }
  }

  lemma {:induction false} RunStaysTimely(key: nat, run: seq<Action>, n: Name)
    requires Careful(key, run, n) && NoneEarly(key, run, n)
    ensures Timely(At(TableAfter(key, run), n), WatchAll(START, n, History(key, run)))
    decreases |run|
  {
    if run != [] {
      var before, a := run[..|run| - 1], run[|run| - 1];
      CarefulBefore(key, run, n);
      NoneEarlyBefore(key, run, n);
      RunKeeps(key, before, n);
      RunStaysTimely(key, before, n);
      var t := TableAfter(key, before);
      var w := WatchAll(START, n, History(key, before));
      WatchCat(START, n, History(key, before), EventsOf(key, t, a));
      match a
      case Scan(list) =>
        assert History(key, before) + [] == History(key, before);
        ScanStaysTimely(w, key, t, list, n);
      case Tick(now) => TickStaysTimely(w, key, t, n, now);
      case Up(m, port) => UpStaysTimely(w, t, n, m, port);
    }
  }

  /** Once not prompt, never again. */
  lemma {:induction false} PromptStays(w: Watch, n: Name, es: seq<Event>)
    requires WatchAll(w, n, es).prompt
    ensures w.prompt
  {
    if es != [] { PromptStays(w, n, es[..|es| - 1]); }
  }

  lemma PromptMeans(h: seq<Event>, n: Name, i: nat)
    requires WatchAll(START, n, h).ok && WatchAll(START, n, h).prompt && i < |h| && IsBeacon(h[i], n)
    ensures WatchAll(START, n, h[..i]).bound && WatchAll(START, n, h[..i]).since
  {
    var w, v := WatchAll(START, n, h[..i]), WatchAll(START, n, h[..i + 1]);
    assert h[..i + 1][..i] == h[..i] && h[..i + 1] + h[i + 1..] == h;
    assert v == See(w, n, h[i]);
    WatchCat(START, n, h[..i + 1], h[i + 1..]);
    OkStays(v, n, h[i + 1..]);
    PromptStays(v, n, h[i + 1..]);
  }

  /** The beacon's report, after the Bind of its period. */
  ghost predicate ReportedSince(h: seq<Event>, n: Name, i: nat)
    requires i < |h| && IsBeacon(h[i], n)
  {
    exists b, r :: BoundAt(h, n, b, i) && LastReport(h, n, r, i) && b < r && h[r].port == h[i].cmd.adv.port
  }

  lemma SinceMeans(h: seq<Event>, n: Name, i: nat, w: Watch)
    requires i < |h| && IsBeacon(h[i], n) && SafeAt(h, n, i) && ReflectsSince(h, n, i, w) && w.bound && w.since
    ensures ReportedSince(h, n, i)
  {
    var b, r :| LastChange(h, n, b, i) && LastReport(h, n, r, i) && b < r;
    var c :| BoundAt(h, n, c, i) && Spaced(h, n, c, i);
    var q :| LastReport(h, n, q, i) && h[q].port == h[i].cmd.adv.port;
    assert b == c && r == q;
  }

  /** In terms of the history: over every careful run without early reports, each beacon's
      port was reported last of all and after the Bind of the period it falls in. */
  lemma RunIsPrompt(key: nat, run: seq<Action>, n: Name, i: nat)
    requires Careful(key, run, n) && NoneEarly(key, run, n)
    requires i < |History(key, run)| && IsBeacon(History(key, run)[i], n)
    ensures ReportedSince(History(key, run), n, i)
  {
    var h := History(key, run);
    RunKeeps(key, run, n);
    RunStaysTimely(key, run, n);
    RunIsSafe(key, run, n, i);
    ReflectsSinceAll(h, n, i);
    PromptMeans(h, n, i);
    SinceMeans(h, n, i, WatchAll(START, n, h[..i]));
  }

  /** What comes after a report, in the shortest way to a beacon: the interface is listed
      once, to beacon where it is bound if it is, and two ticks pass. */
  function ThenBeacon(n: Name, port: Port16, c: Config, now: nat): seq<Action> {
    [Up(n, port), Scan([c]), Tick(now), Tick(now)]
  }

  /** What one interface sees of an action. */
  function ActionSeen(w: Watch, key: nat, n: Name, st: Option<Iface>, a: Action): Watch {
    match a
    case Scan(_) => w
    case Tick(now) => TickSeen(w, key, n, st, now)
    case Up(m, port) => See(w, n, Told(m, port))
  }

  lemma OneMore(key: nat, run: seq<Action>, a: Action, n: Name)
    ensures TableAfter(key, run + [a]) == TableOf(key, TableAfter(key, run), a)
    ensures WatchAll(START, n, History(key, run + [a]))
            == ActionSeen(WatchAll(START, n, History(key, run)), key, n, At(TableAfter(key, run), n), a)
  {
    var all, t, w := run + [a], TableAfter(key, run), WatchAll(START, n, History(key, run));
    assert all[..|all| - 1] == run;
    assert History(key, all) == History(key, run) + EventsOf(key, t, a);
    WatchCat(START, n, History(key, run), EventsOf(key, t, a));
    match a
    case Scan(_) =>
    case Tick(now) => TickIsLocal(w, key, t, n, now);
    case Up(m, port) => assert [Told(m, port)][..0] == [] && WatchAll(w, n, []) == w;
  }

  function SeenAlong(w: Watch, key: nat, t: map<Name, Iface>, n: Name, more: seq<Action>): Watch
    decreases |more|
  {
    if more == [] then w
    else SeenAlong(ActionSeen(w, key, n, At(t, n), more[0]), key, TableOf(key, t, more[0]), n, more[1..])
  }

  lemma Regroup(run: seq<Action>, more: seq<Action>)
    requires more != []
    ensures run + more == (run + [more[0]]) + more[1..]
  {
  }

  lemma SeenCons(w: Watch, key: nat, t: map<Name, Iface>, n: Name, a: Action, rest: seq<Action>)
    ensures SeenAlong(w, key, t, n, [a] + rest)
            == SeenAlong(ActionSeen(w, key, n, At(t, n), a), key, TableOf(key, t, a), n, rest)
  {
    assert ([a] + rest)[1..] == rest;
  }

  lemma {:induction false} SeenAlongIs(key: nat, run: seq<Action>, more: seq<Action>, n: Name)
    ensures WatchAll(START, n, History(key, run + more))
            == SeenAlong(WatchAll(START, n, History(key, run)), key, TableAfter(key, run), n, more)
    decreases |more|
  {
    if more == [] {
      assert run + more == run;
    } else {
      OneMore(key, run, more[0], n);
      Regroup(run, more);
      SeenAlongIs(key, run + [more[0]], more[1..], n);
    }
  }

  lemma SeenFour(w: Watch, key: nat, t: map<Name, Iface>, n: Name, port: Port16, c: Config, now: nat)
    ensures var u := Rescan(key, Announcing.Reported(t, n, port), [c]);
            SeenAlong(w, key, t, n, ThenBeacon(n, port, c, now))
            == TickSeen(TickSeen(See(w, n, Told(n, port)), key, n, At(u, n), now), key, n,
                        At(AllGone(AllStopped(u), now), n), now)
  {
    var tick := Tick(now);
    var t1 := Announcing.Reported(t, n, port);
    var t2 := Rescan(key, t1, [c]);
    var v := See(w, n, Told(n, port));
    assert ThenBeacon(n, port, c, now) == [Up(n, port)] + ([Scan([c])] + ([tick] + ([tick] + [])));
    SeenCons(w, key, t, n, Up(n, port), [Scan([c])] + ([tick] + ([tick] + [])));
    SeenCons(v, key, t1, n, Scan([c]), [tick] + ([tick] + []));
    SeenCons(v, key, t2, n, tick, [tick] + []);
    SeenCons(TickSeen(v, key, n, At(t2, n), now), key, AllGone(AllStopped(t2), now), n, tick, []);
  }

  lemma ListedOnce(c: Config)
    requires Usable(c)
    ensures Listed([c], c.name) == 1 && LastListed([c], c.name) == Some(c)
  {
    assert [c][1..] == [];
  }

  /** An early report is taken for the next listener's: the beacon after the Bind carries it. */
  lemma EarlyIsUsed(w: Watch, key: nat, n: Name, st: Iface, c: Config, now: nat)
    requires st.bindAddr.None? && st.lastBeacon.None? && st.listenerPort.Some? && st.cfg == Some(c) && c.beacon
    ensures !TickSeen(TickSeen(w, key, n, Some(st), now), key, n, Some(Go(Stop(st), now)), now).prompt
  {
    var bound := Go(Stop(st), now);
    SeeOne(w, n, GoCommands(key, n, st, now)[0], now);
    var v := TickSeen(w, key, n, Some(st), now);
    assert !v.since;
    SeeOne(v, n, GoCommands(key, n, bound, now)[0], now);
  }

  lemma NoneEarlyAfter(key: nat, run: seq<Action>, n: Name, port: Port16, c: Config, now: nat)
    requires NoneEarly(key, run, n) && !Waiting(TableAfter(key, run), n)
    ensures NoneEarly(key, run + ThenBeacon(n, port, c, now), n)
  {
    var all := run + ThenBeacon(n, port, c, now);
    forall i | 0 <= i < |all| && all[i].Up? && all[i].iface == n
      ensures !Waiting(TableAfter(key, all[..i]), n)
    {
      if i < |run| { assert all[i] == run[i] && all[..i] == run[..i]; } else { assert all[..i] == run; }
    }
  }

  lemma CarefulAfter(key: nat, run: seq<Action>, n: Name, port: Port16, c: Config, now: nat)
    requires Careful(key, run, n)
    ensures Careful(key, run + ThenBeacon(n, port, c, now), n)
  {
    var all := run + ThenBeacon(n, port, c, now);
    forall i | 0 <= i < |all| && all[i].Scan?
      ensures !DropsListener(TableAfter(key, all[..i]), all[i].list, n)
    {
      if i < |run| {
        assert all[i] == run[i] && all[..i] == run[..i];
      } else {
        assert all[i].list == [c] && [c][1..] == [];
        assert Listed([c][1..], n) == 0;
      }
    }
  }

  /** After any careful run without early reports, one more report: every beacon that may
      follow has its report after its Bind if and only if the interface is not known and
      unbound when the report comes. If it is, two ticks after it is listed to beacon it
      beacons the port of a listener that is not the one bound. */
  lemma EarlyReportBreaksIff(key: nat, run: seq<Action>, n: Name, port: Port16, c: Config, now: nat)
    requires Careful(key, run, n) && NoneEarly(key, run, n) && c.name == n && Usable(c) && c.beacon
    ensures WatchAll(START, n, History(key, run + ThenBeacon(n, port, c, now))).prompt
            <==> !Waiting(TableAfter(key, run), n)
  {
    var t := TableAfter(key, run);
    if Waiting(t, n) {
      RunKeeps(key, run, n);
      SeenAlongIs(key, run, ThenBeacon(n, port, c, now), n);
      SeenFour(WatchAll(START, n, History(key, run)), key, t, n, port, c, now);
      var t1 := Announcing.Reported(t, n, port);
      ListedOnce(c);
      RescanAt(key, t1, [c], n);
      var v := See(WatchAll(START, n, History(key, run)), n, Told(n, port));
      EarlyIsUsed(v, key, n, Rescan(key, t1, [c])[n], c, now);
    } else {
      NoneEarlyAfter(key, run, n, port, c, now);
      CarefulAfter(key, run, n, port, c, now);
      RunStaysTimely(key, run + ThenBeacon(n, port, c, now), n);
    }
  }

  // ---------------------------------------------------------------- what a tick does

  /** The configuration of an interface in the latest scan. */
  function Listing(run: seq<Action>, n: Name): Option<Config> {
    if run == [] then None
    else
      match run[|run| - 1]
      case Scan(list) => LastListed(list, n)
      case _ => Listing(run[..|run| - 1], n)
  }

  function CfgAt(t: map<Name, Iface>, n: Name): Option<Config> {
    if n in t then t[n].cfg else None
  }

  /** The table holds just that, with the hash of its password. */
  lemma {:induction false} TableHoldsListing(key: nat, run: seq<Action>, n: Name)
    ensures var t := TableAfter(key, run);
            && CfgAt(t, n) == Listing(run, n)
            && (CfgAt(t, n).Some? ==> t[n].hash == Hash(t[n].cfg.value.password, key))
    decreases |run|
  {
    if run != [] {
      TableHoldsListing(key, run[..|run| - 1], n);
      match run[|run| - 1]
      case Scan(list) =>
        RescanAt(key, TableAfter(key, run[..|run| - 1]), list, n);
        ListedSome(list, n);
      case _ =>
    }
  }

  lemma {:induction false} CollectMeans(names: seq<Name>, f: Name -> seq<Command>, cmd: Command)
    ensures cmd in Collect(names, f) <==> exists m :: m in names && cmd in f(m)
  {
    if names != [] {
      var front, last := names[..|names| - 1], names[|names| - 1];
      assert names == front + [last];
      CollectMeans(front, f, cmd);
    }
  }

  lemma CollectOwn(names: seq<Name>, f: Name -> seq<Command>, cmd: Command)
    requires Addressed(f)
    ensures cmd in Collect(names, f) <==> cmd.iface in names && cmd in f(cmd.iface)
  {
    CollectMeans(names, f, cmd);
    forall m | cmd in f(m) ensures m == cmd.iface {
      var i :| 0 <= i < |f(m)| && f(m)[i] == cmd;
    }
  }

  /** A tick's commands are each interface's own. */
  lemma TickCommandsMean(key: nat, t: map<Name, Iface>, now: nat, cmd: Command)
    ensures cmd in TickCommands(key, t, now) <==>
              cmd.iface in t && (cmd in StopCommands(cmd.iface, t[cmd.iface])
                                 || cmd in GoCommands(key, cmd.iface, Stop(t[cmd.iface]), now))
  {
    PassesAddressed(key, t, now);
    PassesAddressed(key, AllStopped(t), now);
    CollectOwn(Sorted(t.Keys), Stops(t), cmd);
    CollectOwn(Sorted(t.Keys), Goes(key, AllStopped(t), now), cmd);
  }

  /** The interface is bound where its listing says. */
  predicate Kept(w: Watch, listed: Option<Config>) {
    w.bound && listed.Some? && listed.value.linkLocal == w.addr
  }

  /** The next beacon's time has come. */
  predicate Due(w: Watch, now: nat) {
    w.count == 0 || now >= w.last + Gap(w.count)
  }

  /** One interface's commands, from what has been seen of it and how it is listed. */
  lemma OwnCommands(key: nat, n: Name, st: Iface, w: Watch, now: nat, cmd: Command)
    requires Good(Some(st), w) && (st.cfg.Some? ==> st.hash == Hash(st.cfg.value.password, key))
    ensures cmd in StopCommands(n, st) || cmd in GoCommands(key, n, Stop(st), now) <==>
              || (cmd == Unbind(n) && w.bound && !Kept(w, st.cfg))
              || (&& st.cfg.Some? && st.cfg.value.beacon && !Kept(w, st.cfg)
                  && cmd == Bind(n, st.cfg.value.linkLocal, st.cfg.value.port, st.cfg.value))
              || (&& Kept(w, st.cfg) && st.cfg.value.beacon && st.listenerPort.Some? && w.told.Some? && Due(w, now)
                  && cmd == Beacon(n, Advertisement(0, 5, key, w.told.value, Hash(st.cfg.value.password, key))))
  {
  }

  /** What a tick does, exactly, after any careful run, from the latest scan and what has been
      seen: it unbinds an interface that is bound but not listed at that address, binds one
      that is listed to beacon and not bound there, and beacons, with the port reported last
      and the hash of the listed password, on one that is listed to beacon, bound there and
      has a port, if no beacon of the period has gone out or the k-th did min(k, 15) seconds
      ago at least. */
  lemma TickDoes(key: nat, run: seq<Action>, now: nat, cmd: Command)
    requires Careful(key, run, cmd.iface)
    ensures var n, t := cmd.iface, TableAfter(key, run);
            var w, listed := WatchAll(START, n, History(key, run)), Listing(run, n);
            cmd in TickCommands(key, t, now) <==>
              || (cmd == Unbind(n) && w.bound && !Kept(w, listed))
              || (&& listed.Some? && listed.value.beacon && !Kept(w, listed)
                  && cmd == Bind(n, listed.value.linkLocal, listed.value.port, listed.value))
              || (&& Kept(w, listed) && listed.value.beacon && n in t && t[n].listenerPort.Some? && w.told.Some?
                  && Due(w, now)
                  && cmd == Beacon(n, Advertisement(0, 5, key, w.told.value, Hash(listed.value.password, key))))
  {
    var n, t := cmd.iface, TableAfter(key, run);
    var w := WatchAll(START, n, History(key, run));
    RunKeeps(key, run, n);
    TableHoldsListing(key, run, n);
    TickCommandsMean(key, t, now, cmd);
    if n in t { OwnCommands(key, n, t[n], w, now, cmd); }
  }

  /** Without early reports, a bound interface has a port exactly if one was reported since
      its Bind; so the beacon's condition is on the history alone. */
  lemma PortKnownIff(key: nat, run: seq<Action>, n: Name)
    requires Careful(key, run, n) && NoneEarly(key, run, n)
    ensures var t, w := TableAfter(key, run), WatchAll(START, n, History(key, run));
            w.bound ==> n in t && (t[n].listenerPort.Some? <==> w.since)
  {
    RunKeeps(key, run, n);
    RunStaysTimely(key, run, n);
  }

  /** The group is joined on an interface from the first tick that finds it listed to listen,
      for as long as it is known. */
  lemma TickJoins(t: map<Name, Iface>, n: Name, now: nat)
    requires n in t
    ensures AllGone(AllStopped(t), now)[n].joined <==>
              t[n].joined || (CfgAt(t, n).Some? && CfgAt(t, n).value.listen)
  {
  }

  // ---------------------------------------------------------------- listing an interface twice

  /** A scan lists a bound interface twice and wants it to beacon. */
  predicate BindsTwice(t: map<Name, Iface>, list: seq<Config>, n: Name) {
    DropsListener(t, list, n) && LastListed(list, n).Some? && LastListed(list, n).value.beacon
  }

  lemma ScanThenTick(w: Watch, key: nat, t: map<Name, Iface>, n: Name, list: seq<Config>, now: nat)
    requires Good(At(t, n), w)
    ensures WatchAll(w, n, Events(TickCommands(key, Rescan(key, t, list), now), now)).ok <==> !BindsTwice(t, list, n)
  {
    var next := Rescan(key, t, list);
    ListedSome(list, n);
    if DropsListener(t, list, n) {
      RescanAt(key, t, list, n);
      TickIsLocal(w, key, next, n, now);
      BlankBindsAgain(w, key, n, next[n], now);
    } else {
      ScanKeeps(w, key, t, list, n);
      TickKeeps(w, key, next, n, now);
    }
  }

  /** After any careful run, a scan and a tick keep the machine safe exactly when the
      scan does not list a bound interface twice and want it to beacon. When it does,
      the tick binds it again without an Unbind. */
  lemma DoubleListingBreaksIff(key: nat, run: seq<Action>, n: Name, list: seq<Config>, now: nat)
    requires Careful(key, run, n)
    ensures WatchAll(START, n, History(key, run + [Scan(list), Tick(now)])).ok
            <==> !BindsTwice(TableAfter(key, run), list, n)
  {
    var t := TableAfter(key, run);
    RunKeeps(key, run, n);
    TwoMore(key, run, Scan(list), Tick(now));
    assert History(key, run) + [] == History(key, run);
    WatchCat(START, n, History(key, run), EventsOf(key, Rescan(key, t, list), Tick(now)));
    ScanThenTick(WatchAll(START, n, History(key, run)), key, t, n, list, now);
  }

  lemma TwoMore(key: nat, run: seq<Action>, a: Action, b: Action)
    ensures var t := TableAfter(key, run);
            History(key, run + [a, b]) == History(key, run) + EventsOf(key, t, a) + EventsOf(key, TableOf(key, t, a), b)
  {
    var all := run + [a, b];
    assert all[..|all| - 1] == run + [a] && (run + [a])[..|run|] == run;
  }

  /** An interface taken for new while its listener is bound. */
  lemma BlankBindsAgain(w: Watch, key: nat, n: Name, st: Iface, now: nat)
    requires w.ok && w.bound && st.bindAddr.None? && st.cfg.Some? && st.listenerPort.None?
    ensures TickSeen(w, key, n, Some(st), now).ok <==> !st.cfg.value.beacon
  {
    if st.cfg.value.beacon { SeeOne(w, n, GoCommands(key, n, st, now)[0], now); }
  }

  /** The shortest such run: one interface, listed once, bound, then listed twice. */
  lemma ListedTwiceBindsTwice(key: nat, c: Config)
    requires Usable(c) && c.beacon
    ensures !WatchAll(START, c.name, History(key, [Scan([c]), Tick(0)] + [Scan([c, c]), Tick(1)])).ok
  {
    var n, run := c.name, [Scan([c]), Tick(0)];
    var st := Blank(Hash(c.password, key)).(cfg := Some(c));
    assert run[..0] == [] && run[..1] == [Scan([c])] && run[..1][..0] == [];
    assert run[..2][..1] == run[..1] && run[..2] == run;
    var t := TableAfter(key, run[..1]);
    assert TableAfter(key, run[..0]) == map[];
    assert [c][1..] == [] && [c, c][1..] == [c];
    RescanAt(key, map[], [c], n);
    assert At(t, n) == Some(st);
    assert TableAfter(key, run) == AllGone(AllStopped(t), 0);
    assert Listed([c], n) == 1 && Listed([c, c], n) == 2;
    ListedSome([c, c], n);
    assert LastListed([c, c], n) == Some(c);
    DoubleListingBreaksIff(key, run, n, [c, c], 1);
  }
}
