/** Whole runs of the source-routing table (`src/pathfind.rs`): lookups are throttled,
    held payloads go out at most once and only to keys of the transform they wait for,
    and packets travel only on paths their destination has signed. */
module PathRuns {
  import opened Basics
  import opened Addresses
  import opened Pathfinding

  datatype Action<K> =
    | Lookup(dest: K)
    | Sending(dest: K, payload: Payload)
    | Holding(dest: K, payload: Payload)
    | Notice(notify: Notify<K>)
    | Report(dest: K)
    | Expiry
    | Heard(key: K)

  datatype Step<K> = Step(act: Action<K>, at: nat)

  function BookOf<K(==, !new)>(xkey: Transform<K>, b: Book<K>, s: Step<K>): Book<K> {
    match s.act
    case Lookup(dest) => LookUp(xkey, b, dest, s.at)
    case Sending(dest, p) => Send(xkey, b, dest, p, s.at)
    case Holding(dest, p) => Hold(xkey, b, dest, p, s.at)
    case Notice(n) => Notified(xkey, b, n, s.at)
    case Report(dest) => Broken(xkey, b, dest, s.at)
    case Expiry => Expired(b, s.at)
    case Heard(k) => Refreshed(b, k, s.at)
  }

  function EventsOf<K(==, !new)>(xkey: Transform<K>, b: Book<K>, s: Step<K>): seq<Event<K>> {
    match s.act
    case Lookup(dest) => LookUpEvents(xkey, b, dest, s.at)
    case Sending(dest, p) => SendEvents(xkey, b, dest, p, s.at)
    case Holding(dest, p) => HoldEvents(xkey, b, dest, p, s.at)
    case Notice(n) => NotifiedEvents(xkey, b, n)
    case Report(dest) => BrokenEvents(xkey, b, dest, s.at)
    case Expiry => []
    case Heard(_) => []
  }

  // ---------------------------------------------------------------- the safety monitor

  /** What has been seen: of one transformed key the payloads held and freed and the
      last lookup; of all keys the paths they signed in notifies that came in. */
  datatype Watch<K> = Watch(ok: bool, held: multiset<Payload>, freed: multiset<Payload>, last: Option<nat>,
                         signed: seq<(K, Path)>)

  ghost function Start<K>(): Watch<K> {
    Watch(true, multiset{}, multiset{}, None, [])
  }

  ghost predicate Allowed<K>(xkey: Transform<K>, w: Watch<K>, x: K, e: Event<K>) {
    match e
    case Learned(_, _, _) => true
    case Looked(y, at) => y == x && w.last.Some? ==> at >= w.last.value + PATH_THROTTLE
    case Held(_, _) => true
    case Freed(y, p, to) => y == x ==> xkey(to) == x && w.freed[p] < w.held[p]
    case Routed(dest, path) => (dest, path) in w.signed
  }

  ghost function See<K>(xkey: Transform<K>, w: Watch<K>, x: K, e: Event<K>): Watch<K> {
    var v := w.(ok := w.ok && Allowed(xkey, w, x, e));
    match e
    case Learned(_, _, _) => v
    case Looked(y, at) => if y == x then v.(last := Some(at)) else v
    case Held(y, p) => if y == x then v.(held := w.held + multiset{p}) else v
    case Freed(y, p, _) => if y == x then v.(freed := w.freed + multiset{p}) else v
    case Routed(_, _) => v
  }

  ghost function SeeAll<K>(xkey: Transform<K>, w: Watch<K>, x: K, es: seq<Event<K>>): Watch<K>
    decreases |es|
  {
    if es == [] then w else SeeAll(xkey, See(xkey, w, x, es[0]), x, es[1..])
  }

  /** The paths that the notify of a step brings under a valid signature. */
  function SignedBy<K>(s: Step<K>): seq<(K, Path)> {
    if s.act.Notice? && s.act.notify.valid then [(s.act.notify.source, s.act.notify.path)] else []
  }

  ghost function Reading<K>(w: Watch<K>, s: Step<K>): Watch<K> {
    w.(signed := w.signed + SignedBy(s))
  }

  function BookAfter<K(==, !new)>(xkey: Transform<K>, run: seq<Step<K>>): Book<K> {
    if run == [] then Book(map[], map[]) else BookOf(xkey, BookAfter(xkey, run[..|run| - 1]), run[|run| - 1])
  }

  ghost function WatchAfter<K(!new)>(xkey: Transform<K>, run: seq<Step<K>>, x: K): Watch<K> {
    if run == [] then Start()
    else
      var before := run[..|run| - 1];
      var s := run[|run| - 1];
      SeeAll(xkey, Reading(WatchAfter(xkey, before, x), s), x, EventsOf(xkey, BookAfter(xkey, before), s))
  }

  // ---------------------------------------------------------------- what every step keeps

  function PendingAt<K(==, !new)>(b: Book<K>, x: K): multiset<Payload> {
    if x in b.rumors && b.rumors[x].pending.Some? then multiset{b.rumors[x].pending.value} else multiset{}
  }

  /** The last lookup is on record, or so long past that its rumour may have expired. */
  predicate LookKnown<K(==, !new)>(b: Book<K>, last: Option<nat>, x: K, clock: nat) {
    if x in b.rumors && b.rumors[x].sendAt.Some? then
      last == b.rumors[x].sendAt && b.rumors[x].deadline >= last.value + PATH_TIMEOUT
    else last.Some? ==> clock >= last.value + PATH_TIMEOUT
  }

  ghost predicate PathsSigned<K(!new)>(b: Book<K>, signed: seq<(K, Path)>) {
    forall k :: k in b.entries ==> (k, b.entries[k].path) in signed
  }

  ghost predicate Inv<K(!new)>(b: Book<K>, w: Watch<K>, x: K, clock: nat) {
    && w.ok && w.freed + PendingAt(b, x) <= w.held
    && LookKnown(b, w.last, x, clock) && PathsSigned(b, w.signed)
  }

  lemma SeeNone<K(!new)>(xkey: Transform<K>, w: Watch<K>, x: K)
    ensures SeeAll(xkey, w, x, []) == w
  {
  }

  lemma SeeOne<K(!new)>(xkey: Transform<K>, w: Watch<K>, x: K, e: Event<K>)
    ensures SeeAll(xkey, w, x, [e]) == See(xkey, w, x, e)
  {
    assert [e][1..] == [];
    SeeNone(xkey, See(xkey, w, x, e), x);
  }

  lemma {:induction false} SeeCat<K(!new)>(xkey: Transform<K>, w: Watch<K>, x: K, a: seq<Event<K>>, b: seq<Event<K>>)
    ensures SeeAll(xkey, w, x, a + b) == SeeAll(xkey, SeeAll(xkey, w, x, a), x, b)
    decreases |a|
  {
    if a == [] {
      assert a + b == b;
    } else {
      assert (a + b)[1..] == a[1..] + b;
      SeeCat(xkey, See(xkey, w, x, a[0]), x, a[1..], b);
    }
  }

  lemma LookUpKeeps<K(!new)>(xkey: Transform<K>, b: Book<K>, w: Watch<K>, x: K, clock: nat, dest: K, now: nat)
    requires Inv(b, w, x, clock) && clock <= now
    ensures Inv(LookUp(xkey, b, dest, now), SeeAll(xkey, w, x, LookUpEvents(xkey, b, dest, now)), x, now)
  {
    if Throttled(b, xkey(dest), now) {
      SeeNone(xkey, w, x);
    } else {
      SeeOne(xkey, w, x, Looked(xkey(dest), now));
    }
  }

  /** Holding a payload, whatever was held before. */
  lemma HoldingKeeps<K(!new)>(xkey: Transform<K>, b: Book<K>, w: Watch<K>, x: K, clock: nat, y: K, r: Rumor<K>,
                              p: Payload)
    requires Inv(b, w, x, clock) && r.pending == Some(p)
    requires if y in b.rumors then r.sendAt == b.rumors[y].sendAt && r.deadline == b.rumors[y].deadline
             else r.sendAt.None?
    ensures Inv(WithRumor(b, y, r), SeeAll(xkey, w, x, [Held(y, p)]), x, clock)
  {
    SeeOne(xkey, w, x, Held(y, p));
  }

  lemma SendKeeps<K(!new)>(xkey: Transform<K>, b: Book<K>, w: Watch<K>, x: K, clock: nat, dest: K, p: Payload, now: nat)
    requires Inv(b, w, x, clock) && clock <= now
    ensures Inv(Send(xkey, b, dest, p, now), SeeAll(xkey, w, x, SendEvents(xkey, b, dest, p, now)), x, now)
  {
    if HasPath(b, dest) {
      SeeOne(xkey, w, x, Routed(dest, b.entries[dest].path));
    } else {
      var c, y, es := LookUp(xkey, b, dest, now), xkey(dest), LookUpEvents(xkey, b, dest, now);
      LookUpKeeps(xkey, b, w, x, clock, dest, now);
      SeeCat(xkey, w, x, es, [Held(y, p)]);
      HoldingKeeps(xkey, c, SeeAll(xkey, w, x, es), x, now, y, c.rumors[y].(pending := Some(p)), p);
    }
  }

  lemma HoldKeeps<K(!new)>(xkey: Transform<K>, b: Book<K>, w: Watch<K>, x: K, clock: nat, dest: K, p: Payload, now: nat)
    requires Inv(b, w, x, clock) && clock <= now
    ensures Inv(Hold(xkey, b, dest, p, now), SeeAll(xkey, w, x, HoldEvents(xkey, b, dest, p, now)), x, now)
  {
    var y := xkey(dest);
    var r := RumorAt(b, y, dest, now).(pending := Some(p), pendingIsApp := true);
    var c := WithRumor(b, y, r);
    HoldingKeeps(xkey, b, w, x, clock, y, r, p);
    assert LookUpEvents(xkey, c, dest, now) == LookUpEvents(xkey, b, dest, now);
    SeeCat(xkey, w, x, [Held(y, p)], LookUpEvents(xkey, c, dest, now));
    LookUpKeeps(xkey, c, SeeAll(xkey, w, x, [Held(y, p)]), x, clock, dest, now);
  }

  /** A signed path learned. */
  lemma LearningKeeps<K(!new)>(xkey: Transform<K>, b: Book<K>, w: Watch<K>, x: K, clock: nat, k: K, e: PathEntry)
    requires Inv(b, w, x, clock) && (k, e.path) in w.signed
    ensures var v := SeeAll(xkey, w, x, [Learned(k, e.path, e.seq_)]);
            Inv(b.(entries := b.entries[k := e]), v, x, clock) && v.signed == w.signed
  {
    SeeOne(xkey, w, x, Learned(k, e.path, e.seq_));
  }

  lemma LettingGoKeeps<K(!new)>(xkey: Transform<K>, b: Book<K>, w: Watch<K>, x: K, clock: nat, k: K)
    requires Inv(b, w, x, clock) && xkey(k) in b.rumors && b.rumors[xkey(k)].pending.Some?
    ensures var y := xkey(k);
            var v := See(xkey, w, x, Freed(y, b.rumors[y].pending.value, k));
            Inv(WithRumor(b, y, b.rumors[y].(pending := None)), v, x, clock) && v.signed == w.signed
  {
    var y := xkey(k);
    var p, c := b.rumors[y].pending.value, WithRumor(b, y, b.rumors[y].(pending := None));
    assert LookKnown(c, w.last, x, clock) && PathsSigned(c, w.signed);
    if y == x {
      assert PendingAt(b, x) == multiset{p} && PendingAt(c, x) == multiset{};
      OneMoreFreed(w.freed, w.held, p);
    } else {
      assert PendingAt(c, x) == PendingAt(b, x);
    }
  }

  lemma OneMoreFreed(freed: multiset<Payload>, held: multiset<Payload>, p: Payload)
    requires freed + multiset{p} <= held
    ensures freed[p] < held[p] && (freed + multiset{p}) + multiset{} <= held
  {
    assert (freed + multiset{p})[p] == freed[p] + 1;
  }

  /** A held payload let go, on the path just learned if it was sealed. */
  lemma FreeingKeeps<K(!new)>(xkey: Transform<K>, b: Book<K>, w: Watch<K>, x: K, clock: nat, k: K, path: Path,
                              routed: bool)
    requires Inv(b, w, x, clock) && xkey(k) in b.rumors && b.rumors[xkey(k)].pending.Some? && (k, path) in w.signed
    ensures var y := xkey(k);
            var freed := Freed(y, b.rumors[y].pending.value, k);
            Inv(WithRumor(b, y, b.rumors[y].(pending := None)),
                SeeAll(xkey, w, x, [freed] + (if routed then [Routed(k, path)] else [])), x, clock)
  {
    var y := xkey(k);
    var freed := Freed(y, b.rumors[y].pending.value, k);
    LettingGoKeeps(xkey, b, w, x, clock, k);
    SeeOne(xkey, w, x, freed);
    if routed {
      SeeCat(xkey, w, x, [freed], [Routed(k, path)]);
      RoutingSeen(xkey, SeeAll(xkey, w, x, [freed]), x, k, path);
    } else {
      assert [freed] + [] == [freed];
    }
  }

  lemma RoutingSeen<K(!new)>(xkey: Transform<K>, w: Watch<K>, x: K, k: K, path: Path)
    requires w.ok && (k, path) in w.signed
    ensures SeeAll(xkey, w, x, [Routed(k, path)]) == w
  {
    SeeOne(xkey, w, x, Routed(k, path));
  }

  lemma NotifiedKeeps<K(!new)>(xkey: Transform<K>, b: Book<K>, w: Watch<K>, x: K, clock: nat, n: Notify<K>, now: nat)
    requires Inv(b, w, x, clock) && (n.valid ==> (n.source, n.path) in w.signed)
    ensures Inv(Notified(xkey, b, n, now), SeeAll(xkey, w, x, NotifiedEvents(xkey, b, n)), x, clock)
  {
    if Accepts(xkey, b, n) {
      var y, e := xkey(n.source), PathEntry(n.path, n.seq_, now + PATH_TIMEOUT, false);
      var c, first := b.(entries := b.entries[n.source := e]), [Learned(n.source, n.path, n.seq_)];
      LearningKeeps(xkey, b, w, x, clock, n.source, e);
      if Frees(xkey, b, n) {
        var rest := [Freed(y, b.rumors[y].pending.value, n.source)]
                    + (if b.rumors[y].pendingIsApp then [] else [Routed(n.source, n.path)]);
        SeeCat(xkey, w, x, first, rest);
        FreeingKeeps(xkey, c, SeeAll(xkey, w, x, first), x, clock, n.source, n.path, !b.rumors[y].pendingIsApp);
      } else {
        assert first + [] == first;
      }
    } else {
      SeeNone(xkey, w, x);
    }
  }

  lemma QuietKeeps<K(!new)>(b: Book<K>, c: Book<K>, w: Watch<K>, x: K, clock: nat)
    requires Inv(b, w, x, clock) && c.rumors == b.rumors && PathsSigned(c, w.signed)
    ensures Inv(c, w, x, clock)
  {
  }

  lemma ExpiredKeeps<K(!new)>(b: Book<K>, w: Watch<K>, x: K, clock: nat, now: nat)
    requires Inv(b, w, x, clock) && clock <= now
    ensures Inv(Expired(b, now), w, x, now)
  {
  }

  lemma LaterKeeps<K(!new)>(b: Book<K>, w: Watch<K>, x: K, clock: nat, now: nat)
    requires Inv(b, w, x, clock) && clock <= now
    ensures Inv(b, w, x, now)
  {
  }

  lemma BrokenKeeps<K(!new)>(xkey: Transform<K>, b: Book<K>, w: Watch<K>, x: K, clock: nat, dest: K, now: nat)
    requires Inv(b, w, x, clock) && clock <= now
    ensures Inv(Broken(xkey, b, dest, now), SeeAll(xkey, w, x, BrokenEvents(xkey, b, dest, now)), x, now)
  {
    if dest in b.entries {
      var c := b.(entries := b.entries[dest := b.entries[dest].(broken := true)]);
      QuietKeeps(b, c, w, x, clock);
      assert LookUpEvents(xkey, c, dest, now) == LookUpEvents(xkey, b, dest, now);
      LookUpKeeps(xkey, c, w, x, clock, dest, now);
    } else {
      SeeNone(xkey, w, x);
      LaterKeeps(b, w, x, clock, now);
    }
  }

  lemma HeardKeeps<K(!new)>(b: Book<K>, w: Watch<K>, x: K, clock: nat, k: K, now: nat)
    requires Inv(b, w, x, clock) && clock <= now
    ensures Inv(Refreshed(b, k, now), w, x, now)
  {
    LaterKeeps(b, w, x, clock, now);
    QuietKeeps(b, Refreshed(b, k, now), w, x, now);
  }

  /** The invariant as a value, so that it stays folded. */
  ghost function Keeping<K(!new)>(x: K): (Book<K>, Watch<K>, nat) -> bool {
    (b: Book<K>, w: Watch<K>, clock: nat) => Inv(b, w, x, clock)
  }

  lemma OwnStepKeeps<K(!new)>(xkey: Transform<K>, inv: (Book<K>, Watch<K>, nat) -> bool, b: Book<K>, w: Watch<K>,
                              x: K, clock: nat, s: Step<K>)
    requires inv == Keeping(x) && inv(b, w, clock) && clock <= s.at
    requires s.act.Lookup? || s.act.Sending? || s.act.Holding?
    ensures inv(BookOf(xkey, b, s), SeeAll(xkey, w, x, EventsOf(xkey, b, s)), s.at)
  {
    match s.act
    case Lookup(dest) => LookUpKeeps(xkey, b, w, x, clock, dest, s.at);
    case Sending(dest, p) => SendKeeps(xkey, b, w, x, clock, dest, p, s.at);
    case Holding(dest, p) => HoldKeeps(xkey, b, w, x, clock, dest, p, s.at);
  }

  lemma StepKeeps<K(!new)>(xkey: Transform<K>, inv: (Book<K>, Watch<K>, nat) -> bool, b: Book<K>, w: Watch<K>, x: K,
                           clock: nat, s: Step<K>)
    requires inv == Keeping(x) && inv(b, w, clock) && clock <= s.at
    requires forall e :: e in SignedBy(s) ==> e in w.signed
    ensures inv(BookOf(xkey, b, s), SeeAll(xkey, w, x, EventsOf(xkey, b, s)), s.at)
  {
    match s.act
    case Notice(n) =>
      LaterKeeps(b, w, x, clock, s.at);
      assert n.valid ==> (n.source, n.path) in SignedBy(s);
      NotifiedKeeps(xkey, b, w, x, s.at, n, s.at);
    case Report(dest) => BrokenKeeps(xkey, b, w, x, clock, dest, s.at);
    case Expiry => ExpiredKeeps(b, w, x, clock, s.at);
    case Heard(k) => HeardKeeps(b, w, x, clock, k, s.at);
    case _ => OwnStepKeeps(xkey, inv, b, w, x, clock, s);
  }

  predicate InTime<K(==, !new)>(run: seq<Step<K>>) {
    forall i, j :: 0 <= i < j < |run| ==> run[i].at <= run[j].at
  }

  function Clock<K(==, !new)>(run: seq<Step<K>>): nat {
    if run == [] then 0 else run[|run| - 1].at
  }

  lemma ReadingKeeps<K(!new)>(b: Book<K>, w: Watch<K>, x: K, clock: nat, s: Step<K>)
    requires Inv(b, w, x, clock)
    ensures Inv(b, Reading(w, s), x, clock) && forall e :: e in SignedBy(s) ==> e in Reading(w, s).signed
  {
  }

  /** Over every run in the order of time, and for every transformed key: lookups for it
      are at least `PATH_THROTTLE` apart; what is freed for it goes to a key of that
      transform, and no payload is freed more often than it was held; and every packet
      put on a path, to any key, is on a path that came in a notify which that key signed. */
  lemma {:induction false} RunIsSafe<K(!new)>(xkey: Transform<K>, run: seq<Step<K>>, x: K)
    requires InTime(run)
    ensures Inv(BookAfter(xkey, run), WatchAfter(xkey, run, x), x, Clock(run)) && WatchAfter(xkey, run, x).ok
    decreases |run|
  {
    if run != [] {
      var before, s := run[..|run| - 1], run[|run| - 1];
      RunIsSafe(xkey, before, x);
      var b, w := BookAfter(xkey, before), WatchAfter(xkey, before, x);
      ReadingKeeps(b, w, x, Clock(before), s);
      StepKeeps(xkey, Keeping(x), b, Reading(w, s), x, Clock(before), s);
    }
  }

  /** A notify in the run from `k`, with `path`, and signed. */
  ghost predicate SignedIn<K(!new)>(run: seq<Step<K>>, k: K, path: Path) {
    exists i :: 0 <= i < |run| && (k, path) in SignedBy(run[i])
  }

  lemma SeeSigns<K(!new)>(xkey: Transform<K>, w: Watch<K>, x: K, es: seq<Event<K>>)
    ensures SeeAll(xkey, w, x, es).signed == w.signed
    decreases |es|
  {
    if es != [] { SeeSigns(xkey, See(xkey, w, x, es[0]), x, es[1..]); }
  }

  lemma {:induction false} SignedMeans<K(!new)>(xkey: Transform<K>, run: seq<Step<K>>, x: K, k: K, path: Path)
    requires (k, path) in WatchAfter(xkey, run, x).signed
    ensures SignedIn(run, k, path)
    decreases |run|
  {
    var before, s := run[..|run| - 1], run[|run| - 1];
    SeeSigns(xkey, Reading(WatchAfter(xkey, before, x), s), x, EventsOf(xkey, BookAfter(xkey, before), s));
    if (k, path) in SignedBy(s) {
      assert (k, path) in SignedBy(run[|run| - 1]);
    } else {
      SignedMeans(xkey, before, x, k, path);
      var i :| 0 <= i < |before| && (k, path) in SignedBy(before[i]);
      assert (k, path) in SignedBy(run[i]);
    }
  }

  /** In terms of the run alone: a step puts a packet on a path only if a notify of the
      run so far, or of the step itself, brought that path signed by the destination. */
  lemma {:induction false} RoutedWasSigned<K(!new)>(xkey: Transform<K>, run: seq<Step<K>>, s: Step<K>, dest: K,
                                                    path: Path)
    requires InTime(run) && Routed(dest, path) in EventsOf(xkey, BookAfter(xkey, run), s)
    ensures SignedIn(run, dest, path) || (dest, path) in SignedBy(s)
  {
    RunIsSafe(xkey, run, dest);
    var b := BookAfter(xkey, run);
    if s.act.Sending? {
      assert HasPath(b, dest) && path == b.entries[dest].path;
      SignedMeans(xkey, run, dest, dest, path);
    }
  }

  // ---------------------------------------------------------------- the rendezvous

  lemma LookUpHolds<K(!new)>(xkey: Transform<K>, b: Book<K>, dest: K, now: nat, x: K)
    ensures PendingAt(LookUp(xkey, b, dest, now), x) == PendingAt(b, x)
  {
  }

  lemma SendHolds<K(!new)>(xkey: Transform<K>, b: Book<K>, dest: K, p: Payload, now: nat, x: K)
    requires HasPath(b, dest) || xkey(dest) != x
    ensures PendingAt(Send(xkey, b, dest, p, now), x) == PendingAt(b, x)
  {
    LookUpHolds(xkey, b, dest, now, x);
  }

  lemma HoldHolds<K(!new)>(xkey: Transform<K>, b: Book<K>, dest: K, p: Payload, now: nat, x: K)
    requires xkey(dest) != x
    ensures PendingAt(Hold(xkey, b, dest, p, now), x) == PendingAt(b, x)
  {
    var y := xkey(dest);
    var c := WithRumor(b, y, RumorAt(b, y, dest, now).(pending := Some(p), pendingIsApp := true));
    LookUpHolds(xkey, c, dest, now, x);
  }

  lemma BrokenHolds<K(!new)>(xkey: Transform<K>, b: Book<K>, dest: K, now: nat, x: K)
    ensures PendingAt(Broken(xkey, b, dest, now), x) == PendingAt(b, x)
  {
    if dest in b.entries {
      LookUpHolds(xkey, b.(entries := b.entries[dest := b.entries[dest].(broken := true)]), dest, now, x);
    }
  }

  lemma NotifyHolds<K(!new)>(xkey: Transform<K>, b: Book<K>, n: Notify<K>, now: nat, x: K)
    requires Frees(xkey, b, n) ==> xkey(n.source) != x
    ensures PendingAt(Notified(xkey, b, n, now), x) == PendingAt(b, x)
  {
  }

  /** Does a step hold something for `x`, or free it? */
  ghost predicate Touches<K(!new)>(xkey: Transform<K>, b: Book<K>, s: Step<K>, x: K) {
    exists i :: 0 <= i < |EventsOf(xkey, b, s)|
      && (EventsOf(xkey, b, s)[i].Held? || EventsOf(xkey, b, s)[i].Freed?) && EventsOf(xkey, b, s)[i].x == x
  }

  /** An expiry pass at `now` leaves the rumour of `x`, if there is one. */
  predicate Lives<K(==, !new)>(b: Book<K>, x: K, now: nat) {
    x in b.rumors ==> b.rumors[x].deadline > now
  }

  /** What is held for a transformed key changes only when something is held for it or
      freed from it, or when its rumour expires. */
  lemma HeldUntilFreed<K(!new)>(xkey: Transform<K>, b: Book<K>, s: Step<K>, x: K)
    requires !Touches(xkey, b, s, x) && (s.act.Expiry? ==> Lives(b, x, s.at))
    ensures PendingAt(BookOf(xkey, b, s), x) == PendingAt(b, x)
  {
    var es := EventsOf(xkey, b, s);
    match s.act
    case Lookup(dest) => LookUpHolds(xkey, b, dest, s.at, x);
    case Sending(dest, p) =>
      assert HasPath(b, dest) || es[|es| - 1] == Held(xkey(dest), p);
      SendHolds(xkey, b, dest, p, s.at, x);
    case Holding(dest, p) =>
      assert es[0] == Held(xkey(dest), p);
      HoldHolds(xkey, b, dest, p, s.at, x);
    case Notice(n) =>
      assert Frees(xkey, b, n) ==> es[1] == Freed(xkey(n.source), b.rumors[xkey(n.source)].pending.value, n.source);
      NotifyHolds(xkey, b, n, s.at, x);
    case Report(dest) => BrokenHolds(xkey, b, dest, s.at, x);
    case Expiry =>
    case Heard(k) =>
  }

  function BookAlong<K(==, !new)>(xkey: Transform<K>, b: Book<K>, steps: seq<Step<K>>): Book<K>
    decreases |steps|
  {
    if steps == [] then b else BookAlong(xkey, BookOf(xkey, b, steps[0]), steps[1..])
  }

  /** Steps that neither hold anything for `x`, nor free it, nor let its rumour expire. */
  ghost predicate Leaves<K(!new)>(xkey: Transform<K>, b: Book<K>, steps: seq<Step<K>>, x: K)
    decreases |steps|
  {
    steps == [] ||
    (&& !Touches(xkey, b, steps[0], x) && (steps[0].act.Expiry? ==> Lives(b, x, steps[0].at))
     && Leaves(xkey, BookOf(xkey, b, steps[0]), steps[1..], x))
  }

  lemma {:induction false} HeldAlong<K(!new)>(xkey: Transform<K>, b: Book<K>, steps: seq<Step<K>>, x: K)
    requires Leaves(xkey, b, steps, x)
    ensures PendingAt(BookAlong(xkey, b, steps), x) == PendingAt(b, x)
    decreases |steps|
  {
    if steps != [] {
      HeldUntilFreed(xkey, b, steps[0], x);
      HeldAlong(xkey, BookOf(xkey, b, steps[0]), steps[1..], x);
    }
  }

  /** Is a signed notify news? Its source is unknown, or known with an older and different
      path. */
  predicate News<K(==, !new)>(b: Book<K>, n: Notify<K>) {
    n.valid && (n.source in b.entries ==> n.seq_ > b.entries[n.source].seq_ && n.path != b.entries[n.source].path)
  }

  lemma PendingIsFreed<K(!new)>(xkey: Transform<K>, b: Book<K>, p: Payload, n: Notify<K>)
    requires PendingAt(b, xkey(n.source)) == multiset{p}
    ensures Freed(xkey(n.source), p, n.source) in NotifiedEvents(xkey, b, n) <==> News(b, n)
  {
    var x := xkey(n.source);
    assert p in PendingAt(b, x);
    assert x in b.rumors && b.rumors[x].pending.Some?;
    assert b.rumors[x].pending.value in PendingAt(b, x);
    if Accepts(xkey, b, n) { assert NotifiedEvents(xkey, b, n)[1] == Freed(x, p, n.source); }
  }

  /** Over a run: a payload held for a key waits through any steps that hold nothing else
      for its transform, free nothing from it and do not let its rumour expire; then a notify from
      a key of that transform frees it to that key if and only if it is signed and news. */
  lemma {:induction false} HeldIsFreed<K(!new)>(xkey: Transform<K>, b: Book<K>, dest: K, p: Payload, now: nat,
                                                steps: seq<Step<K>>, n: Notify<K>)
    requires xkey(dest) == xkey(n.source) && Leaves(xkey, Hold(xkey, b, dest, p, now), steps, xkey(n.source))
    ensures var later := BookAlong(xkey, Hold(xkey, b, dest, p, now), steps);
            Freed(xkey(n.source), p, n.source) in NotifiedEvents(xkey, later, n) <==> News(later, n)
  {
    var held := Hold(xkey, b, dest, p, now);
    assert PendingAt(held, xkey(n.source)) == multiset{p};
    HeldAlong(xkey, held, steps, xkey(n.source));
    PendingIsFreed(xkey, BookAlong(xkey, held, steps), p, n);
  }

  // ---------------------------------------------------------------- how long a payload waits

  /** A rumour's deadline only moves on. */
  lemma DeadlineMovesOn<K(!new)>(xkey: Transform<K>, b: Book<K>, s: Step<K>, x: K, limit: nat)
    requires x in b.rumors && b.rumors[x].deadline > limit && s.at <= limit < s.at + PATH_TIMEOUT
    ensures var c := BookOf(xkey, b, s); x in c.rumors && c.rumors[x].deadline > limit
  {
  }

  /** No step holds anything for `x` or frees it. */
  ghost predicate Untouched<K(!new)>(xkey: Transform<K>, b: Book<K>, steps: seq<Step<K>>, x: K)
    decreases |steps|
  {
    steps == [] || (!Touches(xkey, b, steps[0], x) && Untouched(xkey, BookOf(xkey, b, steps[0]), steps[1..], x))
  }

  lemma {:induction false} LeavesWhileYoung<K(!new)>(xkey: Transform<K>, b: Book<K>, steps: seq<Step<K>>, x: K,
                                                     limit: nat)
    requires x in b.rumors && b.rumors[x].deadline > limit && Untouched(xkey, b, steps, x)
    requires forall i :: 0 <= i < |steps| ==> steps[i].at <= limit < steps[i].at + PATH_TIMEOUT
    ensures Leaves(xkey, b, steps, x)
    decreases |steps|
  {
    if steps != [] {
      DeadlineMovesOn(xkey, b, steps[0], x, limit);
      LeavesWhileYoung(xkey, BookOf(xkey, b, steps[0]), steps[1..], x, limit);
    }
  }

  /** A throttled hold relies on a lookup less than a second old. */
  lemma HoldIsYoung<K(!new)>(xkey: Transform<K>, b: Book<K>, last: Option<nat>, clock: nat, dest: K, p: Payload,
                             now: nat)
    requires LookKnown(b, last, xkey(dest), clock)
    ensures var c, x := Hold(xkey, b, dest, p, now), xkey(dest);
            x in c.rumors && c.rumors[x].deadline > now + PATH_TIMEOUT - PATH_THROTTLE
  {
  }

  /** Over every run: a payload held at `now` waits for 59 seconds at least, through any
      number of maintenance passes and of anything else that neither holds for its
      transform nor frees from it; and a notify from a key of the transform then frees it
      to that key if and only if it is signed and news. */
  lemma {:induction false} HeldIsFreedInTime<K(!new)>(xkey: Transform<K>, run: seq<Step<K>>, dest: K, p: Payload,
                                                      now: nat, steps: seq<Step<K>>, n: Notify<K>)
    requires InTime(run) && xkey(dest) == xkey(n.source)
    requires forall i :: 0 <= i < |steps| ==> now <= steps[i].at <= now + PATH_TIMEOUT - PATH_THROTTLE
    requires Untouched(xkey, Hold(xkey, BookAfter(xkey, run), dest, p, now), steps, xkey(n.source))
    ensures var later := BookAlong(xkey, Hold(xkey, BookAfter(xkey, run), dest, p, now), steps);
            Freed(xkey(n.source), p, n.source) in NotifiedEvents(xkey, later, n) <==> News(later, n)
  {
    var b, x := BookAfter(xkey, run), xkey(dest);
    RunIsSafe(xkey, run, x);
    HoldIsYoung(xkey, b, WatchAfter(xkey, run, x).last, Clock(run), dest, p, now);
    LeavesWhileYoung(xkey, Hold(xkey, b, dest, p, now), steps, x, now + PATH_TIMEOUT - PATH_THROTTLE);
    HeldIsFreed(xkey, b, dest, p, now, steps, n);
  }

  /** So a payload held for an address, or for any address in a /64, is freed to the owner
      by the owner's first signed and new notify of the next 59 seconds. */
  lemma OwnersNotifyFrees(run: seq<Step<KeyBytes>>, a: Address, p: Payload, now: nat, steps: seq<Step<KeyBytes>>,
                          n: Notify<KeyBytes>)
    requires InTime(run) && IsAddress(a) && AddressedTo(a, n.source)
    requires forall i :: 0 <= i < |steps| ==> now <= steps[i].at <= now + PATH_TIMEOUT - PATH_THROTTLE
    requires Untouched(XKeys(), Hold(XKeys(), BookAfter(XKeys(), run), LookupKeyForAddr(a), p, now), steps,
                       XKeys()(n.source))
    ensures var later := BookAlong(XKeys(), Hold(XKeys(), BookAfter(XKeys(), run), LookupKeyForAddr(a), p, now), steps);
            Freed(XKeys()(n.source), p, n.source) in NotifiedEvents(XKeys(), later, n) <==> News(later, n)
  {
    LookupMeetsOwner(n.source, a);
    HeldIsFreedInTime(XKeys(), run, LookupKeyForAddr(a), p, now, steps, n);
  }

  function XKeys(): Transform<KeyBytes> {
    (k: KeyBytes) => XKey(k)
  }

  // ---------------------------------------------------------------- lookups that go out

  /** After any run, a lookup at `now` goes out if and only if none has gone out for its
      transformed key, or the last one a second ago at least. */
  lemma LooksUpIff<K(!new)>(xkey: Transform<K>, run: seq<Step<K>>, dest: K, now: nat)
    requires InTime(run) && Clock(run) <= now
    ensures var last := WatchAfter(xkey, run, xkey(dest)).last;
            Looked(xkey(dest), now) in LookUpEvents(xkey, BookAfter(xkey, run), dest, now)
            <==> last.None? || now >= last.value + PATH_THROTTLE
  {
    RunIsSafe(xkey, run, xkey(dest));
  }

  // ---------------------------------------------------------------- what becomes of a payload

  /** A packet for a key goes on that key's path if there is one in use, and is held behind
      a lookup if and only if there is none. */
  lemma SendsOrHolds<K(!new)>(xkey: Transform<K>, b: Book<K>, dest: K, p: Payload, now: nat)
    ensures var es, c := SendEvents(xkey, b, dest, p, now), Send(xkey, b, dest, p, now);
            if dest in b.entries && !b.entries[dest].broken then es == [Routed(dest, b.entries[dest].path)] && c == b
            else Held(xkey(dest), p) in es && PendingAt(c, xkey(dest)) == multiset{p} && c.entries == b.entries
  {
    if !HasPath(b, dest) {
      var es := SendEvents(xkey, b, dest, p, now);
      assert es[|es| - 1] == Held(xkey(dest), p);
    }
  }

  /** A signed notify that is news, from a key that is known or looked for, puts its path to
      use: the next packet for that key goes on it. Any other leaves all paths as they are. */
  lemma NotifiedPathIsUsed<K(!new)>(xkey: Transform<K>, b: Book<K>, n: Notify<K>, now: nat, p: Payload, later: nat)
    ensures var c := Notified(xkey, b, n, now);
            if News(b, n) && (n.source in b.entries || xkey(n.source) in b.rumors) then
              SendEvents(xkey, c, n.source, p, later) == [Routed(n.source, n.path)]
            else c.entries == b.entries
  {
  }

  /** An application's payload, held for a lookup, is never put on a path by the notify that
      frees it; a sealed one, held where nothing was, goes on exactly the path notified. */
  lemma FreedAsHeld<K(!new)>(xkey: Transform<K>, b: Book<K>, dest: K, p: Payload, now: nat, n: Notify<K>, path: Path)
    requires xkey(dest) == xkey(n.source)
    ensures Routed(n.source, path) !in NotifiedEvents(xkey, Hold(xkey, b, dest, p, now), n)
    ensures !HasPath(b, dest) && xkey(dest) !in b.rumors && News(b, n) ==>
              NotifiedEvents(xkey, Send(xkey, b, dest, p, now), n)
              == [Learned(n.source, n.path, n.seq_), Freed(xkey(n.source), p, n.source), Routed(n.source, n.path)]
  {
  }

  // ---------------------------------------------------------------- forgetting

  /** A step that learns a path of `k`'s, or hears from `k` over it. */
  predicate Renews<K(==, !new)>(s: Step<K>, k: K) {
    (s.act.Notice? && s.act.notify.source == k) || (s.act.Heard? && s.act.key == k)
  }

  /** Every path was learned, or last heard over, a timeout before its deadline. */
  lemma {:induction false} DeadlineIsRenewal<K(!new)>(xkey: Transform<K>, run: seq<Step<K>>, k: K)
    requires k in BookAfter(xkey, run).entries
    ensures exists i :: 0 <= i < |run| && Renews(run[i], k)
                        && BookAfter(xkey, run).entries[k].deadline == run[i].at + PATH_TIMEOUT
    decreases |run|
  {
    var before, s := run[..|run| - 1], run[|run| - 1];
    var b, c := BookAfter(xkey, before), BookAfter(xkey, run);
    if k in b.entries && b.entries[k].deadline == c.entries[k].deadline {
      DeadlineIsRenewal(xkey, before, k);
      var i :| 0 <= i < |before| && Renews(before[i], k) && b.entries[k].deadline == before[i].at + PATH_TIMEOUT;
      assert run[i] == before[i];
    } else {
      assert Renews(run[|run| - 1], k) && c.entries[k].deadline == s.at + PATH_TIMEOUT;
    }
  }

  /** After an expiry pass a path is left if and only if it was there and was learned, or
      heard over, less than a timeout ago. */
  lemma ForgetsIff<K(!new)>(xkey: Transform<K>, run: seq<Step<K>>, now: nat, k: K)
    requires k in BookAfter(xkey, run).entries
    ensures k in Expired(BookAfter(xkey, run), now).entries <==>
              exists i :: 0 <= i < |run| && Renews(run[i], k) && run[i].at + PATH_TIMEOUT > now
                          && BookAfter(xkey, run).entries[k].deadline == run[i].at + PATH_TIMEOUT
  {
    DeadlineIsRenewal(xkey, run, k);
  }

  /** Traffic over a path in use keeps it through every expiry of the next timeout. */
  lemma HeardIsKept<K(!new)>(xkey: Transform<K>, b: Book<K>, k: K, now: nat, later: nat)
    requires HasPath(b, k) && later < now + PATH_TIMEOUT
    ensures HasPath(Expired(BookOf(xkey, b, Step(Heard(k), now)), later), k)
  {
  }

  // ---------------------------------------------------------------- broken paths

  /** A path reported broken is usable again after a signed notify if and only if that is
      newer and names another path: an owner that kept its coordinates does not repair it. */
  lemma RepairedIff<K(!new)>(xkey: Transform<K>, b: Book<K>, n: Notify<K>, now: nat)
    requires n.source in b.entries && b.entries[n.source].broken && n.valid
    ensures HasPath(Notified(xkey, b, n, now), n.source)
            <==> n.seq_ > b.entries[n.source].seq_ && n.path != b.entries[n.source].path
  {
  }

  /** Some step brings a notify of `dest`'s that is taken. */
  ghost predicate Learns<K(!new)>(xkey: Transform<K>, b: Book<K>, s: Step<K>, dest: K) {
    s.act.Notice? && s.act.notify.source == dest && Accepts(xkey, b, s.act.notify)
  }

  /** Without one, a key that has no path in use gets none, and nothing is put on one. */
  lemma StaysUnused<K(!new)>(xkey: Transform<K>, b: Book<K>, s: Step<K>, dest: K, path: Path)
    requires !HasPath(b, dest) && !Learns(xkey, b, s, dest)
    ensures !HasPath(BookOf(xkey, b, s), dest) && Routed(dest, path) !in EventsOf(xkey, b, s)
  {
  }

  /** No step of these is such a one. */
  ghost predicate NoneLearns<K(!new)>(xkey: Transform<K>, b: Book<K>, steps: seq<Step<K>>, dest: K)
    decreases |steps|
  {
    steps == [] || (!Learns(xkey, b, steps[0], dest) && NoneLearns(xkey, BookOf(xkey, b, steps[0]), steps[1..], dest))
  }

  lemma {:induction false} UnusedAlong<K(!new)>(xkey: Transform<K>, b: Book<K>, steps: seq<Step<K>>, dest: K)
    requires !HasPath(b, dest) && NoneLearns(xkey, b, steps, dest)
    ensures !HasPath(BookAlong(xkey, b, steps), dest)
    decreases |steps|
  {
    if steps != [] {
      StaysUnused(xkey, b, steps[0], dest, []);
      UnusedAlong(xkey, BookOf(xkey, b, steps[0]), steps[1..], dest);
    }
  }

  /** A report is obeyed: from any book, after a report of a broken path to `dest` no step
      puts a packet for `dest` on a path, until one brings a signed notify of `dest`'s that
      is taken: while the path is still known, one that is newer and names another path. */
  lemma {:induction false} ReportIsObeyed<K(!new)>(xkey: Transform<K>, b: Book<K>, dest: K, now: nat,
                                                   steps: seq<Step<K>>, s: Step<K>, path: Path)
    requires NoneLearns(xkey, Broken(xkey, b, dest, now), steps + [s], dest)
    ensures Routed(dest, path) !in EventsOf(xkey, BookAlong(xkey, Broken(xkey, b, dest, now), steps), s)
  {
    var c := Broken(xkey, b, dest, now);
    assert !HasPath(c, dest);
    NoneLearnsSplit(xkey, c, steps, s, dest);
    UnusedAlong(xkey, c, steps, dest);
    StaysUnused(xkey, BookAlong(xkey, c, steps), s, dest, path);
  }

  lemma {:induction false} NoneLearnsSplit<K(!new)>(xkey: Transform<K>, b: Book<K>, steps: seq<Step<K>>, s: Step<K>,
                                                    dest: K)
    requires NoneLearns(xkey, b, steps + [s], dest)
    ensures NoneLearns(xkey, b, steps, dest) && !Learns(xkey, BookAlong(xkey, b, steps), s, dest)
    decreases |steps|
  {
    if steps != [] {
      assert (steps + [s])[1..] == steps[1..] + [s];
      NoneLearnsSplit(xkey, BookOf(xkey, b, steps[0]), steps[1..], s, dest);
    }
  }

  /** And over every run, a lookup goes out at once if the path is known, unless one went
      out less than a second ago. */
  lemma ReportLooksUpIff<K(!new)>(xkey: Transform<K>, run: seq<Step<K>>, dest: K, now: nat)
    requires InTime(run) && Clock(run) <= now
    ensures var last := WatchAfter(xkey, run, xkey(dest)).last;
            Looked(xkey(dest), now) in BrokenEvents(xkey, BookAfter(xkey, run), dest, now)
            <==> dest in BookAfter(xkey, run).entries && (last.None? || now >= last.value + PATH_THROTTLE)
  {
    LooksUpIff(xkey, run, dest, now);
  }
}
