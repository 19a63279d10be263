/** Who watches a session: from joining until leaving, whatever happens, a watcher is there and gets everything. */
module SinkWatchers {
  import opened Wrappers
  import opened Base64
  import opened OutputLog
  import opened OutputSink
  import opened SinkRuns

  // ---------- Sending ----------

  /** How many of the first `i` watchers are still there. */
  function OpenBefore<T>(taps: seq<Tap<T>>, i: nat): nat
    requires i <= |taps|
  {
    if i == 0 then 0 else OpenBefore(taps, i - 1) + if taps[i - 1].open then 1 else 0
  }

  lemma {:induction false} OpenBeforeTail<T>(taps: seq<Tap<T>>, i: nat)
    requires 0 < i <= |taps|
    ensures OpenBefore(taps, i) == (if taps[0].open then 1 else 0) + OpenBefore(taps[1..], i - 1)
  {
    if i > 1 {
      OpenBeforeTail(taps, i - 1);
      assert taps[1..][i - 2] == taps[i - 1];
    }
  }

  /** Sending forgets exactly the watchers that left; each other one, in order, got exactly `x` more. */
  lemma {:induction false} SentToAll<T>(taps: seq<Tap<T>>, x: T)
    ensures |SendAll(taps, x)| == OpenBefore(taps, |taps|)
    ensures forall i :: 0 <= i < |taps| && taps[i].open ==>
              OpenBefore(taps, i) < |SendAll(taps, x)| && SendAll(taps, x)[OpenBefore(taps, i)] == taps[i].(sent := taps[i].sent + [x])
  {
    if |taps| > 0 {
      var rest := taps[1..];
      var first := if taps[0].open then [taps[0].(sent := taps[0].sent + [x])] else [];
      SentToAll(rest, x);
      OpenBeforeTail(taps, |taps|);
      assert SendAll(taps, x) == first + SendAll(rest, x);
      forall i | 0 <= i < |taps| && taps[i].open
        ensures OpenBefore(taps, i) < |SendAll(taps, x)| && SendAll(taps, x)[OpenBefore(taps, i)] == taps[i].(sent := taps[i].sent + [x])
      {
        if i > 0 {
          OpenBeforeTail(taps, i);
          assert rest[i - 1] == taps[i];
        }
      }
    }
  }

  // ---------- Staying ----------

  /** Watcher `id` is there. */
  ghost predicate Watches<T>(taps: seq<Tap<T>>, id: nat) {
    exists i :: 0 <= i < |taps| && taps[i].id == id && taps[i].open
  }

  lemma StillWatches<T>(taps: seq<Tap<T>>, x: T, id: nat)
    requires Watches(taps, id)
    ensures Watches(SendAll(taps, x), id)
  {
    SentToAll(taps, x);
    var i :| 0 <= i < |taps| && taps[i].id == id && taps[i].open;
    assert SendAll(taps, x)[OpenBefore(taps, i)].id == id;
  }

  lemma WatchesOn<T>(taps: seq<Tap<T>>, t: Tap<T>, id: nat)
    requires Watches(taps, id) || (t.id == id && t.open)
    ensures Watches(taps + [t], id)
  {
    if Watches(taps, id) {
      var i :| 0 <= i < |taps| && taps[i].id == id && taps[i].open;
      assert (taps + [t])[i] == taps[i];
    } else {
      assert (taps + [t])[|taps|] == t;
    }
  }

  /** Only the one that leaves is gone. */
  lemma OthersStay<T>(taps: seq<Tap<T>>, left: nat, id: nat)
    requires Watches(taps, id) && left != id
    ensures Watches(HungUp(taps, left), id)
  {
    var i :| 0 <= i < |taps| && taps[i].id == id && taps[i].open;
    assert HungUp(taps, left)[i] == taps[i];
  }

  lemma NoneWatches<T>(taps: seq<Tap<T>>, left: nat)
    ensures !Watches(HungUp(taps, left), left)
  {
  }

  lemma StepKeepsPhone(m: Moment, op: Op, id: nat)
    requires Ordered(m.sink) && Watches(m.sink.taps, id) && op != OpLeave(id)
    ensures Watches(Step(m, op).sink.taps, id)
  {
    hide Ordered, Watches, SendAll, KeptFrom, AfterOutput, AfterLocal, AfterResize, HungUp, AttachedTo, AttachedHistory;
    match op {
      case OpOutput(bytes) => StillWatches(m.sink.taps, bytes, id);
      case OpOutputAt(at, bytes) =>
        var skip := if m.sink.Total() > at then m.sink.Total() - at else 0;
        if skip < |bytes| {
          StillWatches(m.sink.taps, bytes[skip..], id);
        }
      case OpLeave(left) => OthersStay(m.sink.taps, left, id);
      case OpWatch => WatchesOn(m.sink.taps, Tap(m.sink.nextTap, true, []), id);
      case OpAttach => AttachKeepsWatchers(m.sink);
      case _ =>
    }
  }

  lemma AttachKeepsWatchers(s: Sink)
    requires Ordered(s)
    ensures AttachedTo(s).0.taps == s.taps && AttachedTo(s).0.dtaps == s.dtaps && AttachedTo(s).0.nextTap == s.nextTap
  {
    hide InOrder, Composed, Flushed;
  }

  lemma StepKeepsDesktop(m: Moment, op: Op, id: nat)
    requires Ordered(m.sink) && Watches(m.sink.dtaps, id) && op != OpLeave(id)
    ensures Watches(Step(m, op).sink.dtaps, id)
  {
    hide Ordered, Watches, SendAll, KeptFrom, AfterOutput, AfterLocal, AfterResize, HungUp, AttachedTo, AttachedHistory;
    match op {
      case OpOutput(bytes) => StillWatches(m.sink.dtaps, Bytes(bytes), id);
      case OpOutputAt(at, bytes) =>
        var skip := if m.sink.Total() > at then m.sink.Total() - at else 0;
        if skip < |bytes| {
          StillWatches(m.sink.dtaps, Bytes(bytes[skip..]), id);
        }
      case OpResize(c, r) => StillWatches(m.sink.dtaps, Resize(c, r), id);
      case OpLeave(left) => OthersStay(m.sink.dtaps, left, id);
      case OpMirror => WatchesOn(m.sink.dtaps, Tap(m.sink.nextTap, true, []), id);
      case OpAttach => AttachKeepsWatchers(m.sink);
      case _ =>
    }
  }

  predicate NeverLeaves(ops: seq<Op>, id: nat) {
    forall i :: 0 <= i < |ops| ==> ops[i] != OpLeave(id)
  }

  /** What is recorded of when watcher `id` began does not change once the counter is past it. */
  ghost predicate SameStart(m: Moment, m1: Moment, id: nat) {
    && m.sink.nextTap <= m1.sink.nextTap
    && (id < m.sink.nextTap ==>
          && (id in m.past.byteSince ==> id in m1.past.byteSince && m1.past.byteSince[id] == m.past.byteSince[id])
          && (id in m.past.logSince ==> id in m1.past.logSince && m1.past.logSince[id] == m.past.logSince[id])
          && (id in m.past.origins ==> id in m1.past.origins && m1.past.origins[id] == m.past.origins[id]))
  }

  lemma StepSameStart(m: Moment, op: Op, id: nat)
    requires Ordered(m.sink)
    ensures SameStart(m, Step(m, op), id)
  {
    hide Ordered, SendAll, KeptFrom, AfterOutput, AfterLocal, AfterResize, HungUp, AttachedTo;
    if op.OpAttach? {
      AttachKeepsWatchers(m.sink);
    }
  }

  lemma SameStartOn(m: Moment, m1: Moment, m2: Moment, id: nat)
    requires SameStart(m, m1, id) && SameStart(m1, m2, id)
    ensures SameStart(m, m2, id)
  {
  }

  lemma {:induction false} RunKeepsWatchers(m: Moment, ops: seq<Op>, id: nat)
    requires Ordered(m.sink) && NeverLeaves(ops, id)
    ensures Watches(m.sink.taps, id) ==> Watches(Run(m, ops).sink.taps, id)
    ensures Watches(m.sink.dtaps, id) ==> Watches(Run(m, ops).sink.dtaps, id)
    ensures SameStart(m, Run(m, ops), id)
    decreases |ops|
  {
    hide Watches, Step, Ordered, SameStart;
    if |ops| > 0 {
      StepOrdered(m, ops[0]);
      if Watches(m.sink.taps, id) {
        StepKeepsPhone(m, ops[0], id);
      }
      if Watches(m.sink.dtaps, id) {
        StepKeepsDesktop(m, ops[0], id);
      }
      StepSameStart(m, ops[0], id);
      RunKeepsWatchers(Step(m, ops[0]), ops[1..], id);
      SameStartOn(m, Step(m, ops[0]), Run(m, ops), id);
    } else {
      NothingStarts(m, id);
    }
  }

  lemma NothingStarts(m: Moment, id: nat)
    ensures SameStart(m, m, id)
  {
  }

  // ---------- Getting everything ----------

  lemma {:induction false} RunOnlyGrows(m: Moment, ops: seq<Op>)
    requires Ordered(m.sink)
    ensures m.past.log <= Run(m, ops).past.log && Run(m, ops).past.base == m.past.base
    decreases |ops|
  {
    hide Step, Ordered;
    if |ops| > 0 {
      StepOrdered(m, ops[0]);
      StepLogs(m, ops[0]);
      RunOnlyGrows(Step(m, ops[0]), ops[1..]);
    }
  }

  lemma StepLogs(m: Moment, op: Op)
    requires Ordered(m.sink)
    ensures m.past.log <= Step(m, op).past.log && Step(m, op).past.base == m.past.base
  {
    StepRecords(m, op);
  }

  /** Joining as a phone: there, and noted as beginning now. */
  lemma PhoneJoins(m: Moment)
    requires Ordered(m.sink) && Agrees(m.sink, m.past) && m.sink.shell
    ensures var m1, id := Step(m, OpWatch), m.sink.nextTap;
            && Ordered(m1.sink) && Agrees(m1.sink, m1.past) && Watches(m1.sink.taps, id) && id < m1.sink.nextTap
            && id in m1.past.byteSince && m1.past.byteSince[id] == |BytesOf(m.past.log)| && m1.past.log == m.past.log
            && Watched(m.sink).1 == Some((id, m.sink.ring))
  {
    StepOrdered(m, OpWatch);
    StepAgrees(m, OpWatch);
    WatchesOn(m.sink.taps, Tap(m.sink.nextTap, true, []), m.sink.nextTap);
  }

  /**
   A phone gets everything: from joining, for as long as it does not leave and whatever else happens, it is there and was
   sent every byte that came since, after the ring it was given first.
  */
  lemma PhoneGetsEverything(m: Moment, later: seq<Op>) returns (t: Tap<seq<byte>>)
    requires Ordered(m.sink) && Agrees(m.sink, m.past) && m.sink.shell && NeverLeaves(later, m.sink.nextTap)
    ensures var m1 := Run(Step(m, OpWatch), later);
            && t in m1.sink.taps && t.id == m.sink.nextTap && t.open
            && m.past.log <= m1.past.log && |BytesOf(m.past.log)| <= |BytesOf(m1.past.log)|
            && Joined(t.sent) == BytesOf(m1.past.log)[|BytesOf(m.past.log)|..]
            && Watched(m.sink).1 == Some((t.id, m.sink.ring))
  {
    hide Ordered, Agrees, Run, Step, SameStart, Watched, NeverLeaves;
    var id := m.sink.nextTap;
    PhoneJoins(m);
    var m0 := Step(m, OpWatch);
    RunKeepsWatchers(m0, later, id);
    RunOnlyGrows(m0, later);
    t := TheWatcher(Run(m0, later).sink.taps, id);
    PhoneMissesNothing(m0, later, t);
    StartKept(m0, Run(m0, later), id);
  }

  lemma TheWatcher<T>(taps: seq<Tap<T>>, id: nat) returns (t: Tap<T>)
    requires Watches(taps, id)
    ensures t in taps && t.id == id && t.open
  {
    var i :| 0 <= i < |taps| && taps[i].id == id && taps[i].open;
    t := taps[i];
  }

  lemma StartKept(m: Moment, m1: Moment, id: nat)
    requires SameStart(m, m1, id) && id < m.sink.nextTap
    ensures id in m.past.byteSince ==> id in m1.past.byteSince && m1.past.byteSince[id] == m.past.byteSince[id]
    ensures id in m.past.origins ==> id in m1.past.origins && m1.past.origins[id] == m.past.origins[id]
  {
  }

  lemma DesktopJoins(m: Moment)
    requires Ordered(m.sink) && Agrees(m.sink, m.past)
    ensures var m1, tap := Step(m, OpMirror), Mirrored(m.sink).1;
            && Ordered(m1.sink) && Agrees(m1.sink, m1.past) && Watches(m1.sink.dtaps, tap.id) && tap.id < m1.sink.nextTap
            && tap.id == m.sink.nextTap && tap.id in m1.past.origins && m1.past.origins[tap.id] == tap
            && m1.past.log == m.past.log && m1.past.base == m.past.base
            && tap.total == m.sink.Total() && tap.init == m.sink.init
  {
    StepOrdered(m, OpMirror);
    StepAgrees(m, OpMirror);
    WatchesOn(m.sink.dtaps, Tap(m.sink.nextTap, true, []), m.sink.nextTap);
  }

  /**
   A desktop sees everything: from joining, for as long as it does not leave and whatever else happens, it is there, and
   what it was given first followed by all it was sent is the log from where its ring begins.
  */
  lemma DesktopGetsEverything(m: Moment, later: seq<Op>) returns (t: Tap<TapMsg>)
    requires Ordered(m.sink) && Agrees(m.sink, m.past) && NeverLeaves(later, m.sink.nextTap)
    ensures var m1, tap := Run(Step(m, OpMirror), later), Mirrored(m.sink).1;
            && t in m1.sink.dtaps && t.id == tap.id && t.open && m.past.log <= m1.past.log
            && SeesAll(t, tap, m.past.base, m1.past.log)
  {
    hide Ordered, Agrees, Run, Step, SameStart, Mirrored, SeesAll, NeverLeaves;
    var tap := Mirrored(m.sink).1;
    DesktopJoins(m);
    var m0 := Step(m, OpMirror);
    RunKeepsWatchers(m0, later, tap.id);
    RunOnlyGrows(m0, later);
    t := TheWatcher(Run(m0, later).sink.dtaps, tap.id);
    DesktopSeesTheLog(m0, later, t);
    StartKept(m0, Run(m0, later), tap.id);
  }

  /** And one that leaves is not sent to any more. */
  lemma LeavingEnds(s: Sink, id: nat)
    ensures !Watches(Left(s, id).taps, id) && !Watches(Left(s, id).dtaps, id)
    ensures forall o: nat :: o != id ==> (Watches(Left(s, id).taps, o) <==> Watches(s.taps, o)) && (Watches(Left(s, id).dtaps, o) <==> Watches(s.dtaps, o))
  {
    NoneWatches(s.taps, id);
    NoneWatches(s.dtaps, id);
    forall o: nat | o != id
      ensures Watches(Left(s, id).taps, o) <==> Watches(s.taps, o)
      ensures Watches(Left(s, id).dtaps, o) <==> Watches(s.dtaps, o)
    {
      StayIff(s.taps, id, o);
      StayIff(s.dtaps, id, o);
    }
  }

  lemma StayIff<T>(taps: seq<Tap<T>>, left: nat, id: nat)
    requires left != id
    ensures Watches(HungUp(taps, left), id) <==> Watches(taps, id)
  {
    if Watches(taps, id) {
      OthersStay(taps, left, id);
    }
    if Watches(HungUp(taps, left), id) {
      var i :| 0 <= i < |taps| && HungUp(taps, left)[i].id == id && HungUp(taps, left)[i].open;
      assert taps[i].id == id && taps[i].open;
    }
  }
}
