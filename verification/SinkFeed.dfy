/**
 An adopted session: the sink is seeded with the daemon's ring, and the daemon's chunks, which may repeat what the
 ring already holds, wait until then. Whenever that is and however the stream is cut, every byte is taken once.
*/
module SinkFeed {
  import opened Wrappers
  import opened Base64
  import opened OutputLog
  import opened OutputSink
  import opened SinkRuns

  datatype FeedEv = Output(at: nat, bytes: seq<byte>) | Reshape(cols: nat, rows: nat) | Exit | Lost

  /** The operation an event is for the sink; a child's end leaves the sink alone. */
  function OpOf(ev: FeedEv): Option<Op> {
    match ev
    case Output(at, bytes) => Some(OpOutputAt(at, bytes))
    case Reshape(c, r) => Some(OpResize(c, r))
    case Exit => None
    case Lost => None
  }

  function Applied(m: Moment, ev: FeedEv): (r: Moment)
    requires Ordered(m.sink)
    ensures Ordered(r.sink)
  {
    if OpOf(ev).Some? then
      StepOrdered(m, OpOf(ev).value);
      Step(m, OpOf(ev).value)
    else m
  }

  function AppliedAll(m: Moment, evs: seq<FeedEv>): (r: Moment)
    requires Ordered(m.sink)
    ensures Ordered(r.sink)
    decreases |evs|
  {
    if |evs| == 0 then m
    else AppliedAll(Applied(m, evs[0]), evs[1..])
  }

  // ---------- What the daemon's events amount to ----------

  function EndAfter(total: nat, ev: FeedEv): nat {
    if ev.Output? && ev.at + |ev.bytes| > total then ev.at + |ev.bytes| else total
  }

  /** The furthest offset reached. */
  function EndOf(total: nat, evs: seq<FeedEv>): nat
    decreases |evs|
  {
    if |evs| == 0 then total else EndOf(EndAfter(total, evs[0]), evs[1..])
  }

  /** Every chunk is the stream's own bytes at its offset, and none begins past what came before. */
  predicate Faithful(stream: seq<byte>, total: nat, evs: seq<FeedEv>)
    decreases |evs|
  {
    |evs| > 0 ==>
      && (evs[0].Output? ==>
            && evs[0].at <= total && evs[0].at + |evs[0].bytes| <= |stream|
            && evs[0].bytes == stream[evs[0].at..evs[0].at + |evs[0].bytes|])
      && Faithful(stream, EndAfter(total, evs[0]), evs[1..])
  }

  /** What one event adds to the log of a sink holding everything before `total`. */
  function Adds(total: nat, ev: FeedEv): seq<Ev> {
    match ev
    case Output(at, bytes) => Outs(Unseen(total, at, bytes))
    case Reshape(c, r) => [Size(c, r)]
    case _ => []
  }

  function Logged(total: nat, evs: seq<FeedEv>): seq<Ev>
    decreases |evs|
  {
    if |evs| == 0 then [] else Adds(total, evs[0]) + Logged(EndAfter(total, evs[0]), evs[1..])
  }

  lemma SlicesMeet<T>(s: seq<T>, a: nat, b: nat, c: nat)
    requires a <= b <= c <= |s|
    ensures s[a..b] + s[b..c] == s[a..c]
  {
  }

  lemma AddsBytes(stream: seq<byte>, total: nat, ev: FeedEv)
    requires Faithful(stream, total, [ev]) && total <= |stream|
    ensures EndAfter(total, ev) <= |stream| && BytesOf(Adds(total, ev)) == stream[total..EndAfter(total, ev)]
  {
    match ev {
      case Output(at, bytes) =>
        BytesOfOuts(Unseen(total, at, bytes));
        if total - at < |bytes| {
          assert bytes[total - at..] == stream[total..at + |bytes|];
        }
      case Reshape(c, r) =>
        assert [Size(c, r)][1..] == [];
      case _ =>
    }
  }

  /** Chunks that overlap but never gap add exactly the stream from where the sink was, every byte once. */
  lemma {:induction false} EveryByteOnce(stream: seq<byte>, total: nat, evs: seq<FeedEv>)
    requires Faithful(stream, total, evs) && total <= |stream|
    ensures total <= EndOf(total, evs) <= |stream|
    ensures BytesOf(Logged(total, evs)) == stream[total..EndOf(total, evs)]
    decreases |evs|
  {
    if |evs| != 0 {
      var next := EndAfter(total, evs[0]);
      assert Faithful(stream, total, [evs[0]]);
      AddsBytes(stream, total, evs[0]);
      EveryByteOnce(stream, next, evs[1..]);
      BytesConcat(Adds(total, evs[0]), Logged(next, evs[1..]));
      SlicesMeet(stream, total, next, EndOf(total, evs));
    }
  }

  lemma {:induction false} LoggedConcat(total: nat, a: seq<FeedEv>, b: seq<FeedEv>)
    ensures EndOf(total, a + b) == EndOf(EndOf(total, a), b)
    ensures Logged(total, a + b) == Logged(total, a) + Logged(EndOf(total, a), b)
    decreases |a|
  {
    hide Adds;
    if |a| == 0 {
      assert a + b == b;
    } else {
      var next := EndAfter(total, a[0]);
      assert (a + b)[1..] == a[1..] + b && (a + b)[0] == a[0];
      LoggedConcat(next, a[1..], b);
      Regroup(Adds(total, a[0]), Logged(next, a[1..]), Logged(EndOf(next, a[1..]), b));
    }
  }

  lemma {:induction false} FaithfulConcat(stream: seq<byte>, total: nat, a: seq<FeedEv>, b: seq<FeedEv>)
    ensures Faithful(stream, total, a + b) <==> Faithful(stream, total, a) && Faithful(stream, EndOf(total, a), b)
    decreases |a|
  {
    if |a| == 0 {
      assert a + b == b;
    } else {
      assert (a + b)[1..] == a[1..] + b && (a + b)[0] == a[0];
      FaithfulConcat(stream, EndAfter(total, a[0]), a[1..], b);
    }
  }

  // ---------- Applying them ----------

  lemma AppliedLogs(m: Moment, ev: FeedEv)
    requires Ordered(m.sink)
    requires ev.Output? ==> ev.at <= m.sink.Total()
    ensures Applied(m, ev).past.log == m.past.log + Adds(m.sink.Total(), ev)
    ensures Applied(m, ev).sink.Total() == EndAfter(m.sink.Total(), ev) && Applied(m, ev).past.base == m.past.base
  {
  }

  lemma LogsInOrder(log: seq<Ev>, total: nat, evs: seq<FeedEv>)
    requires |evs| > 0
    ensures (log + Adds(total, evs[0])) + Logged(EndAfter(total, evs[0]), evs[1..]) == log + Logged(total, evs)
  {
    Regroup(log, Adds(total, evs[0]), Logged(EndAfter(total, evs[0]), evs[1..]));
  }

  lemma {:induction false} AppliedAllLogs(stream: seq<byte>, m: Moment, evs: seq<FeedEv>)
    requires Ordered(m.sink) && Faithful(stream, m.sink.Total(), evs)
    ensures var m1 := AppliedAll(m, evs);
            && m1.past.log == m.past.log + Logged(m.sink.Total(), evs)
            && m1.sink.Total() == EndOf(m.sink.Total(), evs) && m1.past.base == m.past.base
    decreases |evs|
  {
    if |evs| != 0 {
      AppliedLogs(m, evs[0]);
      AppliedAllLogs(stream, Applied(m, evs[0]), evs[1..]);
      LogsInOrder(m.past.log, m.sink.Total(), evs);
    }
  }

  // ---------- The feed ----------

  /** Events wait in `early` until the sink has been seeded and released. */
  datatype Feed = Feed(moment: Moment, early: Option<seq<FeedEv>>)

  /** Between the daemon's events, anything else may happen to the sink. */
  datatype FeedStep = Arrive(ev: FeedEv) | Release | Meanwhile(op: Op)

  predicate Other(op: Op) {
    !op.OpOutput? && !op.OpOutputAt? && !op.OpResize?
  }

  function FeedOn(f: Feed, step: FeedStep): (r: Feed)
    requires Ordered(f.moment.sink)
    ensures Ordered(r.moment.sink)
  {
    match step
    case Arrive(ev) =>
      if f.early.Some? then f.(early := Some(f.early.value + [ev])) else f.(moment := Applied(f.moment, ev))
    case Release =>
      if f.early.Some? then Feed(AppliedAll(f.moment, f.early.value), None) else f
    case Meanwhile(op) =>
      StepOrdered(f.moment, op);
      f.(moment := Step(f.moment, op))
  }

  function FeedAll(f: Feed, steps: seq<FeedStep>): (r: Feed)
    requires Ordered(f.moment.sink)
    ensures Ordered(r.moment.sink)
    decreases |steps|
  {
    if |steps| == 0 then f else FeedAll(FeedOn(f, steps[0]), steps[1..])
  }

  function Arrivals(steps: seq<FeedStep>): seq<FeedEv> {
    if |steps| == 0 then []
    else if steps[0].Arrive? then [steps[0].ev] + Arrivals(steps[1..])
    else Arrivals(steps[1..])
  }

  /** Only the daemon's events are output or resizes. */
  predicate NothingElseWrites(steps: seq<FeedStep>) {
    |steps| > 0 ==> (steps[0].Meanwhile? ==> Other(steps[0].op)) && NothingElseWrites(steps[1..])
  }

  lemma OtherKeepsLog(m: Moment, op: Op)
    requires Ordered(m.sink) && Other(op)
    ensures Step(m, op).past.log == m.past.log && Step(m, op).past.base == m.past.base && Step(m, op).sink.Total() == m.sink.Total()
  {
  }

  /** Once released, the feed has taken each event as it came. */
  lemma {:induction false} LiveFeed(stream: seq<byte>, f: Feed, steps: seq<FeedStep>)
    requires Ordered(f.moment.sink) && f.early.None?
    requires Faithful(stream, f.moment.sink.Total(), Arrivals(steps))
    requires NothingElseWrites(steps)
    ensures var (m, m1) := (f.moment, FeedAll(f, steps).moment);
            && FeedAll(f, steps).early.None? && m1.past.base == m.past.base
            && m1.past.log == m.past.log + Logged(m.sink.Total(), Arrivals(steps))
            && m1.sink.Total() == EndOf(m.sink.Total(), Arrivals(steps))
    decreases |steps|
  {
    if |steps| != 0 {
      var f1 := FeedOn(f, steps[0]);
      if steps[0].Arrive? {
        assert Arrivals(steps)[0] == steps[0].ev && Arrivals(steps)[1..] == Arrivals(steps[1..]);
        AppliedLogs(f.moment, steps[0].ev);
        LogsInOrder(f.moment.past.log, f.moment.sink.Total(), Arrivals(steps));
      } else if steps[0].Meanwhile? {
        OtherKeepsLog(f.moment, steps[0].op);
      }
      LiveFeed(stream, f1, steps[1..]);
    }
  }

  /** From the release on, what was queued and what comes are one stream. */
  lemma ReleasedFeed(stream: seq<byte>, f: Feed, steps: seq<FeedStep>)
    requires Ordered(f.moment.sink) && f.early.Some?
    requires Faithful(stream, f.moment.sink.Total(), f.early.value + Arrivals(steps))
    requires NothingElseWrites(steps)
    ensures var (m, f1) := (f.moment, FeedAll(Feed(AppliedAll(f.moment, f.early.value), None), steps));
            var all := f.early.value + Arrivals(steps);
            && f1.early.None? && f1.moment.past.base == m.past.base
            && f1.moment.past.log == m.past.log + Logged(m.sink.Total(), all)
            && f1.moment.sink.Total() == EndOf(m.sink.Total(), all)
  {
    var (log, total, q) := (f.moment.past.log, f.moment.sink.Total(), f.early.value);
    FaithfulConcat(stream, total, q, Arrivals(steps));
    LoggedConcat(total, q, Arrivals(steps));
    AppliedAllLogs(stream, f.moment, q);
    LiveFeed(stream, Feed(AppliedAll(f.moment, q), None), steps);
    Regroup(log, Logged(total, q), Logged(EndOf(total, q), Arrivals(steps)));
  }

  /** Whatever was queued and whatever comes, released or not. */
  lemma {:induction false} QueuedFeed(stream: seq<byte>, f: Feed, steps: seq<FeedStep>)
    requires Ordered(f.moment.sink) && f.early.Some?
    requires Faithful(stream, f.moment.sink.Total(), f.early.value + Arrivals(steps))
    requires NothingElseWrites(steps)
    ensures var (m, f1, all) := (f.moment, FeedAll(f, steps), f.early.value + Arrivals(steps));
            && f1.moment.past.base == m.past.base
            && (if f1.early.Some? then f1.early.value == all && f1.moment.past.log == m.past.log && f1.moment.sink.Total() == m.sink.Total()
                else && f1.moment.past.log == m.past.log + Logged(m.sink.Total(), all)
                     && f1.moment.sink.Total() == EndOf(m.sink.Total(), all))
    decreases |steps|
  {
    if |steps| == 0 {
      assert f.early.value + [] == f.early.value;
    } else {
      var q := f.early.value;
      match steps[0] {
        case Arrive(ev) =>
          assert q + Arrivals(steps) == (q + [ev]) + Arrivals(steps[1..]);
          QueuedFeed(stream, FeedOn(f, steps[0]), steps[1..]);
        case Release =>
          ReleasedFeed(stream, f, steps[1..]);
        case Meanwhile(op) =>
          OtherKeepsLog(f.moment, op);
          QueuedFeed(stream, FeedOn(f, steps[0]), steps[1..]);
      }
    }
  }

  lemma AppliedAgrees(m: Moment, ev: FeedEv)
    requires Ordered(m.sink) && Agrees(m.sink, m.past)
    ensures Agrees(Applied(m, ev).sink, Applied(m, ev).past)
  {
    if OpOf(ev).Some? {
      StepAgrees(m, OpOf(ev).value);
    }
  }

  lemma {:induction false} AppliedAllAgrees(m: Moment, evs: seq<FeedEv>)
    requires Ordered(m.sink) && Agrees(m.sink, m.past)
    ensures Agrees(AppliedAll(m, evs).sink, AppliedAll(m, evs).past)
    decreases |evs|
  {
    if |evs| != 0 {
      AppliedAgrees(m, evs[0]);
      AppliedAllAgrees(Applied(m, evs[0]), evs[1..]);
    }
  }

  /** The feed keeps the sink what its history says, whatever comes when. */
  lemma {:induction false} FeedAgrees(f: Feed, steps: seq<FeedStep>)
    requires Ordered(f.moment.sink) && Agrees(f.moment.sink, f.moment.past)
    ensures Agrees(FeedAll(f, steps).moment.sink, FeedAll(f, steps).moment.past)
    decreases |steps|
  {
    if |steps| != 0 {
      match steps[0] {
        case Arrive(ev) => AppliedAgrees(f.moment, ev);
        case Release => if f.early.Some? { AppliedAllAgrees(f.moment, f.early.value); }
        case Meanwhile(op) => StepAgrees(f.moment, op);
      }
      FeedAgrees(FeedOn(f, steps[0]), steps[1..]);
    }
  }

  lemma RingIsWindow(stream: seq<byte>, s: Sink, h: History)
    requires Agrees(s, h)
    requires h.base <= s.Total() <= |stream| && BytesOf(h.log) == stream[h.base..s.Total()]
    ensures h.base <= s.start && s.ring == stream[s.start..s.Total()]
  {
    SinceBytes(h.log, s.start - h.base);
  }

  /** The sink holds the stream from its base to its total, and its ring is the end of that. */
  ghost predicate WindowOfStream(stream: seq<byte>, m: Moment) {
    && m.past.base <= m.sink.start && m.sink.Total() <= |stream|
    && BytesOf(m.past.log) == stream[m.past.base..m.sink.Total()]
    && m.sink.ring == stream[m.sink.start..m.sink.Total()]
  }

  lemma WindowGoesOn(stream: seq<byte>, base: nat, total: nat, log: seq<Ev>, evs: seq<FeedEv>)
    requires base <= total <= |stream| && BytesOf(log) == stream[base..total] && Faithful(stream, total, evs)
    ensures total <= EndOf(total, evs) <= |stream|
    ensures BytesOf(log + Logged(total, evs)) == stream[base..EndOf(total, evs)]
  {
    EveryByteOnce(stream, total, evs);
    BytesConcat(log, Logged(total, evs));
    SlicesMeet(stream, base, total, EndOf(total, evs));
  }

  /**
   Overlap-tolerant adoption. A sink seeded with a window of the daemon's stream, fed chunks that may overlap but
   never gap, some of them queued before the release: its log goes on with the same events wherever the release
   falls and whatever else happens, and it stays a window of that stream, every byte once.
  */
  lemma AdoptionTakesEveryByteOnce(stream: seq<byte>, f: Feed, steps: seq<FeedStep>)
    requires Ordered(f.moment.sink) && Agrees(f.moment.sink, f.moment.past) && f.early.Some?
    requires WindowOfStream(stream, f.moment)
    requires Faithful(stream, f.moment.sink.Total(), f.early.value + Arrivals(steps))
    requires NothingElseWrites(steps)
    requires FeedAll(f, steps).early.None?
    ensures var (m, m1, all) := (f.moment, FeedAll(f, steps).moment, f.early.value + Arrivals(steps));
            && m1.past.log == m.past.log + Logged(m.sink.Total(), all)
            && m.sink.Total() <= m1.sink.Total() == EndOf(m.sink.Total(), all)
            && WindowOfStream(stream, m1)
  {
    var m, m1, all := f.moment, FeedAll(f, steps).moment, f.early.value + Arrivals(steps);
    var base, total, end := m.past.base, m.sink.Total(), EndOf(m.sink.Total(), all);
    QueuedFeed(stream, f, steps);
    WindowGoesOn(stream, base, total, m.past.log, all);
    FeedAgrees(f, steps);
    RingIsWindow(stream, m1.sink, m1.past);
  }
}
