/** Whole runs of the sink: whatever happens in whatever order, everyone who watches sees the one log. */
module SinkRuns {
  import opened Wrappers
  import opened Base64
  import opened OutputLog
  import opened OutputSink

  datatype Op =
    | OpOutput(bytes: seq<byte>)
    | OpOutputAt(at: nat, bytes: seq<byte>)
    | OpLocal(bytes: seq<byte>)
    | OpResize(cols: nat, rows: nat)
    | OpWatch
    | OpMirror
    | OpLeave(id: nat)
    | OpAttach

  datatype Moment = Moment(sink: Sink, past: History)

  lemma PushedAtAgrees(s: Sink, h: History, at: nat, bytes: seq<byte>)
    requires Agrees(s, h)
    ensures Agrees(PushedAt(s, at, bytes), h.(log := h.log + Outs(Unseen(s.Total(), at, bytes))))
  {
    var skip := if s.Total() > at then s.Total() - at else 0;
    if skip < |bytes| {
      PushedAgrees(s, h, bytes[skip..]);
    } else {
      assert h.log + Outs([]) == h.log;
    }
  }

  lemma AttachOrdered(s: Sink)
    requires Ordered(s)
    ensures Ordered(AttachedTo(s).0)
  {
    hide InOrder, Composed, Flushed;
  }

  /** A new pane is bound. */
  function Attach(m: Moment): (r: Moment)
    requires Ordered(m.sink)
    ensures Ordered(r.sink)
  {
    AttachOrdered(m.sink);
    Moment(AttachedTo(m.sink).0, AttachedHistory(m.sink, m.past))
  }

  /** One operation on the sink, and what it adds to the history. */
  function Step(m: Moment, op: Op): Moment
    requires Ordered(m.sink)
  {
    var (s, h) := (m.sink, m.past);
    match op
    case OpOutput(bytes) => Moment(Pushed(s, bytes), h.(log := h.log + Outs(bytes)))
    case OpOutputAt(at, bytes) => Moment(PushedAt(s, at, bytes), h.(log := h.log + Outs(Unseen(s.Total(), at, bytes))))
    case OpLocal(bytes) =>
      Moment(PushedLocal(s, bytes), if s.state.Attached? then h else h.(pane := h.pane.(outputOnly := false)))
    case OpResize(c, r) => Moment(Resized(s, c, r), h.(log := h.log + [Size(c, r)]))
    case OpWatch =>
      Moment(Watched(s).0, if s.shell then h.(byteSince := h.byteSince[s.nextTap := |BytesOf(h.log)|]) else h)
    case OpMirror =>
      Moment(Mirrored(s).0, h.(logSince := h.logSince[s.nextTap := |h.log|], origins := h.origins[s.nextTap := Mirrored(s).1]))
    case OpLeave(id) => Moment(Left(s, id), h)
    case OpAttach => Attach(m)
  }

  lemma PushedOrdered(s: Sink, bytes: seq<byte>)
    requires Ordered(s)
    ensures Ordered(Pushed(s, bytes))
  {
    InOrderWidens(s.resizes, s.start, s.Total(), s.start, s.Total() + |bytes|);
    KeptInOrder(s.resizes, s.start, s.Total() + |bytes|, s.start + Over(s, bytes));
  }

  lemma ResizedOrdered(s: Sink, c: nat, r: nat)
    requires Ordered(s)
    ensures Ordered(Resized(s, c, r))
  {
    InOrderMore(s.resizes, s.start, s.Total(), Mark(s.Total(), c, r));
  }

  lemma StepOrdered(m: Moment, op: Op)
    requires Ordered(m.sink)
    ensures Ordered(Step(m, op).sink)
  {
    match op {
      case OpOutput(bytes) => PushedOrdered(m.sink, bytes);
      case OpOutputAt(at, bytes) =>
        var unseen := Unseen(m.sink.Total(), at, bytes);
        if unseen != [] { PushedOrdered(m.sink, unseen); }
      case OpResize(c, r) => ResizedOrdered(m.sink, c, r);
      case _ =>
    }
  }

  /** Every operation keeps the sink what its history says. */
  lemma StepAgrees(m: Moment, op: Op)
    requires Ordered(m.sink) && Agrees(m.sink, m.past)
    ensures Agrees(Step(m, op).sink, Step(m, op).past)
  {
    match op {
      case OpOutput(bytes) => PushedAgrees(m.sink, m.past, bytes);
      case OpOutputAt(at, bytes) => PushedAtAgrees(m.sink, m.past, at, bytes);
      case OpLocal(bytes) => LocalAgrees(m.sink, m.past, bytes);
      case OpResize(c, r) => ResizedAgrees(m.sink, m.past, c, r);
      case OpWatch => if m.sink.shell { WatchedAgrees(m.sink, m.past); }
      case OpMirror => MirroredAgrees(m.sink, m.past);
      case OpLeave(id) => LeftAgrees(m.sink, m.past, id);
      case OpAttach => AttachedAgrees(m.sink, m.past);
    }
  }

  /** The log only grows. */
  lemma StepRecords(m: Moment, op: Op)
    requires Ordered(m.sink)
    ensures var h, h1 := m.past, Step(m, op).past;
            h.log <= h1.log && h1.base == h.base && h1.whole == h.whole && h1.firstSize == h.firstSize
  {
  }

  function Run(m: Moment, ops: seq<Op>): (r: Moment)
    requires Ordered(m.sink)
    ensures Ordered(r.sink)
    decreases |ops|
  {
    if |ops| == 0 then m
    else
      StepOrdered(m, ops[0]);
      Run(Step(m, ops[0]), ops[1..])
  }

  lemma {:induction false} RunAgrees(m: Moment, ops: seq<Op>)
    requires Ordered(m.sink) && Agrees(m.sink, m.past)
    ensures Agrees(Run(m, ops).sink, Run(m, ops).past)
    ensures var h, h1 := m.past, Run(m, ops).past;
            h.log <= h1.log && h1.base == h.base && h1.whole == h.whole && h1.firstSize == h.firstSize
    decreases |ops|
  {
    if |ops| != 0 {
      StepOrdered(m, ops[0]);
      StepAgrees(m, ops[0]);
      StepRecords(m, ops[0]);
      RunAgrees(Step(m, ops[0]), ops[1..]);
    }
  }

  function Fresh(shell: bool, cap: nat, init: (nat, nat)): Moment {
    Moment(NewSink(shell, cap, init),
           History(0, [], init, true, map[], map[], map[], PaneStart(0, 0, 0, true)))
  }

  lemma FreshAgrees(shell: bool, cap: nat, init: (nat, nat))
    ensures Ordered(Fresh(shell, cap, init).sink) && Agrees(Fresh(shell, cap, init).sink, Fresh(shell, cap, init).past)
  {
  }

  /** The ring is the last at-most-`cap` bytes of everything, and the kept resizes those at or after its start. */
  ghost predicate EndOfLog(s: Sink, log: seq<Ev>) {
    && s.ring == LastOf(BytesOf(log), s.cap)
    && s.Total() == |BytesOf(log)|
    && s.resizes == KeptFrom(MarksOf(log, 0), s.start)
  }

  lemma WholeIsEnd(s: Sink, h: History)
    requires Agrees(s, h) && h.whole
    ensures EndOfLog(s, h.log) && s.size == LastSize(h.firstSize, h.log) && s.init == h.firstSize && s.replay.None?
  {
    SinceMarks(h.log, 0, s.start);
  }

  /** The ring refines the log in every run of a spawned session. */
  lemma RingIsTheEndOfTheLog(shell: bool, cap: nat, init: (nat, nat), ops: seq<Op>)
    ensures var m := Run(Fresh(shell, cap, init), ops);
            EndOfLog(m.sink, m.past.log) && m.sink.size == LastSize(init, m.past.log) && m.sink.init == init
  {
    FreshAgrees(shell, cap, init);
    RunAgrees(Fresh(shell, cap, init), ops);
    WholeIsEnd(Run(Fresh(shell, cap, init), ops).sink, Run(Fresh(shell, cap, init), ops).past);
  }

  /** The desktop's first ring and resizes, then all it received, are the log from its start: no gap, nothing twice. */
  ghost predicate SeesAll(t: Tap<TapMsg>, origin: DesktopTap, base: nat, log: seq<Ev>) {
    && base <= origin.start
    && Weave(origin.ring, origin.resizes, origin.start) + Received(t.sent) == Since(log, origin.start - base)
  }

  lemma MirrorSeesAll(t: Tap<TapMsg>, k: nat, origin: DesktopTap, base: nat, log: seq<Ev>)
    requires Mirrors(t, k, origin, base, log)
    ensures SeesAll(t, origin, base, log)
  {
    SinceConcat(log[..k], log[k..], origin.start - base);
    assert log[..k] + log[k..] == log;
  }

  lemma DesktopSees(s: Sink, h: History, t: Tap<TapMsg>)
    requires Agrees(s, h) && t in s.dtaps && t.open
    ensures t.id in h.origins && SeesAll(t, h.origins[t.id], h.base, h.log)
  {
    MirrorSeesAll(t, h.logSince[t.id], h.origins[t.id], h.base, h.log);
  }

  /** In every run, every desktop still watching sees the whole log from its start. */
  lemma DesktopSeesTheLog(m: Moment, ops: seq<Op>, t: Tap<TapMsg>)
    requires Ordered(m.sink) && Agrees(m.sink, m.past)
    requires t in Run(m, ops).sink.dtaps && t.open
    ensures var h := Run(m, ops).past;
            t.id in h.origins && SeesAll(t, h.origins[t.id], h.base, h.log)
  {
    RunAgrees(m, ops);
    DesktopSees(Run(m, ops).sink, Run(m, ops).past, t);
  }

  /** In every run, every phone still watching got every byte since it began. */
  lemma PhoneMissesNothing(m: Moment, ops: seq<Op>, t: Tap<seq<byte>>)
    requires Ordered(m.sink) && Agrees(m.sink, m.past)
    requires t in Run(m, ops).sink.taps && t.open
    ensures var h := Run(m, ops).past;
            t.id in h.byteSince && h.byteSince[t.id] <= |BytesOf(h.log)| && Joined(t.sent) == BytesOf(h.log)[h.byteSince[t.id]..]
  {
    RunAgrees(m, ops);
  }

  // ---------- The rebuilt pane and the live terminal ----------

  lemma RebuildGrows(msgs: seq<PaneMsg>, off: nat, base: nat, log: seq<Ev>, m: PaneMsg, e: seq<Ev>)
    requires Rebuilds(msgs, off, base, log) && !m.SnapTo? && PaneEvents(m) == e
    ensures Rebuilds(msgs + [m], off, base, log + e) && (msgs + [m])[0] == msgs[0]
  {
    ShownMore(msgs, 1, m);
    SinceConcat(log, e, off - base);
    BytesConcat(log, e);
  }

  /** The pane shows the log from `off` after the message it was reset by. */
  ghost predicate Rebuilt(m: Moment, off: nat, snap: PaneMsg) {
    m.sink.state.Attached? && Rebuilds(m.sink.state.sent, off, m.past.base, m.past.log) && m.sink.state.sent[0] == snap
  }

  lemma OutputRebuilds(m: Moment, bytes: seq<byte>, off: nat, snap: PaneMsg)
    requires Rebuilt(m, off, snap)
    ensures Rebuilt(Moment(Pushed(m.sink, bytes), m.past.(log := m.past.log + Outs(bytes))), off, snap)
  {
    RoundTrip(bytes);
    RebuildGrows(m.sink.state.sent, off, m.past.base, m.past.log, Data(Encode(bytes)), Outs(bytes));
  }

  lemma OutputAtRebuilds(m: Moment, at: nat, bytes: seq<byte>, off: nat, snap: PaneMsg)
    requires Rebuilt(m, off, snap)
    ensures Rebuilt(Moment(PushedAt(m.sink, at, bytes), m.past.(log := m.past.log + Outs(Unseen(m.sink.Total(), at, bytes)))), off, snap)
  {
    var unseen := Unseen(m.sink.Total(), at, bytes);
    if unseen == [] {
      assert m.past.log + Outs(unseen) == m.past.log;
    } else {
      OutputRebuilds(m, unseen, off, snap);
    }
  }

  lemma StepRebuilt(m: Moment, op: Op, off: nat, snap: PaneMsg)
    requires Ordered(m.sink) && Rebuilt(m, off, snap) && !op.OpAttach?
    ensures Rebuilt(Step(m, op), off, snap)
  {
    match op {
      case OpOutput(bytes) => OutputRebuilds(m, bytes, off, snap);
      case OpOutputAt(at, bytes) => OutputAtRebuilds(m, at, bytes, off, snap);
      case OpLocal(bytes) =>
        RebuildGrows(m.sink.state.sent, off, m.past.base, m.past.log, Local(Encode(bytes)), []);
        assert m.past.log + [] == m.past.log;
      case OpResize(c, r) =>
        RebuildGrows(m.sink.state.sent, off, m.past.base, m.past.log, SizeTo(c, r), [Size(c, r)]);
      case _ =>
    }
  }

  lemma {:induction false} RunRebuilt(m: Moment, ops: seq<Op>, off: nat, snap: PaneMsg)
    requires Ordered(m.sink) && Rebuilt(m, off, snap) && forall i :: 0 <= i < |ops| ==> !ops[i].OpAttach?
    ensures Rebuilt(Run(m, ops), off, snap) && Run(m, ops).past.base == m.past.base
    decreases |ops|
  {
    if |ops| != 0 {
      StepOrdered(m, ops[0]);
      StepRecords(m, ops[0]);
      StepRebuilt(m, ops[0], off, snap);
      RunRebuilt(Step(m, ops[0]), ops[1..], off, snap);
    }
  }

  /** A rebuilt pane shows its snapshot and then the whole log from there. */
  lemma RebuiltPaneShows<S>(msgs: seq<PaneMsg>, off: nat, base: nat, log: seq<Ev>, t: Terminal<S>, blank: S)
    requires Rebuilds(msgs, off, base, log)
    ensures PlayPane(t, blank, msgs) == Play(t, t.paint(msgs[0].cols, msgs[0].rows, msgs[0].screen), Since(log, off - base))
  {
    assert msgs == [msgs[0]] + msgs[1..];
    PaneShows(t, blank, msgs[0], msgs[1..]);
  }

  /** The pane is the terminal's own play of the log from where it was reset. */
  ghost predicate ShowsLog<S>(m: Moment, off: nat, snap: PaneMsg, t: Terminal<S>, blank: S) {
    && m.sink.state.Attached? && snap.SnapTo? && m.past.base <= off
    && PlayPane(t, blank, m.sink.state.sent) ==
       Play(t, t.paint(snap.cols, snap.rows, snap.screen), Since(m.past.log, off - m.past.base))
  }

  lemma RebuiltShows<S>(m: Moment, off: nat, snap: PaneMsg, t: Terminal<S>, blank: S)
    requires Rebuilt(m, off, snap)
    ensures ShowsLog(m, off, snap, t, blank)
  {
    RebuiltPaneShows(m.sink.state.sent, off, m.past.base, m.past.log, t, blank);
  }

  /** From a rebuilt pane on, whatever comes, the pane shows the log, the live part included. */
  lemma RebuiltThenLive<S>(m: Moment, later: seq<Op>, off: nat, snap: PaneMsg, t: Terminal<S>, blank: S)
    requires Ordered(m.sink) && Rebuilt(m, off, snap) && forall i :: 0 <= i < |later| ==> !later[i].OpAttach?
    ensures ShowsLog(Run(m, later), off, snap, t, blank) && Run(m, later).past.base == m.past.base
  {
    RunRebuilt(m, later, off, snap);
    RebuiltShows(Run(m, later), off, snap, t, blank);
  }

  lemma AttachRebuilds(s: Sink, h: History)
    requires Agrees(s, h) && s.start == 0 && s.state.Attached? && s.replay.None?
    ensures Ordered(s) && h.base == 0
    ensures var sent := AttachedTo(s).0.state.sent;
            Rebuilds(sent, 0, 0, h.log) && sent[0] == SnapTo(s.init.0, s.init.1, 0, "")
  {
    ComposedRebuilds(s, h, None);
    assert AttachedTo(s).0.state.sent == Composed(s, None).0;
  }

  /** A reload while the ring still begins at the spawn rebuilds everything. */
  lemma ReattachRebuilds(m: Moment)
    requires Ordered(m.sink) && Agrees(m.sink, m.past) && m.sink.start == 0 && m.sink.state.Attached? && m.sink.replay.None?
    ensures Rebuilt(Attach(m), 0, SnapTo(m.sink.init.0, m.sink.init.1, 0, "")) && Attach(m).past.base == 0
  {
    AttachRebuilds(m.sink, m.past);
  }

  lemma ReattachThenLive<S>(m: Moment, later: seq<Op>, t: Terminal<S>, blank: S)
    requires Ordered(m.sink) && Agrees(m.sink, m.past) && m.sink.start == 0 && m.sink.state.Attached? && m.sink.replay.None?
    requires forall i :: 0 <= i < |later| ==> !later[i].OpAttach?
    ensures ShowsLog(Run(Attach(m), later), 0, SnapTo(m.sink.init.0, m.sink.init.1, 0, ""), t, blank)
    ensures Run(Attach(m), later).past.base == 0
  {
    ReattachRebuilds(m);
    RebuiltThenLive(Attach(m), later, 0, SnapTo(m.sink.init.0, m.sink.init.1, 0, ""), t, blank);
  }

  /**
   Rebuild exactness. For any run in which the ring never rolled over, a page that re-attaches and then lives on
   shows what the terminal itself shows, for every terminal: the whole log from the spawn size.
  */
  lemma ReattachShowsTheTerminal<S>(shell: bool, cap: nat, init: (nat, nat), ops: seq<Op>, later: seq<Op>, t: Terminal<S>, blank: S)
    requires var s := Run(Fresh(shell, cap, init), ops).sink; s.start == 0 && s.state.Attached?
    requires forall i :: 0 <= i < |later| ==> !later[i].OpAttach?
    ensures var m1 := Run(Attach(Run(Fresh(shell, cap, init), ops)), later);
            m1.past.base == 0 && ShowsLog(m1, 0, SnapTo(init.0, init.1, 0, ""), t, blank)
  {
    RunAgrees(Fresh(shell, cap, init), ops);
    RingIsTheEndOfTheLog(shell, cap, init, ops);
    ReattachThenLive(Run(Fresh(shell, cap, init), ops), later, t, blank);
  }
}
