/**
 What a first attach shows, exactly. A sink that waits for its first pane buffers every byte and every pane-only text;
 an adopted session rebuilds its pane and then sends that buffer too, a fresh one sends nothing else.
*/
module SinkAttach {
  import opened Wrappers
  import opened Base64
  import opened OutputLog
  import opened OutputSink
  import opened SinkRuns

  predicate NoAttach(ops: seq<Op>) {
    forall i :: 0 <= i < |ops| ==> !ops[i].OpAttach?
  }

  /** How many bytes of pane-only text a run brings. */
  function TextOf(ops: seq<Op>): nat {
    if |ops| == 0 then 0 else (if ops[0].OpLocal? then |ops[0].bytes| else 0) + TextOf(ops[1..])
  }

  function ResizesIn(ops: seq<Op>): nat {
    if |ops| == 0 then 0 else (if ops[0].OpResize? then 1 else 0) + ResizesIn(ops[1..])
  }

  /** How many events of the log are resizes. */
  function Sizes(log: seq<Ev>): int {
    |log| - |BytesOf(log)|
  }

  // ---------- What every attach does ----------

  /** The snapshot a first attach may use: one whose offset the ring still holds. */
  predicate Usable(s: Sink) {
    s.replay.Some? && s.replay.value.Some? && s.start <= s.replay.value.value.offset <= s.Total()
  }

  /**
   An attach rebuilds the pane when the session was adopted or had a pane before, and only then. It resets the pane to the
   usable snapshot, else to the spawn size if the ring still begins there, else to the size of now at the ring's start;
   and it asks for a redraw in this last case alone. It leaves the sink as it was, with a pane and no snapshot left.
  */
  lemma AttachExactly(s: Sink)
    requires Ordered(s)
    ensures var (s1, redraw) := AttachedTo(s); var rebuild := s.replay.Some? || s.state.Attached?;
            && s1.state.Attached? && s1 == s.(state := s1.state, replay := None)
            && (redraw <==> rebuild && !Usable(s) && s.start > 0)
            && (rebuild ==> |s1.state.sent| > 0)
            && (rebuild && Usable(s) ==> var snap := s.replay.value.value;
                                         s1.state.sent[0] == SnapTo(snap.cols, snap.rows, snap.offset, snap.data))
            && (rebuild && !Usable(s) && s.start == 0 ==> s1.state.sent[0] == SnapTo(s.init.0, s.init.1, 0, ""))
            && (rebuild && !Usable(s) && s.start > 0 ==> s1.state.sent[0] == SnapTo(s.size.0, s.size.1, s.start, ""))
  {
    hide InOrder, RingMsgs, KeptFrom;
    if s.replay.None? && s.state.Attached? {
      KeptInOrder(s.resizes, s.start, s.Total(), ResetTo(s, None).0.offset);
    } else if s.replay.Some? {
      KeptInOrder(s.resizes, s.start, s.Total(), ResetTo(s, s.replay.value).0.offset);
    }
  }

  /** A session adopted just now: its first attach resets the pane from what it was seeded with. */
  lemma SeededAttaches(s: Sink, start: nat, ring: seq<byte>, resizes: seq<Mark>, init: (nat, nat), size: (nat, nat), replay: Option<Snapshot>)
    requires InOrder(resizes, start, start + |ring|) && s.state == Buffering([])
    ensures var s0 := Seeded(s, start, ring, resizes, init, size, replay);
            && Ordered(s0) && s0.ring == ring && s0.start == start && s0.resizes == resizes && s0.taps == s.taps && s0.dtaps == s.dtaps
            && var (s1, redraw) := AttachedTo(s0); var usable := replay.Some? && start <= replay.value.offset <= start + |ring|;
               && (redraw <==> !usable && start > 0) && s1.state.Attached? && |s1.state.sent| > 0
               && s1.state.sent[0] == (if usable then SnapTo(replay.value.cols, replay.value.rows, replay.value.offset, replay.value.data)
                                       else if start == 0 then SnapTo(init.0, init.1, 0, "") else SnapTo(size.0, size.1, start, ""))
  {
    hide InOrder, AttachedTo;
    AttachExactly(Seeded(s, start, ring, resizes, init, size, replay));
  }

  // ---------- What the buffer holds ----------

  /** From `m` to `m1` the buffer took `text` bytes of its own and the log's new bytes, and the log `resizes` resizes. */
  ghost predicate Buffers(m: Moment, m1: Moment, text: nat, resizes: nat) {
    && m.sink.state.Buffering? && m1.sink.state.Buffering? && m1.sink.replay == m.sink.replay
    && m.past.log <= m1.past.log && m1.past.base == m.past.base && m1.sink.Total() >= m.sink.Total()
    && m1.sink.Total() - m.sink.Total() == |BytesOf(m1.past.log)| - |BytesOf(m.past.log)|
    && |m1.sink.state.buf| == |m.sink.state.buf| + (m1.sink.Total() - m.sink.Total()) + text
    && Sizes(m1.past.log) == Sizes(m.past.log) + resizes
    && (text == 0 && m.sink.state.buf == BytesOf(m.past.log) ==> m1.sink.state.buf == BytesOf(m1.past.log))
  }

  lemma BuffersOutput(m: Moment, bytes: seq<byte>)
    requires m.sink.state.Buffering?
    ensures Buffers(m, Moment(Pushed(m.sink, bytes), m.past.(log := m.past.log + Outs(bytes))), 0, 0)
  {
    hide KeptFrom, SendAll;
    BytesConcat(m.past.log, Outs(bytes));
    BytesOfOuts(bytes);
  }

  lemma BuffersOutputAt(m: Moment, at: nat, bytes: seq<byte>)
    requires m.sink.state.Buffering?
    ensures var unseen := Unseen(m.sink.Total(), at, bytes);
            Buffers(m, Moment(PushedAt(m.sink, at, bytes), m.past.(log := m.past.log + Outs(unseen))), 0, 0)
  {
    hide Pushed, Buffers;
    var unseen := Unseen(m.sink.Total(), at, bytes);
    if |unseen| == 0 {
      assert m.past.log + Outs(unseen) == m.past.log;
      BuffersNothing(m);
    } else {
      BuffersOutput(m, unseen);
    }
  }

  lemma BuffersLocal(m: Moment, bytes: seq<byte>)
    requires m.sink.state.Buffering?
    ensures Buffers(m, Moment(PushedLocal(m.sink, bytes), m.past.(pane := m.past.pane.(outputOnly := false))), |bytes|, 0)
  {
    hide BytesOf;
    if |bytes| == 0 {
      assert m.sink.state.buf + bytes == m.sink.state.buf;
    }
  }

  lemma BuffersResize(m: Moment, c: nat, r: nat)
    requires m.sink.state.Buffering?
    ensures Buffers(m, Moment(Resized(m.sink, c, r), m.past.(log := m.past.log + [Size(c, r)])), 0, 1)
  {
    hide SendAll;
    var e := [Size(c, r)];
    assert e[1..] == [] && BytesOf(e) == [];
    BytesConcat(m.past.log, e);
  }

  lemma BuffersNothing(m: Moment)
    requires m.sink.state.Buffering?
    ensures Buffers(m, m, 0, 0)
  {
  }

  /** A watcher that comes or goes changes neither. */
  lemma BuffersAlike(m: Moment, m1: Moment)
    requires m.sink.state.Buffering? && m1.sink.state == m.sink.state && m1.sink.replay == m.sink.replay
    requires m1.sink.Total() == m.sink.Total() && m1.past.log == m.past.log && m1.past.base == m.past.base
    ensures Buffers(m, m1, 0, 0)
  {
  }

  lemma BuffersStep(m: Moment, op: Op)
    requires Ordered(m.sink) && m.sink.state.Buffering? && !op.OpAttach?
    ensures Buffers(m, Step(m, op), if op.OpLocal? then |op.bytes| else 0, if op.OpResize? then 1 else 0)
  {
    hide Buffers, Ordered, Pushed, PushedAt, PushedLocal, Resized;
    match op {
      case OpOutput(bytes) => BuffersOutput(m, bytes);
      case OpOutputAt(at, bytes) => BuffersOutputAt(m, at, bytes);
      case OpLocal(bytes) => BuffersLocal(m, bytes);
      case OpResize(c, r) => BuffersResize(m, c, r);
      case OpWatch => BuffersAlike(m, Step(m, op));
      case OpMirror => BuffersAlike(m, Step(m, op));
      case OpLeave(_) => BuffersAlike(m, Step(m, op));
    }
  }

  lemma BuffersOn(m: Moment, m1: Moment, m2: Moment, text: nat, resizes: nat, more: nat, again: nat)
    requires Buffers(m, m1, text, resizes) && Buffers(m1, m2, more, again)
    ensures Buffers(m, m2, text + more, resizes + again)
  {
  }

  /** Until the first attach the buffer holds the log's bytes since and the pane-only text, and no resize. */
  lemma {:induction false} BuffersRun(m: Moment, ops: seq<Op>)
    requires Ordered(m.sink) && m.sink.state.Buffering? && NoAttach(ops)
    ensures Buffers(m, Run(m, ops), TextOf(ops), ResizesIn(ops))
    decreases |ops|
  {
    hide Buffers, Step, Ordered;
    if |ops| == 0 {
      BuffersNothing(m);
    } else {
      var op := ops[0];
      var text, resizes := if op.OpLocal? then |op.bytes| else 0, if op.OpResize? then 1 else 0;
      StepOrdered(m, op);
      BuffersStep(m, op);
      StillBuffers(m, Step(m, op), text, resizes);
      BuffersRun(Step(m, op), ops[1..]);
      BuffersOn(m, Step(m, op), Run(m, ops), text, resizes, TextOf(ops[1..]), ResizesIn(ops[1..]));
    }
  }

  lemma StillBuffers(m: Moment, m1: Moment, text: nat, resizes: nat)
    requires Buffers(m, m1, text, resizes)
    ensures m1.sink.state.Buffering? && m1.sink.replay == m.sink.replay
  {
  }

  // ---------- An adopted session ----------

  /** Where the first attach resets the pane to. */
  function ResetOffset(s: Sink): nat
    requires s.replay.Some?
  {
    ResetTo(s, s.replay.value).0.offset
  }

  /** A rebuild followed by `rest` shows the log from where it was reset and then what `rest` does. */
  lemma RebuiltAnd(msgs: seq<PaneMsg>, off: nat, base: nat, log: seq<Ev>, rest: seq<PaneMsg>)
    requires Rebuilds(msgs, off, base, log) && NoSnap(rest)
    ensures (msgs + rest)[0] == msgs[0] && NoSnap((msgs + rest)[1..])
    ensures Shown((msgs + rest)[1..]) == Since(log, off - base) + Shown(rest) && Shown(msgs + rest) == Shown((msgs + rest)[1..])
  {
    hide Shown, Since, BytesOf;
    var all := msgs + rest;
    assert all[1..] == msgs[1..] + rest && all == [msgs[0]] + all[1..];
    ShownConcat(msgs[1..], rest);
    ShownConcat([msgs[0]], all[1..]);
    ShownOne(msgs[0]);
    assert [] + Shown(all[1..]) == Shown(all[1..]);
  }

  lemma AdoptedSends(s: Sink)
    requires Ordered(s) && s.replay.Some? && s.state.Buffering?
    ensures AttachedTo(s).0.state == Attached(Composed(s, s.replay.value).0 + Flushed(s.state.buf))
  {
    hide Ordered, Composed, Flushed;
  }

  lemma RebuildBegins(msgs: seq<PaneMsg>, off: nat, base: nat, log: seq<Ev>)
    requires Rebuilds(msgs, off, base, log)
    ensures |msgs| > 0 && base <= off
  {
  }

  /** An adopted session's first attach shows the log from its reset point, and after it the buffer. */
  lemma AdoptedShows(s: Sink, h: History)
    requires Ordered(s) && Agrees(s, h) && s.replay.Some? && s.state.Buffering?
    ensures h.base <= ResetOffset(s) && AttachedTo(s).0.state.Attached?
    ensures var sent := AttachedTo(s).0.state.sent;
            && |sent| > 0 && sent[0] == ResetTo(s, s.replay.value).0 && NoSnap(sent[1..])
            && Shown(sent[1..]) == Since(h.log, ResetOffset(s) - h.base) + Outs(s.state.buf)
            && Shown(sent) == Shown(sent[1..])
  {
    hide Ordered, Agrees, Composed, Flushed, AttachedTo, ResetTo, NoSnap, Shown, Since, Rebuilds;
    var msgs := Composed(s, s.replay.value).0;
    AdoptedSends(s);
    ComposedRebuilds(s, h, s.replay.value);
    RebuildBegins(msgs, ResetOffset(s), h.base, h.log);
    FlushedShows(s.state.buf);
    RebuiltAnd(msgs, ResetOffset(s), h.base, h.log, Flushed(s.state.buf));
  }

  /** So it shows the log exactly when nothing waited in the buffer. */
  lemma AdoptedShowsOnceExactly(s: Sink, h: History)
    requires Ordered(s) && Agrees(s, h) && s.replay.Some? && s.state.Buffering?
    ensures h.base <= ResetOffset(s)
    ensures Shown(AttachedTo(s).0.state.sent) == Since(h.log, ResetOffset(s) - h.base) <==> s.state.buf == []
  {
    AdoptedShows(s, h);
    var since := Since(h.log, ResetOffset(s) - h.base);
    assert |since + Outs(s.state.buf)| == |since| + |s.state.buf|;
  }

  /**
   In terms of the run: adopted and seeded at `m`, whatever comes before the first attach, that attach shows the log
   exactly when no unseen byte and no pane-only text came since the seed.
  */
  lemma AdoptedFirstAttach(m: Moment, ops: seq<Op>)
    requires Ordered(m.sink) && Agrees(m.sink, m.past) && m.sink.replay.Some? && m.sink.state == Buffering([]) && NoAttach(ops)
    ensures var m1 := Run(m, ops);
            && m1.sink.replay.Some? && m1.past.base <= ResetOffset(m1.sink)
            && (Shown(Attach(m1).sink.state.sent) == Since(m1.past.log, ResetOffset(m1.sink) - m1.past.base)
                <==> m1.sink.Total() == m.sink.Total() && TextOf(ops) == 0)
  {
    hide Agrees, Buffers, Shown, AttachedTo, Since, Run;
    BuffersRun(m, ops);
    EmptyExactly(m, Run(m, ops), TextOf(ops), ResizesIn(ops));
    RunAgrees(m, ops);
    AdoptedShowsOnceExactly(Run(m, ops).sink, Run(m, ops).past);
  }

  lemma EmptyExactly(m: Moment, m1: Moment, text: nat, resizes: nat)
    requires Buffers(m, m1, text, resizes) && m.sink.state == Buffering([])
    ensures m1.sink.state.Buffering? && m1.sink.replay == m.sink.replay
    ensures m1.sink.state.buf == [] <==> m1.sink.Total() == m.sink.Total() && text == 0
  {
  }

  const ADOPTED: Sink :=
    Seeded(NewSink(false, 10, (80, 24)), 0, [], [], (80, 24), (80, 24), Some(Snapshot("", 0, 80, 24)))

  /** Such a session: one byte comes between the seed and the attach, and the pane shows it twice. */
  lemma AdoptedByteShownTwice(b: byte)
    ensures ADOPTED.replay.Some? && ADOPTED.state == Buffering([])
    ensures Ordered(Pushed(ADOPTED, [b])) && Shown(AttachedTo(Pushed(ADOPTED, [b])).0.state.sent) == [Out(b), Out(b)]
  {
    var h := History(0, [], (80, 24), false, map[], map[], map[], PaneStart(0, 0, 0, true));
    assert Agrees(ADOPTED, h) by {
      SeededAgrees(NewSink(false, 10, (80, 24)), 0, [], [], (80, 24), (80, 24), (80, 24), Some(Snapshot("", 0, 80, 24)));
    }
    PushedAgrees(ADOPTED, h, [b]);
    var s1, h1 := Pushed(ADOPTED, [b]), h.(log := h.log + Outs([b]));
    OneByteBuffered(b);
    OneByteTwice(s1, h1, b);
  }

  lemma OneByteBuffered(b: byte)
    ensures var s := Pushed(ADOPTED, [b]);
            Ordered(s) && s.state == Buffering([b]) && s.replay.Some? && ResetOffset(s) == 0 && [] + Outs([b]) == [Out(b)]
  {
    assert [] + [b] == [b];
    assert Over(ADOPTED, [b]) == 0 && ([] + [b])[0..] == [b];
  }

  lemma OneByteTwice(s: Sink, h: History, b: byte)
    requires Ordered(s) && Agrees(s, h) && s.state == Buffering([b]) && s.replay.Some? && ResetOffset(s) == 0
    requires h.base == 0 && h.log == [Out(b)]
    ensures Shown(AttachedTo(s).0.state.sent) == [Out(b), Out(b)]
  {
    hide Agrees, Shown, AttachedTo;
    AdoptedShows(s, h);
    assert Since(h.log, 0) == [Out(b)] && Outs([b]) == [Out(b)];
  }

  // ---------- A fresh session ----------

  lemma {:induction false} OnlyBytes(log: seq<Ev>)
    ensures Sizes(log) >= 0 && (Sizes(log) == 0 ==> log == Outs(BytesOf(log)))
  {
    if |log| != 0 {
      OnlyBytes(log[1..]);
      if Sizes(log) == 0 {
        assert log == [log[0]] + log[1..];
      }
    }
  }

  /**
   A fresh session's first attach shows its log exactly when no resize and no pane-only text came before: it flushes
   bytes alone.
  */
  lemma FreshFirstAttach(shell: bool, cap: nat, init: (nat, nat), ops: seq<Op>)
    requires NoAttach(ops)
    ensures var m := Run(Fresh(shell, cap, init), ops);
            && m.sink.state.Buffering? && Shown(Attach(m).sink.state.sent) == Outs(m.sink.state.buf)
            && (Shown(Attach(m).sink.state.sent) == m.past.log <==> ResizesIn(ops) == 0 && TextOf(ops) == 0)
  {
    var m0 := Fresh(shell, cap, init);
    FreshAgrees(shell, cap, init);
    BuffersRun(m0, ops);
    var m := Run(m0, ops);
    FlushedShows(m.sink.state.buf);
    assert Attach(m).sink.state.sent == Flushed(m.sink.state.buf);
    FlushIsLog(m.sink.state.buf, m.past.log, TextOf(ops), ResizesIn(ops));
  }

  lemma FlushIsLog(buf: seq<byte>, log: seq<Ev>, text: nat, resizes: nat)
    requires |buf| == |BytesOf(log)| + text && Sizes(log) == resizes && (text == 0 ==> buf == BytesOf(log))
    ensures Outs(buf) == log <==> resizes == 0 && text == 0
  {
    OnlyBytes(log);
    if Outs(buf) == log {
      BytesOfOuts(buf);
    }
  }

  /** Such a session: resized before its first attach, it sends its new pane no resize at all. */
  lemma FreshResizeIsNotSent(shell: bool, cap: nat, init: (nat, nat), c: nat, r: nat)
    ensures var m := Run(Fresh(shell, cap, init), [OpResize(c, r)]);
            m.past.log == [Size(c, r)] && Shown(Attach(m).sink.state.sent) == []
  {
    var m0 := Fresh(shell, cap, init);
    assert [OpResize(c, r)][1..] == [];
    assert Run(m0, [OpResize(c, r)]) == Step(m0, OpResize(c, r));
    assert m0.past.log + [Size(c, r)] == [Size(c, r)];
  }

  // ---------- And then live ----------

  /** The pane was reset by `snap`, showed `first`, and has shown the log since its event `from`. */
  ghost predicate LiveSince(m: Moment, snap: PaneMsg, first: seq<Ev>, from: nat) {
    && m.sink.state.Attached? && |m.sink.state.sent| > 0 && m.sink.state.sent[0] == snap && snap.SnapTo?
    && NoSnap(m.sink.state.sent[1..]) && from <= |m.past.log|
    && Shown(m.sink.state.sent[1..]) == first + m.past.log[from..]
  }

  lemma LiveMore(m: Moment, m1: Moment, snap: PaneMsg, first: seq<Ev>, from: nat, msg: PaneMsg, e: seq<Ev>)
    requires LiveSince(m, snap, first, from) && !msg.SnapTo? && PaneEvents(msg) == e
    requires m1.sink.state == Attached(m.sink.state.sent + [msg]) && m1.past.log == m.past.log + e
    ensures LiveSince(m1, snap, first, from)
  {
    ShownMore(m.sink.state.sent, 1, msg);
    DropConcat(m.past.log, e, from);
    Regroup(first, m.past.log[from..], e);
  }

  lemma LiveOutput(m: Moment, bytes: seq<byte>, snap: PaneMsg, first: seq<Ev>, from: nat)
    requires LiveSince(m, snap, first, from)
    ensures LiveSince(Moment(Pushed(m.sink, bytes), m.past.(log := m.past.log + Outs(bytes))), snap, first, from)
  {
    hide Encode, Decode, Shown, KeptFrom, SendAll;
    RoundTrip(bytes);
    LiveMore(m, Moment(Pushed(m.sink, bytes), m.past.(log := m.past.log + Outs(bytes))), snap, first, from,
             Data(Encode(bytes)), Outs(bytes));
  }

  lemma LiveOutputAt(m: Moment, at: nat, bytes: seq<byte>, snap: PaneMsg, first: seq<Ev>, from: nat)
    requires LiveSince(m, snap, first, from)
    ensures var unseen := Unseen(m.sink.Total(), at, bytes);
            LiveSince(Moment(PushedAt(m.sink, at, bytes), m.past.(log := m.past.log + Outs(unseen))), snap, first, from)
  {
    hide LiveSince, Pushed;
    var unseen := Unseen(m.sink.Total(), at, bytes);
    if |unseen| == 0 {
      assert m.past.log + Outs(unseen) == m.past.log;
    } else {
      LiveOutput(m, unseen, snap, first, from);
    }
  }

  lemma LiveLocal(m: Moment, bytes: seq<byte>, snap: PaneMsg, first: seq<Ev>, from: nat)
    requires LiveSince(m, snap, first, from)
    ensures LiveSince(Moment(PushedLocal(m.sink, bytes), m.past), snap, first, from)
  {
    hide Encode, Shown;
    assert m.past.log + [] == m.past.log;
    LiveMore(m, Moment(PushedLocal(m.sink, bytes), m.past), snap, first, from, Local(Encode(bytes)), []);
  }

  lemma LiveResize(m: Moment, c: nat, r: nat, snap: PaneMsg, first: seq<Ev>, from: nat)
    requires LiveSince(m, snap, first, from)
    ensures LiveSince(Moment(Resized(m.sink, c, r), m.past.(log := m.past.log + [Size(c, r)])), snap, first, from)
  {
    hide Shown, SendAll;
    LiveMore(m, Moment(Resized(m.sink, c, r), m.past.(log := m.past.log + [Size(c, r)])), snap, first, from,
             SizeTo(c, r), [Size(c, r)]);
  }

  lemma LiveAlike(m: Moment, m1: Moment, snap: PaneMsg, first: seq<Ev>, from: nat)
    requires LiveSince(m, snap, first, from) && m1.sink.state == m.sink.state && m1.past.log == m.past.log
    ensures LiveSince(m1, snap, first, from)
  {
    hide Shown;
  }

  lemma LiveIsAttached(m: Moment, snap: PaneMsg, first: seq<Ev>, from: nat)
    requires LiveSince(m, snap, first, from)
    ensures m.sink.state.Attached?
  {
    hide Shown;
  }

  lemma LiveStep(m: Moment, op: Op, snap: PaneMsg, first: seq<Ev>, from: nat)
    requires Ordered(m.sink) && LiveSince(m, snap, first, from) && !op.OpAttach?
    ensures LiveSince(Step(m, op), snap, first, from)
  {
    hide LiveSince, Ordered, Pushed, PushedAt, PushedLocal, Resized;
    LiveIsAttached(m, snap, first, from);
    match op {
      case OpOutput(bytes) => LiveOutput(m, bytes, snap, first, from);
      case OpOutputAt(at, bytes) => LiveOutputAt(m, at, bytes, snap, first, from);
      case OpLocal(bytes) => LiveLocal(m, bytes, snap, first, from);
      case OpResize(c, r) => LiveResize(m, c, r, snap, first, from);
      case OpWatch => LiveAlike(m, Step(m, op), snap, first, from);
      case OpMirror => LiveAlike(m, Step(m, op), snap, first, from);
      case OpLeave(_) => LiveAlike(m, Step(m, op), snap, first, from);
    }
  }

  lemma {:induction false} LiveRun(m: Moment, ops: seq<Op>, snap: PaneMsg, first: seq<Ev>, from: nat)
    requires Ordered(m.sink) && LiveSince(m, snap, first, from) && NoAttach(ops)
    ensures LiveSince(Run(m, ops), snap, first, from)
    decreases |ops|
  {
    hide LiveSince, Ordered, Step;
    if |ops| != 0 {
      StepOrdered(m, ops[0]);
      LiveStep(m, ops[0], snap, first, from);
      LiveRun(Step(m, ops[0]), ops[1..], snap, first, from);
    }
  }

  /** From the first attach on the pane is live. */
  lemma AdoptedLive(m: Moment)
    requires Ordered(m.sink) && Agrees(m.sink, m.past) && m.sink.replay.Some? && m.sink.state.Buffering?
    ensures m.past.base <= ResetOffset(m.sink) && Attach(m).past.log == m.past.log && Ordered(Attach(m).sink)
    ensures LiveSince(Attach(m), ResetTo(m.sink, m.sink.replay.value).0,
                      Since(m.past.log, ResetOffset(m.sink) - m.past.base) + Outs(m.sink.state.buf), |m.past.log|)
  {
    hide Ordered, Agrees, AttachedTo, Shown, Since, NoSnap;
    AdoptedShows(m.sink, m.past);
    var first := Since(m.past.log, ResetOffset(m.sink) - m.past.base) + Outs(m.sink.state.buf);
    assert first + m.past.log[|m.past.log|..] == first;
  }

  lemma LivePane<S>(m: Moment, snap: PaneMsg, first: seq<Ev>, from: nat, t: Terminal<S>, blank: S)
    requires LiveSince(m, snap, first, from)
    ensures m.sink.state.Attached? && snap.SnapTo? && from <= |m.past.log|
    ensures PlayPane(t, blank, m.sink.state.sent) == Play(t, t.paint(snap.cols, snap.rows, snap.screen), first + m.past.log[from..])
  {
    hide Shown, Play, PlayPane, NoSnap;
    var sent := m.sink.state.sent;
    assert sent == [snap] + sent[1..];
    PaneShows(t, blank, snap, sent[1..]);
  }

  /**
   An adopted session's pane, from its first attach on and for every terminal: the snapshot (or what stands for it), the
   log from its offset, the buffer once more, and then the log as it goes on.
  */
  lemma AdoptedShowsFromSnapshot<S>(m: Moment, later: seq<Op>, t: Terminal<S>, blank: S)
    requires Ordered(m.sink) && Agrees(m.sink, m.past) && m.sink.replay.Some? && m.sink.state.Buffering? && NoAttach(later)
    ensures var m1 := Run(Attach(m), later);
            var snap := ResetTo(m.sink, m.sink.replay.value).0;
            && m1.sink.state.Attached? && m.past.base <= snap.offset && m.past.log <= m1.past.log
            && PlayPane(t, blank, m1.sink.state.sent) ==
               Play(t, t.paint(snap.cols, snap.rows, snap.screen),
                    (Since(m.past.log, snap.offset - m.past.base) + Outs(m.sink.state.buf)) + m1.past.log[|m.past.log|..])
  {
    hide Ordered, Agrees, NoAttach, LiveSince, Attach, Run, Since, Play, PlayPane;
    var snap := ResetTo(m.sink, m.sink.replay.value).0;
    AdoptedLive(m);
    var first := Since(m.past.log, snap.offset - m.past.base) + Outs(m.sink.state.buf);
    LiveRun(Attach(m), later, snap, first, |m.past.log|);
    RunGrows(Attach(m), later);
    LivePane(Run(Attach(m), later), snap, first, |m.past.log|, t, blank);
  }

  lemma {:induction false} RunGrows(m: Moment, ops: seq<Op>)
    requires Ordered(m.sink)
    ensures m.past.log <= Run(m, ops).past.log
    decreases |ops|
  {
    if |ops| != 0 {
      StepOrdered(m, ops[0]);
      StepRecords(m, ops[0]);
      RunGrows(Step(m, ops[0]), ops[1..]);
    }
  }
}
