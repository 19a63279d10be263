/**
 The output sink: a bounded ring with resize marks, live watchers and a pane. A ghost
 log of everything since the start says what each of them must amount to.
*/
module OutputSink {
  import opened Wrappers
  import opened Base64
  import opened OutputLog

  /** One watcher's end of a channel: whether its receiver is still there, and everything sent to it. */
  datatype Tap<T> = Tap(id: nat, open: bool, sent: seq<T>)

  /** What a remote desktop starts mirroring from. */
  datatype DesktopTap = DesktopTap(id: nat, start: nat, ring: seq<byte>, resizes: seq<Mark>, init: (nat, nat), total: nat)

  datatype SinkState = Buffering(buf: seq<byte>) | Attached(sent: seq<PaneMsg>)

  /** Sending to every watcher forgets the ones that went away. */
  function SendAll<T>(taps: seq<Tap<T>>, x: T): seq<Tap<T>> {
    if |taps| == 0 then []
    else (if taps[0].open then [taps[0].(sent := taps[0].sent + [x])] else []) + SendAll(taps[1..], x)
  }

  /** Each watcher that stays was there, open, and got exactly `x` more. */
  lemma SentToEach<T>(taps: seq<Tap<T>>, x: T, t: Tap<T>) returns (t0: Tap<T>)
    requires t in SendAll(taps, x)
    ensures t0 in taps && t0.open && t == t0.(sent := t0.sent + [x])
  {
    if taps[0].open && t == taps[0].(sent := taps[0].sent + [x]) {
      t0 := taps[0];
    } else {
      t0 := SentToEach(taps[1..], x, t);
    }
  }

  /** The last `cap` of `bytes`. */
  function LastOf(bytes: seq<byte>, cap: nat): seq<byte> {
    if |bytes| > cap then bytes[|bytes| - cap..] else bytes
  }

  lemma LastOfMore(all: seq<byte>, more: seq<byte>, cap: nat)
    ensures LastOf(LastOf(all, cap) + more, cap) == LastOf(all + more, cap)
  {
  }

  function LastSize(size: (nat, nat), log: seq<Ev>): (nat, nat) {
    if |log| == 0 then size
    else match log[|log| - 1]
         case Size(c, r) => (c, r)
         case Out(_) => LastSize(size, log[..|log| - 1])
  }

  lemma {:induction false} LastSizeOfBytes(size: (nat, nat), log: seq<Ev>, bytes: seq<byte>)
    ensures LastSize(size, log + Outs(bytes)) == LastSize(size, log)
    decreases |bytes|
  {
    if |bytes| == 0 {
      assert log + Outs(bytes) == log;
    } else {
      var all := log + Outs(bytes);
      assert all[..|all| - 1] == log + Outs(bytes[..|bytes| - 1]);
      LastSizeOfBytes(size, log, bytes[..|bytes| - 1]);
    }
  }

  // ---------- The log with more at its end ----------

  /** The part of the log from offset `start` on; the log begins at offset `base`. */
  function WindowOf(log: seq<Ev>, base: nat, start: nat): seq<Ev> {
    if base <= start then Since(log, start - base) else []
  }

  /** A ring and its marks are the log's window from `start` to its end. */
  ghost predicate Holds(ring: seq<byte>, resizes: seq<Mark>, start: nat, base: nat, log: seq<Ev>) {
    && base <= start
    && start - base + |ring| == |BytesOf(log)|
    && ring == BytesOf(WindowOf(log, base, start))
    && resizes == MarksOf(WindowOf(log, base, start), start)
  }

  lemma WindowTakes(ring: seq<byte>, resizes: seq<Mark>, start: nat, base: nat, log: seq<Ev>, more: seq<byte>)
    requires Holds(ring, resizes, start, base, log)
    ensures Holds(ring + more, resizes, start, base, log + Outs(more))
    ensures BytesOf(log + Outs(more)) == BytesOf(log) + more
  {
    var w := WindowOf(log, base, start);
    BytesOfOuts(more);
    BytesConcat(log, Outs(more));
    BytesConcat(w, Outs(more));
    SinceConcat(log, Outs(more), start - base);
    MarksConcat(w, Outs(more), start);
    assert MarksOf(w + Outs(more), start) == MarksOf(w, start);
  }

  lemma WindowDrops(ring: seq<byte>, resizes: seq<Mark>, start: nat, base: nat, log: seq<Ev>, over: nat)
    requires Holds(ring, resizes, start, base, log) && over <= |ring|
    ensures Holds(ring[over..], KeptFrom(resizes, start + over), start + over, base, log)
  {
    var w := WindowOf(log, base, start);
    SinceTwice(log, start - base, over);
    SinceBytes(w, over);
    SinceMarks(w, start, over);
  }

  lemma WindowResizes(ring: seq<byte>, resizes: seq<Mark>, start: nat, base: nat, log: seq<Ev>, c: nat, r: nat)
    requires Holds(ring, resizes, start, base, log)
    ensures Holds(ring, resizes + [Mark(start + |ring|, c, r)], start, base, log + [Size(c, r)])
    ensures BytesOf(log + [Size(c, r)]) == BytesOf(log)
  {
    var k, w, e := start - base, WindowOf(log, base, start), [Size(c, r)];
    assert e[1..] == [] && BytesOf(e) == [];
    BytesConcat(log, e);
    SinceConcat(log, e, k);
    BytesConcat(w, e);
    MarksConcat(w, e, start);
    assert MarksOf(e, start + |ring|) == [Mark(start + |ring|, c, r)];
  }

  /** The ring is the log's window from `start`, and the last `cap` bytes of everything unless it was seeded. */
  ghost predicate RingOn(ring: seq<byte>, resizes: seq<Mark>, start: nat, cap: nat, whole: bool, base: nat, log: seq<Ev>) {
    && Holds(ring, resizes, start, base, log)
    && (whole ==> base == 0 && ring == LastOf(BytesOf(log), cap))
  }

  /** Bytes at the ring's end; what is over the cap falls out at its front, with the marks on it. */
  lemma RingTakes(ring: seq<byte>, resizes: seq<Mark>, start: nat, cap: nat, whole: bool, base: nat, log: seq<Ev>, more: seq<byte>, over: nat)
    requires RingOn(ring, resizes, start, cap, whole, base, log)
    requires over == if |ring + more| > cap then |ring + more| - cap else 0
    ensures RingOn((ring + more)[over..], KeptFrom(resizes, start + over), start + over, cap, whole, base, log + Outs(more))
    ensures (ring + more)[over..] == LastOf(ring + more, cap)
  {
    WindowTakes(ring, resizes, start, base, log, more);
    WindowDrops(ring + more, resizes, start, base, log + Outs(more), over);
    if whole {
      LastOfMore(BytesOf(log), more, cap);
    }
  }

  lemma RingResizes(ring: seq<byte>, resizes: seq<Mark>, start: nat, cap: nat, whole: bool, base: nat, log: seq<Ev>, c: nat, r: nat)
    requires RingOn(ring, resizes, start, cap, whole, base, log)
    ensures RingOn(ring, resizes + [Mark(start + |ring|, c, r)], start, cap, whole, base, log + [Size(c, r)])
    ensures BytesOf(log + [Size(c, r)]) == BytesOf(log)
  {
    WindowResizes(ring, resizes, start, base, log, c, r);
  }

  // ---------- Watchers and the pane against the log ----------

  /** Every live phone got every byte since it began, which was after byte `since[id]`. */
  ghost predicate TapsOn(taps: seq<Tap<seq<byte>>>, since: map<nat, nat>, all: seq<byte>) {
    forall t :: t in taps && t.open ==> t.id in since && since[t.id] <= |all| && Joined(t.sent) == all[since[t.id]..]
  }

  /** A desktop that began with `k` events of the log holds a window of those, and got every later one. */
  ghost predicate Mirrors(t: Tap<TapMsg>, k: nat, origin: DesktopTap, base: nat, log: seq<Ev>) {
    && k <= |log| && base <= origin.start && origin.start - base <= |BytesOf(log[..k])|
    && Weave(origin.ring, origin.resizes, origin.start) == Since(log[..k], origin.start - base)
    && Received(t.sent) == log[k..]
  }

  ghost predicate DtapsOn(dtaps: seq<Tap<TapMsg>>, since: map<nat, nat>, origins: map<nat, DesktopTap>, base: nat, log: seq<Ev>) {
    forall t :: t in dtaps && t.open ==> t.id in since && t.id in origins && Mirrors(t, since[t.id], origins[t.id], base, log)
  }

  /** How many messages rebuilt the pane and how much log there was then; or from where a buffer holds every byte. */
  datatype PaneStart = PaneStart(head: nat, from: nat, bufFrom: nat, outputOnly: bool)

  /** The pane got every event since it was attached; a buffer without pane-only text holds every byte since its start. */
  ghost predicate PaneOn(st: SinkState, at: PaneStart, log: seq<Ev>) {
    if st.Attached?
    then at.head <= |st.sent| && at.from <= |log| && Shown(st.sent[at.head..]) == log[at.from..] && NoSnap(st.sent[at.head..])
    else at.bufFrom <= |log| && (at.outputOnly ==> st.buf == BytesOf(log[at.bufFrom..]))
  }

  lemma JoinedMore(chunks: seq<seq<byte>>, x: seq<byte>)
    ensures Joined(chunks + [x]) == Joined(chunks) + x
  {
    assert (chunks + [x])[..|chunks|] == chunks;
  }

  lemma ReceivedMore(msgs: seq<TapMsg>, m: TapMsg)
    ensures Received(msgs + [m]) == Received(msgs) + TapEvents(m)
  {
    assert (msgs + [m])[..|msgs|] == msgs;
  }

  lemma TapsGrow(taps: seq<Tap<seq<byte>>>, since: map<nat, nat>, all: seq<byte>, bytes: seq<byte>, next: nat)
    requires TapsOn(taps, since, all) && forall t :: t in taps ==> t.id < next
    ensures TapsOn(SendAll(taps, bytes), since, all + bytes)
    ensures forall t :: t in SendAll(taps, bytes) ==> t.id < next
  {
    forall t | t in SendAll(taps, bytes)
      ensures t.id < next && t.id in since && since[t.id] <= |all + bytes| && Joined(t.sent) == (all + bytes)[since[t.id]..]
    {
      var t0 := SentToEach(taps, bytes, t);
      TapGrows(t0.sent, since[t.id], all, bytes);
    }
  }

  lemma TapGrows(sent: seq<seq<byte>>, k: nat, all: seq<byte>, bytes: seq<byte>)
    requires k <= |all| && Joined(sent) == all[k..]
    ensures Joined(sent + [bytes]) == (all + bytes)[k..]
  {
    JoinedMore(sent, bytes);
    DropConcat(all, bytes, k);
  }

  lemma DtapsGrow(dtaps: seq<Tap<TapMsg>>, since: map<nat, nat>, origins: map<nat, DesktopTap>, base: nat, log: seq<Ev>, m: TapMsg, next: nat)
    requires DtapsOn(dtaps, since, origins, base, log) && forall t :: t in dtaps ==> t.id < next
    ensures DtapsOn(SendAll(dtaps, m), since, origins, base, log + TapEvents(m))
    ensures forall t :: t in SendAll(dtaps, m) ==> t.id < next
  {
    forall t | t in SendAll(dtaps, m)
      ensures t.id < next && t.id in since && t.id in origins && Mirrors(t, since[t.id], origins[t.id], base, log + TapEvents(m))
    {
      var t0 := SentToEach(dtaps, m, t);
      MirrorGrows(t0, since[t.id], origins[t.id], base, log, m);
    }
  }

  lemma MirrorGrows(t: Tap<TapMsg>, k: nat, origin: DesktopTap, base: nat, log: seq<Ev>, m: TapMsg)
    requires Mirrors(t, k, origin, base, log)
    ensures Mirrors(t.(sent := t.sent + [m]), k, origin, base, log + TapEvents(m))
  {
    ReceivedMore(t.sent, m);
    assert (log + TapEvents(m))[..k] == log[..k];
    DropConcat(log, TapEvents(m), k);
  }

  lemma ShownMore(sent: seq<PaneMsg>, head: nat, m: PaneMsg)
    requires head <= |sent|
    ensures Shown((sent + [m])[head..]) == Shown(sent[head..]) + PaneEvents(m)
    ensures NoSnap(sent[head..]) && !m.SnapTo? ==> NoSnap((sent + [m])[head..])
  {
    DropConcat(sent, [m], head);
    assert (sent[head..] + [m])[..|sent[head..]|] == sent[head..];
  }

  /** One more message shows what it adds to the log. */
  lemma PaneGrows(sent: seq<PaneMsg>, at: PaneStart, log: seq<Ev>, m: PaneMsg, e: seq<Ev>)
    requires PaneOn(Attached(sent), at, log) && !m.SnapTo? && PaneEvents(m) == e
    ensures PaneOn(Attached(sent + [m]), at, log + e)
  {
    ShownMore(sent, at.head, m);
    DropConcat(log, e, at.from);
  }

  lemma BufferGrows(buf: seq<byte>, at: PaneStart, log: seq<Ev>, e: seq<Ev>)
    requires PaneOn(Buffering(buf), at, log)
    ensures PaneOn(Buffering(buf + BytesOf(e)), at, log + e)
  {
    BytesConcat(log[at.bufFrom..], e);
    DropConcat(log, e, at.bufFrom);
  }

  function AfterOutput(st: SinkState, bytes: seq<byte>): SinkState {
    match st
    case Attached(sent) => Attached(sent + [Data(Encode(bytes))])
    case Buffering(buf) => Buffering(buf + bytes)
  }

  function AfterLocal(st: SinkState, bytes: seq<byte>): SinkState {
    match st
    case Attached(sent) => Attached(sent + [Local(Encode(bytes))])
    case Buffering(buf) => Buffering(buf + bytes)
  }

  function AfterResize(st: SinkState, cols: nat, rows: nat): SinkState {
    match st
    case Attached(sent) => Attached(sent + [SizeTo(cols, rows)])
    case Buffering(_) => st
  }

  lemma OutputShown(st: SinkState, at: PaneStart, log: seq<Ev>, bytes: seq<byte>)
    requires PaneOn(st, at, log)
    ensures PaneOn(AfterOutput(st, bytes), at, log + Outs(bytes))
  {
    match st {
      case Attached(sent) =>
        RoundTrip(bytes);
        PaneGrows(sent, at, log, Data(Encode(bytes)), Outs(bytes));
      case Buffering(buf) =>
        BytesOfOuts(bytes);
        BufferGrows(buf, at, log, Outs(bytes));
    }
  }

  lemma LocalShown(st: SinkState, at: PaneStart, log: seq<Ev>, bytes: seq<byte>)
    requires PaneOn(st, at, log)
    ensures PaneOn(AfterLocal(st, bytes), if st.Attached? then at else at.(outputOnly := false), log)
  {
    if st.Attached? {
      PaneGrows(st.sent, at, log, Local(Encode(bytes)), []);
      assert log + [] == log;
    }
  }

  lemma ResizeShown(st: SinkState, at: PaneStart, log: seq<Ev>, c: nat, r: nat)
    requires PaneOn(st, at, log)
    ensures PaneOn(AfterResize(st, c, r), at, log + [Size(c, r)])
  {
    match st {
      case Attached(sent) => PaneGrows(sent, at, log, SizeTo(c, r), [Size(c, r)]);
      case Buffering(buf) =>
        var e := [Size(c, r)];
        assert e[1..] == [] && BytesOf(e) == [] && buf + [] == buf;
        BufferGrows(buf, at, log, e);
    }
  }

  /** What every watcher must have been sent. */
  ghost predicate WatchersOn(taps: seq<Tap<seq<byte>>>, dtaps: seq<Tap<TapMsg>>, next: nat, byteSince: map<nat, nat>,
                             logSince: map<nat, nat>, origins: map<nat, DesktopTap>, base: nat, log: seq<Ev>) {
    && TapsOn(taps, byteSince, BytesOf(log))
    && DtapsOn(dtaps, logSince, origins, base, log)
    && (forall t :: t in taps ==> t.id < next)
    && (forall t :: t in dtaps ==> t.id < next)
  }

  ghost predicate SizeOn(size: (nat, nat), init: (nat, nat), firstSize: (nat, nat), whole: bool, log: seq<Ev>) {
    size == LastSize(firstSize, log) && (whole ==> init == firstSize)
  }

  lemma WatchersGetOutput(taps: seq<Tap<seq<byte>>>, dtaps: seq<Tap<TapMsg>>, next: nat, byteSince: map<nat, nat>,
                          logSince: map<nat, nat>, origins: map<nat, DesktopTap>, base: nat, log: seq<Ev>, bytes: seq<byte>)
    requires WatchersOn(taps, dtaps, next, byteSince, logSince, origins, base, log)
    ensures WatchersOn(SendAll(taps, bytes), SendAll(dtaps, Bytes(bytes)), next, byteSince, logSince, origins, base, log + Outs(bytes))
  {
    TapsGrow(taps, byteSince, BytesOf(log), bytes, next);
    DtapsGrow(dtaps, logSince, origins, base, log, Bytes(bytes), next);
    BytesOfOuts(bytes);
    BytesConcat(log, Outs(bytes));
  }

  lemma WatchersGetResize(taps: seq<Tap<seq<byte>>>, dtaps: seq<Tap<TapMsg>>, next: nat, byteSince: map<nat, nat>,
                          logSince: map<nat, nat>, origins: map<nat, DesktopTap>, base: nat, log: seq<Ev>, c: nat, r: nat)
    requires WatchersOn(taps, dtaps, next, byteSince, logSince, origins, base, log)
    ensures WatchersOn(taps, SendAll(dtaps, Resize(c, r)), next, byteSince, logSince, origins, base, log + [Size(c, r)])
  {
    DtapsGrow(dtaps, logSince, origins, base, log, Resize(c, r), next);
    var e := [Size(c, r)];
    assert e[1..] == [] && BytesOf(e) == [];
    BytesConcat(log, e);
  }

  lemma SizeStays(size: (nat, nat), init: (nat, nat), firstSize: (nat, nat), whole: bool, log: seq<Ev>, bytes: seq<byte>)
    requires SizeOn(size, init, firstSize, whole, log)
    ensures SizeOn(size, init, firstSize, whole, log + Outs(bytes))
  {
    LastSizeOfBytes(firstSize, log, bytes);
  }

  lemma SizeChanges(size: (nat, nat), init: (nat, nat), firstSize: (nat, nat), whole: bool, log: seq<Ev>, c: nat, r: nat)
    requires SizeOn(size, init, firstSize, whole, log)
    ensures SizeOn((c, r), init, firstSize, whole, log + [Size(c, r)])
  {
    assert (log + [Size(c, r)])[|log|] == Size(c, r);
  }

  /** The part of a chunk at offset `at` that a sink holding `total` bytes has not seen. */
  function Unseen(total: nat, at: nat, bytes: seq<byte>): seq<byte> {
    var skip := if total > at then total - at else 0;
    if skip < |bytes| then bytes[skip..] else []
  }

  // ---------- The sink as a value ----------

  /** `replay` is how an adopted pane is rebuilt on its first attach. */
  datatype Sink = Sink(
    cap: nat, shell: bool, ring: seq<byte>, start: nat, resizes: seq<Mark>, init: (nat, nat), size: (nat, nat),
    taps: seq<Tap<seq<byte>>>, dtaps: seq<Tap<TapMsg>>, nextTap: nat, state: SinkState, replay: Option<Option<Snapshot>>)
  {
    function Total(): nat {
      start + |ring|
    }
  }

  /** The kept resizes lie in the ring, in order: no index into it underflows. */
  ghost predicate Ordered(s: Sink) {
    InOrder(s.resizes, s.start, s.start + |s.ring|)
  }

  function NewSink(shell: bool, cap: nat, init: (nat, nat)): Sink {
    Sink(cap, shell, [], 0, [], init, init, [], [], 0, Buffering([]), None)
  }

  function Over(s: Sink, bytes: seq<byte>): nat {
    if |s.ring| + |bytes| > s.cap then |s.ring| + |bytes| - s.cap else 0
  }

  /** A chunk of output: into the ring, and to every watcher and the pane, as the same bytes. */
  function Pushed(s: Sink, bytes: seq<byte>): Sink {
    var over := Over(s, bytes);
    s.(ring := (s.ring + bytes)[over..], start := s.start + over, resizes := KeptFrom(s.resizes, s.start + over),
       taps := SendAll(s.taps, bytes), dtaps := SendAll(s.dtaps, Bytes(bytes)), state := AfterOutput(s.state, bytes))
  }

  /** Output at absolute offset `at`: what the sink already has is dropped. */
  function PushedAt(s: Sink, at: nat, bytes: seq<byte>): Sink {
    var skip := if s.Total() > at then s.Total() - at else 0;
    if skip < |bytes| then Pushed(s, bytes[skip..]) else s
  }

  /** Text for the pane only: neither in the ring nor at any offset. */
  function PushedLocal(s: Sink, bytes: seq<byte>): Sink {
    s.(state := AfterLocal(s.state, bytes))
  }

  /** The terminal changed size here in the stream. */
  function Resized(s: Sink, cols: nat, rows: nat): Sink {
    s.(resizes := s.resizes + [Mark(s.Total(), cols, rows)], size := (cols, rows),
       dtaps := SendAll(s.dtaps, Resize(cols, rows)), state := AfterResize(s.state, cols, rows))
  }

  /** Start from the daemon's ring, to be rebuilt by `replay` on the first attach. */
  function Seeded(s: Sink, start: nat, ring: seq<byte>, resizes: seq<Mark>, init: (nat, nat), size: (nat, nat), replay: Option<Snapshot>): Sink {
    s.(start := start, ring := ring, resizes := resizes, init := init, size := size, replay := Some(replay))
  }

  /** Watch a shell's bytes; a claude's are not for phones. */
  function Watched(s: Sink): (Sink, Option<(nat, seq<byte>)>) {
    if !s.shell then (s, None)
    else (s.(taps := s.taps + [Tap(s.nextTap, true, [])], nextTap := s.nextTap + 1), Some((s.nextTap, s.ring)))
  }

  /** Mirror the session on a remote desktop. */
  function Mirrored(s: Sink): (Sink, DesktopTap) {
    (s.(dtaps := s.dtaps + [Tap(s.nextTap, true, [])], nextTap := s.nextTap + 1),
     DesktopTap(s.nextTap, s.start, s.ring, s.resizes, s.init, s.Total()))
  }

  function HungUp<T>(taps: seq<Tap<T>>, id: nat): (r: seq<Tap<T>>)
    ensures |r| == |taps|
    ensures forall i :: 0 <= i < |taps| ==> r[i] == if taps[i].id == id then taps[i].(open := false) else taps[i]
  {
    seq(|taps|, i requires 0 <= i < |taps| => if taps[i].id == id then taps[i].(open := false) else taps[i])
  }

  /** Watcher `id` drops its receiver. */
  function Left(s: Sink, id: nat): Sink {
    s.(taps := HungUp(s.taps, id), dtaps := HungUp(s.dtaps, id))
  }

  // ---------- Rebuilding a pane ----------

  /** Bytes as at most one message. */
  function Flushed(buf: seq<byte>): seq<PaneMsg> {
    if |buf| == 0 then [] else [Data(Encode(buf))]
  }

  /** Bytes, if any, and the resize after them. */
  function Cut(bytes: seq<byte>, m: Mark): seq<PaneMsg> {
    if |bytes| == 0 then [SizeTo(m.cols, m.rows)] else [Data(Encode(bytes)), SizeTo(m.cols, m.rows)]
  }

  /** The ring from offset `at` on, cut at each mark so that the size changes exactly where it did. */
  function RingMsgs(ring: seq<byte>, start: nat, marks: seq<Mark>, at: nat): seq<PaneMsg>
    requires start <= at <= start + |ring| && InOrder(marks, at, start + |ring|)
    decreases |marks|
  {
    if |marks| == 0 then Flushed(ring[at - start..])
    else
      var m := marks[0];
      Cut(ring[at - start..m.off - start], m) + RingMsgs(ring, start, marks[1..], m.off)
  }

  /**
   What a rebuilt pane is reset to: the snapshot if the ring still holds its offset, the spawn if the ring still
   begins there, else the ring's start at the size of now, which is not exact.
  */
  function ResetTo(s: Sink, snapshot: Option<Snapshot>): (r: (PaneMsg, bool))
    ensures r.0.SnapTo? && s.start <= r.0.offset <= s.Total()
  {
    if snapshot.Some? && s.start <= snapshot.value.offset <= s.Total() then
      (SnapTo(snapshot.value.cols, snapshot.value.rows, snapshot.value.offset, snapshot.value.data), false)
    else if s.start == 0 then (SnapTo(s.init.0, s.init.1, 0, ""), false)
    else (SnapTo(s.size.0, s.size.1, s.start, ""), true)
  }

  /** How a rebuilt pane gets from nothing to the live stream; the flag is true when that is not exact. */
  function Composed(s: Sink, snapshot: Option<Snapshot>): (seq<PaneMsg>, bool)
    requires Ordered(s)
  {
    var (snap, partial) := ResetTo(s, snapshot);
    KeptInOrder(s.resizes, s.start, s.Total(), snap.offset);
    ([snap] + RingMsgs(s.ring, s.start, KeptFrom(s.resizes, snap.offset), snap.offset), partial)
  }

  lemma {:induction false} KeptInOrder(marks: seq<Mark>, lo: nat, hi: nat, from: nat)
    requires InOrder(marks, lo, hi)
    ensures InOrder(KeptFrom(marks, from), from, hi)
  {
    if |marks| != 0 {
      if marks[0].off >= from {
        InOrderWidens(marks[1..], marks[0].off, hi, from, hi);
        KeptAll(marks[1..], from, hi);
      } else {
        KeptInOrder(marks[1..], marks[0].off, hi, from);
      }
    }
  }

  /** Bind a new pane: catch it up, then it streams live. The flag asks for a redraw. */
  function AttachedTo(s: Sink): (Sink, bool)
    requires Ordered(s)
  {
    if s.replay.Some? then
      var (msgs, partial) := Composed(s, s.replay.value);
      (s.(state := Attached(msgs + (if s.state.Buffering? then Flushed(s.state.buf) else [])), replay := None), partial)
    else if s.state.Buffering? then (s.(state := Attached(Flushed(s.state.buf))), false)
    else
      var (msgs, partial) := Composed(s, None);
      (s.(state := Attached(msgs)), partial)
  }

  // ---------- What really happened ----------

  /** Everything since offset `base`, and when each watcher and the pane began. */
  datatype History = History(
    base: nat, log: seq<Ev>, firstSize: (nat, nat), whole: bool, byteSince: map<nat, nat>, logSince: map<nat, nat>,
    origins: map<nat, DesktopTap>, pane: PaneStart)

  /** The ring, the size, the watchers and the pane are all what the history says. */
  ghost predicate Agrees(s: Sink, h: History) {
    && RingOn(s.ring, s.resizes, s.start, s.cap, h.whole, h.base, h.log)
    && SizeOn(s.size, s.init, h.firstSize, h.whole, h.log)
    && WatchersOn(s.taps, s.dtaps, s.nextTap, h.byteSince, h.logSince, h.origins, h.base, h.log)
    && PaneOn(s.state, h.pane, h.log)
    && (h.whole ==> s.replay.None?)
  }

  lemma PushedAgrees(s: Sink, h: History, bytes: seq<byte>)
    requires Agrees(s, h)
    ensures Agrees(Pushed(s, bytes), h.(log := h.log + Outs(bytes)))
    ensures Pushed(s, bytes).ring == LastOf(s.ring + bytes, s.cap) && Pushed(s, bytes).Total() == s.Total() + |bytes|
  {
    RingTakes(s.ring, s.resizes, s.start, s.cap, h.whole, h.base, h.log, bytes, Over(s, bytes));
    SizeStays(s.size, s.init, h.firstSize, h.whole, h.log, bytes);
    WatchersGetOutput(s.taps, s.dtaps, s.nextTap, h.byteSince, h.logSince, h.origins, h.base, h.log, bytes);
    OutputShown(s.state, h.pane, h.log, bytes);
  }

  lemma ResizedAgrees(s: Sink, h: History, c: nat, r: nat)
    requires Agrees(s, h)
    ensures Agrees(Resized(s, c, r), h.(log := h.log + [Size(c, r)]))
  {
    RingResizes(s.ring, s.resizes, s.start, s.cap, h.whole, h.base, h.log, c, r);
    SizeChanges(s.size, s.init, h.firstSize, h.whole, h.log, c, r);
    WatchersGetResize(s.taps, s.dtaps, s.nextTap, h.byteSince, h.logSince, h.origins, h.base, h.log, c, r);
    ResizeShown(s.state, h.pane, h.log, c, r);
  }

  lemma LocalAgrees(s: Sink, h: History, bytes: seq<byte>)
    requires Agrees(s, h)
    ensures Agrees(PushedLocal(s, bytes), if s.state.Attached? then h else h.(pane := h.pane.(outputOnly := false)))
  {
    LocalShown(s.state, h.pane, h.log, bytes);
  }

  lemma LeftAgrees(s: Sink, h: History, id: nat)
    requires Agrees(s, h)
    ensures Agrees(Left(s, id), h)
  {
    var taps1, dtaps1 := HungUp(s.taps, id), HungUp(s.dtaps, id);
    forall t | t in taps1 ensures t.id < s.nextTap && (t.open ==> t in s.taps) {
      var i :| 0 <= i < |taps1| && taps1[i] == t;
      assert s.taps[i] in s.taps;
    }
    forall t | t in dtaps1 ensures t.id < s.nextTap && (t.open ==> t in s.dtaps) {
      var i :| 0 <= i < |dtaps1| && dtaps1[i] == t;
      assert s.dtaps[i] in s.dtaps;
    }
  }

  lemma WatchedAgrees(s: Sink, h: History)
    requires Agrees(s, h) && s.shell
    ensures Agrees(Watched(s).0, h.(byteSince := h.byteSince[s.nextTap := |BytesOf(h.log)|]))
    ensures h.whole ==> Watched(s).1.value.1 == LastOf(BytesOf(h.log), s.cap)
  {
    assert BytesOf(h.log)[|BytesOf(h.log)|..] == [];
  }

  lemma MirrorBegins(t: Tap<TapMsg>, origin: DesktopTap, base: nat, log: seq<Ev>)
    requires Holds(origin.ring, origin.resizes, origin.start, base, log) && t.sent == []
    ensures Mirrors(t, |log|, origin, base, log)
  {
    WeaveIsLog(WindowOf(log, base, origin.start), origin.start);
    assert log[..|log|] == log && log[|log|..] == [];
  }

  /** A desktop's ring and marks are the log's window when it begins. */
  lemma MirroredAgrees(s: Sink, h: History)
    requires Agrees(s, h)
    ensures var (s1, tap) := Mirrored(s);
            Agrees(s1, h.(logSince := h.logSince[s.nextTap := |h.log|], origins := h.origins[s.nextTap := tap]))
  {
    MirrorBegins(Tap(s.nextTap, true, []), Mirrored(s).1, h.base, h.log);
  }

  /** Weaving marks into bytes loses neither. */
  lemma {:induction false} WeaveParts(bytes: seq<byte>, marks: seq<Mark>, at: nat)
    requires InOrder(marks, at, at + |bytes|)
    ensures BytesOf(Weave(bytes, marks, at)) == bytes && MarksOf(Weave(bytes, marks, at), at) == marks
    decreases |bytes| + |marks|
  {
    var w := Weave(bytes, marks, at);
    if |marks| > 0 && marks[0].off <= at {
      WeaveParts(bytes, marks[1..], at);
      assert w[1..] == Weave(bytes, marks[1..], at);
    } else if |bytes| > 0 {
      WeaveParts(bytes[1..], marks, at + 1);
      assert w[1..] == Weave(bytes[1..], marks, at + 1);
    }
  }

  /** A sink seeded with a window of the daemon's log stands for that window. */
  lemma SeededAgrees(s: Sink, start: nat, ring: seq<byte>, resizes: seq<Mark>, init: (nat, nat), size: (nat, nat), firstSize: (nat, nat), replay: Option<Snapshot>)
    requires InOrder(resizes, start, start + |ring|) && size == LastSize(firstSize, Weave(ring, resizes, start))
    requires s.taps == [] && s.dtaps == [] && s.state == Buffering([])
    ensures var log := Weave(ring, resizes, start);
            Agrees(Seeded(s, start, ring, resizes, init, size, replay),
                   History(start, log, firstSize, false, map[], map[], map[], PaneStart(0, 0, |log|, true)))
  {
    WeaveParts(ring, resizes, start);
    var log := Weave(ring, resizes, start);
    assert log[|log|..] == [];
  }

  // ---------- Rebuilding a pane ----------

  lemma AgreesInOrder(s: Sink, h: History)
    requires Agrees(s, h)
    ensures Ordered(s)
  {
    MarksInOrder(WindowOf(h.log, h.base, s.start), s.start);
  }

  lemma FlushedShows(bytes: seq<byte>)
    ensures Shown(Flushed(bytes)) == Outs(bytes) && NoSnap(Flushed(bytes))
  {
    if bytes == [] {
      assert Outs(bytes) == [];
    } else {
      DataShows(bytes);
    }
  }

  lemma CutShows(chunk: seq<byte>, m: Mark)
    ensures Shown(Cut(chunk, m)) == Outs(chunk) + [Size(m.cols, m.rows)] && NoSnap(Cut(chunk, m))
  {
    ShownOne(SizeTo(m.cols, m.rows));
    if |chunk| == 0 {
      assert Outs(chunk) + [Size(m.cols, m.rows)] == [Size(m.cols, m.rows)];
    } else {
      DataShows(chunk);
      ShownConcat([Data(Encode(chunk))], [SizeTo(m.cols, m.rows)]);
      assert Cut(chunk, m) == [Data(Encode(chunk))] + [SizeTo(m.cols, m.rows)];
    }
  }

  lemma MarkShows(chunk: seq<byte>, tail: seq<byte>, marks: seq<Mark>, at: nat, rest: seq<PaneMsg>)
    requires |marks| > 0 && marks[0].off == at + |chunk|
    requires Shown(rest) == Weave(tail, marks[1..], marks[0].off) && NoSnap(rest)
    ensures Shown(Cut(chunk, marks[0]) + rest) == Weave(chunk + tail, marks, at) && NoSnap(Cut(chunk, marks[0]) + rest)
  {
    CutShows(chunk, marks[0]);
    ShownConcat(Cut(chunk, marks[0]), rest);
    WeaveToMark(chunk, tail, marks, at);
    Regroup(Outs(chunk), [Size(marks[0].cols, marks[0].rows)], Weave(tail, marks[1..], marks[0].off));
  }

  lemma TailShows(tail: seq<byte>, marks: seq<Mark>, at: nat)
    requires marks == []
    ensures Shown(Flushed(tail)) == Weave(tail, marks, at) && NoSnap(Flushed(tail))
  {
    WeaveBytes(tail, at);
    FlushedShows(tail);
  }

  lemma CutAt(ring: seq<byte>, a: nat, b: nat)
    requires a <= b <= |ring|
    ensures ring[a..] == ring[a..b] + ring[b..]
  {
  }

  lemma RingMsgsLast(ring: seq<byte>, start: nat, marks: seq<Mark>, at: nat)
    requires start <= at <= start + |ring| && marks == []
    ensures RingMsgs(ring, start, marks, at) == Flushed(ring[at - start..])
  {
  }

  lemma RingMsgsFirst(ring: seq<byte>, start: nat, marks: seq<Mark>, at: nat)
    requires start <= at <= start + |ring| && InOrder(marks, at, start + |ring|) && |marks| > 0
    ensures at <= marks[0].off <= start + |ring| && InOrder(marks[1..], marks[0].off, start + |ring|)
    ensures RingMsgs(ring, start, marks, at) ==
            Cut(ring[at - start..marks[0].off - start], marks[0]) + RingMsgs(ring, start, marks[1..], marks[0].off)
  {
  }

  /** The messages decode to exactly the bytes and marks from `at`, each mark between the right two bytes. */
  lemma {:induction false} RingMsgsShow(ring: seq<byte>, start: nat, marks: seq<Mark>, at: nat)
    requires start <= at <= start + |ring| && InOrder(marks, at, start + |ring|)
    ensures Shown(RingMsgs(ring, start, marks, at)) == Weave(ring[at - start..], marks, at)
    ensures NoSnap(RingMsgs(ring, start, marks, at))
    decreases |marks|
  {
    hide Encode, RingMsgs, Shown, Weave, Cut, Flushed, NoSnap;
    if |marks| == 0 {
      RingMsgsLast(ring, start, marks, at);
      TailShows(ring[at - start..], marks, at);
    } else {
      RingMsgsFirst(ring, start, marks, at);
      var m := marks[0];
      RingMsgsShow(ring, start, marks[1..], m.off);
      CutAt(ring, at - start, m.off - start);
      MarkShows(ring[at - start..m.off - start], ring[m.off - start..], marks, at, RingMsgs(ring, start, marks[1..], m.off));
    }
  }

  lemma DataShows(bytes: seq<byte>)
    ensures Shown([Data(Encode(bytes))]) == Outs(bytes)
  {
    RoundTrip(bytes);
    ShownOne(Data(Encode(bytes)));
  }

  /** Messages that reset the pane at `off` and then show the log from there. */
  ghost predicate Rebuilds(msgs: seq<PaneMsg>, off: nat, base: nat, log: seq<Ev>) {
    && |msgs| > 0 && msgs[0].SnapTo? && msgs[0].offset == off
    && base <= off && off - base <= |BytesOf(log)|
    && NoSnap(msgs[1..]) && Shown(msgs[1..]) == Since(log, off - base)
  }

  /** Dropping `k` bytes from a log's bytes and marks leaves what the log has after them. */
  lemma WovenSince(log: seq<Ev>, at: nat, k: nat)
    requires k <= |BytesOf(log)|
    ensures Weave(BytesOf(log)[k..], KeptFrom(MarksOf(log, at), at + k), at + k) == Since(log, k)
  {
    SinceBytes(log, k);
    SinceMarks(log, at, k);
    WeaveIsLog(Since(log, k), at + k);
  }

  /** From any offset in it, a window of the log is the ring's bytes and marks woven. */
  lemma WovenFrom(ring: seq<byte>, resizes: seq<Mark>, start: nat, base: nat, log: seq<Ev>, off: nat)
    requires Holds(ring, resizes, start, base, log) && start <= off <= start + |ring|
    ensures InOrder(resizes, start, start + |ring|)
    ensures Weave(ring[off - start..], KeptFrom(resizes, off), off) == Since(log, off - base)
  {
    MarksInOrder(WindowOf(log, base, start), start);
    WovenSince(WindowOf(log, base, start), start, off - start);
    SinceTwice(log, start - base, off - start);
  }

  lemma FromOffset(ring: seq<byte>, resizes: seq<Mark>, start: nat, base: nat, log: seq<Ev>, snap: PaneMsg, off: nat)
    requires Holds(ring, resizes, start, base, log) && start <= off <= start + |ring| && snap.SnapTo? && snap.offset == off
    ensures InOrder(KeptFrom(resizes, off), off, start + |ring|)
    ensures Rebuilds([snap] + RingMsgs(ring, start, KeptFrom(resizes, off), off), off, base, log)
  {
    WovenFrom(ring, resizes, start, base, log, off);
    KeptInOrder(resizes, start, start + |ring|, off);
    RingMsgsShow(ring, start, KeptFrom(resizes, off), off);
    var msgs := [snap] + RingMsgs(ring, start, KeptFrom(resizes, off), off);
    assert msgs[1..] == RingMsgs(ring, start, KeptFrom(resizes, off), off);
  }

  /** A rebuild shows exactly the log from the offset it was reset to. */
  lemma ComposedRebuilds(s: Sink, h: History, snapshot: Option<Snapshot>)
    requires Agrees(s, h)
    ensures Ordered(s)
    ensures var (msgs, _) := Composed(s, snapshot);
            Rebuilds(msgs, ResetTo(s, snapshot).0.offset, h.base, h.log) && msgs[0] == ResetTo(s, snapshot).0
  {
    AgreesInOrder(s, h);
    FromOffset(s.ring, s.resizes, s.start, h.base, h.log, ResetTo(s, snapshot).0, ResetTo(s, snapshot).0.offset);
  }

  /** What the history records of an attach. */
  function AttachedHistory(s: Sink, h: History): History
    requires Ordered(s)
  {
    h.(pane := PaneStart(|AttachedTo(s).0.state.sent|, |h.log|, 0, true))
  }

  lemma AttachedAgrees(s: Sink, h: History)
    requires Agrees(s, h)
    ensures Ordered(s)
    ensures Agrees(AttachedTo(s).0, AttachedHistory(s, h))
  {
    AgreesInOrder(s, h);
    var sent := AttachedTo(s).0.state.sent;
    assert sent[|sent|..] == [] && h.log[|h.log|..] == [];
  }

  /**
   What attaching sends. Re-attaching after a reload, and first attaching an adopted session, rebuild the pane.
   An adopted session's buffer is then sent as well: bytes that came before the attach show once only if there were
   none. A fresh session's first attach flushes every byte so far, and no resize.
  */
  lemma AttachSends(s: Sink, h: History)
    requires Agrees(s, h)
    ensures Ordered(s)
    ensures var (s1, redraw) := AttachedTo(s);
            var snapshot := if s.replay.Some? then s.replay.value else None;
            var (msgs, partial) := Composed(s, snapshot);
            && (s.replay.Some? && s.state.Buffering? ==>
                  && redraw == partial && msgs <= s1.state.sent
                  && Shown(s1.state.sent) == Shown(msgs) + Outs(s.state.buf))
            && (s.state.Attached? ==> redraw == partial && s1.state.sent == msgs)
            && (s.replay.None? && s.state.Buffering? ==>
                  && !redraw && Shown(s1.state.sent) == Outs(s.state.buf)
                  && (h.pane.outputOnly ==> Shown(s1.state.sent) == Outs(BytesOf(h.log[h.pane.bufFrom..]))))
  {
    AgreesInOrder(s, h);
    if s.state.Buffering? {
      if s.state.buf != [] {
        DataShows(s.state.buf);
      } else {
        assert Outs(s.state.buf) == [];
      }
      if s.replay.Some? {
        var (msgs, _) := Composed(s, s.replay.value);
        ShownConcat(msgs, Flushed(s.state.buf));
      }
    } else if s.replay.Some? {
      var (msgs, _) := Composed(s, s.replay.value);
      assert msgs + [] == msgs;
    }
  }
}
