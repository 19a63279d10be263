/**
 The sink and the feed as they run: fields updated in place, one call at a time, each proved to take the sink from
 one value of `OutputSink` to the next.
*/
module SinkMachine {
  import opened Wrappers
  import opened Base64
  import opened OutputLog
  import opened OutputSink
  import opened SinkRuns
  import opened SinkFeed

  /** Send to every watcher, keeping those whose receiver is still there. */
  method Retain<T>(taps: seq<Tap<T>>, x: T) returns (kept: seq<Tap<T>>)
    ensures kept == SendAll(taps, x)
  {
    kept := [];
    var i := 0;
    while i < |taps|
      invariant i <= |taps|
      invariant SendAll(taps, x) == kept + SendAll(taps[i..], x)
    {
      assert taps[i..][1..] == taps[i + 1..];
      Regroup(kept, if taps[i].open then [taps[i].(sent := taps[i].sent + [x])] else [], SendAll(taps[i + 1..], x));
      if taps[i].open {
        kept := kept + [taps[i].(sent := taps[i].sent + [x])];
      } else {
        assert kept + [] == kept;
      }
      i := i + 1;
    }
  }

  /** Marks in order: popping from the front drops exactly those before `from`. */
  method PopBefore(marks: seq<Mark>, ghost lo: nat, ghost hi: nat, from: nat) returns (kept: seq<Mark>)
    requires InOrder(marks, lo, hi)
    ensures kept == KeptFrom(marks, from)
  {
    kept := marks;
    ghost var at := lo;
    while |kept| > 0 && kept[0].off < from
      invariant InOrder(kept, at, hi) && KeptFrom(kept, from) == KeptFrom(marks, from)
      decreases |kept|
    {
      at := kept[0].off;
      kept := kept[1..];
    }
    if |kept| > 0 {
      InOrderWidens(kept[1..], kept[0].off, hi, from, hi);
      KeptAll(kept[1..], from, hi);
    }
  }

  /** `whole` is `out` and what is still to say from offset `at`. */
  ghost predicate StillToSay(ring: seq<byte>, start: nat, marks: seq<Mark>, at: nat, out: seq<PaneMsg>, whole: seq<PaneMsg>) {
    && start <= at <= start + |ring| && InOrder(marks, at, start + |ring|)
    && whole == out + RingMsgs(ring, start, marks, at)
  }

  /** The next mark cuts the ring where it stands. */
  lemma SayMark(ring: seq<byte>, start: nat, marks: seq<Mark>, at: nat, out: seq<PaneMsg>, whole: seq<PaneMsg>)
    requires StillToSay(ring, start, marks, at, out, whole) && |marks| > 0
    ensures var m := marks[0];
            && at <= m.off <= start + |ring|
            && StillToSay(ring, start, marks[1..], m.off,
                          out + Cut(ring[at - start..m.off - start], m), whole)
  {
    var m := marks[0];
    Regroup(out, Cut(ring[at - start..m.off - start], m), RingMsgs(ring, start, marks[1..], m.off));
  }

  lemma KeptCons(marks: seq<Mark>, from: nat)
    requires |marks| > 0 && marks[0].off >= from
    ensures |KeptFrom(marks, from)| > 0 && KeptFrom(marks, from)[0] == marks[0]
    ensures KeptFrom(marks, from)[1..] == KeptFrom(marks[1..], from)
  {
  }

  lemma NothingSaid(ring: seq<byte>, start: nat, marks: seq<Mark>, at: nat)
    requires start <= at <= start + |ring| && InOrder(marks, at, start + |ring|)
    ensures StillToSay(ring, start, marks, at, [], RingMsgs(ring, start, marks, at))
  {
    assert [] + RingMsgs(ring, start, marks, at) == RingMsgs(ring, start, marks, at);
  }

  /** One output message, if there is anything to say. */
  method SendBytes(out: seq<PaneMsg>, bytes: seq<byte>) returns (more: seq<PaneMsg>)
    ensures more == out + Flushed(bytes)
  {
    more := out;
    if |bytes| > 0 {
      var text := B64Encode(bytes);
      more := more + [Data(text)];
    } else {
      assert out + [] == out;
    }
  }

  /** One chunk and the resize after it. */
  method SayChunk(out: seq<PaneMsg>, ring: seq<byte>, a: nat, b: nat, m: Mark) returns (more: seq<PaneMsg>)
    requires a <= b <= |ring|
    ensures more == out + Cut(ring[a..b], m)
  {
    more := SendBytes(out, ring[a..b]);
    more := more + [SizeTo(m.cols, m.rows)];
  }

  /** The ring from absolute offset `from`, cut at each resize. No index leaves the ring. */
  method RingFrom(ring: seq<byte>, resizes: seq<Mark>, start: nat, from: nat) returns (out: seq<PaneMsg>)
    requires InOrder(resizes, start, start + |ring|) && start <= from <= start + |ring|
    ensures InOrder(KeptFrom(resizes, from), from, start + |ring|)
    ensures out == RingMsgs(ring, start, KeptFrom(resizes, from), from)
  {
    hide Encode;
    KeptInOrder(resizes, start, start + |ring|, from);
    ghost var whole := RingMsgs(ring, start, KeptFrom(resizes, from), from);
    NothingSaid(ring, start, KeptFrom(resizes, from), from);
    out := [];
    var at: nat := from;
    var rest := resizes;
    while |rest| > 0
      invariant StillToSay(ring, start, KeptFrom(rest, from), at, out, whole)
      decreases |rest|
    {
      var m := rest[0];
      if m.off >= from {
        KeptCons(rest, from);
        SayMark(ring, start, KeptFrom(rest, from), at, out, whole);
        out := SayChunk(out, ring, at - start, m.off - start, m);
        at := m.off;
      }
      rest := rest[1..];
    }
    out := SendBytes(out, ring[at - start..]);
  }

  class LiveSink {
    const cap: nat
    const shell: bool
    var ring: seq<byte>
    var start: nat
    var resizes: seq<Mark>
    var init: (nat, nat)
    var size: (nat, nat)
    var taps: seq<Tap<seq<byte>>>
    var dtaps: seq<Tap<TapMsg>>
    var nextTap: nat
    var state: SinkState
    var replay: Option<Option<Snapshot>>

    ghost function Value(): Sink
      reads this
    {
      Sink(cap, shell, ring, start, resizes, init, size, taps, dtaps, nextTap, state, replay)
    }

    constructor (shell: bool, cap: nat, init: (nat, nat))
      ensures Value() == NewSink(shell, cap, init) && Ordered(Value())
    {
      this.cap := cap;
      this.shell := shell;
      ring := [];
      start := 0;
      resizes := [];
      this.init := init;
      size := init;
      taps := [];
      dtaps := [];
      nextTap := 0;
      state := Buffering([]);
      replay := None;
    }

    /** Into the ring; what is over the cap falls out, with the resizes before the new start. */
    method Append(bytes: seq<byte>)
      requires Ordered(Value())
      modifies `ring, `start, `resizes
      ensures ring == (old(ring) + bytes)[Over(old(Value()), bytes)..]
      ensures start == old(start) + Over(old(Value()), bytes)
      ensures resizes == KeptFrom(old(resizes), start)
    {
      ghost var hi := start + |ring|;
      ghost var lo := start;
      ring := ring + bytes;
      var over := if |ring| > cap then |ring| - cap else 0;
      ring := ring[over..];
      start := start + over;
      resizes := PopBefore(resizes, lo, hi, start);
    }

    /** The pane streams, or the buffer waits for it. */
    method ToPane(bytes: seq<byte>)
      modifies `state
      ensures state == AfterOutput(old(state), bytes)
    {
      match state {
        case Attached(sent) =>
          var text := B64Encode(bytes);
          state := Attached(sent + [Data(text)]);
        case Buffering(buf) => state := Buffering(buf + bytes);
      }
    }

    /** A chunk of output. */
    method Push(bytes: seq<byte>)
      requires Ordered(Value())
      modifies this
      ensures Value() == Pushed(old(Value()), bytes) && Ordered(Value())
    {
      PushedOrdered(Value(), bytes);
      Append(bytes);
      taps := Retain(taps, bytes);
      dtaps := Retain(dtaps, Bytes(bytes));
      ToPane(bytes);
    }

    /** A chunk at absolute offset `at`: what is already here is dropped. */
    method PushAt(at: nat, bytes: seq<byte>)
      requires Ordered(Value())
      modifies this
      ensures Value() == PushedAt(old(Value()), at, bytes) && Ordered(Value())
    {
      var total := start + |ring|;
      var skip := if total > at then total - at else 0;
      if skip < |bytes| {
        Push(bytes[skip..]);
      }
    }

    /** Text of the pane only. */
    method PushLocal(bytes: seq<byte>)
      requires Ordered(Value())
      modifies `state
      ensures Value() == PushedLocal(old(Value()), bytes) && Ordered(Value())
    {
      match state {
        case Attached(sent) =>
          var text := B64Encode(bytes);
          state := Attached(sent + [Local(text)]);
        case Buffering(buf) => state := Buffering(buf + bytes);
      }
    }

    /** The terminal changed size here in the stream. */
    method Resize(cols: nat, rows: nat)
      requires Ordered(Value())
      modifies this
      ensures Value() == Resized(old(Value()), cols, rows) && Ordered(Value())
    {
      ResizedOrdered(Value(), cols, rows);
      var at := start + |ring|;
      resizes := resizes + [Mark(at, cols, rows)];
      size := (cols, rows);
      dtaps := Retain(dtaps, TapMsg.Resize(cols, rows));
      if state.Attached? {
        state := Attached(state.sent + [SizeTo(cols, rows)]);
      }
    }

    /** Start from the daemon's ring. */
    method Seed(start: nat, ring: seq<byte>, resizes: seq<Mark>, init: (nat, nat), size: (nat, nat), snapshot: Option<Snapshot>)
      requires InOrder(resizes, start, start + |ring|)
      modifies this
      ensures Value() == Seeded(old(Value()), start, ring, resizes, init, size, snapshot) && Ordered(Value())
    {
      this.start := start;
      this.ring := ring;
      this.resizes := resizes;
      this.init := init;
      this.size := size;
      replay := Some(snapshot);
    }

    /** A phone begins to watch. */
    method Watch() returns (tap: Option<(nat, seq<byte>)>)
      requires Ordered(Value())
      modifies this
      ensures (Value(), tap) == Watched(old(Value())) && Ordered(Value())
    {
      if !shell {
        return None;
      }
      taps := taps + [Tap(nextTap, true, [])];
      tap := Some((nextTap, ring));
      nextTap := nextTap + 1;
    }

    /** A desktop begins to mirror. */
    method Mirror() returns (tap: DesktopTap)
      requires Ordered(Value())
      modifies this
      ensures (Value(), tap) == Mirrored(old(Value())) && Ordered(Value())
    {
      dtaps := dtaps + [Tap(nextTap, true, [])];
      tap := DesktopTap(nextTap, start, ring, resizes, init, start + |ring|);
      nextTap := nextTap + 1;
    }

    /** How a rebuilt pane gets from nothing to the live stream. */
    method Compose(snapshot: Option<Snapshot>) returns (msgs: seq<PaneMsg>, partial: bool)
      requires Ordered(Value())
      ensures (msgs, partial) == Composed(Value(), snapshot)
    {
      var snap: PaneMsg;
      partial := false;
      if snapshot.Some? && start <= snapshot.value.offset <= start + |ring| {
        snap := SnapTo(snapshot.value.cols, snapshot.value.rows, snapshot.value.offset, snapshot.value.data);
      } else if start == 0 {
        snap := SnapTo(init.0, init.1, 0, "");
      } else {
        snap := SnapTo(size.0, size.1, start, "");
        partial := true;
      }
      var rest := RingFrom(ring, resizes, start, snap.offset);
      msgs := [snap] + rest;
    }

    /** Bind a new pane and catch it up. */
    method Attach() returns (redraw: bool)
      requires Ordered(Value())
      modifies `state, `replay
      ensures (Value(), redraw) == AttachedTo(old(Value())) && Ordered(Value())
    {
      redraw := false;
      var sent: seq<PaneMsg> := [];
      if replay.Some? {
        sent, redraw := Compose(replay.value);
        if state.Buffering? {
          sent := SendBytes(sent, state.buf);
        } else {
          assert sent + [] == sent;
        }
        replay := None;
      } else if state.Buffering? {
        sent := SendBytes(sent, state.buf);
        assert sent == Flushed(state.buf);
      } else {
        sent, redraw := Compose(None);
      }
      state := Attached(sent);
      assert Value() == AttachedTo(old(Value())).0 && redraw == AttachedTo(old(Value())).1;
    }
  }

  // ---------- The feed ----------

  /** What an event does to the sink. */
  function Fed(s: Sink, ev: FeedEv): Sink {
    match ev
    case Output(at, bytes) => PushedAt(s, at, bytes)
    case Reshape(c, r) => Resized(s, c, r)
    case Exit => s
    case Lost => s
  }

  function FedAll(s: Sink, evs: seq<FeedEv>): Sink
    decreases |evs|
  {
    if |evs| == 0 then s else FedAll(Fed(s, evs[0]), evs[1..])
  }

  /** The feed's sink is the one the whole-run results are about. */
  lemma {:induction false} FedIsApplied(m: Moment, evs: seq<FeedEv>)
    requires Ordered(m.sink)
    ensures FedAll(m.sink, evs) == AppliedAll(m, evs).sink
    decreases |evs|
  {
    if |evs| != 0 {
      assert Fed(m.sink, evs[0]) == Applied(m, evs[0]).sink;
      FedIsApplied(Applied(m, evs[0]), evs[1..]);
    }
  }

  lemma {:induction false} FedConcat(s: Sink, a: seq<FeedEv>, ev: FeedEv)
    ensures FedAll(s, a + [ev]) == Fed(FedAll(s, a), ev)
    decreases |a|
  {
    if |a| == 0 {
      assert a + [ev] == [ev] && [ev][1..] == [];
    } else {
      assert (a + [ev])[1..] == a[1..] + [ev];
      FedConcat(Fed(s, a[0]), a[1..], ev);
    }
  }

  predicate Ended(evs: seq<FeedEv>) {
    Exit in evs || Lost in evs
  }

  class LiveFeeder {
    const sink: LiveSink
    var alive: bool
    var lost: bool
    var early: Option<seq<FeedEv>>

    constructor (sink: LiveSink, adopted: bool)
      ensures this.sink == sink && alive && !lost && early == if adopted then Some([]) else None
    {
      this.sink := sink;
      alive := true;
      lost := false;
      early := if adopted then Some([]) else None;
    }

    method Apply(ev: FeedEv)
      requires Ordered(sink.Value())
      modifies sink, `alive, `lost
      ensures sink.Value() == Fed(old(sink.Value()), ev) && Ordered(sink.Value())
      ensures alive == (old(alive) && ev != Exit && ev != Lost) && lost == (old(lost) || ev == Lost)
    {
      match ev {
        case Output(at, bytes) => sink.PushAt(at, bytes);
        case Reshape(cols, rows) => sink.Resize(cols, rows);
        case Exit => alive := false;
        case Lost =>
          lost := true;
          alive := false;
      }
    }

    /** The sink is seeded: apply what waited, in the order it came. */
    method Release()
      requires Ordered(sink.Value())
      modifies sink, this
      ensures early == None && Ordered(sink.Value())
      ensures var evs := if old(early).Some? then old(early).value else [];
              && sink.Value() == FedAll(old(sink.Value()), evs)
              && alive == (old(alive) && !Ended(evs)) && lost == (old(lost) || Lost in evs)
    {
      var evs := if early.Some? then early.value else [];
      early := None;
      var i := 0;
      assert evs[..0] == [] && evs[..|evs|] == evs;
      while i < |evs|
        invariant i <= |evs| && early == None && Ordered(sink.Value())
        invariant sink.Value() == FedAll(old(sink.Value()), evs[..i])
        invariant alive == (old(alive) && !Ended(evs[..i])) && lost == (old(lost) || Lost in evs[..i])
      {
        FedConcat(old(sink.Value()), evs[..i], evs[i]);
        assert evs[..i + 1] == evs[..i] + [evs[i]];
        Apply(evs[i]);
        i := i + 1;
      }
    }

    /** An event from the daemon: queued until the release, then applied as it comes. */
    method Event(ev: FeedEv)
      requires Ordered(sink.Value())
      modifies sink, this
      ensures Ordered(sink.Value())
      ensures if old(early).Some?
              then early == Some(old(early).value + [ev]) && sink.Value() == old(sink.Value()) && alive == old(alive)
              else early == None && sink.Value() == Fed(old(sink.Value()), ev)
                   && alive == (old(alive) && ev != Exit && ev != Lost)
    {
      if early.Some? {
        early := Some(early.value + [ev]);
        return;
      }
      Apply(ev);
    }
  }
}
