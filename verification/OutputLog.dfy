/**
 A terminal's output as the simple thing the sink stands for: an unbounded log of
 bytes and resizes, and an abstract terminal folded over it.
*/
module OutputLog {
  import opened Wrappers
  import opened Base64

  datatype Ev = Out(b: byte) | Size(cols: nat, rows: nat)

  /** A resize at an absolute stream offset. */
  datatype Mark = Mark(off: nat, cols: nat, rows: nat)

  /** One event for a watching remote desktop. */
  datatype TapMsg = Bytes(bytes: seq<byte>) | Resize(cols: nat, rows: nat)

  /** The program's screen as serialized at `offset`. */
  datatype Snapshot = Snapshot(data: string, offset: nat, cols: nat, rows: nat)

  /** A message on a local pane's channel. `Local` is text of the pane only, on the wire like `Data`. */
  datatype PaneMsg =
    | Data(text: string)
    | Local(text: string)
    | SnapTo(cols: nat, rows: nat, offset: nat, screen: string)
    | SizeTo(cols: nat, rows: nat)

  function Outs(bytes: seq<byte>): (r: seq<Ev>)
    ensures |r| == |bytes| && forall i :: 0 <= i < |bytes| ==> r[i] == Out(bytes[i])
  {
    seq(|bytes|, i requires 0 <= i < |bytes| => Out(bytes[i]))
  }

  /** The bytes of a log, in order. */
  function BytesOf(log: seq<Ev>): seq<byte> {
    if |log| == 0 then []
    else (match log[0] case Out(b) => [b] case Size(_, _) => []) + BytesOf(log[1..])
  }

  /** The resizes of a log whose first byte is at offset `at`, each with its offset. */
  function MarksOf(log: seq<Ev>, at: nat): seq<Mark> {
    if |log| == 0 then []
    else match log[0]
         case Out(_) => MarksOf(log[1..], at + 1)
         case Size(c, r) => [Mark(at, c, r)] + MarksOf(log[1..], at)
  }

  /** The log from just after its first `k` bytes. */
  function Since(log: seq<Ev>, k: nat): seq<Ev> {
    if k == 0 || |log| == 0 then log
    else match log[0]
         case Out(_) => Since(log[1..], k - 1)
         case Size(_, _) => Since(log[1..], k)
  }

  // ---------- Concatenation ----------

  lemma Regroup<T>(a: seq<T>, b: seq<T>, c: seq<T>)
    ensures (a + b) + c == a + (b + c)
  {
  }

  lemma {:induction false} BytesConcat(a: seq<Ev>, b: seq<Ev>)
    ensures BytesOf(a + b) == BytesOf(a) + BytesOf(b)
  {
    if |a| == 0 {
      assert a + b == b;
    } else {
      assert (a + b)[1..] == a[1..] + b;
      BytesConcat(a[1..], b);
      Regroup(if a[0].Out? then [a[0].b] else [], BytesOf(a[1..]), BytesOf(b));
    }
  }

  lemma {:induction false} MarksConcat(a: seq<Ev>, b: seq<Ev>, at: nat)
    ensures MarksOf(a + b, at) == MarksOf(a, at) + MarksOf(b, at + |BytesOf(a)|)
  {
    if |a| == 0 {
      assert a + b == b;
    } else {
      assert (a + b)[1..] == a[1..] + b;
      MarksConcat(a[1..], b, if a[0].Out? then at + 1 else at);
    }
  }

  lemma {:induction false} SinceConcat(a: seq<Ev>, b: seq<Ev>, k: nat)
    requires k <= |BytesOf(a)|
    ensures Since(a + b, k) == Since(a, k) + b
  {
    if |a| == 0 {
      assert a + b == b;
    } else if k > 0 {
      assert (a + b)[1..] == a[1..] + b;
      SinceConcat(a[1..], b, if a[0].Out? then k - 1 else k);
    }
  }

  lemma BytesOfOuts(bytes: seq<byte>)
    ensures BytesOf(Outs(bytes)) == bytes
    ensures forall at: nat :: MarksOf(Outs(bytes), at) == []
  {
    if |bytes| != 0 {
      assert Outs(bytes)[1..] == Outs(bytes[1..]);
      BytesOfOuts(bytes[1..]);
      assert bytes == [bytes[0]] + bytes[1..];
    }
  }

  // ---------- What starting later leaves ----------

  lemma {:induction false} SinceBytes(log: seq<Ev>, k: nat)
    requires k <= |BytesOf(log)|
    ensures BytesOf(Since(log, k)) == BytesOf(log)[k..]
  {
    if |log| != 0 && k > 0 {
      SinceBytes(log[1..], if log[0].Out? then k - 1 else k);
    }
  }

  lemma {:induction false} SinceTwice(log: seq<Ev>, j: nat, k: nat)
    requires j + k <= |BytesOf(log)|
    ensures Since(Since(log, j), k) == Since(log, j + k)
  {
    if |log| != 0 && j > 0 {
      SinceTwice(log[1..], if log[0].Out? then j - 1 else j, k);
    }
  }

  /** Marks in order between two offsets. */
  predicate InOrder(m: seq<Mark>, lo: nat, hi: nat) {
    |m| > 0 ==> lo <= m[0].off <= hi && InOrder(m[1..], m[0].off, hi)
  }

  lemma {:induction false} InOrderWidens(m: seq<Mark>, lo: nat, hi: nat, lo1: nat, hi1: nat)
    requires InOrder(m, lo, hi) && lo1 <= lo && hi <= hi1
    ensures InOrder(m, lo1, hi1)
  {
    if |m| > 0 {
      InOrderWidens(m[1..], m[0].off, hi, m[0].off, hi1);
    }
  }

  lemma {:induction false} InOrderMore(m: seq<Mark>, lo: nat, hi: nat, x: Mark)
    requires InOrder(m, lo, hi) && lo <= hi <= x.off
    ensures InOrder(m + [x], lo, x.off)
  {
    if |m| > 0 {
      InOrderMore(m[1..], m[0].off, hi, x);
      assert (m + [x])[1..] == m[1..] + [x];
    } else {
      assert m + [x] == [x];
    }
  }

  /** The marks of a log lie in order between its two ends. */
  lemma {:induction false} MarksInOrder(log: seq<Ev>, at: nat)
    ensures InOrder(MarksOf(log, at), at, at + |BytesOf(log)|)
  {
    if |log| != 0 {
      match log[0] {
        case Out(_) =>
          MarksInOrder(log[1..], at + 1);
          InOrderWidens(MarksOf(log, at), at + 1, at + |BytesOf(log)|, at, at + |BytesOf(log)|);
        case Size(c, r) =>
          MarksInOrder(log[1..], at);
          assert BytesOf(log) == BytesOf(log[1..]);
      }
    }
  }

  /** The marks at or after `from`. */
  function KeptFrom(marks: seq<Mark>, from: nat): seq<Mark> {
    if |marks| == 0 then []
    else if marks[0].off < from then KeptFrom(marks[1..], from)
    else [marks[0]] + KeptFrom(marks[1..], from)
  }

  lemma {:induction false} KeptAll(marks: seq<Mark>, from: nat, hi: nat)
    requires InOrder(marks, from, hi)
    ensures KeptFrom(marks, from) == marks
  {
    if |marks| > 0 {
      InOrderWidens(marks[1..], marks[0].off, hi, from, hi);
      KeptAll(marks[1..], from, hi);
    }
  }

  /** Starting `k` bytes later keeps exactly the marks at or after that offset. */
  lemma {:induction false} SinceMarks(log: seq<Ev>, at: nat, k: nat)
    requires k <= |BytesOf(log)|
    ensures MarksOf(Since(log, k), at + k) == KeptFrom(MarksOf(log, at), at + k)
  {
    if k == 0 {
      MarksInOrder(log, at);
      KeptAll(MarksOf(log, at), at, at + |BytesOf(log)|);
    } else if |log| != 0 {
      if log[0].Out? {
        SinceMarks(log[1..], at + 1, k - 1);
      } else {
        SinceMarks(log[1..], at, k);
      }
    }
  }

  // ---------- A ring and its marks as a log ----------

  /** Bytes from offset `at`, with each mark between the right two of them. */
  function Weave(bytes: seq<byte>, marks: seq<Mark>, at: nat): seq<Ev>
    decreases |bytes| + |marks|
  {
    if |marks| > 0 && marks[0].off <= at then [Size(marks[0].cols, marks[0].rows)] + Weave(bytes, marks[1..], at)
    else if |bytes| == 0 then []
    else [Out(bytes[0])] + Weave(bytes[1..], marks, at + 1)
  }

  /** Bytes and marks determine the log. */
  lemma {:induction false} WeaveIsLog(log: seq<Ev>, at: nat)
    ensures Weave(BytesOf(log), MarksOf(log, at), at) == log
  {
    if |log| != 0 {
      match log[0] {
        case Out(b) =>
          WeaveIsLog(log[1..], at + 1);
          MarksInOrder(log[1..], at + 1);
          assert BytesOf(log)[0] == b && BytesOf(log)[1..] == BytesOf(log[1..]);
        case Size(c, r) =>
          WeaveIsLog(log[1..], at);
          assert MarksOf(log, at)[1..] == MarksOf(log[1..], at);
          assert BytesOf(log) == BytesOf(log[1..]);
      }
    }
  }

  lemma OutsFirst(bytes: seq<byte>)
    requires |bytes| > 0
    ensures Outs(bytes) == [Out(bytes[0])] + Outs(bytes[1..])
  {
  }

  /** Up to the next mark there are only bytes. */
  lemma {:induction false} WeaveToMark(chunk: seq<byte>, tail: seq<byte>, marks: seq<Mark>, at: nat)
    requires |marks| > 0 && marks[0].off == at + |chunk|
    ensures Weave(chunk + tail, marks, at) ==
            Outs(chunk) + ([Size(marks[0].cols, marks[0].rows)] + Weave(tail, marks[1..], marks[0].off))
    decreases |chunk|
  {
    if |chunk| == 0 {
      assert chunk + tail == tail && Outs(chunk) == [];
    } else {
      WeaveToMark(chunk[1..], tail, marks, at + 1);
      assert (chunk + tail)[1..] == chunk[1..] + tail;
      var rest := [Size(marks[0].cols, marks[0].rows)] + Weave(tail, marks[1..], marks[0].off);
      OutsFirst(chunk);
      Regroup([Out(chunk[0])], Outs(chunk[1..]), rest);
    }
  }

  lemma {:induction false} WeaveBytes(bytes: seq<byte>, at: nat)
    ensures Weave(bytes, [], at) == Outs(bytes)
    decreases |bytes|
  {
    if |bytes| != 0 {
      WeaveBytes(bytes[1..], at + 1);
    }
  }

  // ---------- What watchers and panes decode ----------

  function TapEvents(m: TapMsg): seq<Ev> {
    match m
    case Bytes(bytes) => Outs(bytes)
    case Resize(c, r) => [Size(c, r)]
  }

  function Received(msgs: seq<TapMsg>): seq<Ev> {
    if |msgs| == 0 then [] else Received(msgs[..|msgs| - 1]) + TapEvents(msgs[|msgs| - 1])
  }

  function Joined(chunks: seq<seq<byte>>): seq<byte> {
    if |chunks| == 0 then [] else Joined(chunks[..|chunks| - 1]) + chunks[|chunks| - 1]
  }

  /** What a pane message says of the program's output. */
  function PaneEvents(m: PaneMsg): seq<Ev> {
    match m
    case Data(text) => if Decode(text).Some? then Outs(Decode(text).value) else []
    case SizeTo(c, r) => [Size(c, r)]
    case Local(_) => []
    case SnapTo(_, _, _, _) => []
  }

  function Shown(msgs: seq<PaneMsg>): seq<Ev> {
    if |msgs| == 0 then [] else Shown(msgs[..|msgs| - 1]) + PaneEvents(msgs[|msgs| - 1])
  }

  lemma {:induction false} ShownConcat(a: seq<PaneMsg>, b: seq<PaneMsg>)
    ensures Shown(a + b) == Shown(a) + Shown(b)
  {
    hide PaneEvents;
    if |b| == 0 {
      assert a + b == a;
    } else {
      var init, last := b[..|b| - 1], b[|b| - 1];
      assert (a + b)[..|a + b| - 1] == a + init;
      ShownConcat(a, init);
      Regroup(Shown(a), Shown(init), PaneEvents(last));
    }
  }

  lemma ShownOne(m: PaneMsg)
    ensures Shown([m]) == PaneEvents(m)
  {
    assert [m][..0] == [];
  }

  // ---------- Terminals ----------

  /** Any terminal: how it starts at a size with a screen painted, and takes a byte or a resize. */
  datatype Terminal<!S> = Terminal(paint: (nat, nat, string) -> S, feed: (S, byte) -> S, resize: (S, nat, nat) -> S)

  function Play<S>(t: Terminal<S>, s: S, log: seq<Ev>): S
    decreases |log|
  {
    if |log| == 0 then s
    else
      var s1 := match log[0]
        case Out(b) => t.feed(s, b)
        case Size(c, r) => t.resize(s, c, r);
      Play(t, s1, log[1..])
  }

  /** A pane built by messages: a snapshot resets it, output and resizes play on. */
  function PlayPane<S>(t: Terminal<S>, s: S, msgs: seq<PaneMsg>): S {
    if |msgs| == 0 then s
    else
      var before := PlayPane(t, s, msgs[..|msgs| - 1]);
      match msgs[|msgs| - 1]
      case SnapTo(c, r, _, screen) => t.paint(c, r, screen)
      case m => Play(t, before, PaneEvents(m))
  }

  lemma {:induction false} PlayConcat<S>(t: Terminal<S>, s: S, a: seq<Ev>, b: seq<Ev>)
    ensures Play(t, s, a + b) == Play(t, Play(t, s, a), b)
    decreases |a|
  {
    if |a| == 0 {
      assert a + b == b;
    } else {
      assert (a + b)[1..] == a[1..] + b;
      var s1 := match a[0]
        case Out(x) => t.feed(s, x)
        case Size(c, r) => t.resize(s, c, r);
      PlayConcat(t, s1, a[1..], b);
    }
  }

  lemma DropConcat<T>(a: seq<T>, b: seq<T>, k: nat)
    requires k <= |a|
    ensures (a + b)[k..] == a[k..] + b
  {
  }

  predicate NoSnap(msgs: seq<PaneMsg>) {
    forall i :: 0 <= i < |msgs| ==> !msgs[i].SnapTo?
  }

  /** Messages without a snapshot show what they decode to, whatever their split. */
  lemma {:induction false} PaneShows<S>(t: Terminal<S>, s: S, snap: PaneMsg, msgs: seq<PaneMsg>)
    requires snap.SnapTo? && NoSnap(msgs)
    ensures PlayPane(t, s, [snap] + msgs) == Play(t, t.paint(snap.cols, snap.rows, snap.screen), Shown(msgs))
    decreases |msgs|
  {
    var all := [snap] + msgs;
    if |msgs| == 0 {
      assert all == [snap];
    } else {
      var init := msgs[..|msgs| - 1];
      assert all[..|all| - 1] == [snap] + init;
      PaneShows(t, s, snap, init);
      PlayConcat(t, t.paint(snap.cols, snap.rows, snap.screen), Shown(init), PaneEvents(msgs[|msgs| - 1]));
    }
  }
}
