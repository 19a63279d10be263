/**
 Waking an idle codex when hub mail arrives. Times are milliseconds: `now` on the monotonic clock, `wall` on the
 system's, each read once a call.
*/
module Wake {
  import opened Wrappers

  const QUEUE_TIMEOUT: nat := 5000
  const ACK_WAIT: nat := 15000
  const RETRY: nat := 30000
  const TYPED_WAIT: nat := 15000
  const TYPED_SLACK: nat := 500

  /** What `codex queue` has said so far. */
  datatype Answer = Pending | Sent | Failed | Vanished

  /** What the app knows about one codex row this tick; `ack` is when its hook last acked a wake line. */
  datatype Input = Input(id: nat, unread: nat, waiting: bool, thread: bool, hold: bool, ack: Option<int>, answer: Answer)

  datatype How = NoHow | ByQueue(unread: nat) | ByTyping(unread: nat)

  datatype Detail =
    | Plain(how: How) | Late(how: How) | NoAck(how: How)
    | QueueFailed | QueueVanished | NeverTyped | Refusal(reason: string)

  datatype MarkState = Rang | Delivered | Unanswered | Refused

  datatype WakeMark = WakeMark(at: int, state: MarkState, detail: Detail)

  datatype Phase = Idle | Queueing(wall: int, since: nat) | Typing(since: nat) | Acking(wall: int, since: nat)

  datatype Row = Row(rungFor: nat, lastTry: Option<nat>, rangWall: Option<int>, how: How, phase: Phase, mark: Option<WakeMark>)

  const DEFAULT_ROW := Row(0, None, None, NoHow, Idle, None)

  // ---------- One row, one call, as functions ----------

  predicate FailedMark(row: Row) {
    row.mark.Some? && (row.mark.value.state == Unanswered || row.mark.value.state == Refused)
  }

  predicate Acked(ack: Option<int>, wall: int) {
    ack.Some? && ack.value >= wall
  }

  function MarkedAt(row: Row): int {
    if row.mark.Some? then row.mark.value.at else 0
  }

  function Marked(row: Row, state: MarkState, detail: Detail): Row {
    row.(mark := Some(WakeMark(MarkedAt(row), state, detail)))
  }

  /** What is in flight: the queue's answer, or the window's silence. */
  function Finished(row: Row, i: Input, now: nat): Row {
    match row.phase
    case Queueing(wall, since) =>
      (match i.answer
       case Sent => row.(phase := Acking(wall, since))
       case Failed => Marked(row.(phase := Idle), Unanswered, QueueFailed)
       case Vanished => Marked(row.(phase := Idle), Unanswered, QueueVanished)
       case Pending => row)
    case Typing(since) =>
      if now - since >= TYPED_WAIT then Marked(row.(phase := Idle), Unanswered, NeverTyped) else row
    case _ => row
  }

  /** The ack, or its absence. */
  function AckedOrNot(row: Row, i: Input, now: nat): Row {
    match row.phase
    case Acking(wall, since) =>
      if Acked(i.ack, wall) then Marked(row.(phase := Idle), Delivered, Plain(row.how))
      else if now - since >= ACK_WAIT then Marked(row.(phase := Idle), Unanswered, NoAck(row.how))
      else row
    case _ => row
  }

  /** An ack that came after the wait was over. */
  function AckedLate(row: Row, i: Input): Row {
    if row.phase.Idle? && row.mark.Some? && row.mark.value.state == Unanswered
       && row.rangWall.Some? && Acked(i.ack, row.rangWall.value)
    then Marked(row, Delivered, Late(row.how))
    else row
  }

  function Landed(row: Row, i: Input, now: nat): Row {
    AckedLate(AckedOrNot(Finished(row, i, now), i, now), i)
  }

  /** Whether a landed row is rung. */
  predicate Due(row: Row, i: Input, now: nat) {
    && i.unread > 0 && row.phase.Idle? && i.waiting && !i.hold
    && (i.unread > row.rungFor || (FailedMark(row) && (row.lastTry.Some? ==> now - row.lastTry.value >= RETRY)))
  }

  function Rung(row: Row, i: Input, now: nat, wall: int): Row {
    var how := if i.thread then ByQueue(i.unread) else ByTyping(i.unread);
    Row(i.unread, Some(now), Some(wall), how, if i.thread then Queueing(wall, now) else Typing(now),
        Some(WakeMark(wall, Rang, Plain(how))))
  }

  /** No mail: a warning about ringing for it is moot. */
  function Emptied(row: Row): Row {
    row.(rungFor := 0, mark := if row.phase.Idle? && FailedMark(row) then None else row.mark)
  }

  predicate Rings(row: Row, i: Input, now: nat) {
    Due(Landed(row, i, now), i, now)
  }

  /** One row through one tick. */
  function Ticked(row: Row, i: Input, now: nat, wall: int): Row {
    var landed := Landed(row, i, now);
    if i.unread == 0 then Emptied(landed)
    else if Due(landed, i, now) then Rung(landed, i, now, wall)
    else landed
  }

  /** The window's answer to a ring to type. */
  function TypedRow(row: Row, ok: bool, reason: string, now: nat, wall: int): Row {
    if !row.phase.Typing? then row
    else if ok then row.(rangWall := Some(wall - TYPED_SLACK), phase := Acking(wall - TYPED_SLACK, now))
    else row.(phase := Idle, mark := Some(WakeMark(if row.mark.Some? then row.mark.value.at else wall, Refused, Refusal(reason))))
  }

  // ---------- What every row keeps ----------

  /**
   A ring is in flight exactly when the row says `rang`; a row rung for mail has a mark; and what an ack is held
   against is when the last ring went out.
  */
  predicate Sound(row: Row, now: nat) {
    && (!row.phase.Idle? <==> row.mark.Some? && row.mark.value.state == Rang)
    && (row.rungFor > 0 ==> row.mark.Some?)
    && (row.mark.Some? ==> row.lastTry.Some? && row.rangWall.Some?)
    && (row.lastTry.Some? ==> row.lastTry.value <= now)
    && (row.phase.Queueing? || row.phase.Acking? ==> row.rangWall == Some(row.phase.wall))
    && (!row.phase.Idle? ==> row.lastTry.Some? && row.lastTry.value <= row.phase.since <= now)
  }

  lemma TickedSound(row: Row, i: Input, then_: nat, now: nat, wall: int)
    requires Sound(row, then_) && then_ <= now
    ensures Sound(Ticked(row, i, now, wall), now)
  {
  }

  /** `delivered` is only ever said for an ack no older than the last ring's recorded time. */
  lemma DeliveredIsAcked(row: Row, i: Input, then_: nat, now: nat, wall: int)
    requires Sound(row, then_) && then_ <= now
    ensures var row1 := Ticked(row, i, now, wall);
            row1.mark.Some? && row1.mark.value.state == Delivered && row1.mark != row.mark ==>
              row.rangWall.Some? && row1.rangWall == row.rangWall && Acked(i.ack, row.rangWall.value)
  {
  }

  /** A ring starts only on mail, at an idle prompt, not held, with nothing in flight, and is then in flight. */
  lemma RingIsSafe(row: Row, i: Input, now: nat, wall: int)
    ensures Rings(row, i, now) ==>
              && i.unread > 0 && i.waiting && !i.hold && Landed(row, i, now).phase.Idle?
              && !Ticked(row, i, now, wall).phase.Idle? && Ticked(row, i, now, wall).lastTry == Some(now)
              && Ticked(row, i, now, wall).rungFor == i.unread
    ensures !Rings(row, i, now) ==> Ticked(row, i, now, wall).lastTry == row.lastTry
  {
  }

  // ---------- A row's whole life ----------

  datatype RowStep =
    | AtTick(i: Input, now: nat, wall: int)
    | AtTyped(ok: bool, reason: string, now: nat, wall: int)
    | AtForget(now: nat)

  function Next(row: Row, s: RowStep): Row {
    match s
    case AtTick(i, now, wall) => Ticked(row, i, now, wall)
    case AtTyped(ok, reason, now, wall) => TypedRow(row, ok, reason, now, wall)
    case AtForget(_) => DEFAULT_ROW
  }

  function Live(row: Row, steps: seq<RowStep>): Row
    decreases |steps|
  {
    if |steps| == 0 then row else Live(Next(row, steps[0]), steps[1..])
  }

  /** The clock does not go back. */
  predicate Onward(from: nat, steps: seq<RowStep>)
    decreases |steps|
  {
    |steps| > 0 ==> from <= steps[0].now && Onward(steps[0].now, steps[1..])
  }

  function EndTime(from: nat, steps: seq<RowStep>): nat {
    if |steps| == 0 then from else steps[|steps| - 1].now
  }

  lemma NextSound(row: Row, s: RowStep, then_: nat)
    requires Sound(row, then_) && then_ <= s.now
    ensures Sound(Next(row, s), s.now)
  {
    if s.AtTick? {
      TickedSound(row, s.i, then_, s.now, s.wall);
    }
  }

  /** In every life of a row, whatever the ticks bring: a mark `rang` and a ring in flight coincide, and the rest of `Sound`. */
  lemma {:induction false} EveryRowIsSound(row: Row, from: nat, steps: seq<RowStep>)
    requires Sound(row, from) && Onward(from, steps)
    ensures Sound(Live(row, steps), EndTime(from, steps))
    decreases |steps|
  {
    if |steps| != 0 {
      NextSound(row, steps[0], from);
      EveryRowIsSound(Next(row, steps[0]), steps[0].now, steps[1..]);
    }
  }

  // ---------- Acks against the last ring ----------

  /** When a step sent the last ring out, if it did. */
  function SentOut(row: Row, s: RowStep): Option<int> {
    match s
    case AtTick(i, now, wall) => if Rings(row, i, now) then Some(wall) else None
    case AtTyped(ok, _, _, wall) => if row.phase.Typing? && ok then Some(wall - TYPED_SLACK) else None
    case AtForget(_) => None
  }

  /** The time of the last ring of a life, `before` standing for any earlier one. */
  function LastSent(row: Row, before: Option<int>, steps: seq<RowStep>): Option<int>
    decreases |steps|
  {
    if |steps| == 0 then before
    else
      var sent := SentOut(row, steps[0]);
      LastSent(Next(row, steps[0]), if steps[0].AtForget? then None else if sent.Some? then sent else before, steps[1..])
  }

  lemma {:induction false} RangWallIsLastSent(row: Row, steps: seq<RowStep>)
    ensures Live(row, steps).rangWall == LastSent(row, row.rangWall, steps)
    decreases |steps|
  {
    if |steps| != 0 {
      RangWallIsLastSent(Next(row, steps[0]), steps[1..]);
    }
  }

  /**
   In every life: when a tick turns the row `delivered`, the codex acked at or after the last ring's recorded time,
   which for a typed ring is TYPED_SLACK before the window said it typed.
  */
  lemma DeliveredAfterLastRing(steps: seq<RowStep>, i: Input, now: nat, wall: int)
    requires Onward(0, steps) && EndTime(0, steps) <= now
    ensures var row := Live(DEFAULT_ROW, steps);
            var row1 := Ticked(row, i, now, wall);
            row1.mark.Some? && row1.mark.value.state == Delivered && row1.mark != row.mark ==>
              LastSent(DEFAULT_ROW, None, steps).Some? && Acked(i.ack, LastSent(DEFAULT_ROW, None, steps).value)
  {
    EveryRowIsSound(DEFAULT_ROW, 0, steps);
    RangWallIsLastSent(DEFAULT_ROW, steps);
    DeliveredIsAcked(Live(DEFAULT_ROW, steps), i, EndTime(0, steps), now, wall);
  }

  // ---------- Not too often ----------

  /** Nothing that lets the row be rung again early: no ring, no emptied inbox, not forgotten. */
  predicate Quiet(row: Row, s: RowStep) {
    match s
    case AtTick(i, now, _) => i.unread > 0 && !Rings(row, i, now)
    case AtTyped(_, _, _, _) => true
    case AtForget(_) => false
  }

  predicate AllQuiet(row: Row, steps: seq<RowStep>)
    decreases |steps|
  {
    |steps| > 0 ==> Quiet(row, steps[0]) && AllQuiet(Next(row, steps[0]), steps[1..])
  }

  lemma {:induction false} QuietKeeps(row: Row, steps: seq<RowStep>)
    requires AllQuiet(row, steps)
    ensures Live(row, steps).rungFor == row.rungFor && Live(row, steps).lastTry == row.lastTry
    decreases |steps|
  {
    if |steps| != 0 {
      QuietKeeps(Next(row, steps[0]), steps[1..]);
    }
  }

  /**
   Two rings in a row are RETRY apart, unless the inbox grew past the count of the first, emptied in between, or
   the row was replaced.
  */
  lemma RingsKeepApart(row: Row, i: Input, now: nat, wall: int, between: seq<RowStep>, i2: Input, now2: nat)
    requires Rings(row, i, now)
    requires AllQuiet(Ticked(row, i, now, wall), between)
    requires Rings(Live(Ticked(row, i, now, wall), between), i2, now2)
    ensures i2.unread > i.unread || now2 - now >= RETRY
  {
    QuietKeeps(Ticked(row, i, now, wall), between);
  }

  // ---------- No lost ring ----------

  function Max(a: nat, b: nat): nat {
    if a < b then b else a
  }

  /** When a row with mail must have been rung again or delivered, if ticks come at most `gap` apart. */
  function Deadline(row: Row, gap: nat): nat {
    var retry := if row.lastTry.Some? then row.lastTry.value + RETRY else 0;
    match row.phase
    case Idle => if FailedMark(row) then retry else 0
    case Queueing(_, since) => Max(since + ACK_WAIT, retry)
    case Acking(_, since) => Max(since + ACK_WAIT, retry)
    case Typing(since) => Max(since + TYPED_WAIT + gap + ACK_WAIT, retry)
  }

  predicate DeliveredMark(row: Row) {
    row.mark.Some? && row.mark.value.state == Delivered
  }

  /** Mail waits, the codex is idle and not held, and `codex queue` has answered if its time is up. */
  predicate Reachable(row: Row, i: Input, now: nat) {
    && i.unread > 0 && i.waiting && !i.hold
    && (row.phase.Queueing? && now - row.phase.since >= QUEUE_TIMEOUT ==> i.answer != Pending)
  }

  /** A tick rings, delivers, or leaves the deadline where it was and still ahead. */
  lemma TickMakesProgress(row: Row, i: Input, then_: nat, now: nat, wall: int, gap: nat)
    requires Sound(row, then_) && then_ <= now && Reachable(row, i, now)
    ensures var row1 := Ticked(row, i, now, wall);
            || Rings(row, i, now) || DeliveredMark(row1)
            || (Deadline(row1, gap) <= Deadline(row, gap) && now < Deadline(row, gap)
                && (row1.phase.Typing? ==> now < row1.phase.since + TYPED_WAIT))
  {
  }

  lemma TypedKeepsDeadline(row: Row, ok: bool, reason: string, then_: nat, now: nat, wall: int, gap: nat)
    requires Sound(row, then_) && then_ <= now
    requires row.phase.Typing? ==> now <= row.phase.since + TYPED_WAIT + gap
    ensures Deadline(TypedRow(row, ok, reason, now, wall), gap) <= Deadline(row, gap)
  {
  }

  /** From the last tick at `tick` on, ticks come at most `gap` apart and find mail waiting at an idle prompt. */
  predicate Attended(row: Row, tick: nat, gap: nat, steps: seq<RowStep>)
    decreases |steps|
  {
    |steps| > 0 ==>
      && !steps[0].AtForget?
      && steps[0].now <= tick + gap
      && (steps[0].AtTick? ==> Reachable(row, steps[0].i, steps[0].now))
      && Attended(Next(row, steps[0]), if steps[0].AtTick? then steps[0].now else tick, gap, steps[1..])
  }

  /** The tick turned the row delivered: it was not so before. */
  predicate Delivers(row: Row, s: RowStep) {
    s.AtTick? && DeliveredMark(Next(row, s)) && !DeliveredMark(row)
  }

  /** Some tick of the life rang the codex, or heard that a ring was delivered. */
  predicate RungOrDelivered(row: Row, steps: seq<RowStep>)
    decreases |steps|
  {
    && |steps| > 0
    && ((steps[0].AtTick? && Rings(row, steps[0].i, steps[0].now)) || Delivers(row, steps[0])
        || RungOrDelivered(Next(row, steps[0]), steps[1..]))
  }

  /** No tick saw an empty inbox or more than `count` unread, and the row was not replaced. */
  predicate NeverAbove(count: nat, steps: seq<RowStep>) {
    |steps| > 0 ==>
      && !steps[0].AtForget?
      && (steps[0].AtTick? ==> 0 < steps[0].i.unread <= count)
      && NeverAbove(count, steps[1..])
  }

  /** A tick at or after `by` is among the steps. */
  predicate TickBy(late: nat, steps: seq<RowStep>) {
    |steps| > 0 && ((steps[0].AtTick? && steps[0].now >= late) || TickBy(late, steps[1..]))
  }

  lemma {:induction false} RungByDeadline(row: Row, then_: nat, tick: nat, gap: nat, steps: seq<RowStep>)
    requires Sound(row, then_) && Onward(then_, steps) && !DeliveredMark(row)
    requires Attended(row, tick, gap, steps)
    requires row.phase.Typing? ==> tick < row.phase.since + TYPED_WAIT
    requires TickBy(Deadline(row, gap), steps)
    ensures RungOrDelivered(row, steps)
    decreases |steps|
  {
    var s := steps[0];
    var row1 := Next(row, s);
    NextSound(row, s, then_);
    if s.AtTick? {
      TickMakesProgress(row, s.i, then_, s.now, s.wall, gap);
      if !Rings(row, s.i, s.now) && !DeliveredMark(row1) {
        TickBySooner(Deadline(row, gap), Deadline(row1, gap), steps[1..]);
        RungByDeadline(row1, s.now, s.now, gap, steps[1..]);
      }
    } else {
      TypedKeepsDeadline(row, s.ok, s.reason, then_, s.now, s.wall, gap);
      TickBySooner(Deadline(row, gap), Deadline(row1, gap), steps[1..]);
      RungByDeadline(row1, s.now, tick, gap, steps[1..]);
    }
  }

  lemma CoveredStep(row: Row, then_: nat, s: RowStep)
    requires Sound(row, then_) && DeliveredMark(row) && !s.AtForget?
    requires s.AtTick? ==> 0 < s.i.unread <= row.rungFor
    ensures Next(row, s) == row && !(s.AtTick? && Rings(row, s.i, s.now))
  {
  }

  /**
   Mail the count of an earlier, delivered ring covers is never rung for: the row stays as it is however long, whatever
   else the ticks bring.
  */
  lemma {:induction false} CoveredMailIsNeverRung(row: Row, then_: nat, steps: seq<RowStep>)
    requires Sound(row, then_) && DeliveredMark(row) && NeverAbove(row.rungFor, steps)
    ensures !RungOrDelivered(row, steps) && Live(row, steps) == row
    decreases |steps|
  {
    if |steps| != 0 {
      CoveredStep(row, then_, steps[0]);
      CoveredMailIsNeverRung(row, then_, steps[1..]);
    }
  }

  /** A delivered row is rung for at the first tick that sees more unread than it was rung for. */
  lemma {:induction false} GrownMailIsRung(row: Row, then_: nat, tick: nat, gap: nat, steps: seq<RowStep>)
    requires Sound(row, then_) && DeliveredMark(row) && Attended(row, tick, gap, steps)
    requires !NeverAbove(row.rungFor, steps)
    ensures RungOrDelivered(row, steps)
    decreases |steps|
  {
    if steps[0].AtTick? && steps[0].i.unread > row.rungFor {
      assert Rings(row, steps[0].i, steps[0].now);
    } else {
      CoveredStep(row, then_, steps[0]);
      GrownMailIsRung(row, then_, if steps[0].AtTick? then steps[0].now else tick, gap, steps[1..]);
    }
  }

  lemma {:induction false} TickBySooner(late: nat, soon: nat, steps: seq<RowStep>)
    requires TickBy(late, steps) && soon <= late
    ensures TickBy(soon, steps)
    decreases |steps|
  {
    if !(steps[0].AtTick? && steps[0].now >= late) {
      TickBySooner(late, soon, steps[1..]);
    }
  }

  lemma DeadlineIsNear(row: Row, now: nat, gap: nat)
    requires Sound(row, now)
    ensures Deadline(row, gap) <= now + Max(RETRY, TYPED_WAIT + gap + ACK_WAIT)
  {
  }

  /**
   No lost ring, and exactly when one is. From every reachable state, with mail waiting, the codex idle and not held,
   ticks at most `gap` apart and `codex queue` answering in its bound, a tick coming TYPED_WAIT + ACK_WAIT + gap (or
   RETRY) later: some tick rang the codex or turned the row delivered, unless the row was delivered already and no
   tick saw more unread than that earlier ring was for.
  */
  lemma NoLostRing(past: seq<RowStep>, i: Input, now: nat, wall: int, gap: nat, steps: seq<RowStep>)
    requires Onward(0, past) && EndTime(0, past) <= now && Reachable(Live(DEFAULT_ROW, past), i, now)
    requires var row := Ticked(Live(DEFAULT_ROW, past), i, now, wall);
             Onward(now, steps) && Attended(row, now, gap, steps)
    requires TickBy(now + Max(RETRY, TYPED_WAIT + gap + ACK_WAIT), steps)
    ensures var row := Live(DEFAULT_ROW, past);
            var all := [AtTick(i, now, wall)] + steps;
            RungOrDelivered(row, all) <==> !(DeliveredMark(row) && NeverAbove(row.rungFor, all))
  {
    var row := Live(DEFAULT_ROW, past);
    var all := [AtTick(i, now, wall)] + steps;
    assert all[0] == AtTick(i, now, wall) && all[1..] == steps;
    EveryRowIsSound(DEFAULT_ROW, 0, past);
    var row1 := Ticked(row, i, now, wall);
    if DeliveredMark(row) {
      if NeverAbove(row.rungFor, all) {
        CoveredMailIsNeverRung(row, EndTime(0, past), all);
      } else {
        GrownMailIsRung(row, EndTime(0, past), now, gap, all);
      }
    } else {
      TickMakesProgress(row, i, EndTime(0, past), now, wall, gap);
      if !Rings(row, i, now) && !DeliveredMark(row1) {
        TickedSound(row, i, EndTime(0, past), now, wall);
        DeadlineIsNear(row1, now, gap);
        TickBySooner(now + Max(RETRY, TYPED_WAIT + gap + ACK_WAIT), Deadline(row1, gap), steps);
        RungByDeadline(row1, now, now, gap, steps);
      }
    }
  }

  /**
   Such a life: one message is rung for and acked; it is read and another comes before the next tick, so one is unread
   again; and the other is never rung for while it is the only one.
  */
  lemma NewMailBehindAnOldRing(steps: seq<RowStep>)
    requires NeverAbove(1, steps)
    ensures var past := [AtTick(Input(1, 1, true, true, false, None, Pending), 0, 0),
                         AtTick(Input(1, 1, false, true, false, Some(5), Sent), 1000, 1000)];
            && Onward(0, past) && DeliveredMark(Live(DEFAULT_ROW, past)) && Live(DEFAULT_ROW, past).rungFor == 1
            && !RungOrDelivered(Live(DEFAULT_ROW, past), steps)
  {
    var first, second := AtTick(Input(1, 1, true, true, false, None, Pending), 0, 0),
                         AtTick(Input(1, 1, false, true, false, Some(5), Sent), 1000, 1000);
    var past := [first, second];
    assert past[1..] == [second] && [second][1..] == [];
    var row1 := Next(DEFAULT_ROW, first);
    assert row1 == Row(1, Some(0), Some(0), ByQueue(1), Queueing(0, 0), Some(WakeMark(0, Rang, Plain(ByQueue(1)))));
    assert Live(DEFAULT_ROW, past) == Live(row1, [second]) == Next(row1, second);
    CoveredMailIsNeverRung(Next(row1, second), 1000, steps);
  }

  // ---------- All rows ----------

  function RowOf(rows: map<nat, Row>, id: nat): Row {
    if id in rows then rows[id] else DEFAULT_ROW
  }

  /** One tick over the inputs, each in its turn; the lines to type come back as (row, unread). */
  function TickedAll(rows: map<nat, Row>, inputs: seq<Input>, now: nat, wall: int): (map<nat, Row>, seq<(nat, nat)>)
    decreases |inputs|
  {
    if |inputs| == 0 then (rows, [])
    else
      var n := |inputs| - 1;
      var (rows1, typed) := TickedAll(rows, inputs[..n], now, wall);
      var i := inputs[n];
      var row := RowOf(rows1, i.id);
      (rows1[i.id := Ticked(row, i, now, wall)],
       if Rings(row, i, now) && !i.thread then typed + [(i.id, i.unread)] else typed)
  }

  predicate AllSound(rows: map<nat, Row>, now: nat) {
    forall id :: id in rows ==> Sound(rows[id], now)
  }

  lemma {:induction false} TickedAllSound(rows: map<nat, Row>, inputs: seq<Input>, then_: nat, now: nat, wall: int)
    requires AllSound(rows, then_) && then_ <= now
    ensures AllSound(TickedAll(rows, inputs, now, wall).0, now)
    decreases |inputs|
  {
    if |inputs| != 0 {
      var n := |inputs| - 1;
      TickedAllSound(rows, inputs[..n], then_, now, wall);
      var rows1 := TickedAll(rows, inputs[..n], now, wall).0;
      TickedSound(RowOf(rows1, inputs[n].id), inputs[n], now, now, wall);
    }
  }

  /** A row no input is for is left alone; with one input each, every row takes exactly its own step. */
  lemma {:induction false} RowsTickAlone(rows: map<nat, Row>, inputs: seq<Input>, now: nat, wall: int, id: nat)
    requires forall j, k :: 0 <= j < k < |inputs| ==> inputs[j].id != inputs[k].id
    ensures var rows1 := TickedAll(rows, inputs, now, wall).0;
            && (forall k :: 0 <= k < |inputs| && inputs[k].id == id ==>
                  id in rows1 && rows1[id] == Ticked(RowOf(rows, id), inputs[k], now, wall))
            && ((forall k :: 0 <= k < |inputs| ==> inputs[k].id != id) ==>
                  (id in rows1 <==> id in rows) && RowOf(rows1, id) == RowOf(rows, id))
    decreases |inputs|
  {
    if |inputs| != 0 {
      var n := |inputs| - 1;
      RowsTickAlone(rows, inputs[..n], now, wall, id);
      if inputs[n].id == id {
        forall k | 0 <= k < n ensures inputs[..n][k].id != id {
          assert inputs[..n][k] == inputs[k];
        }
      }
    }
  }

  // ---------- What a tick does, case by case ----------

  /** An ack for the last ring has come. */
  predicate AckHasCome(row: Row, i: Input) {
    row.rangWall.Some? && i.ack.Some? && i.ack.value >= row.rangWall.value
  }

  /** How what is in flight ends this tick, if it does: delivered, or a warning that says why not. */
  function Ending(row: Row, i: Input, now: nat): Option<(MarkState, Detail)> {
    match row.phase
    case Idle =>
      if row.mark.Some? && row.mark.value.state == Unanswered && AckHasCome(row, i) then Some((Delivered, Late(row.how))) else None
    case Queueing(wall, since) => (
      match i.answer
      case Pending => None
      case Sent => AckEnding(row, i, wall, since, now)
      case Failed => Some(if AckHasCome(row, i) then (Delivered, Late(row.how)) else (Unanswered, QueueFailed))
      case Vanished => Some(if AckHasCome(row, i) then (Delivered, Late(row.how)) else (Unanswered, QueueVanished)))
    case Typing(since) =>
      if now - since < TYPED_WAIT then None
      else Some(if AckHasCome(row, i) then (Delivered, Late(row.how)) else (Unanswered, NeverTyped))
    case Acking(wall, since) => AckEnding(row, i, wall, since, now)
  }

  function AckEnding(row: Row, i: Input, wall: int, since: nat, now: nat): Option<(MarkState, Detail)> {
    if i.ack.Some? && i.ack.value >= wall then Some((Delivered, Plain(row.how)))
    else if now - since < ACK_WAIT then None
    else Some(if AckHasCome(row, i) then (Delivered, Late(row.how)) else (Unanswered, NoAck(row.how)))
  }

  /** What the tick finds of the row: ended, with a mark that keeps its time, or on its way, acking once the queue has sent it. */
  lemma LandsExactly(row: Row, i: Input, now: nat)
    ensures var landed, ending := Landed(row, i, now), Ending(row, i, now);
            if ending.Some? then
              landed == row.(phase := Idle,
                             mark := Some(WakeMark(if row.mark.Some? then row.mark.value.at else 0, ending.value.0, ending.value.1)))
            else landed == row.(phase := if row.phase.Queueing? && i.answer.Sent? then Acking(row.phase.wall, row.phase.since) else row.phase)
  {
  }

  /**
   A whole tick of one row. Without mail the count is cleared, and a warning that nothing is in flight for. With mail a row
   that is due is rung, by the queue if there is a thread and else by typing, and says so; any other row is left.
  */
  lemma TicksExactly(row: Row, i: Input, now: nat, wall: int)
    ensures var landed, row1 := Landed(row, i, now), Ticked(row, i, now, wall);
            var warns := landed.phase.Idle? && landed.mark.Some?
                         && (landed.mark.value.state == Unanswered || landed.mark.value.state == Refused);
            var due := landed.phase.Idle? && i.waiting && !i.hold
                       && (i.unread > landed.rungFor || (warns && (landed.lastTry.None? || now - landed.lastTry.value >= RETRY)));
            && (i.unread == 0 ==> row1 == landed.(rungFor := 0, mark := if warns then None else landed.mark))
            && (i.unread > 0 && !due ==> row1 == landed)
            && (i.unread > 0 && due && i.thread ==>
                  row1 == Row(i.unread, Some(now), Some(wall), ByQueue(i.unread), Queueing(wall, now), Some(WakeMark(wall, Rang, Plain(ByQueue(i.unread))))))
            && (i.unread > 0 && due && !i.thread ==>
                  row1 == Row(i.unread, Some(now), Some(wall), ByTyping(i.unread), Typing(now), Some(WakeMark(wall, Rang, Plain(ByTyping(i.unread))))))
  {
    hide Landed;
  }

  /**
   The window's answer. A line it typed is waited for from then on: the next tick finds it delivered if an ack came since
   TYPED_SLACK before, unanswered ACK_WAIT later, and else still acking. A line it refused is over, with its reason and the
   time of the ring.
  */
  lemma AnswersExactly(row: Row, ok: bool, reason: string, now: nat, wall: int, i: Input, later: nat)
    requires row.phase.Typing? && row.mark.Some? && now <= later
    ensures var row1 := TypedRow(row, ok, reason, now, wall); var next := Landed(row1, i, later);
            var acked := i.ack.Some? && i.ack.value >= wall - 500;
            && (!ok ==> row1 == row.(phase := Idle, mark := Some(WakeMark(row.mark.value.at, Refused, Refusal(reason)))))
            && (ok ==> row1.mark == row.mark && row1.rungFor == row.rungFor && row1.lastTry == row.lastTry && row1.how == row.how)
            && (ok && acked ==> next.phase.Idle? && next.mark == Some(WakeMark(row.mark.value.at, Delivered, Plain(row.how))))
            && (ok && !acked && later - now >= ACK_WAIT ==>
                  next.phase.Idle? && next.mark == Some(WakeMark(row.mark.value.at, Unanswered, NoAck(row.how))))
            && (ok && !acked && later - now < ACK_WAIT ==> next == row1 && next.phase == Acking(wall - 500, now))
    ensures row.phase.Typing? ==> TypedRow(row.(phase := Idle), ok, reason, now, wall) == row.(phase := Idle)
  {
  }

  // ---------- The lines to type ----------

  /** The tick at `now` puts the row into typing. */
  predicate BeginsTyping(row: Row, i: Input, now: nat, wall: int) {
    Ticked(row, i, now, wall).phase == Typing(now) && row.phase != Typing(now)
  }

  lemma TypingIsForNoThread(row: Row, i: Input, now: nat, wall: int)
    ensures BeginsTyping(row, i, now, wall) <==> Rings(row, i, now) && !i.thread
    ensures BeginsTyping(row, i, now, wall) ==> !i.thread && i.unread > 0
  {
  }

  /** How many of the first `k` inputs' rows a tick puts into typing. */
  function TypingBefore(rows: map<nat, Row>, inputs: seq<Input>, k: nat, now: nat, wall: int): nat
    requires k <= |inputs|
  {
    if k == 0 then 0
    else TypingBefore(rows, inputs, k - 1, now, wall)
         + if BeginsTyping(RowOf(rows, inputs[k - 1].id), inputs[k - 1], now, wall) then 1 else 0
  }

  lemma {:induction false} TypingBeforeIn(rows: map<nat, Row>, inputs: seq<Input>, more: seq<Input>, k: nat, now: nat, wall: int)
    requires k <= |inputs|
    ensures TypingBefore(rows, inputs + more, k, now, wall) == TypingBefore(rows, inputs, k, now, wall)
  {
    if k > 0 {
      TypingBeforeIn(rows, inputs, more, k - 1, now, wall);
    }
  }

  /**
   The lines to type are exactly those of the rows that this tick puts into typing, in the order of the inputs, each once
   and with its unread count; a row that has a thread is never among them.
  */
  lemma {:induction false} TypedLinesExactly(rows: map<nat, Row>, inputs: seq<Input>, now: nat, wall: int)
    requires forall j, k :: 0 <= j < k < |inputs| ==> inputs[j].id != inputs[k].id
    ensures var typed := TickedAll(rows, inputs, now, wall).1;
            && |typed| == TypingBefore(rows, inputs, |inputs|, now, wall)
            && forall k :: 0 <= k < |inputs| && BeginsTyping(RowOf(rows, inputs[k].id), inputs[k], now, wall) ==>
                 !inputs[k].thread && TypingBefore(rows, inputs, k, now, wall) < |typed|
                 && typed[TypingBefore(rows, inputs, k, now, wall)] == (inputs[k].id, inputs[k].unread)
    decreases |inputs|
  {
    hide BeginsTyping, Ticked, Rings;
    if |inputs| > 0 {
      var n := |inputs| - 1;
      var init, last := inputs[..n], inputs[n];
      assert inputs == init + [last];
      TypedLinesExactly(rows, init, now, wall);
      RowsTickAlone(rows, init, now, wall, last.id);
      forall k | 0 <= k < n ensures init[k].id != last.id {
        assert init[k] == inputs[k];
      }
      TypingIsForNoThread(RowOf(rows, last.id), last, now, wall);
      forall k: nat | k <= n ensures TypingBefore(rows, inputs, k, now, wall) == TypingBefore(rows, init, k, now, wall) {
        TypingBeforeIn(rows, init, [last], k, now, wall);
      }
      forall k | 0 <= k < n && BeginsTyping(RowOf(rows, inputs[k].id), inputs[k], now, wall) ensures inputs[k] == init[k] {
      }
    }
  }

  /** Every codex row's wake state. */
  class Wakes {
    var rows: map<nat, Row>

    constructor ()
      ensures rows == map[]
    {
      rows := map[];
    }

    method MarkOf(id: nat) returns (m: Option<WakeMark>)
      ensures m == RowOf(rows, id).mark
    {
      m := if id in rows then rows[id].mark else None;
    }

    /** The row's process was replaced or closed. */
    method Forget(id: nat)
      modifies this
      ensures rows == old(rows) - {id}
    {
      rows := rows - {id};
    }

    method Retain(keep: set<nat>)
      modifies this
      ensures rows == map id | id in old(rows) && id in keep :: old(rows)[id]
    {
      rows := map id | id in rows && id in keep :: rows[id];
    }

    /** What is in flight for one row, and then its ack. */
    static method Land(row0: Row, i: Input, now: nat) returns (row: Row)
      ensures row == Landed(row0, i, now)
    {
      row := row0;
      match row.phase {
        case Idle =>
        case Acking(_, _) =>
        case Queueing(wall, since) =>
          match i.answer {
            case Sent => row := row.(phase := Acking(wall, since));
            case Failed => row := Marked(row.(phase := Idle), Unanswered, QueueFailed);
            case Vanished => row := Marked(row.(phase := Idle), Unanswered, QueueVanished);
            case Pending =>
          }
        case Typing(since) =>
          if now - since >= TYPED_WAIT {
            row := Marked(row.(phase := Idle), Unanswered, NeverTyped);
          }
      }
      if row.phase.Acking? {
        if Acked(i.ack, row.phase.wall) {
          row := Marked(row.(phase := Idle), Delivered, Plain(row.how));
        } else if now - row.phase.since >= ACK_WAIT {
          row := Marked(row.(phase := Idle), Unanswered, NoAck(row.how));
        }
      }
      if row.phase.Idle? && row.mark.Some? && row.mark.value.state == Unanswered
         && row.rangWall.Some? && Acked(i.ack, row.rangWall.value) {
        row := Marked(row, Delivered, Late(row.how));
      }
    }

    /** Advance every codex row one tick; the rows the window must type a wake line into come back. */
    method Tick(inputs: seq<Input>, now: nat, wall: int) returns (typed: seq<(nat, nat)>)
      modifies this
      ensures (rows, typed) == TickedAll(old(rows), inputs, now, wall)
      ensures forall then_: nat :: then_ <= now && AllSound(old(rows), then_) ==> AllSound(rows, now)
    {
      typed := [];
      ghost var rows0 := rows;
      assert inputs[..0] == [] && inputs[..|inputs|] == inputs;
      for n := 0 to |inputs|
        invariant (rows, typed) == TickedAll(rows0, inputs[..n], now, wall)
      {
        assert inputs[..n + 1][..n] == inputs[..n] && inputs[..n + 1][n] == inputs[n];
        var i := inputs[n];
        var row := if i.id in rows then rows[i.id] else DEFAULT_ROW;
        row := Land(row, i, now);
        if i.unread == 0 {
          row := row.(rungFor := 0);
          if row.phase.Idle? && FailedMark(row) {
            row := row.(mark := None);
          }
          rows := rows[i.id := row];
          continue;
        }
        if !row.phase.Idle? || !i.waiting || i.hold {
          rows := rows[i.id := row];
          continue;
        }
        var failed := FailedMark(row);
        var grew := i.unread > row.rungFor;
        var retry := failed && (row.lastTry.None? || now - row.lastTry.value >= RETRY);
        if !(grew || retry) {
          rows := rows[i.id := row];
          continue;
        }
        row := row.(rungFor := i.unread, lastTry := Some(now), rangWall := Some(wall));
        if i.thread {
          row := row.(phase := Queueing(wall, now), how := ByQueue(i.unread));
        } else {
          row := row.(phase := Typing(now), how := ByTyping(i.unread));
          typed := typed + [(i.id, i.unread)];
        }
        row := row.(mark := Some(WakeMark(wall, Rang, Plain(row.how))));
        rows := rows[i.id := row];
      }
      forall then_: nat | then_ <= now && AllSound(rows0, then_) ensures AllSound(rows, now) {
        TickedAllSound(rows0, inputs, then_, now, wall);
      }
    }

    /** The window typed the line, or says why it did not. */
    method Typed(id: nat, ok: bool, reason: string, now: nat, wall: int)
      modifies this
      ensures rows == if id in old(rows) then old(rows)[id := TypedRow(old(rows)[id], ok, reason, now, wall)] else old(rows)
    {
      if id !in rows {
        return;
      }
      var row := rows[id];
      if !row.phase.Typing? {
        return;
      }
      if ok {
        row := row.(rangWall := Some(wall - TYPED_SLACK));
        row := row.(phase := Acking(wall - TYPED_SLACK, now));
      } else {
        var at := if row.mark.Some? then row.mark.value.at else wall;
        row := row.(phase := Idle);
        row := row.(mark := Some(WakeMark(at, Refused, Refusal(reason))));
      }
      rows := rows[id := row];
    }
  }
}
