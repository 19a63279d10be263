/**
 No request hangs: while the timer polls and its row's turn is over whenever it is not compacting, a request ends
 within a bound, whatever other calls come.
*/
module CompactEnds {
  import opened Wrappers
  import opened Compact
  import CompactSafety

  // ---------- The rows in order ----------

  ghost predicate NoDup(order: seq<nat>) {
    forall i, j :: 0 <= i < j < |order| ==> order[i] != order[j]
  }

  /** The keys kept in order are the requests, each once. */
  ghost predicate Listed(m: Machine) {
    NoDup(m.order) && forall id :: id in m.order <==> id in m.reqs
  }

  lemma {:induction false} WithoutOne(order: seq<nat>, id: nat)
    requires NoDup(order)
    ensures NoDup(Without(order, id)) && forall x :: x in Without(order, id) <==> x in order && x != id
  {
    if |order| != 0 {
      var rest := order[1..];
      assert order == [order[0]] + rest;
      assert order[0] !in rest;
      if order[0] != id {
        WithoutOne(rest, id);
        assert order[0] !in Without(rest, id);
      }
    }
  }

  lemma PutListed(m: Machine, id: nat, r: Req)
    requires Listed(m)
    ensures Listed(Put(m, id, r))
  {
  }

  lemma RemovedListed(m: Machine, id: nat)
    requires Listed(m)
    ensures Listed(Removed(m, id))
  {
    WithoutOne(m.order, id);
  }

  function RowAt(m: Machine, id: nat): Option<Req> {
    if id in m.reqs then Some(m.reqs[id]) else None
  }

  /** `m1` differs from `m` in row `id` at most, keeps the keys in order and no request's name but that row's. */
  ghost predicate OnlyRow(m: Machine, m1: Machine, id: nat) {
    && (Listed(m) ==> Listed(m1)) && m1.next == m.next
    && (forall j :: j != id ==> RowAt(m1, j) == RowAt(m, j))
    && (id in m1.reqs ==> id in m.reqs && m1.reqs[id].rid == m.reqs[id].rid)
  }

  lemma PutOnly(m: Machine, id: nat, r: Req)
    requires id in m.reqs && r.rid == m.reqs[id].rid
    ensures OnlyRow(m, Put(m, id, r), id)
  {
    if Listed(m) { PutListed(m, id, r); }
  }

  lemma RemovedOnly(m: Machine, id: nat)
    ensures OnlyRow(m, Removed(m, id), id)
  {
    if Listed(m) { RemovedListed(m, id); }
  }

  lemma GivenUpOnly(m: Machine, v: View, id: nat, r: Req, why: Reason)
    requires id in m.reqs && r.rid == m.reqs[id].rid
    ensures OnlyRow(m, GivenUp(m, v, id, r, why), id)
  {
    var m1 := Said(m.(cleared := m.cleared[id := v.now]), GaveUp(id, r.rid, r.phase.Resume?, r.owner.Some?, v));
    RemovedOnly(m1, id);
    var m2 := if r.owner.Some? then m1.(attempts := FailedAttempt(m1.attempts, id, v.now)) else m1;
    PutOnly(m2, id, r.(phase := Failed, why := Some(why)));
  }

  lemma WaitedOnly(m: Machine, v: View, id: nat, r: Req, idle: bool)
    requires id in m.reqs && r.rid == m.reqs[id].rid
    ensures OnlyRow(m, WaitedForBox(m, v, id, r, idle), id)
  {
    PutOnly(m, id, r.(idleSince := 0));
    PutOnly(m, id, r.(idleSince := v.now));
    GivenUpOnly(m, v, id, r, BoxInTheWay);
  }

  lemma CompactingOnly(m: Machine, v: View, id: nat)
    requires id in m.reqs
    ensures OnlyRow(m, StepCompacting(m, v, id, m.reqs[id]), id)
  {
    hide Listed, GivenUp;
    var r0 := m.reqs[id];
    var r1 := r0.(sawStart := true);
    PutOnly(m, id, r1);
    forall why ensures OnlyRow(m, GivenUp(m, v, id, r0, why), id)
                       && OnlyRow(Put(m, id, r1), GivenUp(Put(m, id, r1), v, id, r1, why), id) {
      GivenUpOnly(m, v, id, r0, why);
      GivenUpOnly(Put(m, id, r1), v, id, r1, why);
    }
  }

  lemma ResumeOnly(m: Machine, v: View, id: nat)
    requires id in m.reqs
    ensures OnlyRow(m, StepResume(m, v, id, m.reqs[id]), id)
  {
    var r := m.reqs[id];
    WaitedOnly(m, v, id, r, true);
    WaitedOnly(m, v, id, r, false);
    RemovedOnly(Said(m, TypedResume(id, r.rid, v)), id);
  }

  lemma HeldOffOnly(m: Machine, v: View, id: nat)
    requires id in m.reqs
    ensures OnlyRow(m, HeldOff(m, v, id, m.reqs[id]), id)
  {
    var r := m.reqs[id];
    RemovedOnly(if r.phase.Requested? then ReleasedRow(m, id, CalledOff(r.rid, r.owner), v) else m, id);
  }

  lemma RequestedOnly(m: Machine, v: View, id: nat)
    requires id in m.reqs
    ensures OnlyRow(m, StepRequested(m, v, id, m.reqs[id]), id)
  {
    var r := m.reqs[id];
    WaitedOnly(m, v, id, r, true);
    WaitedOnly(m, v, id, r, false);
    PutOnly(Said(m, TypedCompact(id, r.rid, v)), id,
            r.(phase := Compacting, typedAt := v.now, sawStart := false, refusedBefore := id in v.refusing, idleSince := 0));
  }

  lemma ResumingOnly(m: Machine, v: View, id: nat)
    requires id in m.reqs
    ensures OnlyRow(m, Resuming(m, v, id, m.reqs[id]), id) && id in Resuming(m, v, id, m.reqs[id]).reqs
  {
    var r := m.reqs[id];
    PutOnly(Said(m, SawResume(id, r.rid, v)), id, r.(phase := Resume, idleSince := if r.phase.Requested? then 0 else r.idleSince));
  }

  lemma EndedOnly(m: Machine, id: nat, now: nat)
    ensures OnlyRow(m, Ended(m, id, now), id)
  {
    RemovedOnly(m, id);
  }

  lemma OnlyTwice(m: Machine, m1: Machine, m2: Machine, id: nat)
    requires OnlyRow(m, m1, id) && OnlyRow(m1, m2, id)
    ensures OnlyRow(m, m2, id)
  {
  }

  lemma ResumedOnly(m: Machine, v: View, id: nat)
    requires id in m.reqs
    ensures var m1 := Resuming(m, v, id, m.reqs[id]);
            id in m1.reqs && OnlyRow(m, HeldOff(m1, v, id, m1.reqs[id]), id) && OnlyRow(m, StepResume(m1, v, id, m1.reqs[id]), id)
  {
    hide OnlyRow, HeldOff, StepResume;
    ResumingOnly(m, v, id);
    var m1 := Resuming(m, v, id, m.reqs[id]);
    HeldOffOnly(m1, v, id);
    ResumeOnly(m1, v, id);
    OnlyTwice(m, m1, HeldOff(m1, v, id, m1.reqs[id]), id);
    OnlyTwice(m, m1, StepResume(m1, v, id, m1.reqs[id]), id);
  }

  lemma NothingOnly(m: Machine, id: nat)
    ensures OnlyRow(m, m, id)
  {
  }

  /** A step moves its own row and no other. */
  lemma SteppedOnly(m: Machine, v: View, id: nat)
    ensures OnlyRow(m, Stepped(m, v, id), id)
  {
    hide OnlyRow, Ended, HeldOff, StepResume, StepRequested, StepCompacting, Resuming;
    NothingOnly(m, id);
    if Active(m, id) {
      EndedOnly(m, id, v.now);
      HeldOffOnly(m, v, id);
      ResumeOnly(m, v, id);
      RequestedOnly(m, v, id);
      CompactingOnly(m, v, id);
      ResumedOnly(m, v, id);
    }
  }

  // ---------- What a step makes of its row ----------

  function GivenUpRow(r: Req, why: Reason): Option<Req> {
    if r.phase.Resume? then None else Some(r.(phase := Failed, why := Some(why)))
  }

  function WaitedRow(r: Req, v: View, idle: bool): Option<Req> {
    if !idle then Some(r.(idleSince := 0))
    else if r.idleSince == 0 then Some(r.(idleSince := v.now))
    else if v.now - r.idleSince > IDLE_GIVE_UP then GivenUpRow(r, BoxInTheWay)
    else Some(r)
  }

  function ResumeRow(r: Req, v: View, id: nat): Option<Req> {
    if Blocker(v, id).Some? then WaitedRow(r, v, Blocker(v, id).value) else None
  }

  function RequestedRow(r: Req, v: View, id: nat): Option<Req> {
    if Blocker(v, id).Some? then WaitedRow(r, v, Blocker(v, id).value)
    else Some(r.(phase := Compacting, typedAt := v.now, sawStart := false, refusedBefore := id in v.refusing, idleSince := 0))
  }

  function CompactingRow(r0: Req, v: View, id: nat): Option<Req> {
    var e := EntryOf(v, id);
    var since := v.now - r0.typedAt;
    var r := if e.Some? && e.value.compacting then r0.(sawStart := true) else r0;
    if !r.refusedBefore && id in v.refusing then GivenUpRow(r, TooLittle)
    else if !r.sawStart && since > START_TIMEOUT then GivenUpRow(r, NeverStarted)
    else if r.sawStart && e.Some? && !e.value.compacting then GivenUpRow(r, EndedEarly)
    else if since > RUN_TIMEOUT then GivenUpRow(r, RanTooLong)
    else Some(r)
  }

  function ResumedRow(r: Req): Req {
    r.(phase := Resume, idleSince := if r.phase.Requested? then 0 else r.idleSince)
  }

  /** The row after its step, by the row alone. */
  function RowAfter(r: Req, v: View, id: nat): Option<Req>
    requires !r.phase.Failed?
  {
    if SessionOf(v, id).None? || SessionOf(v, id).value.exited then None
    else if v.holding && !r.phase.Compacting? then None
    else if r.phase.Resume? then ResumeRow(r, v, id)
    else if ReportsResume(v, id) then (if v.holding then None else ResumeRow(ResumedRow(r), v, id))
    else if r.phase.Requested? then RequestedRow(r, v, id)
    else CompactingRow(r, v, id)
  }

  lemma WaitedIs(m: Machine, v: View, id: nat, idle: bool)
    requires id in m.reqs
    ensures RowAt(WaitedForBox(m, v, id, m.reqs[id], idle), id) == WaitedRow(m.reqs[id], v, idle)
  {
  }

  lemma ResumeIs(m: Machine, v: View, id: nat)
    requires id in m.reqs
    ensures RowAt(StepResume(m, v, id, m.reqs[id]), id) == ResumeRow(m.reqs[id], v, id)
  {
    hide Blocker, WaitedForBox, WaitedRow;
    WaitedIs(m, v, id, true);
    WaitedIs(m, v, id, false);
  }

  lemma RequestedIs(m: Machine, v: View, id: nat)
    requires id in m.reqs
    ensures RowAt(StepRequested(m, v, id, m.reqs[id]), id) == RequestedRow(m.reqs[id], v, id)
  {
    hide Blocker, WaitedForBox, WaitedRow;
    WaitedIs(m, v, id, true);
    WaitedIs(m, v, id, false);
  }

  lemma CompactingIs(m: Machine, v: View, id: nat)
    requires id in m.reqs
    ensures RowAt(StepCompacting(m, v, id, m.reqs[id]), id) == CompactingRow(m.reqs[id], v, id)
  {
    hide EntryOf;
  }

  lemma ResumedIs(m: Machine, v: View, id: nat)
    requires id in m.reqs
    ensures RowAt(Resuming(m, v, id, m.reqs[id]), id) == Some(ResumedRow(m.reqs[id]))
  {
  }

  lemma HeldOffIs(m: Machine, v: View, id: nat)
    requires id in m.reqs
    ensures RowAt(HeldOff(m, v, id, m.reqs[id]), id) == None
  {
  }

  lemma SteppedIs(m: Machine, v: View, id: nat)
    requires Active(m, id)
    ensures RowAt(Stepped(m, v, id), id) == RowAfter(m.reqs[id], v, id)
  {
    hide HeldOff, StepResume, StepRequested, StepCompacting, Resuming, ResumeRow, RequestedRow, CompactingRow, ResumedRow;
    HeldOffIs(m, v, id);
    ResumeIs(m, v, id);
    RequestedIs(m, v, id);
    CompactingIs(m, v, id);
    ResumedIs(m, v, id);
    var m1 := Resuming(m, v, id, m.reqs[id]);
    assert id in m1.reqs;
    HeldOffIs(m1, v, id);
    ResumeIs(m1, v, id);
  }

  /** And looks at no other. */
  lemma SteppedAlike(m: Machine, n: Machine, v: View, id: nat)
    requires RowAt(m, id) == RowAt(n, id)
    ensures RowAt(Stepped(m, v, id), id) == RowAt(Stepped(n, v, id), id)
  {
    hide Stepped, RowAfter;
    if Active(m, id) {
      SteppedIs(m, v, id);
      SteppedIs(n, v, id);
    } else {
      StaysOver(m, v, id);
      StaysOver(n, v, id);
    }
  }

  lemma StaysOver(m: Machine, v: View, id: nat)
    requires !Active(m, id)
    ensures Stepped(m, v, id) == m
  {
  }

  lemma {:induction false} SteppedAllRow(m: Machine, v: View, ids: seq<nat>, id: nat)
    requires NoDup(ids)
    ensures var m1 := SteppedAll(m, v, ids);
            && RowAt(m1, id) == (if id in ids then RowAt(Stepped(m, v, id), id) else RowAt(m, id))
            && (Listed(m) ==> Listed(m1)) && m1.next == m.next
    decreases |ids|
  {
    hide Stepped, Listed;
    if |ids| != 0 {
      var m0 := Stepped(m, v, ids[0]);
      SteppedOnly(m, v, ids[0]);
      SteppedAllRow(m0, v, ids[1..], id);
      assert ids == [ids[0]] + ids[1..] && ids[0] !in ids[1..];
      if ids[0] != id {
        SteppedAlike(m, m0, v, id);
      }
    }
  }

  // ---------- How long one request takes ----------

  predicate Outstanding(m: Machine, id: nat, rid: int) {
    Active(m, id) && m.reqs[id].rid == rid
  }

  /** What a poll at `tick` leaves of a request it did not end. */
  predicate Timed(r: Req, tick: nat) {
    match r.phase
    case Requested => 0 < r.idleSince <= tick <= r.idleSince + IDLE_GIVE_UP
    case Compacting => r.typedAt <= tick <= r.typedAt + RUN_TIMEOUT
    case Resume => 0 < r.idleSince <= tick <= r.idleSince + IDLE_GIVE_UP
    case Failed => true
  }

  /** No poll after this finds it. */
  function EndBy(r: Req, gap: nat): nat {
    match r.phase
    case Requested => r.idleSince + IDLE_GIVE_UP + gap + RUN_TIMEOUT + gap + IDLE_GIVE_UP
    case Compacting => r.typedAt + RUN_TIMEOUT + gap + IDLE_GIVE_UP
    case Resume => r.idleSince + IDLE_GIVE_UP
    case Failed => 0
  }

  /** The row's turn is over unless the request is compacting. */
  predicate TurnOverUnlessCompacting(m: Machine, v: View, id: nat) {
    Active(m, id) && (!m.reqs[id].phase.Compacting? || ReportsResume(v, id)) ==> TurnOver(v, id)
  }

  /** The turn is over: only the box can be in the way. */
  lemma OnlyTheBox(v: View, id: nat)
    requires TurnOver(v, id) && v.known
    ensures Blocker(v, id).Some? ==> Blocker(v, id).value
  {
  }

  lemma ResumeTimes(r: Req, v: View, id: nat, tick: nat, gap: nat)
    requires r.phase.Resume? && TurnOver(v, id) && v.known && tick <= v.now <= tick + gap && 0 < v.now && r.idleSince <= tick
    ensures var r1 := ResumeRow(r, v, id);
            r1.Some? ==> r1.value.phase.Resume? && Timed(r1.value, v.now) && r1.value.idleSince == (if r.idleSince == 0 then v.now else r.idleSince)
                         && r1.value.typedAt == r.typedAt
  {
    OnlyTheBox(v, id);
  }

  lemma RequestedTimes(r: Req, v: View, id: nat, tick: nat, gap: nat)
    requires r.phase.Requested? && TurnOver(v, id) && v.known && tick <= v.now <= tick + gap && 0 < v.now
    requires r.idleSince <= tick && r.typedAt <= tick
    ensures var r1 := RequestedRow(r, v, id);
            r1.Some? && !r1.value.phase.Failed? ==>
              Timed(r1.value, v.now) && r1.value.typedAt <= v.now && r1.value.idleSince <= v.now
              && (r1.value.phase.Compacting? ==> r1.value.typedAt == v.now)
              && (r1.value.phase.Requested? ==> r1.value.idleSince == if r.idleSince == 0 then v.now else r.idleSince)
              && !r1.value.phase.Resume?
  {
    OnlyTheBox(v, id);
  }

  /** One poll ends the request or leaves it timed. */
  lemma RowTimes(r: Req, v: View, id: nat, tick: nat, gap: nat)
    requires !r.phase.Failed? && (!r.phase.Compacting? || ReportsResume(v, id) ==> TurnOver(v, id))
    requires tick <= v.now <= tick + gap && 0 < v.now && r.idleSince <= tick && r.typedAt <= tick
    ensures var r1 := RowAfter(r, v, id);
            r1.Some? && !r1.value.phase.Failed? ==>
              && Timed(r1.value, v.now) && r1.value.idleSince <= v.now && r1.value.typedAt <= v.now
              && EndBy(r1.value, gap) <= tick + 3 * gap + RUN_TIMEOUT + 2 * IDLE_GIVE_UP
              && (Timed(r, tick) ==> EndBy(r1.value, gap) <= EndBy(r, gap))
  {
    hide Blocker, TurnOver, ReportsResume, ResumeRow, RequestedRow;
    if SessionOf(v, id).Some? {
      if r.phase.Resume? {
        ResumeTimes(r, v, id, tick, gap);
      } else if ReportsResume(v, id) {
        ResumeTimes(ResumedRow(r), v, id, tick, gap);
      } else if r.phase.Requested? {
        RequestedTimes(r, v, id, tick, gap);
      }
    }
  }

  lemma PollTimes(m: Machine, v: View, id: nat, tick: nat, gap: nat)
    requires Active(m, id) && TurnOverUnlessCompacting(m, v, id)
    requires tick <= v.now <= tick + gap && 0 < v.now
    requires m.reqs[id].idleSince <= tick && m.reqs[id].typedAt <= tick
    ensures var m1 := Stepped(m, v, id);
            Active(m1, id) ==>
              && Timed(m1.reqs[id], v.now) && m1.reqs[id].idleSince <= v.now && m1.reqs[id].typedAt <= v.now
              && EndBy(m1.reqs[id], gap) <= BoundFrom(tick, gap)
              && (Timed(m.reqs[id], tick) ==> EndBy(m1.reqs[id], gap) <= EndBy(m.reqs[id], gap))
  {
    hide Stepped, RowAfter, Timed, EndBy;
    SteppedIs(m, v, id);
    RowTimes(m.reqs[id], v, id, tick, gap);
  }

  // ---------- Among all the calls ----------

  function BoundFrom(tick: nat, gap: nat): nat {
    tick + 3 * gap + RUN_TIMEOUT + 2 * IDLE_GIVE_UP
  }

  lemma StartedOnOther(m: Machine, v: View, c: nat, owner: Option<nat>, id: nat, rid: int)
    requires Listed(m) && rid < m.next && (c == id ==> !Active(m, id))
    ensures var m1 := StartedOn(m, v, c, owner);
            && Listed(m1) && rid < m1.next
            && (Outstanding(m1, id, rid) ==> RowAt(m1, id) == RowAt(m, id))
  {
    var m0 := Said(m.(next := m.next + 1), Started(c, m.next, owner, v));
    PutListed(m0, c, Req(m.next, Requested, 0, false, false, owner, 0, None));
    SteppedOnly(Named(m, v, c, owner), v, c);
  }

  lemma AutoStartOther(m: Machine, v: View, owner: nat, pct: nat, c: Session, id: nat, rid: int)
    requires Listed(m) && rid < m.next
    ensures var m1 := AutoStart(m, v, owner, pct, c);
            Listed(m1) && rid < m1.next && (Outstanding(m1, id, rid) ==> RowAt(m1, id) == RowAt(m, id))
  {
    if Fires(m, v, pct, c) {
      StartedOnOther(m.(attempts := m.attempts[c.id := None]), v, c.id, Some(owner), id, rid);
    }
  }

  lemma {:induction false} AutoStartsOther(m: Machine, v: View, owner: nat, pct: nat, rows: seq<Session>, id: nat, rid: int)
    requires Listed(m) && rid < m.next
    ensures var m1 := AutoStarts(m, v, owner, pct, rows);
            Listed(m1) && rid < m1.next && (Outstanding(m1, id, rid) ==> RowAt(m1, id) == RowAt(m, id))
    decreases |rows|
  {
    hide AutoStart, Listed;
    if |rows| != 0 {
      AutoStartOther(m, v, owner, pct, rows[0], id, rid);
      AutoStartsOther(AutoStart(m, v, owner, pct, rows[0]), v, owner, pct, rows[1..], id, rid);
    }
  }

  lemma {:induction false} AllStartsOther(m: Machine, v: View, list: seq<Session>, id: nat, rid: int)
    requires Listed(m) && rid < m.next
    ensures var m1 := AllRuleStarts(m, v, list);
            Listed(m1) && rid < m1.next && (Outstanding(m1, id, rid) ==> RowAt(m1, id) == RowAt(m, id))
    decreases |list|
  {
    hide Listed, AutoStarts;
    if |list| != 0 {
      var o := list[0];
      if o.autoCompact.Some? && !o.kind.Shell? {
        AutoStartsOther(m, v, o.id, o.autoCompact.value, [o] + Under(v, o.id), id, rid);
      }
      AllStartsOther(RuleStarts(m, v, o), v, list[1..], id, rid);
    }
  }

  lemma {:induction false} SweptRows(m: Machine, v: View, list: seq<Entry>)
    ensures var m1 := Swept(m, v, list); m1.reqs == m.reqs && m1.order == m.order && m1.next == m.next
    decreases |list|
  {
    if |list| != 0 {
      var e := list[0];
      SweptRows(if Orphan(m, v, e)
                then Said(m.(cleared := m.cleared[e.id := v.now]), EndedOrphan(e.id, e.phase != Some(FRequested), v))
                else m, v, list[1..]);
    }
  }

  lemma {:induction false} ReleasedRows(m: Machine, v: View, list: seq<Session>)
    ensures var m1 := ReleaseChecks(m, v, list); m1.reqs == m.reqs && m1.order == m.order && m1.next == m.next
    decreases |list|
  {
    if |list| != 0 {
      ReleasedRows(ReleaseCheck(m, v, list[0].id), v, list[1..]);
    }
  }

  predicate Polls(c: Call) {
    c.Poll? || (c.Tick? && c.v.known && !c.v.remote)
  }

  /** A call steps the request, if it polls, and otherwise leaves it or ends it. */
  lemma CallOnRequest(m: Machine, c: Call, id: nat, rid: int)
    requires Listed(m) && rid < m.next
    ensures var m1 := Called(m, c);
            && Listed(m1) && rid < m1.next
            && (Outstanding(m1, id, rid) ==>
                  Outstanding(m, id, rid) && RowAt(m1, id) == (if Polls(c) then RowAt(Stepped(m, c.v, id), id) else RowAt(m, id)))
  {
    hide Stepped;
    match c {
      case Poll(v) => StepsOnRequest(m, v, id, rid);
      case Tick(v) => if Polls(c) { TickOnRequest(m, v, id, rid); }
      case Toggle(j, v) => ToggleOnRequest(m, v, j, id, rid);
      case Drop(j, v) => RemovedOnly(ReleasedRow(m, j, Dropped, v), j);
      case NoticeDone(j) => RemovedOnly(m, j);
    }
  }

  lemma StepsOnRequest(m: Machine, v: View, id: nat, rid: int)
    requires Listed(m)
    ensures var m1 := SteppedAll(m, v, m.order);
            && Listed(m1) && m1.next == m.next
            && (Outstanding(m1, id, rid) ==> Outstanding(m, id, rid) && RowAt(m1, id) == RowAt(Stepped(m, v, id), id))
  {
    SteppedAllRow(m, v, m.order, id);
    SteppedOnly(m, v, id);
    if !Active(m, id) {
      StaysOver(m, v, id);
    }
  }

  lemma TickOnRequest(m: Machine, v: View, id: nat, rid: int)
    requires Listed(m) && rid < m.next && v.known && !v.remote
    ensures var m1 := Ticked(m, v);
            && Listed(m1) && rid < m1.next
            && (Outstanding(m1, id, rid) ==> Outstanding(m, id, rid) && RowAt(m1, id) == RowAt(Stepped(m, v, id), id))
  {
    hide Stepped, SteppedAll, Swept, ReleaseChecks, AllRuleStarts;
    StepsOnRequest(m, v, id, rid);
    var m1 := SteppedAll(m, v, m.order);
    SweptRows(m1, v, v.entries);
    var m2 := Swept(m1, v, v.entries);
    ReleasedRows(m2, v, v.sessions);
    AllStartsOther(ReleaseChecks(m2, v, v.sessions), v, v.sessions, id, rid);
  }

  lemma ToggleOnRequest(m: Machine, v: View, j: nat, id: nat, rid: int)
    requires Listed(m) && rid < m.next
    ensures var m1 := Toggled(m, v, j).0;
            && Listed(m1) && rid < m1.next
            && (Outstanding(m1, id, rid) ==> Outstanding(m, id, rid) && RowAt(m1, id) == RowAt(m, id))
  {
    hide StartedOn;
    if Active(m, j) {
      RemovedOnly(m, j);
    } else {
      StartedOnOther(m, v, j, None, id, rid);
    }
  }

  /** Polls come at most `gap` after one another, and find the turn over unless the request is compacting. */
  predicate Polled(m: Machine, id: nat, tick: nat, gap: nat, calls: seq<Call>)
    decreases |calls|
  {
    |calls| > 0 ==>
      && (Polls(calls[0]) ==> tick <= calls[0].v.now <= tick + gap && 0 < calls[0].v.now && TurnOverUnlessCompacting(m, calls[0].v, id))
      && Polled(Called(m, calls[0]), id, if Polls(calls[0]) then calls[0].v.now else tick, gap, calls[1..])
  }

  predicate PollAfter(late: nat, calls: seq<Call>) {
    |calls| > 0 && ((Polls(calls[0]) && calls[0].v.now > late) || PollAfter(late, calls[1..]))
  }

  /** A request that is over stays over: its name is not given again. */
  lemma {:induction false} OverForGood(m: Machine, id: nat, rid: int, calls: seq<Call>)
    requires Listed(m) && rid < m.next && !Outstanding(m, id, rid)
    ensures !Outstanding(Run(m, calls), id, rid)
    decreases |calls|
  {
    hide Called, Listed;
    if |calls| != 0 {
      CallOnRequest(m, calls[0], id, rid);
      OverForGood(Called(m, calls[0]), id, rid, calls[1..]);
    }
  }

  lemma {:induction false} TimedEnds(m: Machine, id: nat, rid: int, tick: nat, gap: nat, late: nat, calls: seq<Call>)
    requires Listed(m) && rid < m.next && Outstanding(m, id, rid) && Polled(m, id, tick, gap, calls)
    requires Timed(m.reqs[id], tick) && m.reqs[id].idleSince <= tick && m.reqs[id].typedAt <= tick
    requires EndBy(m.reqs[id], gap) <= late && PollAfter(late, calls)
    ensures !Outstanding(Run(m, calls), id, rid)
    decreases |calls|
  {
    hide Called, Stepped, Listed;
    var c := calls[0];
    var m1 := Called(m, c);
    CallOnRequest(m, c, id, rid);
    if !Outstanding(m1, id, rid) {
      OverForGood(m1, id, rid, calls[1..]);
    } else {
      if Polls(c) {
        PollTimes(m, c.v, id, tick, gap);
        NowBeforeEnd(m1.reqs[id], c.v.now, gap);
      }
      TimedEnds(m1, id, rid, if Polls(c) then c.v.now else tick, gap, late, calls[1..]);
    }
  }

  lemma NowBeforeEnd(r: Req, now: nat, gap: nat)
    requires Timed(r, now) && !r.phase.Failed?
    ensures now <= EndBy(r, gap)
  {
  }

  lemma {:induction false} EveryRunIsListed(m: Machine, calls: seq<Call>)
    requires Listed(m)
    ensures Listed(Run(m, calls))
    decreases |calls|
  {
    hide Called, Listed;
    if |calls| != 0 {
      CallOnRequest(m, calls[0], 0, -1);
      EveryRunIsListed(Called(m, calls[0]), calls[1..]);
    }
  }

  /**
   From any time `tick` at which it is outstanding, polls coming at most `gap` apart and its row's
   turn over whenever it is not compacting: a poll later than RUN_TIMEOUT + 2 IDLE_GIVE_UP + 3 `gap` after that leaves
   it ended, whatever other calls come between.
  */
  lemma {:induction false} RequestEnds(m: Machine, id: nat, rid: int, tick: nat, gap: nat, calls: seq<Call>)
    requires Listed(m) && rid < m.next && Outstanding(m, id, rid) && Polled(m, id, tick, gap, calls)
    requires m.reqs[id].idleSince <= tick && m.reqs[id].typedAt <= tick
    requires PollAfter(BoundFrom(tick, gap), calls)
    ensures !Outstanding(Run(m, calls), id, rid)
    decreases |calls|
  {
    hide Called, Stepped, Listed;
    var c := calls[0];
    var m1 := Called(m, c);
    CallOnRequest(m, c, id, rid);
    if !Outstanding(m1, id, rid) {
      OverForGood(m1, id, rid, calls[1..]);
    } else if Polls(c) {
      PollTimes(m, c.v, id, tick, gap);
      NowBeforeEnd(m1.reqs[id], c.v.now, gap);
      TimedEnds(m1, id, rid, c.v.now, gap, BoundFrom(tick, gap), calls[1..]);
    } else {
      RequestEnds(m1, id, rid, tick, gap, calls[1..]);
    }
  }

  /** Every request of every run ends so: its name is not given again, and the rest is kept by every call. */
  lemma EveryRequestEnds(past: seq<Call>, id: nat, tick: nat, gap: nat, calls: seq<Call>)
    requires Active(Run(IDLE_MACHINE, past), id) && Polled(Run(IDLE_MACHINE, past), id, tick, gap, calls)
    requires var r := Run(IDLE_MACHINE, past).reqs[id]; r.idleSince <= tick && r.typedAt <= tick
    requires PollAfter(BoundFrom(tick, gap), calls)
    ensures var m := Run(IDLE_MACHINE, past); !Outstanding(Run(m, calls), id, m.reqs[id].rid)
  {
    hide Run, Called, Stepped;
    var m := Run(IDLE_MACHINE, past);
    NothingListed();
    EveryRunIsListed(IDLE_MACHINE, past);
    NameIsOld(past, id);
    RequestEnds(m, id, m.reqs[id].rid, tick, gap, calls);
  }

  lemma NothingListed()
    ensures Listed(IDLE_MACHINE)
  {
  }

  lemma NameIsOld(past: seq<Call>, id: nat)
    requires Active(Run(IDLE_MACHINE, past), id)
    ensures var m := Run(IDLE_MACHINE, past); m.reqs[id].rid < m.next
  {
    CompactSafety.RunKeeps(IDLE_MACHINE, past);
  }
}
