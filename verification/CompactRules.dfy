/** What a compact tick must do: each request's step case by case, and that no rule, release or orphan is left undone. */
module CompactRules {
  import opened Wrappers
  import opened Compact
  import CompactEnds

  // ---------- One request's step, case by case ----------

  /** What a step leaves: the request, if there still is one, what was typed or said, and whether its file was cleared. */
  datatype After = After(req: Option<Req>, acts: seq<Act>, cleared: bool, attempt: Option<Option<nat>>)

  function AttemptOn(m: Machine, id: nat): Option<Option<nat>> {
    if id in m.attempts then Some(m.attempts[id]) else None
  }

  /** The request is over without a word. */
  function Quietly(m: Machine, id: nat): After {
    After(None, [], true, AttemptOn(m, id))
  }

  /** A request that gives up before it compacted: a notice stays, and an automatic attempt may retry later. */
  function Fails(m: Machine, v: View, id: nat, r: Req, why: Reason): After {
    After(Some(r.(phase := Phase.Failed, why := Some(why))), [GaveUp(id, r.rid, false, r.owner.Some?, v)], true,
          if r.owner.Some? && id in m.attempts then Some(Some(v.now + RETRY_AFTER)) else AttemptOn(m, id))
  }

  /** About to type the resume prompt. */
  function Resumes(m: Machine, v: View, id: nat, r: Req): After {
    if TurnOver(v, id) && BoxEmpty(v, id) then Quietly(m, id).(acts := [TypedResume(id, r.rid, v)])
    else if !TurnOver(v, id) then After(Some(r.(idleSince := 0)), [], false, AttemptOn(m, id))
    else if r.idleSince == 0 then After(Some(r.(idleSince := v.now)), [], false, AttemptOn(m, id))
    else if v.now - r.idleSince > IDLE_GIVE_UP then Quietly(m, id).(acts := [GaveUp(id, r.rid, true, r.owner.Some?, v)])
    else After(Some(r), [], false, AttemptOn(m, id))
  }

  /** Waiting for the turn to end, to type `/compact`. */
  function Waits(m: Machine, v: View, id: nat, r: Req): After {
    if TurnOver(v, id) && BoxEmpty(v, id) then
      After(Some(r.(phase := Phase.Compacting, typedAt := v.now, sawStart := false, refusedBefore := id in v.refusing, idleSince := 0)),
            [TypedCompact(id, r.rid, v)], false, AttemptOn(m, id))
    else if !TurnOver(v, id) then After(Some(r.(idleSince := 0)), [], false, AttemptOn(m, id))
    else if r.idleSince == 0 then After(Some(r.(idleSince := v.now)), [], false, AttemptOn(m, id))
    else if v.now - r.idleSince > IDLE_GIVE_UP then Fails(m, v, id, r, BoxInTheWay)
    else After(Some(r), [], false, AttemptOn(m, id))
  }

  /** `/compact` was typed. */
  function Compacts(m: Machine, v: View, id: nat, r: Req): After {
    var entry := EntryOf(v, id);
    var running := entry.Some? && entry.value.compacting;
    var r1 := r.(sawStart := r.sawStart || running);
    if id in v.refusing && !r.refusedBefore then Fails(m, v, id, r1, TooLittle)
    else if !r1.sawStart && v.now - r.typedAt > START_TIMEOUT then Fails(m, v, id, r1, NeverStarted)
    else if r1.sawStart && entry.Some? && !running then Fails(m, v, id, r1, EndedEarly)
    else if v.now - r.typedAt > RUN_TIMEOUT then Fails(m, v, id, r1, RanTooLong)
    else After(Some(r1), [], false, AttemptOn(m, id))
  }

  function Steps(m: Machine, v: View, id: nat): After
    requires Active(m, id)
  {
    var r := m.reqs[id];
    if SessionOf(v, id).None? || SessionOf(v, id).value.exited then Quietly(m, id)
    else if v.holding && r.phase.Requested? then After(None, [Released(id, CalledOff(r.rid, r.owner), v)], true, None)
    else if v.holding && r.phase.Resume? then Quietly(m, id)
    else if r.phase.Resume? then Resumes(m, v, id, r)
    else if ReportsResume(v, id) then
      var r1 := r.(phase := Phase.Resume, idleSince := if r.phase.Requested? then 0 else r.idleSince);
      var then_ := if v.holding then Quietly(m, id) else Resumes(m, v, id, r1);
      then_.(acts := [SawResume(id, r.rid, v)] + then_.acts)
    else if r.phase.Requested? then Waits(m, v, id, r)
    else Compacts(m, v, id, r)
  }

  ghost predicate Leaves(m: Machine, v: View, id: nat, m1: Machine, after: After) {
    && CompactEnds.RowAt(m1, id) == after.req && m1.trace == m.trace + after.acts
    && m1.cleared == (if after.cleared then m.cleared[id := v.now] else m.cleared)
    && AttemptOn(m1, id) == after.attempt && (forall o: nat :: o != id ==> AttemptOn(m1, o) == AttemptOn(m, o))
  }

  lemma SaysNothing(trace: seq<Act>)
    ensures trace + [] == trace
  {
  }

  lemma FailsExactly(m: Machine, v: View, id: nat, r: Req, why: Reason)
    requires id in m.reqs && !r.phase.Resume?
    ensures Leaves(m, v, id, GivenUp(m, v, id, r, why), Fails(m, v, id, r, why))
  {
  }

  lemma BlockedExactly(v: View, id: nat)
    requires v.known
    ensures Blocker(v, id) == if !TurnOver(v, id) then Some(false) else if BoxEmpty(v, id) then None else Some(true)
  {
  }

  lemma WaitsExactly(m: Machine, v: View, id: nat)
    requires id in m.reqs && m.reqs[id].phase.Requested? && v.known
    ensures Leaves(m, v, id, StepRequested(m, v, id, m.reqs[id]), Waits(m, v, id, m.reqs[id]))
  {
    hide Blocker, TurnOver, BoxEmpty, GivenUp, Fails;
    BlockedExactly(v, id);
    SaysNothing(m.trace);
    FailsExactly(m, v, id, m.reqs[id], BoxInTheWay);
  }

  lemma ResumesExactly(m: Machine, v: View, id: nat, r: Req)
    requires id in m.reqs && m.reqs[id] == r && r.phase.Resume? && v.known
    ensures Leaves(m, v, id, StepResume(m, v, id, r), Resumes(m, v, id, r))
  {
    hide Blocker, TurnOver, BoxEmpty;
    BlockedExactly(v, id);
    SaysNothing(m.trace);
  }

  lemma CompactsExactly(m: Machine, v: View, id: nat)
    requires id in m.reqs && m.reqs[id].phase.Compacting?
    ensures Leaves(m, v, id, StepCompacting(m, v, id, m.reqs[id]), Compacts(m, v, id, m.reqs[id]))
  {
    hide GivenUp, Fails, EntryOf;
    var r := m.reqs[id];
    var e := EntryOf(v, id);
    var starts := e.Some? && e.value.compacting && !r.sawStart;
    var r1 := if starts then r.(sawStart := true) else r;
    var m1 := if starts then Put(m, id, r1) else m;
    SaysNothing(m.trace);
    forall why ensures Leaves(m, v, id, GivenUp(m1, v, id, r1, why), Fails(m, v, id, r1, why)) {
      FailsExactly(m1, v, id, r1, why);
      SameButTheRow(m, m1, v, id, r1, why);
    }
  }

  lemma SameButTheRow(m: Machine, m1: Machine, v: View, id: nat, r: Req, why: Reason)
    requires m1.trace == m.trace && m1.cleared == m.cleared && m1.attempts == m.attempts
    requires Leaves(m1, v, id, GivenUp(m1, v, id, r, why), Fails(m1, v, id, r, why))
    ensures Leaves(m, v, id, GivenUp(m1, v, id, r, why), Fails(m, v, id, r, why))
  {
    hide GivenUp;
  }

  lemma ResumedExactly(m: Machine, v: View, id: nat)
    requires Active(m, id) && v.known && !v.holding && !m.reqs[id].phase.Resume? && ReportsResume(v, id)
    requires SessionOf(v, id).Some? && !SessionOf(v, id).value.exited
    ensures Leaves(m, v, id, Stepped(m, v, id), Steps(m, v, id))
  {
    hide StepResume, Resumes, SessionOf, ReportsResume;
    var m1 := Resuming(m, v, id, m.reqs[id]);
    ResumesExactly(m1, v, id, m1.reqs[id]);
    ResumedFrom(m, m1, v, id, m1.reqs[id]);
  }

  lemma ResumedFrom(m: Machine, m1: Machine, v: View, id: nat, r: Req)
    requires m1.trace == m.trace + [SawResume(id, r.rid, v)] && m1.cleared == m.cleared && m1.attempts == m.attempts
    requires Leaves(m1, v, id, StepResume(m1, v, id, r), Resumes(m1, v, id, r))
    ensures var then_ := Resumes(m, v, id, r);
            Leaves(m, v, id, StepResume(m1, v, id, r), then_.(acts := [SawResume(id, r.rid, v)] + then_.acts))
  {
    hide StepResume, TurnOver, BoxEmpty;
    var acts := Resumes(m, v, id, r).acts;
    assert (m.trace + [SawResume(id, r.rid, v)]) + acts == m.trace + ([SawResume(id, r.rid, v)] + acts);
  }

  lemma HeldExactly(m: Machine, v: View, id: nat)
    requires Active(m, id) && v.holding && SessionOf(v, id).Some? && !SessionOf(v, id).value.exited
    requires !m.reqs[id].phase.Compacting? || ReportsResume(v, id)
    ensures Leaves(m, v, id, Stepped(m, v, id), Steps(m, v, id))
  {
    hide SessionOf, ReportsResume;
    SaysNothing(m.trace);
    assert [SawResume(id, m.reqs[id].rid, v)] + [] == [SawResume(id, m.reqs[id].rid, v)];
  }

  /** A step leaves exactly what the table says, of this row; `CompactEnds.SteppedOnly` says that it touches no other. */
  lemma StepExactly(m: Machine, v: View, id: nat)
    requires Active(m, id)
    ensures Leaves(m, v, id, Stepped(m, v, id), Steps(m, v, id))
  {
    hide StepRequested, StepCompacting, StepResume, Waits, Compacts, Resumes, ReportsResume, Leaves;
    var r := m.reqs[id];
    if SessionOf(v, id).None? || SessionOf(v, id).value.exited {
      EndsExactly(m, v, id);
    } else if v.holding && (!r.phase.Compacting? || ReportsResume(v, id)) {
      HeldExactly(m, v, id);
    } else if r.phase.Resume? {
      ResumesExactly(m, v, id, r);
    } else if ReportsResume(v, id) {
      ResumedExactly(m, v, id);
    } else if r.phase.Requested? {
      WaitsExactly(m, v, id);
    } else {
      CompactsExactly(m, v, id);
    }
  }

  lemma EndsExactly(m: Machine, v: View, id: nat)
    ensures Leaves(m, v, id, Ended(m, id, v.now), Quietly(m, id))
  {
    SaysNothing(m.trace);
  }

  // ---------- The user's command ----------

  /** The command starts a request on a running row that has none, cancels the one it has, and refuses otherwise. */
  lemma TogglesExactly(m: Machine, v: View, id: nat)
    ensures var (m1, answer) := Toggled(m, v, id); var s := SessionOf(v, id);
            var running := s.Some? && !s.value.kind.Shell? && !s.value.exited && !s.value.failed;
            && (answer == (if !running then NothingToCompact else if Active(m, id) || !v.holding then Ok else Quitting))
            && (answer != Ok ==> m1 == m)
            && (answer == Ok && Active(m, id) ==> Leaves(m, v, id, m1, Quietly(m, id)))
            && (answer == Ok && !Active(m, id) ==>
                  var begun := Named(m, v, id, None);
                  && begun.trace == m.trace + [Started(id, m.next, None, v)] && begun.next == m.next + 1
                  && begun.reqs == m.reqs[id := Req(m.next, Phase.Requested, 0, false, false, None, 0, None)]
                  && begun.attempts == m.attempts && Leaves(begun, v, id, m1, Steps(begun, v, id)))
  {
    hide Stepped, Steps, SessionOf, Leaves;
    if Active(m, id) {
      EndsExactly(m, v, id);
    } else {
      StepExactly(Named(m, v, id, None), v, id);
    }
  }

  /** The notice of a request that failed goes, and of no other; no other row is touched. */
  lemma NoticeGoes(m: Machine, id: nat)
    ensures var m1 := NoticeOver(m, id);
            && (id in m1.reqs <==> id in m.reqs && Active(m, id))
            && (forall o: nat :: o != id || Active(m, id) ==> CompactEnds.RowAt(m1, o) == CompactEnds.RowAt(m, o))
            && m1 == m.(order := m1.order, reqs := m1.reqs)
  {
  }

  /** A dropped row has no request and no attempt left, and its phase file is cleared if it had a request. */
  lemma DropsExactly(m: Machine, v: View, id: nat)
    ensures var m1 := DroppedRow(m, v, id);
            && id !in m1.reqs && AttemptOn(m1, id).None? && m1.trace == m.trace + [Released(id, Dropped, v)]
            && m1.cleared == (if id in m.reqs then m.cleared[id := v.now] else m.cleared)
            && (forall o: nat :: o != id ==> CompactEnds.RowAt(m1, o) == CompactEnds.RowAt(m, o) && AttemptOn(m1, o) == AttemptOn(m, o))
  {
  }

  // ---------- Nothing is left undone ----------

  /** A start keeps the row's attempt held, and every other row's attempt as it was. */
  lemma StartHolds(m: Machine, v: View, id: nat, owner: nat)
    requires !v.holding && !Active(m, id) && AttemptOn(m, id) == Some(None)
    ensures AttemptOn(StartedOn(m, v, id, Some(owner)), id) == Some(None)
    ensures forall o: nat :: o != id ==> AttemptOn(StartedOn(m, v, id, Some(owner)), o) == AttemptOn(m, o)
                                         && CompactEnds.RowAt(StartedOn(m, v, id, Some(owner)), o) == CompactEnds.RowAt(m, o)
  {
    hide Stepped;
    var begun := Named(m, v, id, Some(owner));
    StepExactly(begun, v, id);
    CompactEnds.SteppedOnly(begun, v, id);
    FreshHolds(begun, v, id);
  }

  /** A new request cannot fail at its first step. */
  lemma FreshHolds(m: Machine, v: View, id: nat)
    requires !v.holding && Active(m, id) && m.reqs[id].phase.Requested? && m.reqs[id].idleSince == 0
    ensures Steps(m, v, id).attempt == AttemptOn(m, id)
  {
  }

  /** The row is at work on a compact, or its attempt is held. */
  ghost predicate Taken(m: Machine, v: View, id: nat) {
    Active(m, id) || Blocks(m.attempts, id, v.now)
  }

  /** A running claude whose context has reached the rule, and that is not being saved. */
  ghost predicate Eligible(v: View, pct: nat, c: Session) {
    c.id in v.ctx && v.ctx[c.id] >= pct && c.kind.Claude? && !c.exited && !c.failed && c.id !in v.saving
  }

  /** The rule starts the row if it is eligible and not taken; nobody else is let go. */
  lemma StartedRow(m: Machine, v: View, owner: nat, pct: nat, c: Session)
    requires !v.holding
    ensures var m1 := AutoStart(m, v, owner, pct, c);
            && (Eligible(v, pct, c) ==> Taken(m1, v, c.id))
            && forall o: nat :: Taken(m, v, o) ==> Taken(m1, v, o)
  {
    hide StartedOn;
    if Fires(m, v, pct, c) {
      var m0 := m.(attempts := m.attempts[c.id := None]);
      StartHolds(m0, v, c.id, owner);
      var m1 := StartedOn(m0, v, c.id, Some(owner));
      forall o: nat | Taken(m, v, o) ensures Taken(m1, v, o) {
        if o != c.id {
          assert AttemptOn(m1, o) == AttemptOn(m0, o) == AttemptOn(m, o);
          assert CompactEnds.RowAt(m1, o) == CompactEnds.RowAt(m, o);
        }
      }
    }
  }

  lemma {:induction false} StartedRows(m: Machine, v: View, owner: nat, pct: nat, rows: seq<Session>)
    requires !v.holding
    ensures var m1 := AutoStarts(m, v, owner, pct, rows);
            && (forall c :: c in rows && Eligible(v, pct, c) ==> Taken(m1, v, c.id))
            && forall o: nat :: Taken(m, v, o) ==> Taken(m1, v, o)
    decreases |rows|
  {
    hide AutoStart, Taken, Eligible;
    if |rows| > 0 {
      StartedRow(m, v, owner, pct, rows[0]);
      StartedRows(AutoStart(m, v, owner, pct, rows[0]), v, owner, pct, rows[1..]);
      assert rows == [rows[0]] + rows[1..];
    }
  }

  /** The rule of `o` is on row `c`: its own, or one under it. */
  ghost predicate RuledBy(v: View, o: Session, c: Session) {
    o.autoCompact.Some? && !o.kind.Shell? && (c == o || c in Under(v, o.id))
  }

  lemma RuleIsApplied(m: Machine, v: View, o: Session)
    requires !v.holding
    ensures var m1 := RuleStarts(m, v, o);
            && (forall c :: RuledBy(v, o, c) && Eligible(v, o.autoCompact.value, c) ==> Taken(m1, v, c.id))
            && forall i: nat :: Taken(m, v, i) ==> Taken(m1, v, i)
  {
    hide AutoStarts, Taken, Eligible;
    if o.autoCompact.Some? && !o.kind.Shell? {
      StartedRows(m, v, o.id, o.autoCompact.value, [o] + Under(v, o.id));
      assert forall c :: c == o || c in Under(v, o.id) ==> c in [o] + Under(v, o.id);
    }
  }

  lemma {:induction false} RulesAreApplied(m: Machine, v: View, list: seq<Session>)
    requires !v.holding
    ensures var m1 := AllRuleStarts(m, v, list);
            && (forall o, c :: o in list && RuledBy(v, o, c) && Eligible(v, o.autoCompact.value, c) ==> Taken(m1, v, c.id))
            && forall i: nat :: Taken(m, v, i) ==> Taken(m1, v, i)
    decreases |list|
  {
    hide RuleStarts, Taken, Eligible;
    if |list| > 0 {
      RuleIsApplied(m, v, list[0]);
      RulesAreApplied(RuleStarts(m, v, list[0]), v, list[1..]);
      assert list == [list[0]] + list[1..];
    }
  }

  /**
   After a tick no rule is left unapplied: each running claude that a rule is on, its own or that of a row above it, and
   whose context has reached it, is being compacted, or had its attempt and waits, or is being saved.
  */
  lemma EveryRuleIsApplied(m: Machine, v: View, o: Session, c: Session)
    requires !v.remote && v.known && !v.holding && o in v.sessions && RuledBy(v, o, c)
    requires c.kind.Claude? && !c.exited && !c.failed && c.id in v.ctx && v.ctx[c.id] >= o.autoCompact.value
    ensures var m1 := Ticked(m, v); Active(m1, c.id) || Blocks(m1.attempts, c.id, v.now) || c.id in v.saving
  {
    hide SteppedAll, Swept, ReleaseChecks, AllRuleStarts;
    RulesAreApplied(ReleaseChecks(Swept(SteppedAll(m, v, m.order), v, v.entries), v, v.sessions), v, v.sessions);
  }

  /** The attempt on the row is to be freed. */
  ghost predicate ToFree(m: Machine, v: View, id: nat) {
    id in m.attempts && !Active(m, id) && SeenBelow(v, id)
  }

  lemma {:induction false} ChecksFree(m: Machine, v: View, list: seq<Session>)
    ensures var m1 := ReleaseChecks(m, v, list);
            && m1.reqs == m.reqs && m1.order == m.order && m1.cleared == m.cleared && m1.next == m.next
            && (forall s :: s in list ==> !ToFree(m1, v, s.id))
            && (forall id: nat :: id in m1.attempts ==> id in m.attempts && m1.attempts[id] == m.attempts[id])
            && (forall id: nat :: id in m.attempts && id !in m1.attempts ==> ToFree(m, v, id))
    decreases |list|
  {
    hide SeenBelow;
    if |list| > 0 {
      ChecksFree(ReleaseCheck(m, v, list[0].id), v, list[1..]);
      assert list == [list[0]] + list[1..];
    }
  }

  /** The tick ends every orphan: no phase file that no request is behind is left, unless it was cleared just now. */
  lemma {:induction false} SweepsAll(m: Machine, v: View, list: seq<Entry>)
    ensures var m1 := Swept(m, v, list);
            && m1.reqs == m.reqs && m1.attempts == m.attempts && m1.order == m.order
            && (forall e :: e in list ==> !Orphan(m1, v, e))
            && (forall id: nat :: id in m.cleared ==> id in m1.cleared && (m1.cleared[id] == m.cleared[id] || m1.cleared[id] == v.now))
            && (forall id: nat :: id in m1.cleared && id !in m.cleared ==> m1.cleared[id] == v.now)
    decreases |list|
  {
    if |list| > 0 {
      var e := list[0];
      var m0 := if Orphan(m, v, e)
                then Said(m.(cleared := m.cleared[e.id := v.now]), EndedOrphan(e.id, e.phase != Some(FRequested), v)) else m;
      SweepsAll(m0, v, list[1..]);
      assert list == [list[0]] + list[1..];
      assert !Orphan(m0, v, e);
    }
  }

  /** A tick under a hold leaves every listed row's attempt that is to be freed freed, and every orphan ended. */
  lemma HeldTickFrees(m: Machine, v: View)
    requires !v.remote && v.known && v.holding
    ensures var m1 := Ticked(m, v);
            && (forall s :: s in v.sessions ==> !ToFree(m1, v, s.id))
            && (forall e :: e in v.entries ==> !Orphan(m1, v, e))
  {
    hide SteppedAll, Swept, ReleaseChecks, SeenBelow;
    var m0 := SteppedAll(m, v, m.order);
    SweepsAll(m0, v, v.entries);
    ChecksFree(Swept(m0, v, v.entries), v, v.sessions);
  }

  // ---------- Only rules start ----------

  /** The trace grew, by no start. */
  ghost predicate NoStart(m: Machine, m1: Machine) {
    m.trace <= m1.trace && forall k :: |m.trace| <= k < |m1.trace| ==> !m1.trace[k].Started?
  }

  /** The trace grew, and what was started was started by a rule on an eligible row, which names its owner. */
  ghost predicate ByRule(v: View, m: Machine, m1: Machine) {
    && m.trace <= m1.trace
    && forall k :: |m.trace| <= k < |m1.trace| && m1.trace[k].Started? ==> RuleStart(v, m1.trace[k])
  }

  ghost predicate RuleStart(v: View, a: Act) {
    a.Started? && exists o, c :: o in v.sessions && RuledBy(v, o, c) && Eligible(v, o.autoCompact.value, c)
                                 && a.id == c.id && a.owner == Some(o.id) && a.v == v
  }

  lemma NoStartByRule(v: View, m: Machine, m1: Machine, m2: Machine)
    requires NoStart(m, m1) && ByRule(v, m1, m2)
    ensures ByRule(v, m, m2)
  {
  }

  lemma ByRuleOn(v: View, m: Machine, m1: Machine, m2: Machine)
    requires ByRule(v, m, m1) && ByRule(v, m1, m2)
    ensures ByRule(v, m, m2)
  {
    hide RuleStart;
    forall k | |m.trace| <= k < |m2.trace| && m2.trace[k].Started? ensures RuleStart(v, m2.trace[k]) {
      if k < |m1.trace| {
        assert m2.trace[k] == m1.trace[k];
      }
    }
  }

  lemma NoStartOn(m: Machine, m1: Machine, m2: Machine)
    requires NoStart(m, m1) && NoStart(m1, m2)
    ensures NoStart(m, m2)
  {
    forall k | |m.trace| <= k < |m2.trace| ensures !m2.trace[k].Started? {
      if k < |m1.trace| {
        assert m2.trace[k] == m1.trace[k];
      }
    }
  }

  lemma StepStartsNothing(m: Machine, v: View, id: nat)
    ensures NoStart(m, Stepped(m, v, id))
  {
    hide TurnOver, BoxEmpty, ReportsResume, SessionOf, EntryOf;
    if Active(m, id) {
      StepExactly(m, v, id);
      assert forall k :: 0 <= k < |Steps(m, v, id).acts| ==> !Steps(m, v, id).acts[k].Started? by {
        ActsAreNoStart(m, v, id);
      }
    }
  }

  lemma ActsAreNoStart(m: Machine, v: View, id: nat)
    requires Active(m, id)
    ensures forall k :: 0 <= k < |Steps(m, v, id).acts| ==> !Steps(m, v, id).acts[k].Started?
  {
    hide TurnOver, BoxEmpty, ReportsResume, SessionOf, EntryOf;
  }

  lemma {:induction false} StepsStartNothing(m: Machine, v: View, ids: seq<nat>)
    ensures NoStart(m, SteppedAll(m, v, ids))
    decreases |ids|
  {
    hide Stepped, NoStart;
    if |ids| > 0 {
      StepStartsNothing(m, v, ids[0]);
      StepsStartNothing(Stepped(m, v, ids[0]), v, ids[1..]);
      NoStartOn(m, Stepped(m, v, ids[0]), SteppedAll(m, v, ids));
    } else {
      NothingStarted(m);
    }
  }

  lemma NothingStarted(m: Machine)
    ensures NoStart(m, m)
  {
  }

  lemma {:induction false} SweepStartsNothing(m: Machine, v: View, list: seq<Entry>)
    ensures NoStart(m, Swept(m, v, list))
    decreases |list|
  {
    if |list| > 0 {
      var e := list[0];
      var m0 := if Orphan(m, v, e)
                then Said(m.(cleared := m.cleared[e.id := v.now]), EndedOrphan(e.id, e.phase != Some(FRequested), v)) else m;
      assert NoStart(m, m0);
      SweepStartsNothing(m0, v, list[1..]);
      NoStartOn(m, m0, Swept(m, v, list));
    }
  }

  lemma {:induction false} ChecksStartNothing(m: Machine, v: View, list: seq<Session>)
    ensures NoStart(m, ReleaseChecks(m, v, list))
    decreases |list|
  {
    hide SeenBelow;
    if |list| > 0 {
      var m0 := ReleaseCheck(m, v, list[0].id);
      assert NoStart(m, m0);
      ChecksStartNothing(m0, v, list[1..]);
      NoStartOn(m, m0, ReleaseChecks(m, v, list));
    }
  }

  lemma RowStartsByRule(m: Machine, v: View, o: Session, c: Session)
    requires o in v.sessions && RuledBy(v, o, c)
    ensures ByRule(v, m, AutoStart(m, v, o.id, o.autoCompact.value, c))
  {
    hide Stepped;
    if Fires(m, v, o.autoCompact.value, c) {
      var m0 := m.(attempts := m.attempts[c.id := None]);
      var begun := Named(m0, v, c.id, Some(o.id));
      assert Eligible(v, o.autoCompact.value, c);
      assert begun.trace == m.trace + [Started(c.id, m.next, Some(o.id), v)];
      assert RuleStart(v, Started(c.id, m.next, Some(o.id), v));
      StepStartsNothing(begun, v, c.id);
      StartThenNone(v, m, begun, Stepped(begun, v, c.id));
    }
  }

  lemma StartThenNone(v: View, m: Machine, m1: Machine, m2: Machine)
    requires |m1.trace| == |m.trace| + 1 && m.trace <= m1.trace && RuleStart(v, m1.trace[|m.trace|]) && NoStart(m1, m2)
    ensures ByRule(v, m, m2)
  {
    hide RuleStart;
    forall k | |m.trace| <= k < |m2.trace| && m2.trace[k].Started? ensures RuleStart(v, m2.trace[k]) {
      assert k < |m1.trace| && m2.trace[k] == m1.trace[k];
    }
  }

  lemma {:induction false} RowsStartByRule(m: Machine, v: View, o: Session, rows: seq<Session>)
    requires o in v.sessions && o.autoCompact.Some? && forall c :: c in rows ==> RuledBy(v, o, c)
    ensures ByRule(v, m, AutoStarts(m, v, o.id, o.autoCompact.value, rows))
    decreases |rows|
  {
    hide AutoStart, ByRule, RuledBy;
    if |rows| > 0 {
      var m0 := AutoStart(m, v, o.id, o.autoCompact.value, rows[0]);
      RowStartsByRule(m, v, o, rows[0]);
      RowsStartByRule(m0, v, o, rows[1..]);
      ByRuleOn(v, m, m0, AutoStarts(m, v, o.id, o.autoCompact.value, rows));
    } else {
      NothingByRule(v, m);
    }
  }

  lemma NothingByRule(v: View, m: Machine)
    ensures ByRule(v, m, m)
  {
  }

  lemma {:induction false} RulesStartByRule(m: Machine, v: View, list: seq<Session>)
    requires forall o :: o in list ==> o in v.sessions
    ensures ByRule(v, m, AllRuleStarts(m, v, list))
    decreases |list|
  {
    hide AutoStarts, ByRule;
    NothingByRule(v, m);
    if |list| > 0 {
      var o := list[0];
      var m0 := RuleStarts(m, v, o);
      if o.autoCompact.Some? && !o.kind.Shell? {
        RowsStartByRule(m, v, o, [o] + Under(v, o.id));
      }
      RulesStartByRule(m0, v, list[1..]);
      ByRuleOn(v, m, m0, AllRuleStarts(m, v, list));
    }
  }

  /** A tick starts nothing but what a rule is on, its own or that of a row above it, and the start names that row. */
  lemma OnlyRulesStart(m: Machine, v: View)
    ensures ByRule(v, m, Ticked(m, v))
  {
    hide SteppedAll, Swept, ReleaseChecks, AllRuleStarts, ByRule, NoStart;
    NothingByRule(v, m);
    if !v.remote && v.known {
      var m1 := SteppedAll(m, v, m.order);
      var m2 := Swept(m1, v, v.entries);
      var m3 := ReleaseChecks(m2, v, v.sessions);
      StepsStartNothing(m, v, m.order);
      SweepStartsNothing(m1, v, v.entries);
      ChecksStartNothing(m2, v, v.sessions);
      NoStartOn(m, m1, m2);
      NoStartOn(m, m2, m3);
      NothingByRule(v, m3);
      RulesStartByRule(m3, v, v.sessions);
      NoStartByRule(v, m, m3, Ticked(m, v));
    }
  }

  // ---------- What is looked up ----------

  /** The first of a list with that id. */
  lemma {:induction false} FoundSession(list: seq<Session>, id: nat)
    ensures match FindSession(list, id)
            case Some(s) => exists i :: 0 <= i < |list| && list[i] == s && s.id == id && forall j :: 0 <= j < i ==> list[j].id != id
            case None => forall j :: 0 <= j < |list| ==> list[j].id != id
  {
    if |list| > 0 && list[0].id != id {
      FoundSession(list[1..], id);
      match FindSession(list, id) {
        case Some(s) =>
          var i :| 0 <= i < |list[1..]| && list[1..][i] == s && s.id == id && forall j :: 0 <= j < i ==> list[1..][j].id != id;
          assert list[i + 1] == s;
          forall j | 0 <= j < i + 1 ensures list[j].id != id {
            assert j > 0 ==> list[j] == list[1..][j - 1];
          }
        case None => assert forall j :: 0 < j < |list| ==> list[j] == list[1..][j - 1];
      }
    }
  }

  lemma {:induction false} FoundEntry(list: seq<Entry>, id: nat)
    ensures match FindEntry(list, id)
            case Some(e) => exists i :: 0 <= i < |list| && list[i] == e && e.id == id && forall j :: 0 <= j < i ==> list[j].id != id
            case None => forall j :: 0 <= j < |list| ==> list[j].id != id
  {
    if |list| > 0 && list[0].id != id {
      FoundEntry(list[1..], id);
      match FindEntry(list, id) {
        case Some(e) =>
          var i :| 0 <= i < |list[1..]| && list[1..][i] == e && e.id == id && forall j :: 0 <= j < i ==> list[1..][j].id != id;
          assert list[i + 1] == e;
          forall j | 0 <= j < i + 1 ensures list[j].id != id {
            assert j > 0 ==> list[j] == list[1..][j - 1];
          }
        case None => assert forall j :: 0 < j < |list| ==> list[j] == list[1..][j - 1];
      }
    }
  }

  /** The rule of row `o` is on row `id`: it is that row, or one above it. */
  ghost predicate RuleOn(v: View, o: Session, id: nat) {
    o.autoCompact.Some? && (o.id == id || exists i :: 0 <= i < |Under(v, o.id)| && Under(v, o.id)[i].id == id)
  }

  lemma CoversIs(v: View, o: Session, id: nat)
    ensures o.autoCompact.Some? && Covers(v, o, id) <==> RuleOn(v, o, id)
  {
  }

  /** The rule found for a row is the lowest that is on it: one of them, and none is lower; there is none if none is on it. */
  lemma {:induction false} LowestRuleExactly(v: View, list: seq<Session>, id: nat)
    ensures match RuleFor(v, list, id)
            case Some(pct) =>
              && (exists o :: o in list && RuleOn(v, o, id) && o.autoCompact.value == pct)
              && forall o :: o in list && RuleOn(v, o, id) ==> pct <= o.autoCompact.value
            case None => forall o :: o in list ==> !RuleOn(v, o, id)
  {
    hide Covers, RuleOn;
    if |list| > 0 {
      var init, last := list[..|list| - 1], list[|list| - 1];
      LowestRuleExactly(v, init, id);
      CoversIs(v, last, id);
      assert list == init + [last];
      NoRuleNotOn(v, last, id);
    }
  }

  lemma NoRuleNotOn(v: View, o: Session, id: nat)
    ensures RuleOn(v, o, id) ==> o.autoCompact.Some?
  {
  }

  /** A row may not be started while its attempt is held, until its retry time if it has one. */
  lemma HeldUntil(m: Machine, id: nat, now: nat)
    ensures Blocks(m.attempts, id, now) <==>
            match AttemptOn(m, id)
            case None => false
            case Some(None) => true
            case Some(Some(at)) => !(now >= at)
  {
  }

  /** A phase file that no request is behind, of a running row, not cleared within the last five seconds. */
  ghost predicate IsOrphan(m: Machine, v: View, e: Entry) {
    && e.phase.Some? && e.id !in m.reqs
    && (e.id in m.cleared ==> v.now - m.cleared[e.id] >= 5000) && (e.id !in m.cleared ==> v.now >= 5000)
    && exists i :: 0 <= i < |v.sessions| && v.sessions[i].id == e.id && !v.sessions[i].exited
  }

  lemma OrphanExactly(m: Machine, v: View, e: Entry)
    ensures Orphan(m, v, e) <==> IsOrphan(m, v, e)
  {
    if IsOrphan(m, v, e) {
      var i :| 0 <= i < |v.sessions| && v.sessions[i].id == e.id && !v.sessions[i].exited;
      assert v.sessions[i] in v.sessions;
    }
  }

  /** The act ends an orphan of the list, and tells its row whether it had compacted. */
  ghost predicate EndsOrphan(m: Machine, v: View, list: seq<Entry>, a: Act) {
    exists e :: e in list && IsOrphan(m, v, e) && a == EndedOrphan(e.id, e.phase != Some(FRequested), v)
  }

  ghost predicate EndedSince(trace: seq<Act>, from: nat, id: nat) {
    exists k :: from <= k < |trace| && trace[k].EndedOrphan? && trace[k].id == id
  }

  /** What the sweep does: each orphan's file is ended, and nothing else. */
  lemma {:induction false} SweepEndsOrphans(m: Machine, v: View, list: seq<Entry>)
    ensures var m1 := Swept(m, v, list);
            && m.trace <= m1.trace
            && (forall k :: |m.trace| <= k < |m1.trace| ==> EndsOrphan(m, v, list, m1.trace[k]))
            && (forall e :: e in list && IsOrphan(m, v, e) ==> EndedSince(m1.trace, |m.trace|, e.id))
    decreases |list|
  {
    hide IsOrphan, Orphan, EndsOrphan, EndedSince;
    if |list| > 0 {
      var e := list[0];
      OrphanExactly(m, v, e);
      var act := EndedOrphan(e.id, e.phase != Some(FRequested), v);
      var m0 := if Orphan(m, v, e) then Said(m.(cleared := m.cleared[e.id := v.now]), act) else m;
      SweepEndsOrphans(m0, v, list[1..]);
      assert list == [e] + list[1..];
      SweptOnly(m, v, list, m0, Swept(m, v, list), act);
      SweptAllOf(m, v, list, m0, Swept(m, v, list), act);
    }
  }

  lemma SweptOnly(m: Machine, v: View, list: seq<Entry>, m0: Machine, m1: Machine, act: Act)
    requires |list| > 0 && act == EndedOrphan(list[0].id, list[0].phase != Some(FRequested), v)
    requires if IsOrphan(m, v, list[0]) then m0 == Said(m.(cleared := m.cleared[list[0].id := v.now]), act) else m0 == m
    requires m0.trace <= m1.trace && forall k :: |m0.trace| <= k < |m1.trace| ==> EndsOrphan(m0, v, list[1..], m1.trace[k])
    ensures forall k :: |m.trace| <= k < |m1.trace| ==> EndsOrphan(m, v, list, m1.trace[k])
  {
    hide IsOrphan;
    forall k | |m.trace| <= k < |m1.trace| ensures EndsOrphan(m, v, list, m1.trace[k]) {
      if k < |m0.trace| {
        assert m1.trace[k] == act && list[0] in list;
      } else {
        assert EndsOrphan(m0, v, list[1..], m1.trace[k]);
        var x :| x in list[1..] && IsOrphan(m0, v, x) && m1.trace[k] == EndedOrphan(x.id, x.phase != Some(FRequested), v);
        ClearedIsNoOrphan(m, v, list[0].id, x, act);
        assert x in list;
      }
    }
  }

  lemma SweptAllOf(m: Machine, v: View, list: seq<Entry>, m0: Machine, m1: Machine, act: Act)
    requires |list| > 0 && act == EndedOrphan(list[0].id, list[0].phase != Some(FRequested), v)
    requires if IsOrphan(m, v, list[0]) then m0 == Said(m.(cleared := m.cleared[list[0].id := v.now]), act) else m0 == m
    requires m0.trace <= m1.trace && forall e :: e in list[1..] && IsOrphan(m0, v, e) ==> EndedSince(m1.trace, |m0.trace|, e.id)
    ensures forall e :: e in list && IsOrphan(m, v, e) ==> EndedSince(m1.trace, |m.trace|, e.id)
  {
    hide IsOrphan;
    forall x | x in list && IsOrphan(m, v, x) ensures EndedSince(m1.trace, |m.trace|, x.id) {
      if IsOrphan(m, v, list[0]) && x.id == list[0].id {
        assert m1.trace[|m.trace|] == act;
      } else {
        ClearedIsNoOrphan(m, v, list[0].id, x, act);
        assert list == [list[0]] + list[1..];
        assert x in list[1..];
        assert EndedSince(m1.trace, |m0.trace|, x.id);
      }
    }
  }

  lemma ClearedIsNoOrphan(m: Machine, v: View, id: nat, x: Entry, a: Act)
    ensures IsOrphan(Said(m.(cleared := m.cleared[id := v.now]), a), v, x) <==> IsOrphan(m, v, x) && x.id != id
  {
  }
}
