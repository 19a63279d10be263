/** What every run of the compact machine keeps: what is typed, when, how often, and when a rule may fire again. */
module CompactSafety {
  import opened Wrappers
  import opened Compact

  // ---------- Each request's own story ----------

  /** A request's deeds: `/compact` typed, resume reported, resume prompt typed, gave up. */
  datatype Deed = C | S | R | G

  function DeedOf(a: Act, rid: nat): seq<Deed> {
    match a
    case TypedCompact(_, n, _) => if n == rid then [C] else []
    case SawResume(_, n, _) => if n == rid then [S] else []
    case TypedResume(_, n, _) => if n == rid then [R] else []
    case GaveUp(_, n, _, _, _) => if n == rid then [G] else []
    case _ => []
  }

  function Story(trace: seq<Act>, rid: nat): seq<Deed> {
    if |trace| == 0 then [] else Story(trace[..|trace| - 1], rid) + DeedOf(trace[|trace| - 1], rid)
  }

  /** All a request may ever do, in order. */
  const LEGAL: set<seq<Deed>> :=
    {[], [C], [S], [C, S], [S, R], [C, S, R], [G], [C, G], [S, G], [C, S, G]}

  /** Where the request must be in its story. */
  predicate Fits(phase: Phase, story: seq<Deed>) {
    match phase
    case Requested => story == []
    case Compacting => story == [C]
    case Resume => story == [S] || story == [C, S]
    case Failed => story == [G] || story == [C, G]
  }

  // ---------- When a rule may fire again ----------

  datatype Verdict = Open | Shut | Until(at: nat)

  /** The last thing that happened to the row's automatic attempt. */
  function VerdictOn(trace: seq<Act>, id: nat): Verdict {
    if |trace| == 0 then Open
    else
      var last := trace[|trace| - 1];
      if last.Released? && last.id == id then Open
      else if last.Started? && last.id == id && last.owner.Some? then Shut
      else if last.GaveUp? && last.id == id && last.auto && !last.compacted then Until(last.v.now + RETRY_AFTER)
      else VerdictOn(trace[..|trace| - 1], id)
  }

  predicate AttemptIs(attempts: map<nat, Option<nat>>, id: nat, verdict: Verdict) {
    match verdict
    case Open => id !in attempts
    case Shut => id in attempts && attempts[id] == None
    case Until(at) => id in attempts && attempts[id] == Some(at)
  }

  // ---------- What justifies an act ----------

  predicate Justified(a: Act) {
    match a
    case Started(id, _, owner, v) =>
      && !v.holding && v.known
      && (owner.Some? ==> !v.remote && id !in v.saving && !SeenBelow(v, id))
    case TypedCompact(id, _, v) => TurnOver(v, id) && BoxEmpty(v, id) && !v.holding
    case SawResume(id, _, v) => ReportsResume(v, id)
    case TypedResume(id, _, v) => TurnOver(v, id) && BoxEmpty(v, id) && !v.holding
    case GaveUp(_, _, _, _, _) => true
    case Released(id, why, v) => (why.SeenLow? ==> SeenBelow(v, id)) && (why.CalledOff? ==> v.holding)
    case EndedOrphan(id, _, v) => exists e :: e in v.entries && e.id == id && e.phase.Some?
  }

  /** Every act was justified when it was done, and no rule fired before it might. */
  predicate AllJustified(trace: seq<Act>) {
    forall k :: 0 <= k < |trace| ==> Justified(trace[k]) && MayStart(trace[..k], trace[k])
  }

  /** An automatic start comes on an open row, or RETRY_AFTER past the failure that shut it. */
  predicate MayStart(before: seq<Act>, a: Act) {
    a.Started? && a.owner.Some? ==>
      var verdict := VerdictOn(before, a.id);
      verdict.Open? || (verdict.Until? && a.v.now >= verdict.at)
  }

  // ---------- The invariant ----------

  ghost predicate Stories(m: Machine) {
    && (forall n: nat :: Story(m.trace, n) in LEGAL)
    && (forall n: nat :: n >= m.next ==> Story(m.trace, n) == [])
    && (forall id :: id in m.reqs ==> m.reqs[id].rid < m.next && Fits(m.reqs[id].phase, Story(m.trace, m.reqs[id].rid)))
    && (forall i, j :: i in m.reqs && j in m.reqs && i != j ==> m.reqs[i].rid != m.reqs[j].rid)
  }

  ghost predicate Attempted(m: Machine) {
    && (forall id: nat :: AttemptIs(m.attempts, id, VerdictOn(m.trace, id)))
    && (forall id :: Active(m, id) && m.reqs[id].owner.Some? ==> id in m.attempts)
  }

  ghost predicate Inv(m: Machine) {
    Stories(m) && Attempted(m) && AllJustified(m.trace)
  }

  // ---------- Saying one more thing ----------

  lemma StoryMore(trace: seq<Act>, a: Act, n: nat)
    ensures Story(trace + [a], n) == Story(trace, n) + DeedOf(a, n)
  {
    assert (trace + [a])[..|trace|] == trace;
  }

  lemma VerdictMore(trace: seq<Act>, a: Act, id: nat)
    ensures VerdictOn(trace + [a], id) ==
            if a.Released? && a.id == id then Open
            else if a.Started? && a.id == id && a.owner.Some? then Shut
            else if a.GaveUp? && a.id == id && a.auto && !a.compacted then Until(a.v.now + RETRY_AFTER)
            else VerdictOn(trace, id)
  {
    assert (trace + [a])[..|trace|] == trace;
  }

  lemma JustifiedMore(trace: seq<Act>, a: Act)
    requires AllJustified(trace) && Justified(a) && MayStart(trace, a)
    ensures AllJustified(trace + [a])
  {
    forall k | 0 <= k < |trace + [a]|
      ensures Justified((trace + [a])[k]) && MayStart((trace + [a])[..k], (trace + [a])[k])
    {
      if k < |trace| {
        assert (trace + [a])[..k] == trace[..k];
      } else {
        assert (trace + [a])[..k] == trace;
      }
    }
  }

  /** A deed of request `r` on row `id` moves its story on; every other story stands still. */
  lemma DeedMovesOn(m: Machine, id: nat, a: Act, d: Deed, r1: Req)
    requires Stories(m) && id in m.reqs && (a.TypedCompact? || a.SawResume? || a.TypedResume? || a.GaveUp?)
    requires a.rid == m.reqs[id].rid == r1.rid && DeedOf(a, a.rid) == [d]
    requires Story(m.trace, a.rid) + [d] in LEGAL && Fits(r1.phase, Story(m.trace, a.rid) + [d])
    ensures Stories(Put(Said(m, a), id, r1))
  {
    forall n: nat ensures Story(m.trace + [a], n) == if n == a.rid then Story(m.trace, n) + [d] else Story(m.trace, n) {
      StoryMore(m.trace, a, n);
    }
  }

  /** A last deed, after which the request is gone. */
  lemma DeedEnds(m: Machine, id: nat, a: Act, d: Deed)
    requires Stories(m) && id in m.reqs && (a.TypedCompact? || a.SawResume? || a.TypedResume? || a.GaveUp?)
    requires a.rid == m.reqs[id].rid && DeedOf(a, a.rid) == [d]
    requires Story(m.trace, a.rid) + [d] in LEGAL
    ensures Stories(Removed(Said(m, a), id))
  {
    forall n: nat ensures Story(m.trace + [a], n) == if n == a.rid then Story(m.trace, n) + [d] else Story(m.trace, n) {
      StoryMore(m.trace, a, n);
    }
  }

  lemma PutSamePhase(m: Machine, id: nat, r1: Req)
    requires Stories(m) && id in m.reqs && r1.rid == m.reqs[id].rid && r1.phase == m.reqs[id].phase
    ensures Stories(Put(m, id, r1))
  {
  }

  lemma Justify(m: Machine, a: Act)
    requires AllJustified(m.trace) && Justified(a) && MayStart(m.trace, a)
    ensures AllJustified(Said(m, a).trace)
  {
    JustifiedMore(m.trace, a);
  }

  /** An act that says nothing of anyone's attempt. */
  lemma AttemptsStand(m: Machine, a: Act)
    requires Attempted(m)
    requires !a.Released? && !(a.Started? && a.owner.Some?) && !(a.GaveUp? && a.auto && !a.compacted)
    ensures forall id: nat :: AttemptIs(m.attempts, id, VerdictOn(m.trace + [a], id))
  {
    forall id: nat ensures AttemptIs(m.attempts, id, VerdictOn(m.trace + [a], id)) {
      VerdictMore(m.trace, a, id);
    }
  }

  lemma DeedKeeps(m: Machine, id: nat, a: Act, d: Deed, r1: Req)
    requires Inv(m) && Active(m, id) && (a.TypedCompact? || a.SawResume? || a.TypedResume?)
    requires a.rid == m.reqs[id].rid == r1.rid && r1.owner == m.reqs[id].owner && DeedOf(a, a.rid) == [d]
    requires Story(m.trace, a.rid) + [d] in LEGAL && Fits(r1.phase, Story(m.trace, a.rid) + [d]) && Justified(a)
    ensures Inv(Put(Said(m, a), id, r1))
  {
    DeedMovesOn(m, id, a, d, r1);
    AttemptsStand(m, a);
    Justify(m, a);
  }

  lemma RemovedKeeps(m: Machine, id: nat)
    requires Inv(m)
    ensures Inv(Removed(m, id))
  {
  }

  lemma ClearedKeeps(m: Machine, id: nat, now: nat)
    requires Inv(m)
    ensures Inv(m.(cleared := m.cleared[id := now]))
  {
  }

  lemma EndedKeeps(m: Machine, id: nat, now: nat)
    requires Inv(m)
    ensures Inv(Ended(m, id, now))
  {
    RemovedKeeps(m, id);
    ClearedKeeps(Removed(m, id), id, now);
  }

  lemma PutKeeps(m: Machine, id: nat, r1: Req)
    requires Inv(m) && id in m.reqs
    requires r1.rid == m.reqs[id].rid && r1.phase == m.reqs[id].phase && r1.owner == m.reqs[id].owner
    ensures Inv(Put(m, id, r1))
  {
    PutSamePhase(m, id, r1);
  }

  lemma ReleasedKeeps(m: Machine, id: nat, why: Release, v: View)
    requires Inv(m) && Justified(Released(id, why, v)) && (Active(m, id) ==> m.reqs[id].owner.None?)
    ensures Inv(ReleasedRow(m, id, why, v))
  {
    var a := Released(id, why, v);
    forall n: nat ensures Story(m.trace + [a], n) == Story(m.trace, n) {
      StoryMore(m.trace, a, n);
    }
    forall i: nat ensures AttemptIs(m.attempts - {id}, i, VerdictOn(m.trace + [a], i)) {
      VerdictMore(m.trace, a, i);
    }
    Justify(m, a);
  }

  // ---------- Every step keeps it ----------

  /** What may follow what. */
  lemma OneDeedMore()
    ensures [] + [C] == [C] && [] + [S] == [S] && [C] + [S] == [C, S]
    ensures [S] + [R] == [S, R] && [C, S] + [R] == [C, S, R]
    ensures [] + [G] == [G] && [C] + [G] == [C, G] && [S] + [G] == [S, G] && [C, S] + [G] == [C, S, G]
  {
  }

  lemma GaveUpCompacted(m: Machine, id: nat, a: Act)
    requires Inv(m) && Active(m, id) && m.reqs[id].phase.Resume? && a.GaveUp? && a.compacted && a.rid == m.reqs[id].rid
    ensures Inv(Removed(Said(m, a), id))
  {
    OneDeedMore();
    DeedEnds(m, id, a, G);
    AttemptsStand(m, a);
    Justify(m, a);
  }

  lemma GaveUpFailed(m: Machine, id: nat, a: Act, r1: Req, attempts: map<nat, Option<nat>>)
    requires Inv(m) && Active(m, id) && !m.reqs[id].phase.Resume? && r1.phase.Failed?
    requires a.GaveUp? && a.id == id && !a.compacted && a.rid == m.reqs[id].rid == r1.rid && a.auto == m.reqs[id].owner.Some?
    requires attempts == if a.auto then FailedAttempt(m.attempts, id, a.v.now) else m.attempts
    ensures Inv(Put(Said(m, a).(attempts := attempts), id, r1))
  {
    OneDeedMore();
    DeedMovesOn(m, id, a, G, r1);
    forall i: nat ensures AttemptIs(attempts, i, VerdictOn(m.trace + [a], i)) {
      VerdictMore(m.trace, a, i);
    }
    Justify(m, a);
  }

  lemma GivenUpKeeps(m: Machine, v: View, id: nat, r: Req, why: Reason)
    requires Inv(m) && Active(m, id)
    requires r.rid == m.reqs[id].rid && r.phase == m.reqs[id].phase && r.owner == m.reqs[id].owner
    ensures Inv(GivenUp(m, v, id, r, why))
  {
    var m0 := m.(cleared := m.cleared[id := v.now]);
    ClearedKeeps(m, id, v.now);
    var a := GaveUp(id, r.rid, r.phase.Resume?, r.owner.Some?, v);
    if r.phase.Resume? {
      GaveUpCompacted(m0, id, a);
    } else {
      var attempts := if r.owner.Some? then FailedAttempt(m.attempts, id, v.now) else m.attempts;
      GaveUpFailed(m0, id, a, r.(phase := Failed, why := Some(why)), attempts);
    }
  }

  lemma WaitedKeeps(m: Machine, v: View, id: nat, r: Req, idle: bool)
    requires Inv(m) && Active(m, id) && r == m.reqs[id]
    ensures Inv(WaitedForBox(m, v, id, r, idle))
  {
    if !idle {
      PutKeeps(m, id, r.(idleSince := 0));
    } else if r.idleSince == 0 {
      PutKeeps(m, id, r.(idleSince := v.now));
    } else {
      GivenUpKeeps(m, v, id, r, BoxInTheWay);
    }
  }

  lemma RequestedKeeps(m: Machine, v: View, id: nat)
    requires Inv(m) && Active(m, id) && m.reqs[id].phase.Requested? && !v.holding && v.known
    ensures Inv(StepRequested(m, v, id, m.reqs[id]))
  {
    var r, b := m.reqs[id], Blocker(v, id);
    if b.Some? {
      WaitedKeeps(m, v, id, r, b.value);
    } else {
      var r1 := r.(phase := Compacting, typedAt := v.now, sawStart := false, refusedBefore := id in v.refusing, idleSince := 0);
      OneDeedMore();
      DeedKeeps(m, id, TypedCompact(id, r.rid, v), C, r1);
    }
  }

  lemma CompactingKeeps(m: Machine, v: View, id: nat)
    requires Inv(m) && Active(m, id) && m.reqs[id].phase.Compacting?
    ensures Inv(StepCompacting(m, v, id, m.reqs[id]))
  {
    hide Inv;
    var r0, e := m.reqs[id], EntryOf(v, id);
    var starts := e.Some? && e.value.compacting && !r0.sawStart;
    var r := if starts then r0.(sawStart := true) else r0;
    var m1 := if starts then Put(m, id, r) else m;
    if starts {
      PutKeeps(m, id, r);
    }
    GivenUpKeeps(m1, v, id, r, TooLittle);
    GivenUpKeeps(m1, v, id, r, NeverStarted);
    GivenUpKeeps(m1, v, id, r, EndedEarly);
    GivenUpKeeps(m1, v, id, r, RanTooLong);
  }

  lemma ResumeKeeps(m: Machine, v: View, id: nat)
    requires Inv(m) && Active(m, id) && m.reqs[id].phase.Resume? && !v.holding && v.known
    ensures Inv(StepResume(m, v, id, m.reqs[id]))
  {
    var r, b := m.reqs[id], Blocker(v, id);
    if b.Some? {
      WaitedKeeps(m, v, id, r, b.value);
    } else {
      var a := TypedResume(id, r.rid, v);
      OneDeedMore();
      DeedEnds(m, id, a, R);
      AttemptsStand(m, a);
      Justify(m, a);
      ClearedKeeps(Removed(Said(m, a), id), id, v.now);
    }
  }

  lemma HeldOffKeeps(m: Machine, v: View, id: nat)
    requires Inv(m) && Active(m, id) && v.holding
    ensures Inv(HeldOff(m, v, id, m.reqs[id]))
  {
    EndedKeeps(m, id, v.now);
    if m.reqs[id].phase.Requested? {
      var why := CalledOff(m.reqs[id].rid, m.reqs[id].owner);
      ReleasedKeeps(Ended(m, id, v.now), id, why, v);
      assert Ended(ReleasedRow(m, id, why, v), id, v.now) == ReleasedRow(Ended(m, id, v.now), id, why, v);
    }
  }

  lemma ResumingKeeps(m: Machine, v: View, id: nat)
    requires Inv(m) && Active(m, id) && !m.reqs[id].phase.Resume? && ReportsResume(v, id)
    ensures Inv(Resuming(m, v, id, m.reqs[id]))
  {
    var r := m.reqs[id];
    OneDeedMore();
    DeedKeeps(m, id, SawResume(id, r.rid, v), S, r.(phase := Resume, idleSince := if r.phase.Requested? then 0 else r.idleSince));
  }

  lemma SteppedKeeps(m: Machine, v: View, id: nat)
    requires Inv(m)
    ensures Inv(Stepped(m, v, id))
  {
    if Active(m, id) {
      var r := m.reqs[id];
      if SessionOf(v, id).None? || SessionOf(v, id).value.exited {
        EndedKeeps(m, id, v.now);
      } else if v.holding && !r.phase.Compacting? {
        HeldOffKeeps(m, v, id);
      } else if r.phase.Resume? {
        ResumeKeeps(m, v, id);
      } else if ReportsResume(v, id) {
        ResumingKeeps(m, v, id);
        var m1 := Resuming(m, v, id, r);
        if v.holding { HeldOffKeeps(m1, v, id); } else { ResumeKeeps(m1, v, id); }
      } else if r.phase.Requested? {
        RequestedKeeps(m, v, id);
      } else {
        CompactingKeeps(m, v, id);
      }
    }
  }

  lemma {:induction false} SteppedAllKeeps(m: Machine, v: View, ids: seq<nat>)
    requires Inv(m)
    ensures Inv(SteppedAll(m, v, ids))
    decreases |ids|
  {
    if |ids| != 0 {
      SteppedKeeps(m, v, ids[0]);
      SteppedAllKeeps(Stepped(m, v, ids[0]), v, ids[1..]);
    }
  }

  lemma NamedStories(m: Machine, v: View, id: nat, owner: Option<nat>)
    requires Stories(m)
    ensures Stories(Named(m, v, id, owner))
  {
    var a := Started(id, m.next, owner, v);
    forall n: nat ensures Story(m.trace + [a], n) == Story(m.trace, n) {
      StoryMore(m.trace, a, n);
    }
  }

  lemma NamedAttempted(m: Machine, v: View, id: nat, owner: Option<nat>, attempts: map<nat, Option<nat>>)
    requires Attempted(m) && !Active(m, id)
    requires attempts == if owner.Some? then m.attempts[id := None] else m.attempts
    ensures Attempted(Named(m.(attempts := attempts), v, id, owner))
  {
    var a := Started(id, m.next, owner, v);
    forall i: nat ensures AttemptIs(attempts, i, VerdictOn(m.trace + [a], i)) {
      VerdictMore(m.trace, a, i);
    }
  }

  /** A new request under a new name. */
  lemma NamedKeeps(m: Machine, v: View, id: nat, owner: Option<nat>, attempts: map<nat, Option<nat>>)
    requires Inv(m) && !Active(m, id)
    requires attempts == if owner.Some? then m.attempts[id := None] else m.attempts
    requires Justified(Started(id, m.next, owner, v)) && MayStart(m.trace, Started(id, m.next, owner, v))
    ensures Inv(Named(m.(attempts := attempts), v, id, owner))
  {
    NamedStories(m.(attempts := attempts), v, id, owner);
    NamedAttempted(m, v, id, owner, attempts);
    JustifiedMore(m.trace, Started(id, m.next, owner, v));
  }

  lemma StartedKeeps(m: Machine, v: View, id: nat)
    requires Inv(m) && !Active(m, id) && v.known && !v.holding
    ensures Inv(StartedOn(m, v, id, None))
  {
    NamedKeeps(m, v, id, None, m.attempts);
    assert m.(attempts := m.attempts) == m;
    SteppedKeeps(Named(m, v, id, None), v, id);
  }

  // ---------- Rules ----------

  /** The lowest rule is at most any rule that covers the row. */
  lemma {:induction false} LowestRule(v: View, list: seq<Session>, o: Session, id: nat)
    requires o in list && o.autoCompact.Some? && Covers(v, o, id)
    ensures RuleFor(v, list, id).Some? && RuleFor(v, list, id).value <= o.autoCompact.value
    decreases |list|
  {
    var n := |list| - 1;
    if list[n] != o {
      assert o in list[..n];
      LowestRule(v, list[..n], o, id);
    }
  }

  lemma AutoStartKeeps(m: Machine, v: View, o: Session, c: Session)
    requires Inv(m) && v.known && !v.holding && !v.remote
    requires o in v.sessions && o.autoCompact.Some? && Covers(v, o, c.id)
    ensures Inv(AutoStart(m, v, o.id, o.autoCompact.value, c))
  {
    var pct := o.autoCompact.value;
    if Fires(m, v, pct, c) {
      LowestRule(v, v.sessions, o, c.id);
      var attempts := m.attempts[c.id := None];
      assert AttemptIs(m.attempts, c.id, VerdictOn(m.trace, c.id));
      NamedKeeps(m, v, c.id, Some(o.id), attempts);
      SteppedKeeps(Named(m.(attempts := attempts), v, c.id, Some(o.id)), v, c.id);
    }
  }

  lemma {:induction false} AutoStartsKeep(m: Machine, v: View, o: Session, rows: seq<Session>)
    requires Inv(m) && v.known && !v.holding && !v.remote
    requires o in v.sessions && o.autoCompact.Some? && forall c :: c in rows ==> Covers(v, o, c.id)
    ensures Inv(AutoStarts(m, v, o.id, o.autoCompact.value, rows))
    decreases |rows|
  {
    if |rows| != 0 {
      assert rows[0] in rows;
      AutoStartKeeps(m, v, o, rows[0]);
      AutoStartsKeep(AutoStart(m, v, o.id, o.autoCompact.value, rows[0]), v, o, rows[1..]);
    }
  }

  lemma {:induction false} AllRuleStartsKeep(m: Machine, v: View, list: seq<Session>)
    requires Inv(m) && v.known && !v.holding && !v.remote && forall o :: o in list ==> o in v.sessions
    ensures Inv(AllRuleStarts(m, v, list))
    decreases |list|
  {
    if |list| != 0 {
      var o := list[0];
      assert o in list;
      if o.autoCompact.Some? && !o.kind.Shell? {
        forall c | c in [o] + Under(v, o.id) ensures Covers(v, o, c.id) {
          assert c == o || c in Under(v, o.id);
        }
        AutoStartsKeep(m, v, o, [o] + Under(v, o.id));
      }
      AllRuleStartsKeep(RuleStarts(m, v, o), v, list[1..]);
    }
  }

  lemma {:induction false} ReleaseChecksKeep(m: Machine, v: View, list: seq<Session>)
    requires Inv(m)
    ensures Inv(ReleaseChecks(m, v, list))
    decreases |list|
  {
    if |list| != 0 {
      if list[0].id in m.attempts && !Active(m, list[0].id) && SeenBelow(v, list[0].id) {
        ReleasedKeeps(m, list[0].id, SeenLow, v);
      }
      ReleaseChecksKeep(ReleaseCheck(m, v, list[0].id), v, list[1..]);
    }
  }

  lemma OrphanKeeps(m: Machine, v: View, e: Entry)
    requires Inv(m) && e in v.entries && e.phase.Some?
    ensures Inv(Said(m.(cleared := m.cleared[e.id := v.now]), EndedOrphan(e.id, e.phase != Some(FRequested), v)))
  {
    var m0, a := m.(cleared := m.cleared[e.id := v.now]), EndedOrphan(e.id, e.phase != Some(FRequested), v);
    ClearedKeeps(m, e.id, v.now);
    forall n: nat ensures Story(m.trace + [a], n) == Story(m.trace, n) {
      StoryMore(m.trace, a, n);
    }
    AttemptsStand(m0, a);
    Justify(m0, a);
  }

  lemma {:induction false} SweptKeeps(m: Machine, v: View, list: seq<Entry>)
    requires Inv(m) && forall e :: e in list ==> e in v.entries
    ensures Inv(Swept(m, v, list)) && Swept(m, v, list).reqs == m.reqs
    decreases |list|
  {
    if |list| != 0 {
      var e := list[0];
      assert e in list;
      if Orphan(m, v, e) {
        OrphanKeeps(m, v, e);
      }
      SweptKeeps(if Orphan(m, v, e)
                 then Said(m.(cleared := m.cleared[e.id := v.now]), EndedOrphan(e.id, e.phase != Some(FRequested), v))
                 else m, v, list[1..]);
    }
  }

  lemma TickedKeeps(m: Machine, v: View)
    requires Inv(m)
    ensures Inv(Ticked(m, v))
  {
    if !v.remote && v.known {
      SteppedAllKeeps(m, v, m.order);
      var m1 := SteppedAll(m, v, m.order);
      SweptKeeps(m1, v, v.entries);
      var m2 := Swept(m1, v, v.entries);
      ReleaseChecksKeep(m2, v, v.sessions);
      if !v.holding {
        AllRuleStartsKeep(ReleaseChecks(m2, v, v.sessions), v, v.sessions);
      }
    }
  }

  lemma DroppedKeeps(m: Machine, v: View, id: nat)
    requires Inv(m)
    ensures Inv(DroppedRow(m, v, id))
  {
    if id in m.reqs {
      EndedKeeps(m, id, v.now);
      ReleasedKeeps(Ended(m, id, v.now), id, Dropped, v);
      assert DroppedRow(m, v, id) == ReleasedRow(Ended(m, id, v.now), id, Dropped, v);
    } else {
      ReleasedKeeps(m, id, Dropped, v);
    }
  }

  lemma CalledKeeps(m: Machine, c: Call)
    requires Inv(m)
    ensures Inv(Called(m, c))
  {
    match c {
      case Toggle(id, v) =>
        if Active(m, id) {
          EndedKeeps(m, id, v.now);
        } else if SessionOf(v, id).Some? && !v.holding {
          StartedKeeps(m, v, id);
        }
      case Poll(v) => SteppedAllKeeps(m, v, m.order);
      case Tick(v) => TickedKeeps(m, v);
      case Drop(id, v) => DroppedKeeps(m, v, id);
      case NoticeDone(id) => RemovedKeeps(m, id);
    }
  }

  lemma {:induction false} RunKeeps(m: Machine, calls: seq<Call>)
    requires Inv(m)
    ensures Inv(Run(m, calls))
    decreases |calls|
  {
    if |calls| != 0 {
      CalledKeeps(m, calls[0]);
      RunKeeps(Called(m, calls[0]), calls[1..]);
    }
  }

  // ---------- What that means for every run ----------

  /** In every run, what each request did is one of the stories in `LEGAL`. */
  lemma EveryStoryIsLegal(calls: seq<Call>, rid: nat)
    ensures Story(Run(IDLE_MACHINE, calls).trace, rid) in LEGAL
  {
    RunKeeps(IDLE_MACHINE, calls);
  }

  /** So `/compact` is typed at most once, the resume prompt at most once, and a request gives up at most once. */
  lemma LegalIsOnce(story: seq<Deed>)
    requires story in LEGAL
    ensures forall d :: multiset(story)[d] <= 1
  {
    match |story| {
      case 0 =>
      case 1 => assert story == [story[0]];
      case 2 => assert story == [story[0], story[1]];
      case _ => assert story == [story[0], story[1], story[2]];
    }
  }

  /** The resume prompt comes only after the hub reported `resume`, `/compact` never does; nothing follows giving up. */
  lemma LegalIsOrdered(story: seq<Deed>)
    requires story in LEGAL
    ensures forall k :: 0 <= k < |story| && story[k] == R ==> k > 0 && story[k - 1] == S
    ensures forall k :: 0 <= k < |story| && (story[k] == G || story[k] == R) ==> k == |story| - 1
    ensures forall k :: 0 <= k < |story| && story[k] == C ==> k == 0
  {
    assert |story| <= 3;
  }

  /** A request the machine calls failed has given up, once, and that was its last deed. */
  lemma FailedGaveUp(calls: seq<Call>, id: nat)
    requires var m := Run(IDLE_MACHINE, calls); id in m.reqs && m.reqs[id].phase.Failed?
    ensures var m := Run(IDLE_MACHINE, calls);
            var story := Story(m.trace, m.reqs[id].rid);
            |story| > 0 && story[|story| - 1] == G && R !in story
  {
    RunKeeps(IDLE_MACHINE, calls);
  }

  /** In every run, everything typed went into an empty box after the turn was over, and not while compacts were held. */
  lemma TypedOnlyWhenSafe(calls: seq<Call>, k: nat)
    requires k < |Run(IDLE_MACHINE, calls).trace|
    ensures var a := Run(IDLE_MACHINE, calls).trace[k];
            a.TypedCompact? || a.TypedResume? ==> TurnOver(a.v, a.id) && BoxEmpty(a.v, a.id) && !a.v.holding
  {
    RunKeeps(IDLE_MACHINE, calls);
    assert Justified(Run(IDLE_MACHINE, calls).trace[k]);
  }

  // ---------- One automatic compact per crossing ----------

  /** A hold called off a request the user made by hand. */
  predicate ByHand(a: Act, id: nat) {
    a.Released? && a.id == id && a.why.CalledOff? && a.why.owner.None?
  }

  /** What may free a row's automatic attempt: a low number, a hold on the attempt itself, a drop, or time after its failure. */
  function StrictVerdictOn(trace: seq<Act>, id: nat): Verdict {
    if |trace| == 0 then Open
    else
      var last := trace[|trace| - 1];
      if last.Released? && last.id == id && !ByHand(last, id) then Open
      else if last.Started? && last.id == id && last.owner.Some? then Shut
      else if last.GaveUp? && last.id == id && last.auto && !last.compacted then Until(last.v.now + RETRY_AFTER)
      else StrictVerdictOn(trace[..|trace| - 1], id)
  }

  predicate Due(verdict: Verdict, now: nat) {
    verdict.Open? || (verdict.Until? && now >= verdict.at)
  }

  /** The attempt was held when a hold called a hand-made request off, and nothing that rightly frees or shuts it came since. */
  predicate HandFreed(trace: seq<Act>, id: nat) {
    |trace| > 0 &&
    var last := trace[|trace| - 1];
    var init := trace[..|trace| - 1];
    if ByHand(last, id) then !VerdictOn(init, id).Open? || HandFreed(init, id)
    else if last.Released? && last.id == id then false
    else if last.Started? && last.id == id && last.owner.Some? then false
    else if last.GaveUp? && last.id == id && last.auto && !last.compacted then false
    else HandFreed(init, id)
  }

  /** The attempt is free against the rules exactly when a hold on a hand-made request freed it. */
  lemma {:induction false} FreeAgainstTheRules(trace: seq<Act>, id: nat)
    ensures VerdictOn(trace, id) == if HandFreed(trace, id) then Open else StrictVerdictOn(trace, id)
    ensures HandFreed(trace, id) ==> !StrictVerdictOn(trace, id).Open?
  {
    if |trace| != 0 {
      FreeAgainstTheRules(trace[..|trace| - 1], id);
    }
  }

  /**
   An automatic start comes too soon, the attempt neither rightly released nor failed RETRY_AFTER before, exactly when
   a hold that called off a hand-made request had freed it. In any run, for every start.
  */
  lemma TooSoonExactly(calls: seq<Call>, k: nat)
    requires k < |Run(IDLE_MACHINE, calls).trace|
    requires var a := Run(IDLE_MACHINE, calls).trace[k]; a.Started? && a.owner.Some?
    ensures var t := Run(IDLE_MACHINE, calls).trace;
            var (id, now) := (t[k].id, t[k].v.now);
            !Due(StrictVerdictOn(t[..k], id), now) <==>
            HandFreed(t[..k], id) && (StrictVerdictOn(t[..k], id).Until? ==> now < StrictVerdictOn(t[..k], id).at)
  {
    RunKeeps(IDLE_MACHINE, calls);
    var t := Run(IDLE_MACHINE, calls).trace;
    assert MayStart(t[..k], t[k]);
    FreeAgainstTheRules(t[..k], t[k].id);
  }

  lemma HandFreedMore(trace: seq<Act>, a: Act, id: nat)
    ensures HandFreed(trace + [a], id) ==
            if ByHand(a, id) then !VerdictOn(trace, id).Open? || HandFreed(trace, id)
            else if a.Released? && a.id == id then false
            else if a.Started? && a.id == id && a.owner.Some? then false
            else if a.GaveUp? && a.id == id && a.auto && !a.compacted then false
            else HandFreed(trace, id)
  {
    assert (trace + [a])[..|trace|] == trace;
  }

  lemma GivingUpFreesNothing(m: Machine, v: View, id: nat, r: Req, why: Reason)
    ensures HandFreed(GivenUp(m, v, id, r, why).trace, id) ==> HandFreed(m.trace, id)
  {
    HandFreedMore(m.trace, GaveUp(id, r.rid, r.phase.Resume?, r.owner.Some?, v), id);
  }

  lemma ResumeFreesNothing(m: Machine, v: View, id: nat, r: Req)
    ensures HandFreed(StepResume(m, v, id, r).trace, id) ==> HandFreed(m.trace, id)
  {
    HandFreedMore(m.trace, TypedResume(id, r.rid, v), id);
    GivingUpFreesNothing(m, v, id, r, BoxInTheWay);
  }

  lemma CompactingFreesNothing(m: Machine, v: View, id: nat, r0: Req)
    ensures HandFreed(StepCompacting(m, v, id, r0).trace, id) ==> HandFreed(m.trace, id)
  {
    var r := r0.(sawStart := true);
    forall m1: Machine, r1: Req, why: Reason ensures HandFreed(GivenUp(m1, v, id, r1, why).trace, id) ==> HandFreed(m1.trace, id) {
      GivingUpFreesNothing(m1, v, id, r1, why);
    }
  }

  lemma RequestedFreesNothing(m: Machine, v: View, id: nat, r: Req)
    ensures HandFreed(StepRequested(m, v, id, r).trace, id) ==> HandFreed(m.trace, id)
  {
    HandFreedMore(m.trace, TypedCompact(id, r.rid, v), id);
    GivingUpFreesNothing(m, v, id, r, BoxInTheWay);
  }

  /** Where that happens: a step under a hold, on a requested compact no rule made, of a row whose attempt is held. */
  predicate FreesByHand(m: Machine, v: View, id: nat) {
    && Active(m, id) && SessionOf(v, id).Some? && !SessionOf(v, id).value.exited
    && v.holding && m.reqs[id].phase.Requested? && m.reqs[id].owner.None? && id in m.attempts
  }

  /** A request's step frees an attempt against the rules there, and nowhere else. */
  lemma FreedByHandExactly(m: Machine, v: View, id: nat)
    requires Inv(m)
    ensures HandFreed(Stepped(m, v, id).trace, id) && !HandFreed(m.trace, id) <==> FreesByHand(m, v, id)
  {
    assert AttemptIs(m.attempts, id, VerdictOn(m.trace, id));
    FreeAgainstTheRules(m.trace, id);
    if Active(m, id) && SessionOf(v, id).Some? && !SessionOf(v, id).value.exited {
      var r := m.reqs[id];
      if v.holding && !r.phase.Compacting? {
        HandFreedMore(m.trace, Released(id, CalledOff(r.rid, r.owner), v), id);
      } else if r.phase.Resume? {
        ResumeFreesNothing(m, v, id, r);
      } else if ReportsResume(v, id) {
        HandFreedMore(m.trace, SawResume(id, r.rid, v), id);
        ResumeFreesNothing(Resuming(m, v, id, r), v, id, Resuming(m, v, id, r).reqs[id]);
      } else if r.phase.Requested? {
        RequestedFreesNothing(m, v, id, r);
      } else {
        CompactingFreesNothing(m, v, id, r);
      }
    }
  }

  /** What came between an automatic start and a later one of the same row. */
  predicate Loosened(trace: seq<Act>, from: nat, upto: nat, id: nat, now: nat)
    requires from <= upto <= |trace|
  {
    || (exists j :: from <= j < upto && trace[j].Released? && trace[j].id == id && !ByHand(trace[j], id))
    || (exists j :: from <= j < upto && trace[j].GaveUp? && trace[j].id == id && trace[j].auto && !trace[j].compacted
                    && trace[j].v.now + RETRY_AFTER <= now)
  }

  lemma {:induction false} VerdictLooks(trace: seq<Act>, from: nat, upto: nat, id: nat, now: nat)
    requires from < upto <= |trace|
    requires trace[from].Started? && trace[from].id == id && trace[from].owner.Some?
    requires Due(StrictVerdictOn(trace[..upto], id), now)
    ensures Loosened(trace, from, upto, id, now)
    decreases upto
  {
    assert trace[..upto][..upto - 1] == trace[..upto - 1];
    var last := trace[upto - 1];
    if last.id == id && ((last.Released? && !ByHand(last, id)) || (last.GaveUp? && last.auto && !last.compacted)) {
      assert trace[upto - 1] == last;
    } else {
      VerdictLooks(trace, from, upto - 1, id, now);
    }
  }

  /** A hold on a hand-made request, at a time the attempt was held. */
  predicate HandRelease(trace: seq<Act>, l: nat, id: nat)
    requires l < |trace|
  {
    ByHand(trace[l], id) && !VerdictOn(trace[..l], id).Open?
  }

  lemma {:induction false} HandFreedLooks(trace: seq<Act>, from: nat, upto: nat, id: nat)
    requires from < upto <= |trace| && HandFreed(trace[..upto], id)
    requires trace[from].Started? && trace[from].id == id && trace[from].owner.Some?
    ensures exists l :: from < l < upto && HandRelease(trace, l, id)
    decreases upto
  {
    assert trace[..upto][..upto - 1] == trace[..upto - 1];
    if ByHand(trace[upto - 1], id) && !VerdictOn(trace[..upto - 1], id).Open? {
      assert HandRelease(trace, upto - 1, id);
    } else {
      HandFreedLooks(trace, from, upto - 1, id);
    }
  }

  /**
   One automatic compact per crossing. Between two automatic starts on a row, in any run, its attempt was released
   (which takes a number below the lowest rule, no rule or no number, a hold on the attempt itself, or a drop), or it
   failed at least RETRY_AFTER before the second; or, against that rule, a hold called off a hand-made request while
   the attempt was held.
  */
  lemma OneCompactPerCrossing(calls: seq<Call>, j: nat, k: nat)
    requires j < k < |Run(IDLE_MACHINE, calls).trace|
    requires var t := Run(IDLE_MACHINE, calls).trace;
             t[j].Started? && t[k].Started? && t[j].id == t[k].id && t[j].owner.Some? && t[k].owner.Some?
    ensures var t := Run(IDLE_MACHINE, calls).trace;
            Loosened(t, j, k, t[k].id, t[k].v.now) || exists l :: j < l < k && HandRelease(t, l, t[k].id)
  {
    var t := Run(IDLE_MACHINE, calls).trace;
    TooSoonExactly(calls, k);
    if Due(StrictVerdictOn(t[..k], t[k].id), t[k].v.now) {
      VerdictLooks(t, j, k, t[k].id, t[k].v.now);
    } else {
      HandFreedLooks(t, j, k, t[k].id);
    }
  }

  // ---------- A run in which it comes too soon ----------

  /** Row 1, a claude mid-turn at 60 under its own rule of 50. */
  function BusyAt60(now: nat, holding: bool): View {
    View(now, true, false, holding, [Session(1, Claude, false, false, Some(50))], map[], [], map[1 := Working], map[], {},
         map[1 := 60], {})
  }

  function NewRequest(rid: nat, owner: Option<nat>): Req {
    Req(rid, Requested, 0, false, false, owner, 0, None)
  }

  lemma NeverBelow(now: nat, holding: bool)
    ensures var v := BusyAt60(now, holding);
            && v.sessions[..1] == v.sessions && RuleFor(v, v.sessions, 1) == Some(50) && !SeenBelow(v, 1)
            && SessionOf(v, 1) == Some(v.sessions[0]) && EntryOf(v, 1).None?
  {
    var v := BusyAt60(now, holding);
    assert v.sessions[..0] == [];
    assert Covers(v, v.sessions[0], 1);
  }

  lemma TickStarts(m: Machine, now: nat)
    requires m.order == [] && m.reqs == map[] && 1 !in m.attempts
    ensures var v := BusyAt60(now, false);
            Called(m, Tick(v)) ==
            Machine([1], map[1 := NewRequest(m.next, Some(1))], m.cleared, m.attempts[1 := None], m.next + 1,
                    m.trace + [Started(1, m.next, Some(1), v)])
  {
    var v := BusyAt60(now, false);
    NeverBelow(now, false);
    var s := v.sessions[0];
    assert v.sessions[1..] == [] && ([s] + Under(v, 1))[0] == s && ([s] + Under(v, 1))[1..] == [];
    assert SteppedAll(m, v, m.order) == m && Swept(m, v, v.entries) == m;
    assert ReleaseChecks(m, v, v.sessions) == m;
    var m1 := m.(attempts := m.attempts[1 := None]);
    assert Fires(m, v, 50, s);
    assert [] + [1] == [1];
    assert StartedOn(m1, v, 1, Some(1)) == Named(m1, v, 1, Some(1));
    assert AutoStarts(m, v, 1, 50, [s] + Under(v, 1)) == AutoStart(m, v, 1, 50, s);
    assert AllRuleStarts(m, v, v.sessions) == RuleStarts(m, v, s);
  }

  lemma ToggleStarts(m: Machine, now: nat)
    requires m.order == [] && m.reqs == map[]
    ensures var v := BusyAt60(now, false);
            Called(m, Toggle(1, v)) ==
            Machine([1], map[1 := NewRequest(m.next, None)], m.cleared, m.attempts, m.next + 1,
                    m.trace + [Started(1, m.next, None, v)])
  {
    NeverBelow(now, false);
    assert [] + [1] == [1];
  }

  lemma ToggleCancels(m: Machine, now: nat, r: Req)
    requires m.order == [1] && m.reqs == map[1 := r] && r.phase.Requested?
    ensures Called(m, Toggle(1, BusyAt60(now, false))) ==
            m.(order := [], reqs := map[], cleared := m.cleared[1 := now])
  {
    NeverBelow(now, false);
    assert [1][1..] == [] && m.reqs - {1} == map[];
  }

  lemma HoldCallsOff(m: Machine, now: nat, r: Req)
    requires m.order == [1] && m.reqs == map[1 := r] && r.phase.Requested?
    ensures var v := BusyAt60(now, true);
            Called(m, Poll(v)) ==
            m.(order := [], reqs := map[], cleared := m.cleared[1 := now], attempts := m.attempts - {1},
               trace := m.trace + [Released(1, CalledOff(r.rid, r.owner), v)])
  {
    var v := BusyAt60(now, true);
    NeverBelow(now, true);
    assert [1][1..] == [] && m.reqs - {1} == map[];
    assert SteppedAll(m, v, [1]) == Stepped(m, v, 1);
  }

  lemma RunFirst(m: Machine, c: Call, rest: seq<Call>)
    ensures Run(m, [c] + rest) == Run(Called(m, c), rest)
  {
    assert ([c] + rest)[1..] == rest;
  }

  lemma FiveCalls(m: Machine, c0: Call, c1: Call, c2: Call, c3: Call, c4: Call)
    ensures Run(m, [c0, c1, c2, c3, c4]) == Called(Called(Called(Called(Called(m, c0), c1), c2), c3), c4)
  {
    hide Called, Run;
    var (m1, m2) := (Called(m, c0), Called(Called(m, c0), c1));
    var (m3, m4) := (Called(m2, c2), Called(Called(m2, c2), c3));
    assert [c0, c1, c2, c3, c4] == [c0] + [c1, c2, c3, c4] && [c1, c2, c3, c4] == [c1] + [c2, c3, c4];
    assert [c2, c3, c4] == [c2] + [c3, c4] && [c3, c4] == [c3] + [c4] && [c4] == [c4] + [];
    RunFirst(m, c0, [c1, c2, c3, c4]);
    RunFirst(m1, c1, [c2, c3, c4]);
    RunFirst(m2, c2, [c3, c4]);
    RunFirst(m3, c3, [c4]);
    RunFirst(m4, c4, []);
    RunNothing(Called(m4, c4));
  }

  lemma RunNothing(m: Machine)
    ensures Run(m, []) == m
  {
  }

  /** What the run below says and does. */
  function TooSoonTrace(): seq<Act> {
    [Started(1, 0, Some(1), BusyAt60(1000, false)), Started(1, 1, None, BusyAt60(1002, false)),
     Released(1, CalledOff(1, None), BusyAt60(1003, true)), Started(1, 2, Some(1), BusyAt60(1004, false))]
  }

  const TOO_SOON_CALLS: seq<Call> :=
    [Tick(BusyAt60(1000, false)), Toggle(1, BusyAt60(1001, false)), Toggle(1, BusyAt60(1002, false)),
     Poll(BusyAt60(1003, true)), Tick(BusyAt60(1004, false))]

  lemma TooSoonRun()
    ensures Run(IDLE_MACHINE, TOO_SOON_CALLS).trace == TooSoonTrace()
  {
    hide Called, BusyAt60;
    var c0, c1, c2 := Tick(BusyAt60(1000, false)), Toggle(1, BusyAt60(1001, false)), Toggle(1, BusyAt60(1002, false));
    var c3, c4 := Poll(BusyAt60(1003, true)), Tick(BusyAt60(1004, false));
    TickStarts(IDLE_MACHINE, 1000);
    var m1 := Called(IDLE_MACHINE, c0);
    ToggleCancels(m1, 1001, m1.reqs[1]);
    var m2 := Called(m1, c1);
    ToggleStarts(m2, 1002);
    var m3 := Called(m2, c2);
    HoldCallsOff(m3, 1003, m3.reqs[1]);
    var m4 := Called(m3, c3);
    TickStarts(m4, 1004);
    FiveCalls(IDLE_MACHINE, c0, c1, c2, c3, c4);
  }

  lemma TooSoonVerdicts()
    ensures HandFreed(TooSoonTrace()[..3], 1) && !Loosened(TooSoonTrace(), 0, 3, 1, 1004)
  {
    hide BusyAt60;
    var t := TooSoonTrace();
    assert t[..3] == [t[0], t[1]] + [t[2]] && [t[0], t[1]] == [t[0]] + [t[1]] && [t[0]] == [] + [t[0]];
    VerdictMore([], t[0], 1);
    VerdictMore([t[0]], t[1], 1);
    HandFreedMore([t[0], t[1]], t[2], 1);
  }

  /**
   Started by rule, cancelled and asked for by hand, called off by a hold: a rule starts row 1 again 4 ms after the
   first time, and its context was never below the line.
  */
  lemma StartedAgainTooSoon()
    ensures var t := Run(IDLE_MACHINE, TOO_SOON_CALLS).trace;
            && t == TooSoonTrace() && t[0].owner.Some? && t[3].owner.Some? && t[0].id == t[3].id
            && HandFreed(t[..3], 1) && !Loosened(t, 0, 3, 1, t[3].v.now)
    ensures forall now, holding :: !SeenBelow(BusyAt60(now, holding), 1)
  {
    TooSoonRun();
    TooSoonVerdicts();
    forall now, holding ensures !SeenBelow(BusyAt60(now, holding), 1) {
      NeverBelow(now, holding);
    }
  }

  /** A release for a low number needs the number seen low, one for a hold needs the hold; and a row a tick releases, that tick does not start. */
  lemma ReleasesAreReal(calls: seq<Call>, j: nat, k: nat)
    requires j < |Run(IDLE_MACHINE, calls).trace| && k < |Run(IDLE_MACHINE, calls).trace|
    ensures var t := Run(IDLE_MACHINE, calls).trace;
            && (t[j].Released? && t[j].why.SeenLow? ==> SeenBelow(t[j].v, t[j].id))
            && (t[j].Released? && t[j].why.CalledOff? ==> t[j].v.holding)
            && (t[j].Released? && !t[j].why.Dropped? && t[k].Started? && t[k].owner.Some? && t[j].id == t[k].id ==> t[j].v != t[k].v)
  {
    RunKeeps(IDLE_MACHINE, calls);
    var t := Run(IDLE_MACHINE, calls).trace;
    assert Justified(t[j]) && Justified(t[k]);
  }
}
