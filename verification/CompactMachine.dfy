/** The compact requests as they run: maps updated in place, each call proved to be the function `Compact` gives it. */
module CompactMachine {
  import opened Wrappers
  import opened Compact
  import opened CompactSafety

  /** Auto-compact's memory of one attempt per crossing. */
  class Attempts {
    var held: map<nat, Option<nat>>

    constructor ()
      ensures held == map[]
    {
      held := map[];
    }

    /** Hold `k` until its context drops below the line. */
    method Started(k: nat)
      modifies this
      ensures held == old(held)[k := None]
    {
      held := held[k := None];
    }

    /** The attempt failed: when it may be retried, or None when `k` is not held. */
    method Failed(k: nat, now: nat) returns (at: Option<nat>)
      modifies this
      ensures held == FailedAttempt(old(held), k, now)
      ensures at == if k in old(held) then Some(now + RETRY_AFTER) else None
    {
      if k !in held {
        return None;
      }
      held := held[k := Some(now + RETRY_AFTER)];
      at := Some(now + RETRY_AFTER);
    }

    method MustWait(k: nat, now: nat) returns (b: bool)
      ensures b == Blocks(held, k, now)
    {
      if k !in held {
        return false;
      }
      var at := held[k];
      b := at.None? || now < at.value;
    }

    method Release(k: nat)
      modifies this
      ensures held == old(held) - {k}
    {
      held := held - {k};
    }
  }

  class Compactor {
    var order: seq<nat>
    var reqs: map<nat, Req>
    var cleared: map<nat, nat>
    const suppressed: Attempts
    /** The next request's name, and everything typed, said or decided so far. */
    var next: nat
    var trace: seq<Act>

    ghost function Value(): Machine
      reads this, suppressed
    {
      Machine(order, reqs, cleared, suppressed.held, next, trace)
    }

    constructor ()
      ensures Value() == IDLE_MACHINE && fresh(suppressed)
      ensures Inv(Value())
    {
      order := [];
      reqs := map[];
      cleared := map[];
      suppressed := new Attempts();
      next := 0;
      trace := [];
    }

    method Say(a: Act)
      modifies `trace
      ensures trace == old(trace) + [a]
    {
      trace := trace + [a];
    }

    /** A key keeps its place when it is set again. */
    method Set(id: nat, r: Req)
      modifies `order, `reqs
      ensures Value() == Put(old(Value()), id, r)
    {
      if id !in reqs {
        order := order + [id];
      }
      reqs := reqs[id := r];
    }

    method Delete(id: nat)
      modifies `order, `reqs
      ensures Value() == Removed(old(Value()), id)
    {
      if id !in reqs {
        return;
      }
      reqs := reqs - {id};
      var kept: seq<nat>, rest := [], order;
      ghost var was := order;
      while |rest| > 0 && rest[0] != id
        invariant Without(was, id) == kept + Without(rest, id)
        decreases |rest|
      {
        kept := kept + [rest[0]];
        rest := rest[1..];
      }
      order := kept + (if |rest| > 0 then rest[1..] else []);
    }

    method WriteNoPhase(id: nat, now: nat)
      modifies `cleared
      ensures cleared == old(cleared)[id := now]
    {
      cleared := cleared[id := now];
    }

    /** The request is over without the compact it was for, or without the resume prompt. */
    method GiveUp(v: View, id: nat, r: Req, why: Reason)
      modifies this, suppressed
      ensures Value() == GivenUp(old(Value()), v, id, r, why)
    {
      var compacted := r.phase.Resume?;
      WriteNoPhase(id, v.now);
      Say(GaveUp(id, r.rid, compacted, r.owner.Some?, v));
      if compacted {
        Delete(id);
        return;
      }
      if r.owner.Some? {
        var _ := suppressed.Failed(id, v.now);
      }
      Set(id, r.(phase := Phase.Failed, why := Some(why)));
    }

    method WaitForBox(v: View, id: nat, r: Req, idle: bool)
      modifies this, suppressed
      ensures Value() == WaitedForBox(old(Value()), v, id, r, idle)
    {
      if !idle {
        if r.idleSince != 0 {
          Set(id, r.(idleSince := 0));
        }
        return;
      }
      if r.idleSince == 0 {
        Set(id, r.(idleSince := v.now));
        return;
      }
      if v.now - r.idleSince > IDLE_GIVE_UP {
        GiveUp(v, id, r, BoxInTheWay);
      }
    }

    method InRequested(v: View, id: nat, r: Req)
      modifies this, suppressed
      ensures Value() == StepRequested(old(Value()), v, id, r)
    {
      var b := Blocker(v, id);
      if b.Some? {
        WaitForBox(v, id, r, b.value);
        return;
      }
      Say(TypedCompact(id, r.rid, v));
      Set(id, r.(phase := Compacting, typedAt := v.now, sawStart := false, refusedBefore := id in v.refusing, idleSince := 0));
    }

    method InCompacting(v: View, id: nat, r0: Req)
      modifies this, suppressed
      ensures Value() == StepCompacting(old(Value()), v, id, r0)
    {
      var r := r0;
      var e := EntryOf(v, id);
      var since := v.now - r.typedAt;
      if e.Some? && e.value.compacting && !r.sawStart {
        r := r.(sawStart := true);
        Set(id, r);
      }
      if !r.refusedBefore && id in v.refusing {
        GiveUp(v, id, r, TooLittle);
      } else if !r.sawStart && since > START_TIMEOUT {
        GiveUp(v, id, r, NeverStarted);
      } else if r.sawStart && e.Some? && !e.value.compacting {
        GiveUp(v, id, r, EndedEarly);
      } else if since > RUN_TIMEOUT {
        GiveUp(v, id, r, RanTooLong);
      }
    }

    method InResume(v: View, id: nat, r: Req)
      modifies this, suppressed
      ensures Value() == StepResume(old(Value()), v, id, r)
    {
      var b := Blocker(v, id);
      if b.Some? {
        WaitForBox(v, id, r, b.value);
        return;
      }
      Say(TypedResume(id, r.rid, v));
      Delete(id);
      WriteNoPhase(id, v.now);
    }

    /** Advance one request as far as the row's state allows. */
    method Step(v: View, id: nat)
      modifies this, suppressed
      ensures Value() == Stepped(old(Value()), v, id)
      decreases if id in reqs && !reqs[id].phase.Resume? then 1 else 0
    {
      if id !in reqs || reqs[id].phase.Failed? {
        return;
      }
      var r := reqs[id];
      var s := SessionOf(v, id);
      if s.None? || s.value.exited {
        Delete(id);
        WriteNoPhase(id, v.now);
        return;
      }
      if v.holding && (r.phase.Requested? || r.phase.Resume?) {
        if r.phase.Requested? {
          suppressed.Release(id);
          Say(Released(id, CalledOff(r.rid, r.owner), v));
        }
        Delete(id);
        WriteNoPhase(id, v.now);
        return;
      }
      if !r.phase.Resume? && ReportsResume(v, id) {
        Say(SawResume(id, r.rid, v));
        Set(id, r.(phase := Resume, idleSince := if r.phase.Requested? then 0 else r.idleSince));
        Step(v, id);
        return;
      }
      match r.phase {
        case Requested => InRequested(v, id, r);
        case Compacting => InCompacting(v, id, r);
        case Resume => InResume(v, id, r);
      }
    }

    /** Every request of the moment a step, in the order they were made. */
    method StepAll(v: View)
      modifies this, suppressed
      ensures Value() == SteppedAll(old(Value()), v, old(order))
    {
      var ids := order;
      ghost var last := SteppedAll(Value(), v, ids);
      while |ids| > 0
        invariant SteppedAll(Value(), v, ids) == last
        decreases |ids|
      {
        Step(v, ids[0]);
        ids := ids[1..];
      }
    }

    method Start(v: View, id: nat, owner: Option<nat>)
      modifies this, suppressed
      ensures Value() == StartedOn(old(Value()), v, id, owner)
    {
      hide Stepped;
      var r := Req(next, Requested, 0, false, false, owner, 0, None);
      Say(Act.Started(id, next, owner, v));
      next := next + 1;
      Set(id, r);
      Step(v, id);
    }

    /** Start a request, or cancel the one there is. */
    method ToggleRow(v: View, id: nat) returns (t: Toggle)
      modifies this, suppressed
      ensures (Value(), t) == Toggled(old(Value()), v, id)
      ensures old(Inv(Value())) ==> Inv(Value())
    {
      ghost var m := Value();
      if Inv(m) {
        CalledKeeps(m, Toggle(id, v));
      }
      var s := SessionOf(v, id);
      if s.None? || s.value.kind.Shell? || s.value.exited || s.value.failed {
        return NothingToCompact;
      }
      if id in reqs && !reqs[id].phase.Failed? {
        Delete(id);
        WriteNoPhase(id, v.now);
        return Ok;
      }
      if v.holding {
        return Quitting;
      }
      Start(v, id, None);
      t := Ok;
    }

    /** The lowest threshold over the row: a running minimum. */
    static method LowestRuleFor(v: View, list: seq<Session>, id: nat) returns (best: Option<nat>)
      ensures best == RuleFor(v, list, id)
    {
      best := None;
      assert list[..|list|] == list;
      for i := 0 to |list|
        invariant best == RuleFor(v, list[..i], id)
      {
        assert list[..i + 1][..i] == list[..i];
        var o := list[i];
        if o.autoCompact.None? {
          continue;
        }
        if Covers(v, o, id) {
          best := if best.None? || o.autoCompact.value <= best.value then o.autoCompact else best;
        }
      }
    }

    method SuppressedRelease(v: View, id: nat)
      modifies this, suppressed
      ensures Value() == ReleaseCheck(old(Value()), v, id)
    {
      var pct := LowestRuleFor(v, v.sessions, id);
      if id !in suppressed.held || (id in reqs && !reqs[id].phase.Failed?) {
        return;
      }
      if pct.None? || id !in v.ctx || v.ctx[id] < pct.value {
        suppressed.Release(id);
        Say(Released(id, SeenLow, v));
      }
    }

    /** End the phase files no request here is behind. */
    method Sweep(v: View)
      modifies this
      ensures Value() == Swept(old(Value()), v, v.entries)
    {
      var list := v.entries;
      ghost var last := Swept(Value(), v, list);
      while |list| > 0
        invariant Swept(Value(), v, list) == last
        decreases |list|
      {
        var e := list[0];
        if e.phase.Some? && e.id !in reqs
           && v.now - (if e.id in cleared then cleared[e.id] else 0) >= CLEAR_LAG
           && exists s :: s in v.sessions && s.id == e.id && !s.exited {
          WriteNoPhase(e.id, v.now);
          Say(EndedOrphan(e.id, e.phase != Some(FRequested), v));
        }
        list := list[1..];
      }
    }

    /** One rule's rows. */
    method ApplyRule(v: View, o: Session)
      modifies this, suppressed
      ensures Value() == RuleStarts(old(Value()), v, o)
    {
      if o.autoCompact.None? || o.kind.Shell? {
        return;
      }
      var pct, rows := o.autoCompact.value, [o] + Under(v, o.id);
      ghost var last := AutoStarts(Value(), v, o.id, pct, rows);
      while |rows| > 0
        invariant AutoStarts(Value(), v, o.id, pct, rows) == last
        decreases |rows|
      {
        var c := rows[0];
        rows := rows[1..];
        if !c.kind.Claude? || c.exited || c.failed {
          continue;
        }
        var waits := suppressed.MustWait(c.id, v.now);
        if c.id !in v.ctx || v.ctx[c.id] < pct || waits || (c.id in reqs && !reqs[c.id].phase.Failed?) {
          continue;
        }
        if c.id in v.saving {
          continue;
        }
        suppressed.Started(c.id);
        Start(v, c.id, Some(o.id));
      }
    }

    /** Apply every rule of the project, after everything else a hub update may move on. */
    method AutoTick(v: View)
      modifies this, suppressed
      ensures Value() == Ticked(old(Value()), v)
      ensures old(Inv(Value())) ==> Inv(Value())
    {
      ghost var m := Value();
      if Inv(m) {
        TickedKeeps(m, v);
      }
      if v.remote || !v.known {
        return;
      }
      StepAll(v);
      Sweep(v);
      var list := v.sessions;
      ghost var released := ReleaseChecks(Value(), v, list);
      while |list| > 0
        invariant ReleaseChecks(Value(), v, list) == released
        decreases |list|
      {
        SuppressedRelease(v, list[0].id);
        list := list[1..];
      }
      if v.holding {
        return;
      }
      list := v.sessions;
      ghost var last := AllRuleStarts(Value(), v, list);
      while |list| > 0
        invariant AllRuleStarts(Value(), v, list) == last
        decreases |list|
      {
        ApplyRule(v, list[0]);
        list := list[1..];
      }
    }

    /** The notice's time is up. */
    method EndNotice(id: nat)
      modifies `order, `reqs
      ensures Value() == NoticeOver(old(Value()), id)
    {
      if id in reqs && reqs[id].phase.Failed? {
        Delete(id);
      }
    }

    /** The row exited or restarted. */
    method DropRow(v: View, id: nat)
      modifies this, suppressed
      ensures Value() == DroppedRow(old(Value()), v, id)
      ensures old(Inv(Value())) ==> Inv(Value())
    {
      ghost var m := Value();
      if Inv(m) {
        DroppedKeeps(m, v, id);
      }
      suppressed.Release(id);
      Say(Released(id, Dropped, v));
      if id in reqs {
        Delete(id);
        WriteNoPhase(id, v.now);
      }
    }
  }
}
