/**
 The compact request machine of one project: what each call does to the requests, and to a trace of everything it
 typed, said or decided. Screens, hub snapshots and the clock are inputs.
*/
module Compact {
  import opened Wrappers

  const START_TIMEOUT: nat := 15000
  const RUN_TIMEOUT: nat := 900000
  const IDLE_GIVE_UP: nat := 60000
  const CLEAR_LAG: nat := 5000
  const RETRY_AFTER: nat := 600000

  // ---------- What the window sees ----------

  datatype Kind = Claude | Codex | Shell

  datatype Session = Session(id: nat, kind: Kind, exited: bool, failed: bool, autoCompact: Option<nat>)

  datatype FilePhase = FRequested | FCompacting | FResume

  /** A row's hub status. */
  datatype Entry = Entry(id: nat, phase: Option<FilePhase>, compacting: bool, backgroundOnly: bool)

  datatype Status = Waiting | Working | OtherStatus

  datatype Box = Empty | Draft | NoBox

  /**
   One look at the project: `known` when the project is there at all, `holding` while Checkpoint & Quit holds
   compacts, `under` a row's sidebar subtree, `refusing` the rows whose screen shows the refusal.
  */
  datatype View = View(
    now: nat, known: bool, remote: bool, holding: bool, sessions: seq<Session>, under: map<nat, seq<Session>>,
    entries: seq<Entry>, statuses: map<nat, Status>, boxes: map<nat, Box>, refusing: set<nat>, ctx: map<nat, nat>,
    saving: set<nat>)

  function FindSession(list: seq<Session>, id: nat): Option<Session> {
    if |list| == 0 then None
    else if list[0].id == id then Some(list[0])
    else FindSession(list[1..], id)
  }

  function FindEntry(list: seq<Entry>, id: nat): Option<Entry> {
    if |list| == 0 then None
    else if list[0].id == id then Some(list[0])
    else FindEntry(list[1..], id)
  }

  function SessionOf(v: View, id: nat): Option<Session> {
    if v.known then FindSession(v.sessions, id) else None
  }

  function EntryOf(v: View, id: nat): Option<Entry> {
    FindEntry(v.entries, id)
  }

  function Under(v: View, id: nat): seq<Session> {
    if id in v.under then v.under[id] else []
  }

  /** Its turn is over: waiting, or working with only background work left. */
  predicate TurnOver(v: View, id: nat) {
    && id in v.statuses
    && (v.statuses[id] == Waiting || (v.statuses[id] == Working && EntryOf(v, id).Some? && EntryOf(v, id).value.backgroundOnly))
  }

  predicate BoxEmpty(v: View, id: nat) {
    id in v.boxes && v.boxes[id] == Empty
  }

  predicate ReportsResume(v: View, id: nat) {
    EntryOf(v, id).Some? && EntryOf(v, id).value.phase == Some(FResume)
  }

  // ---------- State ----------

  datatype Phase = Requested | Compacting | Resume | Failed

  datatype Reason = BoxInTheWay | TooLittle | NeverStarted | EndedEarly | RanTooLong

  /** `rid` names the request in the trace; `owner` is the row whose rule started it, if one did. */
  datatype Req = Req(
    rid: nat, phase: Phase, typedAt: nat, sawStart: bool, refusedBefore: bool, owner: Option<nat>, idleSince: nat,
    why: Option<Reason>)

  /** Why a row's automatic attempt was released; a hold names the request it called off, and whose rule made it. */
  datatype Release = SeenLow | CalledOff(rid: nat, owner: Option<nat>) | Dropped

  datatype Act =
    | Started(id: nat, rid: nat, owner: Option<nat>, v: View)
    | TypedCompact(id: nat, rid: nat, v: View)
    | SawResume(id: nat, rid: nat, v: View)
    | TypedResume(id: nat, rid: nat, v: View)
    | GaveUp(id: nat, rid: nat, compacted: bool, auto: bool, v: View)
    | Released(id: nat, why: Release, v: View)
    | EndedOrphan(id: nat, compacted: bool, v: View)

  /** `attempts`: row -> when a retry is allowed, or None when only a drop below the line releases it. */
  datatype Machine = Machine(
    order: seq<nat>, reqs: map<nat, Req>, cleared: map<nat, nat>, attempts: map<nat, Option<nat>>, next: nat, trace: seq<Act>)

  const IDLE_MACHINE := Machine([], map[], map[], map[], 0, [])

  predicate Active(m: Machine, id: nat) {
    id in m.reqs && !m.reqs[id].phase.Failed?
  }

  predicate Blocks(attempts: map<nat, Option<nat>>, id: nat, now: nat) {
    id in attempts && (attempts[id].None? || now < attempts[id].value)
  }

  function Without(order: seq<nat>, id: nat): seq<nat> {
    if |order| == 0 then []
    else if order[0] == id then order[1..]
    else [order[0]] + Without(order[1..], id)
  }

  function Put(m: Machine, id: nat, r: Req): Machine {
    m.(order := if id in m.reqs then m.order else m.order + [id], reqs := m.reqs[id := r])
  }

  function Removed(m: Machine, id: nat): Machine {
    if id in m.reqs then m.(order := Without(m.order, id), reqs := m.reqs - {id}) else m
  }

  function Said(m: Machine, a: Act): Machine {
    m.(trace := m.trace + [a])
  }

  /** The request is gone, and its phase file with it. */
  function Ended(m: Machine, id: nat, now: nat): Machine {
    Removed(m, id).(cleared := m.cleared[id := now])
  }

  function ReleasedRow(m: Machine, id: nat, why: Release, v: View): Machine {
    Said(m.(attempts := m.attempts - {id}), Released(id, why, v))
  }

  // ---------- One request's step ----------

  /** Why nothing can be typed: None when it can, else whether the turn is over and only the box stands in the way. */
  function Blocker(v: View, id: nat): Option<bool> {
    var status := if v.known && id in v.statuses then Some(v.statuses[id]) else None;
    var bgOnly := status == Some(Working) && EntryOf(v, id).Some? && EntryOf(v, id).value.backgroundOnly;
    if status != Some(Waiting) && !bgOnly then Some(false)
    else
      var box := if id in v.boxes then v.boxes[id] else NoBox;
      if box == Empty then None else Some(true)
  }

  /** A failed attempt may retry later. */
  function FailedAttempt(attempts: map<nat, Option<nat>>, id: nat, now: nat): map<nat, Option<nat>> {
    if id in attempts then attempts[id := Some(now + RETRY_AFTER)] else attempts
  }

  function GivenUp(m: Machine, v: View, id: nat, r: Req, why: Reason): Machine {
    var compacted := r.phase.Resume?;
    var m1 := Said(m.(cleared := m.cleared[id := v.now]), GaveUp(id, r.rid, compacted, r.owner.Some?, v));
    if compacted then Removed(m1, id)
    else
      var m2 := if r.owner.Some? then m1.(attempts := FailedAttempt(m1.attempts, id, v.now)) else m1;
      Put(m2, id, r.(phase := Failed, why := Some(why)))
  }

  function WaitedForBox(m: Machine, v: View, id: nat, r: Req, idle: bool): Machine {
    if !idle then (if r.idleSince != 0 then Put(m, id, r.(idleSince := 0)) else m)
    else if r.idleSince == 0 then Put(m, id, r.(idleSince := v.now))
    else if v.now - r.idleSince > IDLE_GIVE_UP then GivenUp(m, v, id, r, BoxInTheWay)
    else m
  }

  function StepRequested(m: Machine, v: View, id: nat, r: Req): Machine {
    var b := Blocker(v, id);
    if b.Some? then WaitedForBox(m, v, id, r, b.value)
    else
      Put(Said(m, TypedCompact(id, r.rid, v)), id,
          r.(phase := Compacting, typedAt := v.now, sawStart := false, refusedBefore := id in v.refusing, idleSince := 0))
  }

  function StepCompacting(m: Machine, v: View, id: nat, r0: Req): Machine {
    var e := EntryOf(v, id);
    var since := v.now - r0.typedAt;
    var starts := e.Some? && e.value.compacting && !r0.sawStart;
    var r := if starts then r0.(sawStart := true) else r0;
    var m1 := if starts then Put(m, id, r) else m;
    if !r.refusedBefore && id in v.refusing then GivenUp(m1, v, id, r, TooLittle)
    else if !r.sawStart && since > START_TIMEOUT then GivenUp(m1, v, id, r, NeverStarted)
    else if r.sawStart && e.Some? && !e.value.compacting then GivenUp(m1, v, id, r, EndedEarly)
    else if since > RUN_TIMEOUT then GivenUp(m1, v, id, r, RanTooLong)
    else m1
  }

  function StepResume(m: Machine, v: View, id: nat, r: Req): Machine {
    var b := Blocker(v, id);
    if b.Some? then WaitedForBox(m, v, id, r, b.value)
    else Ended(Said(m, TypedResume(id, r.rid, v)), id, v.now)
  }

  /** The hold ends what has not typed `/compact`, and what was about to type the resume prompt. */
  function HeldOff(m: Machine, v: View, id: nat, r: Req): Machine {
    Ended(if r.phase.Requested? then ReleasedRow(m, id, CalledOff(r.rid, r.owner), v) else m, id, v.now)
  }

  function Resuming(m: Machine, v: View, id: nat, r: Req): Machine {
    Put(Said(m, SawResume(id, r.rid, v)), id, r.(phase := Resume, idleSince := if r.phase.Requested? then 0 else r.idleSince))
  }

  /** Advance one request as far as the row's state allows. */
  function Stepped(m: Machine, v: View, id: nat): Machine {
    if !Active(m, id) then m
    else
      var r := m.reqs[id];
      if SessionOf(v, id).None? || SessionOf(v, id).value.exited then Ended(m, id, v.now)
      else if v.holding && !r.phase.Compacting? then HeldOff(m, v, id, r)
      else if r.phase.Resume? then StepResume(m, v, id, r)
      else if ReportsResume(v, id) then
        var m1 := Resuming(m, v, id, r);
        if v.holding then HeldOff(m1, v, id, m1.reqs[id]) else StepResume(m1, v, id, m1.reqs[id])
      else if r.phase.Requested? then StepRequested(m, v, id, r)
      else StepCompacting(m, v, id, r)
  }

  function SteppedAll(m: Machine, v: View, ids: seq<nat>): Machine
    decreases |ids|
  {
    if |ids| == 0 then m else SteppedAll(Stepped(m, v, ids[0]), v, ids[1..])
  }

  // ---------- Starting ----------

  /** A new request under a new name, before its first step. */
  function Named(m: Machine, v: View, id: nat, owner: Option<nat>): Machine {
    Put(Said(m.(next := m.next + 1), Started(id, m.next, owner, v)), id, Req(m.next, Requested, 0, false, false, owner, 0, None))
  }

  function StartedOn(m: Machine, v: View, id: nat, owner: Option<nat>): Machine {
    Stepped(Named(m, v, id, owner), v, id)
  }

  datatype Toggle = Ok | NothingToCompact | Quitting

  function Toggled(m: Machine, v: View, id: nat): (Machine, Toggle) {
    var s := SessionOf(v, id);
    if s.None? || s.value.kind.Shell? || s.value.exited || s.value.failed then (m, NothingToCompact)
    else if Active(m, id) then (Ended(m, id, v.now), Ok)
    else if v.holding then (m, Quitting)
    else (StartedOn(m, v, id, None), Ok)
  }

  // ---------- The rules ----------

  predicate Covers(v: View, o: Session, id: nat) {
    o.id == id || exists d :: d in Under(v, o.id) && d.id == id
  }

  function MinRule(a: Option<nat>, b: Option<nat>): Option<nat> {
    if a.None? then b else if b.None? then a else if a.value < b.value then a else b
  }

  /** The lowest threshold the row's own rule or any ancestor's puts on it. */
  function RuleFor(v: View, list: seq<Session>, id: nat): Option<nat> {
    if |list| == 0 then None
    else
      var o := list[|list| - 1];
      MinRule(RuleFor(v, list[..|list| - 1], id), if o.autoCompact.Some? && Covers(v, o, id) then o.autoCompact else None)
  }

  /** Below the lowest rule on it, or with no rule, or with no number. */
  predicate SeenBelow(v: View, id: nat) {
    RuleFor(v, v.sessions, id).None? || id !in v.ctx || v.ctx[id] < RuleFor(v, v.sessions, id).value
  }

  function ReleaseCheck(m: Machine, v: View, id: nat): Machine {
    if id in m.attempts && !Active(m, id) && SeenBelow(v, id) then ReleasedRow(m, id, SeenLow, v) else m
  }

  function ReleaseChecks(m: Machine, v: View, list: seq<Session>): Machine
    decreases |list|
  {
    if |list| == 0 then m else ReleaseChecks(ReleaseCheck(m, v, list[0].id), v, list[1..])
  }

  /** A phase file no request here is behind. */
  predicate Orphan(m: Machine, v: View, e: Entry) {
    && e.phase.Some? && e.id !in m.reqs
    && v.now - (if e.id in m.cleared then m.cleared[e.id] else 0) >= CLEAR_LAG
    && exists s :: s in v.sessions && s.id == e.id && !s.exited
  }

  function Swept(m: Machine, v: View, list: seq<Entry>): Machine
    decreases |list|
  {
    if |list| == 0 then m
    else
      var e := list[0];
      Swept(if Orphan(m, v, e)
            then Said(m.(cleared := m.cleared[e.id := v.now]), EndedOrphan(e.id, e.phase != Some(FRequested), v))
            else m, v, list[1..])
  }

  /** Whether the rule `pct` starts a compact on row `c` now. */
  predicate Fires(m: Machine, v: View, pct: nat, c: Session) {
    && c.kind.Claude? && !c.exited && !c.failed
    && c.id in v.ctx && v.ctx[c.id] >= pct
    && !Blocks(m.attempts, c.id, v.now) && !Active(m, c.id) && c.id !in v.saving
  }

  function AutoStart(m: Machine, v: View, owner: nat, pct: nat, c: Session): Machine {
    if Fires(m, v, pct, c) then StartedOn(m.(attempts := m.attempts[c.id := None]), v, c.id, Some(owner)) else m
  }

  function AutoStarts(m: Machine, v: View, owner: nat, pct: nat, rows: seq<Session>): Machine
    decreases |rows|
  {
    if |rows| == 0 then m else AutoStarts(AutoStart(m, v, owner, pct, rows[0]), v, owner, pct, rows[1..])
  }

  function RuleStarts(m: Machine, v: View, o: Session): Machine {
    if o.autoCompact.None? || o.kind.Shell? then m else AutoStarts(m, v, o.id, o.autoCompact.value, [o] + Under(v, o.id))
  }

  function AllRuleStarts(m: Machine, v: View, list: seq<Session>): Machine
    decreases |list|
  {
    if |list| == 0 then m else AllRuleStarts(RuleStarts(m, v, list[0]), v, list[1..])
  }

  /** Every request a step, orphans ended, rows released, and, unless compacts are held, the rules applied. */
  function Ticked(m: Machine, v: View): Machine {
    if v.remote || !v.known then m
    else
      var m1 := ReleaseChecks(Swept(SteppedAll(m, v, m.order), v, v.entries), v, v.sessions);
      if v.holding then m1 else AllRuleStarts(m1, v, v.sessions)
  }

  function DroppedRow(m: Machine, v: View, id: nat): Machine {
    var m1 := ReleasedRow(m, id, Dropped, v);
    if id in m1.reqs then Ended(m1, id, v.now) else m1
  }

  /** The notice's time is up. */
  function NoticeOver(m: Machine, id: nat): Machine {
    if id in m.reqs && m.reqs[id].phase.Failed? then Removed(m, id) else m
  }

  datatype Call = Toggle(id: nat, v: View) | Poll(v: View) | Tick(v: View) | Drop(id: nat, v: View) | NoticeDone(id: nat)

  function Called(m: Machine, c: Call): Machine {
    match c
    case Toggle(id, v) => Toggled(m, v, id).0
    case Poll(v) => SteppedAll(m, v, m.order)
    case Tick(v) => Ticked(m, v)
    case Drop(id, v) => DroppedRow(m, v, id)
    case NoticeDone(id) => NoticeOver(m, id)
  }

  function Run(m: Machine, calls: seq<Call>): Machine
    decreases |calls|
  {
    if |calls| == 0 then m else Run(Called(m, calls[0]), calls[1..])
  }
}
