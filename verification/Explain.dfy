/**
 Explain's two locked maps, shared by commands and child threads. Every critical section is one step, and so is
 every delete, kill and emit between them; any interleaving of any number of threads is a run.
*/
module Explain {
  import opened Wrappers

  /** A row's running child: its request, and the thread that reads it. */
  datatype Entry = Entry(req: nat, child: nat)

  /** A panel's fork session: the request that makes it, and its id once that request's child has reported it. */
  datatype Slot = Slot(req: nat, uuid: Option<nat>)

  /** What follows a cancel: the rest of a discard, a spawn, or nothing. */
  datatype After = ThenDiscard | ThenSpawn(forks: bool) | ThenNothing

  /** Where a thread stands. */
  datatype At =
    | ToCancel(after: After)
    | ToKill(child: nat, after: After)
    | ToTakeFork
    | ToDelete(uuid: nat)
    | ToPutFork
    | ToLook
    | ToSpawn(forks: bool)
    | ToRegister(forks: bool)
    | Reading(mayReport: bool)
    | ToDeleteReport(uuid: nat)
    | ToTake
    | ToEmit
    | Over

  /** A command on a row, or, once it has spawned a child, the thread that reads it. Only requests have names. */
  datatype Thread = Thread(row: nat, req: Option<nat>, at: At)

  /** Where a reported fork id is. */
  datatype Place = InSlot(row: nat) | InHand(tid: nat) | Gone

  datatype State = State(
    running: map<nat, Entry>, forks: map<nat, Slot>, threads: map<nat, Thread>, place: map<nat, Place>, deleted: set<nat>,
    killed: set<nat>, cancelled: set<nat>, emitted: multiset<nat>)

  const NOTHING := State(map[], map[], map[], map[], {}, {}, {}, multiset{})

  // ---------- The critical sections ----------

  /** Remove the row's running entry, if any. */
  function TookRunning(running: map<nat, Entry>, row: nat): (map<nat, Entry>, Option<Entry>) {
    if row in running then (running - {row}, Some(running[row])) else (running, None)
  }

  function TookFork(forks: map<nat, Slot>, row: nat): (map<nat, Slot>, Option<Slot>) {
    if row in forks then (forks - {row}, Some(forks[row])) else (forks, None)
  }

  /** Record the reported id if the slot is still this request's; else the caller must delete it. */
  function NotedFork(forks: map<nat, Slot>, row: nat, req: nat, uuid: nat): (map<nat, Slot>, bool) {
    if row in forks && forks[row].req == req then (forks[row := Slot(req, Some(uuid))], true) else (forks, false)
  }

  /** Remove the row's entry if it is still this request's. */
  function TookIfOurs(running: map<nat, Entry>, row: nat, req: nat): (map<nat, Entry>, bool) {
    if row in running && running[row].req == req then (running - {row}, true) else (running, false)
  }

  // ---------- Steps ----------

  datatype Event =
    | BeginStart(tid: nat, row: nat, req: nat)
    | BeginFollow(tid: nat, row: nat, req: nat)
    | BeginDiscard(tid: nat, row: nat)
    | BeginCancel(tid: nat, row: nat)
    | Go(tid: nat)
    | SpawnFails(tid: nat)
    | Reports(tid: nat, uuid: nat)

  function AfterCancel(after: After): At {
    match after
    case ThenDiscard => ToTakeFork
    case ThenSpawn(forks) => ToSpawn(forks)
    case ThenNothing => Over
  }

  /** After a discard: a start goes on to put its own slot. */
  function AfterDiscard(req: Option<nat>): At {
    if req.Some? then ToPutFork else Over
  }

  /** A start that has not put its slot yet. */
  predicate InStart(t: Thread) {
    t.req.Some? &&
    match t.at
    case ToCancel(after) => after.ThenDiscard?
    case ToKill(_, after) => after.ThenDiscard?
    case ToTakeFork => true
    case ToDelete(_) => true
    case ToPutFork => true
    case _ => false
  }

  /** A new thread, and for a request a new name. */
  predicate Fresh(s: State, tid: nat, req: Option<nat>) {
    tid !in s.threads && (req.Some? ==> forall t :: t in s.threads ==> s.threads[t].req != req)
  }

  /** Starts of one row do not overlap; each reported id is new. */
  predicate Enabled(s: State, e: Event) {
    match e
    case BeginStart(tid, row, req) =>
      Fresh(s, tid, Some(req)) && forall t :: t in s.threads && s.threads[t].row == row ==> !InStart(s.threads[t])
    case BeginFollow(tid, row, req) => Fresh(s, tid, Some(req))
    case BeginDiscard(tid, row) => Fresh(s, tid, None)
    case BeginCancel(tid, row) => Fresh(s, tid, None)
    case Go(tid) => tid in s.threads
    case SpawnFails(tid) => tid in s.threads && s.threads[tid].at.ToSpawn?
    case Reports(tid, uuid) => tid in s.threads && s.threads[tid].at == Reading(true) && uuid !in s.place
  }

  function Moved(s: State, tid: nat, at: At): (r: State)
    requires tid in s.threads
    ensures tid in r.threads && r.threads[tid].at == at
  {
    s.(threads := s.threads[tid := s.threads[tid].(at := at)])
  }

  function Begun(s: State, tid: nat, t: Thread): State {
    s.(threads := s.threads[tid := t])
  }

  /** The map sections' effects, without the thread's own move. */
  function Cancelled(s: State, row: nat): State {
    var (running, entry) := TookRunning(s.running, row);
    if entry.Some? then s.(running := running, cancelled := s.cancelled + {entry.value.child}) else s
  }

  function GoCancel(s: State, tid: nat, row: nat, after: After): State
    requires tid in s.threads
  {
    var entry := TookRunning(s.running, row).1;
    Moved(Cancelled(s, row), tid, if entry.Some? then ToKill(entry.value.child, after) else AfterCancel(after))
  }

  function GoTakeFork(s: State, tid: nat, row: nat, req: Option<nat>): State
    requires tid in s.threads
  {
    var (forks, slot) := TookFork(s.forks, row);
    if slot.Some? && slot.value.uuid.Some? then
      Moved(s.(forks := forks, place := s.place[slot.value.uuid.value := InHand(tid)]), tid, ToDelete(slot.value.uuid.value))
    else Moved(s.(forks := forks), tid, AfterDiscard(req))
  }

  function GoDeleted(s: State, tid: nat, uuid: nat, at: At): State
    requires tid in s.threads
  {
    Moved(s.(deleted := s.deleted + {uuid}, place := s.place[uuid := Gone]), tid, at)
  }

  function GoLook(s: State, tid: nat, row: nat): State
    requires tid in s.threads
  {
    Moved(s, tid, if row in s.forks && s.forks[row].uuid.Some? then ToCancel(ThenSpawn(false)) else Over)
  }

  function GoTake(s: State, tid: nat, row: nat, req: nat): State
    requires tid in s.threads
  {
    var (running, ours) := TookIfOurs(s.running, row, req);
    Moved(s.(running := running), tid, if ours then ToEmit else Over)
  }

  function GoReport(s: State, tid: nat, row: nat, req: nat, uuid: nat): State
    requires tid in s.threads
  {
    var (forks, noted) := NotedFork(s.forks, row, req, uuid);
    if noted then Moved(s.(forks := forks, place := s.place[uuid := InSlot(row)]), tid, Reading(false))
    else Moved(s.(place := s.place[uuid := InHand(tid)]), tid, ToDeleteReport(uuid))
  }

  /** The thread's next step; only requests spawn, report and speak. */
  function Advanced(s: State, tid: nat): State
    requires tid in s.threads
  {
    var t := s.threads[tid];
    var req := if t.req.Some? then t.req.value else 0;
    match t.at
    case ToCancel(after) => GoCancel(s, tid, t.row, after)
    case ToKill(child, after) => Moved(s.(killed := s.killed + {child}), tid, AfterCancel(after))
    case ToTakeFork => GoTakeFork(s, tid, t.row, t.req)
    case ToDelete(uuid) => GoDeleted(s, tid, uuid, AfterDiscard(t.req))
    case ToPutFork => Moved(s.(forks := s.forks[t.row := Slot(req, None)]), tid, ToCancel(ThenSpawn(true)))
    case ToLook => GoLook(s, tid, t.row)
    case ToSpawn(forks) => Moved(s, tid, ToRegister(forks))
    case ToRegister(forks) => Moved(s.(running := s.running[t.row := Entry(req, tid)]), tid, Reading(forks))
    case Reading(_) => Moved(s, tid, ToTake)
    case ToDeleteReport(uuid) => GoDeleted(s, tid, uuid, Reading(false))
    case ToTake => GoTake(s, tid, t.row, req)
    case ToEmit => Moved(s.(emitted := s.emitted + multiset{req}), tid, Over)
    case Over => s
  }

  function Next(s: State, e: Event): State
    requires Enabled(s, e)
  {
    match e
    case BeginStart(tid, row, req) => Begun(s, tid, Thread(row, Some(req), ToCancel(ThenDiscard)))
    case BeginFollow(tid, row, req) => Begun(s, tid, Thread(row, Some(req), ToLook))
    case BeginDiscard(tid, row) => Begun(s, tid, Thread(row, None, ToCancel(ThenDiscard)))
    case BeginCancel(tid, row) => Begun(s, tid, Thread(row, None, ToCancel(ThenNothing)))
    case Go(tid) => Advanced(s, tid)
    case SpawnFails(tid) => Moved(s, tid, Over)
    case Reports(tid, uuid) =>
      GoReport(s, tid, s.threads[tid].row, if s.threads[tid].req.Some? then s.threads[tid].req.value else 0, uuid)
  }

  predicate Possible(s: State, events: seq<Event>)
    decreases |events|
  {
    |events| > 0 ==> Enabled(s, events[0]) && Possible(Next(s, events[0]), events[1..])
  }

  function Run(s: State, events: seq<Event>): State
    requires Possible(s, events)
    decreases |events|
  {
    if |events| == 0 then s else Run(Next(s, events[0]), events[1..])
  }

  // ---------- Who owns a fork ----------

  /** The id a thread is about to delete. */
  function Holding(at: At): Option<nat> {
    match at
    case ToDelete(uuid) => Some(uuid)
    case ToDeleteReport(uuid) => Some(uuid)
    case _ => None
  }

  /** A slot, a deleting thread or the deleted: each reported id is in exactly the place it is booked in. */
  ghost predicate Booked(forks: map<nat, Slot>, threads: map<nat, Thread>, deleted: set<nat>, place: map<nat, Place>) {
    && (forall row :: row in forks && forks[row].uuid.Some? ==>
          forks[row].uuid.value in place && place[forks[row].uuid.value] == InSlot(row))
    && (forall t :: t in threads && Holding(threads[t].at).Some? ==>
          Holding(threads[t].at).value in place && place[Holding(threads[t].at).value] == InHand(t))
    && (forall u :: u in deleted ==> u in place && place[u] == Gone)
    && (forall u :: u in place && place[u].InSlot? ==> place[u].row in forks && forks[place[u].row].uuid == Some(u))
    && (forall u :: u in place && place[u].InHand? ==> place[u].tid in threads && Holding(threads[place[u].tid].at) == Some(u))
    && (forall u :: u in place && place[u].Gone? ==> u in deleted)
  }

  /** In a start, after the old slot was taken. */
  predicate Between(t: Thread) {
    t.req.Some? && (t.at.ToPutFork? || t.at.ToDelete?)
  }

  /** Past the point where its child may report. */
  predicate Reported(at: At) {
    at == Reading(false) || at.ToDeleteReport? || at.ToTake? || at.ToEmit? || at.Over?
  }

  /** At a stage only requests reach. */
  predicate Asking(at: At) {
    match at
    case ToCancel(after) => after.ThenSpawn?
    case ToKill(_, after) => after.ThenSpawn?
    case ToTakeFork => false
    case ToDelete(_) => false
    case Over => false
    case _ => true
  }

  ghost predicate Named(threads: map<nat, Thread>) {
    && (forall t, u :: t in threads && u in threads && t != u && threads[t].req.Some? ==> threads[t].req != threads[u].req)
    && (forall t, u :: t in threads && u in threads && t != u && InStart(threads[t]) && InStart(threads[u]) ==> threads[t].row != threads[u].row)
    && (forall t :: t in threads && Asking(threads[t].at) ==> threads[t].req.Some?)
  }

  /** Between taking a row's old slot and putting the new there is none; a slot's request has a thread, past its report if the slot has an id. */
  ghost predicate Slots(forks: map<nat, Slot>, threads: map<nat, Thread>) {
    && (forall t :: t in threads && Between(threads[t]) ==> threads[t].row !in forks)
    && (forall row, t :: row in forks && forks[row].uuid.Some? && t in threads && threads[t].req == Some(forks[row].req) ==> Reported(threads[t].at))
    && (forall row :: row in forks ==> exists t :: t in threads && threads[t].req == Some(forks[row].req))
  }

  // ---------- Who speaks ----------

  /** Its child runs and is registered, and it has not tried to take its entry. */
  predicate Registered(at: At) {
    at.Reading? || at.ToDeleteReport? || at.ToTake?
  }

  ghost predicate Entries(running: map<nat, Entry>, threads: map<nat, Thread>, cancelled: set<nat>) {
    && (forall row :: row in running ==>
          var c := running[row].child;
          && c in threads && Registered(threads[c].at) && threads[c].row == row
          && threads[c].req == Some(running[row].req) && c !in cancelled)
    && (forall c :: c in cancelled ==> c in threads && (Registered(threads[c].at) || threads[c].at.Over?) && threads[c].req.Some?)
  }

  ghost predicate Silence(threads: map<nat, Thread>, cancelled: set<nat>, emitted: multiset<nat>) {
    && (forall c :: c in cancelled && c in threads && threads[c].req.Some? ==> emitted[threads[c].req.value] == 0)
    && (forall t :: t in threads && threads[t].req.Some? && !threads[t].at.Over? ==> emitted[threads[t].req.value] == 0)
    && (forall q :: q in emitted ==> emitted[q] == 1 && exists t :: t in threads && threads[t].req == Some(q))
  }

  ghost predicate Inv(s: State) {
    && Booked(s.forks, s.threads, s.deleted, s.place) && Named(s.threads) && Slots(s.forks, s.threads)
    && Entries(s.running, s.threads, s.cancelled) && Silence(s.threads, s.cancelled, s.emitted)
  }

  // ---------- A thread's own move ----------

  /** A move that neither takes up nor lays down an id, and does not leave the registered or begin to speak. */
  predicate PlainMove(t: Thread, at: At, forks: map<nat, Slot>) {
    && Holding(t.at).None? && Holding(at).None?
    && (InStart(t.(at := at)) ==> InStart(t))
    && (Asking(at) ==> t.req.Some?)
    && (Between(t.(at := at)) ==> t.row !in forks)
    && (Reported(t.at) ==> Reported(at))
    && (Registered(t.at) ==> Registered(at))
    && !t.at.Over?
  }

  lemma NamedMove(threads: map<nat, Thread>, tid: nat, at: At)
    requires Named(threads) && tid in threads
    requires InStart(threads[tid].(at := at)) ==> InStart(threads[tid])
    requires Asking(at) ==> threads[tid].req.Some?
    ensures Named(threads[tid := threads[tid].(at := at)])
  {
  }

  lemma SlotsMove(forks: map<nat, Slot>, threads: map<nat, Thread>, tid: nat, at: At)
    requires Slots(forks, threads) && tid in threads
    requires Between(threads[tid].(at := at)) ==> threads[tid].row !in forks
    requires Reported(threads[tid].at) ==> Reported(at)
    ensures Slots(forks, threads[tid := threads[tid].(at := at)])
  {
    var threads1 := threads[tid := threads[tid].(at := at)];
    forall row | row in forks ensures exists u :: u in threads1 && threads1[u].req == Some(forks[row].req) {
      var u :| u in threads && threads[u].req == Some(forks[row].req);
      assert threads1[u].req == threads[u].req;
    }
  }

  lemma SilenceMove(threads: map<nat, Thread>, cancelled: set<nat>, emitted: multiset<nat>, tid: nat, at: At)
    requires Silence(threads, cancelled, emitted) && tid in threads
    requires threads[tid].at.Over? ==> at.Over?
    ensures Silence(threads[tid := threads[tid].(at := at)], cancelled, emitted)
  {
    var threads1 := threads[tid := threads[tid].(at := at)];
    forall q | q in emitted ensures emitted[q] == 1 && exists u :: u in threads1 && threads1[u].req == Some(q) {
      var u :| u in threads && threads[u].req == Some(q);
      assert threads1[u].req == threads[u].req;
    }
  }

  lemma EntriesMove(running: map<nat, Entry>, threads: map<nat, Thread>, cancelled: set<nat>, tid: nat, at: At)
    requires Entries(running, threads, cancelled) && tid in threads
    requires Registered(threads[tid].at) ==> Registered(at)
    requires threads[tid].at.Over? ==> at.Over?
    ensures Entries(running, threads[tid := threads[tid].(at := at)], cancelled)
  {
  }

  lemma BookedMove(forks: map<nat, Slot>, threads: map<nat, Thread>, deleted: set<nat>, place: map<nat, Place>, tid: nat, at: At)
    requires Booked(forks, threads, deleted, place) && tid in threads
    requires Holding(threads[tid].at).None? && Holding(at).None?
    ensures Booked(forks, threads[tid := threads[tid].(at := at)], deleted, place)
  {
  }

  lemma PlainKeeps(s: State, tid: nat, at: At)
    requires Inv(s) && tid in s.threads && PlainMove(s.threads[tid], at, s.forks)
    ensures Inv(Moved(s, tid, at))
  {
    hide Booked, Named, Slots, Entries, Silence;
    BookedMove(s.forks, s.threads, s.deleted, s.place, tid, at);
    MoveKeepsRest(s, tid, at);
  }

  /** All but the books, which a thread that takes up or lays down an id changes as well. */
  lemma MoveKeepsRest(s: State, tid: nat, at: At)
    requires Inv(s) && tid in s.threads && !s.threads[tid].at.Over?
    requires InStart(s.threads[tid].(at := at)) ==> InStart(s.threads[tid])
    requires Asking(at) ==> s.threads[tid].req.Some?
    requires Between(s.threads[tid].(at := at)) ==> s.threads[tid].row !in s.forks
    requires Reported(s.threads[tid].at) ==> Reported(at)
    requires Registered(s.threads[tid].at) ==> Registered(at)
    ensures var threads1 := s.threads[tid := s.threads[tid].(at := at)];
            Named(threads1) && Slots(s.forks, threads1) && Entries(s.running, threads1, s.cancelled)
            && Silence(threads1, s.cancelled, s.emitted)
  {
    hide Booked, Named, Slots, Entries, Silence;
    NamedMove(s.threads, tid, at);
    SlotsMove(s.forks, s.threads, tid, at);
    EntriesMove(s.running, s.threads, s.cancelled, tid, at);
    SilenceMove(s.threads, s.cancelled, s.emitted, tid, at);
  }

  lemma NamedNew(threads: map<nat, Thread>, tid: nat, t: Thread)
    requires Named(threads) && tid !in threads && (Asking(t.at) ==> t.req.Some?)
    requires t.req.Some? ==> forall u :: u in threads ==> threads[u].req != t.req
    requires InStart(t) ==> forall u :: u in threads && threads[u].row == t.row ==> !InStart(threads[u])
    ensures Named(threads[tid := t])
  {
  }

  lemma SlotsNew(forks: map<nat, Slot>, threads: map<nat, Thread>, tid: nat, t: Thread)
    requires Slots(forks, threads) && tid !in threads && !Between(t)
    requires t.req.Some? ==> forall u :: u in threads ==> threads[u].req != t.req
    ensures Slots(forks, threads[tid := t])
  {
    var threads1 := threads[tid := t];
    forall row | row in forks ensures exists u :: u in threads1 && threads1[u].req == Some(forks[row].req) {
      var u :| u in threads && threads[u].req == Some(forks[row].req);
      assert threads1[u].req == threads[u].req;
    }
  }

  lemma SilenceNew(threads: map<nat, Thread>, cancelled: set<nat>, emitted: multiset<nat>, tid: nat, t: Thread)
    requires Silence(threads, cancelled, emitted) && tid !in threads && tid !in cancelled
    requires t.req.Some? ==> forall u :: u in threads ==> threads[u].req != t.req
    ensures Silence(threads[tid := t], cancelled, emitted)
  {
    var threads1 := threads[tid := t];
    forall q | q in emitted ensures emitted[q] == 1 && exists u :: u in threads1 && threads1[u].req == Some(q) {
      var u :| u in threads && threads[u].req == Some(q);
      assert threads1[u].req == threads[u].req;
    }
  }

  lemma EntriesNew(running: map<nat, Entry>, threads: map<nat, Thread>, cancelled: set<nat>, tid: nat, t: Thread)
    requires Entries(running, threads, cancelled) && tid !in threads
    ensures Entries(running, threads[tid := t], cancelled) && tid !in cancelled
  {
  }

  lemma BookedNew(forks: map<nat, Slot>, threads: map<nat, Thread>, deleted: set<nat>, place: map<nat, Place>, tid: nat, t: Thread)
    requires Booked(forks, threads, deleted, place) && tid !in threads && Holding(t.at).None?
    ensures Booked(forks, threads[tid := t], deleted, place)
  {
  }

  lemma BegunKeeps(s: State, tid: nat, t: Thread)
    requires Inv(s) && Fresh(s, tid, t.req) && (t.at.ToCancel? || t.at.ToLook?) && (Asking(t.at) ==> t.req.Some?)
    requires InStart(t) ==> forall u :: u in s.threads && s.threads[u].row == t.row ==> !InStart(s.threads[u])
    ensures Inv(Begun(s, tid, t))
  {
    hide Booked, Named, Slots, Entries, Silence;
    BookedNew(s.forks, s.threads, s.deleted, s.place, tid, t);
    NamedNew(s.threads, tid, t);
    SlotsNew(s.forks, s.threads, tid, t);
    EntriesNew(s.running, s.threads, s.cancelled, tid, t);
    SilenceNew(s.threads, s.cancelled, s.emitted, tid, t);
  }

  /** What `Named` says of one thread. */
  lemma AskerHasName(threads: map<nat, Thread>, tid: nat)
    requires Named(threads) && tid in threads && Asking(threads[tid].at)
    ensures threads[tid].req.Some?
  {
  }

  // ---------- Forks ----------

  lemma FewerSlots(forks: map<nat, Slot>, threads: map<nat, Thread>, row: nat)
    requires Slots(forks, threads)
    ensures Slots(forks - {row}, threads)
  {
  }

  lemma FewerBook(forks: map<nat, Slot>, threads: map<nat, Thread>, deleted: set<nat>, place: map<nat, Place>, row: nat)
    requires Booked(forks, threads, deleted, place) && (row in forks ==> forks[row].uuid.None?)
    ensures Booked(forks - {row}, threads, deleted, place)
  {
  }

  lemma TakenForkKeeps(s: State, tid: nat)
    requires Inv(s) && tid in s.threads && s.threads[tid].at.ToTakeFork?
    ensures Inv(GoTakeFork(s, tid, s.threads[tid].row, s.threads[tid].req))
  {
    hide Booked, Named, Slots, Entries, Silence;
    var (row, req) := (s.threads[tid].row, s.threads[tid].req);
    FewerSlots(s.forks, s.threads, row);
    assert TookFork(s.forks, row).0 == s.forks - {row};
    if row in s.forks && s.forks[row].uuid.Some? {
      var u := s.forks[row].uuid.value;
      HandedBook(s.forks, s.threads, s.deleted, s.place, row, tid);
      NamedMove(s.threads, tid, ToDelete(u));
      SlotsMove(s.forks - {row}, s.threads, tid, ToDelete(u));
      EntriesMove(s.running, s.threads, s.cancelled, tid, ToDelete(u));
      SilenceMove(s.threads, s.cancelled, s.emitted, tid, ToDelete(u));
    } else {
      FewerBook(s.forks, s.threads, s.deleted, s.place, row);
      PlainKeeps(s.(forks := s.forks - {row}), tid, AfterDiscard(req));
    }
  }

  /** An id passes from a slot into the hands of the thread that took it. */
  lemma HandedBook(forks: map<nat, Slot>, threads: map<nat, Thread>, deleted: set<nat>, place: map<nat, Place>, row: nat, tid: nat)
    requires Booked(forks, threads, deleted, place) && tid in threads && Holding(threads[tid].at).None?
    requires row in forks && forks[row].uuid.Some?
    ensures var u := forks[row].uuid.value;
            Booked(forks - {row}, threads[tid := threads[tid].(at := ToDelete(u))], deleted, place[u := InHand(tid)])
  {
  }

  lemma DeletedBook(forks: map<nat, Slot>, threads: map<nat, Thread>, deleted: set<nat>, place: map<nat, Place>, tid: nat, u: nat, at: At)
    requires Booked(forks, threads, deleted, place) && tid in threads && Holding(threads[tid].at) == Some(u) && Holding(at).None?
    ensures Booked(forks, threads[tid := threads[tid].(at := at)], deleted + {u}, place[u := Gone])
  {
  }

  lemma StartHasNoSlot(forks: map<nat, Slot>, threads: map<nat, Thread>, tid: nat)
    requires Slots(forks, threads) && tid in threads && Between(threads[tid])
    ensures threads[tid].row !in forks
  {
  }

  lemma DeletedKeeps(s: State, tid: nat, u: nat, at: At)
    requires Inv(s) && tid in s.threads && Holding(s.threads[tid].at) == Some(u)
    requires at == if s.threads[tid].at.ToDelete? then AfterDiscard(s.threads[tid].req) else Reading(false)
    ensures Inv(GoDeleted(s, tid, u, at))
  {
    hide Booked, Named, Slots, Entries, Silence;
    DeletedBook(s.forks, s.threads, s.deleted, s.place, tid, u, at);
    if s.threads[tid].at.ToDeleteReport? {
      AskerHasName(s.threads, tid);
    } else if s.threads[tid].req.Some? {
      StartHasNoSlot(s.forks, s.threads, tid);
    }
    NamedMove(s.threads, tid, at);
    SlotsMove(s.forks, s.threads, tid, at);
    EntriesMove(s.running, s.threads, s.cancelled, tid, at);
    SilenceMove(s.threads, s.cancelled, s.emitted, tid, at);
  }

  lemma SlotPut(forks: map<nat, Slot>, threads: map<nat, Thread>, row: nat, slot: Slot, tid: nat)
    requires Slots(forks, threads) && Named(threads) && tid in threads && threads[tid].req == Some(slot.req)
    requires slot.uuid.Some? ==> Reported(threads[tid].at)
    requires forall t :: t in threads && Between(threads[t]) ==> threads[t].row != row
    ensures Slots(forks[row := slot], threads)
  {
  }

  /** Only one start of a row can be past taking its slot. */
  lemma OneStart(threads: map<nat, Thread>, tid: nat, t: nat)
    requires Named(threads) && tid in threads && t in threads && InStart(threads[tid]) && InStart(threads[t])
    requires threads[t].row == threads[tid].row
    ensures t == tid
  {
  }

  lemma PutBook(forks: map<nat, Slot>, threads: map<nat, Thread>, deleted: set<nat>, place: map<nat, Place>, row: nat, req: nat)
    requires Booked(forks, threads, deleted, place) && row !in forks
    ensures Booked(forks[row := Slot(req, None)], threads, deleted, place)
  {
  }

  lemma PutKeeps(s: State, tid: nat)
    requires Inv(s) && tid in s.threads && s.threads[tid].at.ToPutFork?
    ensures Inv(Advanced(s, tid))
  {
    hide Booked, Named, Slots, Entries, Silence;
    AskerHasName(s.threads, tid);
    StartHasNoSlot(s.forks, s.threads, tid);
    var (row, req) := (s.threads[tid].row, s.threads[tid].req.value);
    PlainKeeps(s, tid, ToCancel(ThenSpawn(true)));
    var s1 := Moved(s, tid, ToCancel(ThenSpawn(true)));
    forall t | t in s1.threads && Between(s1.threads[t]) ensures s1.threads[t].row != row {
      if s1.threads[t].row == row {
        OneStart(s.threads, tid, t);
      }
    }
    SlotPut(s1.forks, s1.threads, row, Slot(req, None), tid);
    PutBook(s1.forks, s1.threads, s1.deleted, s1.place, row, req);
  }

  /** The slot of a request whose child has yet to report has no id. */
  lemma UnreportedSlot(forks: map<nat, Slot>, threads: map<nat, Thread>, tid: nat, row: nat)
    requires Slots(forks, threads) && tid in threads && !Reported(threads[tid].at)
    requires row in forks && threads[tid].req == Some(forks[row].req)
    ensures forks[row].uuid.None? && forall t :: t in threads && Between(threads[t]) ==> threads[t].row != row
  {
  }

  lemma ReportedKeeps(s: State, tid: nat, uuid: nat)
    requires Inv(s) && tid in s.threads && s.threads[tid].at == Reading(true) && uuid !in s.place
    ensures s.threads[tid].req.Some? && Inv(GoReport(s, tid, s.threads[tid].row, s.threads[tid].req.value, uuid))
  {
    hide Booked, Named, Slots, Entries, Silence;
    AskerHasName(s.threads, tid);
    var (row, req) := (s.threads[tid].row, s.threads[tid].req.value);
    if row in s.forks && s.forks[row].req == req {
      UnreportedSlot(s.forks, s.threads, tid, row);
      PlainKeeps(s, tid, Reading(false));
      var s1 := Moved(s, tid, Reading(false));
      SlotPut(s1.forks, s1.threads, row, Slot(req, Some(uuid)), tid);
      NotedBook(s1.forks, s1.threads, s1.deleted, s1.place, row, req, uuid);
    } else {
      InHandBook(s.forks, s.threads, s.deleted, s.place, tid, uuid, ToDeleteReport(uuid));
      MoveKeepsRest(s, tid, ToDeleteReport(uuid));
    }
  }

  lemma NotedBook(forks: map<nat, Slot>, threads: map<nat, Thread>, deleted: set<nat>, place: map<nat, Place>, row: nat, req: nat, u: nat)
    requires Booked(forks, threads, deleted, place) && u !in place && row in forks && forks[row].uuid.None?
    ensures Booked(forks[row := Slot(req, Some(u))], threads, deleted, place[u := InSlot(row)])
  {
  }

  lemma InHandBook(forks: map<nat, Slot>, threads: map<nat, Thread>, deleted: set<nat>, place: map<nat, Place>, tid: nat, u: nat, at: At)
    requires Booked(forks, threads, deleted, place) && u !in place && tid in threads && Holding(threads[tid].at).None?
    requires Holding(at) == Some(u)
    ensures Booked(forks, threads[tid := threads[tid].(at := at)], deleted, place[u := InHand(tid)])
  {
  }

  // ---------- Running children ----------

  lemma EntriesCancelled(running: map<nat, Entry>, threads: map<nat, Thread>, cancelled: set<nat>, row: nat)
    requires Entries(running, threads, cancelled) && row in running
    ensures Entries(running - {row}, threads, cancelled + {running[row].child})
  {
    var c := running[row].child;
    forall r | r in running && r != row ensures running[r].child != c {
      assert threads[c].row == row;
    }
  }

  lemma SilenceCancelled(running: map<nat, Entry>, threads: map<nat, Thread>, cancelled: set<nat>, emitted: multiset<nat>, row: nat)
    requires Entries(running, threads, cancelled) && Silence(threads, cancelled, emitted) && row in running
    ensures Silence(threads, cancelled + {running[row].child}, emitted)
  {
    assert threads[running[row].child].req.Some? && !threads[running[row].child].at.Over?;
  }

  lemma CancelledKeeps(s: State, row: nat)
    requires Inv(s)
    ensures Inv(Cancelled(s, row))
  {
    hide Booked, Named, Slots, Entries, Silence;
    if row in s.running {
      EntriesCancelled(s.running, s.threads, s.cancelled, row);
      SilenceCancelled(s.running, s.threads, s.cancelled, s.emitted, row);
    }
  }

  lemma EntryPut(running: map<nat, Entry>, threads: map<nat, Thread>, cancelled: set<nat>, tid: nat, row: nat, req: nat)
    requires Entries(running, threads, cancelled) && tid in threads && tid !in cancelled
    requires Registered(threads[tid].at) && threads[tid].row == row && threads[tid].req == Some(req)
    ensures Entries(running[row := Entry(req, tid)], threads, cancelled)
  {
  }

  lemma Uncancelled(running: map<nat, Entry>, threads: map<nat, Thread>, cancelled: set<nat>, tid: nat)
    requires Entries(running, threads, cancelled) && tid in threads && !Registered(threads[tid].at) && !threads[tid].at.Over?
    ensures tid !in cancelled
  {
  }

  lemma RegisteredKeeps(s: State, tid: nat)
    requires Inv(s) && tid in s.threads && s.threads[tid].at.ToRegister?
    ensures Inv(Advanced(s, tid))
  {
    hide Booked, Named, Slots, Entries, Silence;
    AskerHasName(s.threads, tid);
    Uncancelled(s.running, s.threads, s.cancelled, tid);
    var (row, req, forks) := (s.threads[tid].row, s.threads[tid].req.value, s.threads[tid].at.forks);
    PlainKeeps(s, tid, Reading(forks));
    var s1 := Moved(s, tid, Reading(forks));
    EntryPut(s1.running, s1.threads, s1.cancelled, tid, row, req);
  }

  /** A thread's entry is gone once it took it, and was not there if it did not. */
  lemma TookEntry(running: map<nat, Entry>, threads: map<nat, Thread>, cancelled: set<nat>, tid: nat, row: nat, req: nat)
    requires Entries(running, threads, cancelled) && Named(threads) && tid in threads
    requires threads[tid].row == row && threads[tid].req == Some(req)
    ensures var (running1, ours) := TookIfOurs(running, row, req);
            && (forall r :: r in running1 ==> r in running && running1[r] == running[r] && running[r].child != tid)
            && (ours ==> tid !in cancelled)
  {
    forall r | r in running && running[r].child == tid ensures r == row && running[r].req == req {
      assert threads[tid].row == r;
    }
    if row in running && running[row].req == req {
      var c := running[row].child;
      assert threads[c].req == Some(req);
      assert c == tid;
    }
  }

  lemma EntriesLeft(running: map<nat, Entry>, threads: map<nat, Thread>, cancelled: set<nat>, tid: nat, running1: map<nat, Entry>, at: At)
    requires Entries(running, threads, cancelled) && tid in threads
    requires forall r :: r in running1 ==> r in running && running1[r] == running[r] && running[r].child != tid
    requires at.Over? || (at.ToEmit? && tid !in cancelled)
    ensures Entries(running1, threads[tid := threads[tid].(at := at)], cancelled)
  {
  }

  lemma TookKeeps(s: State, tid: nat)
    requires Inv(s) && tid in s.threads && s.threads[tid].at.ToTake?
    ensures Inv(Advanced(s, tid))
  {
    hide Booked, Named, Slots, Entries, Silence;
    AskerHasName(s.threads, tid);
    var (row, req) := (s.threads[tid].row, s.threads[tid].req.value);
    TookEntry(s.running, s.threads, s.cancelled, tid, row, req);
    var (running1, ours) := TookIfOurs(s.running, row, req);
    var at := if ours then ToEmit else Over;
    BookedMove(s.forks, s.threads, s.deleted, s.place, tid, at);
    EntriesLeft(s.running, s.threads, s.cancelled, tid, running1, at);
    NamedMove(s.threads, tid, at);
    SlotsMove(s.forks, s.threads, tid, at);
    SilenceMove(s.threads, s.cancelled, s.emitted, tid, at);
  }

  lemma NotYetSaid(threads: map<nat, Thread>, cancelled: set<nat>, emitted: multiset<nat>, tid: nat)
    requires Silence(threads, cancelled, emitted) && tid in threads && threads[tid].req.Some? && !threads[tid].at.Over?
    ensures emitted[threads[tid].req.value] == 0
  {
  }

  lemma SaidOnce(threads: map<nat, Thread>, cancelled: set<nat>, emitted: multiset<nat>, tid: nat, req: nat)
    requires Silence(threads, cancelled, emitted) && Named(threads) && tid in threads && tid !in cancelled
    requires threads[tid].at.Over? && threads[tid].req == Some(req) && emitted[req] == 0
    ensures Silence(threads, cancelled, emitted + multiset{req})
  {
    forall q | q in emitted + multiset{req}
      ensures (emitted + multiset{req})[q] == 1 && exists u :: u in threads && threads[u].req == Some(q)
    {
      if q == req {
        assert threads[tid].req == Some(q);
      } else {
        assert q in emitted;
      }
    }
  }

  lemma EmittedKeeps(s: State, tid: nat)
    requires Inv(s) && tid in s.threads && s.threads[tid].at.ToEmit?
    ensures Inv(Advanced(s, tid))
  {
    hide Booked, Named, Slots, Entries, Silence;
    AskerHasName(s.threads, tid);
    Uncancelled(s.running, s.threads, s.cancelled, tid);
    NotYetSaid(s.threads, s.cancelled, s.emitted, tid);
    PlainKeeps(s, tid, Over);
    var s1 := Moved(s, tid, Over);
    SaidOnce(s1.threads, s1.cancelled, s1.emitted, tid, s.threads[tid].req.value);
  }

  // ---------- Every interleaving ----------

  lemma AdvancedKeeps(s: State, tid: nat)
    requires Inv(s) && tid in s.threads
    ensures Inv(Advanced(s, tid))
  {
    hide Booked, Named, Slots, Entries, Silence;
    var t := s.threads[tid];
    if Asking(t.at) {
      AskerHasName(s.threads, tid);
    }
    match t.at {
      case ToCancel(after) =>
        CancelledKeeps(s, t.row);
        PlainKeeps(Cancelled(s, t.row), tid, Advanced(s, tid).threads[tid].at);
      case ToKill(child, after) => PlainKeeps(s.(killed := s.killed + {child}), tid, AfterCancel(after));
      case ToTakeFork => TakenForkKeeps(s, tid);
      case ToDelete(uuid) => DeletedKeeps(s, tid, uuid, AfterDiscard(t.req));
      case ToPutFork => PutKeeps(s, tid);
      case ToLook => PlainKeeps(s, tid, Advanced(s, tid).threads[tid].at);
      case ToSpawn(forks) => PlainKeeps(s, tid, ToRegister(forks));
      case ToRegister(_) => RegisteredKeeps(s, tid);
      case Reading(_) => PlainKeeps(s, tid, ToTake);
      case ToDeleteReport(uuid) => DeletedKeeps(s, tid, uuid, Reading(false));
      case ToTake => TookKeeps(s, tid);
      case ToEmit => EmittedKeeps(s, tid);
      case Over =>
    }
  }

  lemma NextKeeps(s: State, e: Event)
    requires Inv(s) && Enabled(s, e)
    ensures Inv(Next(s, e))
  {
    hide Booked, Named, Slots, Entries, Silence;
    match e {
      case Go(tid) => AdvancedKeeps(s, tid);
      case SpawnFails(tid) => PlainKeeps(s, tid, Over);
      case Reports(tid, uuid) => ReportedKeeps(s, tid, uuid);
      case BeginStart(tid, row, req) => BegunKeeps(s, tid, Thread(row, Some(req), ToCancel(ThenDiscard)));
      case BeginFollow(tid, row, req) => BegunKeeps(s, tid, Thread(row, Some(req), ToLook));
      case BeginDiscard(tid, row) => BegunKeeps(s, tid, Thread(row, None, ToCancel(ThenDiscard)));
      case BeginCancel(tid, row) => BegunKeeps(s, tid, Thread(row, None, ToCancel(ThenNothing)));
    }
  }

  lemma {:induction false} RunKeeps(s: State, events: seq<Event>)
    requires Inv(s) && Possible(s, events)
    ensures Inv(Run(s, events))
    decreases |events|
  {
    hide Booked, Named, Slots, Entries, Silence;
    if |events| != 0 {
      NextKeeps(s, events[0]);
      RunKeeps(Next(s, events[0]), events[1..]);
    }
  }

  ghost predicate Slotted(s: State, u: nat) {
    exists row :: row in s.forks && s.forks[row].uuid == Some(u)
  }

  predicate Holds(t: Thread, u: nat) {
    Holding(t.at) == Some(u)
  }

  ghost predicate BeingDeleted(s: State, u: nat) {
    exists t :: t in s.threads && Holds(s.threads[t], u)
  }

  /** In exactly one place, and there once. */
  ghost predicate OwnedOnce(s: State, u: nat) {
    && (Slotted(s, u) || BeingDeleted(s, u) || u in s.deleted)
    && !(Slotted(s, u) && BeingDeleted(s, u)) && !(Slotted(s, u) && u in s.deleted) && !(BeingDeleted(s, u) && u in s.deleted)
    && (forall r1, r2 :: r1 in s.forks && r2 in s.forks && s.forks[r1].uuid == Some(u) && s.forks[r2].uuid == Some(u) ==> r1 == r2)
    && (forall t1, t2 :: t1 in s.threads && t2 in s.threads && Holds(s.threads[t1], u) && Holds(s.threads[t2], u) ==> t1 == t2)
  }

  lemma OneOwner(s: State, u: nat)
    requires Booked(s.forks, s.threads, s.deleted, s.place) && u in s.place
    ensures OwnedOnce(s, u)
  {
    match s.place[u] {
      case InSlot(row) => assert s.forks[row].uuid == Some(u);
      case InHand(t) => assert Holds(s.threads[t], u);
      case Gone =>
    }
  }

  /**
   Fork ownership. In every interleaving, each id a child reported is in a panel's slot, or in the hands of exactly one
   thread about to delete it, or deleted: never two of these, never none, and never in two slots.
  */
  lemma EveryForkHasOneOwner(events: seq<Event>, u: nat)
    requires Possible(NOTHING, events) && u in Run(NOTHING, events).place
    ensures OwnedOnce(Run(NOTHING, events), u)
  {
    RunKeeps(NOTHING, events);
    OneOwner(Run(NOTHING, events), u);
  }

  /** Once every thread is done, a reported id is in its panel's slot exactly if it was not deleted. */
  lemma AtRestSlottedOrDeleted(events: seq<Event>, u: nat)
    requires Possible(NOTHING, events) && u in Run(NOTHING, events).place
    requires forall t :: t in Run(NOTHING, events).threads ==> Run(NOTHING, events).threads[t].at.Over?
    ensures var s := Run(NOTHING, events); Slotted(s, u) <==> u !in s.deleted
  {
    EveryForkHasOneOwner(events, u);
  }

  /** In every interleaving each request says how it ended at most once, and not at all once a cancel took its entry. */
  lemma OneEndPerRequest(events: seq<Event>, req: nat)
    requires Possible(NOTHING, events)
    ensures var s := Run(NOTHING, events);
            && s.emitted[req] <= 1
            && (forall c :: c in s.cancelled && c in s.threads && s.threads[c].req == Some(req) ==> s.emitted[req] == 0)
  {
    RunKeeps(NOTHING, events);
    var s := Run(NOTHING, events);
    if req in s.emitted {
      assert s.emitted[req] == 1;
    }
  }

  // ---------- One thread moves ----------

  /** One thread moved, and nothing else of the threads. */
  ghost predicate OneMoved(s: State, s1: State, tid: nat) {
    tid in s.threads && tid in s1.threads && s1.threads == s.threads[tid := s.threads[tid].(at := s1.threads[tid].at)]
  }

  lemma MovedMovesOne(s: State, s0: State, tid: nat, at: At)
    requires tid in s.threads && s0.threads == s.threads
    ensures OneMoved(s, Moved(s0, tid, at), tid) && Moved(s0, tid, at).threads[tid].at == at
  {
  }

  lemma GoMovesOne(s: State, tid: nat)
    requires tid in s.threads
    ensures OneMoved(s, Advanced(s, tid), tid)
  {
    hide OneMoved, Moved;
    forall s0: State, at: At | s0.threads == s.threads ensures OneMoved(s, Moved(s0, tid, at), tid) {
      MovedMovesOne(s, s0, tid, at);
    }
    if s.threads[tid].at.Over? {
      StillOne(s, tid);
    }
  }

  lemma StillOne(s: State, tid: nat)
    requires tid in s.threads
    ensures OneMoved(s, s, tid)
  {
  }

  lemma GoBooks(s: State, tid: nat)
    requires tid in s.threads
    ensures var s1, at := Advanced(s, tid), s.threads[tid].at;
            && (!at.ToEmit? ==> s1.emitted == s.emitted) && (!at.ToKill? ==> s1.killed == s.killed)
            && (!(at.ToCancel? && s.threads[tid].row in s.running) ==> s1.cancelled == s.cancelled)
  {
  }

  /** A step moves one thread; only four stages touch the killed, the cancelled and the ends said. */
  lemma GoMoves(s: State, tid: nat)
    requires tid in s.threads
    ensures var s1, at := Advanced(s, tid), s.threads[tid].at;
            && OneMoved(s, s1, tid)
            && (!at.ToEmit? ==> s1.emitted == s.emitted) && (!at.ToKill? ==> s1.killed == s.killed)
            && (!(at.ToCancel? && s.threads[tid].row in s.running) ==> s1.cancelled == s.cancelled && !s1.threads[tid].at.ToKill?)
            && (!at.ToTake? ==> !s1.threads[tid].at.ToEmit?)
  {
    hide Advanced;
    GoMovesOne(s, tid);
    GoBooks(s, tid);
    GoStages(s, tid);
  }

  lemma GoStages(s: State, tid: nat)
    requires tid in s.threads
    ensures var s1, at := Advanced(s, tid), s.threads[tid].at;
            && tid in s1.threads
            && (!(at.ToCancel? && s.threads[tid].row in s.running) ==> !s1.threads[tid].at.ToKill?)
            && (!at.ToTake? ==> !s1.threads[tid].at.ToEmit?)
  {
    hide Advanced;
    GoMovesOne(s, tid);
    if !(s.threads[tid].at.ToCancel? && s.threads[tid].row in s.running) {
      NoKillStage(s, tid);
    }
    if !s.threads[tid].at.ToTake? {
      NoEmitStage(s, tid);
    }
  }

  lemma NoKillStage(s: State, tid: nat)
    requires tid in s.threads && !(s.threads[tid].at.ToCancel? && s.threads[tid].row in s.running)
    ensures tid in Advanced(s, tid).threads && !Advanced(s, tid).threads[tid].at.ToKill?
  {
    hide Moved;
  }

  lemma NoEmitStage(s: State, tid: nat)
    requires tid in s.threads && !s.threads[tid].at.ToTake?
    ensures tid in Advanced(s, tid).threads && !Advanced(s, tid).threads[tid].at.ToEmit?
  {
    hide Moved;
  }

  lemma OtherMoves(s: State, e: Event)
    requires Enabled(s, e) && !e.Go?
    ensures var s1 := Next(s, e);
            && e.tid in s1.threads && s1.threads == s.threads[e.tid := s1.threads[e.tid]]
            && s1.emitted == s.emitted && s1.killed == s.killed && s1.cancelled == s.cancelled
            && !s1.threads[e.tid].at.ToKill? && !s1.threads[e.tid].at.ToEmit?
            && (e.tid in s.threads ==> !s.threads[e.tid].at.ToKill? && !s.threads[e.tid].at.ToEmit?)
  {
  }

  // ---------- Who is killed ----------

  /** Some thread is about to kill the child. */
  ghost predicate AboutToKill(threads: map<nat, Thread>, child: nat) {
    exists t :: t in threads && threads[t].at.ToKill? && threads[t].at.child == child
  }

  /** Only cancelled children are killed, and a cancelled one is killed or about to be. */
  ghost predicate Kills(s: State) {
    && s.killed <= s.cancelled
    && (forall t :: t in s.threads && s.threads[t].at.ToKill? ==> s.threads[t].at.child in s.cancelled)
    && (forall c :: c in s.cancelled ==> c in s.killed || AboutToKill(s.threads, c))
  }

  /** A thread's move that leaves the killed and the cancelled alone keeps whom it must still kill. */
  lemma MoveKills(s: State, s1: State, tid: nat, t1: Thread)
    requires Kills(s) && s1.threads == s.threads[tid := t1] && s1.killed == s.killed && s1.cancelled == s.cancelled
    requires tid in s.threads ==> !s.threads[tid].at.ToKill?
    requires !t1.at.ToKill?
    ensures Kills(s1)
  {
    forall c | c in s1.cancelled ensures c in s1.killed || AboutToKill(s1.threads, c) {
      if c !in s.killed {
        var t :| t in s.threads && s.threads[t].at.ToKill? && s.threads[t].at.child == c;
        assert t != tid && s1.threads[t] == s.threads[t];
      }
    }
  }

  /** The cancel that takes an entry goes on to kill its child. */
  lemma CancelKills(s: State, tid: nat, row: nat, after: After)
    requires Kills(s) && tid in s.threads && s.threads[tid].at == ToCancel(after) && row in s.running
    ensures Kills(GoCancel(s, tid, row, after))
  {
    var s1, child := GoCancel(s, tid, row, after), s.running[row].child;
    forall c | c in s1.cancelled ensures c in s1.killed || AboutToKill(s1.threads, c) {
      if c == child {
        assert s1.threads[tid].at == ToKill(child, after);
      } else if c !in s.killed {
        var t :| t in s.threads && s.threads[t].at.ToKill? && s.threads[t].at.child == c;
        assert t != tid && s1.threads[t] == s.threads[t];
      }
    }
  }

  lemma KillKills(s: State, tid: nat)
    requires Kills(s) && tid in s.threads && s.threads[tid].at.ToKill?
    ensures Kills(Advanced(s, tid))
  {
    var s1 := Advanced(s, tid);
    forall c | c in s1.cancelled ensures c in s1.killed || AboutToKill(s1.threads, c) {
      if c !in s1.killed {
        var t :| t in s.threads && s.threads[t].at.ToKill? && s.threads[t].at.child == c;
        assert t != tid && s1.threads[t] == s.threads[t];
      }
    }
  }

  lemma StepKills(s: State, e: Event)
    requires Kills(s) && Enabled(s, e)
    ensures Kills(Next(s, e))
  {
    hide Kills, Advanced;
    if e.Go? {
      var t := s.threads[e.tid];
      GoMoves(s, e.tid);
      if t.at.ToKill? {
        KillKills(s, e.tid);
      } else if t.at.ToCancel? && t.row in s.running {
        GoCancels(s, e.tid);
        CancelKills(s, e.tid, t.row, t.at.after);
      } else {
        MoveKills(s, Advanced(s, e.tid), e.tid, Advanced(s, e.tid).threads[e.tid]);
      }
    } else {
      OtherMoves(s, e);
      MoveKills(s, Next(s, e), e.tid, Next(s, e).threads[e.tid]);
    }
  }

  lemma GoCancels(s: State, tid: nat)
    requires tid in s.threads && s.threads[tid].at.ToCancel?
    ensures Advanced(s, tid) == GoCancel(s, tid, s.threads[tid].row, s.threads[tid].at.after)
  {
  }

  lemma {:induction false} RunKills(s: State, events: seq<Event>)
    requires Kills(s) && Possible(s, events)
    ensures Kills(Run(s, events))
    decreases |events|
  {
    hide Kills;
    if |events| > 0 {
      StepKills(s, events[0]);
      RunKills(Next(s, events[0]), events[1..]);
    }
  }

  /**
   In every interleaving only a child whose entry a cancel took is killed, and each such child is killed or a thread is
   about to; once every thread is done the killed are exactly the cancelled.
  */
  lemma CancelledIsKilled(events: seq<Event>)
    requires Possible(NOTHING, events)
    ensures var s := Run(NOTHING, events);
            && s.killed <= s.cancelled
            && (forall c :: c in s.cancelled ==> c in s.killed || AboutToKill(s.threads, c))
            && ((forall t :: t in s.threads ==> s.threads[t].at.Over?) ==> s.killed == s.cancelled)
  {
    RunKills(NOTHING, events);
  }

  // ---------- Who must speak ----------

  /** The requests whose child took its own entry in the run, as often as that happened. */
  function Took(s: State, events: seq<Event>): multiset<nat>
    requires Possible(s, events)
    decreases |events|
  {
    if |events| == 0 then multiset{} else TookNow(s, events[0]) + Took(Next(s, events[0]), events[1..])
  }

  function TookNow(s: State, e: Event): multiset<nat>
    requires Enabled(s, e)
  {
    if !e.Go? then multiset{}
    else
      var t := s.threads[e.tid];
      if t.at.ToTake? && t.req.Some? && t.row in s.running && s.running[t.row].child == e.tid then multiset{t.req.value} else multiset{}
  }

  /** The request's thread is about to say its end. */
  ghost predicate AboutToSpeak(threads: map<nat, Thread>, req: nat) {
    exists t :: t in threads && threads[t].at.ToEmit? && threads[t].req == Some(req)
  }

  /** Each that took its entry has said its end or is about to. */
  ghost predicate Speaks(s: State, took: multiset<nat>) {
    forall q: nat :: took[q] == s.emitted[q] + if AboutToSpeak(s.threads, q) then 1 else 0
  }

  /** A move of a thread that is not about to speak, and is not then, leaves who is. */
  lemma MoveSpeaks(s: State, s1: State, tid: nat, t1: Thread, took: multiset<nat>)
    requires Speaks(s, took) && s1.threads == s.threads[tid := t1] && s1.emitted == s.emitted
    requires (tid in s.threads ==> !s.threads[tid].at.ToEmit?) && !t1.at.ToEmit?
    ensures Speaks(s1, took)
  {
    forall q: nat ensures AboutToSpeak(s1.threads, q) <==> AboutToSpeak(s.threads, q) {
      if AboutToSpeak(s.threads, q) {
        var t :| t in s.threads && s.threads[t].at.ToEmit? && s.threads[t].req == Some(q);
        assert t != tid && s1.threads[t] == s.threads[t];
      }
      if AboutToSpeak(s1.threads, q) {
        var t :| t in s1.threads && s1.threads[t].at.ToEmit? && s1.threads[t].req == Some(q);
        assert t != tid && s1.threads[t] == s.threads[t];
      }
    }
  }

  /** Taking its entry makes a thread about to speak, and no other of that request is. */
  lemma TakeSpeaks(s: State, tid: nat, req: nat, took: multiset<nat>)
    requires Named(s.threads) && Speaks(s, took) && tid in s.threads && s.threads[tid].at.ToTake? && s.threads[tid].req == Some(req)
    requires s.threads[tid].row in s.running && s.running[s.threads[tid].row].req == req
    ensures Speaks(Advanced(s, tid), took + multiset{req})
  {
    var s1 := Advanced(s, tid);
    assert s1.threads[tid].at.ToEmit? && s1.threads[tid].req == Some(req);
    forall q: nat ensures AboutToSpeak(s1.threads, q) <==> q == req || AboutToSpeak(s.threads, q) {
      if AboutToSpeak(s.threads, q) {
        var t :| t in s.threads && s.threads[t].at.ToEmit? && s.threads[t].req == Some(q);
        assert t != tid && s1.threads[t] == s.threads[t];
      }
      if AboutToSpeak(s1.threads, q) {
        var t :| t in s1.threads && s1.threads[t].at.ToEmit? && s1.threads[t].req == Some(q);
        assert t != tid ==> s1.threads[t] == s.threads[t];
      }
    }
  }

  lemma EmitSpeaks(s: State, tid: nat, req: nat, took: multiset<nat>)
    requires Named(s.threads) && Speaks(s, took) && tid in s.threads && s.threads[tid].at.ToEmit? && s.threads[tid].req == Some(req)
    ensures Speaks(Advanced(s, tid), took)
  {
    var s1 := Advanced(s, tid);
    forall q: nat ensures AboutToSpeak(s1.threads, q) <==> q != req && AboutToSpeak(s.threads, q) {
      if AboutToSpeak(s.threads, q) && q != req {
        var t :| t in s.threads && s.threads[t].at.ToEmit? && s.threads[t].req == Some(q);
        assert t != tid && s1.threads[t] == s.threads[t];
      }
      if AboutToSpeak(s1.threads, q) {
        var t :| t in s1.threads && s1.threads[t].at.ToEmit? && s1.threads[t].req == Some(q);
        assert t != tid && s1.threads[t] == s.threads[t];
      }
    }
  }

  lemma GoSpeaks(s: State, tid: nat, took: multiset<nat>)
    requires Inv(s) && tid in s.threads && Speaks(s, took)
    ensures Speaks(Advanced(s, tid), took + TookNow(s, Go(tid)))
  {
    hide Booked, Slots, Silence, Speaks, Entries, Advanced;
    var t, s1 := s.threads[tid], Advanced(s, tid);
    assert took + multiset{} == took;
    GoMoves(s, tid);
    if t.at.ToEmit? {
      EmitSpeaks(s, tid, t.req.value, took);
    } else if t.at.ToTake? {
      EntryIsOurs(s, tid, t.row, t.req.value);
      if t.row in s.running && s.running[t.row].child == tid {
        TakeSpeaks(s, tid, t.req.value, took);
      } else {
        TakesNothing(s, tid, t.req.value);
        MoveSpeaks(s, s1, tid, s1.threads[tid], took);
      }
    } else {
      MoveSpeaks(s, s1, tid, s1.threads[tid], took);
    }
  }

  lemma TakesNothing(s: State, tid: nat, req: nat)
    requires tid in s.threads && s.threads[tid].at.ToTake? && s.threads[tid].req == Some(req)
    requires !(s.threads[tid].row in s.running && s.running[s.threads[tid].row].req == req)
    ensures Advanced(s, tid).threads[tid].at.Over?
  {
  }

  lemma {:induction false} RunSpeaks(s: State, events: seq<Event>, took: multiset<nat>)
    requires Inv(s) && Possible(s, events) && Speaks(s, took)
    ensures Speaks(Run(s, events), took + Took(s, events))
    decreases |events|
  {
    hide Inv, Speaks, TookNow;
    if |events| == 0 {
      assert took + multiset{} == took;
    } else {
      var s1, now := Next(s, events[0]), TookNow(s, events[0]);
      NextKeeps(s, events[0]);
      StepSpeaks(s, events[0], took);
      RunSpeaks(s1, events[1..], took + now);
      assert took + now + Took(s1, events[1..]) == took + Took(s, events);
    }
  }

  lemma StepSpeaks(s: State, e: Event, took: multiset<nat>)
    requires Inv(s) && Enabled(s, e) && Speaks(s, took)
    ensures Speaks(Next(s, e), took + TookNow(s, e))
  {
    hide Inv, Speaks;
    assert took + multiset{} == took;
    if e.Go? {
      GoSpeaks(s, e.tid, took);
    } else {
      OtherMoves(s, e);
      MoveSpeaks(s, Next(s, e), e.tid, Next(s, e).threads[e.tid], took);
    }
  }

  /**
   Who takes its entry speaks: in every interleaving the ends said are those of the requests whose child took its own
   entry, but for those just about to say it; once every thread is done they are exactly those.
  */
  lemma WhoTakesSpeaks(events: seq<Event>)
    requires Possible(NOTHING, events)
    ensures Speaks(Run(NOTHING, events), Took(NOTHING, events))
    ensures (forall t :: t in Run(NOTHING, events).threads ==> Run(NOTHING, events).threads[t].at.Over?) ==>
              Run(NOTHING, events).emitted == Took(NOTHING, events)
  {
    hide Inv;
    NothingIsSound();
    RunSpeaks(NOTHING, events, multiset{});
    assert multiset{} + Took(NOTHING, events) == Took(NOTHING, events);
    var s := Run(NOTHING, events);
    if forall t :: t in s.threads ==> s.threads[t].at.Over? {
      forall q: nat ensures s.emitted[q] == Took(NOTHING, events)[q] {
        assert !AboutToSpeak(s.threads, q);
      }
    }
  }

  lemma NothingIsSound()
    ensures Inv(NOTHING) && Speaks(NOTHING, multiset{})
  {
  }

  // ---------- Slots and entries are made ----------

  /** A start puts its empty slot and goes on to spawn, a spawned child is entered, a follow-up goes on if its panel has a fork. */
  lemma MadeExactly(s: State, tid: nat, row: nat, req: nat)
    requires tid in s.threads && s.threads[tid].row == row && s.threads[tid].req == Some(req)
    ensures var s1, at := Advanced(s, tid), s.threads[tid].at;
            && tid in s1.threads
            && (at.ToPutFork? ==> s1.forks == s.forks[row := Slot(req, None)] && s1.threads[tid].at == ToCancel(ThenSpawn(true)))
            && (at.ToRegister? ==> s1.running == s.running[row := Entry(req, tid)] && s1.threads[tid].at == Reading(at.forks))
            && (at.ToLook? ==> (if row in s.forks && s.forks[row].uuid.Some? then s1.threads[tid].at == ToCancel(ThenSpawn(false))
                                else s1.threads[tid].at.Over?))
            && (!at.ToPutFork? && !at.ToTakeFork? ==> s1.forks == s.forks)
            && (!at.ToCancel? && !at.ToRegister? && !at.ToTake? ==> s1.running == s.running)
  {
  }

  // ---------- Follow-ups ----------

  /** Where a follow-up may stand: it looks, cancels, spawns and reads, and no fork is its to take, put or report. */
  predicate OfFollowUp(at: At) {
    match at
    case ToLook => true
    case ToCancel(after) => after == ThenSpawn(false)
    case ToKill(_, after) => after == ThenSpawn(false)
    case ToSpawn(forks) => !forks
    case ToRegister(forks) => !forks
    case Reading(mayReport) => !mayReport
    case ToTake => true
    case ToEmit => true
    case Over => true
    case _ => false
  }

  ghost predicate FollowUpsRead(s: State, followUps: set<nat>) {
    forall t :: t in followUps ==> t in s.threads && OfFollowUp(s.threads[t].at) && s.threads[t].req.Some?
  }

  function FollowUps(events: seq<Event>): set<nat> {
    if |events| == 0 then {} else (if events[0].BeginFollow? then {events[0].tid} else {}) + FollowUps(events[1..])
  }

  /** A follow-up's step, or its child's report, leaves it where a follow-up may stand. */
  lemma FollowUpMoves(s: State, tid: nat)
    requires tid in s.threads && OfFollowUp(s.threads[tid].at)
    ensures tid in Advanced(s, tid).threads && OfFollowUp(Advanced(s, tid).threads[tid].at)
  {
  }

  lemma StepFollowUps(s: State, e: Event, followUps: set<nat>)
    requires Enabled(s, e) && FollowUpsRead(s, followUps)
    ensures FollowUpsRead(Next(s, e), followUps + if e.BeginFollow? then {e.tid} else {})
  {
    hide Advanced;
    if e.Go? {
      GoMoves(s, e.tid);
      if e.tid in followUps {
        FollowUpMoves(s, e.tid);
      }
    } else {
      OtherMoves(s, e);
    }
  }

  lemma {:induction false} RunFollowUps(s: State, events: seq<Event>, followUps: set<nat>)
    requires Possible(s, events) && FollowUpsRead(s, followUps)
    ensures FollowUpsRead(Run(s, events), followUps + FollowUps(events))
    decreases |events|
  {
    hide Next, FollowUpsRead, Enabled;
    if |events| > 0 {
      var more := if events[0].BeginFollow? then {events[0].tid} else {};
      StepFollowUps(s, events[0], followUps);
      RunFollowUps(Next(s, events[0]), events[1..], followUps + more);
      assert followUps + more + FollowUps(events[1..]) == followUps + FollowUps(events);
    } else {
      assert followUps + {} == followUps;
    }
  }

  /** In every interleaving a follow-up only reads the panel's fork: it never takes, puts, reports or deletes one. */
  lemma FollowUpsOnlyRead(events: seq<Event>)
    requires Possible(NOTHING, events)
    ensures FollowUpsRead(Run(NOTHING, events), FollowUps(events))
  {
    RunFollowUps(NOTHING, events, {});
    assert {} + FollowUps(events) == FollowUps(events);
  }

  // ---------- The critical sections, in place ----------

  /** The thread's next step takes one of the locks. */
  predicate TakesLock(at: At) {
    at.ToCancel? || at.ToTakeFork? || at.ToPutFork? || at.ToLook? || at.ToRegister? || at.ToTake?
  }

  /** A step outside the locks: a thread begins, kills, deletes, spawns, reads on or speaks. */
  predicate Outside(s: State, e: Event) {
    match e
    case Go(tid) => tid in s.threads && !TakesLock(s.threads[tid].at)
    case Reports(_, _) => false
    case _ => true
  }

  lemma OutsideLeavesTheMaps(s: State, e: Event)
    requires Enabled(s, e) && Outside(s, e)
    ensures Next(s, e).running == s.running && Next(s, e).forks == s.forks
  {
  }

  /** The thread is there, and this is how it stands. */
  ghost predicate Stands(s: State, tid: nat, t: Thread) {
    tid in s.threads && s.threads[tid] == t
  }

  ghost predicate IsIn(s: State, uuid: nat, place: Place) {
    uuid in s.place && s.place[uuid] == place
  }

  /** An entry of a request is its own child's. */
  lemma EntryIsOurs(s: State, tid: nat, row: nat, req: nat)
    requires Inv(s) && Stands(s, tid, Thread(row, Some(req), ToTake))
    ensures row in s.running ==> (s.running[row].req == req <==> s.running[row].child == tid)
  {
    hide Booked, Slots, Silence;
  }

  /** A child that still has its entry was not cancelled, and its request has said nothing. */
  lemma EntryMeansHeard(s: State, tid: nat, row: nat, req: nat)
    requires Inv(s) && Stands(s, tid, Thread(row, Some(req), ToTake))
    ensures s.emitted[req] == 0
    ensures row in s.running && s.running[row].child == tid ==> tid !in s.cancelled
  {
    hide Booked, Slots;
  }

  /** When a start puts its slot there is none. */
  lemma NoSlotThere(s: State, tid: nat, row: nat, req: nat)
    requires Inv(s) && Stands(s, tid, Thread(row, Some(req), ToPutFork))
    ensures row !in s.forks
  {
    hide Booked, Entries, Silence;
  }

  /** A slot's id is in no other place. */
  lemma SlotIsItsPlace(s: State, row: nat)
    requires Inv(s)
    ensures row in s.forks && s.forks[row].uuid.Some? ==>
              IsIn(s, s.forks[row].uuid.value, InSlot(row)) && s.forks[row].uuid.value !in s.deleted
  {
    hide Named, Slots, Entries, Silence;
  }

  /** Before a request's child reports, its slot is empty. */
  lemma SlotWaits(s: State, tid: nat, row: nat, req: nat)
    requires Inv(s) && Stands(s, tid, Thread(row, Some(req), Reading(true)))
    ensures row in s.forks && s.forks[row].req == req ==> s.forks[row] == Slot(req, None)
  {
    hide Booked, Named, Entries, Silence;
  }

  /**
   The two maps, each changed under its lock by one of these calls at a time. `world` is the protocol's whole state:
   each call is that thread's next step in it, so all that is proved of its runs is true of these maps.
  */
  class Locked {
    var running: map<nat, Entry>
    var forks: map<nat, Slot>
    ghost var world: State

    ghost predicate Valid()
      reads this
    {
      running == world.running && forks == world.forks && Inv(world)
    }

    constructor ()
      ensures Valid() && world == NOTHING
    {
      running := map[];
      forks := map[];
      world := NOTHING;
    }

    /** What happens outside the locks keeps the maps what the protocol says. */
    ghost method Elsewhere(e: Event)
      requires Valid() && Enabled(world, e) && Outside(world, e)
      modifies `world
      ensures Valid() && world == Next(old(world), e)
    {
      hide Inv;
      NextKeeps(world, e);
      OutsideLeavesTheMaps(world, e);
      world := Next(world, e);
    }

    /** A cancel takes the row's entry; the caller then kills its child, which will never speak. */
    method TakeRunning(ghost tid: nat, row: nat, ghost req: Option<nat>, ghost after: After) returns (entry: Option<Entry>)
      requires Valid() && Stands(world, tid, Thread(row, req, ToCancel(after)))
      modifies this
      ensures Valid() && world == Next(old(world), Go(tid))
      ensures running == old(running) - {row} && entry == if row in old(running) then Some(old(running)[row]) else None
      ensures Stands(world, tid, Thread(row, req, if entry.Some? then ToKill(entry.value.child, after) else AfterCancel(after)))
      ensures entry.Some? ==> entry.value.child in world.cancelled
    {
      hide Inv;
      NextKeeps(world, Go(tid));
      world := Next(world, Go(tid));
      if row !in running {
        assert running - {row} == running;
        return None;
      }
      entry := Some(running[row]);
      running := running - {row};
    }

    /** A discard takes the row's slot; an id in it is then this caller's to delete, and nobody else's. */
    method TakeFork(ghost tid: nat, row: nat, ghost req: Option<nat>) returns (slot: Option<Slot>)
      requires Valid() && Stands(world, tid, Thread(row, req, ToTakeFork))
      modifies this
      ensures Valid() && world == Next(old(world), Go(tid))
      ensures forks == old(forks) - {row} && slot == if row in old(forks) then Some(old(forks)[row]) else None
      ensures slot.Some? && slot.value.uuid.Some? ==>
                var uuid := slot.value.uuid.value;
                IsIn(world, uuid, InHand(tid)) && Stands(world, tid, Thread(row, req, ToDelete(uuid)))
    {
      hide Inv;
      NextKeeps(world, Go(tid));
      world := Next(world, Go(tid));
      if row !in forks {
        assert forks - {row} == forks;
        return None;
      }
      slot := Some(forks[row]);
      forks := forks - {row};
    }

    /** A start puts its own empty slot, and overwrites none. */
    method PutFork(ghost tid: nat, row: nat, req: nat)
      requires Valid() && Stands(world, tid, Thread(row, Some(req), ToPutFork))
      modifies this
      ensures Valid() && world == Next(old(world), Go(tid))
      ensures row !in old(forks) && forks == old(forks)[row := Slot(req, None)]
    {
      hide Inv;
      NoSlotThere(world, tid, row, req);
      NextKeeps(world, Go(tid));
      world := Next(world, Go(tid));
      forks := forks[row := Slot(req, None)];
    }

    /** A follow-up reads the slot's id, which nobody has deleted; without one there is nothing to follow up on. */
    method Look(ghost tid: nat, row: nat, ghost req: nat) returns (uuid: Option<nat>)
      requires Valid() && Stands(world, tid, Thread(row, Some(req), ToLook))
      modifies `world
      ensures Valid() && world == Next(old(world), Go(tid))
      ensures uuid.Some? <==> row in forks && forks[row].uuid.Some?
      ensures uuid.Some? ==> IsIn(world, uuid.value, InSlot(row)) && uuid.value !in world.deleted
      ensures Stands(world, tid, Thread(row, Some(req), if uuid.Some? then ToCancel(ThenSpawn(false)) else Over))
    {
      hide Inv;
      SlotIsItsPlace(world, row);
      NextKeeps(world, Go(tid));
      world := Next(world, Go(tid));
      uuid := if row in forks then forks[row].uuid else None;
    }

    /** A spawned child's entry, which a cancel can take from then on. */
    method Register(child: nat, row: nat, req: nat, ghost forked: bool)
      requires Valid() && Stands(world, child, Thread(row, Some(req), ToRegister(forked)))
      modifies this
      ensures Valid() && world == Next(old(world), Go(child))
      ensures running == old(running)[row := Entry(req, child)]
    {
      hide Inv;
      NextKeeps(world, Go(child));
      world := Next(world, Go(child));
      running := running[row := Entry(req, child)];
    }

    /**
     Whether the id was recorded: it is then in this request's slot, which was empty. When not, no slot changed and the id
     is the caller's to delete. No other id moves.
    */
    method NoteFork(ghost tid: nat, row: nat, req: nat, uuid: nat) returns (noted: bool)
      requires Valid() && Stands(world, tid, Thread(row, Some(req), Reading(true))) && uuid !in world.place
      modifies this
      ensures Valid() && world == Next(old(world), Reports(tid, uuid))
      ensures noted ==> row in old(forks) && old(forks)[row] == Slot(req, None) && forks == old(forks)[row := Slot(req, Some(uuid))]
      ensures !noted ==> forks == old(forks) && Stands(world, tid, Thread(row, Some(req), ToDeleteReport(uuid)))
      ensures world.place == old(world).place[uuid := if noted then InSlot(row) else InHand(tid)]
    {
      hide Inv;
      SlotWaits(world, tid, row, req);
      NextKeeps(world, Reports(tid, uuid));
      world := Next(world, Reports(tid, uuid));
      if row in forks && forks[row].req == req {
        forks := forks[row := forks[row].(uuid := Some(uuid))];
        return true;
      }
      noted := false;
    }

    /**
     Whether the row's entry is still this child's own: it is then removed, no cancel had taken it and its request has
     said nothing yet. Otherwise nothing changes, and this child stays silent.
    */
    method TakeIfOurs(ghost tid: nat, row: nat, req: nat) returns (ours: bool)
      requires Valid() && Stands(world, tid, Thread(row, Some(req), ToTake))
      modifies this
      ensures Valid() && world == Next(old(world), Go(tid))
      ensures ours <==> row in old(running) && old(running)[row].child == tid
      ensures running == if ours then old(running) - {row} else old(running)
      ensures ours ==> tid !in world.cancelled && world.emitted[req] == 0
      ensures Stands(world, tid, Thread(row, Some(req), if ours then ToEmit else Over))
    {
      hide Inv;
      EntryIsOurs(world, tid, row, req);
      EntryMeansHeard(world, tid, row, req);
      NextKeeps(world, Go(tid));
      world := Next(world, Go(tid));
      if row in running && running[row].req == req {
        running := running - {row};
        return true;
      }
      ours := false;
    }
  }
}
