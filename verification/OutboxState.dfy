/**
 Changes waiting to be told: how a claude's queue folds per card, what the folded
 changes net to against the board as it is now, and what UPDATE sends.
*/
module OutboxState {
  import opened Wrappers
  import opened BoardState

  /** A comment as posted. */
  datatype Posted = Posted(actor: Option<nat>, id: string, text: string, images: seq<string>)

  /** What happened to one card: the latest of each kind wins, and comments accumulate. */
  datatype Folded = Folded(
    title: string, actors: set<Option<nat>>, added: bool, moved: bool, given: bool,
    unassigned: Option<Option<nat>>, edited: bool, comments: seq<Posted>, chose: Option<Option<string>>,
    wasArchived: Option<bool>, deleted: bool, base: Option<Option<Snap>>)

  const NOTHING_YET := Folded("", {}, false, false, false, None, false, [], None, None, false, None)

  /** What an event marks, by its kind. */
  function Marked(f: Folded, e: Event): Folded {
    match e.change
    case Added => f.(added := true)
    case Moved => f.(moved := true)
    case AssignedToYou => f.(given := true, unassigned := None)
    case Unassigned(to) => f.(unassigned := Some(to), given := false)
    case Edited => f.(edited := true)
    case Commented(id, text, images) => f.(comments := f.comments + [Posted(e.actor, id, text, images)])
    case Chose(c) => f.(chose := Some(c))
    case Archived(a) => f.(wasArchived := if f.wasArchived.Some? then f.wasArchived else Some(!a))
    case Deleted => f.(deleted := true)
  }

  /** One more event about the card; the first gives the baseline. */
  function Absorb(f: Folded, e: Event): Folded {
    Marked(f.(base := if f.base.Some? then f.base else Some(e.before), title := e.title, actors := f.actors + {e.actor}), e)
  }

  function FoldOf(folds: map<nat, Folded>, n: nat): Folded {
    if n in folds then folds[n] else NOTHING_YET
  }

  function Fold(events: seq<Event>): map<nat, Folded> {
    if |events| == 0 then map[]
    else
      var folds := Fold(events[..|events| - 1]);
      var e := events[|events| - 1];
      folds[e.n := Absorb(FoldOf(folds, e.n), e)]
  }

  // ---------- Net ----------

  /** What one card's folded changes add up to for one claude. */
  datatype Net = Net(
    deleted: bool, added: bool, given: bool, lost: Option<Option<nat>>, moved: bool, edited: bool,
    archived: Option<bool>, chose: Option<Option<string>>, comments: bool)
  {
    predicate Any() {
      deleted || added || given || lost.Some? || moved || edited || archived.Some? || chose.Some? || comments
    }
  }

  function CommentById(comments: seq<Comment>, id: string): (r: Option<Comment>)
    ensures r.Some? ==> r.value in comments && r.value.id == id
    ensures r.None? ==> forall c :: c in comments ==> c.id != id
  {
    if |comments| == 0 then None
    else if comments[0].id == id then Some(comments[0])
    else CommentById(comments[1..], id)
  }

  /** The posted comments as they read now: an edited one with its new text, a deleted one gone. */
  function LiveComments(posted: seq<Posted>, card: Option<Card>): seq<Posted> {
    if |posted| == 0 then []
    else
      var p := posted[0];
      var now :=
        if p.id == "" then [p]
        else if card.None? then []
        else match CommentById(card.value.comments, p.id)
             case Some(c) => [p.(text := c.text, images := c.images)]
             case None => [];
      now + LiveComments(posted[1..], card)
  }

  function NetOf(id: nat, f: Folded, card: Option<Card>): Option<Net> {
    var x := Net(false, false, false, None, false, false, None, None, LiveComments(f.comments, card) != []);
    match f.base
    case Some(None) =>
      if card.None? then None else Some(x.(added := true))
    case Some(Some(b)) => (
      match card
      case None => if b.assignee != Some(id) then None else Some(x.(deleted := true))
      case Some(c) =>
        if b.assignee != Some(id) && c.assignee != Some(id) then None
        else
          var was, holds := b.assignee == Some(id), c.assignee == Some(id);
          Some(x.(given := holds && !was,
                  lost := if was && !holds then Some(c.assignee) else None,
                  moved := c.col != b.col,
                  edited := c.title != b.title || c.detail != b.detail || c.images != b.images,
                  archived := if c.archived != b.archived then Some(c.archived) else None,
                  chose := if c.chosen != b.chosen then Some(c.chosen) else None)))
    case None => (
      match card
      case None => Some(x.(deleted := true))
      case Some(c) =>
        Some(x.(added := f.added,
                given := f.given && c.assignee == Some(id),
                lost := if f.unassigned.Some? && c.assignee != Some(id) then Some(c.assignee) else None,
                moved := f.moved, edited := f.edited,
                archived := if f.wasArchived.Some? && f.wasArchived.value != c.archived then Some(c.archived) else None,
                chose := if f.chose.Some? && f.chose.value == c.chosen then f.chose else None)))
  }

  /** Whether card `n`'s folded changes are a real change for `id`. */
  predicate IsReal(id: nat, n: nat, f: Folded, b: BoardState) {
    var x := NetOf(id, f, Find(b.cards, n));
    x.Some? && x.value.Any()
  }

  // ---------- Keys in order ----------

  lemma HasLeast(s: set<nat>)
    requires s != {}
    ensures exists m :: m in s && forall x :: x in s ==> m <= x
  {
    var x :| x in s;
    BelowSome(s, x);
  }

  lemma {:induction false} BelowSome(s: set<nat>, k: nat)
    requires k in s
    ensures exists m :: m in s && forall x :: x in s ==> m <= x
    decreases k
  {
    if y :| y in s && y < k {
      BelowSome(s, y);
    }
  }

  function Least(s: set<nat>): (m: nat)
    requires s != {}
    ensures m in s && forall x :: x in s ==> m <= x
  {
    HasLeast(s);
    var m :| m in s && forall x :: x in s ==> m <= x;
    m
  }

  /** The elements of `s`, ascending. */
  function InOrder(s: set<nat>): (r: seq<nat>)
    ensures forall x :: x in r <==> x in s
    ensures forall i, j :: 0 <= i < j < |r| ==> r[i] < r[j]
  {
    if s == {} then []
    else
      var m := Least(s);
      var rest := InOrder(s - {m});
      assert forall k :: 0 <= k < |rest| ==> rest[k] in rest;
      [m] + rest
  }

  // ---------- Pending and the message ----------

  function RealOnes(id: nat, ns: seq<nat>, folds: map<nat, Folded>, b: BoardState): (r: seq<nat>)
    ensures forall n :: n in r <==> n in ns && IsReal(id, n, FoldOf(folds, n), b)
  {
    if |ns| == 0 then []
    else (if IsReal(id, ns[0], FoldOf(folds, ns[0]), b) then [ns[0]] else []) + RealOnes(id, ns[1..], folds, b)
  }

  /** The cards with a real change among `events`, in order. */
  function PendingIn(id: nat, events: seq<Event>, b: BoardState): seq<nat> {
    var folds := Fold(events);
    RealOnes(id, InOrder(folds.Keys), folds, b)
  }

  function Pending(waiting: map<nat, seq<Event>>, b: BoardState): map<nat, seq<nat>> {
    map id | id in waiting && PendingIn(id, waiting[id], b) != [] :: PendingIn(id, waiting[id], b)
  }

  datatype Part =
    | NewForYou
    | NowYours
    | NowIn(col: nat)
    | ArchivedNow(on: bool)
    | TextEdited
    | Picked(choice: Option<string>)

  /** What the message says of one card. */
  datatype Entry =
    | SaysDeleted(n: nat, title: string, actors: set<Option<nat>>)
    | SaysLost(n: nat, title: string, actors: set<Option<nat>>, to: Option<nat>)
    | SaysChanged(n: nat, title: string, actors: set<Option<nat>>, parts: seq<Part>, comments: seq<Posted>,
                  detail: Option<string>, images: seq<string>)

  datatype Message = Message(to: nat, entries: seq<Entry>)

  function PartsOf(x: Net, card: Card): seq<Part> {
    (if x.added then [NewForYou] else if x.given then [NowYours] else [])
    + (if x.moved || x.added || x.given then [NowIn(card.col)] else [])
    + (match x.archived case Some(a) => [ArchivedNow(a)] case None => [])
    + (if x.edited then [TextEdited] else [])
    + (match x.chose case Some(c) => [Picked(c)] case None => [])
  }

  /** A card's entry; an empty one is left out. */
  function EntryOf(id: nat, n: nat, f: Folded, b: BoardState): seq<Entry> {
    var card := Find(b.cards, n);
    if !IsReal(id, n, f, b) then []
    else
      var x := NetOf(id, f, card).value;
      if card.None? || x.deleted then [SaysDeleted(n, f.title, f.actors)]
      else if x.lost.Some? then [SaysLost(n, card.value.title, f.actors, x.lost.value)]
      else
        var full := x.added || x.edited || x.given;
        var e := SaysChanged(n, card.value.title, f.actors, PartsOf(x, card.value), LiveComments(f.comments, card),
                             if full then card.value.detail else None, if full then card.value.images else []);
        if e.parts == [] && e.comments == [] && e.detail.None? && e.images == [] then [] else [e]
  }

  function EntriesOf(id: nat, ns: seq<nat>, folds: map<nat, Folded>, b: BoardState): seq<Entry> {
    if |ns| == 0 then [] else EntryOf(id, ns[0], FoldOf(folds, ns[0]), b) + EntriesOf(id, ns[1..], folds, b)
  }

  function Render(id: nat, folds: map<nat, Folded>, b: BoardState): Option<Message> {
    var entries := EntriesOf(id, InOrder(folds.Keys), folds, b);
    if entries == [] then None else Some(Message(id, entries))
  }

  // ---------- The two queues ----------

  /** Released changes, and since when they wait for their claude. */
  datatype Sending = Sending(events: seq<Event>, since: Option<nat>)

  datatype OutboxState = OutboxState(waiting: map<nat, seq<Event>>, sending: map<nat, Sending>)

  function Queue(waiting: map<nat, seq<Event>>, id: nat): seq<Event> {
    if id in waiting then waiting[id] else []
  }

  function SendingOf(sending: map<nat, Sending>, id: nat): Sending {
    if id in sending then sending[id] else Sending([], None)
  }

  function StartClock(s: Sending, now: nat): Sending {
    if s.since.Some? then s else s.(since := Some(now))
  }

  /** The user's changes wait for UPDATE; a claude's go out on their own. */
  function PushOne(ob: OutboxState, e: Event, user: bool, now: nat): OutboxState {
    if user then ob.(waiting := ob.waiting[e.to := Queue(ob.waiting, e.to) + [e]])
    else
      var s := StartClock(SendingOf(ob.sending, e.to), now);
      ob.(sending := ob.sending[e.to := s.(events := s.events + [e])])
  }

  function Push(ob: OutboxState, events: seq<Event>, user: bool, now: nat): OutboxState {
    if |events| == 0 then ob
    else PushOne(Push(ob, events[..|events| - 1], user, now), events[|events| - 1], user, now)
  }

  /** UPDATE for `id`. */
  function Release(ob: OutboxState, id: nat, b: BoardState, now: nat): (OutboxState, bool) {
    if id !in ob.waiting then (ob, false)
    else
      var ob1 := ob.(waiting := ob.waiting - {id});
      if id !in Pending(ob.waiting, b) then (ob1, false)
      else
        var s := StartClock(SendingOf(ob.sending, id), now);
        (ob1.(sending := ob.sending[id := s.(events := s.events + ob.waiting[id])]), true)
  }

  /** Take `id`'s released changes, as a message against the board as it is now. */
  function Take(ob: OutboxState, id: nat, b: BoardState): (OutboxState, Option<Message>) {
    if id !in ob.sending then (ob, None)
    else (ob.(sending := ob.sending - {id}), Render(id, Fold(ob.sending[id].events), b))
  }

  /** Forget every queue of a claude that is not kept. */
  function Forget(ob: OutboxState, keep: set<nat>): (OutboxState, bool) {
    var ob1 := OutboxState(map id | id in ob.waiting && id in keep :: ob.waiting[id],
                           map id | id in ob.sending && id in keep :: ob.sending[id]);
    (ob1, |ob1.waiting| != |ob.waiting| || |ob1.sending| != |ob.sending|)
  }

  // ---------- What the message and the count agree on ----------

  function NumbersOf(entries: seq<Entry>): seq<nat> {
    if |entries| == 0 then [] else [entries[0].n] + NumbersOf(entries[1..])
  }

  lemma NumbersConcat(a: seq<Entry>, b: seq<Entry>)
    ensures NumbersOf(a + b) == NumbersOf(a) + NumbersOf(b)
  {
    if |a| == 0 {
      assert a + b == b;
    } else {
      assert (a + b)[1..] == a[1..] + b;
      NumbersConcat(a[1..], b);
    }
  }

  /** A card with a real change has an entry, never an empty one; a card without has none. */
  lemma OneEntryEach(id: nat, n: nat, f: Folded, b: BoardState)
    ensures NumbersOf(EntryOf(id, n, f, b)) == if IsReal(id, n, f, b) then [n] else []
  {
  }

  /** The message's entries are the pending cards, each once, in order. */
  lemma {:induction false} EntriesArePending(id: nat, ns: seq<nat>, folds: map<nat, Folded>, b: BoardState)
    ensures NumbersOf(EntriesOf(id, ns, folds, b)) == RealOnes(id, ns, folds, b)
  {
    if |ns| != 0 {
      OneEntryEach(id, ns[0], FoldOf(folds, ns[0]), b);
      NumbersConcat(EntryOf(id, ns[0], FoldOf(folds, ns[0]), b), EntriesOf(id, ns[1..], folds, b));
      EntriesArePending(id, ns[1..], folds, b);
    }
  }

  lemma {:induction false} PendingAscends(id: nat, ns: seq<nat>, folds: map<nat, Folded>, b: BoardState)
    requires Ascending(ns)
    ensures Ascending(RealOnes(id, ns, folds, b))
  {
    if |ns| != 0 {
      var rest := RealOnes(id, ns[1..], folds, b);
      PendingAscends(id, ns[1..], folds, b);
      forall k | 0 <= k < |rest| ensures ns[0] < rest[k] {
        assert rest[k] in rest;
        var j :| 0 <= j < |ns[1..]| && ns[1..][j] == rest[k];
        assert ns[j + 1] == rest[k];
      }
    }
  }

  /**
   UPDATE sends what it counted: released with nothing of `id`'s already going out, the message
   has exactly one entry per pending card, ascending. Refused, the queue would have said nothing.
  */
  lemma UpdateSaysWhatItCounts(ob: OutboxState, id: nat, b: BoardState, now: nat)
    requires id !in ob.sending
    ensures var (ob1, released) := Release(ob, id, b, now);
            && (released <==> id in Pending(ob.waiting, b))
            && (released ==>
                  var msg := Take(ob1, id, b).1;
                  && msg.Some? && msg.value.to == id
                  && NumbersOf(msg.value.entries) == Pending(ob.waiting, b)[id]
                  && Ascending(NumbersOf(msg.value.entries)))
            && (!released ==> Render(id, Fold(Queue(ob.waiting, id)), b).None?)
  {
    var (ob1, released) := Release(ob, id, b, now);
    MessageIsPending(id, Queue(ob.waiting, id), b);
    if released {
      assert [] + ob.waiting[id] == ob.waiting[id];
      assert ob1.sending[id].events == ob.waiting[id];
    } else if id !in ob.waiting {
      assert Fold([]) == map[];
      assert PendingIn(id, [], b) == [];
    }
  }

  /** Releasing or taking `id`'s changes touches no other queue, and empties its own. */
  lemma OthersKept(ob: OutboxState, id: nat, b: BoardState, now: nat)
    requires id !in ob.sending
    ensures var (ob1, released) := Release(ob, id, b, now);
            && ob1.waiting == ob.waiting - {id}
            && (released ==> Take(ob1, id, b).0 == ob.(waiting := ob.waiting - {id}))
            && (!released ==> ob1.sending == ob.sending)
            && (forall o :: o != id ==> Queue(ob1.waiting, o) == Queue(ob.waiting, o)
                                        && SendingOf(ob1.sending, o) == SendingOf(ob.sending, o))
  {
    hide Fold, Pending;
    var (ob1, released) := Release(ob, id, b, now);
    assert id !in ob.waiting ==> ob.waiting - {id} == ob.waiting;
    assert released ==> ob1.sending - {id} == ob.sending;
  }

  ghost predicate Ascending(ns: seq<nat>) {
    forall i, j :: 0 <= i < j < |ns| ==> ns[i] < ns[j]
  }

  lemma MessageIsPending(id: nat, events: seq<Event>, b: BoardState)
    ensures var msg := Render(id, Fold(events), b);
            && (msg.None? <==> PendingIn(id, events, b) == [])
            && (msg.Some? ==> msg.value.to == id && NumbersOf(msg.value.entries) == PendingIn(id, events, b))
            && Ascending(PendingIn(id, events, b))
  {
    var folds := Fold(events);
    EntriesArePending(id, InOrder(folds.Keys), folds, b);
    PendingAscends(id, InOrder(folds.Keys), folds, b);
    NumbersLength(EntriesOf(id, InOrder(folds.Keys), folds, b));
  }

  lemma NumbersLength(entries: seq<Entry>)
    ensures |NumbersOf(entries)| == |entries|
    ensures forall i :: 0 <= i < |entries| ==> NumbersOf(entries)[i] == entries[i].n
  {
  }
}
