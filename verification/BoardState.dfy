/**
 The Board as a value: its entities, and every operation of board.rs as a
 function from one board value to the next. `Board` in BoardMachine.dfy performs
 the same operations in place and is proved against these.

 Texts arrive trimmed and cut; an empty text is one that trimmed to nothing.
*/
module BoardState {
  import opened Wrappers

  const MAX_ACTIVE := 300
  const MAX_COLUMNS := 12
  const MAX_PROP_CHANGES := 20
  const MAX_PROPOSALS := 20
  const MAX_COMMENTS := 200
  const MAX_CHOICES := 8
  const MAX_IMAGES := 10

  datatype Author = ByClaude | ByUser

  datatype Column = Column(id: nat, name: string, desc: string)

  /** `id` is empty on comments saved before ids existed. */
  datatype Comment = Comment(id: string, author: Author, who: Option<nat>, text: string, images: seq<string>, at: nat)

  datatype Card = Card(
    n: nat, title: string, detail: Option<string>, images: seq<string>, col: nat, assignee: Option<nat>,
    urgent: bool, choices: seq<string>, chosen: Option<string>, comments: seq<Comment>, archived: bool,
    author: Author, maker: Option<nat>, unread: bool, created: nat, updated: nat)

  /** A column a change names: by id, or one an earlier `Add` of the same proposal made. */
  datatype ColRef = Id(id: nat) | New(name: string)

  datatype ColChange =
    | AddCol(name: string, desc: string, before: Option<ColRef>)
    | EditCol(col: ColRef, newName: Option<string>, newDesc: Option<string>)
    | MoveCol(col: ColRef, before: Option<ColRef>)
    | DeleteCol(col: ColRef, to: Option<ColRef>)

  datatype Proposal = Proposal(id: nat, proposer: nat, why: string, changes: seq<ColChange>, at: nat)

  datatype BoardState = BoardState(
    on: bool, next: nat, nextCol: nat, columns: seq<Column>, cards: seq<Card>,
    proposals: seq<Proposal>, nextProp: nat)

  const DEFAULT_BOARD := BoardState(false, 0, 3, [
                                      Column(1, "To Do", "Not started yet."),
                                      Column(2, "Doing", "Being worked on now. Move a card here when you start it."),
                                      Column(3, "Done", "Finished. Move a card here once it is done.")],
                                    [], [], 0)

  /** The user's edits (desktop, remote desktop, phone). */
  datatype BoardEdit =
    | Add(title: string, newDetail: Option<string>, col: nat, assignee: Option<nat>, images: seq<string>)
    | Edit(n: nat, newTitle: Option<string>, detail: Option<string>, newImages: Option<seq<string>>)
    | Move(n: nat, col: nat, before: Option<nat>)
    | Assign(n: nat, to: Option<nat>)
    | Choose(n: nat, choice: Option<string>)
    | PostComment(n: nat, text: string, images: seq<string>)
    | EditComment(n: nat, id: string, text: string, images: seq<string>)
    | DeleteComment(n: nat, id: string)
    | Archive(n: nat, archive: bool)
    | ArchiveColumn(col: nat)
    | Delete(n: nat)
    | Seen(n: nat)
    | ColAdd(name: string, desc: string)
    | ColEdit(col: nat, newName: Option<string>, newDesc: Option<string>)
    | ColMove(col: nat, before: Option<nat>)
    | ColDelete(col: nat, dest: Option<nat>)
    | Approve(proposal: nat)
    | Reject(proposal: nat)

  /** A column as a claude names it in a call. */
  datatype ColArg = ByNumber(number: nat) | ByName(name: string)

  /** One card of a claude's `add`; an image that could not be imported is `None`. */
  datatype NewCard = NewCard(
    title: string, detail: Option<string>, col: Option<ColArg>, assignee: Option<Option<nat>>,
    choices: seq<string>, urgent: bool, images: seq<Option<string>>)

  /** One column change as a claude writes it. */
  datatype ChangeRequest =
    | WantAdd(name: string, desc: string, before: Option<ColArg>)
    | WantEdit(col: ColArg, newName: Option<string>, newDesc: Option<string>)
    | WantMove(col: ColArg, before: Option<ColArg>)
    | WantDelete(col: ColArg, to: Option<ColArg>)

  /** The six actions of a `hub_board` call that change something. */
  datatype ClaudeAction =
    | AddCards(items: seq<NewCard>)
    | UpdateCard(n: nat, title: Option<string>, detail: Option<Option<string>>, choices: Option<seq<string>>,
                 urgent: Option<bool>, assignee: Option<Option<nat>>, images: seq<Option<string>>)
    | MoveCards(ids: seq<nat>, dest: ColArg)
    | CommentOn(n: nat, text: string, images: seq<Option<string>>)
    | ArchiveCards(ids: seq<nat>)
    | ProposeColumns(changes: seq<ChangeRequest>, why: string)

  datatype Change =
    | Added
    | Moved
    | AssignedToYou
    | Unassigned(to: Option<nat>)
    | Edited
    | Commented(id: string, text: string, images: seq<string>)
    | Chose(choice: Option<string>)
    | Archived(on: bool)
    | Deleted

  /** What of a card a claude would be told about. */
  datatype Snap = Snap(
    col: nat, assignee: Option<nat>, title: string, detail: Option<string>, images: seq<string>,
    chosen: Option<string>, archived: bool)

  /** One change for one claude. `before` is the card before the edit that made the event. */
  datatype Event = Event(to: nat, n: nat, actor: Option<nat>, change: Change, title: string, before: Option<Snap>)

  /** Why an operation was refused. */
  datatype Refusal =
    | NeedTitle | ColumnGone | TooManyImages | BoardFull | CardGone | NotAChoice | EmptyComment
    | TooManyComments | CommentGone | NeedColumnName | TooManyColumns | LastColumn | PickAnother
    | UseDecide | ProposalGone | NoNewColumn | NeedItems | Duplicate(of: nat) | NoColumns | NoSuchColumn
    | TooManyChoices | ImportFailed | NothingToUpdate | MissingId | NeedChanges | TooManyChanges
    | TooManyProposals | NeedNameOrDesc | TwoOfOneName

  /** What a user edit reports: the events, and image ids no longer referenced. */
  datatype Done = Done(events: seq<Event>, gone: seq<string>)

  /** The board an operation leaves, and what it answers. A refused edit may leave its copy half changed. */
  datatype Outcome<+T> = Outcome(board: BoardState, result: Result<T, Refusal>)

  // ---------- Looking things up ----------

  function SnapOf(c: Card): Snap {
    Snap(c.col, c.assignee, c.title, c.detail, c.images, c.chosen, c.archived)
  }

  /** Where card `n` is. */
  function Pos(cards: seq<Card>, n: nat): (r: Option<nat>)
    ensures r.Some? ==> r.value < |cards| && cards[r.value].n == n && forall j :: 0 <= j < r.value ==> cards[j].n != n
    ensures r.None? ==> forall j :: 0 <= j < |cards| ==> cards[j].n != n
  {
    if |cards| == 0 then None
    else if cards[0].n == n then Some(0)
    else match Pos(cards[1..], n)
         case Some(i) => Some(i + 1)
         case None => None
  }

  function Find(cards: seq<Card>, n: nat): Option<Card> {
    match Pos(cards, n)
    case Some(i) => Some(cards[i])
    case None => None
  }

  function SnapAt(cards: seq<Card>, n: nat): Option<Snap> {
    match Find(cards, n)
    case Some(c) => Some(SnapOf(c))
    case None => None
  }

  predicate HeldBy(cards: seq<Card>, n: nat, id: nat) {
    var c := Find(cards, n);
    c.Some? && c.value.assignee == Some(id)
  }

  function ColPos(columns: seq<Column>, id: nat): (r: Option<nat>)
    ensures r.Some? ==> r.value < |columns| && columns[r.value].id == id
    ensures r.Some? ==> forall j :: 0 <= j < r.value ==> columns[j].id != id
    ensures r.None? ==> forall j :: 0 <= j < |columns| ==> columns[j].id != id
  {
    if |columns| == 0 then None
    else if columns[0].id == id then Some(0)
    else match ColPos(columns[1..], id)
         case Some(i) => Some(i + 1)
         case None => None
  }

  predicate HasCol(columns: seq<Column>, id: nat) {
    ColPos(columns, id).Some?
  }

  function ActiveCount(cards: seq<Card>): nat {
    if |cards| == 0 then 0 else (if cards[0].archived then 0 else 1) + ActiveCount(cards[1..])
  }

  // ---------- Display order ----------

  predicate IsPinned(c: Card) {
    c.urgent && !c.archived
  }

  function PinnedOf(cards: seq<Card>): seq<Card> {
    if |cards| == 0 then []
    else (if IsPinned(cards[0]) then [cards[0]] else []) + PinnedOf(cards[1..])
  }

  function OthersOf(cards: seq<Card>): seq<Card> {
    if |cards| == 0 then []
    else (if IsPinned(cards[0]) then [] else [cards[0]]) + OthersOf(cards[1..])
  }

  /** Pinned cards first, otherwise stable. */
  function Normalize(cards: seq<Card>): seq<Card> {
    PinnedOf(cards) + OthersOf(cards)
  }

  function FirstIn(cards: seq<Card>, col: nat): (r: Option<nat>)
    ensures r.Some? ==> r.value < |cards| && cards[r.value].col == col
    ensures r.Some? ==> forall j :: 0 <= j < r.value ==> cards[j].col != col
    ensures r.None? ==> forall j :: 0 <= j < |cards| ==> cards[j].col != col
  {
    if |cards| == 0 then None
    else if cards[0].col == col then Some(0)
    else match FirstIn(cards[1..], col)
         case Some(i) => Some(i + 1)
         case None => None
  }

  function LastIn(cards: seq<Card>, col: nat): (r: Option<nat>)
    ensures r.Some? ==> r.value < |cards| && cards[r.value].col == col
    ensures r.Some? ==> forall j :: r.value < j < |cards| ==> cards[j].col != col
    ensures r.None? ==> forall j :: 0 <= j < |cards| ==> cards[j].col != col
  {
    if |cards| == 0 then None
    else if cards[|cards| - 1].col == col then Some(|cards| - 1)
    else LastIn(cards[..|cards| - 1], col)
  }

  /** Where card `n` is, if it is in column `col`. */
  function PosIn(cards: seq<Card>, n: nat, col: nat): (r: Option<nat>)
    ensures r.Some? ==> r.value < |cards| && cards[r.value].n == n && cards[r.value].col == col
    ensures r.Some? ==> forall j :: 0 <= j < r.value ==> !(cards[j].n == n && cards[j].col == col)
    ensures r.None? ==> forall j :: 0 <= j < |cards| ==> !(cards[j].n == n && cards[j].col == col)
  {
    if |cards| == 0 then None
    else if cards[0].n == n && cards[0].col == col then Some(0)
    else match PosIn(cards[1..], n, col)
         case Some(i) => Some(i + 1)
         case None => None
  }

  /** Before `before`, at the column's top, or after its last card. */
  function PlaceAt(cards: seq<Card>, col: nat, before: Option<nat>, top: bool): (i: nat)
    ensures i <= |cards|
  {
    var at := match before
      case Some(b) => PosIn(cards, b, col)
      case None => if top then FirstIn(cards, col) else None;
    match at
    case Some(i) => i
    case None =>
      match LastIn(cards, col)
      case Some(i) => i + 1
      case None => |cards|
  }

  function InsertAt<T>(s: seq<T>, i: nat, x: T): seq<T>
    requires i <= |s|
  {
    s[..i] + [x] + s[i..]
  }

  function RemoveAt<T>(s: seq<T>, i: nat): seq<T>
    requires i < |s|
  {
    s[..i] + s[i + 1..]
  }

  function Place(cards: seq<Card>, card: Card, col: nat, before: Option<nat>, top: bool): seq<Card> {
    InsertAt(cards, PlaceAt(cards, col, before, top), card.(col := col))
  }

  // ---------- Events ----------

  /** The event for the card's assignee, unless that is who did it. */
  function Tell(card: Card, actor: Option<nat>, change: Change): seq<Event> {
    if card.assignee.Some? && card.assignee != actor
    then [Event(card.assignee.value, card.n, actor, change, card.title, None)]
    else []
  }

  /** Every event carries its card as it was in `cards`. */
  function Stamp(ev: seq<Event>, cards: seq<Card>): (r: seq<Event>)
    ensures |r| == |ev|
    ensures forall i :: 0 <= i < |ev| ==> r[i] == ev[i].(before := SnapAt(cards, ev[i].n))
  {
    seq(|ev|, i requires 0 <= i < |ev| => ev[i].(before := SnapAt(cards, ev[i].n)))
  }

  /** The end of every edit: display order, and events stamped from `prior`. */
  function Finish(b: BoardState, prior: seq<Card>, ev: seq<Event>, gone: seq<string>): Outcome<Done> {
    Outcome(b.(cards := Normalize(b.cards)), Success(Done(Stamp(ev, prior), gone)))
  }

  function CleanDetail(d: string): Option<string> {
    if d == "" then None else Some(d)
  }

  function CleanDetailOpt(d: Option<string>): Option<string> {
    if d.Some? then CleanDetail(d.value) else None
  }

  /** The ids in `prior` that `kept` no longer has. */
  function Dropped(prior: seq<string>, kept: seq<string>): seq<string> {
    if |prior| == 0 then []
    else (if prior[0] in kept then [] else [prior[0]]) + Dropped(prior[1..], kept)
  }

  // ---------- The user's edits ----------

  function UserAdd(b: BoardState, e: BoardEdit, now: nat): Outcome<Done>
    requires e.Add?
  {
    if e.title == "" then Outcome(b, Failure(NeedTitle))
    else if !HasCol(b.columns, e.col) then Outcome(b, Failure(ColumnGone))
    else if |e.images| > MAX_IMAGES then Outcome(b, Failure(TooManyImages))
    else if ActiveCount(b.cards) >= MAX_ACTIVE then Outcome(b, Failure(BoardFull))
    else
      var card := Card(b.next + 1, e.title, CleanDetailOpt(e.newDetail),
                       e.images, e.col, e.assignee, false, [], None, [], false, ByUser, None, false, now, now);
      Finish(b.(next := b.next + 1, cards := Place(b.cards, card, e.col, None, false)), b.cards,
             Tell(card, None, Added), [])
  }

  /** Card `c` with the edit's title and detail. */
  function Retitled(c: Card, e: BoardEdit): Card
    requires e.Edit?
  {
    var t := if e.newTitle.Some? && e.newTitle.value != "" then e.newTitle.value else c.title;
    var d := if e.detail.Some? then CleanDetail(e.detail.value) else c.detail;
    c.(title := t, detail := d)
  }

  function UserEdit(b: BoardState, e: BoardEdit, now: nat): Outcome<Done>
    requires e.Edit?
  {
    match Pos(b.cards, e.n)
    case None => Outcome(b, Failure(CardGone))
    case Some(i) =>
      var c := b.cards[i];
      var c1 := Retitled(c, e);
      if e.newImages.Some? && |e.newImages.value| > MAX_IMAGES then
        // The title and detail of this copy are already changed: the store drops it.
        Outcome(b.(cards := b.cards[i := c1]), Failure(TooManyImages))
      else
        var gone := if e.newImages.Some? then Dropped(c.images, e.newImages.value) else [];
        var c2 := if e.newImages.Some? then c1.(images := e.newImages.value) else c1;
        var changed := c2.title != c.title || c2.detail != c.detail || c2.images != c.images;
        var c3 := if changed then c2.(updated := now) else c2;
        Finish(b.(cards := b.cards[i := c3]), b.cards, if changed then Tell(c3, None, Edited) else [], gone)
  }

  function UserMove(b: BoardState, e: BoardEdit, now: nat): Outcome<Done>
    requires e.Move?
  {
    if !HasCol(b.columns, e.col) then Outcome(b, Failure(ColumnGone))
    else match Pos(b.cards, e.n)
         case None => Outcome(b, Failure(CardGone))
         case Some(i) =>
           var c := b.cards[i];
           var moved := c.col != e.col;
           var c1 := if moved then c.(updated := now) else c;
           var before := if e.before == Some(e.n) then None else e.before;
           Finish(b.(cards := Place(RemoveAt(b.cards, i), c1, e.col, before, false)), b.cards,
                  if moved then Tell(c1, None, Moved) else [], [])
  }

  function UserAssign(b: BoardState, e: BoardEdit, now: nat): Outcome<Done>
    requires e.Assign?
  {
    match Pos(b.cards, e.n)
    case None => Outcome(b, Failure(CardGone))
    case Some(i) =>
      var c := b.cards[i];
      if c.assignee == e.to then Finish(b, b.cards, [], [])
      else
        var c1 := c.(assignee := e.to, updated := now);
        var lost := if c.assignee.Some? then [Event(c.assignee.value, c.n, None, Unassigned(e.to), c.title, None)] else [];
        Finish(b.(cards := b.cards[i := c1]), b.cards, Tell(c1, None, AssignedToYou) + lost, [])
  }

  function UserChoose(b: BoardState, e: BoardEdit, now: nat): Outcome<Done>
    requires e.Choose?
  {
    match Pos(b.cards, e.n)
    case None => Outcome(b, Failure(CardGone))
    case Some(i) =>
      var c := b.cards[i];
      if e.choice.Some? && e.choice.value !in c.choices then Outcome(b, Failure(NotAChoice))
      else if c.chosen == e.choice then Finish(b, b.cards, [], [])
      else
        var c1 := c.(chosen := e.choice, updated := now);
        Finish(b.(cards := b.cards[i := c1]), b.cards, Tell(c1, None, Chose(e.choice)), [])
  }

  function UserComment(b: BoardState, e: BoardEdit, now: nat, uuid: string): Outcome<Done>
    requires e.PostComment?
  {
    if e.text == "" && |e.images| == 0 then Outcome(b, Failure(EmptyComment))
    else if |e.images| > MAX_IMAGES then Outcome(b, Failure(TooManyImages))
    else match Pos(b.cards, e.n)
         case None => Outcome(b, Failure(CardGone))
         case Some(i) =>
           var c := b.cards[i];
           if |c.comments| >= MAX_COMMENTS then Outcome(b, Failure(TooManyComments))
           else
             var c1 := c.(comments := c.comments + [Comment(uuid, ByUser, None, e.text, e.images, now)],
                          updated := now, unread := false);
             Finish(b.(cards := b.cards[i := c1]), b.cards, Tell(c1, None, Commented(uuid, e.text, e.images)), [])
  }

  /** Where the user's own comment `id` is. */
  function CommentPos(comments: seq<Comment>, id: string): (r: Option<nat>)
    ensures r.Some? ==> r.value < |comments| && comments[r.value].id == id && id != "" && comments[r.value].author == ByUser
    ensures r.Some? ==> forall j :: 0 <= j < r.value ==> !(comments[j].id == id && comments[j].author == ByUser)
    ensures r.None? && id != "" ==> forall j :: 0 <= j < |comments| ==> !(comments[j].id == id && comments[j].author == ByUser)
  {
    if |comments| == 0 then None
    else if comments[0].id == id && id != "" && comments[0].author == ByUser then Some(0)
    else match CommentPos(comments[1..], id)
         case Some(i) => Some(i + 1)
         case None => None
  }

  function UserEditComment(b: BoardState, e: BoardEdit): Outcome<Done>
    requires e.EditComment?
  {
    if e.text == "" && |e.images| == 0 then Outcome(b, Failure(EmptyComment))
    else if |e.images| > MAX_IMAGES then Outcome(b, Failure(TooManyImages))
    else match Pos(b.cards, e.n)
         case None => Outcome(b, Failure(CardGone))
         case Some(i) =>
           var c := b.cards[i];
           match CommentPos(c.comments, e.id)
           case None => Outcome(b, Failure(CommentGone))
           case Some(k) =>
             var m := c.comments[k];
             var c1 := c.(comments := c.comments[k := m.(text := e.text, images := e.images)]);
             Finish(b.(cards := b.cards[i := c1]), b.cards, [], Dropped(m.images, e.images))
  }

  function UserDeleteComment(b: BoardState, e: BoardEdit): Outcome<Done>
    requires e.DeleteComment?
  {
    match Pos(b.cards, e.n)
    case None => Outcome(b, Failure(CardGone))
    case Some(i) =>
      var c := b.cards[i];
      match CommentPos(c.comments, e.id)
      case None => Outcome(b, Failure(CommentGone))
      case Some(k) =>
        Finish(b.(cards := b.cards[i := c.(comments := RemoveAt(c.comments, k))]), b.cards, [], c.comments[k].images)
  }

  function UserArchive(b: BoardState, e: BoardEdit, now: nat): Outcome<Done>
    requires e.Archive?
  {
    match Pos(b.cards, e.n)
    case None => Outcome(b, Failure(CardGone))
    case Some(i) =>
      var c := b.cards[i];
      if c.archived == e.archive then Finish(b, b.cards, [], [])
      else
        var c1 := c.(archived := e.archive, updated := now, unread := if e.archive then false else c.unread);
        Finish(b.(cards := b.cards[i := c1]), b.cards, Tell(c1, None, Archived(e.archive)), [])
  }

  /** Whether archiving column `col` archives `c`. */
  predicate Sweeps(c: Card, col: nat) {
    c.col == col && !c.archived
  }

  function Swept(c: Card, col: nat, now: nat): Card {
    if Sweeps(c, col) then c.(archived := true, unread := false, updated := now) else c
  }

  function SweptAll(cards: seq<Card>, col: nat, now: nat): (r: seq<Card>)
    ensures |r| == |cards|
    ensures forall i :: 0 <= i < |cards| ==> r[i] == Swept(cards[i], col, now)
  {
    seq(|cards|, i requires 0 <= i < |cards| => Swept(cards[i], col, now))
  }

  function SweepEvents(cards: seq<Card>, col: nat, now: nat): seq<Event> {
    if |cards| == 0 then []
    else (if Sweeps(cards[0], col) then Tell(Swept(cards[0], col, now), None, Archived(true)) else [])
         + SweepEvents(cards[1..], col, now)
  }

  function UserArchiveColumn(b: BoardState, e: BoardEdit, now: nat): Outcome<Done>
    requires e.ArchiveColumn?
  {
    Finish(b.(cards := SweptAll(b.cards, e.col, now)), b.cards, SweepEvents(b.cards, e.col, now), [])
  }

  function CommentImages(comments: seq<Comment>): seq<string> {
    if |comments| == 0 then [] else comments[0].images + CommentImages(comments[1..])
  }

  function UserDelete(b: BoardState, e: BoardEdit): Outcome<Done>
    requires e.Delete?
  {
    match Pos(b.cards, e.n)
    case None => Outcome(b, Failure(CardGone))
    case Some(i) =>
      var c := b.cards[i];
      Finish(b.(cards := RemoveAt(b.cards, i)), b.cards,
             if c.archived then [] else Tell(c, None, Deleted), c.images + CommentImages(c.comments))
  }

  function UserSeen(b: BoardState, e: BoardEdit): Outcome<Done>
    requires e.Seen?
  {
    match Pos(b.cards, e.n)
    case None => Outcome(b, Failure(CardGone))
    case Some(i) => Finish(b.(cards := b.cards[i := b.cards[i].(unread := false)]), b.cards, [], [])
  }

  function UserColAdd(b: BoardState, e: BoardEdit): Outcome<Done>
    requires e.ColAdd?
  {
    if e.name == "" then Outcome(b, Failure(NeedColumnName))
    else if |b.columns| >= MAX_COLUMNS then Outcome(b, Failure(TooManyColumns))
    else
      Finish(b.(nextCol := b.nextCol + 1, columns := b.columns + [Column(b.nextCol + 1, e.name, e.desc)]), b.cards, [], [])
  }

  function UserColEdit(b: BoardState, e: BoardEdit): Outcome<Done>
    requires e.ColEdit?
  {
    match ColPos(b.columns, e.col)
    case None => Outcome(b, Failure(ColumnGone))
    case Some(i) =>
      var c := b.columns[i];
      var name := if e.newName.Some? && e.newName.value != "" then e.newName.value else c.name;
      var desc := if e.newDesc.Some? then e.newDesc.value else c.desc;
      Finish(b.(columns := b.columns[i := c.(name := name, desc := desc)]), b.cards, [], [])
  }

  function UserColMove(b: BoardState, e: BoardEdit): Outcome<Done>
    requires e.ColMove?
  {
    match ColPos(b.columns, e.col)
    case None => Outcome(b, Failure(ColumnGone))
    case Some(i) =>
      var rest := RemoveAt(b.columns, i);
      var at := if e.before.Some? then ColPos(rest, e.before.value) else None;
      Finish(b.(columns := InsertAt(rest, if at.Some? then at.value else |rest|, b.columns[i])), b.cards, [], [])
  }

  function NumbersIn(cards: seq<Card>, col: nat): seq<nat> {
    if |cards| == 0 then []
    else (if cards[0].col == col then [cards[0].n] else []) + NumbersIn(cards[1..], col)
  }

  /** A card of a deleted column: moved to `dest`, and archived unless `dest` was picked. */
  function Rehomed(c: Card, dest: nat, picked: bool, now: nat): Card {
    var c1 := if c.archived then c else c.(updated := now, archived := !picked);
    c1.(col := dest)
  }

  /** What is told of it: nothing when it was archived already. */
  function RehomeEvent(c: Card, picked: bool): seq<Event> {
    if c.archived then [] else Tell(c, None, if picked then Moved else Archived(true))
  }

  /** Cards `ns`, one by one, taken out and put at the end of `dest`. */
  function Rehome(cards: seq<Card>, ns: seq<nat>, dest: nat, picked: bool, now: nat): (seq<Card>, seq<Event>)
    decreases ns
  {
    if |ns| == 0 then (cards, [])
    else match Pos(cards, ns[0])
         case None => Rehome(cards, ns[1..], dest, picked, now)
         case Some(i) =>
           var c := cards[i];
           var placed := Place(RemoveAt(cards, i), Rehomed(c, dest, picked, now), dest, None, false);
           var rest := Rehome(placed, ns[1..], dest, picked, now);
           (rest.0, RehomeEvent(c, picked) + rest.1)
  }

  function WithoutCol(columns: seq<Column>, col: nat): (r: seq<Column>) {
    if |columns| == 0 then []
    else (if columns[0].id == col then [] else [columns[0]]) + WithoutCol(columns[1..], col)
  }

  /** The first column other than `col`. */
  function FirstOther(columns: seq<Column>, col: nat): nat {
    var rest := WithoutCol(columns, col);
    if |rest| == 0 then col else rest[0].id
  }

  function UserColDelete(b: BoardState, e: BoardEdit, now: nat): Outcome<Done>
    requires e.ColDelete?
  {
    if |b.columns| <= 1 then Outcome(b, Failure(LastColumn))
    else if !HasCol(b.columns, e.col) then Outcome(b, Failure(ColumnGone))
    else if e.dest.Some? && (e.dest.value == e.col || !HasCol(b.columns, e.dest.value)) then Outcome(b, Failure(PickAnother))
    else
      var dest := if e.dest.Some? then e.dest.value else FirstOther(b.columns, e.col);
      var r := Rehome(b.cards, NumbersIn(b.cards, e.col), dest, e.dest.Some?, now);
      Finish(b.(cards := r.0, columns := WithoutCol(b.columns, e.col)), b.cards, r.1, [])
  }

  /** `uuid` names the comment this edit posts, if it posts one. */
  function ApplyUser(b: BoardState, e: BoardEdit, now: nat, uuid: string): Outcome<Done> {
    match e
    case Add(_, _, _, _, _) => UserAdd(b, e, now)
    case Edit(_, _, _, _) => UserEdit(b, e, now)
    case Move(_, _, _) => UserMove(b, e, now)
    case Assign(_, _) => UserAssign(b, e, now)
    case Choose(_, _) => UserChoose(b, e, now)
    case PostComment(_, _, _) => UserComment(b, e, now, uuid)
    case EditComment(_, _, _, _) => UserEditComment(b, e)
    case DeleteComment(_, _) => UserDeleteComment(b, e)
    case Archive(_, _) => UserArchive(b, e, now)
    case ArchiveColumn(_) => UserArchiveColumn(b, e, now)
    case Delete(_) => UserDelete(b, e)
    case Seen(_) => UserSeen(b, e)
    case ColAdd(_, _) => UserColAdd(b, e)
    case ColEdit(_, _, _) => UserColEdit(b, e)
    case ColMove(_, _) => UserColMove(b, e)
    case ColDelete(_, _) => UserColDelete(b, e, now)
    case Approve(_) => Outcome(b, Failure(UseDecide))
    case Reject(_) => Outcome(b, Failure(UseDecide))
  }

  // ---------- Column proposals ----------

  /** Columns a proposal added so far, by name. */
  type News = seq<(string, nat)>

  function NewsByName(news: News, name: string): Option<nat> {
    if |news| == 0 then None else if news[0].0 == name then Some(news[0].1) else NewsByName(news[1..], name)
  }

  function NewsById(news: News, id: nat): Option<string> {
    if |news| == 0 then None else if news[0].1 == id then Some(news[0].0) else NewsById(news[1..], id)
  }

  function Resolve(columns: seq<Column>, news: News, r: ColRef): Result<nat, Refusal> {
    match r
    case Id(i) => if HasCol(columns, i) then Success(i) else Failure(ColumnGone)
    case New(name) =>
      match NewsByName(news, name)
      case Some(i) => Success(i)
      case None => Failure(NoNewColumn)
  }

  function ResolveOpt(columns: seq<Column>, news: News, r: Option<ColRef>): Result<Option<nat>, Refusal> {
    match r
    case None => Success(None)
    case Some(x) =>
      match Resolve(columns, news, x)
      case Success(i) => Success(Some(i))
      case Failure(e) => Failure(e)
  }

  /** What one change leaves, with the columns added so far. */
  datatype Applied = Applied(board: BoardState, news: News, result: Result<seq<Event>, Refusal>)

  function ByEdit(b: BoardState, news: News, e: BoardEdit, now: nat): Applied {
    var o := ApplyUser(b, e, now, "");
    Applied(o.board, news, match o.result case Success(d) => Success(d.events) case Failure(x) => Failure(x))
  }

  /** One change of a proposal, through the user's own column edits. */
  function ApplyChange(b: BoardState, ch: ColChange, news: News, now: nat): Applied {
    match ch
    case AddCol(name, desc, before) => (
      match ResolveOpt(b.columns, news, before)
      case Failure(x) => Applied(b, news, Failure(x))
      case Success(at) =>
        var added := ByEdit(b, news, ColAdd(name, desc), now);
        if added.result.Failure? then added
        else
          var col := added.board.nextCol;
          var news1 := news + [(name, col)];
          if at.None? then added.(news := news1)
          else
            var moved := ByEdit(added.board, news1, ColMove(col, at), now);
            if moved.result.Failure? then moved
            else moved.(result := Success(added.result.value + moved.result.value)))
    case EditCol(col, name, desc) => (
      match Resolve(b.columns, news, col)
      case Failure(x) => Applied(b, news, Failure(x))
      case Success(i) => ByEdit(b, news, ColEdit(i, name, desc), now))
    case MoveCol(col, before) => (
      match Resolve(b.columns, news, col)
      case Failure(x) => Applied(b, news, Failure(x))
      case Success(i) =>
        match ResolveOpt(b.columns, news, before)
        case Failure(x) => Applied(b, news, Failure(x))
        case Success(at) => ByEdit(b, news, ColMove(i, at), now))
    case DeleteCol(col, to) => (
      match Resolve(b.columns, news, col)
      case Failure(x) => Applied(b, news, Failure(x))
      case Success(i) =>
        match ResolveOpt(b.columns, news, to)
        case Failure(x) => Applied(b, news, Failure(x))
        case Success(t) => ByEdit(b, news, ColDelete(i, t), now))
  }

  /** All of `changes`, stopping at the first that is refused. */
  function ApplyChanges(b: BoardState, changes: seq<ColChange>, news: News, now: nat): Applied
    decreases changes
  {
    if |changes| == 0 then Applied(b, news, Success([]))
    else
      var first := ApplyChange(b, changes[0], news, now);
      if first.result.Failure? then first
      else
        var rest := ApplyChanges(first.board, changes[1..], first.news, now);
        if rest.result.Failure? then rest
        else rest.(result := Success(first.result.value + rest.result.value))
  }

  function Lower(c: char): char {
    if 'A' <= c <= 'Z' then (c as int + 32) as char else c
  }

  predicate SameName(a: string, b: string) {
    |a| == |b| && forall i :: 0 <= i < |a| ==> Lower(a[i]) == Lower(b[i])
  }

  /** A column by id, or by name (case-insensitive). */
  function ColBy(columns: seq<Column>, v: ColArg): (r: Result<nat, Refusal>)
    ensures r.Success? ==> HasCol(columns, r.value)
  {
    match v
    case ByNumber(n) => if HasCol(columns, n) then Success(n) else Failure(NoSuchColumn)
    case ByName(s) => (
      match NamePos(columns, s)
      case Some(i) => assert columns[i].id == columns[i].id; Success(columns[i].id)
      case None => Failure(NoSuchColumn))
  }

  function NamePos(columns: seq<Column>, s: string): (r: Option<nat>)
    ensures r.Some? ==> r.value < |columns| && SameName(columns[r.value].name, s)
  {
    if |columns| == 0 then None
    else if SameName(columns[0].name, s) then Some(0)
    else match NamePos(columns[1..], s)
         case Some(i) => Some(i + 1)
         case None => None
  }

  /** A name on the board, as a reference that survives until approval. */
  function Refer(columns: seq<Column>, news: News, v: ColArg): Result<ColRef, Refusal> {
    match ColBy(columns, v)
    case Failure(x) => Failure(x)
    case Success(id) =>
      match NewsById(news, id)
      case Some(name) => Success(New(name))
      case None => Success(Id(id))
  }

  function ReferOpt(columns: seq<Column>, news: News, v: Option<ColArg>): Result<Option<ColRef>, Refusal> {
    match v
    case None => Success(None)
    case Some(x) =>
      match Refer(columns, news, x)
      case Success(r) => Success(Some(r))
      case Failure(e) => Failure(e)
  }

  /** A requested change with its columns resolved against `b` and `news`. */
  function Read(b: BoardState, news: News, req: ChangeRequest): Result<ColChange, Refusal> {
    match req
    case WantAdd(name, desc, before) => (
      match ReferOpt(b.columns, news, before)
      case Failure(x) => Failure(x)
      case Success(at) => Success(AddCol(name, desc, at)))
    case WantEdit(col, name, desc) => (
      var name1 := if name == Some("") then None else name;
      if name1.None? && desc.None? then Failure(NeedNameOrDesc)
      else match Refer(b.columns, news, col)
           case Failure(x) => Failure(x)
           case Success(r) => Success(EditCol(r, name1, desc)))
    case WantMove(col, before) => (
      match Refer(b.columns, news, col)
      case Failure(x) => Failure(x)
      case Success(r) =>
        match ReferOpt(b.columns, news, before)
        case Failure(x) => Failure(x)
        case Success(at) => Success(MoveCol(r, at)))
    case WantDelete(col, to) => (
      match Refer(b.columns, news, col)
      case Failure(x) => Failure(x)
      case Success(r) =>
        match ReferOpt(b.columns, news, to)
        case Failure(x) => Failure(x)
        case Success(t) => Success(DeleteCol(r, t)))
  }

  /** The changes a request reads as, and the copy they leave; each is read on the copy the earlier ones left. */
  datatype Simulated = Simulated(board: BoardState, news: News, result: Result<seq<ColChange>, Refusal>)

  function Simulate(b: BoardState, reqs: seq<ChangeRequest>, news: News, now: nat): Simulated
    decreases reqs
  {
    if |reqs| == 0 then Simulated(b, news, Success([]))
    else match Read(b, news, reqs[0])
         case Failure(x) => Simulated(b, news, Failure(x))
         case Success(ch) =>
           var one := ApplyChange(b, ch, news, now);
           if one.result.Failure? then Simulated(one.board, one.news, Failure(one.result.error))
           else
             var rest := Simulate(one.board, reqs[1..], one.news, now);
             if rest.result.Failure? then rest
             else rest.(result := Success([ch] + rest.result.value))
  }

  predicate NamesDistinct(columns: seq<Column>) {
    forall i, j :: 0 <= i < j < |columns| ==> !SameName(columns[i].name, columns[j].name)
  }

  /** Queue a claude's column changes for the user; nothing else moves. */
  function Propose(b: BoardState, from: nat, reqs: seq<ChangeRequest>, why: string, now: nat): Outcome<nat> {
    if |reqs| == 0 then Outcome(b, Failure(NeedChanges))
    else if |reqs| > MAX_PROP_CHANGES then Outcome(b, Failure(TooManyChanges))
    else if |b.proposals| >= MAX_PROPOSALS then Outcome(b, Failure(TooManyProposals))
    else
      var sim := Simulate(b, reqs, [], now);
      if sim.result.Failure? then Outcome(b, Failure(sim.result.error))
      else if !NamesDistinct(sim.board.columns) then Outcome(b, Failure(TwoOfOneName))
      else
        var p := Proposal(b.nextProp + 1, from, why, sim.result.value, now);
        Outcome(b.(nextProp := b.nextProp + 1, proposals := b.proposals + [p]), Success(b.nextProp + 1))
  }

  function PropPos(ps: seq<Proposal>, id: nat): (r: Option<nat>)
    ensures r.Some? ==> r.value < |ps| && ps[r.value].id == id
    ensures r.None? ==> forall j :: 0 <= j < |ps| ==> ps[j].id != id
  {
    if |ps| == 0 then None
    else if ps[0].id == id then Some(0)
    else match PropPos(ps[1..], id)
         case Some(i) => Some(i + 1)
         case None => None
  }

  /** Who proposed it, whether it was approved, and the cards' events. */
  datatype Decision = Decision(proposer: nat, approved: bool, events: seq<Event>)

  /** The user's Approve or Reject of proposal `id`: all its changes or none. */
  function Decide(b: BoardState, id: nat, approve: bool, now: nat): Outcome<Decision> {
    match PropPos(b.proposals, id)
    case None => Outcome(b, Failure(ProposalGone))
    case Some(i) =>
      var p := b.proposals[i];
      var without := b.(proposals := RemoveAt(b.proposals, i));
      if !approve then Outcome(without, Success(Decision(p.proposer, false, [])))
      else
        var r := ApplyChanges(without, p.changes, [], now);
        if r.result.Failure? then Outcome(b, Failure(r.result.error))
        else Outcome(r.board, Success(Decision(p.proposer, true, r.result.value)))
  }

  // ---------- The claudes' actions ----------

  /** A claude's images: at most ten, and every one imported. */
  function ImagesOf(v: seq<Option<string>>): (r: Result<seq<string>, Refusal>)
    ensures r.Success? ==> |r.value| <= MAX_IMAGES
  {
    if |v| > MAX_IMAGES then Failure(TooManyImages)
    else if exists i :: 0 <= i < |v| && v[i].None? then Failure(ImportFailed)
    else Success(seq(|v|, i requires 0 <= i < |v| => if v[i].Some? then v[i].value else ""))
  }

  /** Choices without empty ones and repeats. */
  function DistinctChoices(v: seq<string>): (r: seq<string>) {
    if |v| == 0 then []
    else
      var out := DistinctChoices(v[..|v| - 1]);
      var c := v[|v| - 1];
      if c != "" && c !in out then out + [c] else out
  }

  function CleanChoices(v: seq<string>): (r: Result<seq<string>, Refusal>)
    ensures r.Success? ==> |r.value| <= MAX_CHOICES
  {
    var out := DistinctChoices(v);
    if |out| > MAX_CHOICES then Failure(TooManyChoices) else Success(out)
  }

  /** An active card that already says this. */
  function DuplicateOf(cards: seq<Card>, title: string, assignee: Option<nat>): Option<nat> {
    if |cards| == 0 then None
    else if !cards[0].archived && cards[0].title == title && cards[0].assignee == assignee then Some(cards[0].n)
    else DuplicateOf(cards[1..], title, assignee)
  }

  /** The card an item asks for, with number 0: numbers are given when the whole batch is accepted. */
  function Draft(b: BoardState, from: nat, it: NewCard, now: nat): (r: Result<Card, Refusal>)
    ensures r.Success? ==>
              && HasCol(b.columns, r.value.col) && |r.value.images| <= MAX_IMAGES && |r.value.choices| <= MAX_CHOICES
              && r.value.chosen.None? && r.value.comments == [] && !r.value.archived
  {
    if it.title == "" then Failure(NeedTitle)
    else
      var assignee := if it.assignee.Some? then it.assignee.value else Some(from);
      var dup := DuplicateOf(b.cards, it.title, assignee);
      if dup.Some? then Failure(Duplicate(dup.value))
      else if it.col.None? && |b.columns| == 0 then Failure(NoColumns)
      else
        var col := if it.col.Some? then ColBy(b.columns, it.col.value) else Success(b.columns[0].id);
        var choices := CleanChoices(it.choices);
        var images := ImagesOf(it.images);
        if col.Failure? then Failure(col.error)
        else if choices.Failure? then Failure(choices.error)
        else if images.Failure? then Failure(images.error)
        else
          Success(Card(0, it.title, CleanDetailOpt(it.detail), images.value, col.value, assignee, it.urgent, choices.value, None, [],
                       false, ByClaude, Some(from), true, now, now))
  }

  function Drafts(b: BoardState, from: nat, items: seq<NewCard>, now: nat): (r: Result<seq<Card>, Refusal>)
    ensures r.Success? ==> |r.value| == |items|
    ensures r.Success? ==> forall i :: 0 <= i < |items| ==> Draft(b, from, items[i], now) == Success(r.value[i])
  {
    if |items| == 0 then Success([])
    else
      match Draft(b, from, items[0], now)
      case Failure(x) => Failure(x)
      case Success(c) =>
        match Drafts(b, from, items[1..], now)
        case Failure(x) => Failure(x)
        case Success(rest) => Success([c] + rest)
  }

  /** The drafts, numbered after `next` and each put on top of its column. */
  function AddDrafts(cards: seq<Card>, next: nat, drafts: seq<Card>, actor: Option<nat>): (seq<Card>, nat, seq<Event>)
    decreases drafts
  {
    if |drafts| == 0 then (cards, next, [])
    else
      var card := drafts[0].(n := next + 1);
      var rest := AddDrafts(Place(cards, card, card.col, None, true), next + 1, drafts[1..], actor);
      (rest.0, rest.1, Tell(card, actor, Added) + rest.2)
  }

  /** What a claude's action reports. */
  function FinishClaude(b: BoardState, prior: seq<Card>, ev: seq<Event>): Outcome<seq<Event>> {
    Outcome(b.(cards := Normalize(b.cards)), Success(Stamp(ev, prior)))
  }

  function ClaudeAdd(b: BoardState, from: nat, items: seq<NewCard>, now: nat): Outcome<seq<Event>> {
    if |items| == 0 then Outcome(b, Failure(NeedItems))
    else match Drafts(b, from, items, now)
         case Failure(x) => Outcome(b, Failure(x))
         case Success(drafts) =>
           if ActiveCount(b.cards) + |drafts| > MAX_ACTIVE then Outcome(b, Failure(BoardFull))
           else
             var r := AddDrafts(b.cards, b.next, drafts, Some(from));
             FinishClaude(b.(cards := r.0, next := r.1), b.cards, r.2)
  }

  /** Card `c` with a claude's update; a pick that is no longer a choice is cleared. */
  function Updated(c: Card, a: ClaudeAction, picks: seq<string>, images: seq<string>, now: nat): Card
    requires a.UpdateCard?
  {
    var unpick := a.choices.Some? && c.chosen.Some? && c.chosen.value !in picks;
    c.(title := if a.title.Some? && a.title.value != "" then a.title.value else c.title,
    detail := if a.detail.Some? then CleanDetailOpt(a.detail.value) else c.detail,
    choices := picks, chosen := if unpick then None else c.chosen,
    urgent := if a.urgent.Some? then a.urgent.value else c.urgent,
    images := c.images + images, updated := now, unread := true,
    assignee := if a.assignee.Some? then a.assignee.value else c.assignee)
  }

  /** The new holder and the old one when the assignee changed, the one holder otherwise; never who did it. */
  function UpdateEvents(c: Card, c1: Card, from: nat): seq<Event> {
    if c1.assignee == c.assignee then Tell(c1, Some(from), Edited)
    else
      Tell(c1, Some(from), AssignedToYou)
      + (if c.assignee.Some? && c.assignee != Some(from)
         then [Event(c.assignee.value, c.n, Some(from), Unassigned(c1.assignee), c1.title, None)] else [])
  }

  function ClaudeUpdate(b: BoardState, from: nat, a: ClaudeAction, now: nat): Outcome<seq<Event>>
    requires a.UpdateCard?
  {
    var title := if a.title == Some("") then None else a.title;
    var choices := if a.choices.Some? then CleanChoices(a.choices.value) else Success([]);
    var images := ImagesOf(a.images);
    if choices.Failure? then Outcome(b, Failure(choices.error))
    else if images.Failure? then Outcome(b, Failure(images.error))
    else if title.None? && a.detail.None? && a.choices.None? && a.urgent.None? && a.assignee.None? && images.value == [] then
      Outcome(b, Failure(NothingToUpdate))
    else match Pos(b.cards, a.n)
         case None => Outcome(b, Failure(CardGone))
         case Some(i) =>
           var c := b.cards[i];
           if |c.images| + |images.value| > MAX_IMAGES then Outcome(b, Failure(TooManyImages))
           else
             var picks := if a.choices.Some? then choices.value else c.choices;
             var c1 := Updated(c, a, picks, images.value, now);
             FinishClaude(b.(cards := b.cards[i := c1]), b.cards, UpdateEvents(c, c1, from))
  }

  /** Cards `ids`, one by one, onto the top of `col` and out of the archive. */
  function MoveToTop(cards: seq<Card>, ids: seq<nat>, col: nat, actor: Option<nat>, now: nat): (seq<Card>, seq<Event>)
    decreases ids
  {
    if |ids| == 0 then (cards, [])
    else match Pos(cards, ids[0])
         case None => MoveToTop(cards, ids[1..], col, actor, now)
         case Some(i) =>
           var c := cards[i];
           var c1 := c.(archived := false, updated := now, unread := true);
           var ev := if c.col != col || c.archived then Tell(c1, actor, Moved) else [];
           var rest := MoveToTop(Place(RemoveAt(cards, i), c1, col, None, true), ids[1..], col, actor, now);
           (rest.0, ev + rest.1)
  }

  predicate AllThere(cards: seq<Card>, ids: seq<nat>) {
    forall i :: 0 <= i < |ids| ==> Pos(cards, ids[i]).Some?
  }

  function ClaudeMove(b: BoardState, from: nat, ids: seq<nat>, dest: ColArg, now: nat): Outcome<seq<Event>> {
    if |ids| == 0 then Outcome(b, Failure(MissingId))
    else match ColBy(b.columns, dest)
         case Failure(x) => Outcome(b, Failure(x))
         case Success(col) =>
           if !AllThere(b.cards, ids) then Outcome(b, Failure(CardGone))
           else
             var r := MoveToTop(b.cards, ids, col, Some(from), now);
             FinishClaude(b.(cards := r.0), b.cards, r.1)
  }

  function ClaudeComment(b: BoardState, from: nat, a: ClaudeAction, now: nat, uuid: string): Outcome<seq<Event>>
    requires a.CommentOn?
  {
    match ImagesOf(a.images)
    case Failure(x) => Outcome(b, Failure(x))
    case Success(images) =>
      if a.text == "" && images == [] then Outcome(b, Failure(EmptyComment))
      else match Pos(b.cards, a.n)
           case None => Outcome(b, Failure(CardGone))
           case Some(i) =>
             var c := b.cards[i];
             if |c.comments| >= MAX_COMMENTS then Outcome(b, Failure(TooManyComments))
             else
               var c1 := c.(comments := c.comments + [Comment(uuid, ByClaude, Some(from), a.text, images, now)],
                            updated := now, unread := true);
               FinishClaude(b.(cards := b.cards[i := c1]), b.cards, Tell(c1, Some(from), Commented(uuid, a.text, images)))
  }

  function ArchiveEach(cards: seq<Card>, ids: seq<nat>, actor: Option<nat>, now: nat): (seq<Card>, seq<Event>)
    decreases ids
  {
    if |ids| == 0 then (cards, [])
    else match Pos(cards, ids[0])
         case None => ArchiveEach(cards, ids[1..], actor, now)
         case Some(i) =>
           var c := cards[i];
           if c.archived then ArchiveEach(cards, ids[1..], actor, now)
           else
             var c1 := c.(archived := true, updated := now);
             var rest := ArchiveEach(cards[i := c1], ids[1..], actor, now);
             (rest.0, Tell(c1, actor, Archived(true)) + rest.1)
  }

  function ClaudeArchive(b: BoardState, from: nat, ids: seq<nat>, now: nat): Outcome<seq<Event>> {
    if |ids| == 0 then Outcome(b, Failure(MissingId))
    else if !AllThere(b.cards, ids) then Outcome(b, Failure(CardGone))
    else
      var r := ArchiveEach(b.cards, ids, Some(from), now);
      FinishClaude(b.(cards := r.0), b.cards, r.1)
  }

  function ClaudePropose(b: BoardState, from: nat, reqs: seq<ChangeRequest>, why: string, now: nat): Outcome<seq<Event>> {
    var o := Propose(b, from, reqs, why, now);
    match o.result
    case Failure(x) => Outcome(b, Failure(x))
    case Success(_) => FinishClaude(o.board, b.cards, [])
  }

  function ApplyClaude(b: BoardState, from: nat, a: ClaudeAction, now: nat, uuid: string): Outcome<seq<Event>> {
    match a
    case AddCards(items) => ClaudeAdd(b, from, items, now)
    case UpdateCard(_, _, _, _, _, _, _) => ClaudeUpdate(b, from, a, now)
    case MoveCards(ids, dest) => ClaudeMove(b, from, ids, dest, now)
    case CommentOn(_, _, _) => ClaudeComment(b, from, a, now, uuid)
    case ArchiveCards(ids) => ClaudeArchive(b, from, ids, now)
    case ProposeColumns(reqs, why) => ClaudePropose(b, from, reqs, why, now)
  }
}
