/** Exactly which calls the board accepts. A refused one commits nothing. */
module BoardRefusals {
  import opened Wrappers
  import opened BoardState
  import opened BoardCards
  import opened BoardTelling
  import opened BoardInvariant
  import opened ColumnEffects
  import opened ProposalReading
  import opened ClaudeEffects

  // ---------- Counting ----------

  /** Where the active cards are. */
  ghost function ActiveAt(cards: seq<Card>): set<nat> {
    set i: nat | i < |cards| && !cards[i].archived
  }

  lemma {:induction false} CountActive(cards: seq<Card>)
    ensures ActiveCount(cards) == |ActiveAt(cards)|
  {
    if |cards| > 0 {
      var rest := cards[1..];
      CountActive(rest);
      var up := set i: nat | i in ActiveAt(rest) :: i + 1;
      ShiftedCount(ActiveAt(rest), up);
      forall i: nat ensures i in ActiveAt(cards) <==> i in up || (i == 0 && !cards[0].archived) {
        if i > 0 && i < |cards| {
          assert cards[i] == rest[i - 1];
          assert i - 1 in ActiveAt(rest) <==> i in ActiveAt(cards);
        }
      }
      assert ActiveAt(cards) == up + if cards[0].archived then {} else {0};
    } else {
      assert ActiveAt(cards) == {};
    }
  }

  lemma {:induction false} ShiftedCount(s: set<nat>, up: set<nat>)
    requires up == set i: nat | i in s :: i + 1
    ensures |up| == |s|
    decreases |s|
  {
    if s != {} {
      var x :| x in s;
      var s1 := s - {x};
      var up1 := set i: nat | i in s1 :: i + 1;
      ShiftedCount(s1, up1);
      forall i: nat ensures i in up <==> i in up1 || i == x + 1 {
        if i > 0 {
          assert i in up <==> i - 1 in s;
          assert i in up1 <==> i - 1 in s1;
        }
      }
      assert up == up1 + {x + 1};
    } else {
      assert up == {};
    }
  }

  // ---------- The user ----------

  /** The comment is the user's own, and has an id. */
  ghost predicate OwnComment(c: Card, id: string) {
    id != "" && exists j :: 0 <= j < |c.comments| && c.comments[j].id == id && c.comments[j].author == ByUser
  }

  /** What a user's edit needs. */
  ghost predicate UserMay(b: BoardState, e: BoardEdit) {
    match e
    case Add(title, _, col, _, images) => title != "" && IsThere(b.columns, col) && |images| <= 10 && |ActiveAt(b.cards)| < 300
    case Edit(n, _, _, newImages) => Find(b.cards, n).Some? && (newImages.Some? ==> |newImages.value| <= 10)
    case Move(n, col, _) => IsThere(b.columns, col) && Find(b.cards, n).Some?
    case Choose(n, choice) => Find(b.cards, n).Some? && (choice.Some? ==> choice.value in Find(b.cards, n).value.choices)
    case PostComment(n, text, images) =>
      (text != "" || |images| > 0) && |images| <= 10 && Find(b.cards, n).Some? && |Find(b.cards, n).value.comments| < 200
    case EditComment(n, id, text, images) =>
      (text != "" || |images| > 0) && |images| <= 10 && Find(b.cards, n).Some? && OwnComment(Find(b.cards, n).value, id)
    case DeleteComment(n, id) => Find(b.cards, n).Some? && OwnComment(Find(b.cards, n).value, id)
    case Assign(n, _) => Find(b.cards, n).Some?
    case Archive(n, _) => Find(b.cards, n).Some?
    case Delete(n) => Find(b.cards, n).Some?
    case Seen(n) => Find(b.cards, n).Some?
    case ArchiveColumn(_) => true
    case ColAdd(name, _) => name != "" && |b.columns| < 12
    case ColEdit(col, _, _) => IsThere(b.columns, col)
    case ColMove(col, _) => IsThere(b.columns, col)
    case ColDelete(col, dest) =>
      |b.columns| > 1 && IsThere(b.columns, col) && (dest.Some? ==> dest.value != col && IsThere(b.columns, dest.value))
    case Approve(_) => false
    case Reject(_) => false
  }

  lemma ThereIsHas(columns: seq<Column>, id: nat)
    ensures IsThere(columns, id) <==> HasCol(columns, id)
  {
  }

  lemma OwnIsFound(c: Card, id: string)
    ensures CommentPos(c.comments, id).Some? <==> OwnComment(c, id)
  {
    if CommentPos(c.comments, id).Some? {
      assert c.comments[CommentPos(c.comments, id).value].id == id;
    }
    if OwnComment(c, id) {
      var j :| 0 <= j < |c.comments| && c.comments[j].id == id && c.comments[j].author == ByUser;
    }
  }

  lemma UserMayExactly(b: BoardState, e: BoardEdit, now: nat, uuid: string)
    ensures ApplyUser(b, e, now, uuid).result.Success? <==> UserMay(b, e)
  {
    hide Normalize, Stamp, Place, Rehome, SweptAll, SweepEvents, ActiveAt, OwnComment, IsThere, ColPos, CommentPos, ActiveCount, Pos;
    match e {
      case Add(_, _, col, _, _) =>
        CountActive(b.cards);
        ThereIsHas(b.columns, col);
      case Move(_, col, _) => ThereIsHas(b.columns, col);
      case ColEdit(col, _, _) => ThereIsHas(b.columns, col);
      case ColMove(col, _) => ThereIsHas(b.columns, col);
      case ColDelete(col, dest) =>
        ThereIsHas(b.columns, col);
        if dest.Some? {
          ThereIsHas(b.columns, dest.value);
        }
      case EditComment(n, id, _, _) =>
        if Find(b.cards, n).Some? {
          OwnIsFound(Find(b.cards, n).value, id);
        }
      case DeleteComment(n, id) =>
        if Find(b.cards, n).Some? {
          OwnIsFound(Find(b.cards, n).value, id);
        }
      case _ =>
    }
  }

  // ---------- A claude ----------

  ghost predicate AllImported(asked: seq<Option<string>>) {
    |asked| <= 10 && forall i :: 0 <= i < |asked| ==> asked[i].Some?
  }

  /** At most eight different choices. */
  ghost predicate FewChoices(asked: seq<string>) {
    |set s | s in asked && s != ""| <= 8
  }

  /** The column is there, or the board has a first one to take. */
  ghost predicate ColumnFor(columns: seq<Column>, v: Option<ColArg>) {
    if v.Some? then exists id: nat :: IsNamed(columns, v.value, id) else |columns| > 0
  }

  /** An active card of the same title and assignee. */
  ghost predicate SaidAlready(cards: seq<Card>, title: string, assignee: Option<nat>) {
    exists i :: 0 <= i < |cards| && !cards[i].archived && cards[i].title == title && cards[i].assignee == assignee
  }

  ghost predicate MayAdd(b: BoardState, from: nat, it: NewCard) {
    && it.title != "" && !SaidAlready(b.cards, it.title, if it.assignee.Some? then it.assignee.value else Some(from))
    && ColumnFor(b.columns, it.col) && FewChoices(it.choices) && AllImported(it.images)
  }

  /** What a claude's action needs. */
  ghost predicate ClaudeMay(b: BoardState, from: nat, a: ClaudeAction, now: nat) {
    match a
    case AddCards(items) =>
      && |items| > 0 && (forall i :: 0 <= i < |items| ==> MayAdd(b, from, items[i]))
      && |ActiveAt(b.cards)| + |items| <= 300
    case UpdateCard(n, title, detail, choices, urgent, assignee, images) =>
      && Find(b.cards, n).Some? && AllImported(images) && |Find(b.cards, n).value.images| + |images| <= 10
      && (choices.Some? ==> FewChoices(choices.value))
      && ((title.Some? && title.value != "") || detail.Some? || choices.Some? || urgent.Some? || assignee.Some? || |images| > 0)
    case MoveCards(ids, dest) =>
      |ids| > 0 && (exists id: nat :: IsNamed(b.columns, dest, id)) && forall i :: 0 <= i < |ids| ==> Find(b.cards, ids[i]).Some?
    case CommentOn(n, text, images) =>
      && AllImported(images) && (text != "" || |images| > 0)
      && Find(b.cards, n).Some? && |Find(b.cards, n).value.comments| < 200
    case ArchiveCards(ids) => |ids| > 0 && forall i :: 0 <= i < |ids| ==> Find(b.cards, ids[i]).Some?
    case ProposeColumns(reqs, _) =>
      && 0 < |reqs| <= 20 && |b.proposals| < 20 && Simulate(b, reqs, [], now).result.Success?
      && forall i, j :: 0 <= i < j < |Simulate(b, reqs, [], now).board.columns| ==>
           !SameName(Simulate(b, reqs, [], now).board.columns[i].name, Simulate(b, reqs, [], now).board.columns[j].name)
  }

  lemma {:induction false} DuplicateIsSaid(cards: seq<Card>, title: string, assignee: Option<nat>)
    ensures DuplicateOf(cards, title, assignee).Some? <==> SaidAlready(cards, title, assignee)
  {
    if |cards| > 0 {
      var c := cards[0];
      DuplicateIsSaid(cards[1..], title, assignee);
      if !c.archived && c.title == title && c.assignee == assignee {
        assert SaidAlready(cards, title, assignee);
      } else {
        if SaidAlready(cards, title, assignee) {
          var i :| 0 <= i < |cards| && !cards[i].archived && cards[i].title == title && cards[i].assignee == assignee;
          assert cards[1..][i - 1] == cards[i];
        }
        if SaidAlready(cards[1..], title, assignee) {
          var i :| 0 <= i < |cards[1..]| && !cards[1..][i].archived && cards[1..][i].title == title && cards[1..][i].assignee == assignee;
          assert cards[i + 1] == cards[1..][i];
        }
      }
    }
  }

  lemma ImagesMay(asked: seq<Option<string>>)
    ensures ImagesOf(asked).Success? <==> AllImported(asked)
    ensures ImagesOf(asked).Success? ==> |ImagesOf(asked).value| == |asked|
  {
    ImagesAre(asked);
  }

  lemma ChoicesMay(asked: seq<string>)
    ensures CleanChoices(asked).Success? <==> FewChoices(asked)
  {
    CountPicks(asked);
  }

  lemma NamedMay(columns: seq<Column>, v: ColArg)
    ensures ColBy(columns, v).Success? <==> exists id: nat :: IsNamed(columns, v, id)
  {
    hide IsNamed;
    ColByMeans(columns, v);
  }

  lemma MayAddExactly(b: BoardState, from: nat, it: NewCard, now: nat)
    ensures Draft(b, from, it, now).Success? <==> MayAdd(b, from, it)
  {
    hide IsNamed, ColBy, DuplicateOf, SaidAlready, ImagesOf, AllImported, CleanChoices, FewChoices;
    DuplicateIsSaid(b.cards, it.title, if it.assignee.Some? then it.assignee.value else Some(from));
    ImagesMay(it.images);
    ChoicesMay(it.choices);
    if it.col.Some? {
      NamedMay(b.columns, it.col.value);
    }
  }

  lemma {:induction false} AllMayAdd(b: BoardState, from: nat, items: seq<NewCard>, now: nat)
    ensures Drafts(b, from, items, now).Success? <==> forall i :: 0 <= i < |items| ==> MayAdd(b, from, items[i])
  {
    hide Draft, MayAdd;
    if |items| > 0 {
      MayAddExactly(b, from, items[0], now);
      AllMayAdd(b, from, items[1..], now);
      assert items == [items[0]] + items[1..];
    }
  }

  lemma ClaudeMayExactly(b: BoardState, from: nat, a: ClaudeAction, now: nat, uuid: string)
    ensures ApplyClaude(b, from, a, now, uuid).result.Success? <==> ClaudeMay(b, from, a, now)
  {
    hide Normalize, Stamp, AddDrafts, MoveToTop, ArchiveEach, Simulate, SameName, ActiveAt, ActiveCount, Pos, IsNamed, ColBy, Updated, UpdateEvents;
    hide MayAdd, Draft, ImagesOf, AllImported, CleanChoices, FewChoices, Tell;
    match a {
      case AddCards(items) =>
        CountActive(b.cards);
        AllMayAdd(b, from, items, now);
      case UpdateCard(_, _, _, choices, _, _, images) =>
        ImagesMay(images);
        if choices.Some? {
          ChoicesMay(choices.value);
        }
      case MoveCards(_, dest) => NamedMay(b.columns, dest);
      case CommentOn(_, _, images) => ImagesMay(images);
      case ArchiveCards(_) =>
      case ProposeColumns(_, _) =>
    }
  }

  // ---------- Deciding ----------

  /** A decision needs a waiting proposal, and an approval one whose changes all still fit. */
  lemma DecideMayExactly(b: BoardState, id: nat, approve: bool, now: nat)
    ensures Decide(b, id, approve, now).result.Success? <==>
            exists i :: 0 <= i < |b.proposals| && b.proposals[i].id == id && (forall j :: 0 <= j < i ==> b.proposals[j].id != id)
                        && (approve ==> ApplyChanges(b.(proposals := b.proposals[..i] + b.proposals[i + 1..]), b.proposals[i].changes, [], now).result.Success?)
  {
    hide ApplyChanges;
    PropPosFirst(b.proposals, id);
    if PropPos(b.proposals, id).Some? {
      var i := PropPos(b.proposals, id).value;
      assert RemoveAt(b.proposals, i) == b.proposals[..i] + b.proposals[i + 1..];
    }
  }

  lemma {:induction false} PropPosFirst(ps: seq<Proposal>, id: nat)
    ensures PropPos(ps, id).Some? ==> forall j :: 0 <= j < PropPos(ps, id).value ==> ps[j].id != id
  {
    if |ps| > 0 && ps[0].id != id {
      PropPosFirst(ps[1..], id);
      assert forall j :: 0 < j < |ps| ==> ps[j] == ps[1..][j - 1];
    }
  }

  /** A refused call leaves the board as it was. */
  lemma RefusedChangesNothing(b: BoardState, call: Call)
    ensures match call
            case UserCall(e, now, uuid) =>
              !e.Approve? && !e.Reject? && !UserMay(b, e) ==> Commit(b, call) == b
            case ClaudeCall(from, a, now, uuid) => !ClaudeMay(b, from, a, now) ==> Commit(b, call) == b
  {
    hide ApplyUser, ApplyClaude, UserMay, ClaudeMay;
    match call {
      case UserCall(e, now, uuid) => UserMayExactly(b, e, now, uuid);
      case ClaudeCall(from, a, now, uuid) => ClaudeMayExactly(b, from, a, now, uuid);
    }
  }
}
