/** Whom each accepted action of a claude tells, of what, and how often. */
module ClaudeTelling {
  import opened Wrappers
  import opened BoardState
  import opened BoardCards
  import opened BoardTelling
  import opened BoardInvariant
  import opened ColumnEffects
  import opened ProposalReading
  import opened ClaudeEffects

  /** Claude `id`, not the one that acts, is told of card `n`: it holds it before or after, and the action touches it. */
  ghost predicate OwedBy(b: BoardState, from: nat, a: ClaudeAction, cards1: seq<Card>, id: nat, n: nat) {
    && id != from && (HeldBy(b.cards, n, id) || HeldBy(cards1, n, id))
    && var c, c1 := Find(b.cards, n), Find(cards1, n);
       match a
       case AddCards(items) => c.None?
       case UpdateCard(m, _, _, _, _, _, _) => n == m
       case MoveCards(ids, _) => n in ids && c.Some? && c1.Some? && (c.value.archived || c.value.col != c1.value.col)
       case CommentOn(m, _, _) => n == m
       case ArchiveCards(ids) => n in ids && c.Some? && !c.value.archived
       case ProposeColumns(_, _) => false
  }

  /** What the event says happened. */
  ghost predicate SaysWhat(a: ClaudeAction, uuid: string, c: Option<Card>, c1: Card, e: Event) {
    match a
    case AddCards(_) => e.change == Added
    case UpdateCard(_, _, _, _, _, _, _) =>
      c.Some? && e.change == (if c.value.assignee == c1.assignee then Edited
                              else if c1.assignee == Some(e.to) then AssignedToYou
                              else Unassigned(c1.assignee))
    case MoveCards(_, _) => e.change == Moved
    case CommentOn(_, text, _) => |c1.comments| > 0 && e.change == Commented(uuid, text, c1.comments[|c1.comments| - 1].images)
    case ArchiveCards(_) => e.change == Archived(true)
    case ProposeColumns(_, _) => false
  }

  ghost predicate RightEvent(b: BoardState, from: nat, a: ClaudeAction, uuid: string, cards1: seq<Card>, e: Event) {
    && e.actor == Some(from) && e.before == SnapAt(b.cards, e.n)
    && Find(cards1, e.n).Some? && e.title == Find(cards1, e.n).value.title
    && SaysWhat(a, uuid, Find(b.cards, e.n), Find(cards1, e.n).value, e)
  }

  /** Each one owed is told exactly once, nobody else is told anything, and every event says what happened. */
  ghost predicate TellsOwed(b: BoardState, from: nat, a: ClaudeAction, uuid: string, cards1: seq<Card>, ev: seq<Event>) {
    && (forall id: nat, n: nat :: Count(ev, id, n) == if OwedBy(b, from, a, cards1, id, n) then 1 else 0)
    && (forall k :: 0 <= k < |ev| ==> RightEvent(b, from, a, uuid, cards1, ev[k]))
  }

  lemma CountTell(card: Card, actor: Option<nat>, change: Change, id: nat, n: nat)
    ensures Count(Tell(card, actor, change), id, n) == if card.assignee == Some(id) && actor != Some(id) && card.n == n then 1 else 0
  {
    CountShort(Tell(card, actor, change), id, n);
  }

  lemma CountNone(id: nat, n: nat)
    ensures Count([], id, n) == 0
  {
  }

  // ---------- Adding ----------

  ghost predicate DraftEvent(next: nat, drafts: seq<Card>, actor: Option<nat>, e: Event) {
    && next < e.n <= next + |drafts| && e.actor == actor && e.change == Added
    && e.title == drafts[e.n - next - 1].title
  }

  lemma {:induction false} DraftEvents(cards: seq<Card>, next: nat, drafts: seq<Card>, actor: Option<nat>, id: nat, n: nat)
    ensures var ev := AddDrafts(cards, next, drafts, actor).2;
            && Count(ev, id, n) == (if next < n <= next + |drafts| && drafts[n - next - 1].assignee == Some(id) && actor != Some(id)
                                    then 1 else 0)
            && forall k :: 0 <= k < |ev| ==> DraftEvent(next, drafts, actor, ev[k])
    decreases |drafts|
  {
    hide Place, Count;
    CountNone(id, n);
    if |drafts| > 0 {
      var card := drafts[0].(n := next + 1);
      var rest := AddDrafts(Place(cards, card, card.col, None, true), next + 1, drafts[1..], actor).2;
      DraftEvents(Place(cards, card, card.col, None, true), next + 1, drafts[1..], actor, id, n);
      CountTell(card, actor, Added, id, n);
      CountConcat(Tell(card, actor, Added), rest, id, n);
      forall k | 0 <= k < |rest| ensures DraftEvent(next, drafts, actor, rest[k]) {
        assert DraftEvent(next + 1, drafts[1..], actor, rest[k]);
      }
    }
  }

  lemma AddTells(b: BoardState, from: nat, a: ClaudeAction, now: nat, uuid: string)
    requires Numbered(b) && a.AddCards? && ClaudeAdd(b, from, a.items, now).result.Success?
    ensures var o := ClaudeAdd(b, from, a.items, now); TellsOwed(b, from, a, uuid, o.board.cards, o.result.value)
  {
    hide Place, Normalize, AddDrafts, Draft, Count, Find;
    var drafts := Drafts(b, from, a.items, now).value;
    var o := ClaudeAdd(b, from, a.items, now);
    var ev := AddDrafts(b.cards, b.next, drafts, Some(from)).2;
    FindAfterDrafts(b.cards, b.next, drafts, Some(from));
    FindAfterNormalize(AddDrafts(b.cards, b.next, drafts, Some(from)).0);
    forall id: nat, n: nat
      ensures Count(o.result.value, id, n) == if OwedBy(b, from, a, o.board.cards, id, n) then 1 else 0
    {
      DraftEvents(b.cards, b.next, drafts, Some(from), id, n);
      CountStamp(ev, b.cards, id, n);
      FoundMember(b.cards, n);
    }
    DraftEvents(b.cards, b.next, drafts, Some(from), 0, 0);
    forall k | 0 <= k < |ev| ensures RightEvent(b, from, a, uuid, o.board.cards, o.result.value[k]) {
      assert DraftEvent(b.next, drafts, Some(from), ev[k]);
    }
  }

  // ---------- Moving ----------

  /** What moving `ids` to `col` tells of: a card moved there or taken out of the archive. */
  ghost predicate Shifts(cards: seq<Card>, ids: seq<nat>, col: nat, n: nat) {
    n in ids && Find(cards, n).Some? && (Find(cards, n).value.col != col || Find(cards, n).value.archived)
  }

  ghost predicate MoveEvent(cards: seq<Card>, actor: Option<nat>, e: Event) {
    Find(cards, e.n).Some? && e.actor == actor && e.change == Moved && e.title == Find(cards, e.n).value.title
  }

  lemma {:induction false} MoveEvents(cards: seq<Card>, ids: seq<nat>, col: nat, actor: Option<nat>, now: nat, id: nat, n: nat)
    requires Distinct(cards)
    ensures var ev := MoveToTop(cards, ids, col, actor, now).1;
            && Count(ev, id, n) == (if Shifts(cards, ids, col, n) && HeldBy(cards, n, id) && actor != Some(id) then 1 else 0)
            && forall k :: 0 <= k < |ev| ==> MoveEvent(cards, actor, ev[k])
    decreases |ids|
  {
    hide Place, Count;
    CountNone(id, n);
    if |ids| > 0 {
      assert n in ids <==> n == ids[0] || n in ids[1..];
      var p := Pos(cards, ids[0]);
      if p.None? {
        MoveEvents(cards, ids[1..], col, actor, now, id, n);
      } else {
        var c := cards[p.value];
        var c1 := c.(archived := false, updated := now, unread := true);
        var placed := Place(RemoveAt(cards, p.value), c1, col, None, true);
        var ev := if c.col != col || c.archived then Tell(c1, actor, Moved) else [];
        var rest := MoveToTop(placed, ids[1..], col, actor, now).1;
        FindAfterReplace(cards, p.value, c1, col, None, true);
        MoveEvents(placed, ids[1..], col, actor, now, id, n);
        CountTell(c1, actor, Moved, id, n);
        CountConcat(ev, rest, id, n);
        forall k | 0 <= k < |rest| ensures MoveEvent(cards, actor, rest[k]) {
          assert MoveEvent(placed, actor, rest[k]);
        }
      }
    }
  }

  lemma MoveTells(b: BoardState, from: nat, a: ClaudeAction, now: nat, uuid: string)
    requires Numbered(b) && a.MoveCards? && ClaudeMove(b, from, a.ids, a.dest, now).result.Success?
    ensures var o := ClaudeMove(b, from, a.ids, a.dest, now); TellsOwed(b, from, a, uuid, o.board.cards, o.result.value)
  {
    hide Normalize, MoveToTop, ColBy, Count, Find, Place;
    var col := ColBy(b.columns, a.dest).value;
    var o := ClaudeMove(b, from, a.ids, a.dest, now);
    var ev := MoveToTop(b.cards, a.ids, col, Some(from), now).1;
    AllFound(b.cards, a.ids);
    FindAfterMoveToTop(b.cards, a.ids, col, Some(from), now);
    FindAfterNormalize(MoveToTop(b.cards, a.ids, col, Some(from), now).0);
    forall id: nat, n: nat
      ensures Count(o.result.value, id, n) == if OwedBy(b, from, a, o.board.cards, id, n) then 1 else 0
    {
      MoveEvents(b.cards, a.ids, col, Some(from), now, id, n);
      CountStamp(ev, b.cards, id, n);
    }
    MoveEvents(b.cards, a.ids, col, Some(from), now, 0, 0);
    forall k | 0 <= k < |ev| ensures RightEvent(b, from, a, uuid, o.board.cards, o.result.value[k]) {
      assert MoveEvent(b.cards, Some(from), ev[k]);
    }
  }

  // ---------- Archiving ----------

  ghost predicate ArchiveEvent(cards: seq<Card>, actor: Option<nat>, e: Event) {
    Find(cards, e.n).Some? && e.actor == actor && e.change == Archived(true) && e.title == Find(cards, e.n).value.title
  }

  lemma {:induction false} ArchiveEvents(cards: seq<Card>, ids: seq<nat>, actor: Option<nat>, now: nat, id: nat, n: nat)
    requires Distinct(cards)
    ensures var ev := ArchiveEach(cards, ids, actor, now).1;
            && Count(ev, id, n) == (if n in ids && HeldBy(cards, n, id) && !Find(cards, n).value.archived && actor != Some(id) then 1 else 0)
            && forall k :: 0 <= k < |ev| ==> ArchiveEvent(cards, actor, ev[k])
    decreases |ids|
  {
    hide Count;
    CountNone(id, n);
    if |ids| > 0 {
      assert n in ids <==> n == ids[0] || n in ids[1..];
      var p := Pos(cards, ids[0]);
      if p.None? || cards[p.value].archived {
        ArchiveEvents(cards, ids[1..], actor, now, id, n);
      } else {
        var c1 := cards[p.value].(archived := true, updated := now);
        var cards1 := cards[p.value := c1];
        var rest := ArchiveEach(cards1, ids[1..], actor, now).1;
        FindAfterUpdate(cards, p.value, c1);
        ArchiveEvents(cards1, ids[1..], actor, now, id, n);
        CountTell(c1, actor, Archived(true), id, n);
        CountConcat(Tell(c1, actor, Archived(true)), rest, id, n);
        forall k | 0 <= k < |rest| ensures ArchiveEvent(cards, actor, rest[k]) {
          assert ArchiveEvent(cards1, actor, rest[k]);
        }
      }
    }
  }

  lemma ArchiveTells(b: BoardState, from: nat, a: ClaudeAction, now: nat, uuid: string)
    requires Numbered(b) && a.ArchiveCards? && ClaudeArchive(b, from, a.ids, now).result.Success?
    ensures var o := ClaudeArchive(b, from, a.ids, now); TellsOwed(b, from, a, uuid, o.board.cards, o.result.value)
  {
    hide Normalize, ArchiveEach, Count, Find;
    var o := ClaudeArchive(b, from, a.ids, now);
    var ev := ArchiveEach(b.cards, a.ids, Some(from), now).1;
    FindAfterArchiveEach(b.cards, a.ids, Some(from), now);
    FindAfterNormalize(ArchiveEach(b.cards, a.ids, Some(from), now).0);
    forall id: nat, n: nat
      ensures Count(o.result.value, id, n) == if OwedBy(b, from, a, o.board.cards, id, n) then 1 else 0
    {
      ArchiveEvents(b.cards, a.ids, Some(from), now, id, n);
      CountStamp(ev, b.cards, id, n);
    }
    ArchiveEvents(b.cards, a.ids, Some(from), now, 0, 0);
    forall k | 0 <= k < |ev| ensures RightEvent(b, from, a, uuid, o.board.cards, o.result.value[k]) {
      assert ArchiveEvent(b.cards, Some(from), ev[k]);
    }
  }

  // ---------- One card ----------

  /** Events about one card, each to someone owed and to nobody twice. */
  lemma OneCardTold(b: BoardState, from: nat, a: ClaudeAction, uuid: string, cards1: seq<Card>, ev: seq<Event>, n: nat)
    requires |ev| <= 2 && (|ev| == 2 ==> ev[0].to != ev[1].to)
    requires forall k :: 0 <= k < |ev| ==> ev[k].n == n && RightEvent(b, from, a, uuid, cards1, ev[k])
    requires forall id: nat, m: nat :: OwedBy(b, from, a, cards1, id, m) <==>
                                       m == n && ((|ev| > 0 && ev[0].to == id) || (|ev| > 1 && ev[1].to == id))
    ensures TellsOwed(b, from, a, uuid, cards1, ev)
  {
    hide OwedBy, RightEvent, Count;
    forall id: nat, m: nat ensures Count(ev, id, m) == if OwedBy(b, from, a, cards1, id, m) then 1 else 0 {
      CountShort(ev, id, m);
    }
  }

  lemma UpdateTells(b: BoardState, from: nat, a: ClaudeAction, now: nat, uuid: string)
    requires Numbered(b) && a.UpdateCard? && ClaudeUpdate(b, from, a, now).result.Success?
    ensures var o := ClaudeUpdate(b, from, a, now); TellsOwed(b, from, a, uuid, o.board.cards, o.result.value)
  {
    hide Normalize, Pos, ImagesOf, DistinctChoices, ClaudeUpdate, Becomes;
    var c, c1, ev := UpdatedTo(b, from, a, now);
    OneCardTold(b, from, a, uuid, ClaudeUpdate(b, from, a, now).board.cards, ev, a.n);
  }

  /** The card before and after, and the events. */
  lemma UpdatedTo(b: BoardState, from: nat, a: ClaudeAction, now: nat) returns (c: Card, c1: Card, ev: seq<Event>)
    requires Numbered(b) && a.UpdateCard? && ClaudeUpdate(b, from, a, now).result.Success?
    ensures Find(b.cards, a.n) == Some(c) && c.n == a.n && c1.n == a.n
    ensures Find(ClaudeUpdate(b, from, a, now).board.cards, a.n) == Some(c1)
    ensures ev == ClaudeUpdate(b, from, a, now).result.value && ev == Stamp(UpdateEvents(c, c1, from), b.cards)
  {
    hide Normalize, ImagesOf, DistinctChoices, Find;
    var i := Pos(b.cards, a.n).value;
    c := b.cards[i];
    FindMember(b.cards, c);
    var picks := if a.choices.Some? then CleanChoices(a.choices.value).value else c.choices;
    c1 := Updated(c, a, picks, ImagesOf(a.images).value, now);
    FindAfterUpdate(b.cards, i, c1);
    FindAfterNormalize(b.cards[i := c1]);
    ev := ClaudeUpdate(b, from, a, now).result.value;
  }

  lemma CommentTells(b: BoardState, from: nat, a: ClaudeAction, now: nat, uuid: string)
    requires Numbered(b) && a.CommentOn? && ClaudeComment(b, from, a, now, uuid).result.Success?
    ensures var o := ClaudeComment(b, from, a, now, uuid); TellsOwed(b, from, a, uuid, o.board.cards, o.result.value)
  {
    hide Normalize, ImagesOf, ClaudeComment;
    var c, c1, ev := CommentedTo(b, from, a, now, uuid);
    OneCardTold(b, from, a, uuid, ClaudeComment(b, from, a, now, uuid).board.cards, ev, a.n);
  }

  lemma CommentedTo(b: BoardState, from: nat, a: ClaudeAction, now: nat, uuid: string) returns (c: Card, c1: Card, ev: seq<Event>)
    requires Numbered(b) && a.CommentOn? && ClaudeComment(b, from, a, now, uuid).result.Success?
    ensures Find(b.cards, a.n) == Some(c) && c.n == a.n && c1.n == a.n && c1.assignee == c.assignee && |c1.comments| > 0
    ensures Find(ClaudeComment(b, from, a, now, uuid).board.cards, a.n) == Some(c1)
    ensures ev == ClaudeComment(b, from, a, now, uuid).result.value
    ensures ev == Stamp(Tell(c1, Some(from), Commented(uuid, a.text, c1.comments[|c1.comments| - 1].images)), b.cards)
  {
    hide Normalize, ImagesOf, Find;
    var i := Pos(b.cards, a.n).value;
    c := b.cards[i];
    FindMember(b.cards, c);
    c1 := c.(comments := c.comments + [Comment(uuid, ByClaude, Some(from), a.text, ImagesOf(a.images).value, now)],
             updated := now, unread := true);
    FindAfterUpdate(b.cards, i, c1);
    FindAfterNormalize(b.cards[i := c1]);
    ev := ClaudeComment(b, from, a, now, uuid).result.value;
  }

  lemma ProposeTells(b: BoardState, from: nat, a: ClaudeAction, now: nat, uuid: string)
    requires Numbered(b) && a.ProposeColumns? && ClaudePropose(b, from, a.changes, a.why, now).result.Success?
    ensures var o := ClaudePropose(b, from, a.changes, a.why, now); TellsOwed(b, from, a, uuid, o.board.cards, o.result.value)
  {
    hide Simulate, NamesDistinct;
  }

  /** Over every accepted action of a claude: every other claude owed is told exactly once, and nobody else. */
  lemma EveryActionTells(b: BoardState, from: nat, a: ClaudeAction, now: nat, uuid: string)
    requires Numbered(b) && ApplyClaude(b, from, a, now, uuid).result.Success?
    ensures var o := ApplyClaude(b, from, a, now, uuid); TellsOwed(b, from, a, uuid, o.board.cards, o.result.value)
  {
    hide TellsOwed, ClaudeAdd, ClaudeUpdate, ClaudeMove, ClaudeComment, ClaudeArchive, ClaudePropose;
    match a {
      case AddCards(_) => AddTells(b, from, a, now, uuid);
      case UpdateCard(_, _, _, _, _, _, _) => UpdateTells(b, from, a, now, uuid);
      case MoveCards(_, _) => MoveTells(b, from, a, now, uuid);
      case CommentOn(_, _, _) => CommentTells(b, from, a, now, uuid);
      case ArchiveCards(_) => ArchiveTells(b, from, a, now, uuid);
      case ProposeColumns(_, _) => ProposeTells(b, from, a, now, uuid);
    }
  }
}
