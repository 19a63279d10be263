/** What each accepted action of a claude does to every card, field by field, and whom it tells. */
module ClaudeEffects {
  import opened Wrappers
  import opened BoardState
  import opened BoardCards
  import opened BoardTelling
  import opened BoardInvariant
  import opened ColumnEffects
  import opened ProposalReading

  // ---------- What is asked for ----------

  /** The images a claude sent, each one imported. */
  ghost predicate Imported(asked: seq<Option<string>>, images: seq<string>) {
    |images| == |asked| && forall i :: 0 <= i < |asked| ==> asked[i] == Some(images[i])
  }

  lemma ImagesAre(asked: seq<Option<string>>)
    ensures ImagesOf(asked).Success? <==> |asked| <= 10 && forall i :: 0 <= i < |asked| ==> asked[i].Some?
    ensures ImagesOf(asked).Success? ==> Imported(asked, ImagesOf(asked).value)
  {
  }

  /** The choices asked for but the empty ones, each once, in the order they first come. */
  ghost predicate Picks(asked: seq<string>, picks: seq<string>) {
    && (forall s :: s in picks <==> s in asked && s != "")
    && (forall i, j :: 0 <= i < j < |picks| ==> picks[i] != picks[j])
    && (forall i, j :: 0 <= i < j < |picks| ==> exists k :: 0 <= k < |asked| && asked[k] == picks[i] && picks[j] !in asked[..k + 1])
  }

  lemma {:induction false} DistinctArePicks(asked: seq<string>)
    ensures Picks(asked, DistinctChoices(asked))
  {
    if |asked| > 0 {
      var init, c := asked[..|asked| - 1], asked[|asked| - 1];
      var out, all := DistinctChoices(init), DistinctChoices(asked);
      DistinctArePicks(init);
      assert asked == init + [c];
      forall i, j | 0 <= i < j < |all| ensures exists k :: 0 <= k < |asked| && asked[k] == all[i] && all[j] !in asked[..k + 1] {
        if j < |out| {
          var k :| 0 <= k < |init| && init[k] == out[i] && out[j] !in init[..k + 1];
          assert asked[k] == all[i] && asked[..k + 1] == init[..k + 1];
        } else {
          assert out[i] in init;
          var k :| 0 <= k < |init| && init[k] == out[i];
          assert asked[k] == all[i] && asked[..k + 1] == init[..k + 1];
          assert c !in init;
        }
      }
    }
  }

  /** How many different choices that is. */
  lemma {:induction false} CountPicks(asked: seq<string>)
    ensures |DistinctChoices(asked)| == |set s | s in asked && s != ""|
  {
    DistinctArePicks(asked);
    DistinctCount(DistinctChoices(asked));
    assert (set s | s in asked && s != "") == set s | s in DistinctChoices(asked);
  }

  lemma {:induction false} DistinctCount(s: seq<string>)
    requires forall i, j :: 0 <= i < j < |s| ==> s[i] != s[j]
    ensures |set x | x in s| == |s|
  {
    if |s| == 0 {
      assert (set x | x in s) == {};
    } else {
      var init, last := s[..|s| - 1], s[|s| - 1];
      DistinctCount(init);
      assert s == init + [last];
      assert last !in init;
      assert (set x | x in s) == (set x | x in init) + {last};
    }
  }

  /** The card an item asks for, under number `n`. */
  ghost predicate AsksFor(b: BoardState, from: nat, it: NewCard, now: nat, n: nat, c: Card) {
    && c.n == n && c.title == it.title
    && c.detail == (if it.detail == Some("") then None else it.detail)
    && Imported(it.images, c.images)
    && (if it.col.Some? then IsNamed(b.columns, it.col.value, c.col) else |b.columns| > 0 && c.col == b.columns[0].id)
    && c.assignee == (if it.assignee.Some? then it.assignee.value else Some(from))
    && c.urgent == it.urgent && Picks(it.choices, c.choices)
    && c.chosen == None && c.comments == [] && !c.archived
    && c.author == ByClaude && c.maker == Some(from) && c.unread && c.created == now && c.updated == now
  }

  lemma DraftAsks(b: BoardState, from: nat, it: NewCard, now: nat, n: nat)
    requires Draft(b, from, it, now).Success?
    ensures AsksFor(b, from, it, now, n, Draft(b, from, it, now).value.(n := n))
  {
    hide IsNamed, ColBy, Picks, DistinctChoices, DuplicateOf, ImagesOf, Imported;
    if it.col.Some? {
      ColByMeans(b.columns, it.col.value);
    }
    DistinctArePicks(it.choices);
    ImagesAre(it.images);
  }

  /** What an update asks of its card: what was sent, and nothing else; a pick that is no longer a choice is cleared. */
  ghost predicate UpdatedAs(a: ClaudeAction, now: nat, c: Card, c1: Card)
    requires a.UpdateCard?
  {
    && c1.n == c.n && c1.col == c.col && c1.comments == c.comments && c1.archived == c.archived
    && c1.author == c.author && c1.maker == c.maker && c1.created == c.created
    && c1.updated == now && c1.unread
    && c1.title == (if a.title.Some? && a.title.value != "" then a.title.value else c.title)
    && c1.detail == (if a.detail.None? then c.detail else if a.detail.value == Some("") then None else a.detail.value)
    && (if a.choices.Some? then Picks(a.choices.value, c1.choices) else c1.choices == c.choices)
    && c1.chosen == (if a.choices.Some? && c.chosen.Some? && c.chosen.value !in c1.choices then None else c.chosen)
    && c1.urgent == (if a.urgent.Some? then a.urgent.value else c.urgent)
    && c1.assignee == (if a.assignee.Some? then a.assignee.value else c.assignee)
    && |c1.images| == |c.images| + |a.images| && c1.images[..|c.images|] == c.images && Imported(a.images, c1.images[|c.images|..])
  }

  /** What an accepted action makes of a card that was on the board. */
  ghost predicate Becomes(b: BoardState, from: nat, a: ClaudeAction, now: nat, uuid: string, c: Card, c1: Card) {
    match a
    case UpdateCard(n, _, _, _, _, _, _) => if c.n == n then UpdatedAs(a, now, c, c1) else c1 == c
    case MoveCards(ids, dest) =>
      if c.n in ids then IsNamed(b.columns, dest, c1.col) && c1 == c.(col := c1.col, archived := false, unread := true, updated := now)
      else c1 == c
    case CommentOn(n, text, images) =>
      if c.n == n then
        && |c1.comments| == |c.comments| + 1
        && var said := c1.comments[|c.comments|];
           && said == Comment(uuid, ByClaude, Some(from), text, said.images, now) && Imported(images, said.images)
           && c1 == c.(comments := c.comments + [said], unread := true, updated := now)
      else c1 == c
    case ArchiveCards(ids) => if c.n in ids && !c.archived then c1 == c.(archived := true, updated := now) else c1 == c
    case _ => c1 == c
  }

  /** What the action makes of card number `m`, if it leaves one. */
  ghost predicate BecomesAt(b: BoardState, from: nat, a: ClaudeAction, now: nat, uuid: string, m: nat, card: Option<Card>) {
    match Find(b.cards, m)
    case Some(c) => card.Some? && Becomes(b, from, a, now, uuid, c, card.value)
    case None =>
      if a.AddCards? && b.next < m <= b.next + |a.items| then card.Some? && AsksFor(b, from, a.items[m - b.next - 1], now, m, card.value)
      else card.None?
  }

  ghost predicate ClaudeEffect(b: BoardState, from: nat, a: ClaudeAction, now: nat, uuid: string, cards1: seq<Card>) {
    Distinct(cards1) && forall m: nat :: BecomesAt(b, from, a, now, uuid, m, Find(cards1, m))
  }

  // ---------- Each action ----------

  lemma {:induction false} FindAfterDrafts(cards: seq<Card>, next: nat, drafts: seq<Card>, actor: Option<nat>)
    requires Distinct(cards) && forall c :: c in cards ==> c.n <= next
    ensures var r := AddDrafts(cards, next, drafts, actor);
            && Distinct(r.0) && r.1 == next + |drafts|
            && forall m: nat :: Find(r.0, m) == if next < m <= next + |drafts| then Some(drafts[m - next - 1].(n := m)) else Find(cards, m)
    decreases |drafts|
  {
    hide Place, Find;
    if |drafts| > 0 {
      var card := drafts[0].(n := next + 1);
      FoundMember(cards, next + 1);
      assert card.(col := card.col) == card;
      FindAfterPlace(cards, card, card.col, None, true);
      FindAfterDrafts(Place(cards, card, card.col, None, true), next + 1, drafts[1..], actor);
    }
  }

  lemma AddEffectOn(b: BoardState, from: nat, a: ClaudeAction, now: nat, uuid: string)
    requires Numbered(b) && a.AddCards? && ClaudeAdd(b, from, a.items, now).result.Success?
    ensures var b1 := ClaudeAdd(b, from, a.items, now).board;
            ClaudeEffect(b, from, a, now, uuid, b1.cards) && b1 == b.(cards := b1.cards, next := b.next + |a.items|)
  {
    hide Place, Find, Normalize, AddDrafts, AsksFor, Draft;
    var drafts := Drafts(b, from, a.items, now).value;
    FindAfterDrafts(b.cards, b.next, drafts, Some(from));
    FindAfterNormalize(AddDrafts(b.cards, b.next, drafts, Some(from)).0);
    var cards1 := ClaudeAdd(b, from, a.items, now).board.cards;
    forall m: nat ensures BecomesAt(b, from, a, now, uuid, m, Find(cards1, m)) {
      FoundMember(b.cards, m);
      if b.next < m <= b.next + |a.items| {
        DraftAsks(b, from, a.items[m - b.next - 1], now, m);
      }
    }
  }

  lemma UpdateEffectOn(b: BoardState, from: nat, a: ClaudeAction, now: nat, uuid: string)
    requires Numbered(b) && a.UpdateCard? && ClaudeUpdate(b, from, a, now).result.Success?
    ensures var b1 := ClaudeUpdate(b, from, a, now).board;
            ClaudeEffect(b, from, a, now, uuid, b1.cards) && b1 == b.(cards := b1.cards)
  {
    hide Normalize, Picks, Imported, Pos, ImagesOf, DistinctChoices;
    var i := Pos(b.cards, a.n).value;
    var picks := if a.choices.Some? then CleanChoices(a.choices.value).value else b.cards[i].choices;
    if a.choices.Some? {
      DistinctArePicks(a.choices.value);
    }
    ImagesAre(a.images);
    var images := ImagesOf(a.images).value;
    var c1 := Updated(b.cards[i], a, picks, images, now);
    assert c1.images[|b.cards[i].images|..] == images;
    ReplacedEffect(b, from, a, now, uuid, i, c1);
  }

  lemma CommentEffectOn(b: BoardState, from: nat, a: ClaudeAction, now: nat, uuid: string)
    requires Numbered(b) && a.CommentOn? && ClaudeComment(b, from, a, now, uuid).result.Success?
    ensures var b1 := ClaudeComment(b, from, a, now, uuid).board;
            ClaudeEffect(b, from, a, now, uuid, b1.cards) && b1 == b.(cards := b1.cards)
  {
    hide Normalize, Imported, Pos, ImagesOf;
    var i := Pos(b.cards, a.n).value;
    ImagesAre(a.images);
    var c := b.cards[i];
    var c1 := c.(comments := c.comments + [Comment(uuid, ByClaude, Some(from), a.text, ImagesOf(a.images).value, now)],
                 updated := now, unread := true);
    ReplacedEffect(b, from, a, now, uuid, i, c1);
  }

  /** Putting in card `n`'s place what the action makes of it is the action's effect. */
  lemma ReplacedEffect(b: BoardState, from: nat, a: ClaudeAction, now: nat, uuid: string, i: nat, c1: Card)
    requires Numbered(b) && (a.UpdateCard? || a.CommentOn?) && i < |b.cards| && b.cards[i].n == a.n && c1.n == a.n
    requires Becomes(b, from, a, now, uuid, b.cards[i], c1)
    ensures ClaudeEffect(b, from, a, now, uuid, Normalize(b.cards[i := c1]))
  {
    hide Normalize, Find, Imported, Picks;
    FindAfterUpdate(b.cards, i, c1);
    FindAfterNormalize(b.cards[i := c1]);
    FindMember(b.cards, b.cards[i]);
    FoundNumber(b.cards);
  }

  lemma {:induction false} FindAfterMoveToTop(cards: seq<Card>, ids: seq<nat>, col: nat, actor: Option<nat>, now: nat)
    requires Distinct(cards) && forall i :: 0 <= i < |ids| ==> Find(cards, ids[i]).Some?
    ensures var r := MoveToTop(cards, ids, col, actor, now).0;
            && Distinct(r)
            && forall m: nat :: Find(r, m) == if m in ids then Some(Find(cards, m).value.(col := col, archived := false, updated := now, unread := true))
                                              else Find(cards, m)
    decreases |ids|
  {
    hide Place;
    if |ids| > 0 {
      var i := Pos(cards, ids[0]).value;
      var c1 := cards[i].(archived := false, updated := now, unread := true);
      var placed := Place(RemoveAt(cards, i), c1, col, None, true);
      FindAfterReplace(cards, i, c1, col, None, true);
      assert forall k :: 0 <= k < |ids[1..]| ==> ids[1..][k] == ids[k + 1];
      FindAfterMoveToTop(placed, ids[1..], col, actor, now);
      assert forall m :: m in ids <==> m == ids[0] || m in ids[1..];
    }
  }

  lemma MoveEffectOn(b: BoardState, from: nat, a: ClaudeAction, now: nat, uuid: string)
    requires Numbered(b) && a.MoveCards? && ClaudeMove(b, from, a.ids, a.dest, now).result.Success?
    ensures var b1 := ClaudeMove(b, from, a.ids, a.dest, now).board;
            ClaudeEffect(b, from, a, now, uuid, b1.cards) && b1 == b.(cards := b1.cards)
  {
    hide Normalize, MoveToTop, IsNamed, ColBy;
    ColByMeans(b.columns, a.dest);
    var col := ColBy(b.columns, a.dest).value;
    FindAfterMoveToTop(b.cards, a.ids, col, Some(from), now);
    FindAfterNormalize(MoveToTop(b.cards, a.ids, col, Some(from), now).0);
    FoundNumber(b.cards);
    AllFound(b.cards, a.ids);
  }

  lemma AllFound(cards: seq<Card>, ids: seq<nat>)
    requires AllThere(cards, ids)
    ensures forall m :: m in ids ==> Find(cards, m).Some?
  {
  }

  lemma {:induction false} FindAfterArchiveEach(cards: seq<Card>, ids: seq<nat>, actor: Option<nat>, now: nat)
    requires Distinct(cards)
    ensures var r := ArchiveEach(cards, ids, actor, now).0;
            && Distinct(r)
            && forall m: nat :: Find(r, m) == if m in ids && Find(cards, m).Some? && !Find(cards, m).value.archived
                                              then Some(Find(cards, m).value.(archived := true, updated := now)) else Find(cards, m)
    decreases |ids|
  {
    if |ids| > 0 {
      assert forall m :: m in ids <==> m == ids[0] || m in ids[1..];
      var p := Pos(cards, ids[0]);
      if p.Some? && !cards[p.value].archived {
        var c1 := cards[p.value].(archived := true, updated := now);
        FindAfterUpdate(cards, p.value, c1);
        FindAfterArchiveEach(cards[p.value := c1], ids[1..], actor, now);
      } else {
        FindAfterArchiveEach(cards, ids[1..], actor, now);
      }
    }
  }

  lemma ArchiveEffectOn(b: BoardState, from: nat, a: ClaudeAction, now: nat, uuid: string)
    requires Numbered(b) && a.ArchiveCards? && ClaudeArchive(b, from, a.ids, now).result.Success?
    ensures var b1 := ClaudeArchive(b, from, a.ids, now).board;
            ClaudeEffect(b, from, a, now, uuid, b1.cards) && b1 == b.(cards := b1.cards)
  {
    hide Normalize, ArchiveEach;
    FindAfterArchiveEach(b.cards, a.ids, Some(from), now);
    FindAfterNormalize(ArchiveEach(b.cards, a.ids, Some(from), now).0);
    FoundNumber(b.cards);
  }

  lemma ProposeEffectOn(b: BoardState, from: nat, a: ClaudeAction, now: nat, uuid: string)
    requires Numbered(b) && a.ProposeColumns? && ClaudePropose(b, from, a.changes, a.why, now).result.Success?
    ensures var b1 := ClaudePropose(b, from, a.changes, a.why, now).board;
            && ClaudeEffect(b, from, a, now, uuid, b1.cards)
            && b1 == b.(cards := b1.cards, proposals := b1.proposals, nextProp := b.nextProp + 1)
  {
    hide Normalize, Simulate, NamesDistinct;
    FindAfterNormalize(b.cards);
  }

  /**
   Every accepted action: card number by card number what it leaves, fields it does not name untouched, and nothing but
   the cards, the counter of the next card and the proposals changed.
  */
  lemma ClaudeDoes(b: BoardState, from: nat, a: ClaudeAction, now: nat, uuid: string)
    requires Numbered(b) && ApplyClaude(b, from, a, now, uuid).result.Success?
    ensures var b1 := ApplyClaude(b, from, a, now, uuid).board;
            && ClaudeEffect(b, from, a, now, uuid, b1.cards)
            && b1.next == b.next + (if a.AddCards? then |a.items| else 0)
            && b1.columns == b.columns && b1.nextCol == b.nextCol && b1.on == b.on
            && (!a.ProposeColumns? ==> b1.proposals == b.proposals && b1.nextProp == b.nextProp)
  {
    hide ClaudeEffect, ClaudeAdd, ClaudeUpdate, ClaudeMove, ClaudeComment, ClaudeArchive, ClaudePropose;
    match a {
      case AddCards(_) => AddEffectOn(b, from, a, now, uuid);
      case UpdateCard(_, _, _, _, _, _, _) => UpdateEffectOn(b, from, a, now, uuid);
      case MoveCards(_, _) => MoveEffectOn(b, from, a, now, uuid);
      case CommentOn(_, _, _) => CommentEffectOn(b, from, a, now, uuid);
      case ArchiveCards(_) => ArchiveEffectOn(b, from, a, now, uuid);
      case ProposeColumns(_, _) => ProposeEffectOn(b, from, a, now, uuid);
    }
  }
}
