/** Exactly who is told of each user edit and in which words, and which images it leaves unused. */
module UserTelling {
  import opened Wrappers
  import opened BoardState
  import opened BoardCards
  import opened BoardTelling

  /** Claude `id` is told of card `n`: it holds it before or after, and the edit really changes it, or comments on it. */
  ghost predicate UserOwes(b: BoardState, e: BoardEdit, cards1: seq<Card>, id: nat, n: nat) {
    && (HeldBy(b.cards, n, id) || HeldBy(cards1, n, id))
    && var c, c1 := Find(b.cards, n), Find(cards1, n);
       match e
       case Add(_, _, _, _, _) => c.None?
       case Edit(m, _, _, _) =>
         && n == m && c.Some? && c1.Some?
         && (c1.value.title != c.value.title || c1.value.detail != c.value.detail || c1.value.images != c.value.images)
       case Move(m, _, _) => n == m && c.Some? && c1.Some? && c1.value.col != c.value.col
       case Assign(m, _) => n == m && c.Some? && c1.Some? && c1.value.assignee != c.value.assignee
       case Choose(m, _) => n == m && c.Some? && c1.Some? && c1.value.chosen != c.value.chosen
       case PostComment(m, _, _) => n == m
       case Archive(m, _) => n == m && c.Some? && c1.Some? && c1.value.archived != c.value.archived
       case ArchiveColumn(col) => c.Some? && c.value.col == col && !c.value.archived
       case Delete(m) => n == m && c.Some? && !c.value.archived
       case ColDelete(col, _) => c.Some? && c.value.col == col && !c.value.archived
       case _ => false
  }

  /** What the event says happened. */
  ghost predicate UserSays(e: BoardEdit, uuid: string, c1: Option<Card>, ev: Event) {
    match e
    case Add(_, _, _, _, _) => ev.change == Added
    case Edit(_, _, _, _) => ev.change == Edited
    case Move(_, _, _) => ev.change == Moved
    case Assign(_, to) => ev.change == if to == Some(ev.to) then AssignedToYou else Unassigned(to)
    case Choose(_, choice) => ev.change == Chose(choice)
    case PostComment(_, text, images) => ev.change == Commented(uuid, text, images)
    case Archive(_, on) => ev.change == Archived(on)
    case ArchiveColumn(_) => ev.change == Archived(true)
    case Delete(_) => ev.change == Deleted
    case ColDelete(_, dest) => ev.change == if dest.Some? then Moved else Archived(true)
    case _ => false
  }

  ghost predicate RightTidings(b: BoardState, e: BoardEdit, uuid: string, cards1: seq<Card>, ev: Event) {
    && var c, c1 := Find(b.cards, ev.n), Find(cards1, ev.n);
       && ev.actor.None? && ev.before == SnapAt(b.cards, ev.n) && UserSays(e, uuid, c1, ev)
       && (c.Some? || c1.Some?) && ev.title == (if c1.Some? then c1.value.title else c.value.title)
  }

  /** Each one owed is told exactly once, nobody else is told anything, and every event says what happened. */
  ghost predicate UserTellsOwed(b: BoardState, e: BoardEdit, uuid: string, cards1: seq<Card>, ev: seq<Event>) {
    && (forall id: nat, n: nat :: Count(ev, id, n) == if UserOwes(b, e, cards1, id, n) then 1 else 0)
    && (forall k :: 0 <= k < |ev| ==> RightTidings(b, e, uuid, cards1, ev[k]))
  }

  /** Events about one card, each to someone owed and to nobody twice. */
  lemma OneCardTold(b: BoardState, e: BoardEdit, uuid: string, cards1: seq<Card>, ev: seq<Event>, n: nat)
    requires |ev| <= 2 && (|ev| == 2 ==> ev[0].to != ev[1].to)
    requires forall k :: 0 <= k < |ev| ==> ev[k].n == n && RightTidings(b, e, uuid, cards1, ev[k])
    requires forall id: nat, m: nat :: UserOwes(b, e, cards1, id, m) <==>
                                       m == n && ((|ev| > 0 && ev[0].to == id) || (|ev| > 1 && ev[1].to == id))
    ensures UserTellsOwed(b, e, uuid, cards1, ev)
  {
    hide UserOwes, RightTidings, Count;
    forall id: nat, m: nat ensures Count(ev, id, m) == if UserOwes(b, e, cards1, id, m) then 1 else 0 {
      CountShort(ev, id, m);
    }
  }

  lemma AddTidings(b: BoardState, e: BoardEdit, now: nat, uuid: string)
    requires Numbered(b) && e.Add? && UserAdd(b, e, now).result.Success?
    ensures UserTellsOwed(b, e, uuid, UserAdd(b, e, now).board.cards, UserAdd(b, e, now).result.value.events)
  {
    hide Normalize, Find;
    EffectOfAdd(b, e, now);
    var n, cards1 := b.next + 1, UserAdd(b, e, now).board.cards;
    FoundMember(b.cards, n);
    forall m ensures Find(cards1, m) == ExpectedAt(b, e, now, "", m) {
    }
    OneCardTold(b, e, uuid, cards1, UserAdd(b, e, now).result.value.events, n);
  }

  lemma MoveTidings(b: BoardState, e: BoardEdit, now: nat, uuid: string)
    requires Numbered(b) && e.Move? && UserMove(b, e, now).result.Success?
    ensures UserTellsOwed(b, e, uuid, UserMove(b, e, now).board.cards, UserMove(b, e, now).result.value.events)
  {
    hide Normalize, Place, Effect;
    EffectOfMove(b, e, now);
    var cards1 := UserMove(b, e, now).board.cards;
    FoundMember(b.cards, e.n);
    OnlyThat(b, e, now, "", cards1);
    OneCardTold(b, e, uuid, cards1, UserMove(b, e, now).result.value.events, e.n);
  }

  lemma DeleteTidings(b: BoardState, e: BoardEdit, uuid: string)
    requires Numbered(b) && e.Delete? && UserDelete(b, e).result.Success?
    ensures UserTellsOwed(b, e, uuid, UserDelete(b, e).board.cards, UserDelete(b, e).result.value.events)
  {
    hide Normalize, Effect;
    EffectOfDelete(b, e);
    var cards1 := UserDelete(b, e).board.cards;
    FoundMember(b.cards, e.n);
    OnlyThat(b, e, 0, "", cards1);
    OneCardTold(b, e, uuid, cards1, UserDelete(b, e).result.value.events, e.n);
  }

  /** An edit in place: the card before and after, and the events. */
  lemma InPlaceTidings(b: BoardState, e: BoardEdit, now: nat, uuid: string)
    requires Numbered(b) && ChangesInPlace(e) && ApplyUser(b, e, now, uuid).result.Success?
    ensures var o := ApplyUser(b, e, now, uuid); UserTellsOwed(b, e, uuid, o.board.cards, o.result.value.events)
  {
    hide Normalize, Effect, PutsInPlace, ApplyUser, CardAfter, UserTellsOwed, Numbered;
    var cards1 := ApplyUser(b, e, now, uuid).board.cards;
    EffectInPlace(b, e, now, uuid);
    InPlaceCards(b, e, now, uuid);
    var c, c1 := PutAs(b, e, now, uuid);
    OnlyThat(b, e, now, uuid, cards1);
    EventsInPlace(b, e, now, uuid, c, c1);
    ToldInPlace(b, e, now, uuid, cards1, ApplyUser(b, e, now, uuid).result.value.events, c, c1);
  }

  lemma PutAs(b: BoardState, e: BoardEdit, now: nat, uuid: string) returns (c: Card, c1: Card)
    requires ChangesInPlace(e) && PutsInPlace(b, e, now, uuid, ApplyUser(b, e, now, uuid).board)
    ensures Pos(b.cards, e.n).Some? && c == b.cards[Pos(b.cards, e.n).value] && Find(b.cards, e.n) == Some(c) && c.n == e.n
    ensures CardAfter(b, e, now, uuid, c) == Some(c1)
  {
    hide ApplyUser, Normalize;
    c := b.cards[Pos(b.cards, e.n).value];
    c1 := CardAfter(b, e, now, uuid, c).value;
  }

  /** The events of an edit in place, in order. */
  ghost predicate ToldOf(e: BoardEdit, uuid: string, c: Card, c1: Card, cards: seq<Card>, ev: seq<Event>) {
    match e
    case Edit(_, _, _, _) => ev == Stamp(if SnapOf(c1) != SnapOf(c) then Tell(c1, None, Edited) else [], cards)
    case Assign(_, to) =>
      ev == Stamp(if c1.assignee == c.assignee then []
                  else Tell(c1, None, AssignedToYou)
                       + if c.assignee.Some? then [Event(c.assignee.value, c.n, None, Unassigned(to), c.title, None)] else [], cards)
    case Choose(_, choice) => ev == Stamp(if c1.chosen != c.chosen then Tell(c1, None, Chose(choice)) else [], cards)
    case PostComment(_, text, images) => ev == Stamp(Tell(c1, None, Commented(uuid, text, images)), cards)
    case Archive(_, on) => ev == Stamp(if c1.archived != c.archived then Tell(c1, None, Archived(on)) else [], cards)
    case _ => ev == []
  }

  lemma NothingStamped(cards: seq<Card>)
    ensures Stamp([], cards) == []
  {
  }

  lemma EditEvents(b: BoardState, e: BoardEdit, now: nat, uuid: string, c: Card, c1: Card)
    requires e.Edit? && UserEdit(b, e, now).result.Success?
    requires Pos(b.cards, e.n).Some? && c == b.cards[Pos(b.cards, e.n).value] && CardAfter(b, e, now, uuid, c) == Some(c1)
    ensures ToldOf(e, uuid, c, c1, b.cards, UserEdit(b, e, now).result.value.events)
  {
    hide Normalize, Pos, Stamp;
    NothingStamped(b.cards);
  }

  lemma AssignEvents(b: BoardState, e: BoardEdit, now: nat, uuid: string, c: Card, c1: Card)
    requires e.Assign? && UserAssign(b, e, now).result.Success?
    requires Pos(b.cards, e.n).Some? && c == b.cards[Pos(b.cards, e.n).value] && CardAfter(b, e, now, uuid, c) == Some(c1)
    ensures ToldOf(e, uuid, c, c1, b.cards, UserAssign(b, e, now).result.value.events)
  {
    hide Normalize, Pos, Stamp;
    NothingStamped(b.cards);
  }

  lemma ChooseEvents(b: BoardState, e: BoardEdit, now: nat, uuid: string, c: Card, c1: Card)
    requires e.Choose? && UserChoose(b, e, now).result.Success?
    requires Pos(b.cards, e.n).Some? && c == b.cards[Pos(b.cards, e.n).value] && CardAfter(b, e, now, uuid, c) == Some(c1)
    ensures ToldOf(e, uuid, c, c1, b.cards, UserChoose(b, e, now).result.value.events)
  {
    hide Normalize, Pos, Stamp;
    NothingStamped(b.cards);
  }

  lemma CommentEventsOf(b: BoardState, e: BoardEdit, now: nat, uuid: string, c: Card, c1: Card)
    requires e.PostComment? && UserComment(b, e, now, uuid).result.Success?
    requires Pos(b.cards, e.n).Some? && c == b.cards[Pos(b.cards, e.n).value] && CardAfter(b, e, now, uuid, c) == Some(c1)
    ensures ToldOf(e, uuid, c, c1, b.cards, UserComment(b, e, now, uuid).result.value.events)
  {
    hide Normalize, Pos, Stamp;
    NothingStamped(b.cards);
  }

  lemma EditCommentEvents(b: BoardState, e: BoardEdit, now: nat, uuid: string, c: Card, c1: Card)
    requires e.EditComment? && UserEditComment(b, e).result.Success?
    requires Pos(b.cards, e.n).Some? && c == b.cards[Pos(b.cards, e.n).value] && CardAfter(b, e, now, uuid, c) == Some(c1)
    ensures ToldOf(e, uuid, c, c1, b.cards, UserEditComment(b, e).result.value.events)
  {
    hide Normalize, Pos, Stamp;
    NothingStamped(b.cards);
  }

  lemma DeleteCommentEvents(b: BoardState, e: BoardEdit, now: nat, uuid: string, c: Card, c1: Card)
    requires e.DeleteComment? && UserDeleteComment(b, e).result.Success?
    requires Pos(b.cards, e.n).Some? && c == b.cards[Pos(b.cards, e.n).value] && CardAfter(b, e, now, uuid, c) == Some(c1)
    ensures ToldOf(e, uuid, c, c1, b.cards, UserDeleteComment(b, e).result.value.events)
  {
    hide Normalize, Pos, Stamp;
    NothingStamped(b.cards);
  }

  lemma ArchiveEvents(b: BoardState, e: BoardEdit, now: nat, uuid: string, c: Card, c1: Card)
    requires e.Archive? && UserArchive(b, e, now).result.Success?
    requires Pos(b.cards, e.n).Some? && c == b.cards[Pos(b.cards, e.n).value] && CardAfter(b, e, now, uuid, c) == Some(c1)
    ensures ToldOf(e, uuid, c, c1, b.cards, UserArchive(b, e, now).result.value.events)
  {
    hide Normalize, Pos, Stamp;
    NothingStamped(b.cards);
  }

  lemma SeenEvents(b: BoardState, e: BoardEdit, now: nat, uuid: string, c: Card, c1: Card)
    requires e.Seen? && UserSeen(b, e).result.Success?
    requires Pos(b.cards, e.n).Some? && c == b.cards[Pos(b.cards, e.n).value] && CardAfter(b, e, now, uuid, c) == Some(c1)
    ensures ToldOf(e, uuid, c, c1, b.cards, UserSeen(b, e).result.value.events)
  {
    hide Normalize, Pos, Stamp;
    NothingStamped(b.cards);
  }

  lemma EventsInPlace(b: BoardState, e: BoardEdit, now: nat, uuid: string, c: Card, c1: Card)
    requires ChangesInPlace(e) && ApplyUser(b, e, now, uuid).result.Success?
    requires Pos(b.cards, e.n).Some? && c == b.cards[Pos(b.cards, e.n).value] && CardAfter(b, e, now, uuid, c) == Some(c1)
    ensures ToldOf(e, uuid, c, c1, b.cards, ApplyUser(b, e, now, uuid).result.value.events)
  {
    hide ToldOf, CardAfter, UserEdit, UserAssign, UserChoose, UserComment, UserEditComment, UserDeleteComment, UserArchive, UserSeen;
    match e {
      case Edit(_, _, _, _) => EditEvents(b, e, now, uuid, c, c1);
      case Assign(_, _) => AssignEvents(b, e, now, uuid, c, c1);
      case Choose(_, _) => ChooseEvents(b, e, now, uuid, c, c1);
      case PostComment(_, _, _) => CommentEventsOf(b, e, now, uuid, c, c1);
      case EditComment(_, _, _, _) => EditCommentEvents(b, e, now, uuid, c, c1);
      case DeleteComment(_, _) => DeleteCommentEvents(b, e, now, uuid, c, c1);
      case Archive(_, _) => ArchiveEvents(b, e, now, uuid, c, c1);
      case Seen(_) => SeenEvents(b, e, now, uuid, c, c1);
    }
  }

  lemma ToldInPlace(b: BoardState, e: BoardEdit, now: nat, uuid: string, cards1: seq<Card>, ev: seq<Event>, c: Card, c1: Card)
    requires ChangesInPlace(e) && Find(b.cards, e.n) == Some(c) && Find(cards1, e.n) == Some(c1) && c.n == e.n
    requires CardAfter(b, e, now, uuid, c) == Some(c1) && ToldOf(e, uuid, c, c1, b.cards, ev)
    ensures UserTellsOwed(b, e, uuid, cards1, ev)
  {
    hide Find, UserTellsOwed;
    TidingsInPlace(b, e, now, uuid, cards1, ev, c, c1);
    OwedInPlace(b, e, now, uuid, cards1, ev, c, c1);
    hide RightTidings, UserOwes, ToldOf, CardAfter;
    OneCardTold(b, e, uuid, cards1, ev, e.n);
  }

  lemma TidingsInPlace(b: BoardState, e: BoardEdit, now: nat, uuid: string, cards1: seq<Card>, ev: seq<Event>, c: Card, c1: Card)
    requires ChangesInPlace(e) && Find(b.cards, e.n) == Some(c) && Find(cards1, e.n) == Some(c1) && c.n == e.n
    requires CardAfter(b, e, now, uuid, c) == Some(c1) && ToldOf(e, uuid, c, c1, b.cards, ev)
    ensures |ev| <= 2 && (|ev| == 2 ==> ev[0].to != ev[1].to)
    ensures forall k :: 0 <= k < |ev| ==> ev[k].n == e.n && RightTidings(b, e, uuid, cards1, ev[k])
  {
    hide Find;
  }

  lemma OwedInPlace(b: BoardState, e: BoardEdit, now: nat, uuid: string, cards1: seq<Card>, ev: seq<Event>, c: Card, c1: Card)
    requires ChangesInPlace(e) && Find(b.cards, e.n) == Some(c) && Find(cards1, e.n) == Some(c1) && c.n == e.n
    requires CardAfter(b, e, now, uuid, c) == Some(c1) && ToldOf(e, uuid, c, c1, b.cards, ev)
    ensures forall id: nat, m: nat :: UserOwes(b, e, cards1, id, m) <==>
                                      m == e.n && ((|ev| > 0 && ev[0].to == id) || (|ev| > 1 && ev[1].to == id))
  {
    hide Find;
  }

  lemma SweepTidings(b: BoardState, e: BoardEdit, now: nat, uuid: string)
    requires Numbered(b) && e.ArchiveColumn?
    ensures UserTellsOwed(b, e, uuid, UserArchiveColumn(b, e, now).board.cards, UserArchiveColumn(b, e, now).result.value.events)
  {
    hide Normalize, Count, Find, SweepEvents;
    EffectOfSweep(b, e, now);
    var cards1, ev := UserArchiveColumn(b, e, now).board.cards, UserArchiveColumn(b, e, now).result.value.events;
    var raw := SweepEvents(b.cards, e.col, now);
    forall m ensures Find(cards1, m) == ExpectedAt(b, e, now, "", m) {
    }
    forall id: nat, n: nat ensures Count(ev, id, n) == if UserOwes(b, e, cards1, id, n) then 1 else 0 {
      CountStamp(raw, b.cards, id, n);
      SweepCounts(b.cards, e.col, now, id, n);
    }
    forall k | 0 <= k < |ev| ensures RightTidings(b, e, uuid, cards1, ev[k]) {
      SweepEventsAre(b.cards, e.col, now, k);
    }
  }

  lemma ColDeleteTidings(b: BoardState, e: BoardEdit, now: nat, uuid: string)
    requires Numbered(b) && e.ColDelete? && UserColDelete(b, e, now).result.Success?
    ensures UserTellsOwed(b, e, uuid, UserColDelete(b, e, now).board.cards, UserColDelete(b, e, now).result.value.events)
  {
    hide Normalize, Rehome, Count, Find;
    EffectOfColDelete(b, e, now);
    var cards1, ev := UserColDelete(b, e, now).board.cards, UserColDelete(b, e, now).result.value.events;
    var ns := NumbersIn(b.cards, e.col);
    var dest := if e.dest.Some? then e.dest.value else FirstOther(b.columns, e.col);
    NumbersInColumn(b.cards, e.col);
    forall m ensures Find(cards1, m) == ExpectedAt(b, e, now, "", m) {
    }
    forall id: nat, n: nat ensures Count(ev, id, n) == if UserOwes(b, e, cards1, id, n) then 1 else 0 {
      CountStamp(Rehome(b.cards, ns, dest, e.dest.Some?, now).1, b.cards, id, n);
      RehomeCounts(b.cards, ns, dest, e.dest.Some?, now, id, n);
    }
    forall k | 0 <= k < |ev| ensures RightTidings(b, e, uuid, cards1, ev[k]) {
      RehomeEventsAre(b.cards, ns, dest, e.dest.Some?, now, k);
    }
  }

  /** Over every accepted user edit: who is owed is told exactly once, in the right words, and nobody else. */
  lemma EveryEditTellsExactly(b: BoardState, e: BoardEdit, now: nat, uuid: string)
    requires Numbered(b) && ApplyUser(b, e, now, uuid).result.Success?
    ensures var o := ApplyUser(b, e, now, uuid); UserTellsOwed(b, e, uuid, o.board.cards, o.result.value.events)
  {
    hide UserTellsOwed, Normalize;
    match e {
      case Add(_, _, _, _, _) => AddTidings(b, e, now, uuid);
      case Move(_, _, _) => MoveTidings(b, e, now, uuid);
      case Delete(_) => DeleteTidings(b, e, uuid);
      case ArchiveColumn(_) => SweepTidings(b, e, now, uuid);
      case ColDelete(_, _) => ColDeleteTidings(b, e, now, uuid);
      case ColAdd(_, _) => NothingTold(b, e, ApplyUser(b, e, now, uuid).board.cards, uuid);
      case ColEdit(_, _, _) => NothingTold(b, e, ApplyUser(b, e, now, uuid).board.cards, uuid);
      case ColMove(_, _) => NothingTold(b, e, ApplyUser(b, e, now, uuid).board.cards, uuid);
      case _ => InPlaceTidings(b, e, now, uuid);
    }
  }

  lemma NothingTold(b: BoardState, e: BoardEdit, cards1: seq<Card>, uuid: string)
    requires e.ColAdd? || e.ColEdit? || e.ColMove?
    ensures UserTellsOwed(b, e, uuid, cards1, [])
  {
  }

  // ---------- Images ----------

  lemma {:induction false} DroppedAre(prior: seq<string>, kept: seq<string>)
    ensures forall s :: s in Dropped(prior, kept) <==> s in prior && s !in kept
  {
    if |prior| > 0 {
      DroppedAre(prior[1..], kept);
      assert prior == [prior[0]] + prior[1..];
    }
  }

  lemma {:induction false} CommentImagesAre(comments: seq<Comment>)
    ensures forall s :: s in CommentImages(comments) <==> exists c :: c in comments && s in c.images
  {
    if |comments| > 0 {
      CommentImagesAre(comments[1..]);
      assert comments == [comments[0]] + comments[1..];
    }
  }

  /** The images an accepted edit leaves unused: those it takes off the card or the comment, or all of what it deletes. */
  ghost predicate Unused(b: BoardState, e: BoardEdit, gone: seq<string>) {
    match e
    case Edit(n, _, _, newImages) =>
      && Find(b.cards, n).Some?
      && forall s :: s in gone <==> newImages.Some? && s in Find(b.cards, n).value.images && s !in newImages.value
    case EditComment(n, id, _, images) =>
      && Find(b.cards, n).Some? && CommentPos(Find(b.cards, n).value.comments, id).Some?
      && var m := Find(b.cards, n).value.comments[CommentPos(Find(b.cards, n).value.comments, id).value];
         forall s :: s in gone <==> s in m.images && s !in images
    case DeleteComment(n, id) =>
      && Find(b.cards, n).Some? && CommentPos(Find(b.cards, n).value.comments, id).Some?
      && var m := Find(b.cards, n).value.comments[CommentPos(Find(b.cards, n).value.comments, id).value];
         forall s :: s in gone <==> s in m.images
    case Delete(n) =>
      && Find(b.cards, n).Some?
      && var c := Find(b.cards, n).value;
         forall s :: s in gone <==> s in c.images || exists m :: m in c.comments && s in m.images
    case _ => gone == []
  }

  lemma UnusedAfter(b: BoardState, e: BoardEdit, now: nat, uuid: string)
    requires ApplyUser(b, e, now, uuid).result.Success?
    ensures Unused(b, e, ApplyUser(b, e, now, uuid).result.value.gone)
  {
    hide Normalize, Stamp, Place, Rehome, SweptAll, SweepEvents, Pos, Tell, CommentPos;
    match e {
      case Edit(n, _, _, newImages) =>
        assert UserEdit(b, e, now).result.Success?;
        if newImages.Some? {
          DroppedAre(Find(b.cards, n).value.images, newImages.value);
        }
      case EditComment(n, id, _, images) =>
        assert UserEditComment(b, e).result.Success?;
        DroppedAre(Find(b.cards, n).value.comments[CommentPos(Find(b.cards, n).value.comments, id).value].images, images);
      case DeleteComment(n, id) => assert UserDeleteComment(b, e).result.Success?;
      case Delete(n) =>
        assert UserDelete(b, e).result.Success?;
        CommentImagesAre(Find(b.cards, n).value.comments);
      case Add(_, _, _, _, _) => assert UserAdd(b, e, now).result.Success?;
      case Move(_, _, _) => assert UserMove(b, e, now).result.Success?;
      case Assign(_, _) => assert UserAssign(b, e, now).result.Success?;
      case Choose(_, _) => assert UserChoose(b, e, now).result.Success?;
      case PostComment(_, _, _) => assert UserComment(b, e, now, uuid).result.Success?;
      case Archive(_, _) => assert UserArchive(b, e, now).result.Success?;
      case Seen(_) => assert UserSeen(b, e).result.Success?;
      case ColMove(_, _) => assert UserColMove(b, e).result.Success?;
      case _ =>
    }
  }
}
