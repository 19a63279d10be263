/**
 Who is told what by one user edit. `CardAfter` says card by card what an edit does,
 with no list positions; the telling theorem is stated on the cards before and after.
*/
module BoardTelling {
  import opened Wrappers
  import opened BoardState
  import opened BoardCards

  /** What an accepted edit makes of a card that was on the board, field by field. */
  function CardAfter(b: BoardState, e: BoardEdit, now: nat, uuid: string, c: Card): Option<Card> {
    match e
    case Edit(n, newTitle, newDetail, newImages) =>
      if c.n != n then Some(c)
      else
        var title := if newTitle.Some? && newTitle.value != "" then newTitle.value else c.title;
        var detail := if newDetail.None? then c.detail else if newDetail.value == "" then None else newDetail;
        var images := if newImages.Some? then newImages.value else c.images;
        var changed := title != c.title || detail != c.detail || images != c.images;
        Some(c.(title := title, detail := detail, images := images, updated := if changed then now else c.updated))
    case Move(n, col, _) =>
      if c.n != n || c.col == col then Some(c) else Some(c.(col := col, updated := now))
    case Assign(n, to) =>
      if c.n != n || c.assignee == to then Some(c) else Some(c.(assignee := to, updated := now))
    case Choose(n, choice) =>
      if c.n != n || c.chosen == choice then Some(c) else Some(c.(chosen := choice, updated := now))
    case PostComment(n, text, images) =>
      if c.n != n then Some(c)
      else Some(c.(comments := c.comments + [Comment(uuid, ByUser, None, text, images, now)], updated := now, unread := false))
    case EditComment(n, id, text, images) => (
      if c.n != n then Some(c)
      else match CommentPos(c.comments, id)
           case None => Some(c)
           case Some(k) => Some(c.(comments := c.comments[k := c.comments[k].(text := text, images := images)])))
    case DeleteComment(n, id) => (
      if c.n != n then Some(c)
      else match CommentPos(c.comments, id)
           case None => Some(c)
           case Some(k) => Some(c.(comments := c.comments[..k] + c.comments[k + 1..])))
    case Archive(n, archive) =>
      if c.n != n || c.archived == archive then Some(c)
      else Some(c.(archived := archive, updated := now, unread := if archive then false else c.unread))
    case ArchiveColumn(col) =>
      if c.col == col && !c.archived then Some(c.(archived := true, unread := false, updated := now)) else Some(c)
    case Delete(n) => if c.n == n then None else Some(c)
    case Seen(n) => if c.n == n then Some(c.(unread := false)) else Some(c)
    case ColDelete(col, dest) =>
      if c.col != col then Some(c)
      else
        var moved := c.(col := if dest.Some? then dest.value else FirstOther(b.columns, col));
        if c.archived then Some(moved) else Some(moved.(archived := dest.None?, updated := now))
    case _ => Some(c)
  }

  /** The card an accepted `Add` puts on the board. */
  function NewUserCard(b: BoardState, e: BoardEdit, now: nat): Card
    requires e.Add?
  {
    Card(b.next + 1, e.title, if e.newDetail == Some("") then None else e.newDetail, e.images, e.col, e.assignee, false, [], None,
         [], false, ByUser, None, false, now, now)
  }

  /** The board numbers its cards apart, and none above `next`. */
  ghost predicate Numbered(b: BoardState) {
    && Distinct(b.cards)
    && forall c :: c in b.cards ==> 1 <= c.n <= b.next
  }

  /** `cards1` is what the edit makes of each card of `b`, card number by card number. */
  ghost predicate Effect(b: BoardState, e: BoardEdit, now: nat, uuid: string, cards1: seq<Card>) {
    && Distinct(cards1)
    && forall m :: Find(cards1, m) == ExpectedAt(b, e, now, uuid, m)
  }

  function ExpectedAt(b: BoardState, e: BoardEdit, now: nat, uuid: string, m: nat): Option<Card> {
    match Find(b.cards, m)
    case Some(c) => CardAfter(b, e, now, uuid, c)
    case None => if e.Add? && m == b.next + 1 then Some(NewUserCard(b, e, now)) else None
  }

  /** The list operations do to each card exactly what `CardAfter` says, wherever it is stored. */
  lemma UserEffect(b: BoardState, e: BoardEdit, now: nat, uuid: string)
    requires Numbered(b) && ApplyUser(b, e, now, uuid).result.Success?
    ensures var b1 := ApplyUser(b, e, now, uuid).board;
            && Numbered(b1)
            && b1.next == (if e.Add? then b.next + 1 else b.next)
            && Effect(b, e, now, uuid, b1.cards)
  {
    hide Normalize, Place;
    match e {
      case Add(_, _, _, _, _) => EffectOfAdd(b, e, now);
      case Move(_, _, _) => EffectOfMove(b, e, now);
      case Delete(_) => EffectOfDelete(b, e);
      case ArchiveColumn(_) => EffectOfSweep(b, e, now);
      case ColDelete(_, _) => EffectOfColDelete(b, e, now);
      case ColAdd(_, _) => FindAfterNormalize(b.cards);
      case ColEdit(_, _, _) => FindAfterNormalize(b.cards);
      case ColMove(_, _) => FindAfterNormalize(b.cards);
      case _ => EffectInPlace(b, e, now, uuid);
    }
    NumbersKept(b, e, now, uuid, ApplyUser(b, e, now, uuid).board);
  }

  lemma EffectOfAdd(b: BoardState, e: BoardEdit, now: nat)
    requires Numbered(b) && e.Add? && UserAdd(b, e, now).result.Success?
    ensures Effect(b, e, now, "", UserAdd(b, e, now).board.cards)
  {
    var card := NewUserCard(b, e, now);
    FoundMember(b.cards, b.next + 1);
    assert card.(col := e.col) == card;
    FindAfterPlace(b.cards, card, e.col, None, false);
    FindAfterNormalize(Place(b.cards, card, e.col, None, false));
  }

  lemma FoundNumber(cards: seq<Card>)
    ensures forall m :: Find(cards, m).Some? ==> Find(cards, m).value.n == m
  {
    forall m ensures Find(cards, m).Some? ==> Find(cards, m).value.n == m {
      FoundMember(cards, m);
    }
  }

  lemma EffectOfMove(b: BoardState, e: BoardEdit, now: nat)
    requires Numbered(b) && e.Move? && UserMove(b, e, now).result.Success?
    ensures Effect(b, e, now, "", UserMove(b, e, now).board.cards)
  {
    hide Place, RemoveAt;
    var i := Pos(b.cards, e.n).value;
    var c1 := if b.cards[i].col != e.col then b.cards[i].(updated := now) else b.cards[i];
    var before := if e.before == Some(e.n) then None else e.before;
    FindAfterReplace(b.cards, i, c1, e.col, before, false);
    FindAfterNormalize(Place(RemoveAt(b.cards, i), c1, e.col, before, false));
    FoundNumber(b.cards);
    assert b.cards[i].col == e.col ==> c1.(col := e.col) == b.cards[i];
  }

  lemma EffectOfDelete(b: BoardState, e: BoardEdit)
    requires Numbered(b) && e.Delete? && UserDelete(b, e).result.Success?
    ensures Effect(b, e, 0, "", UserDelete(b, e).board.cards)
  {
    hide Normalize, Find;
    FindAfterRemove(b.cards, Pos(b.cards, e.n).value);
    FindAfterNormalize(RemoveAt(b.cards, Pos(b.cards, e.n).value));
    FoundNumber(b.cards);
  }

  lemma EffectOfSweep(b: BoardState, e: BoardEdit, now: nat)
    requires Numbered(b) && e.ArchiveColumn?
    ensures Effect(b, e, now, "", UserArchiveColumn(b, e, now).board.cards)
  {
    FindAfterSweep(b.cards, e.col, now);
    FindAfterNormalize(SweptAll(b.cards, e.col, now));
  }

  /** An edit that changes one card where it is. */
  predicate ChangesInPlace(e: BoardEdit) {
    e.Edit? || e.Assign? || e.Choose? || e.PostComment? || e.EditComment? || e.DeleteComment? || e.Archive? || e.Seen?
  }

  /** `b1` is `b` with what `CardAfter` says where the edit's card was. */
  ghost predicate PutsInPlace(b: BoardState, e: BoardEdit, now: nat, uuid: string, b1: BoardState)
    requires ChangesInPlace(e)
  {
    && Pos(b.cards, e.n).Some?
    && var i := Pos(b.cards, e.n).value;
       var c1 := CardAfter(b, e, now, uuid, b.cards[i]);
       c1.Some? && c1.value.n == e.n && b1 == b.(cards := Normalize(b.cards[i := c1.value]))
  }

  lemma PutSame(cards: seq<Card>, i: nat)
    requires i < |cards|
    ensures cards[i := cards[i]] == cards
  {
  }

  lemma EditPuts(b: BoardState, e: BoardEdit, now: nat, uuid: string)
    requires e.Edit? && UserEdit(b, e, now).result.Success?
    ensures PutsInPlace(b, e, now, uuid, UserEdit(b, e, now).board)
  {
    hide Normalize;
    PutSame(b.cards, Pos(b.cards, e.n).value);
  }

  lemma AssignPuts(b: BoardState, e: BoardEdit, now: nat, uuid: string)
    requires e.Assign? && UserAssign(b, e, now).result.Success?
    ensures PutsInPlace(b, e, now, uuid, UserAssign(b, e, now).board)
  {
    hide Normalize;
    PutSame(b.cards, Pos(b.cards, e.n).value);
  }

  lemma ChoosePuts(b: BoardState, e: BoardEdit, now: nat, uuid: string)
    requires e.Choose? && UserChoose(b, e, now).result.Success?
    ensures PutsInPlace(b, e, now, uuid, UserChoose(b, e, now).board)
  {
    hide Normalize;
    PutSame(b.cards, Pos(b.cards, e.n).value);
  }

  lemma CommentPuts(b: BoardState, e: BoardEdit, now: nat, uuid: string)
    requires e.PostComment? && UserComment(b, e, now, uuid).result.Success?
    ensures PutsInPlace(b, e, now, uuid, UserComment(b, e, now, uuid).board)
  {
    hide Normalize;
  }

  lemma EditCommentPuts(b: BoardState, e: BoardEdit, now: nat, uuid: string)
    requires e.EditComment? && UserEditComment(b, e).result.Success?
    ensures PutsInPlace(b, e, now, uuid, UserEditComment(b, e).board)
  {
    hide Normalize;
  }

  lemma DeleteCommentPuts(b: BoardState, e: BoardEdit, now: nat, uuid: string)
    requires e.DeleteComment? && UserDeleteComment(b, e).result.Success?
    ensures PutsInPlace(b, e, now, uuid, UserDeleteComment(b, e).board)
  {
    hide Normalize;
  }

  lemma ArchivePuts(b: BoardState, e: BoardEdit, now: nat, uuid: string)
    requires e.Archive? && UserArchive(b, e, now).result.Success?
    ensures PutsInPlace(b, e, now, uuid, UserArchive(b, e, now).board)
  {
    hide Normalize;
    PutSame(b.cards, Pos(b.cards, e.n).value);
  }

  lemma SeenPuts(b: BoardState, e: BoardEdit, now: nat, uuid: string)
    requires e.Seen? && UserSeen(b, e).result.Success?
    ensures PutsInPlace(b, e, now, uuid, UserSeen(b, e).board)
  {
    hide Normalize;
  }

  /** Such an edit puts what `CardAfter` says where the card was. */
  lemma InPlaceCards(b: BoardState, e: BoardEdit, now: nat, uuid: string)
    requires ChangesInPlace(e) && ApplyUser(b, e, now, uuid).result.Success?
    ensures PutsInPlace(b, e, now, uuid, ApplyUser(b, e, now, uuid).board)
  {
    hide PutsInPlace, UserEdit, UserAssign, UserChoose, UserComment, UserEditComment, UserDeleteComment, UserArchive, UserSeen;
    match e {
      case Edit(_, _, _, _) => EditPuts(b, e, now, uuid);
      case Assign(_, _) => AssignPuts(b, e, now, uuid);
      case Choose(_, _) => ChoosePuts(b, e, now, uuid);
      case PostComment(_, _, _) => CommentPuts(b, e, now, uuid);
      case EditComment(_, _, _, _) => EditCommentPuts(b, e, now, uuid);
      case DeleteComment(_, _) => DeleteCommentPuts(b, e, now, uuid);
      case Archive(_, _) => ArchivePuts(b, e, now, uuid);
      case Seen(_) => SeenPuts(b, e, now, uuid);
    }
  }

  lemma EffectInPlace(b: BoardState, e: BoardEdit, now: nat, uuid: string)
    requires Numbered(b) && ChangesInPlace(e) && ApplyUser(b, e, now, uuid).result.Success?
    ensures Effect(b, e, now, uuid, ApplyUser(b, e, now, uuid).board.cards)
    ensures ApplyUser(b, e, now, uuid).board.next == b.next
  {
    InPlaceCards(b, e, now, uuid);
    var i := Pos(b.cards, e.n).value;
    var c1 := CardAfter(b, e, now, uuid, b.cards[i]).value;
    FindAfterUpdate(b.cards, i, c1);
    FindAfterNormalize(b.cards[i := c1]);
    FoundNumber(b.cards);
    var cards1 := Normalize(b.cards[i := c1]);
    assert Find(b.cards, e.n) == Some(b.cards[i]);
    forall m ensures Find(cards1, m) == ExpectedAt(b, e, now, uuid, m) {
      if m == e.n {
        assert Find(b.cards[i := c1], m) == Some(c1);
      } else {
        assert Find(b.cards[i := c1], m) == Find(b.cards, m);
        UntouchedByOthers(b, e, now, uuid, m);
      }
    }
  }

  lemma UntouchedByOthers(b: BoardState, e: BoardEdit, now: nat, uuid: string, m: nat)
    requires ChangesInPlace(e) && m != e.n
    ensures ExpectedAt(b, e, now, uuid, m) == Find(b.cards, m)
  {
    FoundNumber(b.cards);
  }

  lemma EffectOfColDelete(b: BoardState, e: BoardEdit, now: nat)
    requires Numbered(b) && e.ColDelete? && UserColDelete(b, e, now).result.Success?
    ensures Effect(b, e, now, "", UserColDelete(b, e, now).board.cards)
  {
    hide Normalize, Place, Rehome;
    var ns := NumbersIn(b.cards, e.col);
    var dest := if e.dest.Some? then e.dest.value else FirstOther(b.columns, e.col);
    NumbersInColumn(b.cards, e.col);
    FindAfterRehome(b.cards, ns, dest, e.dest.Some?, now);
    FindAfterNormalize(Rehome(b.cards, ns, dest, e.dest.Some?, now).0);
  }

  /** Numbers are never given twice, and none is above the counter. */
  lemma NumbersKept(b: BoardState, e: BoardEdit, now: nat, uuid: string, b1: BoardState)
    requires Numbered(b) && b1.next == (if e.Add? then b.next + 1 else b.next)
    requires Effect(b, e, now, uuid, b1.cards)
    ensures Numbered(b1)
  {
    forall c | c in b1.cards ensures 1 <= c.n <= b1.next {
      FindMember(b1.cards, c);
      assert Find(b1.cards, c.n) == ExpectedAt(b, e, now, uuid, c.n);
      FoundMember(b.cards, c.n);
    }
  }

  // ---------- Counting events ----------

  /** How many events tell `id` about card `n`. */
  function Count(ev: seq<Event>, id: nat, n: nat): nat {
    if |ev| == 0 then 0 else (if ev[0].to == id && ev[0].n == n then 1 else 0) + Count(ev[1..], id, n)
  }

  lemma CountConcat(a: seq<Event>, b: seq<Event>, id: nat, n: nat)
    ensures Count(a + b, id, n) == Count(a, id, n) + Count(b, id, n)
  {
    if |a| == 0 {
      assert a + b == b;
    } else {
      assert (a + b)[1..] == a[1..] + b;
      CountConcat(a[1..], b, id, n);
    }
  }

  /** Stamping moves no event. */
  lemma CountStamp(ev: seq<Event>, cards: seq<Card>, id: nat, n: nat)
    ensures Count(Stamp(ev, cards), id, n) == Count(ev, id, n)
  {
    if |ev| != 0 {
      assert Stamp(ev, cards)[1..] == Stamp(ev[1..], cards);
      CountStamp(ev[1..], cards, id, n);
    }
  }

  // ---------- The telling theorem ----------

  /**
   A claude that holds card `n` before or after is owed an event when the card was active and its
   snapshot changes or it goes, when it is new, and whenever its assignee changes.
  */
  ghost predicate Owed(cards: seq<Card>, cards1: seq<Card>, id: nat, n: nat) {
    var c, c1 := Find(cards, n), Find(cards1, n);
    && (HeldBy(cards, n, id) || HeldBy(cards1, n, id))
    && SnapAt(cards, n) != SnapAt(cards1, n)
    && (c.Some? && c.value.archived ==> c1.Some? && c.value.assignee != c1.value.assignee)
  }

  /** An event is deserved: the user's, stamped with the card before, to a holder before or after, of a real change. */
  ghost predicate Deserved(cards: seq<Card>, cards1: seq<Card>, e: Event) {
    && e.actor.None?
    && e.before == SnapAt(cards, e.n)
    && (HeldBy(cards, e.n, e.to) || HeldBy(cards1, e.n, e.to))
    && (!e.change.Commented? ==> SnapAt(cards, e.n) != SnapAt(cards1, e.n))
  }

  ghost predicate TellsRight(cards: seq<Card>, cards1: seq<Card>, ev: seq<Event>) {
    && (forall id, n :: Count(ev, id, n) <= 1)
    && (forall id, n :: Owed(cards, cards1, id, n) ==> Count(ev, id, n) == 1)
    && (forall k :: 0 <= k < |ev| ==> Deserved(cards, cards1, ev[k]))
  }

  /**
   Over every user edit: a holder before and a holder after are told exactly once of an active card
   that changed or went, with its snapshot before the edit; and nobody is told of anything else.
  */
  lemma EveryEditTells(b: BoardState, e: BoardEdit, now: nat, uuid: string)
    requires Numbered(b) && ApplyUser(b, e, now, uuid).result.Success?
    ensures var o := ApplyUser(b, e, now, uuid);
            TellsRight(b.cards, o.board.cards, o.result.value.events)
  {
    match e {
      case ArchiveColumn(_) => SweepTells(b, e, now);
      case ColDelete(_, _) => ColDeleteTells(b, e, now);
      case ColAdd(_, _) => UserEffect(b, e, now, uuid);
      case ColEdit(_, _, _) => UserEffect(b, e, now, uuid);
      case ColMove(_, _) => UserEffect(b, e, now, uuid);
      case Add(_, _, _, _, _) => AddTells(b, e, now);
      case Move(_, _, _) => MoveTells(b, e, now);
      case Delete(_) => DeleteTells(b, e);
      case _ => InPlaceTells(b, e, now, uuid);
    }
  }

  /** Events about one card, to different claudes, that cover who is owed. */
  lemma OneCardTells(cards: seq<Card>, cards1: seq<Card>, ev: seq<Event>, n: nat)
    requires forall m :: m != n ==> Find(cards, m) == Find(cards1, m)
    requires |ev| <= 2 && (|ev| == 2 ==> ev[0].to != ev[1].to)
    requires forall k :: 0 <= k < |ev| ==> ev[k].n == n && Deserved(cards, cards1, ev[k])
    requires forall id :: Owed(cards, cards1, id, n) ==> (|ev| > 0 && ev[0].to == id) || (|ev| > 1 && ev[1].to == id)
    ensures TellsRight(cards, cards1, ev)
  {
    forall id, m ensures Count(ev, id, m) <= 1 && (Owed(cards, cards1, id, m) ==> Count(ev, id, m) == 1) {
      CountShort(ev, id, m);
    }
  }

  lemma AddTells(b: BoardState, e: BoardEdit, now: nat)
    requires Numbered(b) && e.Add? && UserAdd(b, e, now).result.Success?
    ensures TellsRight(b.cards, UserAdd(b, e, now).board.cards, UserAdd(b, e, now).result.value.events)
  {
    hide Normalize, Stamp, Find;
    EffectOfAdd(b, e, now);
    var cards1 := UserAdd(b, e, now).board.cards;
    FoundMember(b.cards, b.next + 1);
    forall m | m != b.next + 1 ensures Find(b.cards, m) == Find(cards1, m) {
      assert Find(cards1, m) == ExpectedAt(b, e, now, "", m);
    }
    assert Find(cards1, b.next + 1) == ExpectedAt(b, e, now, "", b.next + 1);
    OneCardTells(b.cards, cards1, UserAdd(b, e, now).result.value.events, b.next + 1);
  }

  /** An edit of card `n` leaves the others, and makes of card `n` what `CardAfter` says. */
  lemma OnlyThat(b: BoardState, e: BoardEdit, now: nat, uuid: string, cards1: seq<Card>)
    requires ChangesInPlace(e) || e.Move? || e.Delete?
    requires Effect(b, e, now, uuid, cards1) && Pos(b.cards, e.n).Some?
    ensures forall m :: m != e.n ==> Find(b.cards, m) == Find(cards1, m)
    ensures Find(cards1, e.n) == CardAfter(b, e, now, uuid, b.cards[Pos(b.cards, e.n).value])
  {
    FoundNumber(b.cards);
    forall m | m != e.n ensures Find(b.cards, m) == Find(cards1, m) {
      assert Find(cards1, m) == ExpectedAt(b, e, now, uuid, m);
    }
    assert Find(cards1, e.n) == ExpectedAt(b, e, now, uuid, e.n);
  }

  lemma MoveTells(b: BoardState, e: BoardEdit, now: nat)
    requires Numbered(b) && e.Move? && UserMove(b, e, now).result.Success?
    ensures TellsRight(b.cards, UserMove(b, e, now).board.cards, UserMove(b, e, now).result.value.events)
  {
    hide Normalize, Place;
    EffectOfMove(b, e, now);
    var cards1 := UserMove(b, e, now).board.cards;
    OnlyThat(b, e, now, "", cards1);
    OneCardTells(b.cards, cards1, UserMove(b, e, now).result.value.events, e.n);
  }

  lemma DeleteTells(b: BoardState, e: BoardEdit)
    requires Numbered(b) && e.Delete? && UserDelete(b, e).result.Success?
    ensures TellsRight(b.cards, UserDelete(b, e).board.cards, UserDelete(b, e).result.value.events)
  {
    EffectOfDelete(b, e);
    var cards1 := UserDelete(b, e).board.cards;
    OnlyThat(b, e, 0, "", cards1);
    OneCardTells(b.cards, cards1, UserDelete(b, e).result.value.events, e.n);
  }

  lemma InPlaceTells(b: BoardState, e: BoardEdit, now: nat, uuid: string)
    requires Numbered(b) && ChangesInPlace(e) && ApplyUser(b, e, now, uuid).result.Success?
    ensures var o := ApplyUser(b, e, now, uuid);
            TellsRight(b.cards, o.board.cards, o.result.value.events)
  {
    hide Normalize, ApplyUser, CardAfter, Effect, Covers, TellsRight, Numbered;
    var cards1 := ApplyUser(b, e, now, uuid).board.cards;
    EffectInPlace(b, e, now, uuid);
    InPlaceCards(b, e, now, uuid);
    OnlyThat(b, e, now, uuid, cards1);
    FoundMember(b.cards, e.n);
    var c := b.cards[Pos(b.cards, e.n).value];
    var c1 := CardAfter(b, e, now, uuid, c).value;
    InPlaceEvents(b, e, now, uuid, c, c1);
    CoveredTells(b.cards, cards1, ApplyUser(b, e, now, uuid).result.value.events, c, c1);
  }

  /** Events that cover one card tell what they should. */
  lemma CoveredTells(cards: seq<Card>, cards1: seq<Card>, ev: seq<Event>, c: Card, c1: Card)
    requires Find(cards, c.n) == Some(c) && Find(cards1, c.n) == Some(c1) && Covers(ev, c, c1)
    requires forall m :: m != c.n ==> Find(cards, m) == Find(cards1, m)
    ensures TellsRight(cards, cards1, ev)
  {
    hide Find, TellsRight;
    OneCardTells(cards, cards1, ev, c.n);
  }

  /** Events of an edit that made `c1` of card `c`: to both holders when the assignee changed, to the one holder otherwise. */
  ghost predicate Covers(ev: seq<Event>, c: Card, c1: Card) {
    && |ev| <= 2 && (|ev| == 2 ==> ev[0].to != ev[1].to)
    && (forall k :: 0 <= k < |ev| ==>
                      && ev[k].n == c.n && ev[k].actor.None? && ev[k].before == Some(SnapOf(c))
                      && (c.assignee == Some(ev[k].to) || c1.assignee == Some(ev[k].to))
                      && (!ev[k].change.Commented? ==> SnapOf(c) != SnapOf(c1)))
    && (SnapOf(c) != SnapOf(c1) ==>
          forall id :: c.assignee == Some(id) || c1.assignee == Some(id) ==>
                         (|ev| > 0 && ev[0].to == id) || (|ev| > 1 && ev[1].to == id))
  }

  lemma InPlaceEvents(b: BoardState, e: BoardEdit, now: nat, uuid: string, c: Card, c1: Card)
    requires ChangesInPlace(e) && ApplyUser(b, e, now, uuid).result.Success?
    requires Find(b.cards, e.n) == Some(c) && CardAfter(b, e, now, uuid, c) == Some(c1)
    ensures Covers(ApplyUser(b, e, now, uuid).result.value.events, c, c1)
  {
    hide Normalize, Pos;
    if e.Edit? {
      CoveredBy(b.cards, c, c1, Edited, UserEdit(b, e, now).result.value.events);
    } else if e.Assign? {
      AssignCovers(b, e, now, c, c1);
    } else if e.PostComment? {
      CoveredBy(b.cards, c, c1, Commented(uuid, e.text, e.images), UserComment(b, e, now, uuid).result.value.events);
    } else {
      QuietCovers(b, e, now, uuid, c, c1);
    }
  }

  lemma AssignCovers(b: BoardState, e: BoardEdit, now: nat, c: Card, c1: Card)
    requires e.Assign? && UserAssign(b, e, now).result.Success?
    requires Find(b.cards, e.n) == Some(c) && CardAfter(b, e, now, "", c) == Some(c1)
    ensures Covers(UserAssign(b, e, now).result.value.events, c, c1)
  {
  }

  lemma QuietCovers(b: BoardState, e: BoardEdit, now: nat, uuid: string, c: Card, c1: Card)
    requires e.Choose? || e.EditComment? || e.DeleteComment? || e.Archive? || e.Seen?
    requires ApplyUser(b, e, now, uuid).result.Success?
    requires Find(b.cards, e.n) == Some(c) && CardAfter(b, e, now, uuid, c) == Some(c1)
    ensures Covers(ApplyUser(b, e, now, uuid).result.value.events, c, c1)
  {
    if e.Choose? {
      CoveredBy(b.cards, c, c1, Chose(e.choice), UserChoose(b, e, now).result.value.events);
    } else if e.Archive? {
      CoveredBy(b.cards, c, c1, Archived(e.archive), UserArchive(b, e, now).result.value.events);
    } else if e.EditComment? {
      CoveredBy(b.cards, c, c1, Edited, UserEditComment(b, e).result.value.events);
    } else if e.DeleteComment? {
      CoveredBy(b.cards, c, c1, Edited, UserDeleteComment(b, e).result.value.events);
    } else {
      CoveredBy(b.cards, c, c1, Edited, UserSeen(b, e).result.value.events);
    }
  }

  /** One event to the unchanged assignee, or none when the snapshot stayed. */
  lemma CoveredBy(cards: seq<Card>, c: Card, c1: Card, change: Change, ev: seq<Event>)
    requires Find(cards, c.n) == Some(c) && c1.n == c.n && c1.assignee == c.assignee
    requires ev == Stamp(if SnapOf(c) != SnapOf(c1) || change.Commented? then Tell(c1, None, change) else [], cards)
    ensures Covers(ev, c, c1)
  {
  }

  lemma CountShort(ev: seq<Event>, id: nat, n: nat)
    requires |ev| <= 2
    ensures Count(ev, id, n) == (if |ev| > 0 && ev[0].to == id && ev[0].n == n then 1 else 0)
                                + (if |ev| > 1 && ev[1].to == id && ev[1].n == n then 1 else 0)
  {
    if |ev| == 2 {
      assert ev[1..] == [ev[1]];
      assert ev[1..][1..] == [];
    } else if |ev| == 1 {
      assert ev[1..] == [];
    }
  }

  /** Archiving a column tells of exactly its active cards. */
  lemma {:induction false} SweepCounts(cards: seq<Card>, col: nat, now: nat, id: nat, n: nat)
    requires Distinct(cards)
    ensures Count(SweepEvents(cards, col, now), id, n) ==
            if HeldBy(cards, n, id) && Sweeps(Find(cards, n).value, col) then 1 else 0
  {
    if |cards| != 0 {
      var head, rest := cards[0], cards[1..];
      var first := if Sweeps(head, col) then Tell(Swept(head, col, now), None, Archived(true)) else [];
      FindCons(cards, n);
      SweepCounts(rest, col, now, id, n);
      CountConcat(first, SweepEvents(rest, col, now), id, n);
      CountShort(first, id, n);
    }
  }

  lemma FindCons(cards: seq<Card>, n: nat)
    requires |cards| != 0 && Distinct(cards)
    ensures Distinct(cards[1..])
    ensures Find(cards, n) == if n == cards[0].n then Some(cards[0]) else Find(cards[1..], n)
    ensures Find(cards[1..], cards[0].n).None?
  {
    FoundMember(cards[1..], cards[0].n);
  }

  lemma {:induction false} SweepEventsAre(cards: seq<Card>, col: nat, now: nat, k: nat)
    requires Distinct(cards) && k < |SweepEvents(cards, col, now)|
    ensures var e := SweepEvents(cards, col, now)[k];
            && e.actor.None? && e.change == Archived(true)
            && HeldBy(cards, e.n, e.to) && Sweeps(Find(cards, e.n).value, col) && e.title == Find(cards, e.n).value.title
  {
    var head, rest := cards[0], cards[1..];
    var first := if Sweeps(head, col) then Tell(Swept(head, col, now), None, Archived(true)) else [];
    var e := SweepEvents(cards, col, now)[k];
    FindCons(cards, e.n);
    if k >= |first| {
      SweepEventsAre(rest, col, now, k - |first|);
    }
  }

  /** Events that count one for each holder of a changed active card, where no assignee changes. */
  lemma CountedTells(cards: seq<Card>, cards1: seq<Card>, ev: seq<Event>)
    requires forall m :: Find(cards, m).Some? == Find(cards1, m).Some?
    requires forall m :: Find(cards, m).Some? ==> Find(cards, m).value.assignee == Find(cards1, m).value.assignee
    requires forall id, n :: Count(ev, id, n) ==
                             if HeldBy(cards, n, id) && !Find(cards, n).value.archived && SnapAt(cards, n) != SnapAt(cards1, n) then 1 else 0
    requires forall k :: 0 <= k < |ev| ==> Deserved(cards, cards1, ev[k])
    ensures TellsRight(cards, cards1, ev)
  {
    hide Normalize;
  }

  lemma SweepTells(b: BoardState, e: BoardEdit, now: nat)
    requires Numbered(b) && e.ArchiveColumn?
    ensures TellsRight(b.cards, UserArchiveColumn(b, e, now).board.cards, UserArchiveColumn(b, e, now).result.value.events)
  {
    hide Normalize, Count;
    EffectOfSweep(b, e, now);
    var cards1 := UserArchiveColumn(b, e, now).board.cards;
    var ev := UserArchiveColumn(b, e, now).result.value.events;
    var raw := SweepEvents(b.cards, e.col, now);
    forall m ensures Find(cards1, m) == ExpectedAt(b, e, now, "", m) {
    }
    forall id, n ensures Count(ev, id, n) ==
                         if HeldBy(b.cards, n, id) && !Find(b.cards, n).value.archived && SnapAt(b.cards, n) != SnapAt(cards1, n) then 1 else 0 {
      CountStamp(raw, b.cards, id, n);
      SweepCounts(b.cards, e.col, now, id, n);
    }
    forall k | 0 <= k < |ev| ensures Deserved(b.cards, cards1, ev[k]) {
      SweepEventsAre(b.cards, e.col, now, k);
    }
    CountedTells(b.cards, cards1, ev);
  }

  /** Rehoming tells of exactly the active cards among `ns`. */
  lemma {:induction false} RehomeCounts(cards: seq<Card>, ns: seq<nat>, dest: nat, picked: bool, now: nat, id: nat, n: nat)
    requires Distinct(cards) && NoRepeats(ns)
    requires forall m :: m in ns ==> Find(cards, m).Some?
    ensures Count(Rehome(cards, ns, dest, picked, now).1, id, n) ==
            if n in ns && HeldBy(cards, n, id) && !Find(cards, n).value.archived then 1 else 0
    decreases |ns|
  {
    if |ns| != 0 {
      assert ns[0] in ns;
      var i := Pos(cards, ns[0]).value;
      var c1 := Rehomed(cards[i], dest, picked, now);
      var placed := Place(RemoveAt(cards, i), c1, dest, None, false);
      FindAfterReplace(cards, i, c1, dest, None, false);
      assert forall m :: m in ns <==> m == ns[0] || m in ns[1..];
      assert ns[0] !in ns[1..];
      RehomeCounts(placed, ns[1..], dest, picked, now, id, n);
      CountConcat(RehomeEvent(cards[i], picked), Rehome(placed, ns[1..], dest, picked, now).1, id, n);
      CountShort(RehomeEvent(cards[i], picked), id, n);
    }
  }

  lemma {:induction false} RehomeEventsAre(cards: seq<Card>, ns: seq<nat>, dest: nat, picked: bool, now: nat, k: nat)
    requires Distinct(cards) && NoRepeats(ns)
    requires forall m :: m in ns ==> Find(cards, m).Some?
    requires k < |Rehome(cards, ns, dest, picked, now).1|
    ensures var e := Rehome(cards, ns, dest, picked, now).1[k];
            && e.actor.None? && e.change == (if picked then Moved else Archived(true))
            && e.n in ns && HeldBy(cards, e.n, e.to) && !Find(cards, e.n).value.archived && e.title == Find(cards, e.n).value.title
    decreases |ns|
  {
    hide Normalize, Place;
    assert ns[0] in ns;
    var i := Pos(cards, ns[0]).value;
    var c1 := Rehomed(cards[i], dest, picked, now);
    var placed := Place(RemoveAt(cards, i), c1, dest, None, false);
    FindAfterReplace(cards, i, c1, dest, None, false);
    assert forall m :: m in ns <==> m == ns[0] || m in ns[1..];
    assert ns[0] !in ns[1..];
    var first := RehomeEvent(cards[i], picked);
    if k >= |first| {
      RehomeEventsAre(placed, ns[1..], dest, picked, now, k - |first|);
    }
  }

  lemma ColDeleteTells(b: BoardState, e: BoardEdit, now: nat)
    requires Numbered(b) && e.ColDelete? && UserColDelete(b, e, now).result.Success?
    ensures TellsRight(b.cards, UserColDelete(b, e, now).board.cards, UserColDelete(b, e, now).result.value.events)
  {
    hide Normalize, Rehome, Count, Owed, Find;
    EffectOfColDelete(b, e, now);
    var cards1 := UserColDelete(b, e, now).board.cards;
    var ev := UserColDelete(b, e, now).result.value.events;
    var ns := NumbersIn(b.cards, e.col);
    var dest := if e.dest.Some? then e.dest.value else FirstOther(b.columns, e.col);
    var raw := Rehome(b.cards, ns, dest, e.dest.Some?, now).1;
    NumbersInColumn(b.cards, e.col);
    forall m ensures Find(cards1, m) == ExpectedAt(b, e, now, "", m) {
    }
    forall id, n ensures Count(ev, id, n) ==
                         if HeldBy(b.cards, n, id) && !Find(b.cards, n).value.archived && SnapAt(b.cards, n) != SnapAt(cards1, n) then 1 else 0 {
      CountStamp(raw, b.cards, id, n);
      RehomeCounts(b.cards, ns, dest, e.dest.Some?, now, id, n);
    }
    forall k | 0 <= k < |ev| ensures Deserved(b.cards, cards1, ev[k]) {
      RehomeEventsAre(b.cards, ns, dest, e.dest.Some?, now, k);
    }
    CountedTells(b.cards, cards1, ev);
  }

}
