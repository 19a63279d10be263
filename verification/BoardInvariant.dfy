/** What every reachable board keeps, whatever the user and the claudes did to it. */
module BoardInvariant {
  import opened Wrappers
  import opened BoardState
  import opened BoardCards
  import opened BoardTelling

  /** In an existing column, within every cap, and its pick among its choices. */
  ghost predicate CardOk(columns: seq<Column>, c: Card) {
    && HasCol(columns, c.col)
    && |c.images| <= MAX_IMAGES
    && |c.comments| <= MAX_COMMENTS
    && (forall m :: m in c.comments ==> |m.images| <= MAX_IMAGES)
    && |c.choices| <= MAX_CHOICES
    && (c.chosen.Some? ==> c.chosen.value in c.choices)
  }

  ghost predicate CardsOk(columns: seq<Column>, next: nat, cards: seq<Card>) {
    && Distinct(cards)
    && forall c :: c in cards ==> 1 <= c.n <= next && CardOk(columns, c)
  }

  ghost predicate ColumnsOk(columns: seq<Column>, nextCol: nat) {
    && 1 <= |columns| <= MAX_COLUMNS
    && (forall i, j :: 0 <= i < j < |columns| ==> columns[i].id != columns[j].id)
    && (forall c :: c in columns ==> 1 <= c.id <= nextCol)
  }

  ghost predicate ProposalsOk(ps: seq<Proposal>, nextProp: nat) {
    && |ps| <= MAX_PROPOSALS
    && (forall i, j :: 0 <= i < j < |ps| ==> ps[i].id != ps[j].id)
    && (forall p :: p in ps ==> 1 <= p.id <= nextProp && 1 <= |p.changes| <= MAX_PROP_CHANGES)
  }

  /** Pinned cards come before the others, in every column. */
  ghost predicate PinnedFirst(cards: seq<Card>) {
    forall i, j :: 0 <= i < j < |cards| && IsPinned(cards[j]) ==> IsPinned(cards[i])
  }

  ghost predicate WellFormed(b: BoardState) {
    && CardsOk(b.columns, b.next, b.cards)
    && ColumnsOk(b.columns, b.nextCol)
    && ProposalsOk(b.proposals, b.nextProp)
    && PinnedFirst(b.cards)
  }

  /** `b1` keeps the counters and brings no used number back. */
  ghost predicate NeverReuses(b: BoardState, b1: BoardState) {
    && b.next <= b1.next && b.nextCol <= b1.nextCol && b.nextProp <= b1.nextProp
    && forall n :: 1 <= n <= b.next && Find(b.cards, n).None? ==> Find(b1.cards, n).None?
  }

  // ---------- Columns ----------

  lemma HasColMember(columns: seq<Column>, id: nat)
    ensures HasCol(columns, id) <==> exists c :: c in columns && c.id == id
  {
    if c :| c in columns && c.id == id {
      var i :| 0 <= i < |columns| && columns[i] == c;
    }
  }

  /** Columns with the same ids have the same columns. */
  lemma SameCols(a: seq<Column>, b: seq<Column>)
    requires forall c :: c in a ==> exists d :: d in b && d.id == c.id
    ensures forall id :: HasCol(a, id) ==> HasCol(b, id)
  {
    forall id | HasCol(a, id) ensures HasCol(b, id) {
      HasColMember(a, id);
      HasColMember(b, id);
    }
  }

  lemma NormalizeKeeps(columns: seq<Column>, next: nat, cards: seq<Card>)
    requires CardsOk(columns, next, cards)
    ensures CardsOk(columns, next, Normalize(cards)) && PinnedFirst(Normalize(cards))
  {
    FindAfterNormalize(cards);
    PinnedMembers(cards);
    var p, r := PinnedOf(cards), Normalize(cards);
    forall i, j | 0 <= i < j < |r| ensures IsPinned(r[j]) ==> IsPinned(r[i]) {
      if j < |p| {
        assert r[i] in p;
      } else {
        assert r[j] in OthersOf(cards);
      }
    }
  }

  // ---------- User edits ----------

  /** The columns of `b` are all in `b1`, which is in order too. */
  ghost predicate ColumnsGrow(b: BoardState, b1: BoardState) {
    && ColumnsOk(b1.columns, b1.nextCol) && b.nextCol <= b1.nextCol
    && forall id :: HasCol(b.columns, id) ==> HasCol(b1.columns, id)
  }

  lemma ColAddGrows(b: BoardState, e: BoardEdit)
    requires ColumnsOk(b.columns, b.nextCol) && e.ColAdd? && UserColAdd(b, e).result.Success?
    ensures ColumnsGrow(b, UserColAdd(b, e).board)
  {
    var b1 := UserColAdd(b, e).board;
    forall c | c in b.columns ensures c in b1.columns {
    }
    forall i | 0 <= i < |b.columns| ensures b.columns[i].id <= b.nextCol {
      assert b.columns[i] in b.columns;
    }
    SameCols(b.columns, b1.columns);
  }

  lemma ColEditGrows(b: BoardState, e: BoardEdit)
    requires ColumnsOk(b.columns, b.nextCol) && e.ColEdit? && UserColEdit(b, e).result.Success?
    ensures ColumnsGrow(b, UserColEdit(b, e).board)
  {
    var b1 := UserColEdit(b, e).board;
    forall k | 0 <= k < |b.columns| ensures b1.columns[k].id == b.columns[k].id && b1.columns[k] in b1.columns {
    }
    forall c | c in b1.columns ensures 1 <= c.id <= b.nextCol {
      var k :| 0 <= k < |b1.columns| && b1.columns[k] == c;
      assert b.columns[k] in b.columns;
    }
    SameCols(b.columns, b1.columns);
  }

  lemma WithoutOne(columns: seq<Column>, i: nat)
    requires i < |columns| && forall j, k :: 0 <= j < k < |columns| ==> columns[j].id != columns[k].id
    ensures var rest := RemoveAt(columns, i);
            && |rest| == |columns| - 1
            && (forall j, k :: 0 <= j < k < |rest| ==> rest[j].id != rest[k].id)
            && (forall j :: 0 <= j < |rest| ==> rest[j].id != columns[i].id)
            && (forall c :: c in columns <==> c in rest || c == columns[i])
  {
    var rest := RemoveAt(columns, i);
    assert forall k :: 0 <= k < |rest| ==> rest[k] == if k < i then columns[k] else columns[k + 1];
    forall c | c in columns && c != columns[i] ensures c in rest {
      var k :| 0 <= k < |columns| && columns[k] == c;
      assert rest[if k < i then k else k - 1] == c;
    }
  }

  lemma MovedOk(columns: seq<Column>, nextCol: nat, i: nat, k: nat)
    requires ColumnsOk(columns, nextCol) && i < |columns| && k < |columns|
    ensures var r := InsertAt(RemoveAt(columns, i), k, columns[i]);
            ColumnsOk(r, nextCol) && forall id :: HasCol(columns, id) ==> HasCol(r, id)
  {
    hide RemoveAt, InsertAt;
    WithoutOne(columns, i);
    InsertIsPermutation(RemoveAt(columns, i), k, columns[i]);
    SameCols(columns, InsertAt(RemoveAt(columns, i), k, columns[i]));
  }

  lemma ColMoveGrows(b: BoardState, e: BoardEdit)
    requires ColumnsOk(b.columns, b.nextCol) && e.ColMove? && UserColMove(b, e).result.Success?
    ensures ColumnsGrow(b, UserColMove(b, e).board)
  {
    hide InsertAt, Normalize, ColumnsOk, HasCol;
    var i := ColPos(b.columns, e.col).value;
    var rest := RemoveAt(b.columns, i);
    var at := if e.before.Some? then ColPos(rest, e.before.value) else None;
    MovedOk(b.columns, b.nextCol, i, if at.Some? then at.value else |rest|);
  }

  lemma ColumnEdits(b: BoardState, e: BoardEdit, now: nat)
    requires ColumnsOk(b.columns, b.nextCol)
    requires e.ColAdd? || e.ColEdit? || e.ColMove?
    requires ApplyUser(b, e, now, "").result.Success?
    ensures ColumnsGrow(b, ApplyUser(b, e, now, "").board)
  {
    if e.ColAdd? {
      ColAddGrows(b, e);
    } else if e.ColEdit? {
      ColEditGrows(b, e);
    } else {
      ColMoveGrows(b, e);
    }
  }

  lemma InsertIsPermutation(rest: seq<Column>, k: nat, c: Column)
    requires k <= |rest|
    requires forall i, j :: 0 <= i < j < |rest| ==> rest[i].id != rest[j].id
    requires forall i :: 0 <= i < |rest| ==> rest[i].id != c.id
    ensures var r := InsertAt(rest, k, c);
            && |r| == |rest| + 1
            && (forall i, j :: 0 <= i < j < |r| ==> r[i].id != r[j].id)
            && (forall x :: x in r <==> x in rest || x == c)
  {
    var r := InsertAt(rest, k, c);
    assert forall i :: 0 <= i < |r| ==> r[i] == if i < k then rest[i] else if i == k then c else rest[i - 1];
    forall x | x in rest ensures x in r {
      var i :| 0 <= i < |rest| && rest[i] == x;
      assert r[if i < k then i else i + 1] == x;
    }
    assert r[k] == c;
  }

  /** A column apart from the rest, in front of a list of some of the rest. */
  lemma ColumnInFront(first: Column, r: seq<Column>)
    requires forall c :: c in r ==> c.id != first.id
    requires forall i, j :: 0 <= i < j < |r| ==> r[i].id != r[j].id
    ensures forall i, j :: 0 <= i < j < |[first] + r| ==> ([first] + r)[i].id != ([first] + r)[j].id
    ensures forall c :: c in [first] + r <==> c == first || c in r
  {
    forall i, j | 0 <= i < j < |[first] + r| ensures ([first] + r)[i].id != ([first] + r)[j].id {
      assert r[j - 1] in r;
    }
  }

  lemma FirstApart(columns: seq<Column>)
    requires |columns| > 0 && forall i, j :: 0 <= i < j < |columns| ==> columns[i].id != columns[j].id
    ensures forall c :: c in columns[1..] ==> c.id != columns[0].id
    ensures forall c :: c in columns <==> c == columns[0] || c in columns[1..]
  {
    forall c | c in columns[1..] ensures c.id != columns[0].id {
      var k :| 0 <= k < |columns[1..]| && columns[1..][k] == c;
      assert columns[k + 1] == c;
    }
    assert columns == [columns[0]] + columns[1..];
  }

  lemma {:induction false} WithoutColumns(columns: seq<Column>, col: nat)
    requires forall i, j :: 0 <= i < j < |columns| ==> columns[i].id != columns[j].id
    ensures var r := WithoutCol(columns, col);
            && (forall c :: c in r <==> c in columns && c.id != col)
            && (forall i, j :: 0 <= i < j < |r| ==> r[i].id != r[j].id)
            && |r| == |columns| - (if HasCol(columns, col) then 1 else 0)
  {
    if |columns| != 0 {
      WithoutColumns(columns[1..], col);
      FirstApart(columns);
      ColumnInFront(columns[0], WithoutCol(columns[1..], col));
      HasColMember(columns[1..], col);
      HasColMember(columns, col);
    }
  }

  /** After deleting `col`, its cards' new column and everyone else's are still there. */
  lemma ColDeleteColumns(b: BoardState, e: BoardEdit, now: nat)
    requires ColumnsOk(b.columns, b.nextCol) && e.ColDelete? && UserColDelete(b, e, now).result.Success?
    ensures var b1 := UserColDelete(b, e, now).board;
            var dest := if e.dest.Some? then e.dest.value else FirstOther(b.columns, e.col);
            && ColumnsOk(b1.columns, b1.nextCol)
            && HasCol(b1.columns, dest)
            && forall id :: HasCol(b.columns, id) && id != e.col ==> HasCol(b1.columns, id)
  {
    var b1 := UserColDelete(b, e, now).board;
    WithoutColumns(b.columns, e.col);
    forall id | HasCol(b.columns, id) && id != e.col ensures HasCol(b1.columns, id) {
      HasColMember(b.columns, id);
      HasColMember(b1.columns, id);
    }
    if e.dest.None? {
      assert b1.columns[0] in b1.columns;
      HasColMember(b1.columns, b1.columns[0].id);
    }
  }

  predicate EditsColumns(e: BoardEdit) {
    e.ColAdd? || e.ColEdit? || e.ColMove? || e.ColDelete?
  }

  /** An edit of cards leaves the columns and the proposals alone. */
  lemma CardEditsKeepColumns(b: BoardState, e: BoardEdit, now: nat, uuid: string)
    requires !EditsColumns(e) && ApplyUser(b, e, now, uuid).result.Success?
    ensures var b1 := ApplyUser(b, e, now, uuid).board;
            b1.columns == b.columns && b1.nextCol == b.nextCol && b1.proposals == b.proposals && b1.nextProp == b.nextProp
  {
    if ChangesInPlace(e) {
      InPlaceCards(b, e, now, uuid);
    }
  }

  /** A well-formed card stays so when a comment is posted, edited or deleted. */
  lemma CommentEditOk(b: BoardState, e: BoardEdit, now: nat, uuid: string, c: Card)
    requires e.PostComment? || e.EditComment? || e.DeleteComment?
    requires Find(b.cards, e.n) == Some(c) && CardOk(b.columns, c) && c.n == e.n
    requires ApplyUser(b, e, now, uuid).result.Success?
    ensures CardAfter(b, e, now, uuid, c).Some?
    ensures CardOk(b.columns, CardAfter(b, e, now, uuid, c).value)
  {
    var c1 := CardAfter(b, e, now, uuid, c).value;
    if e.PostComment? {
      assert UserComment(b, e, now, uuid).result.Success?;
    } else if e.EditComment? {
      assert UserEditComment(b, e).result.Success?;
      var k := CommentPos(c.comments, e.id).value;
      forall m | m in c1.comments ensures |m.images| <= MAX_IMAGES {
        assert m in c.comments || m == c.comments[k].(text := e.text, images := e.images);
      }
    } else {
      assert UserDeleteComment(b, e).result.Success?;
      forall m | m in c1.comments ensures m in c.comments {
      }
    }
  }

  /** A well-formed card stays so when its text, images, choice or marks change. */
  lemma MarkEditOk(b: BoardState, e: BoardEdit, now: nat, uuid: string, c: Card)
    requires e.Edit? || e.Assign? || e.Choose? || e.Archive? || e.Seen?
    requires Find(b.cards, e.n) == Some(c) && CardOk(b.columns, c) && c.n == e.n
    requires ApplyUser(b, e, now, uuid).result.Success?
    ensures CardAfter(b, e, now, uuid, c).Some?
    ensures CardOk(b.columns, CardAfter(b, e, now, uuid, c).value)
  {
    hide Normalize, Pos;
    if e.Choose? {
      assert UserChoose(b, e, now).result.Success?;
    } else if e.Edit? {
      assert UserEdit(b, e, now).result.Success?;
    }
  }

  /** A well-formed card stays so under an accepted edit. */
  lemma ColumnEditLeavesCardOk(b: BoardState, e: BoardEdit, now: nat, uuid: string, c: Card)
    requires WellFormed(b) && c in b.cards && ApplyUser(b, e, now, uuid).result.Success? && EditsColumns(e)
    ensures var c1 := CardAfter(b, e, now, uuid, c);
            c1.Some? ==> CardOk(ApplyUser(b, e, now, uuid).board.columns, c1.value) && c1.value.n == c.n
  {
    hide ColPos, HasCol;
    hide Normalize;
    if e.ColDelete? {
      ColDeleteColumns(b, e, now);
    } else {
      ColumnEdits(b, e, now);
    }
  }

  lemma CardEditLeavesCardOk(b: BoardState, e: BoardEdit, now: nat, uuid: string, c: Card)
    requires WellFormed(b) && c in b.cards && ApplyUser(b, e, now, uuid).result.Success? && !EditsColumns(e)
    ensures var c1 := CardAfter(b, e, now, uuid, c);
            c1.Some? ==> CardOk(ApplyUser(b, e, now, uuid).board.columns, c1.value) && c1.value.n == c.n
  {
    hide Normalize, ColumnsOk;
    FindMember(b.cards, c);
    CardEditsKeepColumns(b, e, now, uuid);
    if ChangesInPlace(e) && e.n == c.n {
      if e.PostComment? || e.EditComment? || e.DeleteComment? {
        CommentEditOk(b, e, now, uuid, c);
      } else {
        MarkEditOk(b, e, now, uuid, c);
      }
    } else if e.Move? {
      assert UserMove(b, e, now).result.Success?;
    }
  }

  lemma CardAfterOk(b: BoardState, e: BoardEdit, now: nat, uuid: string, c: Card)
    requires WellFormed(b) && c in b.cards && ApplyUser(b, e, now, uuid).result.Success?
    ensures var c1 := CardAfter(b, e, now, uuid, c);
            c1.Some? ==> CardOk(ApplyUser(b, e, now, uuid).board.columns, c1.value) && c1.value.n == c.n
  {
    hide ApplyUser, CardAfter, CardOk, WellFormed;
    if EditsColumns(e) {
      ColumnEditLeavesCardOk(b, e, now, uuid, c);
    } else {
      CardEditLeavesCardOk(b, e, now, uuid, c);
    }
  }

  lemma UserKeepsColumns(b: BoardState, e: BoardEdit, now: nat, uuid: string)
    requires WellFormed(b) && ApplyUser(b, e, now, uuid).result.Success?
    ensures var b1 := ApplyUser(b, e, now, uuid).board;
            && ColumnsOk(b1.columns, b1.nextCol) && b.nextCol <= b1.nextCol
            && b1.proposals == b.proposals && b1.nextProp == b.nextProp
  {
    if EditsColumns(e) {
      if e.ColDelete? {
        ColDeleteColumns(b, e, now);
      } else {
        ColumnEdits(b, e, now);
      }
    } else {
      CardEditsKeepColumns(b, e, now, uuid);
    }
  }

  lemma {:induction false} NormalizedParts(p: seq<Card>, o: seq<Card>)
    requires forall c :: c in p ==> IsPinned(c)
    requires forall c :: c in o ==> !IsPinned(c)
    ensures PinnedOf(p + o) == p && OthersOf(p + o) == o
  {
    if |p| != 0 {
      assert (p + o)[1..] == p[1..] + o;
      NormalizedParts(p[1..], o);
    } else if |o| != 0 {
      assert p + o == o;
      assert o[0] in o;
      assert [] + o[1..] == o[1..];
      NormalizedParts([], o[1..]);
    }
  }

  /** Display order is stable: normalizing a second time moves nothing. */
  lemma NormalizeTwice(cards: seq<Card>)
    ensures Normalize(Normalize(cards)) == Normalize(cards)
  {
    PinnedMembers(cards);
    NormalizedParts(PinnedOf(cards), OthersOf(cards));
  }

  /** In display order already: nothing moves. */
  lemma {:induction false} PinnedFirstStays(cards: seq<Card>)
    requires PinnedFirst(cards)
    ensures Normalize(cards) == cards
  {
    if |cards| != 0 {
      var rest := cards[1..];
      assert PinnedFirst(rest);
      PinnedFirstStays(rest);
      if !IsPinned(cards[0]) {
        forall c | c in cards ensures !IsPinned(c) {
          var i :| 0 <= i < |cards| && cards[i] == c;
        }
        NonePinned(cards);
      }
    }
  }

  lemma NonePinned(cards: seq<Card>)
    requires forall c :: c in cards ==> !IsPinned(c)
    ensures PinnedOf(cards) == [] && OthersOf(cards) == cards
  {
    if |cards| != 0 {
      assert cards[0] in cards;
      NonePinned(cards[1..]);
    }
  }

  lemma NormalizedCards(b: BoardState, e: BoardEdit, now: nat, uuid: string)
    requires ApplyUser(b, e, now, uuid).result.Success?
    ensures var b1 := ApplyUser(b, e, now, uuid).board; b1.cards == Normalize(b1.cards)
  {
    var raw := RawCards(b, e, now, uuid);
    NormalizeTwice(raw);
  }

  /** The cards an accepted edit hands to `Normalize`. */
  lemma RawCards(b: BoardState, e: BoardEdit, now: nat, uuid: string) returns (raw: seq<Card>)
    requires ApplyUser(b, e, now, uuid).result.Success?
    ensures ApplyUser(b, e, now, uuid).board.cards == Normalize(raw)
  {
    if ChangesInPlace(e) {
      InPlaceCards(b, e, now, uuid);
      var i := Pos(b.cards, e.n).value;
      raw := b.cards[i := CardAfter(b, e, now, uuid, b.cards[i]).value];
    } else {
      match e {
        case Add(_, _, _, _, _) =>
          raw := Place(b.cards, NewUserCard(b, e, now), e.col, None, false);
        case Move(_, _, _) =>
          var i := Pos(b.cards, e.n).value;
          var c1 := if b.cards[i].col != e.col then b.cards[i].(updated := now) else b.cards[i];
          raw := Place(RemoveAt(b.cards, i), c1, e.col, if e.before == Some(e.n) then None else e.before, false);
        case Delete(_) => raw := RemoveAt(b.cards, Pos(b.cards, e.n).value);
        case ArchiveColumn(_) => raw := SweptAll(b.cards, e.col, now);
        case ColDelete(_, _) =>
          var dest := if e.dest.Some? then e.dest.value else FirstOther(b.columns, e.col);
          raw := Rehome(b.cards, NumbersIn(b.cards, e.col), dest, e.dest.Some?, now).0;
        case _ => raw := b.cards;
      }
    }
  }

  /** An accepted user edit keeps the board well formed and brings no number back. */
  lemma UserCardOk(b: BoardState, e: BoardEdit, now: nat, uuid: string, c1: Card)
    requires WellFormed(b) && ApplyUser(b, e, now, uuid).result.Success? && c1 in ApplyUser(b, e, now, uuid).board.cards
    ensures CardOk(ApplyUser(b, e, now, uuid).board.columns, c1)
  {
    hide Normalize, ColumnsOk, ProposalsOk, PinnedFirst, CardAfter;
    UserEffect(b, e, now, uuid);
    FindMember(ApplyUser(b, e, now, uuid).board.cards, c1);
    assert Find(ApplyUser(b, e, now, uuid).board.cards, c1.n) == ExpectedAt(b, e, now, uuid, c1.n);
    FoundMember(b.cards, c1.n);
    if Find(b.cards, c1.n).Some? {
      CardAfterOk(b, e, now, uuid, Find(b.cards, c1.n).value);
    } else {
      assert e.Add? && c1 == NewUserCard(b, e, now);
      assert UserAdd(b, e, now).result.Success?;
    }
  }

  lemma UserKeeps(b: BoardState, e: BoardEdit, now: nat, uuid: string)
    requires WellFormed(b) && ApplyUser(b, e, now, uuid).result.Success?
    ensures var b1 := ApplyUser(b, e, now, uuid).board; WellFormed(b1) && NeverReuses(b, b1)
  {
    hide ApplyUser, CardOk, ColumnsOk, ProposalsOk, PinnedFirst, CardAfter;
    var b1 := ApplyUser(b, e, now, uuid).board;
    UserEffect(b, e, now, uuid);
    UserKeepsColumns(b, e, now, uuid);
    NormalizedCards(b, e, now, uuid);
    forall c1 | c1 in b1.cards ensures CardOk(b1.columns, c1) {
      UserCardOk(b, e, now, uuid, c1);
    }
    NormalizeKeeps(b1.columns, b1.next, b1.cards);
  }

  // ---------- Proposals ----------

  lemma ByEditKeeps(b: BoardState, news: News, e: BoardEdit, now: nat)
    requires WellFormed(b) && ByEdit(b, news, e, now).result.Success?
    ensures var b1 := ByEdit(b, news, e, now).board;
            WellFormed(b1) && NeverReuses(b, b1) && b1.proposals == b.proposals && b1.nextProp == b.nextProp
  {
    UserKeeps(b, e, now, "");
    UserKeepsColumns(b, e, now, "");
  }

  lemma ChangeKeeps(b: BoardState, ch: ColChange, news: News, now: nat)
    requires WellFormed(b) && ApplyChange(b, ch, news, now).result.Success?
    ensures var b1 := ApplyChange(b, ch, news, now).board;
            WellFormed(b1) && NeverReuses(b, b1) && b1.proposals == b.proposals && b1.nextProp == b.nextProp
  {
    match ch {
      case AddCol(name, desc, before) =>
        var at := ResolveOpt(b.columns, news, before).value;
        var added := ByEdit(b, news, ColAdd(name, desc), now);
        ByEditKeeps(b, news, ColAdd(name, desc), now);
        if at.Some? {
          ByEditKeeps(added.board, news + [(name, added.board.nextCol)], ColMove(added.board.nextCol, at), now);
        }
      case EditCol(col, name, desc) =>
        ByEditKeeps(b, news, ColEdit(Resolve(b.columns, news, col).value, name, desc), now);
      case MoveCol(col, before) =>
        ByEditKeeps(b, news, ColMove(Resolve(b.columns, news, col).value, ResolveOpt(b.columns, news, before).value), now);
      case DeleteCol(col, to) =>
        ByEditKeeps(b, news, ColDelete(Resolve(b.columns, news, col).value, ResolveOpt(b.columns, news, to).value), now);
    }
  }

  lemma {:induction false} ChangesKeep(b: BoardState, changes: seq<ColChange>, news: News, now: nat)
    requires WellFormed(b) && ApplyChanges(b, changes, news, now).result.Success?
    ensures var b1 := ApplyChanges(b, changes, news, now).board;
            WellFormed(b1) && NeverReuses(b, b1) && b1.proposals == b.proposals && b1.nextProp == b.nextProp
    decreases |changes|
  {
    if |changes| != 0 {
      ChangeKeeps(b, changes[0], news, now);
      var first := ApplyChange(b, changes[0], news, now);
      ChangesKeep(first.board, changes[1..], first.news, now);
    }
  }

  lemma WithoutProposal(b: BoardState, i: nat)
    requires WellFormed(b) && i < |b.proposals|
    ensures WellFormed(b.(proposals := RemoveAt(b.proposals, i)))
  {
    var r := RemoveAt(b.proposals, i);
    assert forall k :: 0 <= k < |r| ==> r[k] == if k < i then b.proposals[k] else b.proposals[k + 1];
  }

  /** Deciding a proposal keeps the board well formed, and is the proposal's last decision. */
  lemma DecideKeeps(b: BoardState, id: nat, approve: bool, now: nat)
    requires WellFormed(b) && Decide(b, id, approve, now).result.Success?
    ensures var b1 := Decide(b, id, approve, now).board;
            && WellFormed(b1) && NeverReuses(b, b1)
            && PropPos(b.proposals, id).Some? && PropPos(b1.proposals, id).None? && id <= b1.nextProp
  {
    var i := PropPos(b.proposals, id).value;
    var without := b.(proposals := RemoveAt(b.proposals, i));
    WithoutProposal(b, i);
    var r := without.proposals;
    assert forall k :: 0 <= k < |r| ==> r[k] == if k < i then b.proposals[k] else b.proposals[k + 1];
    if approve {
      ChangesKeep(without, b.proposals[i].changes, [], now);
    }
  }

  // ---------- The claudes' actions ----------

  lemma OneUpdateOk(columns: seq<Column>, next: nat, cards: seq<Card>, i: nat, c1: Card)
    requires CardsOk(columns, next, cards) && i < |cards| && c1.n == cards[i].n && CardOk(columns, c1)
    ensures CardsOk(columns, next, cards[i := c1])
    ensures forall m :: Find(cards[i := c1], m).Some? == Find(cards, m).Some?
  {
    FindAfterUpdate(cards, i, c1);
    FoundNumber(cards);
    assert cards[i] in cards;
    FindMember(cards, cards[i]);
  }

  lemma NextPlacedOk(columns: seq<Column>, cards: seq<Card>, next: nat, card: Card)
    requires CardsOk(columns, next, cards) && CardOk(columns, card) && card.n == next + 1
    ensures CardsOk(columns, next + 1, Place(cards, card, card.col, None, true))
    ensures forall m: nat :: Find(Place(cards, card, card.col, None, true), m) ==
                             if m == next + 1 then Some(card) else Find(cards, m)
  {
    FoundMember(cards, next + 1);
    assert card.(col := card.col) == card;
    FindAfterPlace(cards, card, card.col, None, true);
  }

  lemma {:induction false} AddDraftsOk(columns: seq<Column>, cards: seq<Card>, next: nat, drafts: seq<Card>, actor: Option<nat>)
    requires CardsOk(columns, next, cards)
    requires forall i :: 0 <= i < |drafts| ==> CardOk(columns, drafts[i])
    ensures var r := AddDrafts(cards, next, drafts, actor);
            && r.1 == next + |drafts|
            && CardsOk(columns, r.1, r.0)
            && forall m: nat :: Find(r.0, m).Some? <==> Find(cards, m).Some? || next < m <= r.1
    decreases |drafts|
  {
    hide Place;
    if |drafts| != 0 {
      var card := drafts[0].(n := next + 1);
      assert CardOk(columns, drafts[0]);
      var placed := Place(cards, card, card.col, None, true);
      NextPlacedOk(columns, cards, next, card);
      AddDraftsOk(columns, placed, next + 1, drafts[1..], actor);
    }
  }

  lemma {:induction false} MoveToTopOk(columns: seq<Column>, next: nat, cards: seq<Card>, ids: seq<nat>, col: nat, actor: Option<nat>, now: nat)
    requires CardsOk(columns, next, cards) && HasCol(columns, col)
    ensures var r := MoveToTop(cards, ids, col, actor, now).0;
            && CardsOk(columns, next, r)
            && forall m :: Find(r, m).Some? == Find(cards, m).Some?
    decreases |ids|
  {
    if |ids| != 0 {
      if Pos(cards, ids[0]).Some? {
        var i := Pos(cards, ids[0]).value;
        assert cards[i] in cards;
        var c1 := cards[i].(archived := false, updated := now, unread := true);
        FindAfterReplace(cards, i, c1, col, None, true);
        MoveToTopOk(columns, next, Place(RemoveAt(cards, i), c1, col, None, true), ids[1..], col, actor, now);
      } else {
        MoveToTopOk(columns, next, cards, ids[1..], col, actor, now);
      }
    }
  }

  lemma {:induction false} ArchiveEachOk(columns: seq<Column>, next: nat, cards: seq<Card>, ids: seq<nat>, actor: Option<nat>, now: nat)
    requires CardsOk(columns, next, cards)
    ensures var r := ArchiveEach(cards, ids, actor, now).0;
            && CardsOk(columns, next, r)
            && forall m :: Find(r, m).Some? == Find(cards, m).Some?
    decreases |ids|
  {
    if |ids| != 0 {
      if Pos(cards, ids[0]).Some? && !cards[Pos(cards, ids[0]).value].archived {
        var i := Pos(cards, ids[0]).value;
        assert cards[i] in cards;
        var c1 := cards[i].(archived := true, updated := now);
        OneUpdateOk(columns, next, cards, i, c1);
        ArchiveEachOk(columns, next, cards[i := c1], ids[1..], actor, now);
      } else {
        ArchiveEachOk(columns, next, cards, ids[1..], actor, now);
      }
    }
  }

  /** The cards a claude's accepted action hands to `Normalize`. */
  lemma ClaudeCards(b: BoardState, from: nat, a: ClaudeAction, now: nat, uuid: string) returns (raw: seq<Card>)
    requires WellFormed(b) && ApplyClaude(b, from, a, now, uuid).result.Success? && !a.ProposeColumns?
    ensures var b1 := ApplyClaude(b, from, a, now, uuid).board;
            && b1 == b.(cards := Normalize(raw), next := b1.next)
            && b.next <= b1.next
            && CardsOk(b.columns, b1.next, raw)
            && forall m :: 1 <= m <= b.next && Find(b.cards, m).None? ==> Find(raw, m).None?
  {
    match a {
      case AddCards(items) =>
        var drafts := Drafts(b, from, items, now).value;
        forall i | 0 <= i < |drafts| ensures CardOk(b.columns, drafts[i]) {
          assert Draft(b, from, items[i], now) == Success(drafts[i]);
        }
        AddDraftsOk(b.columns, b.cards, b.next, drafts, Some(from));
        raw := AddDrafts(b.cards, b.next, drafts, Some(from)).0;
      case MoveCards(ids, dest) =>
        var col := ColBy(b.columns, dest).value;
        MoveToTopOk(b.columns, b.next, b.cards, ids, col, Some(from), now);
        raw := MoveToTop(b.cards, ids, col, Some(from), now).0;
      case ArchiveCards(ids) =>
        ArchiveEachOk(b.columns, b.next, b.cards, ids, Some(from), now);
        raw := ArchiveEach(b.cards, ids, Some(from), now).0;
      case UpdateCard(_, _, _, _, _, _, _) =>
        raw := ClaudeUpdateCards(b, from, a, now);
      case CommentOn(_, _, _) =>
        raw := ClaudeCommentCards(b, from, a, now, uuid);
    }
  }

  lemma ClaudeUpdateCards(b: BoardState, from: nat, a: ClaudeAction, now: nat) returns (raw: seq<Card>)
    requires WellFormed(b) && a.UpdateCard? && ClaudeUpdate(b, from, a, now).result.Success?
    ensures ClaudeUpdate(b, from, a, now).board == b.(cards := Normalize(raw))
    ensures CardsOk(b.columns, b.next, raw)
    ensures forall m :: Find(raw, m).Some? == Find(b.cards, m).Some?
  {
    var i := Pos(b.cards, a.n).value;
    var c := b.cards[i];
    assert c in b.cards;
    var picks := if a.choices.Some? then CleanChoices(a.choices.value).value else c.choices;
    var c1 := Updated(c, a, picks, ImagesOf(a.images).value, now);
    OneUpdateOk(b.columns, b.next, b.cards, i, c1);
    raw := b.cards[i := c1];
  }

  lemma ClaudeCommentCards(b: BoardState, from: nat, a: ClaudeAction, now: nat, uuid: string) returns (raw: seq<Card>)
    requires WellFormed(b) && a.CommentOn? && ClaudeComment(b, from, a, now, uuid).result.Success?
    ensures ClaudeComment(b, from, a, now, uuid).board == b.(cards := Normalize(raw))
    ensures CardsOk(b.columns, b.next, raw)
    ensures forall m :: Find(raw, m).Some? == Find(b.cards, m).Some?
  {
    var i := Pos(b.cards, a.n).value;
    var c := b.cards[i];
    assert c in b.cards;
    var images := ImagesOf(a.images).value;
    var c1 := c.(comments := c.comments + [Comment(uuid, ByClaude, Some(from), a.text, images, now)],
                 updated := now, unread := true);
    OneUpdateOk(b.columns, b.next, b.cards, i, c1);
    raw := b.cards[i := c1];
  }

  lemma {:induction false} SimulateReads(b: BoardState, reqs: seq<ChangeRequest>, news: News, now: nat)
    requires Simulate(b, reqs, news, now).result.Success?
    ensures |Simulate(b, reqs, news, now).result.value| == |reqs|
    decreases |reqs|
  {
    if |reqs| != 0 {
      var one := ApplyChange(b, Read(b, news, reqs[0]).value, news, now);
      SimulateReads(one.board, reqs[1..], one.news, now);
    }
  }

  /** A claude's accepted action keeps the board well formed and brings no number back. */
  lemma ClaudeKeeps(b: BoardState, from: nat, a: ClaudeAction, now: nat, uuid: string)
    requires WellFormed(b) && ApplyClaude(b, from, a, now, uuid).result.Success?
    ensures var b1 := ApplyClaude(b, from, a, now, uuid).board; WellFormed(b1) && NeverReuses(b, b1)
  {
    if a.ProposeColumns? {
      SimulateReads(b, a.changes, [], now);
      NormalizeKeeps(b.columns, b.next, b.cards);
      FindAfterNormalize(b.cards);
    } else {
      var raw := ClaudeCards(b, from, a, now, uuid);
      var b1 := ApplyClaude(b, from, a, now, uuid).board;
      NormalizeKeeps(b.columns, b1.next, raw);
      FindAfterNormalize(raw);
    }
  }

  // ---------- Every reachable board ----------

  /** One call that reaches the store. */
  datatype Call =
    | UserCall(edit: BoardEdit, now: nat, uuid: string)
    | ClaudeCall(from: nat, action: ClaudeAction, now: nat, uuid: string)

  /** The store commits a call's copy only when the call is accepted. */
  function Commit(b: BoardState, call: Call): BoardState {
    match call
    case UserCall(e, now, uuid) => (
      if e.Approve? then Committed(b, Decide(b, e.proposal, true, now))
      else if e.Reject? then Committed(b, Decide(b, e.proposal, false, now))
      else Committed(b, ApplyUser(b, e, now, uuid)))
    case ClaudeCall(from, a, now, uuid) => Committed(b, ApplyClaude(b, from, a, now, uuid))
  }

  function Committed<T>(b: BoardState, o: Outcome<T>): BoardState {
    if o.result.Success? then o.board else b
  }

  function CommitAll(b: BoardState, calls: seq<Call>): BoardState
    decreases |calls|
  {
    if |calls| == 0 then b else CommitAll(Commit(b, calls[0]), calls[1..])
  }

  lemma CommitKeeps(b: BoardState, call: Call)
    requires WellFormed(b)
    ensures WellFormed(Commit(b, call)) && NeverReuses(b, Commit(b, call))
  {
    match call {
      case UserCall(e, now, uuid) =>
        if e.Approve? || e.Reject? {
          if Decide(b, e.proposal, e.Approve?, now).result.Success? {
            DecideKeeps(b, e.proposal, e.Approve?, now);
          }
        } else if ApplyUser(b, e, now, uuid).result.Success? {
          UserKeeps(b, e, now, uuid);
        }
      case ClaudeCall(from, a, now, uuid) =>
        if ApplyClaude(b, from, a, now, uuid).result.Success? {
          ClaudeKeeps(b, from, a, now, uuid);
        }
    }
  }

  lemma {:induction false} RunKeeps(b: BoardState, calls: seq<Call>)
    requires WellFormed(b)
    ensures WellFormed(CommitAll(b, calls)) && NeverReuses(b, CommitAll(b, calls))
    decreases |calls|
  {
    if |calls| != 0 {
      CommitKeeps(b, calls[0]);
      RunKeeps(Commit(b, calls[0]), calls[1..]);
    }
  }

  /** From the default board, every run of calls, refused ones included, leaves a well-formed board. */
  lemma EveryReachableBoard(calls: seq<Call>)
    ensures WellFormed(CommitAll(DEFAULT_BOARD, calls))
  {
    RunKeeps(DEFAULT_BOARD, calls);
  }

  /** A used number that names no card names none ever after. */
  lemma DeletedForGood(b: BoardState, calls: seq<Call>, n: nat)
    requires WellFormed(b) && 1 <= n <= b.next && Find(b.cards, n).None?
    ensures Find(CommitAll(b, calls).cards, n).None?
  {
    RunKeeps(b, calls);
  }

  /** No proposal is decided twice: once decided, it is refused whatever happens in between. */
  lemma DecidedOnce(b: BoardState, id: nat, approve: bool, now: nat, calls: seq<Call>, again: bool, later: nat)
    requires WellFormed(b) && Decide(b, id, approve, now).result.Success?
    ensures Decide(CommitAll(Decide(b, id, approve, now).board, calls), id, again, later).result == Failure(ProposalGone)
  {
    DecideKeeps(b, id, approve, now);
    StaysDecided(Decide(b, id, approve, now).board, id, calls);
  }

  lemma {:induction false} StaysDecided(b: BoardState, id: nat, calls: seq<Call>)
    requires WellFormed(b) && PropPos(b.proposals, id).None? && id <= b.nextProp
    ensures PropPos(CommitAll(b, calls).proposals, id).None?
    decreases |calls|
  {
    if |calls| != 0 {
      CommitKeeps(b, calls[0]);
      OneCallKeepsDecided(b, id, calls[0]);
      StaysDecided(Commit(b, calls[0]), id, calls[1..]);
    }
  }

  lemma DecisionKeepsDecided(b: BoardState, id: nat, p: nat, approve: bool, now: nat)
    requires WellFormed(b) && PropPos(b.proposals, id).None? && Decide(b, p, approve, now).result.Success?
    ensures PropPos(Decide(b, p, approve, now).board.proposals, id).None?
  {
    hide Place, WellFormed;
    var i := PropPos(b.proposals, p).value;
    WithoutProposal(b, i);
    if approve {
      ChangesKeep(b.(proposals := RemoveAt(b.proposals, i)), b.proposals[i].changes, [], now);
    }
    var r := RemoveAt(b.proposals, i);
    assert forall k :: 0 <= k < |r| ==> r[k] == if k < i then b.proposals[k] else b.proposals[k + 1];
  }

  lemma OneCallKeepsDecided(b: BoardState, id: nat, call: Call)
    requires WellFormed(b) && PropPos(b.proposals, id).None? && id <= b.nextProp
    ensures PropPos(Commit(b, call).proposals, id).None?
  {
    hide Place, WellFormed, ApplyUser, Decide;
    match call {
      case UserCall(e, now, uuid) =>
        if e.Approve? || e.Reject? {
          if Decide(b, e.proposal, e.Approve?, now).result.Success? {
            DecisionKeepsDecided(b, id, e.proposal, e.Approve?, now);
          }
        } else if ApplyUser(b, e, now, uuid).result.Success? {
          UserKeepsColumns(b, e, now, uuid);
        }
      case ClaudeCall(from, a, now, uuid) =>
        if ApplyClaude(b, from, a, now, uuid).result.Success? && !a.ProposeColumns? {
          var _ := ClaudeCards(b, from, a, now, uuid);
        }
    }
  }
}
