/**
 What each accepted column edit leaves of the columns, one by one, what an approved proposal makes of their names and
 descriptions, and which columns a claude's proposal means.
*/
module ColumnEffects {
  import opened Wrappers
  import opened BoardState
  import opened BoardCards
  import opened BoardTelling
  import opened BoardInvariant

  ghost predicate ApartIds(columns: seq<Column>) {
    forall i, j :: 0 <= i < j < |columns| ==> columns[i].id != columns[j].id
  }

  ghost predicate IsThere(columns: seq<Column>, id: nat) {
    exists i :: 0 <= i < |columns| && columns[i].id == id
  }

  /** Column `id` has the name and description asked for, a name only if it is not empty; the others are as they were. */
  ghost predicate OnlyOneEdited(columns: seq<Column>, columns1: seq<Column>, id: nat, name: Option<string>, desc: Option<string>) {
    && |columns1| == |columns| && IsThere(columns, id)
    && forall i :: 0 <= i < |columns| ==>
         if columns[i].id != id then columns1[i] == columns[i]
         else
           && columns1[i].id == id
           && columns1[i].name == (if name.Some? && name.value != "" then name.value else columns[i].name)
           && columns1[i].desc == (if desc.Some? then desc.value else columns[i].desc)
  }

  /** `columns1` is `columns` without the one of that id, the others in their order. */
  ghost predicate OnlyOneGone(columns: seq<Column>, columns1: seq<Column>, id: nat) {
    exists i :: 0 <= i < |columns| && columns[i].id == id && columns1 == columns[..i] + columns[i + 1..]
  }

  /** Column `id` is the `k`th: immediately before `before`, or last if that is no other column. */
  ghost predicate StandsAt(columns: seq<Column>, k: nat, id: nat, before: Option<nat>) {
    && k < |columns| && columns[k].id == id
    && if before.Some? && before.value != id && IsThere(columns, before.value)
       then k + 1 < |columns| && columns[k + 1].id == before.value
       else k == |columns| - 1
  }

  ghost predicate StandsBefore(columns: seq<Column>, id: nat, before: Option<nat>) {
    exists k: nat :: StandsAt(columns, k, id, before)
  }

  /** What an accepted user edit leaves of the columns and of the counter of the next one. */
  ghost predicate ColumnsAfter(b: BoardState, e: BoardEdit, columns1: seq<Column>, nextCol1: nat) {
    match e
    case ColAdd(name, desc) => columns1 == b.columns + [Column(b.nextCol + 1, name, desc)] && nextCol1 == b.nextCol + 1
    case ColEdit(col, newName, newDesc) =>
      && nextCol1 == b.nextCol
      && OnlyOneEdited(b.columns, columns1, col, newName, newDesc)
    case ColMove(col, before) =>
      && nextCol1 == b.nextCol && StandsBefore(columns1, col, before)
      && (forall c :: c in columns1 <==> c in b.columns)
      && exists rest :: OnlyOneGone(b.columns, rest, col) && OnlyOneGone(columns1, rest, col)
    case ColDelete(col, _) => nextCol1 == b.nextCol && OnlyOneGone(b.columns, columns1, col)
    case _ => columns1 == b.columns && nextCol1 == b.nextCol
  }

  lemma {:induction false} WithoutColIs(columns: seq<Column>, i: nat)
    requires ApartIds(columns) && i < |columns|
    ensures WithoutCol(columns, columns[i].id) == columns[..i] + columns[i + 1..]
  {
    var rest := columns[1..];
    assert forall j :: 0 <= j < |rest| ==> rest[j] == columns[j + 1];
    if i == 0 {
      WithoutNone(rest, columns[0].id);
    } else {
      WithoutColIs(rest, i - 1);
      assert columns[..i] == [columns[0]] + rest[..i - 1] && columns[i + 1..] == rest[i..];
    }
  }

  lemma {:induction false} WithoutNone(columns: seq<Column>, id: nat)
    requires forall j :: 0 <= j < |columns| ==> columns[j].id != id
    ensures WithoutCol(columns, id) == columns
  {
    if |columns| > 0 {
      assert forall j :: 0 <= j < |columns[1..]| ==> columns[1..][j] == columns[j + 1];
      WithoutNone(columns[1..], id);
    }
  }

  /** Where a deleted column's cards go if nothing was picked: the first of the other columns. */
  lemma {:induction false} FirstOtherIs(columns: seq<Column>, col: nat)
    requires exists i :: 0 <= i < |columns| && columns[i].id != col
    ensures exists i :: 0 <= i < |columns| && columns[i].id == FirstOther(columns, col) && columns[i].id != col
                        && forall j :: 0 <= j < i ==> columns[j].id == col
  {
    if columns[0].id == col {
      var i :| 0 <= i < |columns| && columns[i].id != col;
      assert columns[1..][i - 1] == columns[i];
      FirstOtherIs(columns[1..], col);
      var k :| 0 <= k < |columns[1..]| && columns[1..][k].id == FirstOther(columns[1..], col) && columns[1..][k].id != col
               && forall j :: 0 <= j < k ==> columns[1..][j].id == col;
      assert columns[k + 1] == columns[1..][k] && FirstOther(columns, col) == FirstOther(columns[1..], col);
      forall j | 0 <= j < k + 1 ensures columns[j].id == col {
        assert j > 0 ==> columns[j] == columns[1..][j - 1];
      }
    } else {
      assert columns[0].id == FirstOther(columns, col);
    }
  }

  lemma EditedColumn(b: BoardState, e: BoardEdit)
    requires ColumnsOk(b.columns, b.nextCol) && e.ColEdit? && UserColEdit(b, e).result.Success?
    ensures ColumnsAfter(b, e, UserColEdit(b, e).board.columns, UserColEdit(b, e).board.nextCol)
  {
    var i := ColPos(b.columns, e.col).value;
    assert b.columns[i] in b.columns && b.columns[i].id == e.col;
  }

  lemma MovedColumn(b: BoardState, e: BoardEdit)
    requires ColumnsOk(b.columns, b.nextCol) && e.ColMove? && UserColMove(b, e).result.Success?
    ensures ColumnsAfter(b, e, UserColMove(b, e).board.columns, UserColMove(b, e).board.nextCol)
  {
    hide Normalize, Stamp, RemoveAt, InsertAt, ColPos, StandsBefore, OnlyOneGone, ColumnsOk;
    var i := ColPos(b.columns, e.col).value;
    AreApart(b);
    MovedParts(b.columns, i, e.before);
  }

  lemma AreApart(b: BoardState)
    requires ColumnsOk(b.columns, b.nextCol)
    ensures ApartIds(b.columns)
  {
  }

  /** The `i`th column taken out and put where asked. */
  lemma MovedParts(columns: seq<Column>, i: nat, before: Option<nat>)
    requires ApartIds(columns) && i < |columns|
    ensures var rest := RemoveAt(columns, i);
            var at := if before.Some? then ColPos(rest, before.value) else None;
            var k := if at.Some? then at.value else |rest|;
            && k <= |rest|
            && var r := InsertAt(rest, k, columns[i]);
               && StandsBefore(r, columns[i].id, before) && (forall c :: c in r <==> c in columns)
               && OnlyOneGone(columns, rest, columns[i].id) && OnlyOneGone(r, rest, columns[i].id)
  {
    hide ColPos, StandsBefore, OnlyOneGone, RemoveAt, InsertAt;
    var c, rest := columns[i], RemoveAt(columns, i);
    var at := if before.Some? then ColPos(rest, before.value) else None;
    var k := if at.Some? then at.value else |rest|;
    WithoutOne(columns, i);
    InsertIsPermutation(rest, k, c);
    CutAndPut(columns, i, k);
    Lands(rest, k, c, before, at);
  }

  /** Taken out at `i` and put in at `k`: both lists without it are one. */
  lemma CutAndPut(columns: seq<Column>, i: nat, k: nat)
    requires i < |columns| && k < |columns|
    ensures var rest := RemoveAt(columns, i); var r := InsertAt(rest, k, columns[i]);
            OnlyOneGone(columns, rest, columns[i].id) && OnlyOneGone(r, rest, columns[i].id)
  {
    var rest := RemoveAt(columns, i);
    var r := InsertAt(rest, k, columns[i]);
    assert r[k] == columns[i] && r[..k] + r[k + 1..] == rest;
  }

  lemma InsertedAt(rest: seq<Column>, k: nat, c: Column)
    requires k <= |rest|
    ensures var r := InsertAt(rest, k, c);
            |r| == |rest| + 1 && forall j :: 0 <= j < |r| ==> r[j] == if j < k then rest[j] else if j == k then c else rest[j - 1]
  {
  }

  lemma StillThere(rest: seq<Column>, k: nat, c: Column, id: nat)
    requires k <= |rest| && c.id != id
    ensures IsThere(InsertAt(rest, k, c), id) <==> ColPos(rest, id).Some?
  {
    var r := InsertAt(rest, k, c);
    InsertedAt(rest, k, c);
    if IsThere(r, id) {
      var j :| 0 <= j < |r| && r[j].id == id;
      assert rest[if j < k then j else j - 1].id == id;
    }
    if ColPos(rest, id).Some? {
      var j := ColPos(rest, id).value;
      assert r[if j < k then j else j + 1].id == id;
    }
  }

  lemma Lands(rest: seq<Column>, k: nat, c: Column, before: Option<nat>, at: Option<nat>)
    requires forall j :: 0 <= j < |rest| ==> rest[j].id != c.id
    requires at == if before.Some? then ColPos(rest, before.value) else None
    requires k == if at.Some? then at.value else |rest|
    ensures k <= |rest| && StandsBefore(InsertAt(rest, k, c), c.id, before)
  {
    hide IsThere;
    InsertedAt(rest, k, c);
    if before.Some? && before.value != c.id {
      StillThere(rest, k, c, before.value);
    }
    assert StandsAt(InsertAt(rest, k, c), k, c.id, before);
  }

  lemma DeletedColumn(b: BoardState, e: BoardEdit, now: nat)
    requires ColumnsOk(b.columns, b.nextCol) && e.ColDelete? && UserColDelete(b, e, now).result.Success?
    ensures ColumnsAfter(b, e, UserColDelete(b, e, now).board.columns, UserColDelete(b, e, now).board.nextCol)
  {
    hide Rehome, Normalize, Stamp, NumbersIn, WithoutCol;
    var i := ColPos(b.columns, e.col).value;
    WithoutColIs(b.columns, i);
  }

  /** Column by column, what every accepted user edit leaves. */
  lemma ColumnEffect(b: BoardState, e: BoardEdit, now: nat, uuid: string)
    requires WellFormed(b) && ApplyUser(b, e, now, uuid).result.Success?
    ensures ColumnsAfter(b, e, ApplyUser(b, e, now, uuid).board.columns, ApplyUser(b, e, now, uuid).board.nextCol)
  {
    hide ColumnsAfter, WellFormed, ApplyUser;
    ColumnsAreOk(b);
    if EditsColumns(e) {
      ColumnEditEffect(b, e, now, uuid);
    } else {
      OtherEdits(b, e, now, uuid);
    }
  }

  lemma ColumnEditEffect(b: BoardState, e: BoardEdit, now: nat, uuid: string)
    requires ColumnsOk(b.columns, b.nextCol) && EditsColumns(e) && ApplyUser(b, e, now, uuid).result.Success?
    ensures ColumnsAfter(b, e, ApplyUser(b, e, now, uuid).board.columns, ApplyUser(b, e, now, uuid).board.nextCol)
  {
    hide ColumnsAfter, ColumnsOk, UserColAdd, UserColEdit, UserColMove, UserColDelete;
    match e {
      case ColAdd(_, _) => AddedColumn(b, e);
      case ColEdit(_, _, _) => EditedColumn(b, e);
      case ColMove(_, _) => MovedColumn(b, e);
      case ColDelete(_, _) => DeletedColumn(b, e, now);
    }
  }

  lemma ColumnsAreOk(b: BoardState)
    requires WellFormed(b)
    ensures ColumnsOk(b.columns, b.nextCol)
  {
  }

  lemma AddedColumn(b: BoardState, e: BoardEdit)
    requires e.ColAdd? && UserColAdd(b, e).result.Success?
    ensures ColumnsAfter(b, e, UserColAdd(b, e).board.columns, UserColAdd(b, e).board.nextCol)
  {
    hide Normalize, Stamp;
  }

  lemma OtherEdits(b: BoardState, e: BoardEdit, now: nat, uuid: string)
    requires ApplyUser(b, e, now, uuid).result.Success? && !EditsColumns(e)
    ensures ColumnsAfter(b, e, ApplyUser(b, e, now, uuid).board.columns, ApplyUser(b, e, now, uuid).board.nextCol)
  {
    hide ApplyUser;
    CardEditKeepsColumns(b, e, now, uuid);
  }

  lemma CardEditKeepsColumns(b: BoardState, e: BoardEdit, now: nat, uuid: string)
    requires ApplyUser(b, e, now, uuid).result.Success? && !EditsColumns(e)
    ensures ApplyUser(b, e, now, uuid).board.columns == b.columns && ApplyUser(b, e, now, uuid).board.nextCol == b.nextCol
  {
    hide Normalize, Stamp, Place, SweptAll, SweepEvents, RemoveAt;
  }

  // ---------- One change of a proposal ----------

  /** The reference means column `id`: by its id, or as the first of the new columns added under that name. */
  ghost predicate Meant(r: ColRef, columns: seq<Column>, news: News, id: nat) {
    match r
    case Id(i) => id == i && IsThere(columns, i)
    case New(name) => exists k :: 0 <= k < |news| && news[k] == (name, id) && forall j :: 0 <= j < k ==> news[j].0 != name
  }

  ghost predicate MeantOpt(r: Option<ColRef>, columns: seq<Column>, news: News, id: Option<nat>) {
    match r
    case None => id.None?
    case Some(x) => id.Some? && Meant(x, columns, news, id.value)
  }

  ghost predicate SameCards(cards: seq<Card>, cards1: seq<Card>) {
    forall m :: Find(cards1, m) == Find(cards, m)
  }

  /** What an accepted change leaves: of the column it means, of the others, and of the cards. */
  ghost predicate ChangeDone(b: BoardState, ch: ColChange, news: News, now: nat, b1: BoardState, news1: News) {
    match ch
    case AddCol(name, desc, before) =>
      && news1 == news + [(name, b.nextCol + 1)] && b1.nextCol == b.nextCol + 1 && SameCards(b.cards, b1.cards)
      && OnlyOneGone(b1.columns, b.columns, b.nextCol + 1) && Column(b.nextCol + 1, name, desc) in b1.columns
      && exists at :: MeantOpt(before, b.columns, news, at) && StandsBefore(b1.columns, b.nextCol + 1, at)
    case EditCol(col, name, desc) =>
      && news1 == news && b1.nextCol == b.nextCol && SameCards(b.cards, b1.cards)
      && exists i :: Meant(col, b.columns, news, i) && OnlyOneEdited(b.columns, b1.columns, i, name, desc)
    case MoveCol(col, before) =>
      && news1 == news && SameCards(b.cards, b1.cards)
      && exists i, at :: Meant(col, b.columns, news, i) && MeantOpt(before, b.columns, news, at)
                         && ColumnsAfter(b, ColMove(i, at), b1.columns, b1.nextCol)
    case DeleteCol(col, to) =>
      && news1 == news
      && exists i, at :: Meant(col, b.columns, news, i) && MeantOpt(to, b.columns, news, at)
                         && ColumnsAfter(b, ColDelete(i, at), b1.columns, b1.nextCol)
                         && Effect(b, ColDelete(i, at), now, "", b1.cards)
  }

  lemma {:induction false} NewsMeans(news: News, name: string)
    ensures match NewsByName(news, name)
            case Some(id) => exists k :: 0 <= k < |news| && news[k] == (name, id) && forall j :: 0 <= j < k ==> news[j].0 != name
            case None => forall j :: 0 <= j < |news| ==> news[j].0 != name
  {
    if |news| > 0 && news[0].0 != name {
      NewsMeans(news[1..], name);
      match NewsByName(news, name) {
        case Some(id) =>
          var k :| 0 <= k < |news[1..]| && news[1..][k] == (name, id) && forall j :: 0 <= j < k ==> news[1..][j].0 != name;
          assert news[k + 1] == (name, id);
          forall j | 0 <= j < k + 1 ensures news[j].0 != name {
            assert j > 0 ==> news[j] == news[1..][j - 1];
          }
        case None =>
          forall j | 0 <= j < |news| ensures news[j].0 != name {
            assert j > 0 ==> news[j] == news[1..][j - 1];
          }
      }
    }
  }

  /** A reference resolves to the column it means, and is refused when it means none. */
  lemma ResolveMeans(columns: seq<Column>, news: News, r: ColRef)
    ensures match Resolve(columns, news, r)
            case Success(id) => Meant(r, columns, news, id)
            case Failure(_) => forall id :: !Meant(r, columns, news, id)
  {
    if r.New? {
      NewsMeans(news, r.name);
    }
  }

  lemma ResolveOptMeans(columns: seq<Column>, news: News, r: Option<ColRef>)
    ensures ResolveOpt(columns, news, r).Success? ==> MeantOpt(r, columns, news, ResolveOpt(columns, news, r).value)
  {
    if r.Some? {
      ResolveMeans(columns, news, r.value);
    }
  }

  lemma ByEditDone(b: BoardState, news: News, e: BoardEdit, now: nat)
    requires WellFormed(b) && EditsColumns(e) && ByEdit(b, news, e, now).result.Success?
    ensures var r := ByEdit(b, news, e, now);
            && WellFormed(r.board) && r.news == news && ColumnsAfter(b, e, r.board.columns, r.board.nextCol)
            && Effect(b, e, now, "", r.board.cards) && (!e.ColDelete? ==> SameCards(b.cards, r.board.cards))
  {
    hide ApplyUser, Find, ColumnsAfter;
    ColumnEffect(b, e, now, "");
    UserKeeps(b, e, now, "");
    UserEffect(b, e, now, "");
    var cards1 := ApplyUser(b, e, now, "").board.cards;
    forall m | !e.ColDelete? ensures Find(cards1, m) == Find(b.cards, m) {
      assert Find(cards1, m) == ExpectedAt(b, e, now, "", m);
    }
  }

  /** Every accepted change does what it says. */
  lemma ChangeEffect(b: BoardState, ch: ColChange, news: News, now: nat)
    requires WellFormed(b) && ApplyChange(b, ch, news, now).result.Success?
    ensures var r := ApplyChange(b, ch, news, now); WellFormed(r.board) && ChangeDone(b, ch, news, now, r.board, r.news)
  {
    hide ByEdit, ColumnsAfter, WellFormed, Effect, SameCards, Meant;
    match ch {
      case AddCol(_, _, _) => AddEffect(b, ch, news, now);
      case EditCol(col, name, desc) =>
        ResolveMeans(b.columns, news, col);
        var e := ColEdit(Resolve(b.columns, news, col).value, name, desc);
        ByEditDone(b, news, e, now);
        EditIs(b, e, ByEdit(b, news, e, now).board);
      case MoveCol(col, before) =>
        ResolveMeans(b.columns, news, col);
        ResolveOptMeans(b.columns, news, before);
        ByEditDone(b, news, ColMove(Resolve(b.columns, news, col).value, ResolveOpt(b.columns, news, before).value), now);
      case DeleteCol(col, to) =>
        ResolveMeans(b.columns, news, col);
        ResolveOptMeans(b.columns, news, to);
        ByEditDone(b, news, ColDelete(Resolve(b.columns, news, col).value, ResolveOpt(b.columns, news, to).value), now);
    }
  }

  lemma EditIs(b: BoardState, e: BoardEdit, b1: BoardState)
    requires e.ColEdit? && ColumnsAfter(b, e, b1.columns, b1.nextCol)
    ensures b1.nextCol == b.nextCol && OnlyOneEdited(b.columns, b1.columns, e.col, e.newName, e.newDesc)
  {
  }

  lemma AddEffect(b: BoardState, ch: ColChange, news: News, now: nat)
    requires WellFormed(b) && ch.AddCol? && ApplyChange(b, ch, news, now).result.Success?
    ensures var r := ApplyChange(b, ch, news, now); WellFormed(r.board) && ChangeDone(b, ch, news, now, r.board, r.news)
  {
    hide ByEdit, WellFormed, Effect, Meant;
    var at := ResolveOpt(b.columns, news, ch.before).value;
    ResolveOptMeans(b.columns, news, ch.before);
    var added := ByEdit(b, news, ColAdd(ch.name, ch.desc), now);
    ByEditDone(b, news, ColAdd(ch.name, ch.desc), now);
    var col := b.nextCol + 1;
    var c := Column(col, ch.name, ch.desc);
    NewIsApart(b, col);
    AddedLast(b.columns, c);
    if at.Some? {
      var moved := ByEdit(added.board, news + [(ch.name, col)], ColMove(col, at), now);
      ByEditDone(added.board, news + [(ch.name, col)], ColMove(col, at), now);
      OneRest(b.columns, c, moved.board.columns);
    }
  }

  lemma NewIsApart(b: BoardState, col: nat)
    requires WellFormed(b) && col > b.nextCol
    ensures forall j :: 0 <= j < |b.columns| ==> b.columns[j].id != col
  {
    forall j | 0 <= j < |b.columns| ensures b.columns[j].id != col {
      assert b.columns[j] in b.columns;
    }
  }

  lemma AddedLast(columns: seq<Column>, c: Column)
    requires forall j :: 0 <= j < |columns| ==> columns[j].id != c.id
    ensures OnlyOneGone(columns + [c], columns, c.id) && StandsBefore(columns + [c], c.id, None) && c in columns + [c]
  {
    var r := columns + [c];
    assert r[|columns|] == c && columns == r[..|columns|] + r[|columns| + 1..];
    assert StandsAt(r, |columns|, c.id, None);
  }

  /** What is left of both lists without the new column is the columns there were. */
  lemma OneRest(columns: seq<Column>, c: Column, columns1: seq<Column>)
    requires forall j :: 0 <= j < |columns| ==> columns[j].id != c.id
    requires exists rest :: OnlyOneGone(columns + [c], rest, c.id) && OnlyOneGone(columns1, rest, c.id)
    ensures OnlyOneGone(columns1, columns, c.id)
  {
    var rest :| OnlyOneGone(columns + [c], rest, c.id) && OnlyOneGone(columns1, rest, c.id);
    var r := columns + [c];
    var i :| 0 <= i < |r| && r[i].id == c.id && rest == r[..i] + r[i + 1..];
    assert i == |columns|;
    assert rest == columns;
  }

  // ---------- A whole approved proposal ----------

  /** How many columns the changes add. */
  function AddsIn(changes: seq<ColChange>): nat {
    if |changes| == 0 then 0 else AddsIn(changes[..|changes| - 1]) + if changes[|changes| - 1].AddCol? then 1 else 0
  }

  /** The columns the changes add, by name, with the ids they get after `start`. */
  function Added(changes: seq<ColChange>, start: nat): News {
    if |changes| == 0 then []
    else
      var init, last := changes[..|changes| - 1], changes[|changes| - 1];
      Added(init, start) + if last.AddCol? then [(last.name, start + AddsIn(changes))] else []
  }

  /** After `done`, the reference is to column `id`. */
  ghost predicate Refers(r: ColRef, done: seq<ColChange>, start: nat, id: nat) {
    match r
    case Id(i) => id == i
    case New(name) =>
      var news := Added(done, start);
      exists k :: 0 <= k < |news| && news[k] == (name, id) && forall j :: 0 <= j < k ==> news[j].0 != name
  }

  /** The last name the changes give column `id`; `first` if they give none. */
  ghost function NameAsked(changes: seq<ColChange>, start: nat, id: nat, first: string): string {
    if |changes| == 0 then first
    else
      var init, last := changes[..|changes| - 1], changes[|changes| - 1];
      if last.AddCol? && id == start + AddsIn(changes) then last.name
      else if last.EditCol? && Refers(last.col, init, start, id) && last.newName.Some? && last.newName.value != "" then last.newName.value
      else NameAsked(init, start, id, first)
  }

  ghost function DescAsked(changes: seq<ColChange>, start: nat, id: nat, first: string): string {
    if |changes| == 0 then first
    else
      var init, last := changes[..|changes| - 1], changes[|changes| - 1];
      if last.AddCol? && id == start + AddsIn(changes) then last.desc
      else if last.EditCol? && Refers(last.col, init, start, id) && last.newDesc.Some? then last.newDesc.value
      else DescAsked(init, start, id, first)
  }

  /** The changes delete column `id`. */
  ghost predicate Deletes(changes: seq<ColChange>, start: nat, id: nat) {
    |changes| > 0 &&
    var init, last := changes[..|changes| - 1], changes[|changes| - 1];
    Deletes(init, start, id) || (last.DeleteCol? && Refers(last.col, init, start, id))
  }

  function ColumnAt(columns: seq<Column>, id: nat): Column {
    match ColPos(columns, id)
    case Some(i) => columns[i]
    case None => Column(id, "", "")
  }

  /** The columns are those there were and those added, but for the deleted; each has what was last asked for it. */
  ghost predicate AsAsked(columns0: seq<Column>, start: nat, done: seq<ColChange>, columns: seq<Column>) {
    && (forall id: nat :: IsThere(columns, id) <==>
          (IsThere(columns0, id) || start < id <= start + AddsIn(done)) && !Deletes(done, start, id))
    && (forall c :: c in columns ==>
          && c.name == NameAsked(done, start, c.id, ColumnAt(columns0, c.id).name)
          && c.desc == DescAsked(done, start, c.id, ColumnAt(columns0, c.id).desc))
  }

  ghost predicate SoFar(b0: BoardState, done: seq<ColChange>, b: BoardState, news: News) {
    && WellFormed(b) && b.nextCol == b0.nextCol + AddsIn(done) && news == Added(done, b0.nextCol)
    && AsAsked(b0.columns, b0.nextCol, done, b.columns)
    && forall id: nat :: Deletes(done, b0.nextCol, id) ==> id <= b.nextCol
  }

  lemma MeantRefers(r: ColRef, columns: seq<Column>, done: seq<ColChange>, start: nat, i: nat, id: nat)
    requires Meant(r, columns, Added(done, start), i)
    ensures Refers(r, done, start, id) <==> id == i
  {
    if r.New? {
      var news := Added(done, start);
      var k :| 0 <= k < |news| && news[k] == (r.name, i) && forall j :: 0 <= j < k ==> news[j].0 != r.name;
    }
  }

  lemma Gone(columns: seq<Column>, columns1: seq<Column>, id: nat)
    requires ApartIds(columns) && OnlyOneGone(columns, columns1, id)
    ensures forall c :: c in columns1 <==> c in columns && c.id != id
    ensures forall x: nat :: IsThere(columns1, x) <==> IsThere(columns, x) && x != id
  {
    var i :| 0 <= i < |columns| && columns[i].id == id && columns1 == columns[..i] + columns[i + 1..];
    WithoutOne(columns, i);
    MembersAreThere(columns);
    MembersAreThere(columns1);
  }

  lemma MembersAreThere(columns: seq<Column>)
    ensures forall x: nat :: IsThere(columns, x) <==> exists c :: c in columns && c.id == x
  {
    forall x: nat ensures IsThere(columns, x) <==> exists c :: c in columns && c.id == x {
      if IsThere(columns, x) {
        var i :| 0 <= i < |columns| && columns[i].id == x;
        assert columns[i] in columns;
      }
    }
  }

  /** What one more change adds to what the changes ask for. */
  lemma OneMore(done: seq<ColChange>, ch: ColChange, start: nat)
    ensures AddsIn(done + [ch]) == AddsIn(done) + if ch.AddCol? then 1 else 0
    ensures Added(done + [ch], start) == Added(done, start) + if ch.AddCol? then [(ch.name, start + AddsIn(done) + 1)] else []
    ensures forall id: nat :: Deletes(done + [ch], start, id) <==>
                              Deletes(done, start, id) || (ch.DeleteCol? && Refers(ch.col, done, start, id))
    ensures forall id: nat, s: string :: NameAsked(done + [ch], start, id, s) ==
              if ch.AddCol? && id == start + AddsIn(done) + 1 then ch.name
              else if ch.EditCol? && Refers(ch.col, done, start, id) && ch.newName.Some? && ch.newName.value != "" then ch.newName.value
              else NameAsked(done, start, id, s)
    ensures forall id: nat, s: string :: DescAsked(done + [ch], start, id, s) ==
              if ch.AddCol? && id == start + AddsIn(done) + 1 then ch.desc
              else if ch.EditCol? && Refers(ch.col, done, start, id) && ch.newDesc.Some? then ch.newDesc.value
              else DescAsked(done, start, id, s)
  {
    hide Refers;
    var all := done + [ch];
    assert all[..|all| - 1] == done && all[|all| - 1] == ch;
  }

  lemma WellFormedIds(b: BoardState)
    requires WellFormed(b)
    ensures ApartIds(b.columns) && forall c :: c in b.columns ==> 1 <= c.id <= b.nextCol
  {
  }

  lemma AddedSoFar(b0: BoardState, done: seq<ColChange>, b: BoardState, news: News, ch: ColChange, now: nat, b1: BoardState, news1: News)
    requires SoFar(b0, done, b, news) && ch.AddCol? && WellFormed(b1) && ChangeDone(b, ch, news, now, b1, news1)
    ensures SoFar(b0, done + [ch], b1, news1)
  {
    hide WellFormed, SameCards, Meant, OnlyOneGone, Refers, AddsIn, Added, Deletes, NameAsked, DescAsked, StandsBefore;
    OneMore(done, ch, b0.nextCol);
    WellFormedIds(b);
    WellFormedIds(b1);
    Gone(b1.columns, b.columns, b.nextCol + 1);
    MembersAreThere(b.columns);
    MembersAreThere(b1.columns);
    forall c | c in b1.columns
      ensures c.name == NameAsked(done + [ch], b0.nextCol, c.id, ColumnAt(b0.columns, c.id).name)
              && c.desc == DescAsked(done + [ch], b0.nextCol, c.id, ColumnAt(b0.columns, c.id).desc)
    {
      if c.id == b.nextCol + 1 {
        OneOfId(b1.columns, c, Column(b.nextCol + 1, ch.name, ch.desc));
      }
    }
  }

  lemma OneOfId(columns: seq<Column>, c: Column, c1: Column)
    requires ApartIds(columns) && c in columns && c1 in columns && c.id == c1.id
    ensures c == c1
  {
  }

  lemma EditedAsAsked(columns0: seq<Column>, start: nat, done: seq<ColChange>, ch: ColChange, columns: seq<Column>,
                      columns1: seq<Column>, i: nat)
    requires ch.EditCol? && AsAsked(columns0, start, done, columns) && OnlyOneEdited(columns, columns1, i, ch.newName, ch.newDesc)
    requires forall id: nat :: Refers(ch.col, done, start, id) <==> id == i
    ensures AsAsked(columns0, start, done + [ch], columns1)
  {
    hide Refers, ColumnAt, AddsIn, Deletes, NameAsked, DescAsked, IsThere;
    OneMore(done, ch, start);
    SameThere(columns, columns1);
    forall c | c in columns1
      ensures c.name == NameAsked(done + [ch], start, c.id, ColumnAt(columns0, c.id).name)
      ensures c.desc == DescAsked(done + [ch], start, c.id, ColumnAt(columns0, c.id).desc)
    {
      var k :| 0 <= k < |columns1| && columns1[k] == c;
      assert columns[k] in columns;
    }
  }

  lemma EditedSoFar(b0: BoardState, done: seq<ColChange>, b: BoardState, news: News, ch: ColChange, now: nat, b1: BoardState, news1: News)
    requires SoFar(b0, done, b, news) && ch.EditCol? && WellFormed(b1) && ChangeDone(b, ch, news, now, b1, news1)
    ensures SoFar(b0, done + [ch], b1, news1)
  {
    hide WellFormed, SameCards, Meant, Refers, AsAsked, AddsIn, Added, Deletes, OnlyOneEdited;
    OneMore(done, ch, b0.nextCol);
    var i :| Meant(ch.col, b.columns, news, i) && OnlyOneEdited(b.columns, b1.columns, i, ch.newName, ch.newDesc);
    forall id: nat ensures Refers(ch.col, done, b0.nextCol, id) <==> id == i {
      MeantRefers(ch.col, b.columns, done, b0.nextCol, i, id);
    }
    EditedAsAsked(b0.columns, b0.nextCol, done, ch, b.columns, b1.columns, i);
  }

  lemma SameThere(columns: seq<Column>, columns1: seq<Column>)
    requires |columns| == |columns1| && forall i :: 0 <= i < |columns| ==> columns[i].id == columns1[i].id
    ensures forall id: nat :: IsThere(columns, id) <==> IsThere(columns1, id)
  {
    forall id: nat ensures IsThere(columns, id) <==> IsThere(columns1, id) {
      if IsThere(columns, id) {
        var i :| 0 <= i < |columns| && columns[i].id == id;
        assert columns1[i].id == id;
      }
      if IsThere(columns1, id) {
        var i :| 0 <= i < |columns1| && columns1[i].id == id;
        assert columns[i].id == id;
      }
    }
  }

  lemma MovedSoFar(b0: BoardState, done: seq<ColChange>, b: BoardState, news: News, ch: ColChange, now: nat, b1: BoardState, news1: News)
    requires SoFar(b0, done, b, news) && ch.MoveCol? && WellFormed(b1) && ChangeDone(b, ch, news, now, b1, news1)
    ensures SoFar(b0, done + [ch], b1, news1)
  {
    hide WellFormed, SameCards, Meant, MeantOpt, Refers, ColumnAt, StandsBefore, OnlyOneGone, AddsIn, Added, Deletes, NameAsked, DescAsked;
    OneMore(done, ch, b0.nextCol);
    MembersAreThere(b.columns);
    MembersAreThere(b1.columns);
  }

  lemma DeletedSoFar(b0: BoardState, done: seq<ColChange>, b: BoardState, news: News, ch: ColChange, now: nat, b1: BoardState, news1: News)
    requires SoFar(b0, done, b, news) && ch.DeleteCol? && WellFormed(b1) && ChangeDone(b, ch, news, now, b1, news1)
    ensures SoFar(b0, done + [ch], b1, news1)
  {
    hide WellFormed, SameCards, Meant, MeantOpt, Refers, ColumnAt, Effect, OnlyOneGone, AddsIn, Added, Deletes, NameAsked, DescAsked;
    OneMore(done, ch, b0.nextCol);
    var i, at :| Meant(ch.col, b.columns, news, i) && MeantOpt(ch.to, b.columns, news, at)
                 && ColumnsAfter(b, ColDelete(i, at), b1.columns, b1.nextCol) && Effect(b, ColDelete(i, at), now, "", b1.cards);
    forall id: nat ensures Refers(ch.col, done, b0.nextCol, id) <==> id == i {
      MeantRefers(ch.col, b.columns, done, b0.nextCol, i, id);
    }
    WellFormedIds(b);
    Gone(b.columns, b1.columns, i);
    WasThere(b.columns, b1.columns, i);
    MembersAreThere(b.columns);
  }

  lemma WasThere(columns: seq<Column>, columns1: seq<Column>, id: nat)
    requires OnlyOneGone(columns, columns1, id)
    ensures IsThere(columns, id)
  {
  }

  lemma {:induction false} ChangesAsk(b0: BoardState, done: seq<ColChange>, b: BoardState, news: News, todo: seq<ColChange>, now: nat)
    requires SoFar(b0, done, b, news) && ApplyChanges(b, todo, news, now).result.Success?
    ensures var r := ApplyChanges(b, todo, news, now); SoFar(b0, done + todo, r.board, r.news)
    decreases |todo|
  {
    hide SoFar, ChangeDone, ApplyChange;
    if |todo| == 0 {
      assert done + todo == done;
    } else {
      var ch, one := todo[0], ApplyChange(b, todo[0], news, now);
      SoFarWellFormed(b0, done, b, news);
      ChangeEffect(b, ch, news, now);
      match ch {
        case AddCol(_, _, _) => AddedSoFar(b0, done, b, news, ch, now, one.board, one.news);
        case EditCol(_, _, _) => EditedSoFar(b0, done, b, news, ch, now, one.board, one.news);
        case MoveCol(_, _) => MovedSoFar(b0, done, b, news, ch, now, one.board, one.news);
        case DeleteCol(_, _) => DeletedSoFar(b0, done, b, news, ch, now, one.board, one.news);
      }
      ChangesAsk(b0, done + [ch], one.board, one.news, todo[1..], now);
      assert done + todo == (done + [ch]) + todo[1..];
    }
  }

  lemma SoFarWellFormed(b0: BoardState, done: seq<ColChange>, b: BoardState, news: News)
    requires SoFar(b0, done, b, news)
    ensures WellFormed(b)
  {
  }

  lemma NothingAsked(b: BoardState)
    requires WellFormed(b)
    ensures SoFar(b, [], b, [])
  {
    forall c | c in b.columns ensures ColumnAt(b.columns, c.id) == c {
      var i :| 0 <= i < |b.columns| && b.columns[i] == c;
      assert ColPos(b.columns, c.id) == Some(i);
    }
    forall id: nat | IsThere(b.columns, id) ensures id <= b.nextCol {
      var i :| 0 <= i < |b.columns| && b.columns[i].id == id;
      assert b.columns[i] in b.columns;
    }
  }

  /**
   An approved proposal leaves the columns there were and those it adds, but for those it deletes, and each has the
   name and the description that it last asks for; a rejected one leaves them all.
  */
  lemma DecidedAsAsked(b: BoardState, id: nat, approve: bool, now: nat)
    requires WellFormed(b) && Decide(b, id, approve, now).result.Success?
    ensures PropPos(b.proposals, id).Some?
    ensures var p, b1 := b.proposals[PropPos(b.proposals, id).value], Decide(b, id, approve, now).board;
            if approve then AsAsked(b.columns, b.nextCol, p.changes, b1.columns) && b1.nextCol == b.nextCol + AddsIn(p.changes)
            else b1.columns == b.columns && b1.nextCol == b.nextCol && b1.cards == b.cards
    ensures var i, d := PropPos(b.proposals, id).value, Decide(b, id, approve, now);
            && d.board.proposals == b.proposals[..i] + b.proposals[i + 1..]
            && d.result.value.proposer == b.proposals[i].proposer && d.result.value.approved == approve
  {
    hide ApplyChanges, WellFormed, AsAsked;
    var i := PropPos(b.proposals, id).value;
    if approve {
      var without := b.(proposals := RemoveAt(b.proposals, i));
      WithoutProposal(b, i);
      NothingAsked(without);
      ChangesAsk(without, [], without, [], b.proposals[i].changes, now);
      ChangesKeep(without, b.proposals[i].changes, [], now);
      assert [] + b.proposals[i].changes == b.proposals[i].changes;
    }
  }
}
