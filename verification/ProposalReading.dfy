/** Which columns a claude's proposal means: what it names is read once, and referred to until the user decides. */
module ProposalReading {
  import opened Wrappers
  import opened BoardState
  import opened BoardCards
  import opened BoardTelling
  import opened BoardInvariant
  import opened ColumnEffects

  // ---------- Names ----------

  const UPPER := "ABCDEFGHIJKLMNOPQRSTUVWXYZ"
  const LOWER := "abcdefghijklmnopqrstuvwxyz"

  /** One letter in its two cases. */
  ghost predicate TwoCases(a: char, b: char) {
    exists k :: 0 <= k < 26 && ((a == UPPER[k] && b == LOWER[k]) || (a == LOWER[k] && b == UPPER[k]))
  }

  lemma LettersInOrder(k: nat)
    requires k < 26
    ensures UPPER[k] as int == 'A' as int + k && LOWER[k] as int == 'a' as int + k
  {
  }

  lemma SameLetter(a: char, b: char)
    ensures Lower(a) == Lower(b) <==> a == b || TwoCases(a, b)
  {
    if Lower(a) == Lower(b) && a != b {
      var k := if 'A' <= a <= 'Z' then a as int - 'A' as int else b as int - 'A' as int;
      LettersInOrder(k);
    }
    forall k: nat | k < 26 ensures Lower(UPPER[k]) == Lower(LOWER[k]) {
      LettersInOrder(k);
    }
  }

  /** Two names are one when they differ in the case of letters alone. */
  lemma SameNameExactly(a: string, b: string)
    ensures SameName(a, b) <==> |a| == |b| && forall i :: 0 <= i < |a| ==> a[i] == b[i] || TwoCases(a[i], b[i])
  {
    forall i | 0 <= i < |a| && |a| == |b| ensures Lower(a[i]) == Lower(b[i]) <==> a[i] == b[i] || TwoCases(a[i], b[i]) {
      SameLetter(a[i], b[i]);
    }
  }

  /** A claude's word for column `id`: its number, or a name that no column before it has. */
  ghost predicate IsNamed(columns: seq<Column>, v: ColArg, id: nat) {
    match v
    case ByNumber(n) => id == n && IsThere(columns, n)
    case ByName(s) =>
      exists i :: 0 <= i < |columns| && columns[i].id == id && SameName(columns[i].name, s)
                  && forall j :: 0 <= j < i ==> !SameName(columns[j].name, s)
  }

  lemma {:induction false} NamePosIs(columns: seq<Column>, s: string)
    ensures match NamePos(columns, s)
            case Some(i) => i < |columns| && SameName(columns[i].name, s) && forall j :: 0 <= j < i ==> !SameName(columns[j].name, s)
            case None => forall j :: 0 <= j < |columns| ==> !SameName(columns[j].name, s)
  {
    if |columns| > 0 && !SameName(columns[0].name, s) {
      NamePosIs(columns[1..], s);
      assert forall j :: 0 < j < |columns| ==> columns[j] == columns[1..][j - 1];
    }
  }

  /** What is named is found, and what is found was named. */
  lemma ColByMeans(columns: seq<Column>, v: ColArg)
    ensures match ColBy(columns, v)
            case Success(id) => IsNamed(columns, v, id)
            case Failure(_) => forall id: nat :: !IsNamed(columns, v, id)
  {
    hide SameName;
    if v.ByName? {
      NamePosIs(columns, v.name);
    }
  }

  // ---------- References ----------

  /** Column `id` is new, under a name that an earlier new column was added under too. */
  ghost predicate Twin(news: News, id: nat) {
    exists j, k :: 0 <= j < k < |news| && news[k].1 == id && news[j].0 == news[k].0
  }

  ghost predicate ApartNews(news: News) {
    forall j, k :: 0 <= j < k < |news| ==> news[j].1 != news[k].1
  }

  lemma {:induction false} NewsByIdIs(news: News, id: nat)
    ensures match NewsById(news, id)
            case Some(name) => exists k :: 0 <= k < |news| && news[k] == (name, id)
            case None => forall k :: 0 <= k < |news| ==> news[k].1 != id
  {
    if |news| > 0 && news[0].1 != id {
      NewsByIdIs(news[1..], id);
      match NewsById(news, id) {
        case Some(name) =>
          var k :| 0 <= k < |news[1..]| && news[1..][k] == (name, id);
          assert news[k + 1] == (name, id);
        case None => assert forall k :: 0 < k < |news| ==> news[k] == news[1..][k - 1];
      }
    }
  }

  /**
   A reference means the column the claude named exactly when that is not a new column under a name that an earlier new
   one was added under.
  */
  lemma ReferMeans(columns: seq<Column>, news: News, v: ColArg)
    requires ApartNews(news) && Refer(columns, news, v).Success?
    ensures ColBy(columns, v).Success? && IsNamed(columns, v, ColBy(columns, v).value)
    ensures Meant(Refer(columns, news, v).value, columns, news, ColBy(columns, v).value) <==> !Twin(news, ColBy(columns, v).value)
  {
    hide SameName;
    ColByMeans(columns, v);
    var id := ColBy(columns, v).value;
    NewsByIdIs(news, id);
    match NewsById(news, id) {
      case Some(name) =>
        var k :| 0 <= k < |news| && news[k] == (name, id);
      case None =>
        var i := ColPos(columns, id).value;
        assert columns[i].id == id;
    }
  }

  ghost predicate RefersTo(r: ColRef, columns: seq<Column>, news: News, v: ColArg) {
    exists id: nat :: IsNamed(columns, v, id) && (Meant(r, columns, news, id) <==> !Twin(news, id))
  }

  ghost predicate RefersToOpt(r: Option<ColRef>, columns: seq<Column>, news: News, v: Option<ColArg>) {
    if v.None? then r.None? else r.Some? && RefersTo(r.value, columns, news, v.value)
  }

  /** The change is the one asked for, of the columns named. */
  ghost predicate IsRead(b: BoardState, news: News, req: ChangeRequest, ch: ColChange) {
    match req
    case WantAdd(name, desc, before) => ch.AddCol? && ch.name == name && ch.desc == desc && RefersToOpt(ch.before, b.columns, news, before)
    case WantEdit(col, name, desc) =>
      && ch.EditCol? && RefersTo(ch.col, b.columns, news, col) && ch.newName == (if name == Some("") then None else name)
      && ch.newDesc == desc && (ch.newName.Some? || ch.newDesc.Some?)
    case WantMove(col, before) => ch.MoveCol? && RefersTo(ch.col, b.columns, news, col) && RefersToOpt(ch.before, b.columns, news, before)
    case WantDelete(col, to) => ch.DeleteCol? && RefersTo(ch.col, b.columns, news, col) && RefersToOpt(ch.to, b.columns, news, to)
  }

  lemma ReferIs(columns: seq<Column>, news: News, v: ColArg)
    requires ApartNews(news)
    ensures Refer(columns, news, v).Success? ==> RefersTo(Refer(columns, news, v).value, columns, news, v)
  {
    hide Meant, Twin, IsNamed;
    if Refer(columns, news, v).Success? {
      ReferMeans(columns, news, v);
    }
  }

  lemma ReferOptIs(columns: seq<Column>, news: News, v: Option<ColArg>)
    requires ApartNews(news)
    ensures ReferOpt(columns, news, v).Success? ==> RefersToOpt(ReferOpt(columns, news, v).value, columns, news, v)
  {
    hide RefersTo, Refer;
    if v.Some? {
      ReferIs(columns, news, v.value);
    }
  }

  lemma ReadMeans(b: BoardState, news: News, req: ChangeRequest)
    requires ApartNews(news) && Read(b, news, req).Success?
    ensures IsRead(b, news, req, Read(b, news, req).value)
  {
    hide RefersTo, Refer, RefersToOpt, ReferOpt;
    match req {
      case WantAdd(_, _, before) => ReferOptIs(b.columns, news, before);
      case WantEdit(col, _, _) => ReferIs(b.columns, news, col);
      case WantMove(col, before) =>
        ReferIs(b.columns, news, col);
        ReferOptIs(b.columns, news, before);
      case WantDelete(col, to) =>
        ReferIs(b.columns, news, col);
        ReferOptIs(b.columns, news, to);
    }
  }

  // ---------- A whole proposal ----------

  /** What was added has ids of its own, up to the counter. */
  ghost predicate NewsOf(b: BoardState, news: News) {
    ApartNews(news) && forall k :: 0 <= k < |news| ==> news[k].1 <= b.nextCol
  }

  lemma NewsKept(b: BoardState, ch: ColChange, news: News, now: nat)
    requires WellFormed(b) && NewsOf(b, news) && ApplyChange(b, ch, news, now).result.Success?
    ensures var r := ApplyChange(b, ch, news, now); WellFormed(r.board) && NewsOf(r.board, r.news)
  {
    hide WellFormed, ApplyChange, OnlyOneGone, StandsBefore, Effect, SameCards, Meant, MeantOpt, OnlyOneEdited;
    ChangeEffect(b, ch, news, now);
  }

  /** Each change is what was asked for, read on the board and with the news that the changes before it left. */
  ghost predicate AllRead(b: BoardState, news: News, reqs: seq<ChangeRequest>, changes: seq<ColChange>, now: nat)
    decreases |reqs|
  {
    && |changes| == |reqs|
    && (|reqs| > 0 ==>
          && IsRead(b, news, reqs[0], changes[0])
          && var one := ApplyChange(b, changes[0], news, now);
             one.result.Success? && AllRead(one.board, one.news, reqs[1..], changes[1..], now))
  }

  lemma {:induction false} SimulationReads(b: BoardState, reqs: seq<ChangeRequest>, news: News, now: nat)
    requires WellFormed(b) && NewsOf(b, news) && Simulate(b, reqs, news, now).result.Success?
    ensures AllRead(b, news, reqs, Simulate(b, reqs, news, now).result.value, now)
    decreases |reqs|
  {
    hide WellFormed, ApplyChange, IsRead, Read;
    if |reqs| > 0 {
      ReadMeans(b, news, reqs[0]);
      var ch := Read(b, news, reqs[0]).value;
      var one := ApplyChange(b, ch, news, now);
      NewsKept(b, ch, news, now);
      SimulationReads(one.board, reqs[1..], one.news, now);
      var rest := Simulate(one.board, reqs[1..], one.news, now).result.value;
      assert ([ch] + rest)[1..] == rest;
    }
  }

  /** An accepted proposal is queued last, under a new number, and asks for what was asked. */
  lemma ProposedAsAsked(b: BoardState, from: nat, reqs: seq<ChangeRequest>, why: string, now: nat)
    requires WellFormed(b) && Propose(b, from, reqs, why, now).result.Success?
    ensures var o := Propose(b, from, reqs, why, now);
            && o.result.value == b.nextProp + 1 && |o.board.proposals| == |b.proposals| + 1
            && var p := o.board.proposals[|b.proposals|];
               && o.board == b.(nextProp := b.nextProp + 1, proposals := b.proposals + [p])
               && p.id == b.nextProp + 1 && p.proposer == from && p.why == why && p.at == now
               && AllRead(b, [], reqs, p.changes, now)
  {
    hide WellFormed, Simulate, AllRead, NamesDistinct;
    SimulationReads(b, reqs, [], now);
  }

  // ---------- A proposal that means the wrong column ----------

  /** The default board with its three columns and these. */
  function With(more: seq<Column>): BoardState {
    DEFAULT_BOARD.(columns := DEFAULT_BOARD.columns + more, nextCol := 3 + |more|)
  }

  const TWICE_A: seq<ChangeRequest> :=
    [WantAdd("A", "", None), WantEdit(ByName("A"), Some("B"), None), WantAdd("A", "", None), WantEdit(ByName("A"), None, Some("x"))]

  lemma NoCards(b: BoardState, e: BoardEdit, now: nat)
    requires b.cards == [] && (e.ColAdd? || e.ColEdit?) && ApplyUser(b, e, now, "").result.Success?
    ensures ApplyUser(b, e, now, "").board.cards == [] && ApplyUser(b, e, now, "").result.value.events == []
  {
  }

  lemma AddsA(more: seq<Column>, news: News, now: nat)
    requires |more| < 3
    ensures var ch, c := AddCol("A", "", None), Column(4 + |more|, "A", "");
            && Read(With(more), news, WantAdd("A", "", None)) == Success(ch)
            && ApplyChange(With(more), ch, news, now) == Applied(With(more + [c]), news + [("A", 4 + |more|)], Success([]))
  {
    var b, e := With(more), ColAdd("A", "");
    assert ApplyUser(b, e, now, "").result.Success?;
    NoCards(b, e, now);
    assert DEFAULT_BOARD.columns + more + [Column(4 + |more|, "A", "")] == DEFAULT_BOARD.columns + (more + [Column(4 + |more|, "A", "")]);
  }

  /** On a board whose last column is the only `A`, that is what `A` names. */
  lemma NamesA(more: seq<Column>)
    requires |more| == 1 || (|more| == 2 && more[0] == Column(4, "B", ""))
    requires more[|more| - 1] == Column(3 + |more|, "A", "")
    ensures ColBy(With(more).columns, ByName("A")) == Success(3 + |more|)
  {
    var columns := With(more).columns;
    assert columns[2 + |more|] == Column(3 + |more|, "A", "");
    assert columns[0].name == "To Do" && columns[1].name[0] == 'D' && columns[2].name[0] == 'D';
    assert |"To Do"| == 5 && |columns[1].name| == 5 && |columns[2].name| == 4 && |"A"| == 1;
    assert !SameName(columns[0].name, "A") && !SameName(columns[1].name, "A") && !SameName(columns[2].name, "A");
    assert SameName("A", "A");
    if |more| == 2 {
      assert columns[3].name == "B" && Lower("B"[0]) != Lower("A"[0]);
    }
    NamePosIs(columns, "A");
    var i := NamePos(columns, "A").value;
  }

  lemma EditsFour(more: seq<Column>, news: News, name: Option<string>, desc: Option<string>, c: Column, now: nat)
    requires |more| > 0 && more[0].id == 4 && |news| > 0 && news[0] == ("A", 4)
    requires c == Column(4, if name.Some? && name.value != "" then name.value else more[0].name,
                         if desc.Some? then desc.value else more[0].desc)
    ensures ApplyChange(With(more), EditCol(New("A"), name, desc), news, now) == Applied(With(more[0 := c]), news, Success([]))
  {
    var b, e := With(more), ColEdit(4, name, desc);
    assert b.columns[0].id == 1 && b.columns[1].id == 2 && b.columns[2].id == 3 && b.columns[3] == more[0];
    assert ColPos(b.columns, 4) == Some(3);
    assert ApplyUser(b, e, now, "").result.Success?;
    NoCards(b, e, now);
    assert b.columns[3 := c] == DEFAULT_BOARD.columns + more[0 := c];
  }

  lemma ReadsNewA(more: seq<Column>, news: News, name: Option<string>, desc: Option<string>)
    requires ColBy(With(more).columns, ByName("A")) == Success(3 + |more|)
    requires NewsById(news, 3 + |more|) == Some("A") && name != Some("") && (name.Some? || desc.Some?)
    ensures Read(With(more), news, WantEdit(ByName("A"), name, desc)) == Success(EditCol(New("A"), name, desc))
  {
    hide ColBy;
  }

  lemma OneStep(b: BoardState, reqs: seq<ChangeRequest>, news: News, ch: ColChange, b1: BoardState, news1: News, now: nat)
    requires |reqs| > 0 && Read(b, news, reqs[0]) == Success(ch) && ApplyChange(b, ch, news, now) == Applied(b1, news1, Success([]))
    ensures var s, s1 := Simulate(b, reqs, news, now), Simulate(b1, reqs[1..], news1, now);
            s1.result.Success? ==> s.result.Success? && s.board == s1.board
  {
    hide Read, ApplyChange;
  }

  lemma NoStep(b: BoardState, news: News, now: nat)
    ensures Simulate(b, [], news, now) == Simulated(b, news, Success([]))
  {
  }

  lemma FirstHalf(now: nat)
    ensures var b, news := With([Column(4, "B", "")]), [("A", 4)];
            var s, s1 := Simulate(DEFAULT_BOARD, TWICE_A, [], now), Simulate(b, TWICE_A[2..], news, now);
            s1.result.Success? ==> s.result.Success? && s.board == s1.board
  {
    hide ApplyChange, Read, ColBy, Simulate;
    var a, b := Column(4, "A", ""), Column(4, "B", "");
    var n1: News := [("A", 4)];
    assert With([]) == DEFAULT_BOARD;
    AddsA([], [], now);
    assert [] + [a] == [a] && [] + [("A", 4)] == n1;
    NamesA([a]);
    ReadsNewA([a], n1, Some("B"), None);
    EditsFour([a], n1, Some("B"), None, b, now);
    assert [a][0 := b] == [b] && TWICE_A[1..][1..] == TWICE_A[2..];
    OneStep(With([a]), TWICE_A[1..], n1, EditCol(New("A"), Some("B"), None), With([b]), n1, now);
    OneStep(DEFAULT_BOARD, TWICE_A, [], AddCol("A", "", None), With([a]), n1, now);
  }

  lemma SecondHalf(now: nat)
    ensures var b, news := With([Column(4, "B", "")]), [("A", 4)];
            var s := Simulate(b, TWICE_A[2..], news, now);
            s.result.Success? && s.board == With([Column(4, "B", "x"), Column(5, "A", "")])
  {
    hide ApplyChange, Read, ColBy, Simulate;
    var b, c, d := Column(4, "B", ""), Column(5, "A", ""), Column(4, "B", "x");
    var n1, n2: News := [("A", 4)], [("A", 4), ("A", 5)];
    AddsA([b], n1, now);
    assert [b] + [c] == [b, c] && n1 + [("A", 5)] == n2;
    NamesA([b, c]);
    assert NewsById(n2, 5) == Some("A") by {
      assert n2[1..] == [("A", 5)];
    }
    ReadsNewA([b, c], n2, None, Some("x"));
    EditsFour([b, c], n2, None, Some("x"), d, now);
    assert [b, c][0 := d] == [d, c] && TWICE_A[2..][1..] == TWICE_A[3..] && TWICE_A[3..][1..] == [];
    NoStep(With([d, c]), n2, now);
    OneStep(With([b, c]), TWICE_A[3..], n2, EditCol(New("A"), None, Some("x")), With([d, c]), n2, now);
    OneStep(With([b]), TWICE_A[2..], n1, AddCol("A", "", None), With([b, c]), n2, now);
  }

  /** The last change names column 5, the only one called `A` by then; what is queued, and done if approved, edits column 4. */
  lemma MeansTheOther(now: nat)
    ensures ColBy(With([Column(4, "B", ""), Column(5, "A", "")]).columns, ByName("A")) == Success(5)
    ensures Simulate(DEFAULT_BOARD, TWICE_A, [], now).result.Success?
    ensures Simulate(DEFAULT_BOARD, TWICE_A, [], now).board == With([Column(4, "B", "x"), Column(5, "A", "")])
  {
    hide ColBy, Simulate;
    NamesA([Column(4, "B", ""), Column(5, "A", "")]);
    FirstHalf(now);
    SecondHalf(now);
  }
}
