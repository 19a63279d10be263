/** Where cards stand: what display order keeps, and where each edit puts the cards it moves. */
module BoardPlaces {
  import opened Wrappers
  import opened BoardState
  import opened BoardCards
  import opened BoardTelling
  import opened BoardInvariant
  import opened ProposalReading
  import opened ClaudeEffects

  ghost predicate Has(cards: seq<Card>, n: nat) {
    exists i :: 0 <= i < |cards| && cards[i].n == n
  }

  /** Card `m` stands somewhere before card `n`. */
  ghost predicate Precedes(cards: seq<Card>, m: nat, n: nat) {
    exists i, j :: 0 <= i < j < |cards| && cards[i].n == m && cards[j].n == n
  }

  lemma HasFound(cards: seq<Card>, n: nat)
    ensures Has(cards, n) <==> Find(cards, n).Some?
  {
  }

  lemma HasConcat(a: seq<Card>, b: seq<Card>, n: nat)
    ensures Has(a + b, n) <==> Has(a, n) || Has(b, n)
  {
    if Has(b, n) {
      var i :| 0 <= i < |b| && b[i].n == n;
      assert (a + b)[|a| + i].n == n;
    }
    if Has(a, n) {
      var i :| 0 <= i < |a| && a[i].n == n;
      assert (a + b)[i].n == n;
    }
  }

  lemma PrecedesConcat(a: seq<Card>, b: seq<Card>, m: nat, n: nat)
    ensures Precedes(a + b, m, n) <==> Precedes(a, m, n) || Precedes(b, m, n) || (Has(a, m) && Has(b, n))
  {
    var c := a + b;
    if Precedes(c, m, n) {
      var i, j :| 0 <= i < j < |c| && c[i].n == m && c[j].n == n;
      if j < |a| {
        assert a[i].n == m && a[j].n == n;
      } else if i >= |a| {
        assert b[i - |a|].n == m && b[j - |a|].n == n;
      } else {
        assert a[i].n == m && b[j - |a|].n == n;
      }
    }
    if Precedes(a, m, n) {
      var i, j :| 0 <= i < j < |a| && a[i].n == m && a[j].n == n;
      assert c[i].n == m && c[j].n == n;
    }
    if Precedes(b, m, n) {
      var i, j :| 0 <= i < j < |b| && b[i].n == m && b[j].n == n;
      assert c[|a| + i].n == m && c[|a| + j].n == n;
    }
    if Has(a, m) && Has(b, n) {
      var i :| 0 <= i < |a| && a[i].n == m;
      var j :| 0 <= j < |b| && b[j].n == n;
      assert c[i].n == m && c[|a| + j].n == n;
    }
  }

  lemma OneCard(c: Card, m: nat, n: nat)
    ensures !Precedes([c], m, n) && (Has([c], n) <==> c.n == n) && !Precedes([], m, n) && !Has([], n)
  {
    assert [c][0].n == c.n;
  }

  // ---------- Display order ----------

  /** Urgent and not archived. */
  ghost predicate PinnedAt(cards: seq<Card>, n: nat) {
    Find(cards, n).Some? && Find(cards, n).value.urgent && !Find(cards, n).value.archived
  }

  lemma FindHead(cards: seq<Card>, n: nat)
    requires |cards| > 0
    ensures Find(cards, n) == if cards[0].n == n then Some(cards[0]) else Find(cards[1..], n)
  {
  }

  lemma {:induction false} PartsInOrder(cards: seq<Card>, m: nat, n: nat)
    requires Distinct(cards)
    ensures Has(PinnedOf(cards), n) <==> PinnedAt(cards, n)
    ensures Has(OthersOf(cards), n) <==> Has(cards, n) && !PinnedAt(cards, n)
    ensures Has(PinnedOf(cards), m) <==> PinnedAt(cards, m)
    ensures Has(OthersOf(cards), m) <==> Has(cards, m) && !PinnedAt(cards, m)
    ensures Precedes(PinnedOf(cards), m, n) <==> Precedes(cards, m, n) && PinnedAt(cards, m) && PinnedAt(cards, n)
    ensures Precedes(OthersOf(cards), m, n) <==> Precedes(cards, m, n) && !PinnedAt(cards, m) && !PinnedAt(cards, n)
  {
    hide Distinct, Has, Precedes, Find, PinnedOf, OthersOf;
    if |cards| == 0 {
      OneCard(Card(0, "", None, [], 0, None, false, [], None, [], false, ByUser, None, false, 0, 0), m, n);
      OneCard(Card(0, "", None, [], 0, None, false, [], None, [], false, ByUser, None, false, 0, 0), n, m);
      NoneFound(cards, n);
      NoneFound(cards, m);
    } else {
      var c, rest := cards[0], cards[1..];
      TailDistinct(cards);
      PartsInOrder(rest, m, n);
      HeadParts(c, rest, m, n);
      assert cards == [c] + rest;
      OneCard(c, m, n);
      OneCard(c, n, m);
      FindHead(cards, m);
      FindHead(cards, n);
      HasFound(rest, c.n);
      HasFound(rest, m);
      HasFound(rest, n);
      FoundMember(rest, c.n);
      PrecedesConcat([c], rest, m, n);
      HasConcat([c], rest, m);
      HasConcat([c], rest, n);
      NotBeforeNone(rest, m, n);
      assert PinnedAt(cards, m) <==> if c.n == m then c.urgent && !c.archived else PinnedAt(rest, m);
      assert PinnedAt(cards, n) <==> if c.n == n then c.urgent && !c.archived else PinnedAt(rest, n);
      assert c.n == m ==> !Has(rest, m) && !Precedes(rest, m, n);
      assert c.n == n ==> !Has(rest, n) && !Precedes(rest, m, n);
    }
  }

  lemma NotBeforeNone(cards: seq<Card>, m: nat, n: nat)
    ensures Precedes(cards, m, n) ==> Has(cards, m) && Has(cards, n)
  {
  }

  lemma NoneFound(cards: seq<Card>, n: nat)
    requires |cards| == 0
    ensures Find(cards, n).None? && !Has(cards, n) && cards == [] && PinnedOf(cards) == [] && OthersOf(cards) == []
  {
  }

  /** What the first card adds to the two parts. */
  lemma HeadParts(c: Card, rest: seq<Card>, m: nat, n: nat)
    ensures var cards := [c] + rest; var pinned := c.urgent && !c.archived;
            && (Has(PinnedOf(cards), n) <==> (pinned && c.n == n) || Has(PinnedOf(rest), n))
            && (Has(OthersOf(cards), n) <==> (!pinned && c.n == n) || Has(OthersOf(rest), n))
            && (Has(PinnedOf(cards), m) <==> (pinned && c.n == m) || Has(PinnedOf(rest), m))
            && (Has(OthersOf(cards), m) <==> (!pinned && c.n == m) || Has(OthersOf(rest), m))
            && (Precedes(PinnedOf(cards), m, n) <==> (pinned && c.n == m && Has(PinnedOf(rest), n)) || Precedes(PinnedOf(rest), m, n))
            && (Precedes(OthersOf(cards), m, n) <==> (!pinned && c.n == m && Has(OthersOf(rest), n)) || Precedes(OthersOf(rest), m, n))
  {
    hide Has, Precedes;
    var cards := [c] + rest;
    assert cards[0] == c && cards[1..] == rest;
    OneCard(c, m, n);
    OneCard(c, n, m);
    PrecedesConcat([c], PinnedOf(rest), m, n);
    PrecedesConcat([c], OthersOf(rest), m, n);
    HasConcat([c], PinnedOf(rest), m);
    HasConcat([c], OthersOf(rest), m);
    HasConcat([c], PinnedOf(rest), n);
    HasConcat([c], OthersOf(rest), n);
    assert [] + PinnedOf(rest) == PinnedOf(rest) && [] + OthersOf(rest) == OthersOf(rest);
  }

  /** Display order: a pinned card before one that is not, and otherwise as they stood. */
  lemma NormalizedOrder(cards: seq<Card>, m: nat, n: nat)
    requires Distinct(cards) && Has(cards, m) && Has(cards, n) && m != n
    ensures Precedes(Normalize(cards), m, n) <==>
            if PinnedAt(cards, m) != PinnedAt(cards, n) then PinnedAt(cards, m) else Precedes(cards, m, n)
  {
    hide Has, Precedes, Find, PinnedOf, OthersOf;
    PartsInOrder(cards, m, n);
    PrecedesConcat(PinnedOf(cards), OthersOf(cards), m, n);
  }

  // ---------- One card put somewhere ----------

  /** Others keep their order when a card is put among them. */
  lemma InsertOrder(rest: seq<Card>, k: nat, c: Card, m: nat, n: nat)
    requires k <= |rest|
    ensures m != c.n && n != c.n ==> (Precedes(InsertAt(rest, k, c), m, n) <==> Precedes(rest, m, n))
    ensures n != c.n && Has(rest[k..], n) ==> Precedes(InsertAt(rest, k, c), c.n, n)
    ensures n != c.n && Has(rest[..k], n) ==> Precedes(InsertAt(rest, k, c), n, c.n)
  {
    hide Has, Precedes;
    assert InsertAt(rest, k, c) == (rest[..k] + [c]) + rest[k..] && rest == rest[..k] + rest[k..];
    OneCard(c, m, n);
    OneCard(c, n, m);
    OneCard(c, c.n, n);
    OneCard(c, n, c.n);
    HasConcat(rest[..k], [c], m);
    HasConcat(rest[..k], [c], n);
    HasConcat(rest[..k], [c], c.n);
    PrecedesConcat(rest[..k], rest[k..], m, n);
    PrecedesConcat(rest[..k] + [c], rest[k..], m, n);
    PrecedesConcat(rest[..k], [c], m, n);
    PrecedesConcat(rest[..k] + [c], rest[k..], c.n, n);
    PrecedesConcat(rest[..k] + [c], rest[k..], n, c.n);
    PrecedesConcat(rest[..k], [c], n, c.n);
  }

  lemma RemoveOrder(cards: seq<Card>, i: nat, m: nat, n: nat)
    requires Distinct(cards) && i < |cards| && m != cards[i].n && n != cards[i].n
    ensures Precedes(RemoveAt(cards, i), m, n) <==> Precedes(cards, m, n)
  {
    hide Has, Precedes;
    var a, b := cards[..i], cards[i + 1..];
    assert cards == (a + [cards[i]]) + b;
    OneCard(cards[i], m, n);
    OneCard(cards[i], n, m);
    HasConcat(a, [cards[i]], m);
    PrecedesConcat(a + [cards[i]], b, m, n);
    PrecedesConcat(a, [cards[i]], m, n);
    PrecedesConcat(a, b, m, n);
  }

  /** Put on top of its column, a card stands before every other card of that column. */
  lemma OnTop(rest: seq<Card>, card: Card, col: nat, n: nat)
    requires Distinct(rest) && n != card.n && Find(rest, n).Some? && Find(rest, n).value.col == col
    ensures Precedes(Place(rest, card, col, None, true), card.n, n)
  {
    hide Has, Precedes, InsertAt;
    var k := PlaceAt(rest, col, None, true);
    var j := Pos(rest, n).value;
    assert FirstIn(rest, col).Some? && k <= j;
    assert Has(rest[k..], n) by {
      AtIndex(rest[k..], j - k, n);
    }
    InsertOrder(rest, k, card.(col := col), card.n, n);
  }

  lemma AtIndex(cards: seq<Card>, i: nat, n: nat)
    requires i < |cards| && cards[i].n == n
    ensures Has(cards, n)
  {
  }

  /** Put at the end of its column, a card stands after every other card of that column. */
  lemma AtEnd(rest: seq<Card>, card: Card, col: nat, before: Option<nat>, n: nat)
    requires Distinct(rest) && n != card.n && Find(rest, n).Some? && Find(rest, n).value.col == col
    requires before.Some? ==> Find(rest, before.value).None? || Find(rest, before.value).value.col != col
    ensures Precedes(Place(rest, card, col, before, false), n, card.n)
  {
    hide Has, Precedes, InsertAt;
    var k := PlaceAt(rest, col, before, false);
    var j := Pos(rest, n).value;
    if before.Some? {
      NotInColumn(rest, before.value, col);
    }
    assert LastIn(rest, col).Some? && j < k;
    assert Has(rest[..k], n) by {
      AtIndex(rest[..k], j, n);
    }
    InsertOrder(rest, k, card.(col := col), card.n, n);
  }

  lemma NotInColumn(cards: seq<Card>, n: nat, col: nat)
    requires Distinct(cards) && (Find(cards, n).None? || Find(cards, n).value.col != col)
    ensures PosIn(cards, n, col).None?
  {
    if PosIn(cards, n, col).Some? {
      FindMember(cards, cards[PosIn(cards, n, col).value]);
    }
  }

  /** The others keep their order when one card is taken out and put somewhere. */
  lemma ReplaceOrder(cards: seq<Card>, i: nat, card: Card, col: nat, before: Option<nat>, top: bool, m: nat, n: nat)
    requires Distinct(cards) && i < |cards| && card.n == cards[i].n && m != card.n && n != card.n
    ensures Precedes(Place(RemoveAt(cards, i), card, col, before, top), m, n) <==> Precedes(cards, m, n)
  {
    hide Has, Precedes, RemoveAt, InsertAt;
    RemoveOrder(cards, i, m, n);
    InsertOrder(RemoveAt(cards, i), PlaceAt(RemoveAt(cards, i), col, before, top), card.(col := col), m, n);
  }

  // ---------- The user's edits ----------

  ghost predicate AlikeAt(cards: seq<Card>, m: nat, n: nat) {
    PinnedAt(cards, m) == PinnedAt(cards, n)
  }

  /** A new card stands last in its column among cards pinned like it; the others keep their order. */
  lemma AddStandsLast(b: BoardState, e: BoardEdit, now: nat, m: nat, n: nat)
    requires Numbered(b) && e.Add? && UserAdd(b, e, now).result.Success? && m != n
    requires Find(b.cards, m).Some? && Find(b.cards, n).Some?
    ensures var r := UserAdd(b, e, now).board.cards;
            && (AlikeAt(b.cards, m, n) ==> (Precedes(r, m, n) <==> Precedes(b.cards, m, n)))
            && (Find(b.cards, n).value.col == e.col && !PinnedAt(b.cards, n) ==> Precedes(r, n, b.next + 1))
  {
    hide Has, Precedes, Place, Normalize, Find;
    var card := NewUserCard(b, e, now);
    var raw := Place(b.cards, card, e.col, None, false);
    FoundMember(b.cards, b.next + 1);
    FoundNumber(b.cards);
    FoundBelow(b, m);
    FoundBelow(b, n);
    assert card.(col := e.col) == card;
    FindAfterPlace(b.cards, card, e.col, None, false);
    HasFound(raw, m);
    HasFound(raw, n);
    HasFound(raw, card.n);
    PlacedOrder(b.cards, card, e.col, None, false, m, n);
    NormalizedOrder(raw, m, n);
    NormalizedOrder(raw, n, card.n);
    if Find(b.cards, n).value.col == e.col {
      AtEnd(b.cards, card, e.col, None, n);
    }
  }

  lemma FoundBelow(b: BoardState, n: nat)
    requires Numbered(b) && Find(b.cards, n).Some?
    ensures n <= b.next
  {
    FoundMember(b.cards, n);
  }

  lemma PlacedOrder(rest: seq<Card>, card: Card, col: nat, before: Option<nat>, top: bool, m: nat, n: nat)
    requires m != card.n && n != card.n
    ensures Precedes(Place(rest, card, col, before, top), m, n) <==> Precedes(rest, m, n)
  {
    hide Has, Precedes, InsertAt;
    InsertOrder(rest, PlaceAt(rest, col, before, top), card.(col := col), m, n);
  }

  /** A card moved without a place to go before stands last in its column among cards pinned like it. */
  lemma MoveStandsLast(b: BoardState, e: BoardEdit, now: nat, n: nat)
    requires Numbered(b) && e.Move? && UserMove(b, e, now).result.Success? && n != e.n
    requires e.before.Some? ==> e.before == Some(e.n) || Find(b.cards, e.before.value).None? || Find(b.cards, e.before.value).value.col != e.col
    requires Find(b.cards, n).Some? && Find(b.cards, n).value.col == e.col && AlikeAt(b.cards, e.n, n)
    ensures Precedes(UserMove(b, e, now).board.cards, n, e.n)
  {
    hide Has, Precedes, Place, Normalize, Find;
    var i := Pos(b.cards, e.n).value;
    FindMember(b.cards, b.cards[i]);
    var c1 := if b.cards[i].col != e.col then b.cards[i].(updated := now) else b.cards[i];
    var before := if e.before == Some(e.n) then None else e.before;
    var rest := RemoveAt(b.cards, i);
    var raw := Place(rest, c1, e.col, before, false);
    FindAfterRemove(b.cards, i);
    FindAfterReplace(b.cards, i, c1, e.col, before, false);
    AtEnd(rest, c1, e.col, before, n);
    HasFound(raw, n);
    HasFound(raw, e.n);
    NormalizedOrder(raw, n, e.n);
  }

  // ---------- A deleted column's cards ----------

  /** Each of `ns` ends after every card of `dest` that was there, and after those of `ns` before it; the rest keep their order. */
  lemma {:induction false} RehomedOrder(cards: seq<Card>, ns: seq<nat>, dest: nat, picked: bool, now: nat, m: nat, n: nat)
    requires Distinct(cards) && NoRepeats(ns) && (forall x :: x in ns ==> Find(cards, x).Some?) && m != n
    ensures var r := Rehome(cards, ns, dest, picked, now).0;
            && (m !in ns && n !in ns ==> (Precedes(r, m, n) <==> Precedes(cards, m, n)))
            && (m !in ns && n in ns && Find(cards, m).Some? && Find(cards, m).value.col == dest ==> Precedes(r, m, n))
            && forall i, j :: 0 <= i < j < |ns| && ns[i] == m && ns[j] == n ==> Precedes(r, m, n)
    decreases |ns|
  {
    hide Precedes, Place, Has, Find;
    if |ns| > 0 {
      assert ns[0] in ns;
      HasFound(cards, ns[0]);
      var i := FoundAt(cards, ns[0]);
      var c1 := Rehomed(cards[i], dest, picked, now);
      var placed := Place(RemoveAt(cards, i), c1, dest, None, false);
      FindAfterReplace(cards, i, c1, dest, None, false);
      assert c1.(col := dest) == c1;
      assert forall x :: x in ns <==> x == ns[0] || x in ns[1..];
      assert ns[0] !in ns[1..];
      RehomedOrder(placed, ns[1..], dest, picked, now, m, n);
      if m != ns[0] && n != ns[0] {
        ReplaceOrder(cards, i, c1, dest, None, false, m, n);
      } else if n == ns[0] && m !in ns && Find(cards, m).Some? && Find(cards, m).value.col == dest {
        FindAfterRemove(cards, i);
        AtEnd(RemoveAt(cards, i), c1, dest, None, m);
      }
      forall j, k | 0 <= j < k < |ns| && ns[j] == m && ns[k] == n ensures Precedes(Rehome(cards, ns, dest, picked, now).0, m, n) {
        if j > 0 {
          assert ns[1..][j - 1] == m && ns[1..][k - 1] == n;
        } else {
          assert ns[1..][k - 1] == n;
        }
      }
    }
  }

  lemma FoundAt(cards: seq<Card>, n: nat) returns (i: nat)
    requires Find(cards, n).Some?
    ensures Pos(cards, n) == Some(i) && i < |cards| && cards[i].n == n && Find(cards, n) == Some(cards[i])
  {
    i := Pos(cards, n).value;
  }

  lemma {:induction false} NumbersInOrder(cards: seq<Card>, col: nat, i: nat, j: nat) returns (k: nat, l: nat)
    requires i < j < |cards| && cards[i].col == col && cards[j].col == col
    ensures k < l < |NumbersIn(cards, col)| && NumbersIn(cards, col)[k] == cards[i].n && NumbersIn(cards, col)[l] == cards[j].n
  {
    var rest := cards[1..];
    var first := if cards[0].col == col then [cards[0].n] else [];
    if i > 0 {
      assert rest[i - 1] == cards[i] && rest[j - 1] == cards[j];
      k, l := NumbersInOrder(rest, col, i - 1, j - 1);
      k, l := k + |first|, l + |first|;
    } else {
      assert rest[j - 1] == cards[j];
      l := NumberIn(rest, col, j - 1);
      k, l := 0, l + 1;
    }
  }

  lemma {:induction false} NumberIn(cards: seq<Card>, col: nat, j: nat) returns (l: nat)
    requires j < |cards| && cards[j].col == col
    ensures l < |NumbersIn(cards, col)| && NumbersIn(cards, col)[l] == cards[j].n
  {
    if j == 0 {
      l := 0;
    } else {
      assert cards[1..][j - 1] == cards[j];
      l := NumberIn(cards[1..], col, j - 1);
      l := l + if cards[0].col == col then 1 else 0;
    }
  }

  /** A deleted column's cards stand in their order after the cards of the column they go to, among cards pinned alike. */
  lemma DeletedColumnGoesLast(b: BoardState, e: BoardEdit, now: nat, m: nat, n: nat)
    requires Numbered(b) && e.ColDelete? && UserColDelete(b, e, now).result.Success? && m != n
    requires Find(b.cards, m).Some? && Find(b.cards, n).Some? && AlikeAt(UserColDelete(b, e, now).board.cards, m, n)
    ensures var r, c, d := UserColDelete(b, e, now).board.cards, Find(b.cards, m).value, Find(b.cards, n).value;
            var dest := if e.dest.Some? then e.dest.value else FirstOther(b.columns, e.col);
            && (c.col != e.col && d.col != e.col ==> (Precedes(r, m, n) <==> Precedes(b.cards, m, n)))
            && (c.col == dest && dest != e.col && d.col == e.col ==> Precedes(r, m, n))
            && (c.col == e.col && d.col == e.col && Precedes(b.cards, m, n) ==> Precedes(r, m, n))
  {
    hide Precedes, Has, Find, Normalize, Rehome, NumbersIn, FirstOther;
    var dest := if e.dest.Some? then e.dest.value else FirstOther(b.columns, e.col);
    var ns := NumbersIn(b.cards, e.col);
    var raw := Rehome(b.cards, ns, dest, e.dest.Some?, now).0;
    NumbersInColumn(b.cards, e.col);
    FindAfterRehome(b.cards, ns, dest, e.dest.Some?, now);
    FindAfterNormalize(raw);
    RehomedOrder(b.cards, ns, dest, e.dest.Some?, now, m, n);
    HasFound(raw, m);
    HasFound(raw, n);
    NormalizedOrder(raw, m, n);
    if Precedes(b.cards, m, n) && Find(b.cards, m).value.col == e.col && Find(b.cards, n).value.col == e.col {
      var i, j := PrecedesAt(b.cards, m, n);
      FindMember(b.cards, b.cards[i]);
      FindMember(b.cards, b.cards[j]);
      var k, l := NumbersInOrder(b.cards, e.col, i, j);
    }
  }

  lemma PrecedesAt(cards: seq<Card>, m: nat, n: nat) returns (i: nat, j: nat)
    requires Precedes(cards, m, n)
    ensures i < j < |cards| && cards[i].n == m && cards[j].n == n
  {
    i, j :| 0 <= i < j < |cards| && cards[i].n == m && cards[j].n == n;
  }

  // ---------- Edits that move nothing ----------

  /** The same numbers in the same places. */
  ghost predicate SamePlaces(cards: seq<Card>, cards1: seq<Card>) {
    |cards1| == |cards| && forall i :: 0 <= i < |cards| ==> cards1[i].n == cards[i].n
  }

  lemma SamePlacesOrder(cards: seq<Card>, raw: seq<Card>, m: nat, n: nat)
    requires Distinct(cards) && SamePlaces(cards, raw) && m != n && Find(cards, m).Some? && Find(cards, n).Some?
    requires AlikeAt(Normalize(raw), m, n)
    ensures Precedes(Normalize(raw), m, n) <==> Precedes(cards, m, n)
  {
    hide Normalize, Find;
    HasFound(cards, m);
    HasFound(cards, n);
    var i :| 0 <= i < |cards| && cards[i].n == m;
    var j :| 0 <= j < |cards| && cards[j].n == n;
    assert raw[i].n == m && raw[j].n == n;
    SameRelation(cards, raw, m, n);
    FindAfterNormalize(raw);
    NormalizedOrder(raw, m, n);
  }

  lemma SameRelation(cards: seq<Card>, raw: seq<Card>, m: nat, n: nat)
    requires SamePlaces(cards, raw)
    ensures Precedes(raw, m, n) <==> Precedes(cards, m, n)
  {
    if Precedes(cards, m, n) {
      var i, j := PrecedesAt(cards, m, n);
      assert raw[i].n == m && raw[j].n == n;
    }
    if Precedes(raw, m, n) {
      var i, j := PrecedesAt(raw, m, n);
      assert cards[i].n == m && cards[j].n == n;
    }
  }

  /** A user edit that moves no card keeps the order of cards pinned alike. */
  lemma EditKeepsOrder(b: BoardState, e: BoardEdit, now: nat, uuid: string, m: nat, n: nat)
    requires Numbered(b) && ApplyUser(b, e, now, uuid).result.Success? && m != n
    requires ChangesInPlace(e) || e.ArchiveColumn? || e.ColAdd? || e.ColEdit? || e.ColMove?
    requires Find(b.cards, m).Some? && Find(b.cards, n).Some? && AlikeAt(ApplyUser(b, e, now, uuid).board.cards, m, n)
    ensures Precedes(ApplyUser(b, e, now, uuid).board.cards, m, n) <==> Precedes(b.cards, m, n)
  {
    hide Normalize, Find, Precedes, CardAfter, UserEdit, UserAssign, UserChoose, UserComment, UserEditComment, UserDeleteComment, UserArchive, UserSeen;
    if ChangesInPlace(e) {
      InPlaceCards(b, e, now, uuid);
      var i := Pos(b.cards, e.n).value;
      SamePlacesOrder(b.cards, b.cards[i := CardAfter(b, e, now, uuid, b.cards[i]).value], m, n);
    } else if e.ArchiveColumn? {
      SamePlacesOrder(b.cards, SweptAll(b.cards, e.col, now), m, n);
    } else {
      SamePlacesOrder(b.cards, b.cards, m, n);
    }
  }

  lemma {:induction false} ArchivedPlaces(cards: seq<Card>, ids: seq<nat>, actor: Option<nat>, now: nat)
    ensures SamePlaces(cards, ArchiveEach(cards, ids, actor, now).0)
    decreases |ids|
  {
    if |ids| > 0 {
      var p := Pos(cards, ids[0]);
      if p.Some? && !cards[p.value].archived {
        ArchivedPlaces(cards[p.value := cards[p.value].(archived := true, updated := now)], ids[1..], actor, now);
      } else {
        ArchivedPlaces(cards, ids[1..], actor, now);
      }
    }
  }

  /** And so does a claude's action that moves none. */
  lemma ActionKeepsOrder(b: BoardState, from: nat, a: ClaudeAction, now: nat, uuid: string, m: nat, n: nat)
    requires Numbered(b) && ApplyClaude(b, from, a, now, uuid).result.Success? && m != n
    requires a.UpdateCard? || a.CommentOn? || a.ArchiveCards? || a.ProposeColumns?
    requires Find(b.cards, m).Some? && Find(b.cards, n).Some? && AlikeAt(ApplyClaude(b, from, a, now, uuid).board.cards, m, n)
    ensures Precedes(ApplyClaude(b, from, a, now, uuid).board.cards, m, n) <==> Precedes(b.cards, m, n)
  {
    hide Normalize, Precedes, Simulate, NamesDistinct, ImagesOf, Updated, ArchiveEach;
    match a {
      case ArchiveCards(ids) =>
        ArchivedPlaces(b.cards, ids, Some(from), now);
        SamePlacesOrder(b.cards, ArchiveEach(b.cards, ids, Some(from), now).0, m, n);
      case ProposeColumns(_, _) => SamePlacesOrder(b.cards, b.cards, m, n);
      case UpdateCard(_, _, _, _, _, _, _) =>
        var i := Pos(b.cards, a.n).value;
        var picks := if a.choices.Some? then CleanChoices(a.choices.value).value else b.cards[i].choices;
        var c1 := Updated(b.cards[i], a, picks, ImagesOf(a.images).value, now);
        assert c1.n == b.cards[i].n by { SameNumber(b.cards[i], a, picks, ImagesOf(a.images).value, now); }
        SamePlacesOrder(b.cards, b.cards[i := c1], m, n);
      case CommentOn(_, _, _) =>
        var i := Pos(b.cards, a.n).value;
        var c := b.cards[i];
        SamePlacesOrder(b.cards, b.cards[i := c.(comments := c.comments + [Comment(uuid, ByClaude, Some(from), a.text, ImagesOf(a.images).value, now)],
                                                 updated := now, unread := true)], m, n);
    }
  }

  lemma SameNumber(c: Card, a: ClaudeAction, picks: seq<string>, images: seq<string>, now: nat)
    requires a.UpdateCard?
    ensures Updated(c, a, picks, images, now).n == c.n
  {
  }

  // ---------- The claudes' actions ----------

  /**
   Moved cards stand on top: each before every card of the column, but those named after it; the cards not named keep
   their order.
  */
  lemma {:induction false} MovedOnTop(cards: seq<Card>, ids: seq<nat>, col: nat, actor: Option<nat>, now: nat, i: nat, m: nat, n: nat)
    requires Distinct(cards) && forall x :: x in ids ==> Find(cards, x).Some?
    ensures var r := MoveToTop(cards, ids, col, actor, now).0;
            && (m !in ids && n !in ids ==> (Precedes(r, m, n) <==> Precedes(cards, m, n)))
            && (i < |ids| && ids[i] == m && m != n && n !in ids[i + 1..] && Find(r, n).Some? && Find(r, n).value.col == col ==>
                  Precedes(r, m, n))
    decreases |ids|
  {
    hide Precedes, Place, Has, Find;
    if |ids| > 0 {
      assert ids[0] in ids;
      var p := FoundAt(cards, ids[0]);
      var c1 := cards[p].(archived := false, updated := now, unread := true);
      var placed := Place(RemoveAt(cards, p), c1, col, None, true);
      FindAfterReplace(cards, p, c1, col, None, true);
      assert forall x :: x in ids <==> x == ids[0] || x in ids[1..];
      var r := MoveToTop(placed, ids[1..], col, actor, now).0;
      if m != ids[0] && n != ids[0] {
        ReplaceOrder(cards, p, c1, col, None, true, m, n);
      }
      if i > 0 {
        MovedOnTop(placed, ids[1..], col, actor, now, i - 1, m, n);
        assert i < |ids| ==> ids[1..][i - 1] == ids[i] && ids[1..][i..] == ids[i + 1..];
      } else if m == ids[0] && m != n && n !in ids[1..] && Find(r, n).Some? && Find(r, n).value.col == col {
        FindMoved(placed, ids[1..], col, actor, now);
        FindAfterRemove(cards, p);
        OnTop(RemoveAt(cards, p), c1, col, n);
        if m in ids[1..] {
          var j :| 0 <= j < |ids[1..]| && ids[1..][j] == m;
          assert n !in ids[1..][j + 1..];
          MovedOnTop(placed, ids[1..], col, actor, now, j, m, n);
        } else {
          MovedOnTop(placed, ids[1..], col, actor, now, |ids|, m, n);
        }
      } else {
        MovedOnTop(placed, ids[1..], col, actor, now, |ids|, m, n);
      }
    }
  }

  lemma FindMoved(cards: seq<Card>, ids: seq<nat>, col: nat, actor: Option<nat>, now: nat)
    requires Distinct(cards) && forall x :: x in ids ==> Find(cards, x).Some?
    ensures forall n: nat :: n !in ids ==> Find(MoveToTop(cards, ids, col, actor, now).0, n) == Find(cards, n)
  {
    assert forall i :: 0 <= i < |ids| ==> ids[i] in ids;
    FindAfterMoveToTop(cards, ids, col, actor, now);
  }

  /** A claude's moved cards stand on top of the column, the last named first, among cards pinned like them. */
  lemma ClaudeMovesToTop(b: BoardState, from: nat, ids: seq<nat>, dest: ColArg, now: nat, i: nat, n: nat)
    requires Numbered(b) && ClaudeMove(b, from, ids, dest, now).result.Success?
    requires i < |ids| && n != ids[i] && n !in ids[i + 1..]
    requires var r := ClaudeMove(b, from, ids, dest, now).board.cards;
             Find(r, n).Some? && Find(r, ids[i]).Some? && Find(r, n).value.col == Find(r, ids[i]).value.col && AlikeAt(r, ids[i], n)
    ensures Precedes(ClaudeMove(b, from, ids, dest, now).board.cards, ids[i], n)
  {
    hide Precedes, Has, Find, Normalize, MoveToTop, ColBy;
    var col := ColBy(b.columns, dest).value;
    var raw := MoveToTop(b.cards, ids, col, Some(from), now).0;
    AllFound(b.cards, ids);
    assert ids[i] in ids;
    FindAfterMoveToTop(b.cards, ids, col, Some(from), now);
    FindAfterNormalize(raw);
    MovedOnTop(b.cards, ids, col, Some(from), now, i, ids[i], n);
    HasFound(raw, ids[i]);
    HasFound(raw, n);
    NormalizedOrder(raw, ids[i], n);
  }

  lemma {:induction false} DraftsOnTop(cards: seq<Card>, next: nat, drafts: seq<Card>, actor: Option<nat>, i: nat, m: nat, n: nat)
    requires Distinct(cards) && forall c :: c in cards ==> c.n <= next
    ensures var r := AddDrafts(cards, next, drafts, actor).0;
            && (m <= next && n <= next ==> (Precedes(r, m, n) <==> Precedes(cards, m, n)))
            && (i < |drafts| && n <= next + i && Find(r, n).Some? && Find(r, n).value.col == drafts[i].col ==> Precedes(r, next + 1 + i, n))
    decreases |drafts|
  {
    hide Precedes, Place, Has, Find;
    if |drafts| > 0 {
      var card := drafts[0].(n := next + 1);
      var placed := Place(cards, card, card.col, None, true);
      FoundMember(cards, next + 1);
      assert card.(col := card.col) == card;
      FindAfterPlace(cards, card, card.col, None, true);
      FindAfterDrafts(placed, next + 1, drafts[1..], actor);
      if m <= next && n <= next {
        PlacedOrder(cards, card, card.col, None, true, m, n);
      }
      if i > 0 {
        DraftsOnTop(placed, next + 1, drafts[1..], actor, i - 1, m, n);
      } else {
        DraftsOnTop(placed, next + 1, drafts[1..], actor, |drafts|, m, n);
        if n <= next && Find(placed, n).Some? && Find(placed, n).value.col == drafts[0].col {
          OnTop(cards, card, card.col, n);
          DraftsOnTop(placed, next + 1, drafts[1..], actor, |drafts|, next + 1, n);
        }
      }
    }
  }

  /** A claude's new cards stand on top of their columns, the last first, among cards pinned like them. */
  lemma ClaudeAddsOnTop(b: BoardState, from: nat, items: seq<NewCard>, now: nat, i: nat, n: nat)
    requires Numbered(b) && ClaudeAdd(b, from, items, now).result.Success? && i < |items| && n <= b.next + i
    requires var r := ClaudeAdd(b, from, items, now).board.cards; var m := b.next + 1 + i;
             Find(r, n).Some? && Find(r, m).Some? && Find(r, n).value.col == Find(r, m).value.col && AlikeAt(r, m, n)
    ensures Precedes(ClaudeAdd(b, from, items, now).board.cards, b.next + 1 + i, n)
  {
    hide Precedes, Has, Find, Normalize, AddDrafts, Draft;
    var drafts := Drafts(b, from, items, now).value;
    var raw := AddDrafts(b.cards, b.next, drafts, Some(from)).0;
    FindAfterDrafts(b.cards, b.next, drafts, Some(from));
    FindAfterNormalize(raw);
    DraftsOnTop(b.cards, b.next, drafts, Some(from), i, b.next + 1 + i, n);
    HasFound(raw, b.next + 1 + i);
    HasFound(raw, n);
    NormalizedOrder(raw, b.next + 1 + i, n);
  }
}
