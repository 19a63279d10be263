/** Display order: what normalizing does, that moves lose nothing, and where a dropped card lands. */
module BoardOrder {
  import opened Wrappers
  import opened BoardState
  import opened BoardCards
  import opened BoardTelling
  import opened BoardInvariant

  // ---------- Normalize ----------

  lemma {:induction false} PinnedAmong(cards: seq<Card>)
    ensures multiset(PinnedOf(cards)) + multiset(OthersOf(cards)) == multiset(cards)
  {
    if |cards| != 0 {
      var first, rest := [cards[0]], cards[1..];
      PinnedAmong(rest);
      assert cards == first + rest;
      if IsPinned(cards[0]) {
        assert PinnedOf(cards) == first + PinnedOf(rest) && OthersOf(cards) == OthersOf(rest);
      } else {
        assert PinnedOf(cards) == PinnedOf(rest) && OthersOf(cards) == first + OthersOf(rest);
      }
    }
  }

  lemma {:induction false} PartsOfPinnedFirst(p: seq<Card>, o: seq<Card>)
    requires forall c :: c in p ==> IsPinned(c)
    requires forall c :: c in o ==> !IsPinned(c)
    ensures PinnedFirst(p + o)
  {
    forall i, j | 0 <= i < j < |p + o| ensures IsPinned((p + o)[j]) ==> IsPinned((p + o)[i]) {
      if j < |p| {
        assert (p + o)[i] in p;
      } else {
        assert (p + o)[j] in o;
      }
    }
  }

  /**
   `Normalize` is a permutation, idempotent and stable: it is the only list with the pinned cards
   first that keeps the pinned cards in their order and the others in theirs.
  */
  lemma NormalizeIsStable(cards: seq<Card>, r: seq<Card>)
    ensures multiset(Normalize(cards)) == multiset(cards)
    ensures Normalize(Normalize(cards)) == Normalize(cards)
    ensures r == Normalize(cards) <==>
            PinnedFirst(r) && PinnedOf(r) == PinnedOf(cards) && OthersOf(r) == OthersOf(cards)
  {
    PinnedAmong(cards);
    NormalizeTwice(cards);
    PinnedMembers(cards);
    NormalizedParts(PinnedOf(cards), OthersOf(cards));
    PartsOfPinnedFirst(PinnedOf(cards), OthersOf(cards));
    if PinnedFirst(r) {
      PinnedFirstStays(r);
    }
  }

  // ---------- Conservation ----------

  /** Every user edit but `Add` and `Delete` keeps the card numbers on the board. */
  lemma EditsConserve(b: BoardState, e: BoardEdit, now: nat, uuid: string)
    requires Numbered(b) && ApplyUser(b, e, now, uuid).result.Success?
    ensures var b1 := ApplyUser(b, e, now, uuid).board;
            forall m: nat :: Find(b1.cards, m).Some? <==>
                             (Find(b.cards, m).Some? && !(e.Delete? && e.n == m)) || (e.Add? && m == b.next + 1)
  {
    UserEffect(b, e, now, uuid);
    var b1 := ApplyUser(b, e, now, uuid).board;
    FoundNumber(b.cards);
    FoundMember(b.cards, b.next + 1);
    forall m: nat ensures Find(b1.cards, m).Some? <==>
                          (Find(b.cards, m).Some? && !(e.Delete? && e.n == m)) || (e.Add? && m == b.next + 1) {
      assert Find(b1.cards, m) == ExpectedAt(b, e, now, uuid, m);
    }
  }

  // ---------- Where a moved card lands ----------

  /** The list without card `n`. */
  function Without(cards: seq<Card>, n: nat): seq<Card> {
    if |cards| == 0 then []
    else (if cards[0].n == n then [] else [cards[0]]) + Without(cards[1..], n)
  }

  lemma WithoutConcat(a: seq<Card>, b: seq<Card>, n: nat)
    ensures Without(a + b, n) == Without(a, n) + Without(b, n)
  {
    if |a| == 0 {
      assert a + b == b;
    } else {
      assert (a + b)[1..] == a[1..] + b;
      WithoutConcat(a[1..], b, n);
    }
  }

  lemma WithoutAbsent(cards: seq<Card>, n: nat)
    requires forall c :: c in cards ==> c.n != n
    ensures Without(cards, n) == cards
  {
    if |cards| != 0 {
      assert cards[0] in cards;
      WithoutAbsent(cards[1..], n);
    }
  }

  lemma {:induction false} WithoutCommutes(cards: seq<Card>, n: nat)
    ensures Without(PinnedOf(cards), n) == PinnedOf(Without(cards, n))
    ensures Without(OthersOf(cards), n) == OthersOf(Without(cards, n))
  {
    if |cards| != 0 {
      var c, rest := cards[0], cards[1..];
      WithoutCommutes(rest, n);
      WithoutConcat(if IsPinned(c) then [c] else [], PinnedOf(rest), n);
      WithoutConcat(if IsPinned(c) then [] else [c], OthersOf(rest), n);
      assert Without([c], n) == if c.n == n then [] else [c];
      assert Without([], n) == [];
      if c.n != n {
        assert Without(cards, n) == [c] + Without(rest, n);
        assert ([c] + Without(rest, n))[1..] == Without(rest, n);
      } else {
        assert Without(cards, n) == Without(rest, n);
      }
    }
  }

  lemma {:induction false} WithoutIsRemove(cards: seq<Card>, i: nat)
    requires Distinct(cards) && i < |cards|
    ensures Without(cards, cards[i].n) == RemoveAt(cards, i)
  {
    var n, rest := cards[i].n, cards[1..];
    if i == 0 {
      forall c | c in rest ensures c.n != n {
        var j :| 0 <= j < |rest| && rest[j] == c;
        assert cards[j + 1] == c;
      }
      WithoutAbsent(rest, n);
    } else {
      assert rest[i - 1] == cards[i];
      WithoutIsRemove(rest, i - 1);
      assert cards[..i] == [cards[0]] + rest[..i - 1];
      assert cards[i + 1..] == rest[i..];
    }
  }

  lemma WithoutItself(c: Card)
    ensures Without([c], c.n) == []
  {
  }

  lemma WithoutInsert(rest: seq<Card>, k: nat, c: Card)
    requires k <= |rest| && forall x :: x in rest ==> x.n != c.n
    ensures Without(InsertAt(rest, k, c), c.n) == rest
  {
    hide Without;
    WithoutConcat(rest[..k] + [c], rest[k..], c.n);
    WithoutConcat(rest[..k], [c], c.n);
    WithoutAbsent(rest[..k], c.n);
    WithoutAbsent(rest[k..], c.n);
    WithoutItself(c);
    assert rest[..k] + [] + rest[k..] == rest;
  }

  /** Every move keeps all the other cards, unchanged and in their order. */
  lemma MoveKeepsTheOthers(b: BoardState, e: BoardEdit, now: nat)
    requires WellFormed(b) && e.Move? && UserMove(b, e, now).result.Success?
    ensures Without(UserMove(b, e, now).board.cards, e.n) == Without(b.cards, e.n)
  {
    var i := Pos(b.cards, e.n).value;
    var rest := RemoveAt(b.cards, i);
    var c1 := if b.cards[i].col != e.col then b.cards[i].(updated := now) else b.cards[i];
    var before := if e.before == Some(e.n) then None else e.before;
    var k := PlaceAt(rest, e.col, before, false);
    var raw := InsertAt(rest, k, c1.(col := e.col));
    RestIsPinnedFirst(b.cards, i);
    WithoutInsert(rest, k, c1.(col := e.col));
    WithoutIsRemove(b.cards, i);
    WithoutConcat(PinnedOf(raw), OthersOf(raw), e.n);
    WithoutCommutes(raw, e.n);
    PinnedFirstStays(rest);
  }

  lemma RestIsPinnedFirst(cards: seq<Card>, i: nat)
    requires PinnedFirst(cards) && Distinct(cards) && i < |cards|
    ensures PinnedFirst(RemoveAt(cards, i))
    ensures forall x :: x in RemoveAt(cards, i) ==> x.n != cards[i].n
  {
    var r := RemoveAt(cards, i);
    assert forall k :: 0 <= k < |r| ==> r[k] == if k < i then cards[k] else cards[k + 1];
  }

  /** Inserting beside a card that is pinned like it keeps display order. */
  lemma InsertKeepsOrder(rest: seq<Card>, at: nat, c: Card)
    requires PinnedFirst(rest) && at < |rest| && IsPinned(c) == IsPinned(rest[at])
    ensures Normalize(InsertAt(rest, at, c)) == InsertAt(rest, at, c)
  {
    var raw := InsertAt(rest, at, c);
    assert forall j :: 0 <= j < |raw| ==> raw[j] == if j < at then rest[j] else if j == at then c else rest[j - 1];
    PinnedFirstStays(raw);
  }

  /** Card `target` is still there when another card is taken out, and `PlaceAt` finds it. */
  lemma TargetPlace(cards: seq<Card>, i: nat, k: nat, col: nat)
    requires Distinct(cards) && i < |cards| && cards[i].n != k
    requires Find(cards, k).Some? && Find(cards, k).value.col == col
    ensures var rest := RemoveAt(cards, i); var at := PlaceAt(rest, col, Some(k), false);
            at < |rest| && rest[at] == Find(cards, k).value
  {
    var rest := RemoveAt(cards, i);
    FindAfterRemove(cards, i);
    FoundMember(rest, k);
    assert Find(rest, k) == Find(cards, k);
    var j :| 0 <= j < |rest| && rest[j] == Find(cards, k).value;
    assert PosIn(rest, k, col).Some?;
    FindMember(rest, rest[PosIn(rest, k, col).value]);
  }

  /** A card dropped before `k`, both pinned or both not, ends immediately before `k`. */
  lemma MoveLandsBefore(b: BoardState, e: BoardEdit, now: nat, k: nat) returns (at: nat)
    requires WellFormed(b) && e.Move? && UserMove(b, e, now).result.Success?
    requires e.before == Some(k) && k != e.n
    requires Find(b.cards, k).Some? && Find(b.cards, k).value.col == e.col
    requires IsPinned(Find(b.cards, k).value) == IsPinned(Find(b.cards, e.n).value)
    ensures var r := UserMove(b, e, now).board.cards;
            at + 1 < |r| && r[at].n == e.n && r[at].col == e.col && r[at + 1] == Find(b.cards, k).value
  {
    var i := Pos(b.cards, e.n).value;
    var rest := RemoveAt(b.cards, i);
    var c1 := (if b.cards[i].col != e.col then b.cards[i].(updated := now) else b.cards[i]).(col := e.col);
    TargetPlace(b.cards, i, k, e.col);
    RestIsPinnedFirst(b.cards, i);
    at := PlaceAt(rest, e.col, e.before, false);
    InsertKeepsOrder(rest, at, c1);
    assert UserMove(b, e, now).board.cards == InsertAt(rest, at, c1);
  }
}
