/** Card lists as finite maps: what each list operation does to every card number at once. */
module BoardCards {
  import opened Wrappers
  import opened BoardState

  ghost predicate Distinct(cards: seq<Card>) {
    forall i, j :: 0 <= i < j < |cards| ==> cards[i].n != cards[j].n
  }

  lemma FindMember(cards: seq<Card>, c: Card)
    requires Distinct(cards) && c in cards
    ensures Find(cards, c.n) == Some(c)
  {
    var i :| 0 <= i < |cards| && cards[i] == c;
    var j := Pos(cards, c.n).value;
    assert j == i;
  }

  lemma FoundMember(cards: seq<Card>, n: nat)
    ensures Find(cards, n).Some? <==> exists c :: c in cards && c.n == n
    ensures Find(cards, n).Some? ==> Find(cards, n).value in cards && Find(cards, n).value.n == n
  {
  }

  /** Lists of distinct cards with the same members find the same. */
  lemma SameMembers(a: seq<Card>, b: seq<Card>)
    requires Distinct(a) && Distinct(b)
    requires forall c :: c in a <==> c in b
    ensures forall m :: Find(a, m) == Find(b, m)
  {
    forall m ensures Find(a, m) == Find(b, m) {
      FoundMember(a, m);
      FoundMember(b, m);
      if Find(a, m).Some? {
        FindMember(b, Find(a, m).value);
      }
    }
  }

  lemma FindAfterRemove(cards: seq<Card>, i: nat)
    requires Distinct(cards) && i < |cards|
    ensures Distinct(RemoveAt(cards, i))
    ensures forall m :: Find(RemoveAt(cards, i), m) == if m == cards[i].n then None else Find(cards, m)
    ensures forall c :: c in RemoveAt(cards, i) ==> c in cards
  {
    hide Pos;
    var r := RemoveAt(cards, i);
    assert forall k :: 0 <= k < |r| ==> r[k] == if k < i then cards[k] else cards[k + 1];
    forall m ensures Find(r, m) == if m == cards[i].n then None else Find(cards, m) {
      FoundMember(r, m);
      FoundMember(cards, m);
      if Find(cards, m).Some? && m != cards[i].n {
        var j := Pos(cards, m).value;
        assert r[if j < i then j else j - 1] == cards[j];
        FindMember(r, cards[j]);
      }
    }
  }

  lemma InsertedMembers(cards: seq<Card>, i: nat, c: Card)
    requires Distinct(cards) && i <= |cards| && Find(cards, c.n).None?
    ensures Distinct(InsertAt(cards, i, c))
    ensures forall x :: x in InsertAt(cards, i, c) <==> x in cards || x == c
  {
    hide Find;
    FoundMember(cards, c.n);
    var r := InsertAt(cards, i, c);
    assert forall k :: 0 <= k < |r| ==> r[k] == if k < i then cards[k] else if k == i then c else cards[k - 1];
  }

  lemma FindAfterInsert(cards: seq<Card>, i: nat, c: Card)
    requires Distinct(cards) && i <= |cards| && Find(cards, c.n).None?
    ensures Distinct(InsertAt(cards, i, c))
    ensures forall m :: Find(InsertAt(cards, i, c), m) == if m == c.n then Some(c) else Find(cards, m)
    ensures forall x :: x in InsertAt(cards, i, c) <==> x in cards || x == c
  {
    hide Find, Distinct, InsertAt;
    InsertedMembers(cards, i, c);
    var r := InsertAt(cards, i, c);
    forall m ensures Find(r, m) == if m == c.n then Some(c) else Find(cards, m) {
      FoundMember(r, m);
      FoundMember(cards, m);
      if m == c.n {
        FindMember(r, c);
      } else if Find(cards, m).Some? {
        FindMember(r, Find(cards, m).value);
      }
    }
  }

  lemma FindAfterUpdate(cards: seq<Card>, i: nat, c: Card)
    requires Distinct(cards) && i < |cards| && c.n == cards[i].n
    ensures Distinct(cards[i := c])
    ensures forall m :: Find(cards[i := c], m) == if m == c.n then Some(c) else Find(cards, m)
    ensures forall x :: x in cards[i := c] ==> x in cards || x == c
  {
    var r := cards[i := c];
    forall m ensures Find(r, m) == if m == c.n then Some(c) else Find(cards, m) {
      FoundMember(r, m);
      FoundMember(cards, m);
      if m == c.n {
        assert r[i] == c;
        FindMember(r, c);
      } else if Find(cards, m).Some? {
        var j := Pos(cards, m).value;
        assert r[j] == cards[j];
        FindMember(r, cards[j]);
      }
    }
  }

  lemma FindAfterPlace(cards: seq<Card>, card: Card, col: nat, before: Option<nat>, top: bool)
    requires Distinct(cards) && Find(cards, card.n).None?
    ensures Distinct(Place(cards, card, col, before, top))
    ensures forall m :: Find(Place(cards, card, col, before, top), m) ==
                        if m == card.n then Some(card.(col := col)) else Find(cards, m)
    ensures forall x :: x in Place(cards, card, col, before, top) <==> x in cards || x == card.(col := col)
  {
    FindAfterInsert(cards, PlaceAt(cards, col, before, top), card.(col := col));
  }

  /** Taking a card out and placing it again, possibly changed. */
  lemma FindAfterReplace(cards: seq<Card>, i: nat, card: Card, col: nat, before: Option<nat>, top: bool)
    requires Distinct(cards) && i < |cards| && card.n == cards[i].n
    ensures Distinct(Place(RemoveAt(cards, i), card, col, before, top))
    ensures forall m :: Find(Place(RemoveAt(cards, i), card, col, before, top), m) ==
                        if m == card.n then Some(card.(col := col)) else Find(cards, m)
    ensures forall x :: x in Place(RemoveAt(cards, i), card, col, before, top) ==> x in cards || x == card.(col := col)
  {
    FindAfterRemove(cards, i);
    FindAfterPlace(RemoveAt(cards, i), card, col, before, top);
  }

  lemma PinnedMembers(cards: seq<Card>)
    ensures forall c :: c in PinnedOf(cards) <==> c in cards && IsPinned(c)
    ensures forall c :: c in OthersOf(cards) <==> c in cards && !IsPinned(c)
    ensures |PinnedOf(cards)| + |OthersOf(cards)| == |cards|
  {
    if |cards| != 0 {
      PinnedMembers(cards[1..]);
      assert cards == [cards[0]] + cards[1..];
    }
  }

  lemma TailDistinct(cards: seq<Card>)
    requires Distinct(cards) && |cards| > 0
    ensures Distinct(cards[1..]) && forall c :: c in cards[1..] ==> c.n != cards[0].n
  {
  }

  lemma ConsDistinct(c: Card, cards: seq<Card>)
    requires Distinct(cards) && forall x :: x in cards ==> x.n != c.n
    ensures Distinct([c] + cards)
  {
  }

  lemma PinnedDistinct(cards: seq<Card>)
    requires Distinct(cards)
    ensures Distinct(PinnedOf(cards)) && Distinct(OthersOf(cards))
  {
    hide Distinct;
    if |cards| != 0 {
      var rest := cards[1..];
      TailDistinct(cards);
      PinnedDistinct(rest);
      PinnedMembers(rest);
      ConsDistinct(cards[0], PinnedOf(rest));
      ConsDistinct(cards[0], OthersOf(rest));
      assert [] + PinnedOf(rest) == PinnedOf(rest) && [] + OthersOf(rest) == OthersOf(rest);
    } else {
      NothingDistinct();
    }
  }

  lemma NothingDistinct()
    ensures Distinct([])
  {
  }

  /** Display order changes no card. */
  lemma FindAfterNormalize(cards: seq<Card>)
    requires Distinct(cards)
    ensures Distinct(Normalize(cards))
    ensures forall m :: Find(Normalize(cards), m) == Find(cards, m)
    ensures forall c :: c in Normalize(cards) <==> c in cards
  {
    PinnedMembers(cards);
    PinnedDistinct(cards);
    var p: seq<Card>, o: seq<Card> := PinnedOf(cards), OthersOf(cards);
    forall i, j | 0 <= i < j < |p + o| ensures (p + o)[i].n != (p + o)[j].n {
      if i < |p| <= j {
        assert p[i] in cards && o[j - |p|] in cards;
        FindMember(cards, p[i]);
        FindMember(cards, o[j - |p|]);
        assert IsPinned(p[i]) && !IsPinned(o[j - |p|]) by {
          assert p[i] in p && o[j - |p|] in o;
        }
      }
    }
    SameMembers(cards, p + o);
  }

  lemma FindAfterSweep(cards: seq<Card>, col: nat, now: nat)
    requires Distinct(cards)
    ensures Distinct(SweptAll(cards, col, now))
    ensures forall m :: Find(SweptAll(cards, col, now), m) ==
                        match Find(cards, m) case Some(c) => Some(Swept(c, col, now)) case None => None
  {
    var r := SweptAll(cards, col, now);
    forall m ensures Find(r, m) == match Find(cards, m) case Some(c) => Some(Swept(c, col, now)) case None => None {
      FoundMember(r, m);
      FoundMember(cards, m);
      if Find(cards, m).Some? {
        var j := Pos(cards, m).value;
        assert r[j] == Swept(cards[j], col, now);
        FindMember(r, r[j]);
      }
    }
  }

  // ---------- The cards of a deleted column ----------

  ghost predicate NoRepeats(ns: seq<nat>) {
    forall i, j :: 0 <= i < j < |ns| ==> ns[i] != ns[j]
  }

  lemma NumbersInColumn(cards: seq<Card>, col: nat)
    requires Distinct(cards)
    ensures NoRepeats(NumbersIn(cards, col))
    ensures forall m :: m in NumbersIn(cards, col) <==> Find(cards, m).Some? && Find(cards, m).value.col == col
  {
    if |cards| != 0 {
      var rest := cards[1..];
      assert Distinct(rest);
      NumbersInColumn(rest, col);
      assert cards == [cards[0]] + rest;
      forall m ensures Find(cards, m) == if m == cards[0].n then Some(cards[0]) else Find(rest, m) {
        if m != cards[0].n && Pos(rest, m).Some? {
          assert cards[Pos(rest, m).value + 1].n == m;
        }
      }
      FoundMember(rest, cards[0].n);
      forall c | c in rest ensures c.n != cards[0].n {
        var j :| 0 <= j < |rest| && rest[j] == c;
        assert cards[j + 1] == c;
      }
    }
  }

  /** Each of `ns` becomes its rehomed self; the others stay. */
  lemma {:induction false} FindAfterRehome(cards: seq<Card>, ns: seq<nat>, dest: nat, picked: bool, now: nat)
    requires Distinct(cards) && NoRepeats(ns)
    requires forall m :: m in ns ==> Find(cards, m).Some?
    ensures var r := Rehome(cards, ns, dest, picked, now).0;
            && Distinct(r)
            && forall m :: Find(r, m) == if m in ns then Some(Rehomed(Find(cards, m).value, dest, picked, now)) else Find(cards, m)
    decreases |ns|
  {
    if |ns| != 0 {
      assert ns[0] in ns;
      var i := Pos(cards, ns[0]).value;
      var c1 := Rehomed(cards[i], dest, picked, now);
      var placed := Place(RemoveAt(cards, i), c1, dest, None, false);
      FindAfterReplace(cards, i, c1, dest, None, false);
      assert c1.(col := dest) == c1;
      assert forall m :: m in ns <==> m == ns[0] || m in ns[1..];
      assert ns[0] !in ns[1..];
      FindAfterRehome(placed, ns[1..], dest, picked, now);
    }
  }
}
