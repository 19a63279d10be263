/**
 The Board, its Outbox and their store as objects that change in place, each method
 proved against the value functions the theorems are about.
*/
module BoardMachine {
  import S = BoardState
  import O = OutboxState
  import opened Wrappers
  import opened BoardState
  import opened OutboxState
  import opened BoardInvariant
  import opened NetDifference

  class Board {
    var on: bool
    var next: nat
    var nextCol: nat
    var columns: seq<Column>
    var cards: seq<Card>
    var proposals: seq<Proposal>
    var nextProp: nat

    function State(): BoardState
      reads this
    {
      BoardState(on, next, nextCol, columns, cards, proposals, nextProp)
    }

    constructor Of(b: BoardState)
      ensures State() == b
    {
      on, next, nextCol, columns, cards := b.on, b.next, b.nextCol, b.columns, b.cards;
      proposals, nextProp := b.proposals, b.nextProp;
    }

    static lemma Regroup<T>(a: seq<T>, b: seq<T>, c: seq<T>)
      ensures (a + b) + c == a + (b + c)
    {
    }

    static lemma SplitFirst(urgent: seq<Card>, rest: seq<Card>, left: seq<Card>)
      requires |left| > 0
      ensures urgent + PinnedOf(left) ==
              if IsPinned(left[0]) then (urgent + [left[0]]) + PinnedOf(left[1..]) else urgent + PinnedOf(left[1..])
      ensures rest + OthersOf(left) ==
              if IsPinned(left[0]) then rest + OthersOf(left[1..]) else (rest + [left[0]]) + OthersOf(left[1..])
    {
      Regroup(urgent, [left[0]], PinnedOf(left[1..]));
      Regroup(rest, [left[0]], OthersOf(left[1..]));
      NoneFirst(PinnedOf(left[1..]));
      NoneFirst(OthersOf(left[1..]));
    }

    static lemma NoneFirst(a: seq<Card>)
      ensures [] + a == a
    {
    }

    /** Pinned cards first, by one pass over the list. */
    method Normalize()
      modifies this`cards
      ensures cards == S.Normalize(old(cards))
    {
      var urgent: seq<Card>, rest: seq<Card> := [], [];
      var all, left := cards, cards;
      while |left| > 0
        invariant urgent + PinnedOf(left) == PinnedOf(all)
        invariant rest + OthersOf(left) == OthersOf(all)
        decreases |left|
      {
        SplitFirst(urgent, rest, left);
        if IsPinned(left[0]) {
          urgent := urgent + [left[0]];
        } else {
          rest := rest + [left[0]];
        }
        left := left[1..];
      }
      cards := urgent + rest;
    }

    method Place(card: Card, col: nat, before: Option<nat>, top: bool)
      modifies this`cards
      ensures cards == S.Place(old(cards), card, col, before, top)
    {
      var at := PlaceAt(cards, col, before, top);
      cards := cards[..at] + [card.(col := col)] + cards[at..];
    }

    method Take(n: nat) returns (card: Option<Card>)
      modifies this`cards
      ensures card == Find(old(cards), n)
      ensures cards == (match Pos(old(cards), n) case Some(i) => RemoveAt(old(cards), i) case None => old(cards))
    {
      match Pos(cards, n) {
        case None => card := None;
        case Some(i) =>
          card := Some(cards[i]);
          cards := cards[..i] + cards[i + 1..];
      }
    }

    /** The end of every accepted user edit. */
    method Finish(ghost b: BoardState, prior: seq<Card>, ev: seq<Event>, gone: seq<string>) returns (r: Result<Done, Refusal>)
      requires State() == b
      modifies this`cards
      ensures S.Finish(b, prior, ev, gone) == Outcome(State(), r)
    {
      Normalize();
      r := Success(Done(Stamp(ev, prior), gone));
    }

    method AddByUser(e: BoardEdit, now: nat) returns (r: Result<Done, Refusal>)
      requires e.Add?
      modifies this
      ensures UserAdd(old(State()), e, now) == Outcome(State(), r)
    {
      if e.title == "" { return Failure(NeedTitle); }
      if !HasCol(columns, e.col) { return Failure(ColumnGone); }
      if |e.images| > MAX_IMAGES { return Failure(TooManyImages); }
      if ActiveCount(cards) >= MAX_ACTIVE { return Failure(BoardFull); }
      var prior := cards;
      next := next + 1;
      var card := Card(next, e.title, CleanDetailOpt(e.newDetail), e.images, e.col, e.assignee, false, [], None, [],
                       false, ByUser, None, false, now, now);
      Place(card, e.col, None, false);
      r := Finish(State(), prior, Tell(card, None, Added), []);
    }

    method EditByUser(e: BoardEdit, now: nat) returns (r: Result<Done, Refusal>)
      requires e.Edit?
      modifies this
      ensures UserEdit(old(State()), e, now) == Outcome(State(), r)
    {
      var prior := cards;
      match Pos(cards, e.n) {
        case None => return Failure(CardGone);
        case Some(i) =>
          var card := cards[i];
          if e.newTitle.Some? && e.newTitle.value != "" {
            card := card.(title := e.newTitle.value);
          }
          if e.detail.Some? {
            card := card.(detail := CleanDetail(e.detail.value));
          }
          assert card == Retitled(cards[i], e);
          if e.newImages.Some? && |e.newImages.value| > MAX_IMAGES {
            cards := cards[i := card];
            return Failure(TooManyImages);
          }
          r := FinishText(i, card, e, now);
      }
    }

    /** The retitled `card` and the edit's images, in card `i`'s place. */
    method FinishText(i: nat, retitled: Card, e: BoardEdit, now: nat) returns (r: Result<Done, Refusal>)
      requires i < |cards| && e.Edit? && Pos(cards, e.n) == Some(i) && retitled == Retitled(cards[i], e)
      requires e.newImages.Some? ==> |e.newImages.value| <= MAX_IMAGES
      modifies this
      ensures UserEdit(old(State()), e, now) == Outcome(State(), r)
    {
      var card, gone, ev := retitled, [], [];
      if e.newImages.Some? {
        gone := Dropped(card.images, e.newImages.value);
        card := card.(images := e.newImages.value);
      }
      if card.title != cards[i].title || card.detail != cards[i].detail || card.images != cards[i].images {
        card := card.(updated := now);
        ev := Tell(card, None, Edited);
      }
      r := Put(i, card, ev, gone);
    }

    method MoveByUser(e: BoardEdit, now: nat) returns (r: Result<Done, Refusal>)
      requires e.Move?
      modifies this
      ensures UserMove(old(State()), e, now) == Outcome(State(), r)
    {
      if !HasCol(columns, e.col) { return Failure(ColumnGone); }
      var prior := cards;
      var taken := Take(e.n);
      if taken.None? { return Failure(CardGone); }
      var card, ev := taken.value, [];
      if card.col != e.col {
        card := card.(updated := now);
        ev := Tell(card, None, Moved);
      }
      Place(card, e.col, if e.before == Some(e.n) then None else e.before, false);
      r := Finish(State(), prior, ev, []);
    }

    /** Put `c` where card `n` is, and finish. */
    method Put(i: nat, c: Card, ev: seq<Event>, gone: seq<string>) returns (r: Result<Done, Refusal>)
      requires i < |cards|
      modifies this`cards
      ensures S.Finish(old(State()).(cards := old(cards)[i := c]), old(cards), ev, gone) == Outcome(State(), r)
    {
      var prior := cards;
      cards := cards[i := c];
      r := Finish(State(), prior, ev, gone);
    }

    method AssignByUser(e: BoardEdit, now: nat) returns (r: Result<Done, Refusal>)
      requires e.Assign?
      modifies this
      ensures UserAssign(old(State()), e, now) == Outcome(State(), r)
    {
      match Pos(cards, e.n) {
        case None => return Failure(CardGone);
        case Some(i) =>
          var before := cards[i].assignee;
          if before == e.to {
            r := Finish(State(), cards, [], []);
          } else {
            var c := cards[i].(assignee := e.to, updated := now);
            var ev := Tell(c, None, AssignedToYou);
            var lost := if before.Some? then [Event(before.value, c.n, None, Unassigned(e.to), c.title, None)] else [];
            r := Put(i, c, ev + lost, []);
          }
      }
    }

    method ChooseByUser(e: BoardEdit, now: nat) returns (r: Result<Done, Refusal>)
      requires e.Choose?
      modifies this
      ensures UserChoose(old(State()), e, now) == Outcome(State(), r)
    {
      match Pos(cards, e.n) {
        case None => return Failure(CardGone);
        case Some(i) =>
          if e.choice.Some? && e.choice.value !in cards[i].choices { return Failure(NotAChoice); }
          if cards[i].chosen == e.choice {
            r := Finish(State(), cards, [], []);
          } else {
            var c := cards[i].(chosen := e.choice, updated := now);
            r := Put(i, c, Tell(c, None, Chose(e.choice)), []);
          }
      }
    }

    method CommentByUser(e: BoardEdit, now: nat, uuid: string) returns (r: Result<Done, Refusal>)
      requires e.PostComment?
      modifies this
      ensures UserComment(old(State()), e, now, uuid) == Outcome(State(), r)
    {
      if e.text == "" && |e.images| == 0 { return Failure(EmptyComment); }
      if |e.images| > MAX_IMAGES { return Failure(TooManyImages); }
      match Pos(cards, e.n) {
        case None => return Failure(CardGone);
        case Some(i) =>
          if |cards[i].comments| >= MAX_COMMENTS { return Failure(TooManyComments); }
          var c := cards[i].(comments := cards[i].comments + [Comment(uuid, ByUser, None, e.text, e.images, now)],
                             updated := now, unread := false);
          r := Put(i, c, Tell(c, None, Commented(uuid, e.text, e.images)), []);
      }
    }

    method EditCommentByUser(e: BoardEdit) returns (r: Result<Done, Refusal>)
      requires e.EditComment?
      modifies this
      ensures UserEditComment(old(State()), e) == Outcome(State(), r)
    {
      if e.text == "" && |e.images| == 0 { return Failure(EmptyComment); }
      if |e.images| > MAX_IMAGES { return Failure(TooManyImages); }
      match Pos(cards, e.n) {
        case None => return Failure(CardGone);
        case Some(i) =>
          var c := cards[i];
          match CommentPos(c.comments, e.id) {
            case None => return Failure(CommentGone);
            case Some(k) =>
              var m := c.comments[k];
              r := Put(i, c.(comments := c.comments[k := m.(text := e.text, images := e.images)]), [],
                       Dropped(m.images, e.images));
          }
      }
    }

    method DeleteCommentByUser(e: BoardEdit) returns (r: Result<Done, Refusal>)
      requires e.DeleteComment?
      modifies this
      ensures UserDeleteComment(old(State()), e) == Outcome(State(), r)
    {
      match Pos(cards, e.n) {
        case None => return Failure(CardGone);
        case Some(i) =>
          var c := cards[i];
          match CommentPos(c.comments, e.id) {
            case None => return Failure(CommentGone);
            case Some(k) =>
              r := Put(i, c.(comments := RemoveAt(c.comments, k)), [], c.comments[k].images);
          }
      }
    }

    method ArchiveByUser(e: BoardEdit, now: nat) returns (r: Result<Done, Refusal>)
      requires e.Archive?
      modifies this
      ensures UserArchive(old(State()), e, now) == Outcome(State(), r)
    {
      match Pos(cards, e.n) {
        case None => return Failure(CardGone);
        case Some(i) =>
          if cards[i].archived == e.archive {
            r := Finish(State(), cards, [], []);
          } else {
            var c := cards[i].(archived := e.archive, updated := now);
            if e.archive {
              c := c.(unread := false);
            }
            r := Put(i, c, Tell(c, None, Archived(e.archive)), []);
          }
      }
    }

    static lemma SweepStep(prior: seq<Card>, i: nat, col: nat, now: nat, ev: seq<Event>)
      requires i < |prior|
      ensures ev + SweepEvents(prior[i..], col, now) ==
              (if prior[i].col == col && !prior[i].archived
               then ev + Tell(Swept(prior[i], col, now), None, Archived(true)) else ev) + SweepEvents(prior[i + 1..], col, now)
    {
      assert prior[i..][1..] == prior[i + 1..];
    }

    static lemma NothingSwept(col: nat, now: nat)
      ensures SweepEvents([], col, now) == []
    {
    }

    /** Archive column `col`'s active cards, one after another. */
    method Sweep(col: nat, now: nat) returns (ev: seq<Event>)
      modifies this`cards
      ensures cards == SweptAll(old(cards), col, now) && ev == SweepEvents(old(cards), col, now)
    {
      hide SweptAll, SweepEvents;
      ghost var prior := cards;
      ev := [];
      var i := 0;
      while i < |cards|
        invariant i <= |cards| == |prior|
        invariant forall k :: 0 <= k < |prior| ==> cards[k] == if k < i then Swept(prior[k], col, now) else prior[k]
        invariant ev + SweepEvents(prior[i..], col, now) == SweepEvents(prior, col, now)
      {
        SweepStep(prior, i, col, now, ev);
        if cards[i].col == col && !cards[i].archived {
          cards := cards[i := cards[i].(archived := true, unread := false, updated := now)];
          ev := ev + Tell(cards[i], None, Archived(true));
        }
        i := i + 1;
      }
      NothingSwept(col, now);
      assert prior[i..] == [] && ev + [] == ev;
    }

    method ArchiveColumnByUser(e: BoardEdit, now: nat) returns (r: Result<Done, Refusal>)
      requires e.ArchiveColumn?
      modifies this
      ensures UserArchiveColumn(old(State()), e, now) == Outcome(State(), r)
    {
      var prior := cards;
      var ev := Sweep(e.col, now);
      r := Finish(State(), prior, ev, []);
    }

    method DeleteByUser(e: BoardEdit) returns (r: Result<Done, Refusal>)
      requires e.Delete?
      modifies this
      ensures UserDelete(old(State()), e) == Outcome(State(), r)
    {
      var prior := cards;
      var taken := Take(e.n);
      if taken.None? { return Failure(CardGone); }
      var card := taken.value;
      var ev := if card.archived then [] else Tell(card, None, Deleted);
      r := Finish(State(), prior, ev, card.images + CommentImages(card.comments));
    }

    method SeenByUser(e: BoardEdit) returns (r: Result<Done, Refusal>)
      requires e.Seen?
      modifies this
      ensures UserSeen(old(State()), e) == Outcome(State(), r)
    {
      match Pos(cards, e.n) {
        case None => return Failure(CardGone);
        case Some(i) => r := Put(i, cards[i].(unread := false), [], []);
      }
    }

    method AddColumn(e: BoardEdit) returns (r: Result<Done, Refusal>)
      requires e.ColAdd?
      modifies this
      ensures UserColAdd(old(State()), e) == Outcome(State(), r)
    {
      if e.name == "" { return Failure(NeedColumnName); }
      if |columns| >= MAX_COLUMNS { return Failure(TooManyColumns); }
      nextCol := nextCol + 1;
      columns := columns + [Column(nextCol, e.name, e.desc)];
      r := Finish(State(), cards, [], []);
    }

    method EditColumn(e: BoardEdit) returns (r: Result<Done, Refusal>)
      requires e.ColEdit?
      modifies this
      ensures UserColEdit(old(State()), e) == Outcome(State(), r)
    {
      match ColPos(columns, e.col) {
        case None => return Failure(ColumnGone);
        case Some(i) =>
          var c := columns[i];
          if e.newName.Some? && e.newName.value != "" {
            c := c.(name := e.newName.value);
          }
          if e.newDesc.Some? {
            c := c.(desc := e.newDesc.value);
          }
          columns := columns[i := c];
          r := Finish(State(), cards, [], []);
      }
    }

    method MoveColumn(e: BoardEdit) returns (r: Result<Done, Refusal>)
      requires e.ColMove?
      modifies this
      ensures UserColMove(old(State()), e) == Outcome(State(), r)
    {
      match ColPos(columns, e.col) {
        case None => return Failure(ColumnGone);
        case Some(i) =>
          var c := columns[i];
          columns := RemoveAt(columns, i);
          var at := if e.before.Some? then ColPos(columns, e.before.value) else None;
          columns := InsertAt(columns, if at.Some? then at.value else |columns|, c);
          r := Finish(State(), cards, [], []);
      }
    }

    /** Events told so far, put before the rest's. */
    static ghost function Onto(ev: seq<Event>, rest: (seq<Card>, seq<Event>)): (seq<Card>, seq<Event>) {
      (rest.0, ev + rest.1)
    }

    static lemma StartOnto(rest: (seq<Card>, seq<Event>))
      ensures Onto([], rest) == rest
    {
      assert [] + rest.1 == rest.1;
    }

    static lemma OntoOnto(a: seq<Event>, b: seq<Event>, rest: (seq<Card>, seq<Event>))
      ensures Onto(a, Onto(b, rest)) == Onto(a + b, rest)
    {
      assert a + (b + rest.1) == (a + b) + rest.1;
    }

    /** Cards `ns`, one after another, to the end of `dest`. */
    method RehomeAll(ns: seq<nat>, dest: nat, picked: bool, now: nat) returns (ev: seq<Event>)
      modifies this`cards
      ensures (cards, ev) == Rehome(old(cards), ns, dest, picked, now)
    {
      ev := [];
      var i := 0;
      StartOnto(Rehome(cards, ns, dest, picked, now));
      assert ns[0..] == ns;
      while i < |ns|
        invariant i <= |ns|
        invariant Rehome(old(cards), ns, dest, picked, now) == Onto(ev, Rehome(cards, ns[i..], dest, picked, now))
      {
        ghost var before := cards;
        var done := RehomeOne(ns[i], dest, picked, now);
        RehomeStep(before, cards, done, ns, i, dest, picked, now);
        OntoOnto(ev, done, Rehome(cards, ns[i + 1..], dest, picked, now));
        ev := ev + done;
        i := i + 1;
      }
      assert ns[i..] == [] && ev + [] == ev;
    }

    /** `after` and `ev` are what rehoming card `n` alone makes of `before`. */
    static ghost predicate RehomedOne(before: seq<Card>, after: seq<Card>, ev: seq<Event>, n: nat, dest: nat, picked: bool, now: nat) {
      match Pos(before, n)
      case None => after == before && ev == []
      case Some(i) =>
        && after == S.Place(RemoveAt(before, i), Rehomed(before[i], dest, picked, now), dest, None, false)
        && ev == RehomeEvent(before[i], picked)
    }

    method RehomeOne(n: nat, dest: nat, picked: bool, now: nat) returns (ev: seq<Event>)
      modifies this`cards
      ensures RehomedOne(old(cards), cards, ev, n, dest, picked, now)
    {
      ev := [];
      var taken := Take(n);
      if taken.Some? {
        var card := taken.value;
        if !card.archived {
          ev := Tell(card, None, if picked then Moved else Archived(true));
          card := card.(updated := now, archived := !picked);
        }
        Place(card, dest, None, false);
        assert card.(col := dest) == Rehomed(taken.value, dest, picked, now);
      }
    }

    static lemma RehomeStep(before: seq<Card>, after: seq<Card>, ev: seq<Event>, ns: seq<nat>, i: nat, dest: nat, picked: bool, now: nat)
      requires i < |ns| && RehomedOne(before, after, ev, ns[i], dest, picked, now)
      ensures Rehome(before, ns[i..], dest, picked, now) == Onto(ev, Rehome(after, ns[i + 1..], dest, picked, now))
    {
      assert ns[i..][0] == ns[i] && ns[i..][1..] == ns[i + 1..];
      StartOnto(Rehome(after, ns[i + 1..], dest, picked, now));
    }

    method DeleteColumn(e: BoardEdit, now: nat) returns (r: Result<Done, Refusal>)
      requires e.ColDelete?
      modifies this
      ensures UserColDelete(old(State()), e, now) == Outcome(State(), r)
    {
      if |columns| <= 1 { return Failure(LastColumn); }
      if !HasCol(columns, e.col) { return Failure(ColumnGone); }
      if e.dest.Some? && (e.dest.value == e.col || !HasCol(columns, e.dest.value)) { return Failure(PickAnother); }
      var prior := cards;
      var dest := if e.dest.Some? then e.dest.value else FirstOther(columns, e.col);
      var ev := RehomeAll(NumbersIn(cards, e.col), dest, e.dest.Some?, now);
      columns := WithoutCol(columns, e.col);
      r := Finish(State(), prior, ev, []);
    }

    /** The user's edit. A refused one may leave this board half changed. */
    method ApplyUser(e: BoardEdit, now: nat, uuid: string) returns (r: Result<Done, Refusal>)
      modifies this
      ensures S.ApplyUser(old(State()), e, now, uuid) == Outcome(State(), r)
    {
      match e {
        case Add(_, _, _, _, _) => r := AddByUser(e, now);
        case Edit(_, _, _, _) => r := EditByUser(e, now);
        case Move(_, _, _) => r := MoveByUser(e, now);
        case Assign(_, _) => r := AssignByUser(e, now);
        case Choose(_, _) => r := ChooseByUser(e, now);
        case PostComment(_, _, _) => r := CommentByUser(e, now, uuid);
        case EditComment(_, _, _, _) => r := EditCommentByUser(e);
        case DeleteComment(_, _) => r := DeleteCommentByUser(e);
        case Archive(_, _) => r := ArchiveByUser(e, now);
        case ArchiveColumn(_) => r := ArchiveColumnByUser(e, now);
        case Delete(_) => r := DeleteByUser(e);
        case Seen(_) => r := SeenByUser(e);
        case ColAdd(_, _) => r := AddColumn(e);
        case ColEdit(_, _, _) => r := EditColumn(e);
        case ColMove(_, _) => r := MoveColumn(e);
        case ColDelete(_, _) => r := DeleteColumn(e, now);
        case Approve(_) => r := Failure(UseDecide);
        case Reject(_) => r := Failure(UseDecide);
      }
    }

    // ---------- Proposals ----------

    /** A column edit made by a change. */
    method EditFor(e: BoardEdit, news: News, now: nat) returns (r: Result<seq<Event>, Refusal>)
      modifies this
      ensures ByEdit(old(State()), news, e, now) == Applied(State(), news, r)
    {
      var done := ApplyUser(e, now, "");
      r := match done case Success(d) => Success(d.events) case Failure(x) => Failure(x);
    }

    method ApplyChange(ch: ColChange, news: News, now: nat) returns (news1: News, r: Result<seq<Event>, Refusal>)
      modifies this
      ensures S.ApplyChange(old(State()), ch, news, now) == Applied(State(), news1, r)
    {
      news1 := news;
      match ch {
        case AddCol(name, desc, before) =>
          var at := ResolveOpt(columns, news, before);
          if at.Failure? { return news, Failure(at.error); }
          r := EditFor(ColAdd(name, desc), news, now);
          if r.Failure? { return; }
          var ev, col := r.value, nextCol;
          news1 := news + [(name, col)];
          if at.value.Some? {
            r := EditFor(ColMove(col, at.value), news1, now);
            if r.Failure? { return; }
            r := Success(ev + r.value);
          }
        case EditCol(col, name, desc) =>
          var i := Resolve(columns, news, col);
          if i.Failure? { return news, Failure(i.error); }
          r := EditFor(ColEdit(i.value, name, desc), news, now);
        case MoveCol(col, before) =>
          var i := Resolve(columns, news, col);
          if i.Failure? { return news, Failure(i.error); }
          var at := ResolveOpt(columns, news, before);
          if at.Failure? { return news, Failure(at.error); }
          r := EditFor(ColMove(i.value, at.value), news, now);
        case DeleteCol(col, to) =>
          var i := Resolve(columns, news, col);
          if i.Failure? { return news, Failure(i.error); }
          var t := ResolveOpt(columns, news, to);
          if t.Failure? { return news, Failure(t.error); }
          r := EditFor(ColDelete(i.value, t.value), news, now);
      }
    }

    /** Read and apply requested changes one by one, each on what the earlier ones left. */
    method Simulate(reqs: seq<ChangeRequest>, now: nat) returns (news: News, r: Result<seq<ColChange>, Refusal>)
      modifies this
      ensures S.Simulate(old(State()), reqs, [], now) == Simulated(State(), news, r)
    {
      news := [];
      var changes: seq<ColChange> := [];
      ghost var whole := S.Simulate(State(), reqs, [], now);
      var i := 0;
      assert reqs[0..] == reqs && (whole.result.Success? ==> [] + whole.result.value == whole.result.value);
      while i < |reqs|
        invariant i <= |reqs|
        invariant whole == Prefixed(changes, S.Simulate(State(), reqs[i..], news, now))
      {
        assert reqs[i..][1..] == reqs[i + 1..] && reqs[i..][0] == reqs[i];
        var ch := Read(State(), news, reqs[i]);
        if ch.Failure? { return news, Failure(ch.error); }
        var done;
        news, done := ApplyChange(ch.value, news, now);
        if done.Failure? { return news, Failure(done.error); }
        ghost var rest := S.Simulate(State(), reqs[i + 1..], news, now);
        assert rest.result.Success? ==>
            changes + ([ch.value] + rest.result.value) == (changes + [ch.value]) + rest.result.value;
        changes := changes + [ch.value];
        i := i + 1;
      }
      assert reqs[i..] == [] && changes + [] == changes;
      r := Success(changes);
    }

    /** The changes read so far put before what the rest reads as. */
    static ghost function Prefixed(changes: seq<ColChange>, rest: Simulated): Simulated {
      if rest.result.Failure? then rest else rest.(result := Success(changes + rest.result.value))
    }

    /** Simulate on a copy, and queue the changes when they fit. */
    method Propose(from: nat, reqs: seq<ChangeRequest>, why: string, now: nat) returns (r: Result<nat, Refusal>)
      modifies this
      ensures S.Propose(old(State()), from, reqs, why, now) == Outcome(State(), r)
    {
      if |reqs| == 0 { return Failure(NeedChanges); }
      if |reqs| > MAX_PROP_CHANGES { return Failure(TooManyChanges); }
      if |proposals| >= MAX_PROPOSALS { return Failure(TooManyProposals); }
      var sim := new Board.Of(State());
      var _, changes := sim.Simulate(reqs, now);
      if changes.Failure? { return Failure(changes.error); }
      if !NamesDistinct(sim.columns) { return Failure(TwoOfOneName); }
      nextProp := nextProp + 1;
      proposals := proposals + [Proposal(nextProp, from, why, changes.value, now)];
      r := Success(nextProp);
    }

    /** All of `changes`, stopping at the first that is refused. */
    method ApplyChanges(changes: seq<ColChange>, now: nat) returns (news: News, r: Result<seq<Event>, Refusal>)
      modifies this
      ensures S.ApplyChanges(old(State()), changes, [], now) == Applied(State(), news, r)
    {
      news := [];
      var ev: seq<Event> := [];
      ghost var whole := S.ApplyChanges(State(), changes, [], now);
      var left := changes;
      AfterNothing(whole);
      while |left| > 0
        invariant whole == After(ev, S.ApplyChanges(State(), left, news, now))
        decreases |left|
      {
        hide S.ApplyChange, State;
        ghost var before, news0 := State(), news;
        var done;
        news, done := ApplyChange(left[0], news, now);
        ChangesStep(before, left, news0, now);
        if done.Failure? { return news, done; }
        AfterAfter(ev, done.value, S.ApplyChanges(State(), left[1..], news, now));
        ev := ev + done.value;
        left := left[1..];
      }
      assert ev + [] == ev;
      r := Success(ev);
    }

    static lemma AfterNothing(rest: Applied)
      ensures After([], rest) == rest
    {
      assert rest.result.Success? ==> [] + rest.result.value == rest.result.value;
    }

    static lemma AfterAfter(a: seq<Event>, b: seq<Event>, rest: Applied)
      ensures After(a, After(b, rest)) == After(a + b, rest)
    {
      assert rest.result.Success? ==> a + (b + rest.result.value) == (a + b) + rest.result.value;
    }

    static lemma ChangesStep(b: BoardState, left: seq<ColChange>, news: News, now: nat)
      requires |left| > 0
      ensures var first := S.ApplyChange(b, left[0], news, now);
              S.ApplyChanges(b, left, news, now) ==
              if first.result.Failure? then first
              else After(first.result.value, S.ApplyChanges(first.board, left[1..], first.news, now))
    {
    }

    static ghost function After(ev: seq<Event>, rest: Applied): Applied {
      if rest.result.Failure? then rest else rest.(result := Success(ev + rest.result.value))
    }

    /** The user's Approve or Reject: the changes run on a copy, taken over only when all of them fit. */
    method Decide(id: nat, approve: bool, now: nat) returns (r: Result<Decision, Refusal>)
      modifies this
      ensures S.Decide(old(State()), id, approve, now) == Outcome(State(), r)
    {
      var at := PropPos(proposals, id);
      if at.None? { return Failure(ProposalGone); }
      var p := proposals[at.value];
      if !approve {
        proposals := RemoveAt(proposals, at.value);
        return Success(Decision(p.proposer, false, []));
      }
      var copy := new Board.Of(State());
      copy.proposals := RemoveAt(copy.proposals, at.value);
      var _, ev := copy.ApplyChanges(p.changes, now);
      if ev.Failure? { return Failure(ev.error); }
      on, next, nextCol, columns, cards := copy.on, copy.next, copy.nextCol, copy.columns, copy.cards;
      proposals, nextProp := copy.proposals, copy.nextProp;
      r := Success(Decision(p.proposer, true, ev.value));
    }

    // ---------- The claudes' actions ----------

    method FinishClaude(ghost b: BoardState, prior: seq<Card>, ev: seq<Event>) returns (r: Result<seq<Event>, Refusal>)
      requires State() == b
      modifies this`cards
      ensures S.FinishClaude(b, prior, ev) == Outcome(State(), r)
    {
      Normalize();
      r := Success(Stamp(ev, prior));
    }

    /** Number the drafts and put each on top of its column. */
    method AddAll(drafts: seq<Card>, from: nat) returns (ev: seq<Event>)
      modifies this`cards, this`next
      ensures (cards, next, ev) == AddDrafts(old(cards), old(next), drafts, Some(from))
    {
      ev := [];
      var i := 0;
      StartWith(AddDrafts(cards, next, drafts, Some(from)));
      assert drafts[0..] == drafts;
      while i < |drafts|
        invariant i <= |drafts|
        invariant AddDrafts(old(cards), old(next), drafts, Some(from)) == With(ev, AddDrafts(cards, next, drafts[i..], Some(from)))
      {
        ghost var cards0, next0 := cards, next;
        var told := AddOne(drafts[i], from);
        AddStep(cards0, next0, cards, next, told, drafts, i, from);
        WithWith(ev, told, AddDrafts(cards, next, drafts[i + 1..], Some(from)));
        ev := ev + told;
        i := i + 1;
      }
      assert drafts[i..] == [] && ev + [] == ev;
    }

    static ghost function With(ev: seq<Event>, rest: (seq<Card>, nat, seq<Event>)): (seq<Card>, nat, seq<Event>) {
      (rest.0, rest.1, ev + rest.2)
    }

    static lemma StartWith(rest: (seq<Card>, nat, seq<Event>))
      ensures With([], rest) == rest
    {
      assert [] + rest.2 == rest.2;
    }

    static lemma WithWith(a: seq<Event>, b: seq<Event>, rest: (seq<Card>, nat, seq<Event>))
      ensures With(a, With(b, rest)) == With(a + b, rest)
    {
      assert a + (b + rest.2) == (a + b) + rest.2;
    }

    /** `after`, `next1` and `ev` are what adding one draft makes of `before`. */
    static ghost predicate AddedOne(before: seq<Card>, next0: nat, after: seq<Card>, next1: nat, ev: seq<Event>, draft: Card, from: nat) {
      var card := draft.(n := next0 + 1);
      && next1 == next0 + 1
      && after == S.Place(before, card, card.col, None, true)
      && ev == Tell(card, Some(from), Added)
    }

    method AddOne(draft: Card, from: nat) returns (ev: seq<Event>)
      modifies this`cards, this`next
      ensures AddedOne(old(cards), old(next), cards, next, ev, draft, from)
    {
      next := next + 1;
      var card := draft.(n := next);
      ev := Tell(card, Some(from), Added);
      Place(card, card.col, None, true);
    }

    static lemma AddStep(before: seq<Card>, next0: nat, after: seq<Card>, next1: nat, ev: seq<Event>, drafts: seq<Card>, i: nat, from: nat)
      requires i < |drafts| && AddedOne(before, next0, after, next1, ev, drafts[i], from)
      ensures AddDrafts(before, next0, drafts[i..], Some(from)) == With(ev, AddDrafts(after, next1, drafts[i + 1..], Some(from)))
    {
      assert drafts[i..][0] == drafts[i] && drafts[i..][1..] == drafts[i + 1..];
    }

    method AddByClaude(from: nat, items: seq<NewCard>, now: nat) returns (r: Result<seq<Event>, Refusal>)
      modifies this
      ensures ClaudeAdd(old(State()), from, items, now) == Outcome(State(), r)
    {
      if |items| == 0 { return Failure(NeedItems); }
      // Everything is checked before anything is added.
      var read := Drafts(State(), from, items, now);
      if read.Failure? { return Failure(read.error); }
      if ActiveCount(cards) + |read.value| > MAX_ACTIVE { return Failure(BoardFull); }
      var prior := cards;
      var ev := AddAll(read.value, from);
      r := FinishClaude(State(), prior, ev);
    }

    method UpdateByClaude(from: nat, a: ClaudeAction, now: nat) returns (r: Result<seq<Event>, Refusal>)
      requires a.UpdateCard?
      modifies this
      ensures ClaudeUpdate(old(State()), from, a, now) == Outcome(State(), r)
    {
      var choices := if a.choices.Some? then CleanChoices(a.choices.value) else Success([]);
      if choices.Failure? { return Failure(choices.error); }
      var images := ImagesOf(a.images);
      if images.Failure? { return Failure(images.error); }
      var title := if a.title == Some("") then None else a.title;
      if title.None? && a.detail.None? && a.choices.None? && a.urgent.None? && a.assignee.None? && images.value == [] {
        return Failure(NothingToUpdate);
      }
      var at := Pos(cards, a.n);
      if at.None? { return Failure(CardGone); }
      if |cards[at.value].images| + |images.value| > MAX_IMAGES { return Failure(TooManyImages); }
      r := PutUpdate(at.value, from, a, choices.value, images.value, now);
    }

    /** Card `i` updated as `a` asks. */
    method PutUpdate(i: nat, from: nat, a: ClaudeAction, choices: seq<string>, images: seq<string>, now: nat)
      returns (r: Result<seq<Event>, Refusal>)
      requires i < |cards| && a.UpdateCard?
      modifies this
      ensures var c := old(cards)[i];
              var c1 := Updated(c, a, if a.choices.Some? then choices else c.choices, images, now);
              S.FinishClaude(old(State()).(cards := old(cards)[i := c1]), old(cards), UpdateEvents(c, c1, from)) == Outcome(State(), r)
    {
      var prior := cards;
      var c := Updated(cards[i], a, if a.choices.Some? then choices else cards[i].choices, images, now);
      var ev := UpdateEvents(cards[i], c, from);
      cards := cards[i := c];
      r := FinishClaude(State(), prior, ev);
    }

    /** Cards `ids`, one after another, to the top of `col`. */
    method MoveAll(ids: seq<nat>, col: nat, from: nat, now: nat) returns (ev: seq<Event>)
      modifies this`cards
      ensures (cards, ev) == MoveToTop(old(cards), ids, col, Some(from), now)
    {
      ev := [];
      var i := 0;
      StartOnto(MoveToTop(cards, ids, col, Some(from), now));
      assert ids[0..] == ids;
      while i < |ids|
        invariant i <= |ids|
        invariant MoveToTop(old(cards), ids, col, Some(from), now) == Onto(ev, MoveToTop(cards, ids[i..], col, Some(from), now))
      {
        ghost var before := cards;
        var told := MoveOne(ids[i], col, from, now);
        MoveStep(before, cards, told, ids, i, col, from, now);
        OntoOnto(ev, told, MoveToTop(cards, ids[i + 1..], col, Some(from), now));
        ev := ev + told;
        i := i + 1;
      }
      assert ids[i..] == [] && ev + [] == ev;
    }

    /** `after` and `ev` are what moving card `n` alone makes of `before`. */
    static ghost predicate MovedOne(before: seq<Card>, after: seq<Card>, ev: seq<Event>, n: nat, col: nat, from: nat, now: nat) {
      match Pos(before, n)
      case None => after == before && ev == []
      case Some(k) =>
        var c1 := before[k].(archived := false, updated := now, unread := true);
        && after == S.Place(RemoveAt(before, k), c1, col, None, true)
        && ev == if before[k].col != col || before[k].archived then Tell(c1, Some(from), Moved) else []
    }

    method MoveOne(n: nat, col: nat, from: nat, now: nat) returns (ev: seq<Event>)
      modifies this`cards
      ensures MovedOne(old(cards), cards, ev, n, col, from, now)
    {
      ev := [];
      var taken := Take(n);
      if taken.Some? {
        var card := taken.value.(archived := false, updated := now, unread := true);
        if taken.value.col != col || taken.value.archived {
          ev := Tell(card, Some(from), Moved);
        }
        Place(card, col, None, true);
      }
    }

    static lemma MoveStep(before: seq<Card>, after: seq<Card>, ev: seq<Event>, ids: seq<nat>, i: nat, col: nat, from: nat, now: nat)
      requires i < |ids| && MovedOne(before, after, ev, ids[i], col, from, now)
      ensures MoveToTop(before, ids[i..], col, Some(from), now) == Onto(ev, MoveToTop(after, ids[i + 1..], col, Some(from), now))
    {
      assert ids[i..][0] == ids[i] && ids[i..][1..] == ids[i + 1..];
      StartOnto(MoveToTop(after, ids[i + 1..], col, Some(from), now));
    }

    method MoveByClaude(from: nat, ids: seq<nat>, to: ColArg, now: nat) returns (r: Result<seq<Event>, Refusal>)
      modifies this
      ensures ClaudeMove(old(State()), from, ids, to, now) == Outcome(State(), r)
    {
      if |ids| == 0 { return Failure(MissingId); }
      var col := ColBy(columns, to);
      if col.Failure? { return Failure(col.error); }
      if !AllThere(cards, ids) { return Failure(CardGone); }
      var prior := cards;
      var ev := MoveAll(ids, col.value, from, now);
      r := FinishClaude(State(), prior, ev);
    }

    method CommentByClaude(from: nat, a: ClaudeAction, now: nat, uuid: string) returns (r: Result<seq<Event>, Refusal>)
      requires a.CommentOn?
      modifies this
      ensures ClaudeComment(old(State()), from, a, now, uuid) == Outcome(State(), r)
    {
      var images := ImagesOf(a.images);
      if images.Failure? { return Failure(images.error); }
      if a.text == "" && images.value == [] { return Failure(EmptyComment); }
      var at := Pos(cards, a.n);
      if at.None? { return Failure(CardGone); }
      var prior, c := cards, cards[at.value];
      if |c.comments| >= MAX_COMMENTS { return Failure(TooManyComments); }
      c := c.(comments := c.comments + [Comment(uuid, ByClaude, Some(from), a.text, images.value, now)],
              updated := now, unread := true);
      cards := cards[at.value := c];
      r := FinishClaude(State(), prior, Tell(c, Some(from), Commented(uuid, a.text, images.value)));
    }

    /** Archive cards `ids`, one after another. */
    method ArchiveAll(ids: seq<nat>, from: nat, now: nat) returns (ev: seq<Event>)
      modifies this`cards
      ensures (cards, ev) == ArchiveEach(old(cards), ids, Some(from), now)
    {
      ev := [];
      var i := 0;
      StartOnto(ArchiveEach(cards, ids, Some(from), now));
      assert ids[0..] == ids;
      while i < |ids|
        invariant i <= |ids|
        invariant ArchiveEach(old(cards), ids, Some(from), now) == Onto(ev, ArchiveEach(cards, ids[i..], Some(from), now))
      {
        assert ids[i..][1..] == ids[i + 1..] && ids[i..][0] == ids[i];
        var at := Pos(cards, ids[i]);
        if at.Some? && !cards[at.value].archived {
          var c := cards[at.value].(archived := true, updated := now);
          cards := cards[at.value := c];
          var told := Tell(c, Some(from), Archived(true));
          ghost var rest := ArchiveEach(cards, ids[i + 1..], Some(from), now);
          assert ev + (told + rest.1) == (ev + told) + rest.1;
          ev := ev + told;
        }
        i := i + 1;
      }
      assert ids[i..] == [] && ev + [] == ev;
    }

    method ArchiveByClaude(from: nat, ids: seq<nat>, now: nat) returns (r: Result<seq<Event>, Refusal>)
      modifies this
      ensures ClaudeArchive(old(State()), from, ids, now) == Outcome(State(), r)
    {
      if |ids| == 0 { return Failure(MissingId); }
      if !AllThere(cards, ids) { return Failure(CardGone); }
      var prior := cards;
      var ev := ArchiveAll(ids, from, now);
      r := FinishClaude(State(), prior, ev);
    }

    method ApplyClaude(from: nat, a: ClaudeAction, now: nat, uuid: string) returns (r: Result<seq<Event>, Refusal>)
      modifies this
      ensures S.ApplyClaude(old(State()), from, a, now, uuid) == Outcome(State(), r)
    {
      match a {
        case AddCards(items) => r := AddByClaude(from, items, now);
        case UpdateCard(_, _, _, _, _, _, _) => r := UpdateByClaude(from, a, now);
        case MoveCards(ids, to) => r := MoveByClaude(from, ids, to, now);
        case CommentOn(_, _, _) => r := CommentByClaude(from, a, now, uuid);
        case ArchiveCards(ids) => r := ArchiveByClaude(from, ids, now);
        case ProposeColumns(reqs, why) =>
          var prior := cards;
          var id := Propose(from, reqs, why, now);
          if id.Failure? { return Failure(id.error); }
          r := FinishClaude(State(), prior, []);
      }
    }
  }

  class Outbox {
    var waiting: map<nat, seq<Event>>
    var sending: map<nat, Sending>

    function State(): OutboxState
      reads this
    {
      OutboxState(waiting, sending)
    }

    constructor ()
      ensures State() == OutboxState(map[], map[])
    {
      waiting, sending := map[], map[];
    }

    method Push(events: seq<Event>, user: bool, now: nat)
      modifies this
      ensures State() == O.Push(old(State()), events, user, now)
    {
      var i := 0;
      while i < |events|
        invariant i <= |events|
        invariant State() == O.Push(old(State()), events[..i], user, now)
      {
        var e := events[i];
        assert events[..i + 1][..i] == events[..i];
        if user {
          waiting := waiting[e.to := Queue(waiting, e.to) + [e]];
        } else {
          var s := StartClock(SendingOf(sending, e.to), now);
          sending := sending[e.to := s.(events := s.events + [e])];
        }
        i := i + 1;
      }
      assert events[..|events|] == events;
    }

    /** What a queue adds up to per card, by one pass over a mutable map. */
    static method Fold(events: seq<Event>) returns (folds: map<nat, Folded>)
      ensures folds == O.Fold(events)
    {
      folds := map[];
      var i := 0;
      while i < |events|
        invariant i <= |events|
        invariant folds == O.Fold(events[..i])
      {
        assert events[..i + 1][..i] == events[..i];
        folds := folds[events[i].n := Absorb(FoldOf(folds, events[i].n), events[i])];
        i := i + 1;
      }
      assert events[..|events|] == events;
    }

    method Release(id: nat, b: BoardState, now: nat) returns (released: bool)
      modifies this
      ensures (State(), released) == O.Release(old(State()), id, b, now)
    {
      var isReal := id in Pending(waiting, b);
      if id !in waiting { return false; }
      var events := waiting[id];
      waiting := waiting - {id};
      if !isReal { return false; }
      var s := StartClock(SendingOf(sending, id), now);
      sending := sending[id := s.(events := s.events + events)];
      released := true;
    }

    method Take(id: nat, b: BoardState) returns (msg: Option<Message>)
      modifies this`sending
      ensures (State(), msg) == O.Take(old(State()), id, b)
    {
      if id !in sending { return None; }
      var folds := Fold(sending[id].events);
      sending := sending - {id};
      msg := Render(id, folds, b);
    }

    method Forget(keep: set<nat>) returns (changed: bool)
      modifies this
      ensures (State(), changed) == O.Forget(old(State()), keep)
    {
      var before := (|waiting|, |sending|);
      waiting := map id | id in waiting && id in keep :: waiting[id];
      sending := map id | id in sending && id in keep :: sending[id];
      changed := before != (|waiting|, |sending|);
    }
  }

  /** The store: calls run on a copy of the board, which replaces it only when they are accepted. */
  class BoardStore {
    var board: Board
    var outbox: Outbox

    function World(): World
      reads this, board, outbox
    {
      NetDifference.World(board.State(), outbox.State())
    }

    constructor ()
      ensures World() == NetDifference.World(DEFAULT_BOARD, OutboxState(map[], map[]))
      ensures WellFormed(World().board)
      ensures fresh(board) && fresh(outbox)
    {
      board := new Board.Of(DEFAULT_BOARD);
      outbox := new Outbox();
      new;
      EveryReachableBoard([]);
    }

    /** The user's edit; an accepted one's events wait for UPDATE. */
    method UserDoes(e: BoardEdit, now: nat, uuid: string) returns (accepted: bool)
      modifies this, outbox
      ensures World() == Step(old(World()), UserCall(e, now, uuid))
      ensures outbox == old(outbox) && (board == old(board) || fresh(board))
      ensures old(WellFormed(World().board)) ==> WellFormed(World().board)
    {
      hide WellFormed;
      ghost var w := World();
      var copy := new Board.Of(board.State());
      var events;
      if e.Approve? || e.Reject? {
        var r := copy.Decide(e.proposal, e.Approve?, now);
        if r.Failure? { return false; }
        events := r.value.events;
      } else {
        var r := copy.ApplyUser(e, now, uuid);
        if r.Failure? { return false; }
        events := r.value.events;
      }
      if copy.State() != board.State() {
        board := copy;
      }
      outbox.Push(events, true, now);
      accepted := true;
      if WellFormed(w.board) {
        CommitKeeps(w.board, UserCall(e, now, uuid));
      }
    }

    /** A claude's action; what it tells other claudes goes out on its own. */
    method ClaudeDoes(from: nat, a: ClaudeAction, now: nat, uuid: string) returns (accepted: bool)
      modifies this, outbox
      ensures World() == Step(old(World()), ClaudeCall(from, a, now, uuid))
      ensures outbox == old(outbox) && (board == old(board) || fresh(board))
      ensures old(WellFormed(World().board)) ==> WellFormed(World().board)
    {
      hide WellFormed, ApplyClaude;
      ghost var w := World();
      var copy := new Board.Of(board.State());
      var r := copy.ApplyClaude(from, a, now, uuid);
      if r.Failure? { return false; }
      if copy.State() != board.State() {
        board := copy;
      }
      outbox.Push(r.value, false, now);
      accepted := true;
      if WellFormed(w.board) {
        CommitKeeps(w.board, ClaudeCall(from, a, now, uuid));
      }
    }

    /** UPDATE for `id`. */
    method Update(id: nat, now: nat) returns (released: bool)
      modifies outbox
      ensures (outbox.State(), released) == O.Release(old(outbox.State()), id, board.State(), now)
    {
      released := outbox.Release(id, board.State(), now);
    }
  }
}
