/**
 What UPDATE counts, over whole runs: whatever was edited in between, the changes
 pending for a claude are the difference between the board at the start and now.
*/
module NetDifference {
  import opened Wrappers
  import opened BoardState
  import opened BoardCards
  import opened BoardTelling
  import opened BoardInvariant
  import opened OutboxState

  // ---------- The events of one claude about one card ----------

  function ToMe(ev: seq<Event>, id: nat): seq<Event> {
    if |ev| == 0 then []
    else ToMe(ev[..|ev| - 1], id) + (if ev[|ev| - 1].to == id then [ev[|ev| - 1]] else [])
  }

  function About(ev: seq<Event>, n: nat): seq<Event> {
    if |ev| == 0 then []
    else About(ev[..|ev| - 1], n) + (if ev[|ev| - 1].n == n then [ev[|ev| - 1]] else [])
  }

  /** What `id`'s queue holds about card `n`. */
  function Thread(ob: OutboxState, id: nat, n: nat): seq<Event> {
    About(Queue(ob.waiting, id), n)
  }

  lemma ToMeConcat(a: seq<Event>, b: seq<Event>, id: nat)
    ensures ToMe(a + b, id) == ToMe(a, id) + ToMe(b, id)
  {
    if |b| == 0 {
      assert a + b == a;
    } else {
      assert (a + b)[..|a + b| - 1] == a + b[..|b| - 1];
      ToMeConcat(a, b[..|b| - 1], id);
    }
  }

  lemma AboutConcat(a: seq<Event>, b: seq<Event>, n: nat)
    ensures About(a + b, n) == About(a, n) + About(b, n)
  {
    if |b| == 0 {
      assert a + b == a;
    } else {
      assert (a + b)[..|a + b| - 1] == a + b[..|b| - 1];
      AboutConcat(a, b[..|b| - 1], n);
    }
  }

  function Mine(ev: seq<Event>, id: nat, n: nat): seq<Event> {
    About(ToMe(ev, id), n)
  }

  lemma MineConcat(a: seq<Event>, b: seq<Event>, id: nat, n: nat)
    ensures Mine(a + b, id, n) == Mine(a, id, n) + Mine(b, id, n)
  {
    ToMeConcat(a, b, id);
    AboutConcat(ToMe(a, id), ToMe(b, id), n);
  }

  lemma {:induction false} MineMembers(ev: seq<Event>, id: nat, n: nat)
    ensures forall e :: e in Mine(ev, id, n) <==> e in ev && e.to == id && e.n == n
    ensures |Mine(ev, id, n)| == Count(ev, id, n)
  {
    if |ev| != 0 {
      var init, last := ev[..|ev| - 1], ev[|ev| - 1];
      assert ev == init + [last];
      MineMembers(init, id, n);
      MineConcat(init, [last], id, n);
      CountConcat(init, [last], id, n);
      CountShort([last], id, n);
      MineOne(last, id, n);
    }
  }

  lemma MineOne(e: Event, id: nat, n: nat)
    ensures Mine([e], id, n) == if e.to == id && e.n == n then [e] else []
  {
    assert [e][..0] == [];
    assert ToMe([], id) == [] && About([], n) == [];
    assert ToMe([e], id) == if e.to == id then [e] else [];
    assert About([e], n) == if e.n == n then [e] else [];
  }

  /** Pushing a round's events adds each claude's own to its queue. */
  lemma {:induction false} PushQueues(ob: OutboxState, ev: seq<Event>, now: nat, id: nat)
    ensures Queue(Push(ob, ev, true, now).waiting, id) == Queue(ob.waiting, id) + ToMe(ev, id)
    ensures Push(ob, ev, false, now).waiting == ob.waiting
  {
    if |ev| != 0 {
      PushQueues(ob, ev[..|ev| - 1], now, id);
    }
  }

  lemma PushThread(ob: OutboxState, ev: seq<Event>, now: nat, id: nat, n: nat)
    ensures Thread(Push(ob, ev, true, now), id, n) == Thread(ob, id, n) + Mine(ev, id, n)
  {
    PushQueues(ob, ev, now, id);
    AboutConcat(Queue(ob.waiting, id), ToMe(ev, id), n);
  }

  // ---------- What a queue folds to ----------

  function OnePost(e: Event): seq<Posted> {
    if e.change.Commented? then [Posted(e.actor, e.change.id, e.change.text, e.change.images)] else []
  }

  function PostedIn(ev: seq<Event>): seq<Posted> {
    if |ev| == 0 then [] else PostedIn(ev[..|ev| - 1]) + OnePost(ev[|ev| - 1])
  }

  lemma MarkedIs(f: Folded, e: Event)
    ensures Marked(f, e).base == f.base && Marked(f, e).comments == f.comments + OnePost(e)
    ensures Marked(f, e).title == f.title && Marked(f, e).actors == f.actors
  {
    assert e.change.Commented? || f.comments + OnePost(e) == f.comments;
  }

  /** What one event leaves of the baseline and the comments. */
  lemma AbsorbIs(f: Folded, e: Event)
    ensures Absorb(f, e).base == if f.base.Some? then f.base else Some(e.before)
    ensures Absorb(f, e).comments == f.comments + OnePost(e)
    ensures Absorb(f, e).title == e.title && Absorb(f, e).actors == f.actors + {e.actor}
  {
    hide Marked, OnePost;
    MarkedIs(f.(base := if f.base.Some? then f.base else Some(e.before), title := e.title, actors := f.actors + {e.actor}), e);
  }

  lemma PostedConcat(a: seq<Event>, e: Event)
    ensures PostedIn(a + [e]) == PostedIn(a) + OnePost(e)
  {
    assert (a + [e])[..|a|] == a;
  }

  /** Folding keeps, per card, the first event's baseline, every comment in order, the last title and everyone who acted. */
  ghost predicate FoldKeeps(events: seq<Event>, n: nat) {
    var f, thread := FoldOf(Fold(events), n), About(events, n);
    && (n in Fold(events) <==> thread != [])
    && f.base == (if thread == [] then None else Some(thread[0].before))
    && f.comments == PostedIn(thread)
    && f.title == (if thread == [] then "" else thread[|thread| - 1].title)
    && f.actors == set e | e in thread :: e.actor
  }

  lemma {:induction false} FoldIs(events: seq<Event>, n: nat)
    ensures FoldKeeps(events, n)
  {
    if |events| != 0 {
      var init, e := events[..|events| - 1], events[|events| - 1];
      FoldIs(init, n);
      AbsorbIs(FoldOf(Fold(init), e.n), e);
      if e.n == n {
        PostedConcat(About(init, n), e);
        assert About(events, n) == About(init, n) + [e];
      } else {
        assert About(events, n) == About(init, n);
      }
    }
  }

  /** A folded card always has a baseline: events saved without one read as a card that did not exist. */
  lemma BaselineIsSet(events: seq<Event>, n: nat)
    requires n in Fold(events)
    ensures Fold(events)[n].base.Some?
  {
    FoldIs(events, n);
  }

  /** Card `n` is counted for `id`. */
  ghost predicate IsPending(ob: OutboxState, b: BoardState, id: nat, n: nat) {
    id in Pending(ob.waiting, b) && n in Pending(ob.waiting, b)[id]
  }

  lemma PendingIs(ob: OutboxState, b: BoardState, id: nat, n: nat)
    ensures IsPending(ob, b, id, n) <==>
            Thread(ob, id, n) != [] && IsReal(id, n, FoldOf(Fold(Queue(ob.waiting, id)), n), b)
  {
    var q := Queue(ob.waiting, id);
    FoldIs(q, n);
    if id !in ob.waiting {
      assert About([], n) == [];
    } else {
      assert n in PendingIn(id, q, b) <==> n in Fold(q) && IsReal(id, n, FoldOf(Fold(q), n), b);
    }
  }

  // ---------- Comments ----------

  function CommentIds(ev: seq<Event>): set<string> {
    if |ev| == 0 then {}
    else
      var e := ev[|ev| - 1];
      CommentIds(ev[..|ev| - 1]) + (if e.change.Commented? then {e.change.id} else {})
  }

  lemma CommentIdsConcat(a: seq<Event>, b: seq<Event>)
    ensures CommentIds(a + b) == CommentIds(a) + CommentIds(b)
  {
    if |b| == 0 {
      assert a + b == a;
    } else {
      assert (a + b)[..|a + b| - 1] == a + b[..|b| - 1];
      CommentIdsConcat(a, b[..|b| - 1]);
    }
  }

  lemma CommentIdsMembers(ev: seq<Event>)
    ensures forall x :: x in CommentIds(ev) <==> exists k :: 0 <= k < |ev| && ev[k].change.Commented? && ev[k].change.id == x
  {
    if |ev| != 0 {
      CommentIdsMembers(ev[..|ev| - 1]);
      forall x ensures x in CommentIds(ev) <==> exists k :: 0 <= k < |ev| && ev[k].change.Commented? && ev[k].change.id == x {
        if k :| 0 <= k < |ev| && ev[k].change.Commented? && ev[k].change.id == x {
          if k < |ev| - 1 {
            assert ev[..|ev| - 1][k] == ev[k];
          }
        }
      }
    }
  }

  /** Comment `x` is on card `n`. */
  ghost predicate Stands(cards: seq<Card>, n: nat, x: string) {
    Find(cards, n).Some? && exists m :: m in Find(cards, n).value.comments && m.id == x
  }

  lemma LiveConcat(a: seq<Posted>, b: seq<Posted>, card: Option<Card>)
    ensures LiveComments(a + b, card) == LiveComments(a, card) + LiveComments(b, card)
  {
    if |a| == 0 {
      assert a + b == b;
    } else {
      assert (a + b)[1..] == a[1..] + b;
      LiveConcat(a[1..], b, card);
    }
  }

  /** A queue has something to say of comments exactly when one of them still stands. */
  lemma {:induction false} LiveIsStanding(ev: seq<Event>, cards: seq<Card>, n: nat)
    requires "" !in CommentIds(ev)
    ensures LiveComments(PostedIn(ev), Find(cards, n)) != [] <==> exists x :: x in CommentIds(ev) && Stands(cards, n, x)
  {
    if |ev| != 0 {
      var init, e := ev[..|ev| - 1], ev[|ev| - 1];
      LiveIsStanding(init, cards, n);
      if e.change.Commented? {
        var p := Posted(e.actor, e.change.id, e.change.text, e.change.images);
        LiveConcat(PostedIn(init), [p], Find(cards, n));
        OneLive(p, cards, n);
        assert CommentIds(ev) == CommentIds(init) + {p.id};
        assert PostedIn(ev) == PostedIn(init) + [p];
        if Stands(cards, n, p.id) {
          assert p.id in CommentIds(ev);
        }
      } else {
        assert PostedIn(ev) == PostedIn(init) && CommentIds(ev) == CommentIds(init);
      }
    }
  }

  lemma OneLive(p: Posted, cards: seq<Card>, n: nat)
    requires p.id != ""
    ensures LiveComments([p], Find(cards, n)) != [] <==> Stands(cards, n, p.id)
  {
    assert [p][1..] == [];
  }

  /** A posted comment is told to the card's holder, and to nobody else. */
  lemma PostedEvent(b: BoardState, e: BoardEdit, now: nat, uuid: string, id: nat, n: nat)
    requires Numbered(b) && e.PostComment? && ApplyUser(b, e, now, uuid).result.Success?
    ensures CommentIds(Mine(ApplyUser(b, e, now, uuid).result.value.events, id, n)) ==
            if e.n == n && HeldBy(b.cards, n, id) then {uuid} else {}
  {
    hide ApplyUser, SnapAt, Numbered, Mine;
    var c, ev := CommentTold(b, e, now, uuid);
    if c.assignee.Some? {
      MineOne(ev[0], id, n);
      OneCommentId(ev[0]);
    } else {
      assert Mine([], id, n) == [] by { MineMembers([], id, n); }
    }
  }

  lemma OneCommentId(e: Event)
    requires e.change.Commented?
    ensures CommentIds([e]) == {e.change.id} && CommentIds([]) == {}
  {
    assert [e][..0] == [];
  }

  lemma CommentTold(b: BoardState, e: BoardEdit, now: nat, uuid: string) returns (c: Card, ev: seq<Event>)
    requires Numbered(b) && e.PostComment? && ApplyUser(b, e, now, uuid).result.Success?
    ensures ev == ApplyUser(b, e, now, uuid).result.value.events && Find(b.cards, e.n) == Some(c) && c.n == e.n
    ensures ev == if c.assignee.None? then [] else
                  [Event(c.assignee.value, c.n, None, Commented(uuid, e.text, e.images), c.title, SnapAt(b.cards, c.n))]
  {
    hide Normalize;
    assert UserComment(b, e, now, uuid).result.Success?;
    c := b.cards[Pos(b.cards, e.n).value];
    ev := ApplyUser(b, e, now, uuid).result.value.events;
  }

  lemma CommentEvents(b: BoardState, e: BoardEdit, now: nat, uuid: string, id: nat, n: nat)
    requires Numbered(b) && ApplyUser(b, e, now, uuid).result.Success?
    ensures CommentIds(Mine(ApplyUser(b, e, now, uuid).result.value.events, id, n)) ==
            if e.PostComment? && e.n == n && HeldBy(b.cards, n, id) then {uuid} else {}
  {
    hide ApplyUser;
    if e.PostComment? {
      PostedEvent(b, e, now, uuid, id, n);
    } else {
      var ev := ApplyUser(b, e, now, uuid).result.value.events;
      NoCommentEvents(b, e, now, uuid);
      CommentIdsMembers(Mine(ev, id, n));
      MineMembers(ev, id, n);
      forall k | 0 <= k < |Mine(ev, id, n)| ensures !Mine(ev, id, n)[k].change.Commented? {
        assert Mine(ev, id, n)[k] in ev;
      }
    }
  }

  /** Archiving or deleting a column tells of cards moved and archived, not of comments. */
  lemma NoCommentInBulk(b: BoardState, e: BoardEdit, now: nat)
    requires Numbered(b) && (e.ArchiveColumn? || e.ColDelete?) && ApplyUser(b, e, now, "").result.Success?
    ensures var ev := ApplyUser(b, e, now, "").result.value.events;
            forall k :: 0 <= k < |ev| ==> !ev[k].change.Commented?
  {
    hide Normalize, Rehome, Find;
    var ev := ApplyUser(b, e, now, "").result.value.events;
    NumbersInColumn(b.cards, e.col);
    forall k | 0 <= k < |ev| ensures !ev[k].change.Commented? {
      if e.ArchiveColumn? {
        SweepEventsAre(b.cards, e.col, now, k);
      } else {
        RehomeEventsAre(b.cards, NumbersIn(b.cards, e.col),
                        if e.dest.Some? then e.dest.value else FirstOther(b.columns, e.col), e.dest.Some?, now, k);
      }
    }
  }

  lemma NoCommentEvents(b: BoardState, e: BoardEdit, now: nat, uuid: string)
    requires Numbered(b) && !e.PostComment? && ApplyUser(b, e, now, uuid).result.Success?
    ensures var ev := ApplyUser(b, e, now, uuid).result.value.events;
            forall k :: 0 <= k < |ev| ==> !ev[k].change.Commented?
  {
    hide Place, Numbered, Normalize, Rehome, Find, SnapAt;
    match e {
      case ArchiveColumn(_) => NoCommentInBulk(b, e, now);
      case ColDelete(_, _) => NoCommentInBulk(b, e, now);
      case Assign(_, _) => assert UserAssign(b, e, now).result.Success?;
      case Edit(_, _, _, _) => assert UserEdit(b, e, now).result.Success?;
      case Choose(_, _) => assert UserChoose(b, e, now).result.Success?;
      case EditComment(_, _, _, _) => assert UserEditComment(b, e).result.Success?;
      case DeleteComment(_, _) => assert UserDeleteComment(b, e).result.Success?;
      case Archive(_, _) => assert UserArchive(b, e, now).result.Success?;
      case Seen(_) => assert UserSeen(b, e).result.Success?;
      case Move(_, _, _) => assert UserMove(b, e, now).result.Success?;
      case Delete(_) => assert UserDelete(b, e).result.Success?;
      case _ =>
    }
  }

  // ---------- One call ----------

  /** The board and everything waiting to be told. */
  datatype World = World(board: BoardState, ob: OutboxState)

  /** A call that reached the store: its events are queued for UPDATE when the user made it. */
  function Step(w: World, call: Call): World {
    match call
    case UserCall(e, now, uuid) =>
      if e.Approve? || e.Reject? then
        var o := Decide(w.board, e.proposal, e.Approve?, now);
        if o.result.Failure? then w else World(o.board, Push(w.ob, o.result.value.events, true, now))
      else
        var o := ApplyUser(w.board, e, now, uuid);
        if o.result.Failure? then w else World(o.board, Push(w.ob, o.result.value.events, true, now))
    case ClaudeCall(from, a, now, uuid) =>
      var o := ApplyClaude(w.board, from, a, now, uuid);
      if o.result.Failure? then w else World(o.board, Push(w.ob, o.result.value, false, now))
  }

  function Run(w: World, calls: seq<Call>): World
    decreases |calls|
  {
    if |calls| == 0 then w else Run(Step(w, calls[0]), calls[1..])
  }

  /** What a call queues for `id` about card `n`: nothing when refused, and nothing when a claude made it. */
  function Told(b: BoardState, call: Call, id: nat, n: nat): seq<Event> {
    match call
    case UserCall(e, now, uuid) =>
      if e.Approve? || e.Reject? then
        var o := Decide(b, e.proposal, e.Approve?, now);
        if o.result.Failure? then [] else Mine(o.result.value.events, id, n)
      else
        var o := ApplyUser(b, e, now, uuid);
        if o.result.Failure? then [] else Mine(o.result.value.events, id, n)
    case ClaudeCall(_, _, _, _) => []
  }

  lemma StepThread(w: World, call: Call, id: nat, n: nat)
    ensures Step(w, call).board == Commit(w.board, call)
    ensures Thread(Step(w, call).ob, id, n) == Thread(w.ob, id, n) + Told(w.board, call, id, n)
  {
    hide ApplyUser, ApplyClaude, Mine, About, Push;
    assert Thread(w.ob, id, n) + [] == Thread(w.ob, id, n);
    match call {
      case UserCall(e, now, uuid) =>
        if e.Approve? || e.Reject? {
          var o := Decide(w.board, e.proposal, e.Approve?, now);
          if o.result.Success? {
            PushThread(w.ob, o.result.value.events, now, id, n);
          }
        } else {
          var o := ApplyUser(w.board, e, now, uuid);
          if o.result.Success? {
            PushThread(w.ob, o.result.value.events, now, id, n);
          }
        }
      case ClaudeCall(from, a, now, uuid) =>
        var o := ApplyClaude(w.board, from, a, now, uuid);
        if o.result.Success? {
          PushQueues(w.ob, o.result.value, now, id);
        }
    }
  }

  function PostedBy(b: BoardState, call: Call, id: nat, n: nat): set<string> {
    if call.UserCall? && call.edit.PostComment? && call.edit.n == n && HeldBy(b.cards, n, id)
       && ApplyUser(b, call.edit, call.now, call.uuid).result.Success?
    then {call.uuid} else {}
  }

  /** What `id` is told of card `n`: the comments posted, first the card as it was, and something if it is owed. */
  ghost predicate Tells(cards: seq<Card>, cards1: seq<Card>, mine: seq<Event>, id: nat, n: nat, posted: set<string>) {
    && CommentIds(mine) == posted && "" !in posted
    && (mine == [] ==> !Owed(cards, cards1, id, n))
    && (mine != [] ==> mine[0].before == SnapAt(cards, n) && (HeldBy(cards, n, id) || HeldBy(cards1, n, id)))
  }

  lemma NothingTells(cards: seq<Card>, id: nat, n: nat)
    ensures Tells(cards, cards, [], id, n, {})
  {
  }

  lemma MineTells(cards: seq<Card>, cards1: seq<Card>, ev: seq<Event>, id: nat, n: nat, posted: set<string>)
    requires TellsRight(cards, cards1, ev) && CommentIds(Mine(ev, id, n)) == posted && "" !in posted
    ensures Tells(cards, cards1, Mine(ev, id, n), id, n, posted)
  {
    hide SnapAt, HeldBy, Owed, CommentIds;
    var mine := Mine(ev, id, n);
    MineMembers(ev, id, n);
    if mine != [] {
      assert mine[0] in mine;
      var k :| 0 <= k < |ev| && ev[k] == mine[0];
      assert Deserved(cards, cards1, ev[k]);
    }
  }

  lemma IsNumbered(b: BoardState)
    requires WellFormed(b)
    ensures Numbered(b)
  {
  }

  lemma EditTells(b: BoardState, e: BoardEdit, now: nat, uuid: string, id: nat, n: nat)
    requires WellFormed(b) && ApplyUser(b, e, now, uuid).result.Success? && (e.PostComment? ==> uuid != "")
    ensures var o := ApplyUser(b, e, now, uuid);
            Tells(b.cards, o.board.cards, Mine(o.result.value.events, id, n), id, n,
                  if e.PostComment? && e.n == n && HeldBy(b.cards, n, id) then {uuid} else {})
  {
    hide ApplyUser, Tells, TellsRight, Numbered, WellFormed, HeldBy, Mine, CommentIds;
    IsNumbered(b);
    EveryEditTells(b, e, now, uuid);
    CommentEvents(b, e, now, uuid, id, n);
    var o := ApplyUser(b, e, now, uuid);
    MineTells(b.cards, o.board.cards, o.result.value.events, id, n,
              if e.PostComment? && e.n == n && HeldBy(b.cards, n, id) then {uuid} else {});
  }

  /** An archived card goes without a word: deleting it, or its column, tells nobody of it. */
  lemma ArchivedGoesSilently(b: BoardState, e: BoardEdit, now: nat, id: nat, n: nat)
    requires Numbered(b) && ApplyUser(b, e, now, "").result.Success?
    requires Find(b.cards, n).Some? && Find(b.cards, n).value.archived
    requires (e.Delete? && e.n == n) || e.ColDelete?
    ensures Mine(ApplyUser(b, e, now, "").result.value.events, id, n) == []
    ensures e.Delete? ==> Find(ApplyUser(b, e, now, "").board.cards, n).None?
  {
    hide Normalize, Place, Rehome, Count, Pos;
    var ev := ApplyUser(b, e, now, "").result.value.events;
    MineMembers(ev, id, n);
    if e.Delete? {
      assert UserDelete(b, e).result.Success?;
      EffectOfDelete(b, e);
      OnlyThat(b, e, 0, "", UserDelete(b, e).board.cards);
    } else {
      var dest := if e.dest.Some? then e.dest.value else FirstOther(b.columns, e.col);
      var ns := NumbersIn(b.cards, e.col);
      NumbersInColumn(b.cards, e.col);
      CountStamp(Rehome(b.cards, ns, dest, e.dest.Some?, now).1, b.cards, id, n);
      RehomeCounts(b.cards, ns, dest, e.dest.Some?, now, id, n);
    }
  }

  // ---------- Approved proposals are runs of column edits ----------

  /** Column edits tell of no comment, keep holders, and pass over archived cards. */
  ghost predicate ColumnsTell(cards: seq<Card>, cards1: seq<Card>, mine: seq<Event>, id: nat, n: nat) {
    && Tells(cards, cards1, mine, id, n, {})
    && (HeldBy(cards1, n, id) <==> HeldBy(cards, n, id))
    && (IsArchived(cards, n) ==> mine == [] && IsArchived(cards1, n))
  }

  ghost predicate IsArchived(cards: seq<Card>, n: nat) {
    Find(cards, n).Some? && Find(cards, n).value.archived
  }

  lemma ColumnsTellOn(cards: seq<Card>, cards1: seq<Card>, cards2: seq<Card>, a: seq<Event>, b: seq<Event>, id: nat, n: nat)
    requires ColumnsTell(cards, cards1, a, id, n) && ColumnsTell(cards1, cards2, b, id, n)
    ensures ColumnsTell(cards, cards2, a + b, id, n)
  {
    hide CommentIds, Find;
    CommentIdsConcat(a, b);
    assert a == [] ==> a + b == b;
    assert a != [] ==> (a + b)[0] == a[0];
  }

  lemma ColumnEditKeepsCard(b: BoardState, e: BoardEdit, now: nat, id: nat, n: nat)
    requires WellFormed(b) && EditsColumns(e) && ApplyUser(b, e, now, "").result.Success?
    ensures var cards1 := ApplyUser(b, e, now, "").board.cards;
            (HeldBy(cards1, n, id) <==> HeldBy(b.cards, n, id)) && (IsArchived(b.cards, n) ==> IsArchived(cards1, n))
  {
    hide ApplyUser, WellFormed, Numbered, Find;
    IsNumbered(b);
    UserEffect(b, e, now, "");
    assert Find(ApplyUser(b, e, now, "").board.cards, n) == ExpectedAt(b, e, now, "", n);
  }

  lemma ArchivedIsPassedOver(b: BoardState, e: BoardEdit, now: nat, id: nat, n: nat)
    requires WellFormed(b) && EditsColumns(e) && ApplyUser(b, e, now, "").result.Success? && IsArchived(b.cards, n)
    ensures Mine(ApplyUser(b, e, now, "").result.value.events, id, n) == []
  {
    hide WellFormed, Numbered, Find, Normalize, Rehome;
    IsNumbered(b);
    if e.ColDelete? {
      ArchivedGoesSilently(b, e, now, id, n);
    } else {
      MineMembers([], id, n);
    }
  }

  lemma ColumnEditTells(b: BoardState, e: BoardEdit, now: nat, id: nat, n: nat)
    requires WellFormed(b) && EditsColumns(e) && ApplyUser(b, e, now, "").result.Success?
    ensures var o := ApplyUser(b, e, now, "");
            WellFormed(o.board) && ColumnsTell(b.cards, o.board.cards, Mine(o.result.value.events, id, n), id, n)
  {
    hide ApplyUser, WellFormed, Tells, HeldBy, IsArchived, Mine;
    UserKeeps(b, e, now, "");
    EditTells(b, e, now, "", id, n);
    ColumnEditKeepsCard(b, e, now, id, n);
    if IsArchived(b.cards, n) {
      ArchivedIsPassedOver(b, e, now, id, n);
    }
  }

  /** An accepted outcome tells right and leaves a well-formed board. */
  ghost predicate AppliedTells(b: BoardState, r: Applied, id: nat, n: nat)
    requires r.result.Success?
  {
    WellFormed(r.board) && ColumnsTell(b.cards, r.board.cards, Mine(r.result.value, id, n), id, n)
  }

  lemma ByEditTells(b: BoardState, news: News, e: BoardEdit, now: nat, id: nat, n: nat)
    requires WellFormed(b) && EditsColumns(e) && ByEdit(b, news, e, now).result.Success?
    ensures AppliedTells(b, ByEdit(b, news, e, now), id, n)
  {
    hide ApplyUser, WellFormed, ColumnsTell, Mine;
    ColumnEditTells(b, e, now, id, n);
  }

  lemma AppliedTellsOn(b: BoardState, r: Applied, r1: Applied, both: Applied, id: nat, n: nat)
    requires r.result.Success? && r1.result.Success? && both.result == Success(r.result.value + r1.result.value) && both.board == r1.board
    requires AppliedTells(b, r, id, n) && AppliedTells(r.board, r1, id, n)
    ensures AppliedTells(b, both, id, n)
  {
    hide WellFormed, ColumnsTell, Mine;
    MineConcat(r.result.value, r1.result.value, id, n);
    ColumnsTellOn(b.cards, r.board.cards, r1.board.cards, Mine(r.result.value, id, n), Mine(r1.result.value, id, n), id, n);
  }

  lemma ChangeTells(b: BoardState, ch: ColChange, news: News, now: nat, id: nat, n: nat)
    requires WellFormed(b) && ApplyChange(b, ch, news, now).result.Success?
    ensures AppliedTells(b, ApplyChange(b, ch, news, now), id, n)
  {
    hide WellFormed, AppliedTells, ByEdit;
    match ch {
      case AddCol(_, _, _) => AddColTells(b, ch, news, now, id, n);
      case EditCol(col, name, desc) =>
        ByEditTells(b, news, ColEdit(Resolve(b.columns, news, col).value, name, desc), now, id, n);
      case MoveCol(col, before) =>
        ByEditTells(b, news, ColMove(Resolve(b.columns, news, col).value, ResolveOpt(b.columns, news, before).value), now, id, n);
      case DeleteCol(col, to) =>
        ByEditTells(b, news, ColDelete(Resolve(b.columns, news, col).value, ResolveOpt(b.columns, news, to).value), now, id, n);
    }
  }

  lemma SameTells(b: BoardState, r: Applied, r1: Applied, id: nat, n: nat)
    requires r.result.Success? && AppliedTells(b, r, id, n) && r1.result == r.result && r1.board == r.board
    ensures AppliedTells(b, r1, id, n)
  {
  }

  lemma AppliedIsWellFormed(b: BoardState, r: Applied, id: nat, n: nat)
    requires r.result.Success? && AppliedTells(b, r, id, n)
    ensures WellFormed(r.board)
  {
  }

  lemma AddColTells(b: BoardState, ch: ColChange, news: News, now: nat, id: nat, n: nat)
    requires WellFormed(b) && ch.AddCol? && ApplyChange(b, ch, news, now).result.Success?
    ensures AppliedTells(b, ApplyChange(b, ch, news, now), id, n)
  {
    hide ApplyUser, AppliedTells, ByEdit;
    var at := ResolveOpt(b.columns, news, ch.before).value;
    var added := ByEdit(b, news, ColAdd(ch.name, ch.desc), now);
    ByEditTells(b, news, ColAdd(ch.name, ch.desc), now, id, n);
    if at.None? {
      SameTells(b, added, ApplyChange(b, ch, news, now), id, n);
    } else {
      var col := added.board.nextCol;
      var news1 := news + [(ch.name, col)];
      AppliedIsWellFormed(b, added, id, n);
      ByEditTells(added.board, news1, ColMove(col, at), now, id, n);
      AppliedTellsOn(b, added, ByEdit(added.board, news1, ColMove(col, at), now), ApplyChange(b, ch, news, now), id, n);
    }
  }

  lemma {:induction false} ChangesTell(b: BoardState, changes: seq<ColChange>, news: News, now: nat, id: nat, n: nat)
    requires WellFormed(b) && ApplyChanges(b, changes, news, now).result.Success?
    ensures AppliedTells(b, ApplyChanges(b, changes, news, now), id, n)
    decreases |changes|
  {
    if |changes| == 0 {
      NothingTells(b.cards, id, n);
      MineMembers([], id, n);
    } else {
      var first := ApplyChange(b, changes[0], news, now);
      ChangeTells(b, changes[0], news, now, id, n);
      ChangesTell(first.board, changes[1..], first.news, now, id, n);
      AppliedTellsOn(b, first, ApplyChanges(first.board, changes[1..], first.news, now), ApplyChanges(b, changes, news, now), id, n);
    }
  }

  lemma DecisionTells(b: BoardState, p: nat, approve: bool, now: nat, id: nat, n: nat)
    requires WellFormed(b) && Decide(b, p, approve, now).result.Success?
    ensures var o := Decide(b, p, approve, now);
            Tells(b.cards, o.board.cards, Mine(o.result.value.events, id, n), id, n, {})
  {
    hide WellFormed, Tells, Mine;
    var i := PropPos(b.proposals, p).value;
    if approve {
      WithoutProposal(b, i);
      ChangesTell(b.(proposals := RemoveAt(b.proposals, i)), b.proposals[i].changes, [], now, id, n);
    } else {
      NothingTells(b.cards, id, n);
      MineMembers([], id, n);
    }
  }

  /** Every call a user makes tells right, refused ones included. */
  lemma CallTells(b: BoardState, call: Call, id: nat, n: nat)
    requires WellFormed(b) && call.UserCall? && (call.edit.PostComment? ==> call.uuid != "")
    ensures Tells(b.cards, Commit(b, call).cards, Told(b, call, id, n), id, n, PostedBy(b, call, id, n))
  {
    hide WellFormed, Tells, Mine, Decide, ApplyUser, HeldBy;
    var e := call.edit;
    NothingTells(b.cards, id, n);
    if e.Approve? || e.Reject? {
      if Decide(b, e.proposal, e.Approve?, call.now).result.Success? {
        DecisionTells(b, e.proposal, e.Approve?, call.now, id, n);
      }
    } else if ApplyUser(b, e, call.now, call.uuid).result.Success? {
      EditTells(b, e, call.now, call.uuid, id, n);
    }
  }

  // ---------- Whole runs ----------

  /** A posted comment's fresh id is never empty. */
  ghost predicate FreshIds(calls: seq<Call>) {
    forall i :: 0 <= i < |calls| ==> calls[i].UserCall? && calls[i].edit.PostComment? ==> calls[i].uuid != ""
  }

  /** Comments the user posted on card `n` in this run while `id` held it. */
  function PostedWhileHeld(w: World, calls: seq<Call>, id: nat, n: nat): set<string>
    decreases |calls|
  {
    if |calls| == 0 then {}
    else
      PostedBy(w.board, calls[0], id, n) + PostedWhileHeld(Step(w, calls[0]), calls[1..], id, n)
  }

  /** Card `n` just before the first call that queued something about it for `id`; `None` when none did. */
  function FirstTold(w: World, calls: seq<Call>, id: nat, n: nat): Option<Option<Snap>>
    decreases |calls|
  {
    if |calls| == 0 then None
    else if Told(w.board, calls[0], id, n) != [] then Some(SnapAt(w.board.cards, n))
    else FirstTold(Step(w, calls[0]), calls[1..], id, n)
  }

  /** A queue about one card: its comments, and the card as it was before its first event. */
  ghost predicate Holds(q: seq<Event>, base: Option<Option<Snap>>, posted: set<string>) {
    && CommentIds(q) == posted && "" !in posted
    && (base.None? <==> q == []) && (base.Some? ==> q[0].before == base.value)
  }

  lemma HoldsMore(q: seq<Event>, base: Option<Option<Snap>>, posted: set<string>, mine: seq<Event>,
                  before: Option<Snap>, more: set<string>)
    requires Holds(q, base, posted) && CommentIds(mine) == more && "" !in more
    requires mine != [] ==> mine[0].before == before
    ensures Holds(q + mine, if base.None? && mine != [] then Some(before) else base, posted + more)
  {
    CommentIdsConcat(q, mine);
    assert q == [] ==> q + mine == mine;
  }

  lemma CallHolds(w: World, call: Call, id: nat, n: nat, base: Option<Option<Snap>>, posted: set<string>)
    requires WellFormed(w.board) && (call.UserCall? && call.edit.PostComment? ==> call.uuid != "")
    requires Holds(Thread(w.ob, id, n), base, posted)
    ensures WellFormed(Step(w, call).board)
    ensures Holds(Thread(Step(w, call).ob, id, n),
                  if base.None? && Told(w.board, call, id, n) != [] then Some(SnapAt(w.board.cards, n)) else base,
                  posted + PostedBy(w.board, call, id, n))
  {
    hide WellFormed, Step, Thread, Told, Commit, Holds, SnapAt, PostedBy;
    StepThread(w, call, id, n);
    CommitKeeps(w.board, call);
    if call.UserCall? {
      CallTells(w.board, call, id, n);
    } else {
      ClaudesTellNothing(w.board, call, id, n);
    }
    HoldsMore(Thread(w.ob, id, n), base, posted, Told(w.board, call, id, n), SnapAt(w.board.cards, n), PostedBy(w.board, call, id, n));
  }

  lemma ClaudesTellNothing(b: BoardState, call: Call, id: nat, n: nat)
    requires call.ClaudeCall?
    ensures Told(b, call, id, n) == [] && PostedBy(b, call, id, n) == {} && CommentIds([]) == {}
  {
  }

  /** In every run the queue starts from the card as it was before the first call told of, and has the comments posted. */
  lemma {:induction false} RunHolds(w: World, calls: seq<Call>, id: nat, n: nat, base: Option<Option<Snap>>, posted: set<string>)
    requires WellFormed(w.board) && FreshIds(calls) && Holds(Thread(w.ob, id, n), base, posted)
    ensures Holds(Thread(Run(w, calls).ob, id, n), if base.Some? then base else FirstTold(w, calls, id, n),
                  posted + PostedWhileHeld(w, calls, id, n))
    decreases |calls|
  {
    hide WellFormed, Step, Thread, Told, Holds, SnapAt, PostedBy;
    if |calls| == 0 {
      assert posted + {} == posted;
    } else {
      CallHolds(w, calls[0], id, n, base, posted);
      var base1 := if base.None? && Told(w.board, calls[0], id, n) != [] then Some(SnapAt(w.board.cards, n)) else base;
      var posted1 := posted + PostedBy(w.board, calls[0], id, n);
      RunHolds(Step(w, calls[0]), calls[1..], id, n, base1, posted1);
      assert posted1 + PostedWhileHeld(Step(w, calls[0]), calls[1..], id, n) == posted + PostedWhileHeld(w, calls, id, n);
    }
  }

  lemma RunFromNothing(w: World, calls: seq<Call>, id: nat, n: nat)
    requires WellFormed(w.board) && FreshIds(calls) && Thread(w.ob, id, n) == []
    ensures Holds(Thread(Run(w, calls).ob, id, n), FirstTold(w, calls, id, n), PostedWhileHeld(w, calls, id, n))
  {
    hide WellFormed, Run, FirstTold;
    RunHolds(w, calls, id, n, None, {});
    assert {} + PostedWhileHeld(w, calls, id, n) == PostedWhileHeld(w, calls, id, n);
  }

  // ---------- What is counted ----------

  /**
   Card `n` differs from `base` for `id`. Made since: it still exists. Held by `id` then: gone, changed, or a comment
   posted stands. Not held then: held now.
  */
  ghost predicate Differs(cards: seq<Card>, id: nat, n: nat, base: Option<Snap>, posted: set<string>) {
    match base
    case None => Find(cards, n).Some?
    case Some(s) =>
      if s.assignee == Some(id) then SnapAt(cards, n) != base || exists x :: x in posted && Stands(cards, n, x)
      else HeldBy(cards, n, id)
  }

  /** A fold with a baseline nets to a real change exactly when the card differs from it, or has comments to tell. */
  lemma RealIs(id: nat, f: Folded, base: Option<Snap>, card: Option<Card>)
    requires f.base == Some(base)
    ensures var x := NetOf(id, f, card);
            (x.Some? && x.value.Any()) <==>
            match base
            case None => card.Some?
            case Some(s) =>
              if s.assignee == Some(id) then card.None? || SnapOf(card.value) != s || LiveComments(f.comments, card) != []
              else card.Some? && card.value.assignee == Some(id)
  {
  }

  lemma HoldsCounts(ob: OutboxState, b: BoardState, id: nat, n: nat, base: Option<Option<Snap>>, posted: set<string>)
    requires Holds(Thread(ob, id, n), base, posted)
    ensures IsPending(ob, b, id, n) <==> base.Some? && Differs(b.cards, id, n, base.value, posted)
  {
    hide Fold, Find, LiveComments, CommentIds, NetOf, Stands;
    PendingIs(ob, b, id, n);
    FoldIs(Queue(ob.waiting, id), n);
    if base.Some? {
      LiveIsStanding(Thread(ob, id, n), b.cards, n);
      RealIs(id, FoldOf(Fold(Queue(ob.waiting, id)), n), base.value, Find(b.cards, n));
    }
  }

  /**
   What UPDATE counts after every run, refused edits, decided proposals and claudes' actions included, with nothing of
   card `n` waiting for `id` at its start: the card as it is now differs from what it was before the first call that
   told `id` of it.
  */
  lemma CountedSinceFirstTold(w: World, calls: seq<Call>, id: nat, n: nat)
    requires WellFormed(w.board) && FreshIds(calls) && Thread(w.ob, id, n) == []
    ensures var w1, base := Run(w, calls), FirstTold(w, calls, id, n);
            IsPending(w1.ob, w1.board, id, n) <==>
            base.Some? && Differs(w1.board.cards, id, n, base.value, PostedWhileHeld(w, calls, id, n))
  {
    hide Thread, Run, FirstTold, Differs;
    RunFromNothing(w, calls, id, n);
    HoldsCounts(Run(w, calls).ob, Run(w, calls).board, id, n, FirstTold(w, calls, id, n), PostedWhileHeld(w, calls, id, n));
  }

  // ---------- From the start of the run ----------

  /** No claude changed what is told of card `n` before the user first did for `id`. */
  ghost predicate UserFirst(w: World, calls: seq<Call>, id: nat, n: nat)
    decreases |calls|
  {
    |calls| > 0 && Told(w.board, calls[0], id, n) == [] ==>
      && (calls[0].ClaudeCall? ==> SnapAt(Step(w, calls[0]).board.cards, n) == SnapAt(w.board.cards, n))
      && UserFirst(Step(w, calls[0]), calls[1..], id, n)
  }

  lemma HolderIsSnap(cards: seq<Card>, n: nat, id: nat)
    ensures HeldBy(cards, n, id) <==> SnapAt(cards, n).Some? && SnapAt(cards, n).value.assignee == Some(id)
    ensures Find(cards, n).Some? <==> SnapAt(cards, n).Some?
    ensures IsArchived(cards, n) <==> SnapAt(cards, n).Some? && SnapAt(cards, n).value.archived
  {
  }

  /** A call that tells `id` nothing leaves its active card as it was, and gives it no other. */
  lemma SilentCall(w: World, call: Call, id: nat, n: nat)
    requires WellFormed(w.board) && 1 <= n <= w.board.next && Told(w.board, call, id, n) == []
    requires call.UserCall? && call.edit.PostComment? ==> call.uuid != ""
    requires call.ClaudeCall? ==> SnapAt(Step(w, call).board.cards, n) == SnapAt(w.board.cards, n)
    ensures var cards1 := Step(w, call).board.cards;
            && (HeldBy(w.board.cards, n, id) && !IsArchived(w.board.cards, n) ==> SnapAt(cards1, n) == SnapAt(w.board.cards, n))
            && (!HeldBy(w.board.cards, n, id) ==> !HeldBy(cards1, n, id))
  {
    hide WellFormed, Step, Told, Commit, Find, CommentIds, PostedBy;
    StepThread(w, call, id, n);
    CommitKeeps(w.board, call);
    HolderIsSnap(w.board.cards, n, id);
    HolderIsSnap(Step(w, call).board.cards, n, id);
    if call.UserCall? {
      CallTells(w.board, call, id, n);
    }
  }

  /** The first call that tells `id` of a card it did not hold gives it that card, which was on the board. */
  lemma GivingCall(b: BoardState, call: Call, id: nat, n: nat)
    requires WellFormed(b) && 1 <= n <= b.next && Told(b, call, id, n) != [] && !HeldBy(b.cards, n, id)
    requires call.UserCall? && call.edit.PostComment? ==> call.uuid != ""
    ensures SnapAt(b.cards, n).Some? && SnapAt(b.cards, n).value.assignee != Some(id)
  {
    hide WellFormed, Commit, CommentIds, PostedBy;
    CommitKeeps(b, call);
    CallTells(b, call, id, n);
    HolderIsSnap(b.cards, n, id);
    HolderIsSnap(Commit(b, call).cards, n, id);
  }

  lemma StepOn(w: World, call: Call)
    requires WellFormed(w.board)
    ensures WellFormed(Step(w, call).board) && w.board.next <= Step(w, call).board.next
  {
    hide WellFormed, Commit;
    StepThread(w, call, 0, 0);
    CommitKeeps(w.board, call);
  }

  /** A card `id` held at the start: what it was then is the baseline, and until told of it stays so. */
  lemma {:induction false} HeldFrom(w: World, calls: seq<Call>, id: nat, n: nat, s0: Snap)
    requires WellFormed(w.board) && FreshIds(calls) && UserFirst(w, calls, id, n) && 1 <= n <= w.board.next
    requires SnapAt(w.board.cards, n) == Some(s0) && s0.assignee == Some(id) && !s0.archived
    ensures match FirstTold(w, calls, id, n)
            case None => SnapAt(Run(w, calls).board.cards, n) == Some(s0)
            case Some(s) => s == Some(s0)
    decreases |calls|
  {
    hide WellFormed, Step, Told, Find;
    if |calls| > 0 && Told(w.board, calls[0], id, n) == [] {
      HolderIsSnap(w.board.cards, n, id);
      SilentCall(w, calls[0], id, n);
      StepOn(w, calls[0]);
      HeldFrom(Step(w, calls[0]), calls[1..], id, n, s0);
    }
  }

  /** A card `id` did not hold at the start: it is first told of one that others, or nobody, held. */
  lemma {:induction false} NotHeldFrom(w: World, calls: seq<Call>, id: nat, n: nat)
    requires WellFormed(w.board) && FreshIds(calls) && UserFirst(w, calls, id, n) && 1 <= n <= w.board.next
    requires !HeldBy(w.board.cards, n, id)
    ensures match FirstTold(w, calls, id, n)
            case None => !HeldBy(Run(w, calls).board.cards, n, id)
            case Some(s) => s.Some? && s.value.assignee != Some(id)
    decreases |calls|
  {
    hide WellFormed, Step, Told, Find;
    if |calls| > 0 {
      if Told(w.board, calls[0], id, n) == [] {
        SilentCall(w, calls[0], id, n);
        StepOn(w, calls[0]);
        NotHeldFrom(Step(w, calls[0]), calls[1..], id, n);
      } else {
        GivingCall(w.board, calls[0], id, n);
      }
    }
  }

  /**
   The net-difference theorem. Nothing of card `n` waits for `id` at the start. Whatever the user then did, refused
   edits and decided proposals included, a card on the board at the start is counted for claude `id` exactly when:
   `id` held it (active), and it is gone, its snapshot differs from the start, or a comment posted while `id` held it
   still stands; or `id` did not hold it, and holds it now.
  */
  lemma NetDifferenceTheorem(w: World, calls: seq<Call>, id: nat, n: nat)
    requires WellFormed(w.board) && FreshIds(calls) && UserFirst(w, calls, id, n) && Thread(w.ob, id, n) == []
    requires Find(w.board.cards, n).Some?
    requires HeldBy(w.board.cards, n, id) ==> !Find(w.board.cards, n).value.archived
    ensures var w1 := Run(w, calls);
            IsPending(w1.ob, w1.board, id, n) <==>
            if HeldBy(w.board.cards, n, id)
            then SnapAt(w1.board.cards, n) != SnapAt(w.board.cards, n)
                 || exists x :: x in PostedWhileHeld(w, calls, id, n) && Stands(w1.board.cards, n, x)
            else HeldBy(w1.board.cards, n, id)
  {
    hide Run, Find, Thread, Stands;
    KnownNumber(w.board, n);
    CountedSinceFirstTold(w, calls, id, n);
    RunFromNothing(w, calls, id, n);
    HolderIsSnap(w.board.cards, n, id);
    if HeldBy(w.board.cards, n, id) {
      HeldFrom(w, calls, id, n, SnapAt(w.board.cards, n).value);
      if FirstTold(w, calls, id, n).None? {
        NothingPosted(Thread(Run(w, calls).ob, id, n), PostedWhileHeld(w, calls, id, n));
      }
    } else {
      NotHeldFrom(w, calls, id, n);
    }
  }

  lemma KnownNumber(b: BoardState, n: nat)
    requires WellFormed(b) && Find(b.cards, n).Some?
    ensures 1 <= n <= b.next
  {
    FoundMember(b.cards, n);
  }

  lemma NothingPosted(q: seq<Event>, posted: set<string>)
    requires Holds(q, None, posted)
    ensures posted == {}
  {
  }

  /**
   A card the user made during the run is counted for the claude it was made for as long as it exists,
   whoever holds it, and for any other claude exactly when that claude holds it now.
  */
  lemma NewCardTheorem(w: World, call: Call, calls: seq<Call>, id: nat)
    requires WellFormed(w.board) && call.UserCall? && call.edit.Add?
    requires UserAdd(w.board, call.edit, call.now).result.Success?
    requires FreshIds(calls) && Thread(w.ob, id, w.board.next + 1) == []
    requires call.edit.assignee != Some(id) ==> UserFirst(Step(w, call), calls, id, w.board.next + 1)
    ensures var n, w1 := w.board.next + 1, Run(Step(w, call), calls);
            IsPending(w1.ob, w1.board, id, n) <==>
            if call.edit.assignee == Some(id) then Find(w1.board.cards, n).Some? else HeldBy(w1.board.cards, n, id)
  {
    hide WellFormed, Step, Thread, Find, HeldBy, UserAdd, UserFirst, IsPending;
    if call.edit.assignee == Some(id) {
      MakerIsTold(w, call, calls, id);
    } else {
      OthersAreNotTold(w, call, calls, id);
    }
  }

  lemma MakerIsTold(w: World, call: Call, calls: seq<Call>, id: nat)
    requires WellFormed(w.board) && call.UserCall? && call.edit.Add? && call.edit.assignee == Some(id)
    requires UserAdd(w.board, call.edit, call.now).result.Success?
    requires FreshIds(calls) && Thread(w.ob, id, w.board.next + 1) == []
    ensures var n, w1 := w.board.next + 1, Run(Step(w, call), calls);
            IsPending(w1.ob, w1.board, id, n) <==> Find(w1.board.cards, n).Some?
  {
    hide WellFormed, Step, Told, Thread, Find, SnapAt, UserAdd, IsPending, PostedWhileHeld;
    var n, all := w.board.next + 1, [call] + calls;
    MakingTells(w.board, call, id);
    assert all[0] == call && all[1..] == calls;
    CountedSinceFirstTold(w, all, id, n);
  }

  lemma OthersAreNotTold(w: World, call: Call, calls: seq<Call>, id: nat)
    requires WellFormed(w.board) && call.UserCall? && call.edit.Add? && call.edit.assignee != Some(id)
    requires UserAdd(w.board, call.edit, call.now).result.Success?
    requires FreshIds(calls) && Thread(w.ob, id, w.board.next + 1) == []
    requires UserFirst(Step(w, call), calls, id, w.board.next + 1)
    ensures var n, w1 := w.board.next + 1, Run(Step(w, call), calls);
            IsPending(w1.ob, w1.board, id, n) <==> HeldBy(w1.board.cards, n, id)
  {
    hide WellFormed, Step, Told, Thread, Find, SnapAt, HeldBy, UserAdd, UserFirst, IsPending, FirstTold, Run, PostedWhileHeld;
    var n := w.board.next + 1;
    MakingTells(w.board, call, id);
    StepThread(w, call, id, n);
    StepOn(w, call);
    assert Thread(w.ob, id, n) + [] == [];
    CountedSinceFirstTold(Step(w, call), calls, id, n);
    NotHeldFrom(Step(w, call), calls, id, n);
  }

  /** Making a card tells exactly the claude it is made for, of a card that was not there. */
  lemma MakingTells(b: BoardState, call: Call, id: nat)
    requires WellFormed(b) && call.UserCall? && call.edit.Add? && UserAdd(b, call.edit, call.now).result.Success?
    ensures var n, b1 := b.next + 1, Commit(b, call);
            && SnapAt(b.cards, n).None? && b1.next == n
            && (HeldBy(b1.cards, n, id) <==> call.edit.assignee == Some(id))
            && (Told(b, call, id, n) != [] <==> call.edit.assignee == Some(id))
  {
    hide WellFormed, CommentIds, Mine, Stamp, Normalize, Place;
    var n, e := b.next + 1, call.edit;
    NoNumberYet(b);
    IsNumbered(b);
    assert ApplyUser(b, e, call.now, call.uuid) == UserAdd(b, e, call.now);
    EffectOfAdd(b, e, call.now);
    assert Find(UserAdd(b, e, call.now).board.cards, n) == ExpectedAt(b, e, call.now, "", n);
    CallTells(b, call, id, n);
  }

  lemma NoNumberYet(b: BoardState)
    requires WellFormed(b)
    ensures Find(b.cards, b.next + 1).None?
  {
    FoundMember(b.cards, b.next + 1);
  }

  // ---------- What is said ----------

  /** The comments told are those of `posted` that stand, as they read now. */
  ghost predicate TellsComments(told: seq<Posted>, posted: set<string>, c: Card) {
    && (forall p :: p in told ==> p.id in posted && exists m :: m in c.comments && m.id == p.id && m.text == p.text && m.images == p.images)
    && (forall m :: m in c.comments && m.id in posted ==> exists p :: p in told && p.id == m.id)
  }

  ghost predicate TextDiffers(base: Option<Snap>, c: Card) {
    base.Some? && (c.title != base.value.title || c.detail != base.value.detail || c.images != base.value.images)
  }

  /** The card is new to `id` since `base`. */
  ghost predicate NewTo(base: Option<Snap>, id: nat) {
    base.None? || base.value.assignee != Some(id)
  }

  ghost predicate SaysParts(parts: seq<Part>, base: Option<Snap>, c: Card, id: nat) {
    && (NewForYou in parts <==> base.None?)
    && (NowYours in parts <==> base.Some? && NewTo(base, id))
    && (forall col :: NowIn(col) in parts <==> c.col == col && (NewTo(base, id) || c.col != base.value.col))
    && (forall a :: ArchivedNow(a) in parts <==> base.Some? && c.archived == a && c.archived != base.value.archived)
    && (TextEdited in parts <==> TextDiffers(base, c))
    && (forall x :: Picked(x) in parts <==> base.Some? && c.chosen == x && c.chosen != base.value.chosen)
  }

  /**
   An entry says how the card differs from `base`: deleted; gone from `id`, and to whom; or exactly the fields that
   differ as they are now, the standing comments as they read now, and, of a card new to `id` or with its text edited,
   its whole text and images.
  */
  ghost predicate Says(e: Entry, base: Option<Snap>, card: Option<Card>, id: nat, n: nat, posted: set<string>) {
    e.n == n &&
    match card
    case None => e.SaysDeleted?
    case Some(c) =>
      if !NewTo(base, id) && c.assignee != Some(id) then e.SaysLost? && e.to == c.assignee && e.title == c.title
      else
        && e.SaysChanged? && e.title == c.title && SaysParts(e.parts, base, c, id) && TellsComments(e.comments, posted, c)
        && (if NewTo(base, id) || TextDiffers(base, c) then e.detail == c.detail && e.images == c.images
            else e.detail.None? && e.images == [])
  }

  /** Which parts an entry has. */
  lemma PartsAre(x: Net, card: Card, p: Part)
    ensures p in PartsOf(x, card) <==>
            match p
            case NewForYou => x.added
            case NowYours => !x.added && x.given
            case NowIn(col) => col == card.col && (x.moved || x.added || x.given)
            case ArchivedNow(on) => x.archived == Some(on)
            case TextEdited => x.edited
            case Picked(choice) => x.chose == Some(choice)
  {
    var a := if x.added then [NewForYou] else if x.given then [NowYours] else [];
    var b := if x.moved || x.added || x.given then [NowIn(card.col)] else [];
    var c := match x.archived case Some(on) => [ArchivedNow(on)] case None => [];
    var d := if x.edited then [TextEdited] else [];
    var e := match x.chose case Some(choice) => [Picked(choice)] case None => [];
    assert PartsOf(x, card) == a + b + c + d + e;
    assert p in a + b + c + d + e <==> p in a || p in b || p in c || p in d || p in e;
  }

  /** The parts of a kept card name exactly the fields that differ. */
  lemma PartsSay(x: Net, c: Card, base: Option<Snap>, id: nat)
    requires x.added == base.None? && x.given == (base.Some? && NewTo(base, id))
    requires base.Some? ==> x.moved == (c.col != base.value.col)
    requires x.edited == TextDiffers(base, c)
    requires x.archived == if base.Some? && c.archived != base.value.archived then Some(c.archived) else None
    requires x.chose == if base.Some? && c.chosen != base.value.chosen then Some(c.chosen) else None
    ensures SaysParts(PartsOf(x, c), base, c, id)
  {
    hide PartsOf;
    forall p: Part {
      PartsAre(x, c, p);
    }
  }

  /** What a fold nets to for a card that is still there and not lost. */
  lemma NetSays(id: nat, f: Folded, c: Card, base: Option<Snap>)
    requires f.base == Some(base) && NetOf(id, f, Some(c)).Some? && (NewTo(base, id) || c.assignee == Some(id))
    ensures var x := NetOf(id, f, Some(c)).value;
            && x.lost.None? && !x.deleted && SaysParts(PartsOf(x, c), base, c, id)
            && (x.added || x.given <==> NewTo(base, id)) && (x.edited <==> TextDiffers(base, c))
  {
    hide LiveComments, PartsOf, SaysParts;
    PartsSay(NetOf(id, f, Some(c)).value, c, base, id);
  }

  lemma {:induction false} LiveAre(ps: seq<Posted>, c: Card)
    requires forall p :: p in ps ==> p.id != ""
    ensures forall p :: p in LiveComments(ps, Some(c)) ==>
              (exists p0 :: p0 in ps && p0.id == p.id)
              && exists m :: m in c.comments && m.id == p.id && m.text == p.text && m.images == p.images
    ensures forall p0, m :: p0 in ps && m in c.comments && m.id == p0.id ==> exists p :: p in LiveComments(ps, Some(c)) && p.id == p0.id
  {
    if |ps| > 0 {
      LiveAre(ps[1..], c);
      var found := CommentById(c.comments, ps[0].id);
      var rest := LiveComments(ps[1..], Some(c));
      if found.Some? {
        var p := ps[0].(text := found.value.text, images := found.value.images);
        assert LiveComments(ps, Some(c)) == [p] + rest;
        assert p in [p] + rest;
      } else {
        assert LiveComments(ps, Some(c)) == rest;
      }
    }
  }

  lemma {:induction false} PostedIds(ev: seq<Event>)
    ensures forall x :: x in CommentIds(ev) <==> exists p :: p in PostedIn(ev) && p.id == x
  {
    if |ev| > 0 {
      var init, e := ev[..|ev| - 1], ev[|ev| - 1];
      PostedIds(init);
      if e.change.Commented? {
        var p := Posted(e.actor, e.change.id, e.change.text, e.change.images);
        assert PostedIn(ev) == PostedIn(init) + [p] && p in PostedIn(ev);
      } else {
        assert PostedIn(ev) == PostedIn(init);
      }
    }
  }

  lemma CommentsSay(q: seq<Event>, posted: set<string>, c: Card)
    requires CommentIds(q) == posted && "" !in posted
    ensures TellsComments(LiveComments(PostedIn(q), Some(c)), posted, c)
  {
    hide CommentIds, PostedIn, LiveComments;
    PostedIds(q);
    LiveAre(PostedIn(q), c);
  }

  lemma EntrySays(id: nat, n: nat, f: Folded, b: BoardState, base: Option<Snap>, q: seq<Event>, posted: set<string>)
    requires f.base == Some(base) && f.comments == PostedIn(q) && CommentIds(q) == posted && "" !in posted
    requires IsReal(id, n, f, b)
    ensures forall e :: e in EntryOf(id, n, f, b) ==> Says(e, base, Find(b.cards, n), id, n, posted)
  {
    hide LiveComments, PartsOf, SaysParts, TellsComments, Find, PostedIn, CommentIds;
    var card := Find(b.cards, n);
    if card.Some? && (NewTo(base, id) || card.value.assignee == Some(id)) {
      NetSays(id, f, card.value, base);
      CommentsSay(q, posted, card.value);
    }
  }

  lemma {:induction false} EntriesMembers(id: nat, ns: seq<nat>, folds: map<nat, Folded>, b: BoardState, e: Entry)
    requires e in EntriesOf(id, ns, folds, b)
    ensures e in EntryOf(id, e.n, FoldOf(folds, e.n), b) && IsReal(id, e.n, FoldOf(folds, e.n), b)
  {
    hide EntryOf;
    if e in EntryOf(id, ns[0], FoldOf(folds, ns[0]), b) {
      EntryIsAbout(id, ns[0], FoldOf(folds, ns[0]), b, e);
    } else {
      EntriesMembers(id, ns[1..], folds, b, e);
    }
  }

  lemma EntryIsAbout(id: nat, n: nat, f: Folded, b: BoardState, e: Entry)
    requires e in EntryOf(id, n, f, b)
    ensures e.n == n && IsReal(id, n, f, b)
  {
  }

  /** Every entry of a rendered queue says how its card differs from its baseline. */
  lemma MessageSaysTheDifference(q: seq<Event>, id: nat, b: BoardState, e: Entry, base: Option<Option<Snap>>, posted: set<string>)
    requires Render(id, Fold(q), b).Some? && e in Render(id, Fold(q), b).value.entries
    requires Holds(About(q, e.n), base, posted)
    ensures base.Some? && Says(e, base.value, Find(b.cards, e.n), id, e.n, posted)
    ensures About(q, e.n) != [] && e.actors == (set x | x in About(q, e.n) :: x.actor)
    ensures e.SaysDeleted? ==> e.title == About(q, e.n)[|About(q, e.n)| - 1].title
  {
    hide Fold, FoldOf, EntriesOf, EntryOf, IsReal, Says, CommentIds, PostedIn, About;
    EntriesMembers(id, InOrder(Fold(q).Keys), Fold(q), b, e);
    EntryKeys(id, InOrder(Fold(q).Keys), Fold(q), b, e);
    FoldIs(q, e.n);
    EntrySays(id, e.n, FoldOf(Fold(q), e.n), b, base.value, About(q, e.n), posted);
    EntryTitle(id, e.n, FoldOf(Fold(q), e.n), b, e);
  }

  lemma EntryTitle(id: nat, n: nat, f: Folded, b: BoardState, e: Entry)
    requires e in EntryOf(id, n, f, b)
    ensures e.actors == f.actors && (e.SaysDeleted? ==> e.title == f.title)
  {
  }

  lemma {:induction false} EntryKeys(id: nat, ns: seq<nat>, folds: map<nat, Folded>, b: BoardState, e: Entry)
    requires e in EntriesOf(id, ns, folds, b)
    ensures e.n in ns
  {
    hide EntryOf;
    if e in EntryOf(id, ns[0], FoldOf(folds, ns[0]), b) {
      EntryIsAbout(id, ns[0], FoldOf(folds, ns[0]), b, e);
    } else {
      EntryKeys(id, ns[1..], folds, b, e);
    }
  }

  /**
   UPDATE after every run: released with nothing already going out, `id` is sent exactly one entry for each card that
   differs from what it was before `id` was first told of it, ascending, and each entry says how it differs.
  */
  lemma UpdateSaysTheDifference(w: World, calls: seq<Call>, id: nat, now: nat)
    requires WellFormed(w.board) && FreshIds(calls) && Queue(w.ob.waiting, id) == [] && id !in Run(w, calls).ob.sending
    ensures var w1 := Run(w, calls);
            var (ob1, released) := Release(w1.ob, id, w1.board, now);
            var msg := Take(ob1, id, w1.board).1;
            && (released <==> msg.Some?) && (released ==> msg.value.to == id && Ascending(NumbersOf(msg.value.entries)))
            && (forall n: nat :: var base := FirstTold(w, calls, id, n);
                  base.Some? && Differs(w1.board.cards, id, n, base.value, PostedWhileHeld(w, calls, id, n)) <==>
                  released && n in NumbersOf(msg.value.entries))
            && (released ==> forall e :: e in msg.value.entries ==>
                  var base := FirstTold(w, calls, id, e.n);
                  base.Some? && Says(e, base.value, Find(w1.board.cards, e.n), id, e.n, PostedWhileHeld(w, calls, id, e.n)))
  {
    hide WellFormed, Run, Fold, Find, Differs, Says, FirstTold, PostedWhileHeld, Render, EntriesOf;
    var w1 := Run(w, calls);
    var (ob1, released) := Release(w1.ob, id, w1.board, now);
    var msg := Take(ob1, id, w1.board).1;
    UpdateSaysWhatItCounts(w1.ob, id, w1.board, now);
    assert About([], 0) == [];
    forall n: nat ensures var base := FirstTold(w, calls, id, n);
                          base.Some? && Differs(w1.board.cards, id, n, base.value, PostedWhileHeld(w, calls, id, n)) <==>
                          released && n in NumbersOf(msg.value.entries)
    {
      assert Thread(w.ob, id, n) == [];
      CountedSinceFirstTold(w, calls, id, n);
    }
    if released {
      assert [] + w1.ob.waiting[id] == w1.ob.waiting[id];
      var q := Queue(w1.ob.waiting, id);
      assert msg == Render(id, Fold(q), w1.board);
      forall e | e in msg.value.entries
        ensures var base := FirstTold(w, calls, id, e.n);
                base.Some? && Says(e, base.value, Find(w1.board.cards, e.n), id, e.n, PostedWhileHeld(w, calls, id, e.n))
      {
        assert Thread(w.ob, id, e.n) == [];
        RunFromNothing(w, calls, id, e.n);
        MessageSaysTheDifference(q, id, w1.board, e, FirstTold(w, calls, id, e.n), PostedWhileHeld(w, calls, id, e.n));
      }
    }
  }
}
