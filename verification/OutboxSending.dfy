/** What goes out on its own: a claude's changes to other claudes' cards, and what UPDATE released. */
module OutboxSending {
  import opened Wrappers
  import opened BoardState
  import opened BoardCards
  import opened BoardTelling
  import opened BoardInvariant
  import opened ClaudeEffects
  import opened ClaudeTelling
  import opened OutboxState
  import opened NetDifference

  /** What is going out to `id`. */
  function Out(ob: OutboxState, id: nat): seq<Event> {
    SendingOf(ob.sending, id).events
  }

  /** Since when something waits for `id`: from the first that came. */
  function Since(ob: OutboxState, id: nat): Option<nat> {
    SendingOf(ob.sending, id).since
  }

  // ---------- One call on the queues ----------

  /** A claude's events go out, each to its own claude, after what was going out already; the user's wait instead. */
  lemma {:induction false} PushSends(ob: OutboxState, ev: seq<Event>, now: nat, id: nat)
    ensures Out(Push(ob, ev, false, now), id) == Out(ob, id) + ToMe(ev, id)
    ensures Since(Push(ob, ev, false, now), id) == if Since(ob, id).None? && ToMe(ev, id) != [] then Some(now) else Since(ob, id)
    ensures id in Push(ob, ev, false, now).sending <==> id in ob.sending || ToMe(ev, id) != []
    ensures Push(ob, ev, true, now).sending == ob.sending
  {
    if |ev| == 0 {
      assert Out(ob, id) + [] == Out(ob, id);
    } else {
      PushSends(ob, ev[..|ev| - 1], now, id);
    }
  }

  /** UPDATE appends what waited to what is going out, if it says something, and drops it if not; nobody else is touched. */
  lemma ReleaseAppends(ob: OutboxState, id: nat, b: BoardState, now: nat)
    ensures var (ob1, released) := Release(ob, id, b, now);
            && (released <==> id in Pending(ob.waiting, b))
            && Queue(ob1.waiting, id) == [] && id !in ob1.waiting
            && Out(ob1, id) == Out(ob, id) + (if released then Queue(ob.waiting, id) else [])
            && Since(ob1, id) == (if released && Since(ob, id).None? then Some(now) else Since(ob, id))
            && (!released ==> Render(id, Fold(Queue(ob.waiting, id)), b).None?)
            && forall o :: o != id ==> Queue(ob1.waiting, o) == Queue(ob.waiting, o) && Out(ob1, o) == Out(ob, o) && Since(ob1, o) == Since(ob, o)
  {
    hide Fold, Render, PendingIn, Pending;
    assert Out(ob, id) + [] == Out(ob, id);
    DropsNothing(ob, id, b);
  }

  /** A queue that is not pending would say nothing. */
  lemma DropsNothing(ob: OutboxState, id: nat, b: BoardState)
    ensures id !in Pending(ob.waiting, b) ==> Render(id, Fold(Queue(ob.waiting, id)), b).None?
    ensures id in Pending(ob.waiting, b) ==> id in ob.waiting
  {
    hide Fold, Render, PendingIn;
    MessageIsPending(id, Queue(ob.waiting, id), b);
    NothingPending(id, b);
  }

  lemma NothingPending(id: nat, b: BoardState)
    ensures PendingIn(id, [], b) == []
  {
    assert Fold([]) == map[];
  }

  /** Taking gives the message of all that was going out, leaves nothing of it, and touches nothing else. */
  lemma TakeTakesAll(ob: OutboxState, id: nat, b: BoardState)
    ensures var (ob1, msg) := Take(ob, id, b);
            && msg == Render(id, Fold(Out(ob, id)), b)
            && Out(ob1, id) == [] && Since(ob1, id).None? && id !in ob1.sending && ob1.waiting == ob.waiting
            && forall o :: o != id ==> Out(ob1, o) == Out(ob, o) && Since(ob1, o) == Since(ob, o)
  {
    if id !in ob.sending {
      assert Fold([]) == map[];
      MessageIsPending(id, [], b);
      assert PendingIn(id, [], b) == [];
    }
  }

  /** Forgetting keeps the queues of those kept, empties the others', and says whether there was one to forget. */
  lemma ForgetKeeps(ob: OutboxState, keep: set<nat>)
    ensures var (ob1, forgot) := Forget(ob, keep);
            && (forall id :: id in keep ==> Queue(ob1.waiting, id) == Queue(ob.waiting, id) && SendingOf(ob1.sending, id) == SendingOf(ob.sending, id))
            && (forall id :: id !in keep ==> id !in ob1.waiting && id !in ob1.sending)
            && (forgot <==> exists id :: id !in keep && (id in ob.waiting || id in ob.sending))
  {
    var ob1 := Forget(ob, keep).0;
    FewerKeys(ob.waiting, ob1.waiting);
    FewerKeys(ob.sending, ob1.sending);
  }

  lemma FewerKeys<T>(m: map<nat, T>, m1: map<nat, T>)
    requires m1.Keys <= m.Keys
    ensures |m1| == |m| <==> m1.Keys == m.Keys
  {
    assert |m1.Keys| == |m1| && |m.Keys| == |m|;
    if |m1| == |m| && m1.Keys != m.Keys {
      SmallerSet(m1.Keys, m.Keys);
    }
  }

  lemma SmallerSet(a: set<nat>, b: set<nat>)
    requires a < b
    ensures |a| < |b|
  {
    assert b == a + (b - a);
    assert b - a != {};
  }

  // ---------- Nothing is lost ----------

  /** The calls on the store and the queues. */
  datatype Deed = Does(call: Call) | Releases(id: nat, now: nat) | Takes(id: nat)

  /** What became of each event: still waiting or going out, sent in a message, or dropped as no change. */
  datatype Books = Books(w: World, told: seq<Event>, sent: seq<Event>, dropped: seq<Event>)

  /** All that a call's events are, for whomever. */
  function EventsOf(b: BoardState, call: Call): seq<Event> {
    match call
    case UserCall(e, now, uuid) =>
      if e.Approve? || e.Reject? then
        var o := Decide(b, e.proposal, e.Approve?, now);
        if o.result.Failure? then [] else o.result.value.events
      else
        var o := ApplyUser(b, e, now, uuid);
        if o.result.Failure? then [] else o.result.value.events
    case ClaudeCall(from, a, now, uuid) =>
      var o := ApplyClaude(b, from, a, now, uuid);
      if o.result.Failure? then [] else o.result.value
  }

  function Did(k: Books, d: Deed): Books {
    match d
    case Does(call) => k.(w := Step(k.w, call), told := k.told + EventsOf(k.w.board, call))
    case Releases(id, now) =>
      var (ob1, released) := Release(k.w.ob, id, k.w.board, now);
      k.(w := World(k.w.board, ob1), dropped := if released then k.dropped else k.dropped + Queue(k.w.ob.waiting, id))
    case Takes(id) => k.(w := World(k.w.board, Take(k.w.ob, id, k.w.board).0), sent := k.sent + Out(k.w.ob, id))
  }

  function DidAll(k: Books, deeds: seq<Deed>): Books
    decreases |deeds|
  {
    if |deeds| == 0 then k else DidAll(Did(k, deeds[0]), deeds[1..])
  }

  /** Every event told to `id` is in one place, and as often as it was told. */
  ghost predicate Balanced(k: Books, id: nat) {
    multiset(ToMe(k.told, id)) ==
    multiset(Queue(k.w.ob.waiting, id)) + multiset(Out(k.w.ob, id)) + multiset(ToMe(k.sent, id)) + multiset(ToMe(k.dropped, id))
  }

  /** Each queue holds only its own claude's events. */
  ghost predicate Own(ob: OutboxState) {
    forall id: nat :: ToMe(Queue(ob.waiting, id), id) == Queue(ob.waiting, id) && ToMe(Out(ob, id), id) == Out(ob, id)
                      && forall o: nat :: o != id ==> ToMe(Queue(ob.waiting, id), o) == [] && ToMe(Out(ob, id), o) == []
  }

  lemma {:induction false} ToMeTwice(ev: seq<Event>, id: nat, o: nat)
    ensures ToMe(ToMe(ev, id), o) == if o == id then ToMe(ev, id) else []
  {
    if |ev| > 0 {
      var init, last := ev[..|ev| - 1], ev[|ev| - 1];
      ToMeTwice(init, id, o);
      ToMeConcat(ToMe(init, id), if last.to == id then [last] else [], o);
      assert ToMe([last], o) == if last.to == o then [last] else [] by {
        assert [last][..0] == [];
      }
      assert ToMe([], o) == [];
    }
  }

  lemma StepQueues(w: World, call: Call, id: nat)
    ensures var w1, ev := Step(w, call), EventsOf(w.board, call);
            && Queue(w1.ob.waiting, id) == Queue(w.ob.waiting, id) + (if call.UserCall? then ToMe(ev, id) else [])
            && Out(w1.ob, id) == Out(w.ob, id) + (if call.UserCall? then [] else ToMe(ev, id))
  {
    hide ApplyUser, ApplyClaude, Decide, Push;
    assert ToMe([], id) == [] && Queue(w.ob.waiting, id) + [] == Queue(w.ob.waiting, id) && Out(w.ob, id) + [] == Out(w.ob, id);
    var ev := EventsOf(w.board, call);
    PushQueues(w.ob, ev, call.now, id);
    PushSends(w.ob, ev, call.now, id);
  }

  lemma OwnAfterCall(w: World, call: Call)
    requires Own(w.ob)
    ensures Own(Step(w, call).ob)
  {
    var ob1, ev := Step(w, call).ob, EventsOf(w.board, call);
    forall id: nat
      ensures ToMe(Queue(ob1.waiting, id), id) == Queue(ob1.waiting, id) && ToMe(Out(ob1, id), id) == Out(ob1, id)
      ensures forall o: nat :: o != id ==> ToMe(Queue(ob1.waiting, id), o) == [] && ToMe(Out(ob1, id), o) == []
    {
      hide Step, EventsOf, Own, ToMe;
      StepQueues(w, call, id);
      forall o: nat
        ensures ToMe(Queue(ob1.waiting, id), o) == if o == id then Queue(ob1.waiting, id) else []
        ensures ToMe(Out(ob1, id), o) == if o == id then Out(ob1, id) else []
      {
        OwnAt(w.ob, id, o);
        ToMeTwice(ev, id, o);
        NothingToMe(o);
        ToMeConcat(Queue(w.ob.waiting, id), if call.UserCall? then ToMe(ev, id) else [], o);
        ToMeConcat(Out(w.ob, id), if call.UserCall? then [] else ToMe(ev, id), o);
      }
    }
  }

  lemma NothingToMe(o: nat)
    ensures ToMe([], o) == []
  {
  }

  lemma OwnAt(ob: OutboxState, id: nat, o: nat)
    requires Own(ob)
    ensures ToMe(Queue(ob.waiting, id), o) == if o == id then Queue(ob.waiting, id) else []
    ensures ToMe(Out(ob, id), o) == if o == id then Out(ob, id) else []
  {
  }

  lemma BalancedAfterCall(k: Books, call: Call, id: nat)
    requires Balanced(k, id)
    ensures Balanced(Did(k, Does(call)), id)
  {
    hide Step, EventsOf, ToMe;
    var ev := EventsOf(k.w.board, call);
    StepQueues(k.w, call, id);
    ToMeConcat(k.told, ev, id);
  }

  lemma OwnAfterRelease(ob: OutboxState, o: nat, b: BoardState, now: nat)
    requires Own(ob)
    ensures Own(Release(ob, o, b, now).0)
  {
    var ob1 := Release(ob, o, b, now).0;
    forall x: nat
      ensures ToMe(Queue(ob1.waiting, x), x) == Queue(ob1.waiting, x) && ToMe(Out(ob1, x), x) == Out(ob1, x)
      ensures forall y: nat :: y != x ==> ToMe(Queue(ob1.waiting, x), y) == [] && ToMe(Out(ob1, x), y) == []
    {
      forall y: nat
        ensures ToMe(Queue(ob1.waiting, x), y) == (if y == x then Queue(ob1.waiting, x) else [])
                && ToMe(Out(ob1, x), y) == (if y == x then Out(ob1, x) else [])
      {
        OwnAfterReleaseAt(ob, o, b, now, x, y);
      }
    }
  }

  lemma OwnAfterReleaseAt(ob: OutboxState, o: nat, b: BoardState, now: nat, x: nat, y: nat)
    requires Own(ob)
    ensures var ob1 := Release(ob, o, b, now).0;
            && ToMe(Queue(ob1.waiting, x), y) == (if y == x then Queue(ob1.waiting, x) else [])
            && ToMe(Out(ob1, x), y) == (if y == x then Out(ob1, x) else [])
  {
    hide Release, Pending, Render, Fold, ToMe, Own, Queue, Out, Since;
    ReleaseAppends(ob, o, b, now);
    OwnAt(ob, x, y);
    NothingToMe(y);
    ToMeConcat(Out(ob, x), Queue(ob.waiting, x), y);
    assert Out(ob, x) + [] == Out(ob, x);
  }

  lemma ToldApart(q: seq<Event>, dropped: seq<Event>, o: nat, id: nat, released: bool)
    requires ToMe(q, id) == if id == o then q else []
    ensures multiset(ToMe(if released then dropped else dropped + q, id)) ==
            multiset(ToMe(dropped, id)) + (if !released && id == o then multiset(q) else multiset{})
  {
    hide ToMe;
    ToMeConcat(dropped, q, id);
    assert ToMe(dropped, id) + [] == ToMe(dropped, id);
  }

  lemma BalancedAfterRelease(k: Books, o: nat, now: nat, id: nat)
    requires Own(k.w.ob) && Balanced(k, id)
    ensures Balanced(Did(k, Releases(o, now)), id)
  {
    hide Release, Pending, Render, Fold, ToMe, Own, Queue, Out, Since;
    var released := Release(k.w.ob, o, k.w.board, now).1;
    ReleaseAppends(k.w.ob, o, k.w.board, now);
    OwnAt(k.w.ob, o, id);
    ToldApart(Queue(k.w.ob.waiting, o), k.dropped, o, id, released);
    assert multiset(Out(k.w.ob, id) + Queue(k.w.ob.waiting, id)) == multiset(Out(k.w.ob, id)) + multiset(Queue(k.w.ob.waiting, id));
  }

  lemma OwnAfterTake(ob: OutboxState, o: nat, b: BoardState)
    requires Own(ob)
    ensures Own(Take(ob, o, b).0)
  {
    hide Render, Fold, ToMe;
    TakeTakesAll(ob, o, b);
    forall y: nat ensures ToMe([], y) == [] {
      NothingToMe(y);
    }
  }

  lemma BalancedAfterTake(k: Books, o: nat, id: nat)
    requires Own(k.w.ob) && Balanced(k, id)
    ensures Balanced(Did(k, Takes(o)), id)
  {
    hide Take, Render, Fold, ToMe, Own, Queue, Out, Since;
    TakeTakesAll(k.w.ob, o, k.w.board);
    OwnAt(k.w.ob, o, id);
    ToMeConcat(k.sent, Out(k.w.ob, o), id);
    assert ToMe(k.sent, id) + [] == ToMe(k.sent, id);
  }

  /**
   Nothing is lost and nothing told twice: whatever calls, releases and takes there were, each event told to a claude
   is waiting, going out, in a message that was taken, or in a queue that was dropped because it said nothing.
  */
  lemma {:induction false} EveryEventIsBooked(k: Books, deeds: seq<Deed>, id: nat)
    requires Own(k.w.ob) && Balanced(k, id)
    ensures Own(DidAll(k, deeds).w.ob) && Balanced(DidAll(k, deeds), id)
    decreases |deeds|
  {
    hide Own, Balanced, Did;
    if |deeds| > 0 {
      match deeds[0] {
        case Does(call) =>
          BalancedAfterCall(k, call, id);
          OwnAfterDeed(k, call);
        case Releases(o, now) =>
          BalancedAfterRelease(k, o, now, id);
          OwnAfterQueue(k, deeds[0]);
        case Takes(o) =>
          BalancedAfterTake(k, o, id);
          OwnAfterQueue(k, deeds[0]);
      }
      EveryEventIsBooked(Did(k, deeds[0]), deeds[1..], id);
    }
  }

  lemma OwnAfterDeed(k: Books, call: Call)
    requires Own(k.w.ob)
    ensures Own(Did(k, Does(call)).w.ob)
  {
    hide Own, Step;
    OwnAfterCall(k.w, call);
  }

  lemma OwnAfterQueue(k: Books, d: Deed)
    requires Own(k.w.ob) && !d.Does?
    ensures Own(Did(k, d).w.ob)
  {
    hide Own, Release, Take;
    match d {
      case Releases(o, now) => OwnAfterRelease(k.w.ob, o, k.w.board, now);
      case Takes(o) => OwnAfterTake(k.w.ob, o, k.w.board);
    }
  }

  // ---------- What a claude's changes say ----------

  /** What a claude's call sends `id` about card `n`. */
  function Sent(b: BoardState, call: Call, id: nat, n: nat): seq<Event> {
    if call.ClaudeCall? then Mine(EventsOf(b, call), id, n) else []
  }

  /** Comments other claudes posted on card `n` while `id` held it. */
  function SaidBy(b: BoardState, call: Call, id: nat, n: nat): set<string> {
    if call.ClaudeCall? && call.action.CommentOn? && call.action.n == n && HeldBy(b.cards, n, id) && id != call.from
       && ApplyClaude(b, call.from, call.action, call.now, call.uuid).result.Success?
    then {call.uuid} else {}
  }

  function SaidWhileHeld(w: World, calls: seq<Call>, id: nat, n: nat): set<string>
    decreases |calls|
  {
    if |calls| == 0 then {} else SaidBy(w.board, calls[0], id, n) + SaidWhileHeld(Step(w, calls[0]), calls[1..], id, n)
  }

  /** Card `n` just before the first claude's call that told `id` of it. */
  function FirstSent(w: World, calls: seq<Call>, id: nat, n: nat): Option<Option<Snap>>
    decreases |calls|
  {
    if |calls| == 0 then None
    else if Sent(w.board, calls[0], id, n) != [] then Some(SnapAt(w.board.cards, n))
    else FirstSent(Step(w, calls[0]), calls[1..], id, n)
  }

  /** What is going out to `id` about card `n`. */
  function OutThread(ob: OutboxState, id: nat, n: nat): seq<Event> {
    About(Out(ob, id), n)
  }

  lemma CommentIdsOfOne(mine: seq<Event>, e: Event)
    requires |mine| == 1 && mine[0] == e
    ensures CommentIds(mine) == if e.change.Commented? then {e.change.id} else {}
  {
    assert mine == [e] && [e][..0] == [];
    assert CommentIds([]) == {};
  }

  /** A claude's accepted action tells `id` of a card as it was, and of a comment exactly when it posts one on a card of `id`. */
  lemma ActionSends(b: BoardState, call: Call, id: nat, n: nat)
    requires WellFormed(b) && call.ClaudeCall? && ApplyClaude(b, call.from, call.action, call.now, call.uuid).result.Success?
    ensures var mine := Sent(b, call, id, n);
            && CommentIds(mine) == SaidBy(b, call, id, n)
            && (mine != [] ==> mine[0].before == SnapAt(b.cards, n))
  {
    hide WellFormed, Numbered, ApplyClaude, Mine, Count, Becomes, OwedBy, SnapAt, Find, HeldBy;
    IsNumbered(b);
    var o := ApplyClaude(b, call.from, call.action, call.now, call.uuid);
    EveryActionTells(b, call.from, call.action, call.now, call.uuid);
    var mine := Mine(o.result.value, id, n);
    MineMembers(o.result.value, id, n);
    CommentOwed(b, call, o.board.cards, id, n);
    if |mine| == 0 {
      assert mine == [] && CommentIds([]) == {};
    } else {
      assert mine[0] in mine;
      var k :| 0 <= k < |o.result.value| && o.result.value[k] == mine[0];
      assert RightEvent(b, call.from, call.action, call.uuid, o.board.cards, o.result.value[k]);
      CommentIdsOfOne(mine, mine[0]);
    }
  }

  lemma CommentOwed(b: BoardState, call: Call, cards1: seq<Card>, id: nat, n: nat)
    requires WellFormed(b) && call.ClaudeCall? && ApplyClaude(b, call.from, call.action, call.now, call.uuid).result.Success?
    requires cards1 == ApplyClaude(b, call.from, call.action, call.now, call.uuid).board.cards
    ensures call.action.CommentOn? ==>
              (OwedBy(b, call.from, call.action, cards1, id, n) <==> id != call.from && call.action.n == n && HeldBy(b.cards, n, id))
  {
    hide WellFormed, Numbered, ApplyClaude, Find;
    IsNumbered(b);
    ClaudeDoes(b, call.from, call.action, call.now, call.uuid);
    if call.action.CommentOn? {
      assert BecomesAt(b, call.from, call.action, call.now, call.uuid, n, Find(cards1, n));
      FoundMember(b.cards, n);
    }
  }

  lemma CallSends(w: World, call: Call, id: nat, n: nat, base: Option<Option<Snap>>, said: set<string>)
    requires WellFormed(w.board) && (call.ClaudeCall? && call.action.CommentOn? ==> call.uuid != "")
    requires Holds(OutThread(w.ob, id, n), base, said)
    ensures WellFormed(Step(w, call).board)
    ensures Holds(OutThread(Step(w, call).ob, id, n),
                  if base.None? && Sent(w.board, call, id, n) != [] then Some(SnapAt(w.board.cards, n)) else base,
                  said + SaidBy(w.board, call, id, n))
  {
    hide WellFormed, Step, ApplyClaude, ApplyUser, Decide, Commit, Holds, SnapAt, HeldBy, ToMe, About, CommentIds, EventsOf;
    StepThread(w, call, id, n);
    CommitKeeps(w.board, call);
    StepQueues(w, call, id);
    var mine := Sent(w.board, call, id, n);
    if call.ClaudeCall? && ApplyClaude(w.board, call.from, call.action, call.now, call.uuid).result.Success? {
      ActionSends(w.board, call, id, n);
    } else {
      NothingSent(w.board, call, id, n);
    }
    AboutConcat(Out(w.ob, id), if call.UserCall? then [] else ToMe(EventsOf(w.board, call), id), n);
    NoneAbout(n);
    HoldsMore(OutThread(w.ob, id, n), base, said, mine, SnapAt(w.board.cards, n), SaidBy(w.board, call, id, n));
  }

  lemma NoneAbout(n: nat)
    ensures About([], n) == []
  {
  }

  lemma NothingSent(b: BoardState, call: Call, id: nat, n: nat)
    requires call.UserCall? || ApplyClaude(b, call.from, call.action, call.now, call.uuid).result.Failure?
    ensures Sent(b, call, id, n) == [] && SaidBy(b, call, id, n) == {} && CommentIds([]) == {}
  {
  }

  /** A comment's fresh id is never empty. */
  ghost predicate FreshClaudeIds(calls: seq<Call>) {
    forall i :: 0 <= i < |calls| ==> calls[i].ClaudeCall? && calls[i].action.CommentOn? ==> calls[i].uuid != ""
  }

  lemma {:induction false} RunSends(w: World, calls: seq<Call>, id: nat, n: nat, base: Option<Option<Snap>>, said: set<string>)
    requires WellFormed(w.board) && FreshClaudeIds(calls) && Holds(OutThread(w.ob, id, n), base, said)
    ensures Holds(OutThread(Run(w, calls).ob, id, n), if base.Some? then base else FirstSent(w, calls, id, n),
                  said + SaidWhileHeld(w, calls, id, n))
    decreases |calls|
  {
    hide WellFormed, Step, OutThread, Sent, Holds, SnapAt, SaidBy;
    if |calls| == 0 {
      assert said + {} == said;
    } else {
      CallSends(w, calls[0], id, n, base, said);
      var base1 := if base.None? && Sent(w.board, calls[0], id, n) != [] then Some(SnapAt(w.board.cards, n)) else base;
      var said1 := said + SaidBy(w.board, calls[0], id, n);
      RunSends(Step(w, calls[0]), calls[1..], id, n, base1, said1);
      assert said1 + SaidWhileHeld(Step(w, calls[0]), calls[1..], id, n) == said + SaidWhileHeld(w, calls, id, n);
    }
  }

  /** A queue as the only one that waits, to count what it holds. */
  function Alone(id: nat, q: seq<Event>): OutboxState {
    OutboxState(map[id := q], map[])
  }

  lemma AloneCounts(id: nat, q: seq<Event>, b: BoardState, n: nat, base: Option<Option<Snap>>, said: set<string>)
    requires Holds(About(q, n), base, said)
    ensures n in PendingIn(id, q, b) <==> base.Some? && Differs(b.cards, id, n, base.value, said)
  {
    hide Differs, Holds, PendingIn;
    var ob := Alone(id, q);
    assert Thread(ob, id, n) == About(q, n);
    HoldsCounts(ob, b, id, n, base, said);
    PendingOfOne(id, q, b, n);
  }

  lemma PendingOfOne(id: nat, q: seq<Event>, b: BoardState, n: nat)
    ensures IsPending(Alone(id, q), b, id, n) <==> n in PendingIn(id, q, b)
  {
    hide PendingIn;
  }

  /**
   After every run, with nothing going out to `id` at its start: taking gives exactly one entry for each card that a
   claude's call told `id` of and that differs from what it was before the first such call, ascending, and each entry
   says how it differs.
  */
  lemma SendingSaysTheDifference(w: World, calls: seq<Call>, id: nat)
    requires WellFormed(w.board) && FreshClaudeIds(calls) && Out(w.ob, id) == []
    ensures var w1 := Run(w, calls);
            var msg := Take(w1.ob, id, w1.board).1;
            var entries := if msg.Some? then msg.value.entries else [];
            && (msg.Some? ==> msg.value.to == id && entries != []) && Ascending(NumbersOf(entries))
            && (forall n: nat :: n in NumbersOf(entries) <==>
                  var base := FirstSent(w, calls, id, n);
                  base.Some? && Differs(w1.board.cards, id, n, base.value, SaidWhileHeld(w, calls, id, n)))
            && forall e :: e in entries ==>
                 var base := FirstSent(w, calls, id, e.n);
                 base.Some? && Says(e, base.value, Find(w1.board.cards, e.n), id, e.n, SaidWhileHeld(w, calls, id, e.n))
  {
    hide WellFormed, Run, Fold, Find, Differs, Says, FirstSent, SaidWhileHeld, Render, PendingIn, Holds;
    var w1 := Run(w, calls);
    var q := Out(w1.ob, id);
    TakeTakesAll(w1.ob, id, w1.board);
    MessageIsPending(id, q, w1.board);
    var msg := Take(w1.ob, id, w1.board).1;
    var entries := if msg.Some? then msg.value.entries else [];
    RenderedSome(id, q, w1.board);
    forall n: nat
      ensures Holds(About(q, n), FirstSent(w, calls, id, n), SaidWhileHeld(w, calls, id, n))
      ensures n in NumbersOf(entries) <==>
              FirstSent(w, calls, id, n).Some? && Differs(w1.board.cards, id, n, FirstSent(w, calls, id, n).value, SaidWhileHeld(w, calls, id, n))
    {
      FromNothing(w, calls, id, n);
      AloneCounts(id, q, w1.board, n, FirstSent(w, calls, id, n), SaidWhileHeld(w, calls, id, n));
    }
    forall e | e in entries
      ensures FirstSent(w, calls, id, e.n).Some?
              && Says(e, FirstSent(w, calls, id, e.n).value, Find(w1.board.cards, e.n), id, e.n, SaidWhileHeld(w, calls, id, e.n))
    {
      MessageSaysTheDifference(q, id, w1.board, e, FirstSent(w, calls, id, e.n), SaidWhileHeld(w, calls, id, e.n));
    }
  }

  lemma RenderedSome(id: nat, q: seq<Event>, b: BoardState)
    ensures Render(id, Fold(q), b).Some? ==> Render(id, Fold(q), b).value.entries != []
    ensures NumbersOf([]) == []
  {
    hide Fold;
  }

  lemma FromNothing(w: World, calls: seq<Call>, id: nat, n: nat)
    requires WellFormed(w.board) && FreshClaudeIds(calls) && Out(w.ob, id) == []
    ensures Holds(About(Out(Run(w, calls).ob, id), n), FirstSent(w, calls, id, n), SaidWhileHeld(w, calls, id, n))
  {
    hide WellFormed, Run, FirstSent, SaidWhileHeld, Holds;
    NoneAbout(n);
    NothingHeld();
    RunSends(w, calls, id, n, None, {});
    assert {} + SaidWhileHeld(w, calls, id, n) == SaidWhileHeld(w, calls, id, n);
  }

  lemma NothingHeld()
    ensures Holds([], None, {})
  {
  }
}
