/** The words of a message, in their order: what a queue folds to by kind, the comments as they read now, the parts. */
module OutboxWords {
  import opened Wrappers
  import opened BoardState
  import opened OutboxState
  import opened NetDifference

  // ---------- What a queue folds to ----------

  ghost predicate Any(thread: seq<Event>, change: Change) {
    exists k :: 0 <= k < |thread| && thread[k].change == change
  }

  /** The last event that hands the card over, to the claude or away from it. */
  function LastHand(thread: seq<Event>): Option<Change> {
    if |thread| == 0 then None
    else
      var c := thread[|thread| - 1].change;
      if c.AssignedToYou? || c.Unassigned? then Some(c) else LastHand(thread[..|thread| - 1])
  }

  function LastPick(thread: seq<Event>): Option<Option<string>> {
    if |thread| == 0 then None
    else
      var c := thread[|thread| - 1].change;
      if c.Chose? then Some(c.choice) else LastPick(thread[..|thread| - 1])
  }

  /** Whether the first event of the archive put the card there. */
  function FirstArchive(thread: seq<Event>): Option<bool> {
    if |thread| == 0 then None
    else
      var before, c := FirstArchive(thread[..|thread| - 1]), thread[|thread| - 1].change;
      if before.Some? || !c.Archived? then before else Some(c.on)
  }

  /** Which kinds of change happened. */
  ghost predicate KindsAre(thread: seq<Event>, f: Folded) {
    && (f.added <==> Any(thread, Added)) && (f.moved <==> Any(thread, Moved))
    && (f.edited <==> Any(thread, Edited)) && (f.deleted <==> Any(thread, Deleted))
  }

  /** The last to hand the card over says whose it is, the last pick what was chosen, the first archiving what it was before. */
  ghost predicate LastsAre(thread: seq<Event>, f: Folded) {
    && (f.given <==> LastHand(thread) == Some(AssignedToYou))
    && f.unassigned == (if LastHand(thread).Some? && LastHand(thread).value.Unassigned? then Some(LastHand(thread).value.to) else None)
    && f.chose == LastPick(thread)
    && f.wasArchived == (if FirstArchive(thread).Some? then Some(!FirstArchive(thread).value) else None)
  }

  lemma AnyMore(thread: seq<Event>, e: Event, change: Change)
    ensures Any(thread + [e], change) <==> Any(thread, change) || e.change == change
  {
    var all := thread + [e];
    if Any(thread, change) {
      var k :| 0 <= k < |thread| && thread[k].change == change;
      assert all[k].change == change;
    }
    assert all[|thread|] == e;
  }

  lemma AbsorbsKinds(f: Folded, e: Event)
    ensures Absorb(f, e).added == (f.added || e.change == Added) && Absorb(f, e).moved == (f.moved || e.change == Moved)
    ensures Absorb(f, e).edited == (f.edited || e.change == Edited) && Absorb(f, e).deleted == (f.deleted || e.change == Deleted)
  {
  }

  lemma KindsMore(thread: seq<Event>, f: Folded, e: Event)
    requires KindsAre(thread, f)
    ensures KindsAre(thread + [e], Absorb(f, e))
  {
    hide Any, Absorb;
    AbsorbsKinds(f, e);
    AnyMore(thread, e, Added);
    AnyMore(thread, e, Moved);
    AnyMore(thread, e, Edited);
    AnyMore(thread, e, Deleted);
  }

  lemma LastsOf(thread: seq<Event>, e: Event)
    ensures LastHand(thread + [e]) == if e.change.AssignedToYou? || e.change.Unassigned? then Some(e.change) else LastHand(thread)
    ensures LastPick(thread + [e]) == if e.change.Chose? then Some(e.change.choice) else LastPick(thread)
    ensures FirstArchive(thread + [e]) ==
            if FirstArchive(thread).Some? || !e.change.Archived? then FirstArchive(thread) else Some(e.change.on)
  {
    assert (thread + [e])[..|thread|] == thread;
  }

  lemma AbsorbsHand(f: Folded, e: Event)
    ensures Absorb(f, e).given == if e.change.AssignedToYou? then true else if e.change.Unassigned? then false else f.given
    ensures Absorb(f, e).unassigned ==
            if e.change.AssignedToYou? then None else if e.change.Unassigned? then Some(e.change.to) else f.unassigned
  {
  }

  lemma AbsorbsPick(f: Folded, e: Event)
    ensures Absorb(f, e).chose == if e.change.Chose? then Some(e.change.choice) else f.chose
  {
  }

  lemma AbsorbsArchive(f: Folded, e: Event)
    ensures Absorb(f, e).wasArchived == if f.wasArchived.Some? || !e.change.Archived? then f.wasArchived else Some(!e.change.on)
  {
  }

  lemma LastsMore(thread: seq<Event>, f: Folded, e: Event)
    requires LastsAre(thread, f)
    ensures LastsAre(thread + [e], Absorb(f, e))
  {
    hide Absorb, LastHand, LastPick, FirstArchive;
    LastsOf(thread, e);
    AbsorbsHand(f, e);
    AbsorbsPick(f, e);
    AbsorbsArchive(f, e);
  }

  /** Folding keeps of each card which kinds of change happened and how the last, or first, of them left it. */
  lemma {:induction false} FoldWords(events: seq<Event>, n: nat)
    ensures KindsAre(About(events, n), FoldOf(Fold(events), n)) && LastsAre(About(events, n), FoldOf(Fold(events), n))
  {
    hide KindsAre, LastsAre, Absorb;
    if |events| == 0 {
      NothingYet();
    } else {
      var init, e := events[..|events| - 1], events[|events| - 1];
      FoldWords(init, n);
      if e.n == n {
        KindsMore(About(init, n), FoldOf(Fold(init), n), e);
        LastsMore(About(init, n), FoldOf(Fold(init), n), e);
      } else {
        assert About(events, n) == About(init, n);
      }
    }
  }

  lemma NothingYet()
    ensures KindsAre([], NOTHING_YET) && LastsAre([], NOTHING_YET)
  {
  }

  // ---------- The comments ----------

  /** What of a posted comment is told now: as posted if it has no id, as it reads now if it stands, else nothing. */
  function ReadsNow(p: Posted, card: Option<Card>): Option<Posted> {
    if p.id == "" then Some(p)
    else if card.None? || CommentById(card.value.comments, p.id).None? then None
    else
      var c := CommentById(card.value.comments, p.id).value;
      Some(Posted(p.actor, p.id, c.text, c.images))
  }

  /** How many of the first `i` posted comments are told. */
  function ToldBefore(posted: seq<Posted>, card: Option<Card>, i: nat): nat
    requires i <= |posted|
  {
    if i == 0 then 0 else ToldBefore(posted, card, i - 1) + if ReadsNow(posted[i - 1], card).Some? then 1 else 0
  }

  lemma {:induction false} ToldTail(posted: seq<Posted>, card: Option<Card>, i: nat)
    requires 0 < i <= |posted|
    ensures ToldBefore(posted, card, i) == (if ReadsNow(posted[0], card).Some? then 1 else 0) + ToldBefore(posted[1..], card, i - 1)
  {
    if i > 1 {
      ToldTail(posted, card, i - 1);
      assert posted[1..][i - 2] == posted[i - 1];
    }
  }

  /** The comments told are the posted ones in their order, each by who posted it, as it reads now; deleted ones are left out. */
  lemma {:induction false} CommentsInOrder(posted: seq<Posted>, card: Option<Card>)
    ensures var live := LiveComments(posted, card);
            && |live| == ToldBefore(posted, card, |posted|)
            && forall i :: 0 <= i < |posted| && ReadsNow(posted[i], card).Some? ==>
                 ToldBefore(posted, card, i) < |live| && live[ToldBefore(posted, card, i)] == ReadsNow(posted[i], card).value
  {
    hide ReadsNow;
    if |posted| > 0 {
      var rest := posted[1..];
      var first := if ReadsNow(posted[0], card).Some? then [ReadsNow(posted[0], card).value] else [];
      CommentsInOrder(rest, card);
      FirstComment(posted, card);
      ToldTail(posted, card, |posted|);
      forall i | 0 <= i < |posted| && ReadsNow(posted[i], card).Some?
        ensures ToldBefore(posted, card, i) < |LiveComments(posted, card)|
        ensures LiveComments(posted, card)[ToldBefore(posted, card, i)] == ReadsNow(posted[i], card).value
      {
        if i > 0 {
          ToldTail(posted, card, i);
          assert rest[i - 1] == posted[i];
        }
      }
    }
  }

  lemma FirstComment(posted: seq<Posted>, card: Option<Card>)
    requires |posted| > 0
    ensures LiveComments(posted, card) ==
            (if ReadsNow(posted[0], card).Some? then [ReadsNow(posted[0], card).value] else []) + LiveComments(posted[1..], card)
  {
  }

  /** The comments of a queue are those its events tell of, in their order. */
  lemma {:induction false} PostedInOrder(ev: seq<Event>)
    ensures |PostedIn(ev)| == PostsBefore(ev, |ev|)
    ensures forall i :: 0 <= i < |ev| && ev[i].change.Commented? ==>
              PostsBefore(ev, i) < |PostedIn(ev)|
              && PostedIn(ev)[PostsBefore(ev, i)] == Posted(ev[i].actor, ev[i].change.id, ev[i].change.text, ev[i].change.images)
  {
    if |ev| > 0 {
      var init := ev[..|ev| - 1];
      PostedInOrder(init);
      forall i: nat | i <= |init| ensures PostsBefore(ev, i) == PostsBefore(init, i) {
        PostsIn(ev, init, i);
      }
      assert forall i :: 0 <= i < |init| ==> init[i] == ev[i];
    }
  }

  function PostsBefore(ev: seq<Event>, i: nat): nat
    requires i <= |ev|
  {
    if i == 0 then 0 else PostsBefore(ev, i - 1) + if ev[i - 1].change.Commented? then 1 else 0
  }

  lemma {:induction false} PostsIn(ev: seq<Event>, init: seq<Event>, i: nat)
    requires init <= ev && i <= |init|
    ensures PostsBefore(ev, i) == PostsBefore(init, i)
  {
    if i > 0 {
      PostsIn(ev, init, i - 1);
    }
  }

  // ---------- The parts ----------

  /** What it is to the claude, where it is, the archive, the text, the pick. */
  function Rank(p: Part): nat {
    match p
    case NewForYou => 0
    case NowYours => 0
    case NowIn(_) => 1
    case ArchivedNow(_) => 2
    case TextEdited => 3
    case Picked(_) => 4
  }

  /** The parts come in that order, each kind once. */
  lemma PartsInOrder(x: Net, card: Card)
    ensures forall i, j :: 0 <= i < j < |PartsOf(x, card)| ==> Rank(PartsOf(x, card)[i]) < Rank(PartsOf(x, card)[j])
  {
  }
}
