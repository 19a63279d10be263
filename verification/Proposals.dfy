/** Column proposals: simulated when made, applied when approved, with any amount of card work in between. */
module Proposals {
  import opened Wrappers
  import opened BoardState
  import opened BoardCards
  import opened BoardTelling
  import opened BoardInvariant

  // ---------- Column structure ----------

  function Ids(columns: seq<Column>): (r: seq<nat>)
    ensures |r| == |columns| && forall i :: 0 <= i < |columns| ==> r[i] == columns[i].id
  {
    seq(|columns|, i requires 0 <= i < |columns| => columns[i].id)
  }

  /** The columns' ids in order, and the counter of the next one: what a proposal depends on. */
  datatype Shape = Shape(ids: seq<nat>, nextCol: nat)

  function ShapeOf(b: BoardState): Shape {
    Shape(Ids(b.columns), b.nextCol)
  }

  function IdPos(ids: seq<nat>, id: nat): (r: Option<nat>)
    ensures r.Some? ==> r.value < |ids| && ids[r.value] == id
    ensures r.None? ==> id !in ids
  {
    if |ids| == 0 then None
    else if ids[0] == id then Some(0)
    else match IdPos(ids[1..], id)
         case Some(i) => Some(i + 1)
         case None => None
  }

  function Except(ids: seq<nat>, id: nat): seq<nat> {
    if |ids| == 0 then [] else (if ids[0] == id then [] else [ids[0]]) + Except(ids[1..], id)
  }

  /** A column edit on the structure alone; `None` when it is refused. */
  function Reshape(s: Shape, e: BoardEdit): Option<Shape> {
    match e
    case ColAdd(name, _) =>
      if name == "" || |s.ids| >= MAX_COLUMNS then None else Some(Shape(s.ids + [s.nextCol + 1], s.nextCol + 1))
    case ColEdit(col, _, _) => if col in s.ids then Some(s) else None
    case ColMove(col, before) => (
      match IdPos(s.ids, col)
      case None => None
      case Some(i) =>
        var rest := RemoveAt(s.ids, i);
        var at := if before.Some? then IdPos(rest, before.value) else None;
        Some(s.(ids := InsertAt(rest, if at.Some? then at.value else |rest|, col))))
    case ColDelete(col, dest) =>
      if |s.ids| <= 1 || col !in s.ids || (dest.Some? && (dest.value == col || dest.value !in s.ids)) then None
      else Some(s.(ids := Except(s.ids, col)))
    case _ => None
  }

  lemma IdPosIsColPos(columns: seq<Column>, id: nat)
    ensures IdPos(Ids(columns), id) == ColPos(columns, id)
    ensures HasCol(columns, id) <==> id in Ids(columns)
  {
    if |columns| != 0 {
      assert Ids(columns)[1..] == Ids(columns[1..]);
      IdPosIsColPos(columns[1..], id);
    }
  }

  lemma ExceptIsWithout(columns: seq<Column>, id: nat)
    ensures Except(Ids(columns), id) == Ids(WithoutCol(columns, id))
  {
    if |columns| != 0 {
      assert Ids(columns)[1..] == Ids(columns[1..]);
      ExceptIsWithout(columns[1..], id);
    }
  }

  /** A column edit is refused, and changes the structure, by the structure alone: cards and names play no part. */
  lemma EditReshapes(b: BoardState, e: BoardEdit, now: nat)
    requires EditsColumns(e)
    ensures ApplyUser(b, e, now, "").result.Success? <==> Reshape(ShapeOf(b), e).Some?
    ensures ApplyUser(b, e, now, "").result.Success? ==>
              ShapeOf(ApplyUser(b, e, now, "").board) == Reshape(ShapeOf(b), e).value
  {
    match e {
      case ColAdd(_, _) => AddReshapes(b, e);
      case ColEdit(_, _, _) => RenameReshapes(b, e);
      case ColMove(_, _) => MoveReshapes(b, e);
      case ColDelete(_, _) => DeleteReshapes(b, e, now);
    }
  }

  lemma AddReshapes(b: BoardState, e: BoardEdit)
    requires e.ColAdd?
    ensures UserColAdd(b, e).result.Success? <==> Reshape(ShapeOf(b), e).Some?
    ensures UserColAdd(b, e).result.Success? ==> ShapeOf(UserColAdd(b, e).board) == Reshape(ShapeOf(b), e).value
  {
  }

  lemma RenameReshapes(b: BoardState, e: BoardEdit)
    requires e.ColEdit?
    ensures UserColEdit(b, e).result.Success? <==> Reshape(ShapeOf(b), e).Some?
    ensures UserColEdit(b, e).result.Success? ==> ShapeOf(UserColEdit(b, e).board) == Reshape(ShapeOf(b), e).value
  {
    IdPosIsColPos(b.columns, e.col);
    if UserColEdit(b, e).result.Success? {
      assert Ids(UserColEdit(b, e).board.columns) == Ids(b.columns);
    }
  }

  lemma IdsWithoutAt(columns: seq<Column>, i: nat)
    requires i < |columns|
    ensures Ids(RemoveAt(columns, i)) == RemoveAt(Ids(columns), i)
  {
  }

  lemma IdsWithAt(columns: seq<Column>, k: nat, c: Column)
    requires k <= |columns|
    ensures Ids(InsertAt(columns, k, c)) == InsertAt(Ids(columns), k, c.id)
  {
  }

  lemma MoveReshapes(b: BoardState, e: BoardEdit)
    requires e.ColMove?
    ensures UserColMove(b, e).result.Success? <==> Reshape(ShapeOf(b), e).Some?
    ensures UserColMove(b, e).result.Success? ==> ShapeOf(UserColMove(b, e).board) == Reshape(ShapeOf(b), e).value
  {
    hide ColPos, IdPos, RemoveAt, InsertAt, Ids, Normalize, Stamp;
    IdPosIsColPos(b.columns, e.col);
    var i := ColPos(b.columns, e.col);
    if i.Some? {
      var rest := RemoveAt(b.columns, i.value);
      IdsWithoutAt(b.columns, i.value);
      if e.before.Some? {
        IdPosIsColPos(rest, e.before.value);
      }
      var at := if e.before.Some? then ColPos(rest, e.before.value) else None;
      IdsWithAt(rest, if at.Some? then at.value else |rest|, b.columns[i.value]);
    }
  }

  lemma DeleteReshapes(b: BoardState, e: BoardEdit, now: nat)
    requires e.ColDelete?
    ensures UserColDelete(b, e, now).result.Success? <==> Reshape(ShapeOf(b), e).Some?
    ensures UserColDelete(b, e, now).result.Success? ==> ShapeOf(UserColDelete(b, e, now).board) == Reshape(ShapeOf(b), e).value
  {
    IdPosIsColPos(b.columns, e.col);
    if e.dest.Some? {
      IdPosIsColPos(b.columns, e.dest.value);
    }
    ExceptIsWithout(b.columns, e.col);
  }

  // ---------- Changes on boards of one structure ----------

  /** Two outcomes of a change agree: both refused, or both done with one structure and the same new columns. */
  ghost predicate SameOutcome(r: Applied, r1: Applied) {
    && r.result.Success? == r1.result.Success?
    && (r.result.Success? ==> ShapeOf(r.board) == ShapeOf(r1.board) && r.news == r1.news)
  }

  lemma ResolvesSame(b: BoardState, b1: BoardState, news: News, r: ColRef)
    requires ShapeOf(b) == ShapeOf(b1)
    ensures Resolve(b.columns, news, r) == Resolve(b1.columns, news, r)
  {
    if r.Id? {
      IdPosIsColPos(b.columns, r.id);
      IdPosIsColPos(b1.columns, r.id);
    }
  }

  lemma ResolvesSameOpt(b: BoardState, b1: BoardState, news: News, r: Option<ColRef>)
    requires ShapeOf(b) == ShapeOf(b1)
    ensures ResolveOpt(b.columns, news, r) == ResolveOpt(b1.columns, news, r)
  {
    if r.Some? {
      ResolvesSame(b, b1, news, r.value);
    }
  }

  lemma ByEditSame(b: BoardState, b1: BoardState, news: News, e: BoardEdit, now: nat, now1: nat)
    requires ShapeOf(b) == ShapeOf(b1) && EditsColumns(e)
    ensures SameOutcome(ByEdit(b, news, e, now), ByEdit(b1, news, e, now1))
  {
    EditReshapes(b, e, now);
    EditReshapes(b1, e, now1);
  }

  lemma ChangeSame(b: BoardState, b1: BoardState, ch: ColChange, news: News, now: nat, now1: nat)
    requires ShapeOf(b) == ShapeOf(b1)
    ensures SameOutcome(ApplyChange(b, ch, news, now), ApplyChange(b1, ch, news, now1))
  {
    match ch {
      case AddCol(_, _, _) => AddColSame(b, b1, ch, news, now, now1);
      case EditCol(col, name, desc) =>
        ResolvesSame(b, b1, news, col);
        var i := Resolve(b.columns, news, col);
        if i.Success? {
          ByEditSame(b, b1, news, ColEdit(i.value, name, desc), now, now1);
        }
      case MoveCol(col, before) =>
        ResolvesSame(b, b1, news, col);
        ResolvesSameOpt(b, b1, news, before);
        var i, at := Resolve(b.columns, news, col), ResolveOpt(b.columns, news, before);
        if i.Success? && at.Success? {
          ByEditSame(b, b1, news, ColMove(i.value, at.value), now, now1);
        }
      case DeleteCol(col, to) =>
        ResolvesSame(b, b1, news, col);
        ResolvesSameOpt(b, b1, news, to);
        var i, t := Resolve(b.columns, news, col), ResolveOpt(b.columns, news, to);
        if i.Success? && t.Success? {
          ByEditSame(b, b1, news, ColDelete(i.value, t.value), now, now1);
        }
    }
  }

  lemma AddColSame(b: BoardState, b1: BoardState, ch: ColChange, news: News, now: nat, now1: nat)
    requires ShapeOf(b) == ShapeOf(b1) && ch.AddCol?
    ensures SameOutcome(ApplyChange(b, ch, news, now), ApplyChange(b1, ch, news, now1))
  {
    ResolvesSameOpt(b, b1, news, ch.before);
    var at := ResolveOpt(b.columns, news, ch.before);
    if at.Success? {
      ByEditSame(b, b1, news, ColAdd(ch.name, ch.desc), now, now1);
      var added, added1 := ByEdit(b, news, ColAdd(ch.name, ch.desc), now), ByEdit(b1, news, ColAdd(ch.name, ch.desc), now1);
      if added.result.Success? && at.value.Some? {
        var col := added.board.nextCol;
        ByEditSame(added.board, added1.board, news + [(ch.name, col)], ColMove(col, at.value), now, now1);
      }
    }
  }

  lemma {:induction false} ChangesSame(b: BoardState, b1: BoardState, changes: seq<ColChange>, news: News, now: nat, now1: nat)
    requires ShapeOf(b) == ShapeOf(b1)
    ensures SameOutcome(ApplyChanges(b, changes, news, now), ApplyChanges(b1, changes, news, now1))
    decreases |changes|
  {
    if |changes| != 0 {
      ChangeSame(b, b1, changes[0], news, now, now1);
      var one, one1 := ApplyChange(b, changes[0], news, now), ApplyChange(b1, changes[0], news, now1);
      if one.result.Success? {
        ChangesSame(one.board, one1.board, changes[1..], one.news, now, now1);
      }
    }
  }

  /** The copy a proposal was checked on is what applying its changes to the board gives. */
  lemma {:induction false} SimulationApplies(b: BoardState, reqs: seq<ChangeRequest>, news: News, now: nat)
    requires Simulate(b, reqs, news, now).result.Success?
    ensures var sim := Simulate(b, reqs, news, now);
            var r := ApplyChanges(b, sim.result.value, news, now);
            r.result.Success? && r.board == sim.board && r.news == sim.news
    decreases |reqs|
  {
    if |reqs| != 0 {
      var ch := Read(b, news, reqs[0]).value;
      var one := ApplyChange(b, ch, news, now);
      var rest := Simulate(one.board, reqs[1..], one.news, now);
      SimulationApplies(one.board, reqs[1..], one.news, now);
      assert ([ch] + rest.result.value)[1..] == rest.result.value;
    }
  }

  // ---------- The proposal waits unchanged ----------

  function ProposalAt(b: BoardState, id: nat): Option<Proposal> {
    match PropPos(b.proposals, id)
    case Some(i) => Some(b.proposals[i])
    case None => None
  }

  lemma PropMember(ps: seq<Proposal>, p: Proposal, nextProp: nat)
    requires ProposalsOk(ps, nextProp) && p in ps
    ensures PropPos(ps, p.id).Some? && ps[PropPos(ps, p.id).value] == p
  {
    var i :| 0 <= i < |ps| && ps[i] == p;
    var j := PropPos(ps, p.id).value;
    assert i == j;
  }

  /** A call leaves a waiting proposal as it is, or decides it. */
  lemma CallKeepsProposal(b: BoardState, id: nat, call: Call)
    requires WellFormed(b) && id <= b.nextProp
    ensures ProposalAt(Commit(b, call), id) == ProposalAt(b, id) || ProposalAt(Commit(b, call), id).None?
  {
    var b1 := Commit(b, call);
    CommitKeeps(b, call);
    CallKeepsMembers(b, call);
    if PropPos(b1.proposals, id).Some? {
      var p := b1.proposals[PropPos(b1.proposals, id).value];
      assert p in b1.proposals;
      PropMember(b.proposals, p, b.nextProp);
    }
  }

  lemma CallKeepsMembers(b: BoardState, call: Call)
    requires WellFormed(b)
    ensures forall p :: p in Commit(b, call).proposals ==> p in b.proposals || p.id > b.nextProp
  {
    match call {
      case UserCall(e, now, uuid) =>
        if e.Approve? || e.Reject? {
          if Decide(b, e.proposal, e.Approve?, now).result.Success? {
            var i := PropPos(b.proposals, e.proposal).value;
            var r := RemoveAt(b.proposals, i);
            assert forall k :: 0 <= k < |r| ==> r[k] == if k < i then b.proposals[k] else b.proposals[k + 1];
            if e.Approve? {
              WithoutProposal(b, i);
              ChangesKeep(b.(proposals := r), b.proposals[i].changes, [], now);
            }
          }
        } else if ApplyUser(b, e, now, uuid).result.Success? {
          UserKeepsColumns(b, e, now, uuid);
        }
      case ClaudeCall(from, a, now, uuid) =>
        if ApplyClaude(b, from, a, now, uuid).result.Success? && !a.ProposeColumns? {
          var _ := ClaudeCards(b, from, a, now, uuid);
        }
    }
  }

  lemma {:induction false} RunKeepsProposal(b: BoardState, id: nat, calls: seq<Call>)
    requires WellFormed(b) && id <= b.nextProp
    ensures ProposalAt(CommitAll(b, calls), id) == ProposalAt(b, id) || ProposalAt(CommitAll(b, calls), id).None?
    decreases |calls|
  {
    if |calls| != 0 {
      var b1 := Commit(b, calls[0]);
      CommitKeeps(b, calls[0]);
      CallKeepsProposal(b, id, calls[0]);
      RunKeepsProposal(b1, id, calls[1..]);
    }
  }

  /**
   A proposal commutes with everything but the column structure. Whatever calls came after it was made, while it
   still waits and the columns' ids, their order and the counter are as they were, approving it succeeds
   and gives the structure it was simulated to give.
  */
  lemma ApprovalAsSimulated(b: BoardState, from: nat, reqs: seq<ChangeRequest>, why: string, now: nat, calls: seq<Call>, later: nat)
    requires WellFormed(b) && Propose(b, from, reqs, why, now).result.Success?
    requires var id := Propose(b, from, reqs, why, now).result.value;
             var b1 := CommitAll(Propose(b, from, reqs, why, now).board, calls);
             ProposalAt(b1, id).Some? && ShapeOf(b1) == ShapeOf(b)
    ensures var id := Propose(b, from, reqs, why, now).result.value;
            var b1 := CommitAll(Propose(b, from, reqs, why, now).board, calls);
            var o := Decide(b1, id, true, later);
            && o.result.Success? && o.result.value.proposer == from
            && ShapeOf(o.board) == ShapeOf(Simulate(b, reqs, [], now).board)
  {
    var o := Propose(b, from, reqs, why, now);
    var id, b0 := o.result.value, o.board;
    ProposingKeeps(b, from, reqs, why, now);
    RunKeepsProposal(b0, id, calls);
    var b1 := CommitAll(b0, calls);
    var sim := Simulate(b, reqs, [], now);
    var p := ProposalAt(b1, id).value;
    assert p == ProposalAt(b0, id).value;
    var without := b1.(proposals := RemoveAt(b1.proposals, PropPos(b1.proposals, id).value));
    SimulationApplies(b, reqs, [], now);
    ChangesSame(b, without, sim.result.value, [], now, later);
  }

  lemma ProposingKeeps(b: BoardState, from: nat, reqs: seq<ChangeRequest>, why: string, now: nat)
    requires WellFormed(b) && Propose(b, from, reqs, why, now).result.Success?
    ensures var o := Propose(b, from, reqs, why, now);
            && WellFormed(o.board) && o.result.value == o.board.nextProp
            && ProposalAt(o.board, o.result.value) ==
               Some(Proposal(o.result.value, from, why, Simulate(b, reqs, [], now).result.value, now))
  {
    var o := Propose(b, from, reqs, why, now);
    SimulateReads(b, reqs, [], now);
    var p := o.board.proposals[|b.proposals|];
    assert p in o.board.proposals;
    PropMember(o.board.proposals, p, o.board.nextProp);
  }

  /** Proposing moves nothing; a rejection or a refused approval leaves the columns and cards as they are. */
  lemma NothingMovesUntilApproved(b: BoardState, from: nat, reqs: seq<ChangeRequest>, why: string, id: nat, now: nat, uuid: string)
    requires WellFormed(b)
    ensures var b1 := Commit(b, ClaudeCall(from, ProposeColumns(reqs, why), now, uuid));
            b1.columns == b.columns && b1.cards == b.cards && b1.nextCol == b.nextCol
    ensures var b1 := Commit(b, UserCall(Reject(id), now, uuid));
            b1.columns == b.columns && b1.cards == b.cards && b1.nextCol == b.nextCol
    ensures Decide(b, id, true, now).result.Failure? ==> Commit(b, UserCall(Approve(id), now, uuid)) == b
  {
    PinnedFirstStays(b.cards);
  }
}
