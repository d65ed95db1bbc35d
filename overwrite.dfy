/** POST /api/history/overwrite (app/api/history/overwrite/route.ts): change
    the winner of one past vote, then rebuild `ordered` by replaying the whole
    log from empty. As written, the replay inserts exactly one id per vote,
    each through a full binary search driven by that single vote's outcome;
    the next cursor is the first unplaced id in ascending order. `log` is the
    user's votes in `orderIndex` order. */
module Overwrite {
  import opened Common
  import opened Ranking

  datatype OverwriteError = VoteNotFound | InvalidWinner

  datatype OverwriteOutcome =
    | Rewritten(log: seq<Vote>, state: UserState)
    | Rejected(error: OverwriteError)

  /** Lines 34-38: the position of the vote with this `orderIndex`. */
  function FindVote(log: seq<Vote>, orderIndex: int): (r: Option<nat>)
    ensures r.Some? ==> r.value < |log| && log[r.value].orderIndex == orderIndex
    ensures r.None? ==> forall i :: 0 <= i < |log| ==> log[i].orderIndex != orderIndex
  {
    if log == [] then None
    else if log[0].orderIndex == orderIndex then Some(0)
    else
      var r := FindVote(log[1..], orderIndex);
      if r.Some? then Some(r.value + 1) else None
  }

  /** Line 48: only the targeted vote's winner changes. */
  function SetWinner(log: seq<Vote>, pos: nat, newWinnerId: Id): (r: seq<Vote>)
    requires pos < |log|
    ensures |r| == |log|
    ensures r[pos] == Vote(log[pos].orderIndex, log[pos].leftId, log[pos].rightId, newWinnerId)
    ensures forall i :: 0 <= i < |log| && i != pos ==> r[i] == log[i]
  {
    log[pos := log[pos].(winnerId := newWinnerId)]
  }

  /** Line 57: the id this vote inserts. */
  function Current(ordered: seq<Id>, v: Vote): (c: Id)
    ensures c == v.leftId || c == v.rightId
    ensures c in ordered ==> v.leftId in ordered && v.rightId in ordered
  {
    if v.leftId in ordered then v.rightId else v.leftId
  }

  /** Lines 57-68: one vote of the replay. The binary search of lines 58-67
      sees the same outcome at every probe, so it ends at the front when the
      inserted id won and at the back otherwise. */
  function ReplayStep(ordered: seq<Id>, v: Vote): (r: seq<Id>)
    ensures v.winnerId == Current(ordered, v) ==> r == [Current(ordered, v)] + ordered
    ensures v.winnerId != Current(ordered, v) ==> r == ordered + [Current(ordered, v)]
  {
    var c := Current(ordered, v);
    var low := if v.winnerId == c then 0 else |ordered|;
    assert ordered[..0] == [] && ordered[|ordered|..] == [];
    assert ordered[0..] == ordered && ordered[..|ordered|] == ordered;
    InsertAt(ordered, low, c)
  }

  /** Lines 55-69: the left fold over the log. Each vote adds one id, taken
      from its own left or right side. */
  function ReplayFrom(ordered: seq<Id>, votes: seq<Vote>): (r: seq<Id>)
    ensures |r| == |ordered| + |votes|
    decreases |votes|
  {
    if votes == [] then ordered
    else
      var next := ReplayStep(ordered, votes[0]);
      var r := ReplayFrom(next, votes[1..]);
      r
  }

  /** The ids a log mentions: both sides of every vote, in log order. */
  function Sides(votes: seq<Vote>): (r: seq<Id>)
    ensures |r| == 2 * |votes|
  {
    if votes == [] then [] else [votes[0].leftId, votes[0].rightId] + Sides(votes[1..])
  }

  /** Every id the replay places comes from the starting order or from one of
      the votes' two sides. */
  lemma {:induction false} ReplayDrawsFromVotes(ordered: seq<Id>, votes: seq<Vote>, x: Id)
    requires x in ReplayFrom(ordered, votes)
    ensures x in ordered || x in Sides(votes)
    decreases |votes|
  {
    if votes != [] {
      var v := votes[0];
      var next := ReplayStep(ordered, v);
      ReplayDrawsFromVotes(next, votes[1..], x);
      var c := Current(ordered, v);
      assert x in next ==> x in ordered || x == c;
    }
  }

  /** Line 55: the replay starts from nothing, so it places one id per vote,
      each from one of the votes' sides. */
  function Replay(votes: seq<Vote>): (r: seq<Id>)
    ensures |r| == |votes|
    ensures forall i :: 0 <= i < |r| ==> r[i] in Sides(votes)
  {
    var r := ReplayFrom([], votes);
    assert forall i :: 0 <= i < |r| ==> r[i] in Sides(votes) by {
      forall i | 0 <= i < |r| {
        ReplayDrawsFromVotes([], votes, r[i]);
      }
    }
    r
  }

  /** The fold splits at any point of the log. */
  lemma {:induction false} ReplayFromAppend(ordered: seq<Id>, a: seq<Vote>, b: seq<Vote>)
    ensures ReplayFrom(ordered, a + b) == ReplayFrom(ReplayFrom(ordered, a), b)
    decreases |a|
  {
    if a != [] {
      assert (a + b)[1..] == a[1..] + b;
      ReplayFromAppend(ReplayStep(ordered, a[0]), a[1..], b);
    } else {
      assert a + b == b;
    }
  }

  /** After replay, `|ordered|` is the number of votes (lines 55-69). */
  lemma ReplayLength(votes: seq<Vote>)
    ensures |Replay(votes)| == |votes|
  {
  }

  /** Lines 58-67: the binary search for the insertion point over `n` placed
      ids, every probe answered alike: `insertedWins` says whether the id
      being inserted won the vote. */
  method InsertionPoint(n: nat, insertedWins: bool) returns (low: nat)
    ensures low == if insertedWins then 0 else n
  {
    low := 0;
    var high: int := n - 1;
    while low <= high
      invariant insertedWins ==> low == 0 && -1 <= high
      invariant !insertedWins ==> high == n - 1 && 0 <= low <= n
      decreases high - low
    {
      var mid := (low + high) / 2;
      if insertedWins {
        high := mid - 1;
      } else {
        low := mid + 1;
      }
    }
  }

  /** Lines 55-69 as the route runs them: an outer loop over the votes, each
      inserting one id at the point `InsertionPoint` finds. */
  method RebuildOrdered(votes: seq<Vote>) returns (ordered: seq<Id>)
    ensures ordered == Replay(votes)
  {
    ordered := [];
    for k := 0 to |votes|
      invariant ReplayFrom(ordered, votes[k..]) == Replay(votes)
    {
      var v := votes[k];
      var currentId := if v.leftId in ordered then v.rightId else v.leftId;
      var low := InsertionPoint(|ordered|, v.winnerId == currentId);
      assert votes[k..][1..] == votes[k + 1..];
      ordered := ordered[..low] + [currentId] + ordered[low..];
    }
  }

  /** Lines 72-78: the first unplaced id in ascending order, if any. */
  function NextCursor(allIds: seq<Id>, ordered: seq<Id>): (r: Option<Id>)
    ensures r.Some? ==> r.value in allIds && r.value !in ordered
    ensures r.Some? ==> exists k :: 0 <= k < |allIds| && allIds[k] == r.value &&
                                    forall j :: 0 <= j < k ==> allIds[j] in ordered
    ensures r.None? ==> forall id :: id in allIds ==> id in ordered
  {
    if allIds == [] then None
    else if allIds[0] !in ordered then Some(allIds[0])
    else
      var r := NextCursor(allIds[1..], ordered);
      assert forall i :: 1 <= i < |allIds| ==> allIds[i] == allIds[1..][i - 1];
      if r.Some? then
        var k :| 0 <= k < |allIds[1..]| && allIds[1..][k] == r.value &&
                 forall j :: 0 <= j < k ==> allIds[1..][j] in ordered;
        assert allIds[k + 1] == r.value;
        r
      else r
  }

  /** Lines 77-78 pick the head of the unplaced ids, which is what
      `NextCursor` finds. */
  lemma {:induction false} NextCursorIsFirstRemaining(allIds: seq<Id>, ordered: seq<Id>)
    ensures var rem := Remaining(allIds, ordered);
            NextCursor(allIds, ordered) == if |rem| > 0 then Some(rem[0]) else None
  {
    if allIds != [] && allIds[0] in ordered {
      NextCursorIsFirstRemaining(allIds[1..], ordered);
    }
  }

  /** The state written at lines 80-89. */
  function ReplayedState(log: seq<Vote>, allIds: seq<Id>): (st: UserState)
    ensures st.ordered == Replay(log) && st.low == 0 && st.high == |log| - 1
    ensures st.cursor == NextCursor(allIds, st.ordered)
    ensures WindowOk(st)
  {
    var ordered := Replay(log);
    UserState(ordered, NextCursor(allIds, ordered), 0, |ordered| - 1)
  }

  /** The handler after authentication. */
  function OverwriteVote(log: seq<Vote>, orderIndex: int, newWinnerId: Id, allIds: seq<Id>)
    : (r: OverwriteOutcome)
    ensures FindVote(log, orderIndex).None? ==> r == Rejected(VoteNotFound)
    ensures FindVote(log, orderIndex).Some? ==>
              var v := log[FindVote(log, orderIndex).value];
              (newWinnerId != v.leftId && newWinnerId != v.rightId <==> r == Rejected(InvalidWinner))
    ensures FindVote(log, orderIndex).Some? ==>
              var v := log[FindVote(log, orderIndex).value];
              (newWinnerId == v.leftId || newWinnerId == v.rightId ==> r.Rewritten?)
    ensures r.Rewritten? ==>
              && FindVote(log, orderIndex).Some?
              && r.log == SetWinner(log, FindVote(log, orderIndex).value, newWinnerId)
              && r.state == ReplayedState(r.log, allIds)
  {
    var pos := FindVote(log, orderIndex);
    if pos.None? then Rejected(VoteNotFound)
    else
      var v := log[pos.value];
      if newWinnerId != v.leftId && newWinnerId != v.rightId then Rejected(InvalidWinner)
      else
        var log' := SetWinner(log, pos.value, newWinnerId);
        Rewritten(log', ReplayedState(log', allIds))
  }

  /** Correcting a vote to the winner it already has leaves the log as it was,
      so the rebuilt state is the one replaying the unchanged log gives. */
  lemma OverwriteSameWinner(log: seq<Vote>, orderIndex: int, allIds: seq<Id>)
    requires FindVote(log, orderIndex).Some? && WinnerValid(log[FindVote(log, orderIndex).value])
    ensures var v := log[FindVote(log, orderIndex).value];
            OverwriteVote(log, orderIndex, v.winnerId, allIds) == Rewritten(log, ReplayedState(log, allIds))
  {
    var pos := FindVote(log, orderIndex).value;
    assert SetWinner(log, pos, log[pos].winnerId) == log;
  }

  /** Overwriting keeps the log contiguous and every winner one of its two
      sides. */
  lemma OverwriteKeepsLogShape(log: seq<Vote>, orderIndex: int, newWinnerId: Id, allIds: seq<Id>)
    requires Contiguous(log) && forall i :: 0 <= i < |log| ==> WinnerValid(log[i])
    ensures var r := OverwriteVote(log, orderIndex, newWinnerId, allIds);
            r.Rewritten? ==> Contiguous(r.log) && forall i :: 0 <= i < |r.log| ==> WinnerValid(r.log[i])
  {
  }
}
