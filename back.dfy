/** POST /api/history/back (app/api/history/back/route.ts): delete the vote
    with the highest `orderIndex` and reset the ranking state to the empty
    record. The remaining votes are not replayed (lines 26-27 and 42 of the
    route): the next pair starts the sort over. */
module Undo {
  import opened Common
  import opened Ranking

  datatype UndoOutcome =
    | Undone(log: seq<Vote>, state: UserState)
    | NoVoteToUndo   // 400, lines 19-21

  /** Lines 14-17: the position of the vote with the largest `orderIndex`. */
  function LastVote(log: seq<Vote>): (r: Option<nat>)
    ensures r.None? <==> log == []
    ensures r.Some? ==> r.value < |log|
    ensures r.Some? ==> forall i :: 0 <= i < |log| ==> log[i].orderIndex <= log[r.value].orderIndex
  {
    if log == [] then None
    else
      var p := LastVote(log[..|log| - 1]);
      if p.None? || log[|log| - 1].orderIndex >= log[p.value].orderIndex then Some(|log| - 1)
      else p
  }

  /** Line 24: delete one vote; every other vote is kept, in order. */
  function RemoveAt(log: seq<Vote>, p: nat): (r: seq<Vote>)
    requires p < |log|
    ensures |r| == |log| - 1
    ensures forall i :: 0 <= i < p ==> r[i] == log[i]
    ensures forall i :: p <= i < |r| ==> r[i] == log[i + 1]
  {
    log[..p] + log[p + 1..]
  }

  /** The handler after authentication. */
  function UndoLast(log: seq<Vote>): (r: UndoOutcome)
    ensures log == [] <==> r == NoVoteToUndo
    // lines 29-40: the state is reset whatever votes remain
    ensures r.Undone? ==> r.state == InitialState && r.log == RemoveAt(log, LastVote(log).value)
  {
    var p := LastVote(log);
    if p.None? then NoVoteToUndo else Undone(RemoveAt(log, p.value), InitialState)
  }

  /** On a contiguous log `0..k-1` the vote removed is the last one, and the
      rest is contiguous `0..k-2`, so the next vote reuses `orderIndex` `k-1`
      (app/api/vote/route.ts:56). */
  lemma UndoOnContiguousLog(log: seq<Vote>)
    requires Contiguous(log) && log != []
    ensures UndoLast(log) == Undone(log[..|log| - 1], InitialState)
    ensures Contiguous(log[..|log| - 1])
  {
    var p := LastVote(log).value;
    assert log[p].orderIndex >= log[|log| - 1].orderIndex;
    assert p == |log| - 1;
  }

  /** Undoing the last vote and casting it again restores the log exactly
      (the state, reset by the undo, is not restored). */
  lemma UndoThenRecastRestoresLog(log: seq<Vote>)
    requires Contiguous(log) && log != []
    ensures var v := log[|log| - 1];
            var rest := UndoLast(log).log;
            rest + [Vote(|rest|, v.leftId, v.rightId, v.winnerId)] == log
  {
    UndoOnContiguousLog(log);
    var v := log[|log| - 1];
    assert v == Vote(|log| - 1, v.leftId, v.rightId, v.winnerId);
  }
}
