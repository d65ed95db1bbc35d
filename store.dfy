/** One user's ranking of the active dataset as the route handlers keep it in
    the database: the vote log and the `UserState` record. Each method is one
    request handler after authentication and the dataset lookup, and leaves
    the store as the corresponding specification function says. `allIds` is
    the dataset's ids in ascending order and `catalog` the ids whose
    initiative records exist; both are fixed while the dataset is active. */
module Store {
  import opened Common
  import opened Ranking
  import opened Progress
  import opened NextPair
  import opened VoteIngest
  import opened Overwrite
  import opened Undo

  class RankingStore {
    const allIds: seq<Id>
    const catalog: set<Id>
    var votes: seq<Vote>
    var state: UserState

    /** What every handler keeps: the log is numbered `0..n-1` with a valid
        winner in each vote, the window is well formed, and a state without a
        cursor past the first item has placed every id. */
    ghost predicate Valid()
      reads this
    {
      && Contiguous(votes)
      && (forall i :: 0 <= i < |votes| ==> WinnerValid(votes[i]))
      && WindowOk(state)
      && (state.cursor.None? && |state.ordered| > 0 ==> forall id :: id in allIds ==> id in state.ordered)
    }

    /** The record app/api/next-pair/route.ts:43-55 creates on first contact,
        before any vote. */
    constructor(allIds: seq<Id>, catalog: set<Id>)
      ensures Valid()
      ensures this.allIds == allIds && this.catalog == catalog
      ensures votes == [] && state == InitialState
    {
      this.allIds := allIds;
      this.catalog := catalog;
      votes := [];
      state := InitialState;
    }

    /** GET /api/next-pair (app/api/next-pair/route.ts:67-119). */
    method NextPair(pick: nat) returns (r: PairResult)
      requires Valid()
      modifies this
      ensures Valid() && votes == old(votes)
      ensures (r, state) == SelectPair(old(state), allIds, catalog, |votes|, pick)
    {
      var votesCount := |votes|;
      var totalNeeded := ComputeExpectedComparisons(|allIds|);
      if votesCount >= totalNeeded {
        return NoPair(totalNeeded, totalNeeded);
      }
      var ordered := state.ordered;
      var safeLow, safeHigh := state.low, state.high;
      var cursorId: Id;
      if state.cursor.None? {
        var remaining := Remaining(allIds, ordered);
        if |remaining| == 0 {
          return NoPair(votesCount, totalNeeded);
        }
        cursorId := PickFrom(remaining, pick);
        state := state.(cursor := Some(cursorId), low := 0, high := |ordered| - 1);
      } else {
        cursorId := state.cursor.value;
      }
      var compareId: Id;
      if |ordered| == 0 {
        var other := FindOther(allIds, cursorId);
        compareId := if other.Some? then other.value else cursorId;
      } else {
        var mid := (safeLow + safeHigh) / 2;
        if !(0 <= mid < |ordered|) {
          return LookupError;
        }
        compareId := ordered[mid];
      }
      if cursorId !in catalog || compareId !in catalog {
        return Desync;
      }
      return Pair(votesCount, totalNeeded, cursorId, compareId);
    }

    /** POST /api/vote (app/api/vote/route.ts:22-122). */
    method CastVote(leftId: Id, rightId: Id, winnerId: Id, pick: nat) returns (accepted: bool)
      requires Valid()
      modifies this
      ensures Valid()
      ensures var out := VoteIngest.CastVote(old(votes), old(state), leftId, rightId, winnerId, allIds, pick);
              && (accepted <==> out.Recorded?)
              && (out.Recorded? ==> votes == out.log && state == out.state)
              && (!accepted ==> votes == old(votes) && state == old(state))
    {
      if winnerId != leftId && winnerId != rightId {
        return false;
      }
      votes := AppendVote(votes, leftId, rightId, winnerId);
      assert WinnerValid(votes[|votes| - 1]);
      state := UpdateState(state, winnerId, allIds, pick);
      return true;
    }

    /** POST /api/history/overwrite (app/api/history/overwrite/route.ts:34-89). */
    method Overwrite(orderIndex: int, newWinnerId: Id) returns (error: Option<OverwriteError>)
      requires Valid()
      modifies this
      ensures Valid()
      ensures var out := OverwriteVote(old(votes), orderIndex, newWinnerId, allIds);
              && (out.Rejected? ==> error == Some(out.error) && votes == old(votes) && state == old(state))
              && (out.Rewritten? ==> error.None? && votes == out.log && state == out.state)
    {
      var pos := FindVote(votes, orderIndex);
      if pos.None? {
        return Some(VoteNotFound);
      }
      var vote := votes[pos.value];
      if newWinnerId != vote.leftId && newWinnerId != vote.rightId {
        return Some(OverwriteError.InvalidWinner);
      }
      OverwriteKeepsLogShape(votes, orderIndex, newWinnerId, allIds);
      votes := votes[pos.value := vote.(winnerId := newWinnerId)];
      var ordered := RebuildOrdered(votes);
      var remainingIds := Remaining(allIds, ordered);
      var nextCursor := if |remainingIds| > 0 then Some(remainingIds[0]) else None;
      NextCursorIsFirstRemaining(allIds, ordered);
      state := UserState(ordered, nextCursor, 0, |ordered| - 1);
      return None;
    }

    /** POST /api/history/back (app/api/history/back/route.ts:14-40). */
    method Back() returns (undone: bool)
      requires Valid()
      modifies this
      ensures Valid()
      ensures var out := UndoLast(old(votes));
              && (undone <==> out.Undone?)
              && (out.Undone? ==> votes == out.log && state == out.state)
              && (!undone ==> votes == old(votes) && state == old(state))
    {
      var lastVote := LastVote(votes);
      if lastVote.None? {
        return false;
      }
      UndoOnContiguousLog(votes);
      votes := RemoveAt(votes, lastVote.value);
      state := InitialState;
      return true;
    }
  }
}
