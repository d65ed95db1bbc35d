/** POST /api/vote (app/api/vote/route.ts): one step of binary insertion.
    The winner narrows the window around the cursor; once the window is
    empty the cursor is spliced into `ordered` at `low` and a new cursor is
    drawn (`pick` stands for `Math.random`). The record used at line 62 is
    the state fetched at line 38. Index 0 of `ordered` is the most
    important item. */
module VoteIngest {
  import opened Common
  import opened Ranking
  import opened Progress

  /** Line 72: the probed index (`0` while nothing is placed). */
  function Mid(st: UserState): (m: int)
    ensures |st.ordered| > 0 && st.low <= st.high ==> st.low <= m <= st.high
  {
    if |st.ordered| > 0 then (st.low + st.high) / 2 else 0
  }

  /** Lines 75-86: the window after the vote; the cursor winning means it is
      more important than the probe, so the search continues to the left. */
  function Narrow(st: UserState, winnerId: Id): (w: (int, int))
    requires st.cursor.Some?
    ensures winnerId == st.cursor.value ==> w == (st.low, Mid(st) - 1)
    ensures winnerId != st.cursor.value ==> w == (Mid(st) + 1, st.high)
  {
    if winnerId == st.cursor.value then (st.low, Mid(st) - 1) else (Mid(st) + 1, st.high)
  }

  /** Line 88: the vote ends this insertion. */
  predicate Inserts(st: UserState, winnerId: Id)
    requires st.cursor.Some?
  {
    Narrow(st, winnerId).0 > Narrow(st, winnerId).1
  }

  /** The state written at lines 113-122 (or left alone at lines 66-69). */
  function Ingest(st: UserState, winnerId: Id, allIds: seq<Id>, pick: nat): (r: UserState)
    ensures st.cursor.None? ==> r == st
    // lines 75-78, 113-122: the window is still open, only low/high move
    ensures st.cursor.Some? && !Inserts(st, winnerId) ==>
              r == st.(low := Narrow(st, winnerId).0, high := Narrow(st, winnerId).1)
    // lines 88-110: splice, next cursor from the unplaced ids, window reset
    ensures st.cursor.Some? && Inserts(st, winnerId) ==>
              && r.ordered == InsertAt(st.ordered, Narrow(st, winnerId).0, st.cursor.value)
              && (r.cursor.Some? ==> r.cursor.value in allIds && r.cursor.value !in r.ordered)
              && (r.cursor.None? ==> forall id :: id in allIds ==> id in r.ordered)
              && r.low == 0 && r.high == |r.ordered| - 1
    ensures WindowOk(st) ==> WindowOk(r)
  {
    if st.cursor.None? then st
    else
      var (newLow, newHigh) := Narrow(st, winnerId);
      if newLow > newHigh then
        var newOrdered := InsertAt(st.ordered, newLow, st.cursor.value);
        var remaining := Remaining(allIds, newOrdered);
        var newCursor := if |remaining| > 0 then Some(PickFrom(remaining, pick)) else None;
        UserState(newOrdered, newCursor, 0, |newOrdered| - 1)
      else
        st.(low := newLow, high := newHigh)
  }

  /** Lines 61-111 as the handler runs them: the record to write back. */
  method UpdateState(st: UserState, winnerId: Id, allIds: seq<Id>, pick: nat) returns (r: UserState)
    ensures r == Ingest(st, winnerId, allIds, pick)
  {
    var ordered := st.ordered;
    if st.cursor.None? {
      return st;
    }
    var cursorId := st.cursor.value;
    var mid := if |ordered| > 0 then (st.low + st.high) / 2 else 0;
    var newLow, newHigh := st.low, st.high;
    if winnerId == cursorId {
      newHigh := mid - 1;
    } else {
      newLow := mid + 1;
    }
    assert (newLow, newHigh) == Narrow(st, winnerId);
    if newLow > newHigh {
      var newOrdered := ordered[..ClampIndex(newLow, |ordered|)] + [cursorId] + ordered[ClampIndex(newLow, |ordered|)..];
      assert newOrdered == InsertAt(ordered, newLow, cursorId);
      var remaining := Remaining(allIds, newOrdered);
      var newCursorId := if |remaining| > 0 then Some(PickFrom(remaining, pick)) else None;
      return UserState(newOrdered, newCursorId, 0, |newOrdered| - 1);
    }
    return st.(low := newLow, high := newHigh);
  }

  datatype CastOutcome =
    | Recorded(log: seq<Vote>, state: UserState)
    | InvalidWinner   // 400, lines 22-24

  /** Lines 49-58: the vote is appended with `orderIndex` = the number of
      votes already cast. */
  function AppendVote(log: seq<Vote>, leftId: Id, rightId: Id, winnerId: Id): (r: seq<Vote>)
    ensures |r| == |log| + 1 && r[..|log|] == log
    ensures r[|log|] == Vote(|log|, leftId, rightId, winnerId)
    ensures Contiguous(log) ==> Contiguous(r)
  {
    log + [Vote(|log|, leftId, rightId, winnerId)]
  }

  /** The handler after authentication: validate the winner, record the vote,
      then advance the insertion. */
  function CastVote(log: seq<Vote>, st: UserState, leftId: Id, rightId: Id, winnerId: Id,
                    allIds: seq<Id>, pick: nat): (r: CastOutcome)
    ensures (winnerId != leftId && winnerId != rightId) <==> r == InvalidWinner
    ensures r.Recorded? ==>
              && r.log == AppendVote(log, leftId, rightId, winnerId)
              && WinnerValid(r.log[|log|])
              && r.state == Ingest(st, winnerId, allIds, pick)
  {
    if winnerId != leftId && winnerId != rightId then InvalidWinner
    else Recorded(AppendVote(log, leftId, rightId, winnerId), Ingest(st, winnerId, allIds, pick))
  }

  /** Lines 72-86 with a non-empty window inside `ordered`: exactly one bound
      moves, the window strictly shrinks and stays inside the old one. */
  lemma NarrowShrinks(st: UserState, winnerId: Id)
    requires st.cursor.Some? && 0 <= st.low <= st.high < |st.ordered|
    ensures var (nl, nh) := Narrow(st, winnerId);
            && (winnerId == st.cursor.value ==> nl == st.low && nh < st.high)
            && (winnerId != st.cursor.value ==> nh == st.high && nl > st.low)
            && st.low <= nl <= nh + 1 <= st.high + 1
            && nh - nl < st.high - st.low
  {
    assert st.low <= Mid(st) <= st.high;
  }

  /** Each vote at least halves the window, so inserting into a window of
      `w` slots takes at most `ceil(log2 (w + 1))` votes: the per-item term of
      `expectedComparisons`. */
  lemma NarrowHalvesBudget(st: UserState, winnerId: Id)
    requires st.cursor.Some? && 0 <= st.low <= st.high < |st.ordered|
    ensures var (nl, nh) := Narrow(st, winnerId);
            var w, w' := st.high - st.low + 1, nh - nl + 1;
            0 <= w' <= w / 2 && CeilLog2(w' + 1) + 1 <= CeilLog2(w + 1)
  {
    var (nl, nh) := Narrow(st, winnerId);
    var w, w' := st.high - st.low + 1, nh - nl + 1;
    assert st.low <= Mid(st) <= st.high;
    assert 0 <= w' <= w / 2;
    CeilLog2Halving(w);
    CeilLog2Monotone(w' + 1, w / 2 + 1);
  }

  /** The very first vote (empty `ordered`, window `[0, -1]` as written by
      app/api/next-pair/route.ts:91) places the cursor whichever side wins. */
  lemma FirstVotePlacesCursor(st: UserState, winnerId: Id, allIds: seq<Id>, pick: nat)
    requires st.cursor.Some? && st.ordered == [] && st.low == 0 && st.high == -1
    ensures Ingest(st, winnerId, allIds, pick).ordered == [st.cursor.value]
  {
  }

  /** Ingestion never duplicates an id: the cursor it splices in is unplaced. */
  lemma IngestKeepsDistinct(st: UserState, winnerId: Id, allIds: seq<Id>, pick: nat)
    requires WindowOk(st) && Distinct(st.ordered)
    ensures Distinct(Ingest(st, winnerId, allIds, pick).ordered)
  {
    if st.cursor.Some? && Inserts(st, winnerId) {
      InsertAtDistinct(st.ordered, Narrow(st, winnerId).0, st.cursor.value);
    }
  }

  /** A user's preference, as a rank: a smaller rank is more important. */
  ghost predicate Injective(rank: Id -> int) {
    forall a, b :: rank(a) == rank(b) ==> a == b
  }

  /** `ordered` lists the most important item first. */
  ghost predicate SortedByRank(o: seq<Id>, rank: Id -> int) {
    forall i, j :: 0 <= i < j < |o| ==> rank(o[i]) < rank(o[j])
  }

  /** The search invariant: the ids left of the window are more important
      than the cursor, the ids right of it less. */
  ghost predicate Bracketed(st: UserState, rank: Id -> int)
    requires st.cursor.Some?
  {
    forall i :: 0 <= i < |st.ordered| ==>
      (i < st.low ==> rank(st.ordered[i]) < rank(st.cursor.value)) &&
      (i > st.high ==> rank(st.ordered[i]) > rank(st.cursor.value))
  }

  /** The vote the user casts on the pair (cursor, `ordered[mid]`) follows
      the preference. */
  ghost predicate HonestVote(st: UserState, winnerId: Id, rank: Id -> int)
    requires st.cursor.Some?
  {
    0 <= Mid(st) < |st.ordered| ==>
      (winnerId == st.cursor.value <==> rank(st.cursor.value) < rank(st.ordered[Mid(st)]))
  }

  /** One honest vote keeps the search invariant on the narrowed window. */
  lemma NarrowKeepsBracket(st: UserState, winnerId: Id, rank: Id -> int)
    requires WindowOk(st) && st.cursor.Some? && Injective(rank)
    requires SortedByRank(st.ordered, rank) && Bracketed(st, rank) && HonestVote(st, winnerId, rank)
    ensures Bracketed(st.(low := Narrow(st, winnerId).0, high := Narrow(st, winnerId).1), rank)
  {
    var o, c := st.ordered, st.cursor.value;
    var (nl, nh) := Narrow(st, winnerId);
    if |o| > 0 {
      var m := Mid(st);
      assert st.low <= m <= st.high;
      assert o[m] != c;
      if winnerId == c {
        forall i | 0 <= i < |o| && i > nh ensures rank(o[i]) > rank(c) {
          if i <= st.high && i != m { assert rank(o[m]) < rank(o[i]); }
        }
      } else {
        assert rank(c) != rank(o[m]);
        forall i | 0 <= i < |o| && i < nl ensures rank(o[i]) < rank(c) {
          if i >= st.low && i != m { assert rank(o[i]) < rank(o[m]); }
        }
      }
    }
  }

  /** Splicing an id between the more and the less important ones keeps the
      order sorted. */
  lemma InsertKeepsSorted(o: seq<Id>, k: nat, c: Id, rank: Id -> int)
    requires k <= |o| && SortedByRank(o, rank)
    requires forall i :: 0 <= i < k ==> rank(o[i]) < rank(c)
    requires forall i :: k <= i < |o| ==> rank(o[i]) > rank(c)
    ensures SortedByRank(o[..k] + [c] + o[k..], rank)
  {
    var o' := o[..k] + [c] + o[k..];
    forall i, j | 0 <= i < j < |o'| ensures rank(o'[i]) < rank(o'[j]) {
      if j < k {
        assert o'[i] == o[i] && o'[j] == o[j];
      } else if j == k {
        assert o'[i] == o[i];
      } else if i == k {
        assert o'[j] == o[j - 1];
      } else if i < k {
        assert o'[i] == o[i] && o'[j] == o[j - 1];
      } else {
        assert o'[i] == o[i - 1] && o'[j] == o[j - 1];
      }
    }
  }

  /** Binary insertion is correct: under honest votes `ordered` stays sorted
      by importance, and the search invariant holds for whichever cursor is
      being inserted afterwards. */
  lemma IngestKeepsRanking(st: UserState, winnerId: Id, allIds: seq<Id>, pick: nat, rank: Id -> int)
    requires WindowOk(st) && st.cursor.Some? && Injective(rank)
    requires SortedByRank(st.ordered, rank) && Bracketed(st, rank) && HonestVote(st, winnerId, rank)
    ensures var r := Ingest(st, winnerId, allIds, pick);
            SortedByRank(r.ordered, rank) && (r.cursor.Some? ==> Bracketed(r, rank))
  {
    var o, c := st.ordered, st.cursor.value;
    var (nl, nh) := Narrow(st, winnerId);
    NarrowKeepsBracket(st, winnerId, rank);
    if nl > nh {
      var k := ClampIndex(nl, |o|);
      assert |o| > 0 ==> k == nl;
      InsertKeepsSorted(o, k, c, rank);
    }
  }
}
