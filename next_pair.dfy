/** GET /api/next-pair (app/api/next-pair/route.ts): the completion check, the
    cursor pick and the choice of the item the cursor is compared with. The
    database reads become parameters: `allIds` is the dataset's ids in
    ascending order, `catalog` the ids whose records exist, `votesCount` the
    length of the user's vote log and `pick` the random draw. */
module NextPair {
  import opened Common
  import opened Ranking
  import opened Progress

  datatype PairResult =
    | Pair(done: nat, total: nat, left: Id, right: Id)  // 200 with a pair
    | NoPair(done: nat, total: nat)                     // 200 with `pair: null`
    | Desync                                            // 409: a record of the pair is missing
    | LookupError                                       // `ordered[mid]` is undefined: the lookup throws

  /** The state after lines 83-93: without a cursor, one is drawn from the
      unplaced ids and the window is reset to the whole of `ordered`. */
  function WithCursor(st: UserState, allIds: seq<Id>, pick: nat): (r: UserState)
    requires st.cursor.Some? || |Remaining(allIds, st.ordered)| > 0
    ensures r.ordered == st.ordered && r.cursor.Some?
    ensures st.cursor.Some? ==> r == st
    ensures st.cursor.None? ==>
              && r.cursor.value in allIds && r.cursor.value !in st.ordered
              && r.low == 0 && r.high == |st.ordered| - 1
  {
    if st.cursor.Some? then st
    else st.(cursor := Some(PickFrom(Remaining(allIds, st.ordered), pick)),
             low := 0, high := |st.ordered| - 1)
  }

  /** Lines 95-102: the id the cursor is compared with, or None when
      `ordered[mid]` is out of range. `mid` is computed from the window of
      the state as it was read (lines 79-80), even when a cursor was just
      drawn. */
  function Opponent(st: UserState, cursor: Id, allIds: seq<Id>): (r: Option<Id>)
    ensures |st.ordered| == 0 ==> r.Some?
    ensures |st.ordered| == 0 && (exists i :: 0 <= i < |allIds| && allIds[i] != cursor) ==>
              r == FindOther(allIds, cursor) && r.value != cursor
    ensures |st.ordered| > 0 && 0 <= st.low <= st.high < |st.ordered| ==>
              r == Some(st.ordered[(st.low + st.high) / 2])
    ensures |st.ordered| > 0 && r.Some? ==> r.value in st.ordered
    ensures |st.ordered| > 0 ==> (r.None? <==> !(0 <= (st.low + st.high) / 2 < |st.ordered|))
  {
    if |st.ordered| == 0 then
      var other := FindOther(allIds, cursor);
      Some(if other.Some? then other.value else cursor)
    else
      var mid := (st.low + st.high) / 2;
      if 0 <= mid < |st.ordered| then Some(st.ordered[mid]) else None
  }

  /** The whole handler after authentication: the response and the state
      written back. */
  function SelectPair(st: UserState, allIds: seq<Id>, catalog: set<Id>, votesCount: nat, pick: nat)
    : (out: (PairResult, UserState))
    // lines 71-74: enough votes cast
    ensures votesCount >= ExpectedComparisons(|allIds|) ==>
              out == (NoPair(ExpectedComparisons(|allIds|), ExpectedComparisons(|allIds|)), st)
    ensures out.0.NoPair? ==> out.1 == st
    // lines 88-92: the state written when a cursor is drawn
    ensures !out.0.NoPair? ==>
              && out.1.ordered == st.ordered && out.1.cursor.Some?
              && (st.cursor.Some? ==> out.1 == st)
              && (st.cursor.None? ==>
                    out.1.cursor.value in allIds && out.1.cursor.value !in st.ordered &&
                    out.1.low == 0 && out.1.high == |st.ordered| - 1)
    // lines 110-119: a pair is the cursor and its opponent, both on record
    ensures out.0.Pair? ==>
              && out.0.done == votesCount < out.0.total == ExpectedComparisons(|allIds|)
              && out.0.left == out.1.cursor.value
              && Some(out.0.right) == Opponent(st, out.1.cursor.value, allIds)
              && out.0.left in catalog && out.0.right in catalog
              && (|st.ordered| > 0 ==> out.0.right in st.ordered)
    // lines 76-119: below the threshold, with a cursor or an id left to
    // place, the answer is a pair unless `ordered[mid]` is undefined or a
    // record is missing
    ensures votesCount < ExpectedComparisons(|allIds|) &&
            (st.cursor.Some? || |Remaining(allIds, st.ordered)| > 0) ==>
              && !out.0.NoPair? && out.1.cursor.Some?
              && var opp := Opponent(st, out.1.cursor.value, allIds);
              && (out.0.LookupError? <==> opp.None?)
              && (opp.Some? && out.1.cursor.value in catalog && opp.value in catalog ==> out.0.Pair?)
    // lines 110-113: a missing record is reported rather than paired
    ensures out.0.Desync? ==>
              var opp := Opponent(st, out.1.cursor.value, allIds);
              opp.Some? && (out.1.cursor.value !in catalog || opp.value !in catalog)
  {
    var total := ExpectedComparisons(|allIds|);
    if votesCount >= total then (NoPair(total, total), st)
    else if st.cursor.None? && |Remaining(allIds, st.ordered)| == 0 then
      (NoPair(votesCount, total), st)
    else
      var st' := WithCursor(st, allIds, pick);
      var cursor := st'.cursor.value;
      var opp := Opponent(st, cursor, allIds);
      if opp.None? then (LookupError, st')
      else if cursor !in catalog || opp.value !in catalog then (Desync, st')
      else (Pair(votesCount, total, cursor, opp.value), st')
  }

  /** Lines 83-87: with no cursor and every id placed, the answer is `pair: null`
      with the votes cast so far as progress. */
  lemma NothingLeftToPlace(st: UserState, allIds: seq<Id>, catalog: set<Id>, votesCount: nat, pick: nat)
    requires votesCount < ExpectedComparisons(|allIds|) && st.cursor.None?
    requires forall id :: id in allIds ==> id in st.ordered
    ensures SelectPair(st, allIds, catalog, votesCount, pick) ==
            (NoPair(votesCount, ExpectedComparisons(|allIds|)), st)
  {
    var rem := Remaining(allIds, st.ordered);
    if |rem| > 0 {
      assert rem[0] in rem;
    }
  }

  /** A pair never compares an item with itself: with `ordered` empty the
      opponent is the first other id (lines 97-98), otherwise it is placed
      and the cursor is not. */
  lemma PairComparesDistinctItems(st: UserState, allIds: seq<Id>, catalog: set<Id>, votesCount: nat, pick: nat)
    requires Distinct(allIds) && WindowOk(st)
    ensures var r := SelectPair(st, allIds, catalog, votesCount, pick).0;
            r.Pair? ==> r.left != r.right
  {
    var out := SelectPair(st, allIds, catalog, votesCount, pick);
    if out.0.Pair? {
      ExpectedComparisonsPositive(|allIds|);
      var c := out.1.cursor.value;
      if |st.ordered| == 0 {
        assert allIds[0] != allIds[1];
        var i := if allIds[0] != c then 0 else 1;
        assert allIds[i] != c;
      }
    }
  }

  /** With a well-formed window, and no placed ids left over without a cursor,
      `ordered[mid]` is always defined (lines 99-102). */
  lemma OpponentDefined(st: UserState, allIds: seq<Id>, catalog: set<Id>, votesCount: nat, pick: nat)
    requires WindowOk(st)
    requires st.cursor.None? && |st.ordered| > 0 ==> Remaining(allIds, st.ordered) == []
    ensures !SelectPair(st, allIds, catalog, votesCount, pick).0.LookupError?
  {
    if st.cursor.Some? && |st.ordered| > 0 {
      assert st.low <= (st.low + st.high) / 2 <= st.high;
    }
  }
}
