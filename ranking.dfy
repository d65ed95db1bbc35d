/** The data the ranking engine works on: one cast vote, and the per-user,
    per-dataset ranking state of the binary insertion (the `Vote` and
    `UserState` records the route handlers read and write). */
module Ranking {
  import opened Common

  /** A cast comparison; `orderIndex` is its position in the user's log. */
  datatype Vote = Vote(orderIndex: nat, leftId: Id, rightId: Id, winnerId: Id)

  /** `ordered` holds the placed ids, index 0 the most important; `cursor` is
      the id being inserted; `[low, high]` is the inclusive search window. */
  datatype UserState = UserState(ordered: seq<Id>, cursor: Option<Id>, low: int, high: int)

  /** The record created on first contact (app/api/next-pair/route.ts:43-55)
      and written back by undo. */
  const InitialState: UserState := UserState([], None, 0, 0)

  predicate WinnerValid(v: Vote) {
    v.winnerId == v.leftId || v.winnerId == v.rightId
  }

  /** Vote `i` of the log carries `orderIndex == i`. */
  predicate Contiguous(log: seq<Vote>) {
    forall i :: 0 <= i < |log| ==> log[i].orderIndex == i
  }

  /** While an insertion is in progress the cursor is not placed yet and the
      window lies inside `ordered`; it is empty only when `ordered` is. */
  predicate WindowOk(s: UserState) {
    s.cursor.Some? ==>
      && s.cursor.value !in s.ordered
      && 0 <= s.low <= s.high + 1 <= |s.ordered|
      && (|s.ordered| > 0 ==> s.low <= s.high)
  }

  /** `remaining[Math.floor(Math.random() * remaining.length)]`, with the random
      draw supplied as `pick`: every index of `remaining` is some `pick`. */
  function PickFrom(remaining: seq<Id>, pick: nat): (r: Id)
    requires |remaining| > 0
    ensures r in remaining
    ensures pick < |remaining| ==> r == remaining[pick]
  {
    remaining[pick % |remaining|]
  }
}
