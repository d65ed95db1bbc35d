/** Whole sessions of the live protocol: the client asks for a pair
    (GET /api/next-pair) and answers it (POST /api/vote), round after round.
    Against these runs the module relates the vote log to the ranking: the
    replay of app/api/history/overwrite/route.ts as written does not rebuild
    the live ranking, and a replay that re-runs the live insertion step
    does. */
module Live {
  import opened Common
  import opened Ranking
  import opened Progress
  import opened NextPair
  import opened VoteIngest
  import opened Overwrite

  /** One round of the client: the draw used if next-pair needs a cursor,
      which side the user prefers, and the draw used if the vote completes
      an insertion. */
  datatype Round = Round(drawPick: nat, leftWins: bool, votePick: nat)

  /** The state and log after the rounds; a round that gets no pair casts no
      vote. */
  function Session(st: UserState, log: seq<Vote>, rounds: seq<Round>, allIds: seq<Id>, catalog: set<Id>)
    : (r: (UserState, seq<Vote>))
    ensures |log| <= |r.1|
    decreases |rounds|
  {
    if rounds == [] then (st, log)
    else
      var (res, st1) := SelectPair(st, allIds, catalog, |log|, rounds[0].drawPick);
      if !res.Pair? then Session(st1, log, rounds[1..], allIds, catalog)
      else
        var winnerId := if rounds[0].leftWins then res.left else res.right;
        var log' := AppendVote(log, res.left, res.right, winnerId);
        var st' := Ingest(st1, winnerId, allIds, rounds[0].votePick);
        Session(st', log', rounds[1..], allIds, catalog)
  }

  /** The corrected replay step: the live insertion step of
      app/api/vote/route.ts:72-94 driven by the logged vote. A vote cast with
      no insertion in progress starts one for its left id, which is the
      cursor next-pair had drawn; an insertion that completes leaves the
      next cursor to the next vote. */
  function ReplayLiveStep(st: UserState, v: Vote): (r: UserState)
    ensures r.cursor.None? ==>
              var c := if st.cursor.Some? then st.cursor.value else v.leftId;
              exists k :: r.ordered == InsertAt(st.ordered, k, c)
    ensures r.cursor.Some? ==> r.ordered == st.ordered
  {
    var st1 := if st.cursor.None? then st.(cursor := Some(v.leftId), low := 0, high := |st.ordered| - 1) else st;
    var (newLow, newHigh) := Narrow(st1, v.winnerId);
    if newLow > newHigh then UserState(InsertAt(st1.ordered, newLow, st1.cursor.value), None, 0, |st1.ordered|)
    else st1.(low := newLow, high := newHigh)
  }

  /** The corrected replay of a whole log, last vote outermost. */
  function ReplayLiveOf(log: seq<Vote>): UserState
    decreases |log|
  {
    if log == [] then InitialState
    else ReplayLiveStep(ReplayLiveOf(log[..|log| - 1]), log[|log| - 1])
  }

  /** The replayed state `r` stands for the live state `s`: same ranking;
      the same insertion in progress, or, when the replay has none pending,
      the live state is at the very start of its next one. */
  predicate Agrees(r: UserState, s: UserState) {
    && r.ordered == s.ordered
    && (r.cursor.Some? ==> r == s)
    && (r.cursor.None? && s.cursor.Some? ==>
          s.cursor.value !in s.ordered && s.low == 0 && s.high == |s.ordered| - 1)
  }

  /** Drawing a cursor in next-pair keeps the agreement. */
  lemma SelectPairAgrees(r: UserState, st: UserState, allIds: seq<Id>, catalog: set<Id>, votesCount: nat, pick: nat)
    requires Agrees(r, st)
    ensures Agrees(r, SelectPair(st, allIds, catalog, votesCount, pick).1)
  {
  }

  /** A vote on the pair next-pair offered keeps the agreement. */
  lemma VoteAgrees(r: UserState, st: UserState, leftId: Id, winnerId: Id, allIds: seq<Id>, pick: nat, orderIndex: nat, rightId: Id)
    requires Agrees(r, st) && st.cursor == Some(leftId)
    ensures Agrees(ReplayLiveStep(r, Vote(orderIndex, leftId, rightId, winnerId)), Ingest(st, winnerId, allIds, pick))
  {
    var v := Vote(orderIndex, leftId, rightId, winnerId);
    var r1 := if r.cursor.None? then r.(cursor := Some(v.leftId), low := 0, high := |r.ordered| - 1) else r;
    assert r1 == st;
  }

  /** Over any run of rounds, the corrected replay of the log agrees with the
      live state. */
  lemma {:induction false} SessionAgrees(st: UserState, log: seq<Vote>, rounds: seq<Round>, allIds: seq<Id>, catalog: set<Id>)
    requires Agrees(ReplayLiveOf(log), st)
    ensures var (st', log') := Session(st, log, rounds, allIds, catalog);
            Agrees(ReplayLiveOf(log'), st')
    decreases |rounds|
  {
    if rounds != [] {
      var (res, st1) := SelectPair(st, allIds, catalog, |log|, rounds[0].drawPick);
      SelectPairAgrees(ReplayLiveOf(log), st, allIds, catalog, |log|, rounds[0].drawPick);
      if !res.Pair? {
        SessionAgrees(st1, log, rounds[1..], allIds, catalog);
      } else {
        var winnerId := if rounds[0].leftWins then res.left else res.right;
        var log' := AppendVote(log, res.left, res.right, winnerId);
        var st' := Ingest(st1, winnerId, allIds, rounds[0].votePick);
        assert log'[..|log'| - 1] == log;
        VoteAgrees(ReplayLiveOf(log), st1, res.left, winnerId, allIds, rounds[0].votePick, |log|, res.right);
        SessionAgrees(st', log', rounds[1..], allIds, catalog);
      }
    }
  }

  /** The corrected replay rebuilds the ranking of every live session. */
  lemma ReplayLiveRebuildsRanking(rounds: seq<Round>, allIds: seq<Id>, catalog: set<Id>)
    ensures var (st, log) := Session(InitialState, [], rounds, allIds, catalog);
            ReplayLiveOf(log).ordered == st.ordered
  {
    SessionAgrees(InitialState, [], rounds, allIds, catalog);
  }

  /** The state the corrected overwrite writes: the replayed ranking, and
      when no insertion is pending the first unplaced id as the cursor, as at
      app/api/history/overwrite/route.ts:77-89. */
  function ReplayedLiveState(log: seq<Vote>, allIds: seq<Id>): (st: UserState)
    ensures st.ordered == ReplayLiveOf(log).ordered
    ensures ReplayLiveOf(log).cursor.Some? ==> st == ReplayLiveOf(log)
    ensures ReplayLiveOf(log).cursor.None? ==>
              st.cursor == NextCursor(allIds, st.ordered) && st.low == 0 && st.high == |st.ordered| - 1
  {
    var r := ReplayLiveOf(log);
    if r.cursor.Some? then r
    else UserState(r.ordered, NextCursor(allIds, r.ordered), 0, |r.ordered| - 1)
  }

  /** The corrected overwrite: the same validation and log update, then the
      corrected replay. */
  function OverwriteVoteLive(log: seq<Vote>, orderIndex: int, newWinnerId: Id, allIds: seq<Id>)
    : (r: OverwriteOutcome)
    ensures OverwriteVote(log, orderIndex, newWinnerId, allIds).Rejected? ==>
              r == OverwriteVote(log, orderIndex, newWinnerId, allIds)
    ensures OverwriteVote(log, orderIndex, newWinnerId, allIds).Rewritten? ==> r.Rewritten?
    ensures r.Rewritten? ==>
              && r.log == OverwriteVote(log, orderIndex, newWinnerId, allIds).log
              && r.state == ReplayedLiveState(r.log, allIds)
  {
    match OverwriteVote(log, orderIndex, newWinnerId, allIds)
    case Rejected(e) => Rejected(e)
    case Rewritten(log', _) => Rewritten(log', ReplayedLiveState(log', allIds))
  }

  /** With the corrected replay, re-confirming any vote of a live session
      leaves the ranking as the session built it. */
  lemma OverwriteLiveSameWinnerKeepsRanking(rounds: seq<Round>, allIds: seq<Id>, catalog: set<Id>, i: nat)
    requires var log := Session(InitialState, [], rounds, allIds, catalog).1;
             i < |log|
    ensures var (st, log) := Session(InitialState, [], rounds, allIds, catalog);
            var out := OverwriteVoteLive(log, i, log[i].winnerId, allIds);
            out.Rewritten? && out.log == log && out.state.ordered == st.ordered
  {
    var (st, log) := Session(InitialState, [], rounds, allIds, catalog);
    SessionKeepsLogShape(InitialState, [], rounds, allIds, catalog);
    FindVoteOnContiguous(log, 0, i);
    OverwriteSameWinner(log, i, allIds);
    ReplayLiveRebuildsRanking(rounds, allIds, catalog);
  }

  lemma {:induction false} FindVoteOnContiguous(log: seq<Vote>, base: nat, k: nat)
    requires k < |log| && forall j :: 0 <= j < |log| ==> log[j].orderIndex == base + j
    ensures FindVote(log, base + k) == Some(k)
    decreases k
  {
    if k > 0 {
      FindVoteOnContiguous(log[1..], base + 1, k - 1);
    }
  }

  /** A session keeps the log numbered `0..n-1`, each winner one of its two
      sides. */
  lemma {:induction false} SessionKeepsLogShape(st: UserState, log: seq<Vote>, rounds: seq<Round>, allIds: seq<Id>, catalog: set<Id>)
    requires Contiguous(log) && forall j :: 0 <= j < |log| ==> WinnerValid(log[j])
    ensures var log' := Session(st, log, rounds, allIds, catalog).1;
            Contiguous(log') && forall j :: 0 <= j < |log'| ==> WinnerValid(log'[j])
    decreases |rounds|
  {
    if rounds != [] {
      var (res, st1) := SelectPair(st, allIds, catalog, |log|, rounds[0].drawPick);
      if !res.Pair? {
        SessionKeepsLogShape(st1, log, rounds[1..], allIds, catalog);
      } else {
        var winnerId := if rounds[0].leftWins then res.left else res.right;
        var log' := AppendVote(log, res.left, res.right, winnerId);
        var st' := Ingest(st1, winnerId, allIds, rounds[0].votePick);
        assert WinnerValid(log'[|log|]);
        SessionKeepsLogShape(st', log', rounds[1..], allIds, catalog);
      }
    }
  }

  /** A live session never places an id twice. */
  lemma {:induction false} SessionKeepsDistinct(st: UserState, log: seq<Vote>, rounds: seq<Round>, allIds: seq<Id>, catalog: set<Id>)
    requires WindowOk(st) && Distinct(st.ordered)
    ensures Distinct(Session(st, log, rounds, allIds, catalog).0.ordered)
    decreases |rounds|
  {
    if rounds != [] {
      var (res, st1) := SelectPair(st, allIds, catalog, |log|, rounds[0].drawPick);
      assert WindowOk(st1);
      if !res.Pair? {
        SessionKeepsDistinct(st1, log, rounds[1..], allIds, catalog);
      } else {
        var winnerId := if rounds[0].leftWins then res.left else res.right;
        var log' := AppendVote(log, res.left, res.right, winnerId);
        var st' := Ingest(st1, winnerId, allIds, rounds[0].votePick);
        IngestKeepsDistinct(st1, winnerId, allIds, rounds[0].votePick);
        SessionKeepsDistinct(st', log', rounds[1..], allIds, catalog);
      }
    }
  }
}
