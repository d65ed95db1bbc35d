/** A worked live session on four ids `a`, `b`, `c`, `d` (any four
    different ids, listed in ascending order), run round by round through
    the model of next-pair and vote, and the two replays of its log. Each
    fact is its own small lemma, so that no proof has to evaluate the whole
    session at once. */
module Sample {
  import opened Common
  import opened Ranking
  import opened Progress
  import opened NextPair
  import opened VoteIngest
  import opened Overwrite
  import opened Live

  predicate FourIds(a: Id, b: Id, c: Id, d: Id) {
    a != b && a != c && a != d && b != c && b != d && c != d
  }

  /** Five rounds, every draw taking the first unplaced id. */
  const SampleRounds: seq<Round> :=
    [Round(0, true, 0), Round(0, false, 0), Round(0, false, 0), Round(0, true, 0), Round(0, false, 0)]

  /** The log those rounds leave: the fourth vote is the second comparison
      of the insertion of `c`, so its left id is already placed when the
      as-written replay reaches it. */
  function SampleLog(a: Id, b: Id, c: Id, d: Id): seq<Vote> {
    [Vote(0, a, b, a), Vote(1, b, a, a), Vote(2, c, a, a), Vote(3, c, b, c), Vote(4, d, c, c)]
  }

  /** One round that gets a pair and answers it, unfolded. */
  lemma SessionRound(st: UserState, log: seq<Vote>, rounds: seq<Round>, allIds: seq<Id>, catalog: set<Id>,
                     left: Id, right: Id, st1: UserState, st2: UserState)
    requires rounds != []
    requires SelectPair(st, allIds, catalog, |log|, rounds[0].drawPick).0 == Pair(|log|, ExpectedComparisons(|allIds|), left, right)
    requires SelectPair(st, allIds, catalog, |log|, rounds[0].drawPick).1 == st1
    requires st2 == Ingest(st1, if rounds[0].leftWins then left else right, allIds, rounds[0].votePick)
    ensures Session(st, log, rounds, allIds, catalog) ==
            Session(st2, AppendVote(log, left, right, if rounds[0].leftWins then left else right), rounds[1..], allIds, catalog)
  {
  }

  /** Next-pair during an insertion: the cursor against the probe. */
  lemma PairDuringInsertion(st: UserState, allIds: seq<Id>, catalog: set<Id>, votesCount: nat, pick: nat)
    requires st.cursor.Some? && votesCount < ExpectedComparisons(|allIds|)
    requires 0 <= st.low <= st.high < |st.ordered|
    requires st.cursor.value in catalog && st.ordered[(st.low + st.high) / 2] in catalog
    ensures SelectPair(st, allIds, catalog, votesCount, pick) ==
            (Pair(votesCount, ExpectedComparisons(|allIds|), st.cursor.value, st.ordered[(st.low + st.high) / 2]), st)
  {
    assert WithCursor(st, allIds, pick) == st;
    assert Opponent(st, st.cursor.value, allIds) == Some(st.ordered[(st.low + st.high) / 2]);
  }

  /** A vote that completes an insertion, unfolded. */
  lemma InsertionVote(st: UserState, winnerId: Id, allIds: seq<Id>, pick: nat)
    requires st.cursor.Some? && Inserts(st, winnerId)
    ensures var o := InsertAt(st.ordered, Narrow(st, winnerId).0, st.cursor.value);
            var rem := Remaining(allIds, o);
            Ingest(st, winnerId, allIds, pick) ==
            UserState(o, if |rem| > 0 then Some(PickFrom(rem, pick)) else None, 0, |o| - 1)
  {
  }

  /** Nothing is placed yet. */
  lemma UnplacedAtStart(a: Id, b: Id, c: Id, d: Id)
    requires FourIds(a, b, c, d)
    ensures Remaining([a, b, c, d], []) == [a, b, c, d]
  {
    assert [a, b, c, d][1..] == [b, c, d];
    assert [b, c, d][1..] == [c, d];
    assert [c, d][1..] == [d];
    assert Remaining([d], []) == [d];
    assert Remaining([c, d], []) == [c, d];
    assert Remaining([b, c, d], []) == [b, c, d];
  }

  /** `a` placed. */
  lemma UnplacedAfterA(a: Id, b: Id, c: Id, d: Id)
    requires FourIds(a, b, c, d)
    ensures Remaining([a, b, c, d], [a]) == [b, c, d]
  {
    assert [a, b, c, d][1..] == [b, c, d];
    assert [b, c, d][1..] == [c, d];
    assert [c, d][1..] == [d];
    assert Remaining([d], [a]) == [d];
    assert Remaining([c, d], [a]) == [c, d];
  }

  /** `a` and `b` placed. */
  lemma UnplacedAfterB(a: Id, b: Id, c: Id, d: Id)
    requires FourIds(a, b, c, d)
    ensures Remaining([a, b, c, d], [a, b]) == [c, d]
  {
    assert [a, b, c, d][1..] == [b, c, d];
    assert [b, c, d][1..] == [c, d];
    assert [c, d][1..] == [d];
    assert Remaining([d], [a, b]) == [d];
    assert Remaining([c, d], [a, b]) == [c, d];
  }

  /** `a`, `c` and `b` placed. */
  lemma UnplacedAfterC(a: Id, b: Id, c: Id, d: Id)
    requires FourIds(a, b, c, d)
    ensures Remaining([a, b, c, d], [a, c, b]) == [d]
  {
    assert [a, b, c, d][1..] == [b, c, d];
    assert [b, c, d][1..] == [c, d];
    assert [c, d][1..] == [d];
    assert Remaining([d], [a, c, b]) == [d];
    assert Remaining([c, d], [a, c, b]) == [d];
  }

  /** Round 1: `a` is drawn and compared with `b`, the first other id. */
  lemma RoundOnePair(a: Id, b: Id, c: Id, d: Id)
    requires FourIds(a, b, c, d)
    ensures SelectPair(InitialState, [a, b, c, d], {a, b, c, d}, 0, 0) == (Pair(0, 5, a, b), UserState([], Some(a), 0, -1))
  {
    ExpectedComparisonsSmallValues();
    UnplacedAtStart(a, b, c, d);
    assert PickFrom([a, b, c, d], 0) == a;
    assert WithCursor(InitialState, [a, b, c, d], 0) == UserState([], Some(a), 0, -1);
    assert FindOther([a, b, c, d], a) == Some(b);
    assert Opponent(InitialState, a, [a, b, c, d]) == Some(b);
  }

  /** Round 1: `a` wins and is placed; `b` is drawn. */
  lemma RoundOneVote(a: Id, b: Id, c: Id, d: Id)
    requires FourIds(a, b, c, d)
    ensures Ingest(UserState([], Some(a), 0, -1), a, [a, b, c, d], 0) == UserState([a], Some(b), 0, 0)
  {
    InsertionVote(UserState([], Some(a), 0, -1), a, [a, b, c, d], 0);
    assert InsertAt([], 0, a) == [a];
    UnplacedAfterA(a, b, c, d);
  }

  /** Round 2: `b` is compared with `a`. */
  lemma RoundTwoPair(a: Id, b: Id, c: Id, d: Id)
    requires FourIds(a, b, c, d)
    ensures SelectPair(UserState([a], Some(b), 0, 0), [a, b, c, d], {a, b, c, d}, 1, 0) == (Pair(1, 5, b, a), UserState([a], Some(b), 0, 0))
  {
    ExpectedComparisonsSmallValues();
    PairDuringInsertion(UserState([a], Some(b), 0, 0), [a, b, c, d], {a, b, c, d}, 1, 0);
  }

  /** Round 2: `b` loses and is placed after `a`; `c` is drawn. */
  lemma RoundTwoVote(a: Id, b: Id, c: Id, d: Id)
    requires FourIds(a, b, c, d)
    ensures Ingest(UserState([a], Some(b), 0, 0), a, [a, b, c, d], 0) == UserState([a, b], Some(c), 0, 1)
  {
    InsertionVote(UserState([a], Some(b), 0, 0), a, [a, b, c, d], 0);
    assert InsertAt([a], 1, b) == [a, b];
    UnplacedAfterB(a, b, c, d);
  }

  /** Round 3: `c` is compared with `a`, the probe of window `[0, 1]`. */
  lemma RoundThreePair(a: Id, b: Id, c: Id, d: Id)
    requires FourIds(a, b, c, d)
    ensures SelectPair(UserState([a, b], Some(c), 0, 1), [a, b, c, d], {a, b, c, d}, 2, 0) == (Pair(2, 5, c, a), UserState([a, b], Some(c), 0, 1))
  {
    ExpectedComparisonsSmallValues();
    PairDuringInsertion(UserState([a, b], Some(c), 0, 1), [a, b, c, d], {a, b, c, d}, 2, 0);
  }

  /** Round 3: `c` loses; the window narrows to `[1, 1]`. */
  lemma RoundThreeVote(a: Id, b: Id, c: Id, d: Id)
    requires FourIds(a, b, c, d)
    ensures Ingest(UserState([a, b], Some(c), 0, 1), a, [a, b, c, d], 0) == UserState([a, b], Some(c), 1, 1)
  {
  }

  /** Round 4: `c` is compared with `b`. */
  lemma RoundFourPair(a: Id, b: Id, c: Id, d: Id)
    requires FourIds(a, b, c, d)
    ensures SelectPair(UserState([a, b], Some(c), 1, 1), [a, b, c, d], {a, b, c, d}, 3, 0) == (Pair(3, 5, c, b), UserState([a, b], Some(c), 1, 1))
  {
    ExpectedComparisonsSmallValues();
    PairDuringInsertion(UserState([a, b], Some(c), 1, 1), [a, b, c, d], {a, b, c, d}, 3, 0);
  }

  /** Round 4: `c` wins and is placed between `a` and `b`; `d` is drawn. */
  lemma RoundFourVote(a: Id, b: Id, c: Id, d: Id)
    requires FourIds(a, b, c, d)
    ensures Ingest(UserState([a, b], Some(c), 1, 1), c, [a, b, c, d], 0) == UserState([a, c, b], Some(d), 0, 2)
  {
    assert Narrow(UserState([a, b], Some(c), 1, 1), c) == (1, 0);
    InsertionVote(UserState([a, b], Some(c), 1, 1), c, [a, b, c, d], 0);
    assert InsertAt([a, b], 1, c) == [a, c, b];
    UnplacedAfterC(a, b, c, d);
    assert PickFrom([d], 0) == d;
  }

  /** Round 5: `d` is compared with `c`. */
  lemma RoundFivePair(a: Id, b: Id, c: Id, d: Id)
    requires FourIds(a, b, c, d)
    ensures SelectPair(UserState([a, c, b], Some(d), 0, 2), [a, b, c, d], {a, b, c, d}, 4, 0) == (Pair(4, 5, d, c), UserState([a, c, b], Some(d), 0, 2))
  {
    ExpectedComparisonsSmallValues();
    PairDuringInsertion(UserState([a, c, b], Some(d), 0, 2), [a, b, c, d], {a, b, c, d}, 4, 0);
  }

  /** Round 5: `d` loses; the window narrows to `[2, 2]`. */
  lemma RoundFiveVote(a: Id, b: Id, c: Id, d: Id)
    requires FourIds(a, b, c, d)
    ensures Ingest(UserState([a, c, b], Some(d), 0, 2), c, [a, b, c, d], 0) == UserState([a, c, b], Some(d), 2, 2)
  {
  }

  /** As-written replay, vote 1: `a` won, so it goes to the front. */
  lemma ReplayVoteOne(a: Id, b: Id, c: Id, d: Id)
    requires FourIds(a, b, c, d)
    ensures ReplayStep([], Vote(0, a, b, a)) == [a]
  {
  }

  /** Vote 2: `b` lost, so it goes to the back. */
  lemma ReplayVoteTwo(a: Id, b: Id, c: Id, d: Id)
    requires FourIds(a, b, c, d)
    ensures ReplayStep([a], Vote(1, b, a, a)) == [a, b]
  {
  }

  /** Vote 3: `c` lost, so it goes to the back. */
  lemma ReplayVoteThree(a: Id, b: Id, c: Id, d: Id)
    requires FourIds(a, b, c, d)
    ensures ReplayStep([a, b], Vote(2, c, a, a)) == [a, b, c]
  {
  }

  /** Vote 4: its left id `c` is placed, so the replay inserts its right id `b`, again. */
  lemma ReplayVoteFour(a: Id, b: Id, c: Id, d: Id)
    requires FourIds(a, b, c, d)
    ensures ReplayStep([a, b, c], Vote(3, c, b, c)) == [a, b, c, b]
  {
    assert Current([a, b, c], Vote(3, c, b, c)) == b;
  }

  /** Vote 5: `d` lost, so it goes to the back. */
  lemma ReplayVoteFive(a: Id, b: Id, c: Id, d: Id)
    requires FourIds(a, b, c, d)
    ensures ReplayStep([a, b, c, b], Vote(4, d, c, c)) == [a, b, c, b, d]
  {
    assert d !in [a, b, c, b];
    assert Current([a, b, c, b], Vote(4, d, c, c)) == d;
    assert ReplayStep([a, b, c, b], Vote(4, d, c, c)) == [a, b, c, b] + [d];
  }

  /** Round 5 of the session. */
  lemma SessionStepFive(a: Id, b: Id, c: Id, d: Id)
    requires FourIds(a, b, c, d)
    ensures Session(UserState([a, c, b], Some(d), 0, 2), [Vote(0, a, b, a), Vote(1, b, a, a), Vote(2, c, a, a), Vote(3, c, b, c)], [Round(0, false, 0)], [a, b, c, d], {a, b, c, d}) ==
            Session(UserState([a, c, b], Some(d), 2, 2), [Vote(0, a, b, a), Vote(1, b, a, a), Vote(2, c, a, a), Vote(3, c, b, c), Vote(4, d, c, c)], [], [a, b, c, d], {a, b, c, d})
  {
    ExpectedComparisonsSmallValues();
    RoundFivePair(a, b, c, d);
    RoundFiveVote(a, b, c, d);
    SessionRound(UserState([a, c, b], Some(d), 0, 2), [Vote(0, a, b, a), Vote(1, b, a, a), Vote(2, c, a, a), Vote(3, c, b, c)], [Round(0, false, 0)], [a, b, c, d], {a, b, c, d},
                 d, c, UserState([a, c, b], Some(d), 0, 2), UserState([a, c, b], Some(d), 2, 2));
    assert AppendVote([Vote(0, a, b, a), Vote(1, b, a, a), Vote(2, c, a, a), Vote(3, c, b, c)], d, c, c) == [Vote(0, a, b, a), Vote(1, b, a, a), Vote(2, c, a, a), Vote(3, c, b, c), Vote(4, d, c, c)];
    assert [Round(0, false, 0)][1..] == [];
  }

  /** The session from round 5 on. */
  lemma SessionFromRoundFive(a: Id, b: Id, c: Id, d: Id)
    requires FourIds(a, b, c, d)
    ensures Session(UserState([a, c, b], Some(d), 0, 2), [Vote(0, a, b, a), Vote(1, b, a, a), Vote(2, c, a, a), Vote(3, c, b, c)], [Round(0, false, 0)], [a, b, c, d], {a, b, c, d}) ==
            (UserState([a, c, b], Some(d), 2, 2), SampleLog(a, b, c, d))
  {
    SessionStepFive(a, b, c, d);
  }

  /** Round 4 of the session. */
  lemma SessionStepFour(a: Id, b: Id, c: Id, d: Id)
    requires FourIds(a, b, c, d)
    ensures Session(UserState([a, b], Some(c), 1, 1), [Vote(0, a, b, a), Vote(1, b, a, a), Vote(2, c, a, a)], [Round(0, true, 0), Round(0, false, 0)], [a, b, c, d], {a, b, c, d}) ==
            Session(UserState([a, c, b], Some(d), 0, 2), [Vote(0, a, b, a), Vote(1, b, a, a), Vote(2, c, a, a), Vote(3, c, b, c)], [Round(0, false, 0)], [a, b, c, d], {a, b, c, d})
  {
    ExpectedComparisonsSmallValues();
    RoundFourPair(a, b, c, d);
    RoundFourVote(a, b, c, d);
    SessionRound(UserState([a, b], Some(c), 1, 1), [Vote(0, a, b, a), Vote(1, b, a, a), Vote(2, c, a, a)], [Round(0, true, 0), Round(0, false, 0)], [a, b, c, d], {a, b, c, d},
                 c, b, UserState([a, b], Some(c), 1, 1), UserState([a, c, b], Some(d), 0, 2));
    assert AppendVote([Vote(0, a, b, a), Vote(1, b, a, a), Vote(2, c, a, a)], c, b, c) == [Vote(0, a, b, a), Vote(1, b, a, a), Vote(2, c, a, a), Vote(3, c, b, c)];
    assert [Round(0, true, 0), Round(0, false, 0)][1..] == [Round(0, false, 0)];
  }

  /** The session from round 4 on. */
  lemma SessionFromRoundFour(a: Id, b: Id, c: Id, d: Id)
    requires FourIds(a, b, c, d)
    ensures Session(UserState([a, b], Some(c), 1, 1), [Vote(0, a, b, a), Vote(1, b, a, a), Vote(2, c, a, a)], [Round(0, true, 0), Round(0, false, 0)], [a, b, c, d], {a, b, c, d}) ==
            (UserState([a, c, b], Some(d), 2, 2), SampleLog(a, b, c, d))
  {
    SessionStepFour(a, b, c, d);
    SessionFromRoundFive(a, b, c, d);
  }

  /** Round 3 of the session. */
  lemma SessionStepThree(a: Id, b: Id, c: Id, d: Id)
    requires FourIds(a, b, c, d)
    ensures Session(UserState([a, b], Some(c), 0, 1), [Vote(0, a, b, a), Vote(1, b, a, a)], [Round(0, false, 0), Round(0, true, 0), Round(0, false, 0)], [a, b, c, d], {a, b, c, d}) ==
            Session(UserState([a, b], Some(c), 1, 1), [Vote(0, a, b, a), Vote(1, b, a, a), Vote(2, c, a, a)], [Round(0, true, 0), Round(0, false, 0)], [a, b, c, d], {a, b, c, d})
  {
    ExpectedComparisonsSmallValues();
    RoundThreePair(a, b, c, d);
    RoundThreeVote(a, b, c, d);
    SessionRound(UserState([a, b], Some(c), 0, 1), [Vote(0, a, b, a), Vote(1, b, a, a)], [Round(0, false, 0), Round(0, true, 0), Round(0, false, 0)], [a, b, c, d], {a, b, c, d},
                 c, a, UserState([a, b], Some(c), 0, 1), UserState([a, b], Some(c), 1, 1));
    assert AppendVote([Vote(0, a, b, a), Vote(1, b, a, a)], c, a, a) == [Vote(0, a, b, a), Vote(1, b, a, a), Vote(2, c, a, a)];
    assert [Round(0, false, 0), Round(0, true, 0), Round(0, false, 0)][1..] == [Round(0, true, 0), Round(0, false, 0)];
  }

  /** The session from round 3 on. */
  lemma SessionFromRoundThree(a: Id, b: Id, c: Id, d: Id)
    requires FourIds(a, b, c, d)
    ensures Session(UserState([a, b], Some(c), 0, 1), [Vote(0, a, b, a), Vote(1, b, a, a)], [Round(0, false, 0), Round(0, true, 0), Round(0, false, 0)], [a, b, c, d], {a, b, c, d}) ==
            (UserState([a, c, b], Some(d), 2, 2), SampleLog(a, b, c, d))
  {
    SessionStepThree(a, b, c, d);
    SessionFromRoundFour(a, b, c, d);
  }

  /** Round 2 of the session. */
  lemma SessionStepTwo(a: Id, b: Id, c: Id, d: Id)
    requires FourIds(a, b, c, d)
    ensures Session(UserState([a], Some(b), 0, 0), [Vote(0, a, b, a)], [Round(0, false, 0), Round(0, false, 0), Round(0, true, 0), Round(0, false, 0)], [a, b, c, d], {a, b, c, d}) ==
            Session(UserState([a, b], Some(c), 0, 1), [Vote(0, a, b, a), Vote(1, b, a, a)], [Round(0, false, 0), Round(0, true, 0), Round(0, false, 0)], [a, b, c, d], {a, b, c, d})
  {
    ExpectedComparisonsSmallValues();
    RoundTwoPair(a, b, c, d);
    RoundTwoVote(a, b, c, d);
    SessionRound(UserState([a], Some(b), 0, 0), [Vote(0, a, b, a)], [Round(0, false, 0), Round(0, false, 0), Round(0, true, 0), Round(0, false, 0)], [a, b, c, d], {a, b, c, d},
                 b, a, UserState([a], Some(b), 0, 0), UserState([a, b], Some(c), 0, 1));
    assert AppendVote([Vote(0, a, b, a)], b, a, a) == [Vote(0, a, b, a), Vote(1, b, a, a)];
    assert [Round(0, false, 0), Round(0, false, 0), Round(0, true, 0), Round(0, false, 0)][1..] == [Round(0, false, 0), Round(0, true, 0), Round(0, false, 0)];
  }

  /** The session from round 2 on. */
  lemma SessionFromRoundTwo(a: Id, b: Id, c: Id, d: Id)
    requires FourIds(a, b, c, d)
    ensures Session(UserState([a], Some(b), 0, 0), [Vote(0, a, b, a)], [Round(0, false, 0), Round(0, false, 0), Round(0, true, 0), Round(0, false, 0)], [a, b, c, d], {a, b, c, d}) ==
            (UserState([a, c, b], Some(d), 2, 2), SampleLog(a, b, c, d))
  {
    SessionStepTwo(a, b, c, d);
    SessionFromRoundThree(a, b, c, d);
  }

  /** Round 1 of the session. */
  lemma SessionStepOne(a: Id, b: Id, c: Id, d: Id)
    requires FourIds(a, b, c, d)
    ensures Session(InitialState, [], [Round(0, true, 0), Round(0, false, 0), Round(0, false, 0), Round(0, true, 0), Round(0, false, 0)], [a, b, c, d], {a, b, c, d}) ==
            Session(UserState([a], Some(b), 0, 0), [Vote(0, a, b, a)], [Round(0, false, 0), Round(0, false, 0), Round(0, true, 0), Round(0, false, 0)], [a, b, c, d], {a, b, c, d})
  {
    ExpectedComparisonsSmallValues();
    RoundOnePair(a, b, c, d);
    RoundOneVote(a, b, c, d);
    SessionRound(InitialState, [], [Round(0, true, 0), Round(0, false, 0), Round(0, false, 0), Round(0, true, 0), Round(0, false, 0)], [a, b, c, d], {a, b, c, d},
                 a, b, UserState([], Some(a), 0, -1), UserState([a], Some(b), 0, 0));
    assert AppendVote([], a, b, a) == [Vote(0, a, b, a)];
    assert [Round(0, true, 0), Round(0, false, 0), Round(0, false, 0), Round(0, true, 0), Round(0, false, 0)][1..] == [Round(0, false, 0), Round(0, false, 0), Round(0, true, 0), Round(0, false, 0)];
  }

  /** The session from round 1 on. */
  lemma SessionFromRoundOne(a: Id, b: Id, c: Id, d: Id)
    requires FourIds(a, b, c, d)
    ensures Session(InitialState, [], [Round(0, true, 0), Round(0, false, 0), Round(0, false, 0), Round(0, true, 0), Round(0, false, 0)], [a, b, c, d], {a, b, c, d}) ==
            (UserState([a, c, b], Some(d), 2, 2), SampleLog(a, b, c, d))
  {
    SessionStepOne(a, b, c, d);
    SessionFromRoundTwo(a, b, c, d);
  }

  /** The five rounds, run from the first contact, leave the log
      `SampleLog` and the live ranking `[a, c, b]`, `d` still being
      inserted. */
  lemma SampleSession(a: Id, b: Id, c: Id, d: Id)
    requires FourIds(a, b, c, d)
    ensures Session(InitialState, [], SampleRounds, [a, b, c, d], {a, b, c, d}) ==
            (UserState([a, c, b], Some(d), 2, 2), SampleLog(a, b, c, d))
  {
    SessionFromRoundOne(a, b, c, d);
  }

  /** Five votes reach `expectedComparisons(4) = 5`, so the next request
      reports the session complete while `d` was never placed. */
  lemma SampleSessionEndsUnplaced(a: Id, b: Id, c: Id, d: Id, pick: nat)
    requires FourIds(a, b, c, d)
    ensures var (st, log) := Session(InitialState, [], SampleRounds, [a, b, c, d], {a, b, c, d});
            && SelectPair(st, [a, b, c, d], {a, b, c, d}, |log|, pick).0 == NoPair(5, 5)
            && d !in st.ordered && d in Remaining([a, b, c, d], st.ordered)
  {
    SampleSession(a, b, c, d);
    ExpectedComparisonsSmallValues();
    assert |SampleLog(a, b, c, d)| == 5;
    UnplacedAfterC(a, b, c, d);
  }

  /** The as-written replay from vote 5 on. */
  lemma ReplayFromVoteFive(a: Id, b: Id, c: Id, d: Id)
    requires FourIds(a, b, c, d)
    ensures ReplayFrom([a, b, c, b], [Vote(4, d, c, c)]) == [a, b, c, b, d]
  {
    ReplayVoteFive(a, b, c, d);
    assert [Vote(4, d, c, c)][1..] == [];
  }

  /** The as-written replay from vote 4 on. */
  lemma ReplayFromVoteFour(a: Id, b: Id, c: Id, d: Id)
    requires FourIds(a, b, c, d)
    ensures ReplayFrom([a, b, c], [Vote(3, c, b, c), Vote(4, d, c, c)]) == [a, b, c, b, d]
  {
    ReplayVoteFour(a, b, c, d);
    assert [Vote(3, c, b, c), Vote(4, d, c, c)][1..] == [Vote(4, d, c, c)];
    ReplayFromVoteFive(a, b, c, d);
  }

  /** The as-written replay from vote 3 on. */
  lemma ReplayFromVoteThree(a: Id, b: Id, c: Id, d: Id)
    requires FourIds(a, b, c, d)
    ensures ReplayFrom([a, b], [Vote(2, c, a, a), Vote(3, c, b, c), Vote(4, d, c, c)]) == [a, b, c, b, d]
  {
    ReplayVoteThree(a, b, c, d);
    assert [Vote(2, c, a, a), Vote(3, c, b, c), Vote(4, d, c, c)][1..] == [Vote(3, c, b, c), Vote(4, d, c, c)];
    ReplayFromVoteFour(a, b, c, d);
  }

  /** The as-written replay from vote 2 on. */
  lemma ReplayFromVoteTwo(a: Id, b: Id, c: Id, d: Id)
    requires FourIds(a, b, c, d)
    ensures ReplayFrom([a], [Vote(1, b, a, a), Vote(2, c, a, a), Vote(3, c, b, c), Vote(4, d, c, c)]) == [a, b, c, b, d]
  {
    ReplayVoteTwo(a, b, c, d);
    assert [Vote(1, b, a, a), Vote(2, c, a, a), Vote(3, c, b, c), Vote(4, d, c, c)][1..] == [Vote(2, c, a, a), Vote(3, c, b, c), Vote(4, d, c, c)];
    ReplayFromVoteThree(a, b, c, d);
  }

  /** The as-written replay from vote 1 on. */
  lemma ReplayFromVoteOne(a: Id, b: Id, c: Id, d: Id)
    requires FourIds(a, b, c, d)
    ensures ReplayFrom([], [Vote(0, a, b, a), Vote(1, b, a, a), Vote(2, c, a, a), Vote(3, c, b, c), Vote(4, d, c, c)]) == [a, b, c, b, d]
  {
    ReplayVoteOne(a, b, c, d);
    assert [Vote(0, a, b, a), Vote(1, b, a, a), Vote(2, c, a, a), Vote(3, c, b, c), Vote(4, d, c, c)][1..] == [Vote(1, b, a, a), Vote(2, c, a, a), Vote(3, c, b, c), Vote(4, d, c, c)];
    ReplayFromVoteTwo(a, b, c, d);
  }

  /** The as-written replay of `SampleLog` places `b` twice. */
  lemma SampleReplayAsWritten(a: Id, b: Id, c: Id, d: Id)
    requires FourIds(a, b, c, d)
    ensures Replay(SampleLog(a, b, c, d)) == [a, b, c, b, d]
  {
    ReplayFromVoteOne(a, b, c, d);
  }

  /** As written, re-confirming the first vote of this live session, with the
      winner it already has, leaves a ranking that lists `b` twice and
      differs from the live `[a, c, b]`; the corrected overwrite leaves the
      live ranking. */
  lemma OverwriteAsWrittenDuplicates(a: Id, b: Id, c: Id, d: Id)
    requires FourIds(a, b, c, d)
    ensures var (st, log) := Session(InitialState, [], SampleRounds, [a, b, c, d], {a, b, c, d});
            var asWritten := OverwriteVote(log, 0, a, [a, b, c, d]);
            var corrected := OverwriteVoteLive(log, 0, a, [a, b, c, d]);
            && asWritten.Rewritten? && asWritten.state.ordered == [a, b, c, b, d]
            && !Distinct(asWritten.state.ordered) && st.ordered == [a, c, b]
            && corrected.Rewritten? && corrected.state.ordered == st.ordered && Distinct(corrected.state.ordered)
  {
    SampleSession(a, b, c, d);
    SampleReplayAsWritten(a, b, c, d);
    var log := SampleLog(a, b, c, d);
    assert FindVote(log, 0) == Some(0);
    OverwriteSameWinner(log, 0, [a, b, c, d]);
    var o := [a, b, c, b, d];
    assert o[1] == o[3];
    OverwriteLiveSameWinnerKeepsRanking(SampleRounds, [a, b, c, d], {a, b, c, d}, 0);
    SessionKeepsDistinct(InitialState, [], SampleRounds, [a, b, c, d], {a, b, c, d});
  }
}
