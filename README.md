# initiative-prioritizer: the ranking engine in Dafny

initiative-prioritizer lets each user rank a dataset of business initiatives
by answering pairwise questions ("which of these two matters more?"). Its ranking
engine is binary insertion, with the state kept in the database between requests.
The `UserState` record holds the ranked prefix `ordered` (index 0 is the most
important item), the `cursor` being inserted and the inclusive search window
`[low, high]`. Every answer is also appended to a vote log numbered by `orderIndex`.

This project models the six route handlers that make up the engine:

- `next-pair` checks completion against `sum ceil(log2 i)`, draws a cursor and
  picks what to compare it with.
- `vote` validates the winner, records the vote, narrows the window and splices
  the cursor in.
- `history/overwrite` changes a past winner and rebuilds `ordered` by replaying
  the log.
- `history/back` deletes the last vote and resets the state.
- `history` lists the log twenty votes to a page.
- `admin/upload` validates the spreadsheet rows, names the dataset version
  `YYYY-MM-DD_vN`, stores the initiatives under `datasetId-initiative_id` and
  creates blank states.

Layout, one module per file:

- `Common` (`common.dfy`): JavaScript array and string operations (`filter`,
  `find`, `slice` with its clamping, `trim`).
- `Decimal` (`decimal.dfy`): `String(n)` and the digits `parseInt` reads.
- `Progress` (`progress.dfy`): `ceil(log2 i)` and `expectedComparisons`.
- `Ranking` (`ranking.dfy`): the `Vote` and `UserState` records.
- `NextPair`, `VoteIngest`, `Overwrite`, `Undo`, `History`, `Upload`
  (`next_pair.dfy`, `vote.dfy`, `overwrite.dfy`, `back.dfy`, `history.dfy`,
  `upload.dfy`): one route handler each, as functions over the records.
  Where the handler runs a loop, it is also a method with that loop.
- `Store` (`store.dfy`): the class `RankingStore` keeps one user's log and state
  as mutable fields. It has one method per handler, and each method is proved to
  leave the store as the handler's function says.
- `Live` (`live.dfy`): whole client sessions (next-pair, then vote, repeated),
  and a replay that rebuilds their ranking.
- `Sample` (`sample.dfy`): one concrete four-item session, worked through round
  by round.

Environment inputs become parameters:

- The database reads: `allIds` is the dataset's ids in ascending order,
  `catalog` the ids whose records exist, and the log and state are passed as values.
- `Math.random` becomes a draw `pick: nat`, with index `pick % |remaining|`.
- The clock becomes the date prefix.
- The id the database assigns to a new dataset becomes `datasetId`.

`expectedComparisons(n)` sums `ceil(log2 i)` as app/api/next-pair/route.ts:6-11
writes it: 0, 0, 1, 3, 5, 8 for n = 0 … 5.

The threshold counts votes, not placed items. It can end a session before
every item is placed: `Sample.SampleSessionEndsUnplaced` shows a four-item
session that is complete with one item never ranked.

app/api/vote/route.ts:62 destructures an undeclared `userState`. The model
reads it as the `state` fetched at line 38, which lines 61 and 44 already use.

## Model

| member | source | states |
|---|---|---|
| Common.Remaining | app/api/next-pair/route.ts:84 | the ids kept are exactly those of `allIds` not in `ordered`; distinct input gives distinct output |
| Common.FindOther | app/api/next-pair/route.ts:98 | found iff some id differs from `x`; the result differs from `x` and every id before it equals `x` |
| Common.ClampIndex | app/api/vote/route.ts:90-94 | `slice`'s bound lies in `[0, len]` and is the bound itself when already inside |
| Common.InsertAt | app/api/vote/route.ts:90-94 | the element lands at the clamped index, removing it gives back the input, and the multiset gains exactly that element |
| Common.InsertAtDistinct | app/api/vote/route.ts:90-94 | splicing in an absent id keeps a sequence free of duplicates |
| Common.TrimStart | app/api/admin/upload/route.ts:58 | never longer than its input; `TrimStartDropsSpace` says what it drops |
| Common.TrimEnd | app/api/admin/upload/route.ts:58 | never longer than its input; `TrimEndDropsSpace` says what it drops |
| Common.Trim | app/api/admin/upload/route.ts:58 | no contract of its own; `TrimKeepsMiddle` states what it keeps |
| Common.TrimStartDropsSpace | app/api/admin/upload/route.ts:58 | `trimStart` drops only white space and stops at the first other character |
| Common.TrimEndDropsSpace | app/api/admin/upload/route.ts:58 | `trimEnd` drops only white space and stops at the last other character |
| Common.TrimKeepsMiddle | app/api/admin/upload/route.ts:58 | `trim` keeps the infix from the first to the last non-space character, and only white space lies outside it |
| Decimal.Numeral | app/api/admin/upload/route.ts:79 | `String(n)` is a non-empty digit string, without a leading zero unless `n` is 0, of length 1 exactly below 10 |
| Decimal.NumeralRoundTrip | app/api/history/route.ts:14 | reading the digits of `String(n)` gives back `n` |
| Decimal.NumeralInjective | app/api/admin/upload/route.ts:79 | different numbers have different numerals |
| Progress.CeilLog2 | app/api/next-pair/route.ts:9 | `Math.ceil(Math.log2(i))` is the least `k` with `i <= 2^k` |
| Progress.CeilLog2Least | app/api/next-pair/route.ts:9 | no smaller exponent reaches `i` |
| Progress.CeilLog2Halving | app/api/next-pair/route.ts:9 | halving a window of `w+1` slots costs exactly one comparison |
| Progress.ExpectedComparisons | app/api/next-pair/route.ts:6-11 | no contract of its own; the lemmas below and `ComputeExpectedComparisons` state it |
| Progress.ComputeExpectedComparisons | app/api/next-pair/route.ts:7-11 | the loop computes `sum_{i=1..n} ceil(log2 i)`, and 0 for a count of 0 or less |
| Progress.ExpectedComparisonsSmallValues | app/api/next-pair/route.ts:6-11 | the threshold is 0, 0, 1, 3, 5, 8 for 0 … 5 items |
| Progress.ExpectedComparisonsMonotone | app/api/next-pair/route.ts:6-11 | the threshold never decreases as the dataset grows; item `n+1` adds `ceil(log2 (n+1))` |
| Progress.ExpectedComparisonsBounds | app/api/next-pair/route.ts:6-11 | `n - 1 <= expectedComparisons(n) <= n * ceil(log2 n)` |
| Progress.ExpectedComparisonsPositive | app/api/next-pair/route.ts:71-74 | the threshold is positive iff there are at least two items, so with fewer the session is done at once |
| Ranking.PickFrom | app/api/next-pair/route.ts:88 | the random pick is an element of `remaining`, and each index is reachable |
| NextPair.WithCursor | app/api/next-pair/route.ts:83-93 | an existing cursor is kept; otherwise an unplaced id is drawn and the window reset to the whole of `ordered` |
| NextPair.Opponent | app/api/next-pair/route.ts:95-102 | with nothing placed, the first other id; otherwise `ordered[mid]` from the window as read, and none when out of range |
| NextPair.SelectPair | app/api/next-pair/route.ts:71-119 | done at the threshold with `done == total`; the state written; below it, with a cursor or an id left, never done: `LookupError` iff `Opponent` is none, otherwise a pair of the cursor and `Opponent` when both are on record and desync when one is not |
| NextPair.NothingLeftToPlace | app/api/next-pair/route.ts:83-87 | with no cursor and every id placed, `pair: null` with the votes cast as progress |
| NextPair.PairComparesDistinctItems | app/api/next-pair/route.ts:95-102 | on distinct ids with a well-formed window, a pair never compares an item with itself |
| NextPair.OpponentDefined | app/api/next-pair/route.ts:99-102 | with a well-formed window, `ordered[mid]` is always defined |
| VoteIngest.Narrow | app/api/vote/route.ts:80-86 | the cursor winning moves `high` to `mid-1`; otherwise `low` moves to `mid+1` |
| VoteIngest.Mid | app/api/vote/route.ts:72 | the probe lies inside a non-empty window |
| VoteIngest.Ingest | app/api/vote/route.ts:61-122 | no cursor leaves the state alone; an open window only moves `low`/`high`; an empty one splices the cursor at `low`, draws an unplaced cursor (or none if all are placed) and resets the window; a well-formed window stays well formed |
| VoteIngest.UpdateState | app/api/vote/route.ts:61-111 | the handler's imperative update computes exactly `Ingest` |
| VoteIngest.AppendVote | app/api/vote/route.ts:49-58 | the vote is appended with `orderIndex` equal to the count of earlier votes, and a contiguous log stays contiguous |
| VoteIngest.CastVote | app/api/vote/route.ts:22-58 | refused iff the winner is neither side; otherwise the vote is logged with a valid winner and the state ingested |
| VoteIngest.NarrowShrinks | app/api/vote/route.ts:72-86 | exactly one bound moves, the window shrinks strictly and stays inside the old one |
| VoteIngest.NarrowHalvesBudget | app/api/vote/route.ts:72-86 | each vote at least halves the window, so it costs one of the `ceil(log2 (w+1))` comparisons the threshold reserves |
| VoteIngest.FirstVotePlacesCursor | app/api/vote/route.ts:72-94 | the first vote (empty `ordered`, window `[0,-1]`) places the cursor whoever wins |
| VoteIngest.IngestKeepsDistinct | app/api/vote/route.ts:88-94 | ingestion never places an id twice |
| VoteIngest.NarrowKeepsBracket | app/api/vote/route.ts:80-86 | an honest vote keeps more important ids left and less important ids right of the window |
| VoteIngest.InsertKeepsSorted | app/api/vote/route.ts:90-94 | splicing between the more and the less important ids keeps `ordered` sorted |
| VoteIngest.IngestKeepsRanking | app/api/vote/route.ts:72-110 | under honest votes `ordered` stays sorted by importance and the next cursor starts bracketed |
| Overwrite.FindVote | app/api/history/overwrite/route.ts:34-41 | found: a position holding that `orderIndex`; not found: no vote has it |
| Overwrite.SetWinner | app/api/history/overwrite/route.ts:48 | only the targeted vote's winner changes |
| Overwrite.ReplayStep | app/api/history/overwrite/route.ts:57-68 | as written, each vote inserts its id at the front when that id won, else at the back |
| Overwrite.ReplayFrom | app/api/history/overwrite/route.ts:55-69 | the replay adds exactly one id per vote |
| Overwrite.Replay | app/api/history/overwrite/route.ts:55-69 | one id per vote, each from one of the votes' two sides |
| Overwrite.Current | app/api/history/overwrite/route.ts:57 | the inserted id is one side of the vote, and it is already placed only if both sides are |
| Overwrite.ReplayDrawsFromVotes | app/api/history/overwrite/route.ts:55-69 | every replayed id is a side of some vote |
| Overwrite.ReplayFromAppend | app/api/history/overwrite/route.ts:55-69 | the replay of a concatenated log is the replay of the second part after the first |
| Overwrite.ReplayLength | app/api/history/overwrite/route.ts:55-69 | after the replay the length of `ordered` is the number of votes |
| Overwrite.InsertionPoint | app/api/history/overwrite/route.ts:58-67 | the binary search with one fixed outcome ends at 0 or at the length of `ordered` |
| Overwrite.RebuildOrdered | app/api/history/overwrite/route.ts:55-69 | the handler's nested loops compute `Replay` |
| Overwrite.NextCursor | app/api/history/overwrite/route.ts:72-78 | the first id of `allIds` not yet placed, or none when all are placed |
| Overwrite.NextCursorIsFirstRemaining | app/api/history/overwrite/route.ts:77-78 | `NextCursor` is the head of the filtered list |
| Overwrite.ReplayedState | app/api/history/overwrite/route.ts:72-89 | the state written holds the replayed order, the first unplaced id as cursor, the window over all of it, and is well formed |
| Overwrite.OverwriteVote | app/api/history/overwrite/route.ts:34-89 | 404 iff no vote has the index; 400 iff the new winner is neither side; otherwise always rewritten: that one winner changes and the state is rebuilt |
| Overwrite.OverwriteSameWinner | app/api/history/overwrite/route.ts:42-89 | re-confirming a winner leaves the log unchanged |
| Overwrite.OverwriteKeepsLogShape | app/api/history/overwrite/route.ts:42-48 | the log stays contiguous, each winner one of its sides |
| Undo.LastVote | app/api/history/back/route.ts:14-17 | the vote with the largest `orderIndex`; none iff the log is empty |
| Undo.RemoveAt | app/api/history/back/route.ts:24 | one vote deleted, the others kept in order |
| Undo.UndoLast | app/api/history/back/route.ts:14-40 | 400 iff there is no vote; otherwise the last vote goes and the state is reset to the blank record |
| Undo.UndoOnContiguousLog | app/api/history/back/route.ts:14-24 | on a contiguous log the newest vote is removed and the rest stays contiguous |
| Undo.UndoThenRecastRestoresLog | app/api/history/back/route.ts:14-24 | undoing the last vote and casting it again restores the log |
| History.DigitPrefix | app/api/history/route.ts:14 | the longest run of leading digits |
| History.ParseInt | app/api/history/route.ts:14 | an all-digit string reads as its value; a string without a digit is `NaN` |
| History.Skip | app/api/history/route.ts:16 | no contract of its own; `PageItems`, `PageIsInOrder` and `EveryVoteOnItsPage` state what it selects |
| History.PageNumber | app/api/history/route.ts:13-14 | at least 1; a reading of 1 or more is kept, anything else (absent, NaN, 0, negative) is page 1 |
| History.PageCount | app/api/history/route.ts:41 | `Math.ceil(total / 20)`, the least number of pages holding `total` |
| History.PageItems | app/api/history/route.ts:27-33 | at most 20 items, the exact count left after `skip`, each `log[skip + i]` |
| History.GetHistory | app/api/history/route.ts:12-42 | the response fields: page, total, pages and the page's items |
| History.NoPageParamIsFirstPage | app/api/history/route.ts:14 | with no `page` parameter, page 1 is served |
| History.ParseIntOfNumeral | app/api/history/route.ts:14 | `parseInt(String(n))` is `n` |
| History.DigitPrefixOfDigits | app/api/history/route.ts:14 | an all-digit string is read whole |
| History.PageNumberOfNumeral | app/api/history/route.ts:14 | `?page=n` for `n >= 1` serves page `n` |
| History.PageIsInOrder | app/api/history/route.ts:28-33 | on a contiguous log, a page lists `orderIndex` values `skip, skip+1, …` in ascending order |
| History.EveryVoteOnItsPage | app/api/history/route.ts:14-41 | vote `i` is item `i % 20` of page `i / 20 + 1`, within `pages` |
| History.PastLastPageIsEmpty | app/api/history/route.ts:27-41 | a page beyond `pages` lists nothing |
| Upload.FirstMissing | app/api/admin/upload/route.ts:53-57 | none iff every column is present; otherwise the first absent column in order |
| Upload.FindMissing | app/api/admin/upload/route.ts:53-57 | the column loop finds `FirstMissing` |
| Upload.InitiativeId | app/api/admin/upload/route.ts:58 | the trimmed id neither starts nor ends with white space |
| Upload.RowFault | app/api/admin/upload/route.ts:53-64 | a row passes iff it has every column and a non-empty id not seen before |
| Upload.ValidateFrom | app/api/admin/upload/route.ts:51-66 | row faults never report the file's size, and the ids collected include those seen before |
| Upload.ValidateRows | app/api/admin/upload/route.ts:43-66 | `EmptyFile` iff no row; `TooManyRows` iff over 1000 rows |
| Upload.FaultAtCons | app/api/admin/upload/route.ts:51-66 | behind a row that passes, the first fault of the later rows is the first fault of all |
| Upload.ValidateFromFirstFault | app/api/admin/upload/route.ts:51-66 | a refusal carries the fault of a row whose earlier rows all pass, judged against their ids |
| Upload.ValidateRowsFirstFault | app/api/admin/upload/route.ts:43-66 | first error wins: a refused file of 1 to 1000 rows reports its first faulty row's fault |
| Upload.CheckRows | app/api/admin/upload/route.ts:43-66 | the handler's nested loops compute `ValidateRows`; `EmptyFile` iff no row, `TooManyRows` iff over 1000, otherwise a refusal carries the fault of the first faulty row |
| Upload.ValidateFromAccepts | app/api/admin/upload/route.ts:51-66 | rows pass iff each is complete with a non-empty trimmed id, fresh and unrepeated |
| Upload.ValidateFromCollects | app/api/admin/upload/route.ts:51-66 | passing rows yield the set of their trimmed ids |
| Upload.ValidateRowsAccepts | app/api/admin/upload/route.ts:43-66 | accepted iff 1 to 1000 rows pass, and then one id per row |
| Upload.Pad2 | app/api/admin/upload/route.ts:71-72 | `padStart(2, '0')` gives two digits with the month or day as value |
| Upload.DatePrefix | app/api/admin/upload/route.ts:70-73 | `YYYY-MM-DD`: three digit groups holding year, month and day, joined by dashes |
| Upload.CountStartingWith | app/api/admin/upload/route.ts:75-77 | never more than the number of versions; `CountAppend` fixes its value |
| Upload.CountAppend | app/api/admin/upload/route.ts:75-77 | appending a version adds one to the count exactly when it starts with the prefix |
| Upload.VersionName | app/api/admin/upload/route.ts:79 | the prefix, then `_v`, then digits that read back as the number |
| Upload.NextVersion | app/api/admin/upload/route.ts:75-79 | the version starts with the date prefix |
| Upload.UploadsOnDay | app/api/admin/upload/route.ts:75-79 | each upload appends one version and keeps the earlier ones |
| Upload.SameDayVersionsCountUp | app/api/admin/upload/route.ts:75-79 | on a fresh day the uploads get `_v1`, `_v2`, … in order |
| Upload.NextVersionIsFresh | app/api/admin/upload/route.ts:75-79 | when the day has `_v1` … `_vN`, the new version repeats none |
| Upload.StoredIdInjective | app/api/admin/upload/route.ts:91 | two rows get one stored id only if their trimmed ids agree |
| Upload.StoredId | app/api/admin/upload/route.ts:91 | the stored id starts with the dataset id and a dash |
| Upload.ToInitiative | app/api/admin/upload/route.ts:90-102 | the record keeps the stored id, the dataset and the raw row |
| Upload.ToInitiatives | app/api/admin/upload/route.ts:90-102 | one record per row, in order |
| Upload.UploadFile | app/api/admin/upload/route.ts:27-128 | no file, a refused row set, or else always an upload with the day's next version; initiative `i` is row `i` under its stored id; a blank state per user |
| Upload.UploadedIdsDistinct | app/api/admin/upload/route.ts:90-104 | an accepted upload stores no two initiatives under one id |
| Store.RankingStore.constructor | app/api/next-pair/route.ts:43-55 | a fresh record: no votes, blank state, invariant established |
| Store.RankingStore.NextPair | app/api/next-pair/route.ts:67-119 | the response and new state are `SelectPair`'s; the log is untouched; the invariant is kept |
| Store.RankingStore.CastVote | app/api/vote/route.ts:22-122 | accepted iff the winner is a side; then log and state are `CastVote`'s, else unchanged; the invariant is kept |
| Store.RankingStore.Overwrite | app/api/history/overwrite/route.ts:34-89 | the error or the new log and state are `OverwriteVote`'s; the invariant is kept |
| Store.RankingStore.Back | app/api/history/back/route.ts:14-40 | undone iff there was a vote; then log and state are `UndoLast`'s; the invariant is kept |
| Live.Session | app/api/next-pair/route.ts:71-119 | a session never shortens the log |
| Live.ReplayLiveStep | app/api/vote/route.ts:72-94 | the corrected replay step either keeps `ordered` or splices in exactly its cursor |
| Live.SelectPairAgrees | app/api/next-pair/route.ts:83-93 | drawing a cursor keeps the replay in step with the live state |
| Live.VoteAgrees | app/api/vote/route.ts:72-111 | a vote on the offered pair keeps the replay in step |
| Live.SessionAgrees | app/api/vote/route.ts:61-122 | over any run of rounds the corrected replay stays in step with the live state |
| Live.ReplayLiveRebuildsRanking | app/api/history/overwrite/route.ts:50-69 | the corrected replay of a session's log gives that session's ranking |
| Live.ReplayedLiveState | app/api/history/overwrite/route.ts:72-89 | the written state holds the corrected replay, keeping a pending insertion; with none pending, the first unplaced id is the cursor and the window spans the order |
| Live.OverwriteVoteLive | app/api/history/overwrite/route.ts:34-89 | rejects exactly when the route does, with the same error; otherwise the route's log update, then the corrected replay |
| Live.OverwriteLiveSameWinnerKeepsRanking | app/api/history/overwrite/route.ts:42-69 | corrected: re-confirming any vote of a session keeps its ranking |
| Live.FindVoteOnContiguous | app/api/history/overwrite/route.ts:34-38 | on a contiguous log vote `i` is found at position `i` |
| Live.SessionKeepsLogShape | app/api/vote/route.ts:49-58 | a session keeps the log contiguous with valid winners |
| Live.SessionKeepsDistinct | app/api/vote/route.ts:88-110 | a live session never places an id twice |
| Sample.SampleSession | app/api/next-pair/route.ts:71-119 | five rounds on four ids give the log `SampleLog` and the ranking `[a, c, b]` with `d` pending |
| Sample.SampleSessionEndsUnplaced | app/api/next-pair/route.ts:71-74 | after those five votes the next request reports completion, while `d` is still unplaced |
| Sample.SampleReplayAsWritten | app/api/history/overwrite/route.ts:55-69 | the route's replay of that log is `[a, b, c, b, d]` |
| Sample.OverwriteAsWrittenDuplicates | app/api/history/overwrite/route.ts:47-69 | re-confirming vote 0 lists `b` twice as written, while the corrected overwrite keeps `[a, c, b]` |

## Findings

| source | as written | input that shows it | evidently intended | confidence | as-written member | corrected member |
|---|---|---|---|---|---|---|
| app/api/history/overwrite/route.ts:55-69 | The replay inserts one id per vote (the right id once the left one is placed). Each insertion is a full binary search driven by that single vote's outcome, so the id goes to the front or the back. | Four ids `a < b < c < d`, with every draw taking the first unplaced id. The answers `a`, `a`, `a`, `c`, `c` give the log `(a,b→a) (b,a→a) (c,a→a) (c,b→c) (d,c→c)` and the live ranking `[a, c, b]`. Re-confirming vote 0 replays this log to `[a, b, c, b, d]`. | Rebuild the ranking the votes built: re-run the live insertion step vote by vote, and leave a pending insertion pending. | not executed | Sample.OverwriteAsWrittenDuplicates | Live.OverwriteVoteLive |

`Live.ReplayLiveRebuildsRanking` and `Live.OverwriteLiveSameWinnerKeepsRanking`
prove that the corrected replay reproduces the live ranking of every session.

## Left out

- Authentication, the cookie checks, the missing-user, missing-dataset and
  missing-state answers (401/404), and the zod body schemas are left out. They
  are guards in front of the modelled logic.
- The vote route's 404 for a missing state (lines 44-46) is left out.
  `Store.RankingStore` always holds a state, because next-pair creates one
  first.
- Prisma, the SQL queries and their atomicity are not modelled. The
  `Promise.all` over requests and concurrent requests by the same user are not
  modelled either: each handler is one atomic step.
- Spreadsheet parsing (`xlsx.read`, `sheet_to_json`) is not modelled: the rows
  come as maps from column name to an already stringified cell. The `String()`
  coercion of non-string cells is not modelled.
- `Math.random` is not modelled: the draw is a parameter. `Math.log2` in floating
  point is replaced by the exact integer `ceil(log2 i)`.
- `new Date()` and local time are not modelled: the date prefix is a parameter,
  and `DatePrefix` assumes a non-negative year.
- Progress.ExpectedComparisons: it carries no contract of its own. Its
  properties are the lemmas listed above.
- History.ParseInt: its body reads leading white space, one sign and the digit
  prefix, but its contract covers only all-digit strings and strings without a
  digit, not signed or padded ones. It does not model the loss of precision
  above 2^53, or `Infinity` for very long numerals.
- The `done`, `currentIndex` and `historyPointer` fields are not modelled. The
  handlers write them only as constants (`false`/`null`) and never read them.
- The initiative lookups of next-pair (lines 105-108) are modelled as membership
  in `catalog`. The content of the records is not modelled.
- The 500 that next-pair raises when `ordered[mid]` is undefined is modelled as
  the `LookupError` result. `NextPair.OpponentDefined` shows that it cannot arise
  from a well-formed state.
- Store.RankingStore.Overwrite: it follows the route as written, with the replay
  of the finding above. The corrected replay is `Live.OverwriteVoteLive`. Its
  guarantee covers logs of live sessions; a changed winner makes the later votes
  of a log questions the live protocol would not have asked.
- Upload also marks the older datasets inactive and writes everything to the
  database (lines 81-87, 104). These writes are not modelled beyond the
  returned version, initiatives and states.
- The 500 answer for any exception during upload (lines 129-132) is not
  modelled.
