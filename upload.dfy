/** POST /api/admin/upload (app/api/admin/upload/route.ts): validation of the
    parsed spreadsheet rows, the dataset version `YYYY-MM-DD_vN`, the stored
    initiatives and the blank per-user states. A row is the header-to-cell
    map `sheet_to_json` produces, with every cell already a string. The
    clock, the existing versions and the id the database gives the new
    dataset are parameters. */
module Upload {
  import opened Common
  import opened Ranking
  import opened Decimal

  /** Lines 46-48. */
  const MaxRows: nat := 1000

  /** Lines 6-16, in the order they are checked. */
  const RequiredColumns: seq<string> := [
    "business_stream", "number", "initiative_name", "initiative_group", "important_status",
    "urgent_status", "cdek_status", "in_process_status", "initiative_id"]

  type Row = map<string, string>

  datatype UploadError =
    | NotAFile                       // lines 31-33
    | EmptyFile                      // lines 43-45
    | TooManyRows                    // lines 46-48
    | MissingColumn(column: string)  // lines 54-56
    | EmptyInitiativeId              // lines 59-61
    | DuplicateInitiativeId(id: string)  // lines 62-64

  datatype Validation = Accepted(ids: set<string>) | Refused(error: UploadError)

  predicate RowComplete(row: Row) {
    forall c :: c in RequiredColumns ==> c in row
  }

  /** Line 58: the trimmed `initiative_id` of a complete row. */
  function InitiativeId(row: Row): (id: string)
    requires RowComplete(row)
    ensures id != [] ==> !IsJsSpace(id[0]) && !IsJsSpace(id[|id| - 1])
  {
    assert RequiredColumns[8] == "initiative_id";
    TrimKeepsMiddle(row["initiative_id"]);
    Trim(row["initiative_id"])
  }

  /** Lines 53-57: the first required column, in order, that the row lacks. */
  function FirstMissing(row: Row, cols: seq<string>): (r: Option<string>)
    ensures r.None? <==> forall c :: c in cols ==> c in row
    ensures r.Some? ==> exists k :: 0 <= k < |cols| && cols[k] == r.value && r.value !in row &&
                                    forall j :: 0 <= j < k ==> cols[j] in row
  {
    if cols == [] then None
    else if cols[0] !in row then Some(cols[0])
    else
      var t := FirstMissing(row, cols[1..]);
      assert forall i :: 1 <= i < |cols| ==> cols[i] == cols[1..][i - 1];
      if t.Some? then
        var k :| 0 <= k < |cols[1..]| && cols[1..][k] == t.value && t.value !in row &&
                 forall j :: 0 <= j < k ==> cols[1..][j] in row;
        assert cols[k + 1] == t.value;
        t
      else t
  }

  /** Lines 53-64: the fault of one row, `seen` being the ids of the rows
      before it: the first missing column, then an empty id, then a repeated
      one. */
  function RowFault(row: Row, seen: set<string>): (f: Option<UploadError>)
    ensures f.None? <==> RowComplete(row) && InitiativeId(row) != [] && InitiativeId(row) !in seen
  {
    var missing := FirstMissing(row, RequiredColumns);
    if missing.Some? then Some(MissingColumn(missing.value))
    else
      var id := InitiativeId(row);
      if id == [] then Some(EmptyInitiativeId)
      else if id in seen then Some(DuplicateInitiativeId(id))
      else None
  }

  /** Lines 51-66 from some row on, `seen` being the ids of the rows before:
      the first fault stops the upload; otherwise the ids collected. */
  function ValidateFrom(rows: seq<Row>, seen: set<string>): (v: Validation)
    ensures v != Refused(EmptyFile) && v != Refused(TooManyRows)
    ensures v.Accepted? ==> seen <= v.ids
    decreases |rows|
  {
    if rows == [] then Accepted(seen)
    else
      var fault := RowFault(rows[0], seen);
      if fault.Some? then Refused(fault.value)
      else ValidateFrom(rows[1..], seen + {InitiativeId(rows[0])})
  }

  /** Lines 43-66: an empty file and one over the row limit are refused as
      such, and only then are the rows read. */
  function ValidateRows(rows: seq<Row>): (v: Validation)
    ensures v == Refused(EmptyFile) <==> |rows| == 0
    ensures v == Refused(TooManyRows) <==> |rows| > MaxRows
  {
    if |rows| == 0 then Refused(EmptyFile)
    else if |rows| > MaxRows then Refused(TooManyRows)
    else ValidateFrom(rows, {})
  }

  /** Lines 53-57 as the handler runs them: the loop over the required
      columns, stopping at the first one the row lacks. */
  method FindMissing(row: Row, cols: seq<string>) returns (m: Option<string>)
    ensures m == FirstMissing(row, cols)
  {
    for c := 0 to |cols|
      invariant FirstMissing(row, cols[c..]) == FirstMissing(row, cols)
    {
      assert cols[c..][1..] == cols[c + 1..];
      if cols[c] !in row {
        return Some(cols[c]);
      }
    }
    assert cols[|cols|..] == [];
    return None;
  }

  /** Lines 43-66 as the handler runs them: a loop over the rows, and in it the
      column check of `FindMissing`. */
  method CheckRows(rows: seq<Row>) returns (v: Validation)
    ensures v == ValidateRows(rows)
    ensures v == Refused(EmptyFile) <==> |rows| == 0
    ensures v == Refused(TooManyRows) <==> |rows| > MaxRows
    ensures 1 <= |rows| <= MaxRows && v.Refused? ==> exists k: nat :: FaultAt(rows, {}, k, v.error)
  {
    ValidateRowsFirstFault(rows);
    if |rows| == 0 {
      return Refused(EmptyFile);
    }
    if |rows| > MaxRows {
      return Refused(TooManyRows);
    }
    var ids: set<string> := {};
    for r := 0 to |rows|
      invariant ValidateFrom(rows[r..], ids) == ValidateFrom(rows, {})
    {
      var row := rows[r];
      assert rows[r..][0] == row;
      var missing := FindMissing(row, RequiredColumns);
      if missing.Some? {
        return Refused(MissingColumn(missing.value));
      }
      assert rows[r..][0] == row && rows[r..][1..] == rows[r + 1..];
      var initiativeId := InitiativeId(row);
      if initiativeId == [] {
        return Refused(EmptyInitiativeId);
      }
      if initiativeId in ids {
        return Refused(DuplicateInitiativeId(initiativeId));
      }
      ids := ids + {initiativeId};
    }
    return Accepted(ids);
  }

  /** The rows pass from some row on: each complete with a non-empty id that
      is neither among `seen` nor repeated later. */
  predicate Acceptable(rows: seq<Row>, seen: set<string>) {
    (forall i :: 0 <= i < |rows| ==>
       RowComplete(rows[i]) && InitiativeId(rows[i]) != [] && InitiativeId(rows[i]) !in seen) &&
    (forall i, j :: 0 <= i < j < |rows| && RowComplete(rows[i]) && RowComplete(rows[j]) ==>
       InitiativeId(rows[i]) != InitiativeId(rows[j]))
  }

  /** The ids of complete rows, in row order. */
  function IdsOf(rows: seq<Row>): (ids: seq<string>)
    requires forall i :: 0 <= i < |rows| ==> RowComplete(rows[i])
    ensures |ids| == |rows| && forall i :: 0 <= i < |rows| ==> ids[i] == InitiativeId(rows[i])
  {
    if rows == [] then [] else [InitiativeId(rows[0])] + IdsOf(rows[1..])
  }

  /** Peeling the first row off `Acceptable`. */
  lemma AcceptableCons(rows: seq<Row>, seen: set<string>)
    requires rows != [] && RowComplete(rows[0])
    ensures Acceptable(rows, seen) <==>
              var id := InitiativeId(rows[0]);
              id != [] && id !in seen && Acceptable(rows[1..], seen + {id})
  {
    var id := InitiativeId(rows[0]);
    var tail := rows[1..];
    assert forall i :: 1 <= i < |rows| ==> rows[i] == tail[i - 1];
    if id != [] && id !in seen && Acceptable(tail, seen + {id}) {
      forall i, j | 0 <= i < j < |rows| && RowComplete(rows[i]) && RowComplete(rows[j])
        ensures InitiativeId(rows[i]) != InitiativeId(rows[j])
      {
        if i > 0 {
          assert rows[i] == tail[i - 1] && rows[j] == tail[j - 1];
        } else {
          assert rows[j] == tail[j - 1];
        }
      }
    }
    if Acceptable(rows, seen) {
      forall i | 0 <= i < |tail|
        ensures RowComplete(tail[i]) && InitiativeId(tail[i]) != [] && InitiativeId(tail[i]) !in seen + {id}
      {
        assert tail[i] == rows[i + 1];
      }
      forall i, j | 0 <= i < j < |tail| && RowComplete(tail[i]) && RowComplete(tail[j])
        ensures InitiativeId(tail[i]) != InitiativeId(tail[j])
      {
        assert tail[i] == rows[i + 1] && tail[j] == rows[j + 1];
      }
    }
  }

  /** The loop accepts exactly the acceptable rows. */
  lemma {:induction false} ValidateFromAccepts(rows: seq<Row>, seen: set<string>)
    ensures ValidateFrom(rows, seen).Accepted? <==> Acceptable(rows, seen)
    decreases |rows|
  {
    if rows != [] {
      var missing := FirstMissing(rows[0], RequiredColumns);
      if missing.None? {
        AcceptableCons(rows, seen);
        ValidateFromAccepts(rows[1..], seen + {InitiativeId(rows[0])});
      }
    }
  }

  /** The set of the ids listed. */
  function IdSet(ids: seq<string>): (r: set<string>)
    ensures forall x :: x in r <==> x in ids
  {
    set i | 0 <= i < |ids| :: ids[i]
  }

  /** A complete row with a fresh, non-empty id passes on to the next row. */
  lemma ValidateFromStep(rows: seq<Row>, seen: set<string>)
    requires rows != [] && RowComplete(rows[0])
    requires InitiativeId(rows[0]) != [] && InitiativeId(rows[0]) !in seen
    ensures ValidateFrom(rows, seen) == ValidateFrom(rows[1..], seen + {InitiativeId(rows[0])})
  {
  }

  /** On acceptable rows the loop collects every row's id. */
  lemma {:induction false} ValidateFromCollects(rows: seq<Row>, seen: set<string>)
    requires Acceptable(rows, seen)
    ensures ValidateFrom(rows, seen) == Accepted(seen + IdSet(IdsOf(rows)))
    decreases |rows|
  {
    if rows != [] {
      var id := InitiativeId(rows[0]);
      AcceptableCons(rows, seen);
      ValidateFromStep(rows, seen);
      ValidateFromCollects(rows[1..], seen + {id});
      IdSetCons(id, IdsOf(rows[1..]));
    }
  }

  lemma IdSetCons(id: string, ids: seq<string>)
    ensures IdSet([id] + ids) == {id} + IdSet(ids)
  {
  }

  /** Row `k` is the first faulty row and `e` its fault: the rows before it
      pass, and `e` is what row `k` shows against the ids they collected. */
  predicate FaultAt(rows: seq<Row>, seen: set<string>, k: nat, e: UploadError) {
    && k < |rows| && Acceptable(rows[..k], seen)
    && RowFault(rows[k], seen + IdSet(IdsOf(rows[..k]))) == Some(e)
  }

  /** A first fault of the later rows, behind a row that passes, is the
      first fault of all of them. */
  lemma FaultAtCons(rows: seq<Row>, seen: set<string>, j: nat, e: UploadError)
    requires rows != [] && RowFault(rows[0], seen).None?
    requires FaultAt(rows[1..], seen + {InitiativeId(rows[0])}, j, e)
    ensures FaultAt(rows, seen, j + 1, e)
  {
    var id := InitiativeId(rows[0]);
    var tail := rows[1..];
    var head := rows[..j + 1];
    assert head[0] == rows[0] && head[1..] == tail[..j];
    AcceptableCons(head, seen);
    assert IdsOf(head) == [id] + IdsOf(tail[..j]);
    IdSetCons(id, IdsOf(tail[..j]));
    assert seen + IdSet(IdsOf(head)) == seen + {id} + IdSet(IdsOf(tail[..j]));
    assert rows[j + 1] == tail[j];
  }

  /** First error wins, in row order: a refusal carries the fault of some row
      `k` whose earlier rows all pass, judged against the ids those earlier
      rows collected. */
  lemma {:induction false} ValidateFromFirstFault(rows: seq<Row>, seen: set<string>)
    requires ValidateFrom(rows, seen).Refused?
    ensures exists k: nat :: FaultAt(rows, seen, k, ValidateFrom(rows, seen).error)
    decreases |rows|
  {
    if rows == [] {
      assert false;
    } else if RowFault(rows[0], seen).Some? {
      assert rows[..0] == [];
      assert seen + IdSet(IdsOf(rows[..0])) == seen;
      assert FaultAt(rows, seen, 0, ValidateFrom(rows, seen).error);
    } else {
      var id := InitiativeId(rows[0]);
      var e := ValidateFrom(rows, seen).error;
      assert ValidateFrom(rows[1..], seen + {id}) == ValidateFrom(rows, seen);
      ValidateFromFirstFault(rows[1..], seen + {id});
      var j: nat :| FaultAt(rows[1..], seen + {id}, j, e);
      FaultAtCons(rows, seen, j, e);
    }
  }

  /** First error wins: a refused upload of 1 to 1000 rows reports the fault
      of its first faulty row. */
  lemma ValidateRowsFirstFault(rows: seq<Row>)
    ensures 1 <= |rows| <= MaxRows && ValidateRows(rows).Refused? ==>
              exists k: nat :: FaultAt(rows, {}, k, ValidateRows(rows).error)
  {
    if 1 <= |rows| <= MaxRows && ValidateRows(rows).Refused? {
      ValidateFromFirstFault(rows, {});
    }
  }

  /** An accepted upload has between 1 and 1000 rows, each with every required
      column and a non-empty id, no two rows sharing an id; and conversely. */
  lemma ValidateRowsAccepts(rows: seq<Row>)
    ensures ValidateRows(rows).Accepted? <==> 1 <= |rows| <= MaxRows && Acceptable(rows, {})
    ensures ValidateRows(rows).Accepted? ==> |ValidateRows(rows).ids| == |rows|
  {
    if 1 <= |rows| <= MaxRows {
      ValidateFromAccepts(rows, {});
      if Acceptable(rows, {}) {
        ValidateFromCollects(rows, {});
        DistinctCardinality(IdsOf(rows));
      }
    }
  }

  lemma {:induction false} DistinctCardinality(s: seq<string>)
    requires Distinct(s)
    ensures |IdSet(s)| == |s|
  {
    if s != [] {
      var init := s[..|s| - 1];
      DistinctCardinality(init);
      assert IdSet(s) == IdSet(init) + {s[|s| - 1]} by {
        assert s == init + [s[|s| - 1]];
      }
      assert s[|s| - 1] !in IdSet(init);
    }
  }

  /** Lines 71-72: `String(n).padStart(2, '0')`. */
  function Pad2(n: nat): (s: string)
    ensures AllDigits(s) && |s| >= 2
    ensures n < 100 ==> |s| == 2 && DigitsValue(s) == n
  {
    var digits := Numeral(n);
    NumeralRoundTrip(n);
    if |digits| < 2 then
      var s := ['0'] + digits;
      assert s[..|s| - 1] == ['0'];
      assert DigitsValue(['0']) == 0 by { assert ['0'][..0] == []; }
      s
    else
      assert n < 100 ==> |Numeral(n / 10)| == 1;
      digits
  }

  /** Where the parts of `y-m-d` sit, for two-character `m` and `d`. */
  lemma DashJoinParts(y: string, m: string, d: string)
    requires |m| == 2 && |d| == 2
    ensures var r := y + "-" + m + "-" + d;
            && |r| == |y| + 6 && r[|r| - 6] == '-' && r[|r| - 3] == '-'
            && r[..|r| - 6] == y && r[|r| - 5..|r| - 3] == m && r[|r| - 2..] == d
  {
  }

  /** Line 73: `YYYY-MM-DD` in local time. */
  function DatePrefix(year: nat, month: nat, day: nat): (r: string)
    requires 1 <= month <= 12 && 1 <= day <= 31
    ensures |r| >= 7 && r[|r| - 6] == '-' && r[|r| - 3] == '-'
    ensures AllDigits(r[..|r| - 6]) && DigitsValue(r[..|r| - 6]) == year
    ensures AllDigits(r[|r| - 5..|r| - 3]) && DigitsValue(r[|r| - 5..|r| - 3]) == month
    ensures AllDigits(r[|r| - 2..]) && DigitsValue(r[|r| - 2..]) == day
  {
    var y, m, d := Numeral(year), Pad2(month), Pad2(day);
    NumeralRoundTrip(year);
    DashJoinParts(y, m, d);
    y + "-" + m + "-" + d
  }

  predicate StartsWith(s: string, prefix: string) {
    |prefix| <= |s| && s[..|prefix|] == prefix
  }

  /** Lines 75-77: how many existing versions start with the prefix. */
  function CountStartingWith(versions: seq<string>, prefix: string): (n: nat)
    ensures n <= |versions|
  {
    if versions == [] then 0
    else (if StartsWith(versions[0], prefix) then 1 else 0) + CountStartingWith(versions[1..], prefix)
  }

  /** Line 79. */
  function VersionName(prefix: string, n: nat): (r: string)
    ensures |r| > |prefix| + 2 && r[..|prefix| + 2] == prefix + "_v"
    ensures AllDigits(r[|prefix| + 2..]) && DigitsValue(r[|prefix| + 2..]) == n
  {
    var r := prefix + "_v" + Numeral(n);
    NumeralRoundTrip(n);
    assert r[|prefix| + 2..] == Numeral(n);
    r
  }

  /** Lines 75-79: the next version of the day. */
  function NextVersion(prefix: string, versions: seq<string>): (v: string)
    ensures StartsWith(v, prefix)
  {
    var v := VersionName(prefix, CountStartingWith(versions, prefix) + 1);
    assert v[..|prefix|] == prefix;
    v
  }

  lemma {:induction false} CountAppend(versions: seq<string>, v: string, prefix: string)
    ensures CountStartingWith(versions + [v], prefix) ==
            CountStartingWith(versions, prefix) + (if StartsWith(v, prefix) then 1 else 0)
    decreases |versions|
  {
    if versions == [] {
      assert [v][1..] == [];
    } else {
      assert (versions + [v])[1..] == versions[1..] + [v];
      CountAppend(versions[1..], v, prefix);
    }
  }

  /** `n` uploads on one day, each recording the version it was given. */
  function UploadsOnDay(versions: seq<string>, prefix: string, n: nat): (r: seq<string>)
    ensures |r| == |versions| + n && r[..|versions|] == versions
    decreases n
  {
    if n == 0 then versions
    else
      var before := UploadsOnDay(versions, prefix, n - 1);
      before + [NextVersion(prefix, before)]
  }

  /** Starting from a day with no version yet, the uploads of that day are
      numbered `_v1`, `_v2`, … in order. */
  lemma {:induction false} SameDayVersionsCountUp(versions: seq<string>, prefix: string, n: nat)
    requires CountStartingWith(versions, prefix) == 0
    ensures CountStartingWith(UploadsOnDay(versions, prefix, n), prefix) == n
    ensures forall k :: |versions| <= k < |versions| + n ==>
              UploadsOnDay(versions, prefix, n)[k] == VersionName(prefix, k - |versions| + 1)
    decreases n
  {
    if n > 0 {
      var before := UploadsOnDay(versions, prefix, n - 1);
      SameDayVersionsCountUp(versions, prefix, n - 1);
      CountAppend(before, NextVersion(prefix, before), prefix);
      var r := UploadsOnDay(versions, prefix, n);
      var last := NextVersion(prefix, before);
      assert r == before + [last];
      assert last == VersionName(prefix, n);
      forall k | |versions| <= k < |versions| + n ensures r[k] == VersionName(prefix, k - |versions| + 1) {
        if k < |versions| + n - 1 {
          assert r[k] == before[k];
        } else {
          assert r[k] == last;
        }
      }
    }
  }

  /** When the day's versions so far are `_v1` … `_vN`, the new one is not a
      repeat. */
  lemma NextVersionIsFresh(prefix: string, versions: seq<string>)
    requires forall v :: v in versions && StartsWith(v, prefix) ==>
               exists j :: 1 <= j <= CountStartingWith(versions, prefix) && v == VersionName(prefix, j)
    ensures NextVersion(prefix, versions) !in versions
  {
  }

  /** Line 91: the stored id of an initiative. */
  function StoredId(datasetId: string, row: Row): (r: Id)
    requires RowComplete(row)
    ensures |r| > |datasetId| && r[..|datasetId|] == datasetId && r[|datasetId|] == '-'
  {
    datasetId + "-" + InitiativeId(row)
  }

  /** Two rows of one dataset get the same stored id only when their trimmed
      `initiative_id`s agree. */
  lemma StoredIdInjective(datasetId: string, a: Row, b: Row)
    requires RowComplete(a) && RowComplete(b) && StoredId(datasetId, a) == StoredId(datasetId, b)
    ensures InitiativeId(a) == InitiativeId(b)
  {
    var k := |datasetId| + 1;
    assert InitiativeId(a) == StoredId(datasetId, a)[k..];
    assert InitiativeId(b) == StoredId(datasetId, b)[k..];
  }

  /** Lines 90-102: the record stored for a row. */
  datatype Initiative = Initiative(
    id: Id, businessStream: string, number: string, initiativeName: string,
    initiativeGroup: string, importantStatus: string, urgentStatus: string,
    cdekStatus: string, inProcessStatus: string, datasetId: string, meta: Row)

  function ToInitiative(datasetId: string, row: Row): (r: Initiative)
    requires RowComplete(row)
    ensures r.id == StoredId(datasetId, row) && r.datasetId == datasetId && r.meta == row
  {
    assert RequiredColumns[0] == "business_stream" && RequiredColumns[1] == "number";
    assert RequiredColumns[2] == "initiative_name" && RequiredColumns[3] == "initiative_group";
    assert RequiredColumns[4] == "important_status" && RequiredColumns[5] == "urgent_status";
    assert RequiredColumns[6] == "cdek_status" && RequiredColumns[7] == "in_process_status";
    Initiative(StoredId(datasetId, row), Trim(row["business_stream"]), Trim(row["number"]),
               Trim(row["initiative_name"]), Trim(row["initiative_group"]),
               Trim(row["important_status"]), Trim(row["urgent_status"]),
               Trim(row["cdek_status"]), Trim(row["in_process_status"]), datasetId, row)
  }

  /** Line 90: `rows.map(...)`. */
  function ToInitiatives(datasetId: string, rows: seq<Row>): (r: seq<Initiative>)
    requires forall i :: 0 <= i < |rows| ==> RowComplete(rows[i])
    ensures |r| == |rows| && forall i :: 0 <= i < |rows| ==> r[i] == ToInitiative(datasetId, rows[i])
  {
    seq(|rows|, i requires 0 <= i < |rows| => ToInitiative(datasetId, rows[i]))
  }

  datatype UploadOutcome =
    | Uploaded(version: string, initiatives: seq<Initiative>, states: map<string, UserState>)
    | UploadRefused(error: UploadError)

  /** The handler: `rows` is `None` when the form carries no file; `prefix`
      is today's `DatePrefix`, `versions` the versions of every dataset so
      far, `datasetId` the id given to the new dataset and `users` the
      registered users (lines 106-126). */
  function UploadFile(rows: Option<seq<Row>>, prefix: string, versions: seq<string>,
                      datasetId: string, users: set<string>): (r: UploadOutcome)
    ensures rows.None? ==> r == UploadRefused(NotAFile)
    ensures rows.Some? && ValidateRows(rows.value).Refused? ==>
              r == UploadRefused(ValidateRows(rows.value).error)
    ensures rows.Some? && ValidateRows(rows.value).Accepted? ==> r.Uploaded?
    ensures r.Uploaded? ==>
              && rows.Some? && ValidateRows(rows.value).Accepted?
              && r.version == NextVersion(prefix, versions)
              && |r.initiatives| == |rows.value|
              && (forall i :: 0 <= i < |r.initiatives| ==>
                    RowComplete(rows.value[i]) && r.initiatives[i] == ToInitiative(datasetId, rows.value[i]))
              && (forall i :: 0 <= i < |r.initiatives| ==> r.initiatives[i].datasetId == datasetId)
              && r.states.Keys == users
              && (forall u :: u in users ==> r.states[u] == InitialState)
  {
    if rows.None? then UploadRefused(NotAFile)
    else
      var v := ValidateRows(rows.value);
      if v.Refused? then UploadRefused(v.error)
      else
        ValidateRowsAccepts(rows.value);
        Uploaded(NextVersion(prefix, versions), ToInitiatives(datasetId, rows.value),
                 map u | u in users :: InitialState)
  }

  /** An accepted upload stores one initiative per row, no two with the same
      id. */
  lemma UploadedIdsDistinct(rows: seq<Row>, prefix: string, versions: seq<string>,
                            datasetId: string, users: set<string>)
    requires UploadFile(Some(rows), prefix, versions, datasetId, users).Uploaded?
    ensures var ini := UploadFile(Some(rows), prefix, versions, datasetId, users).initiatives;
            forall i, j :: 0 <= i < j < |ini| ==> ini[i].id != ini[j].id
  {
    ValidateRowsAccepts(rows);
    var ini := UploadFile(Some(rows), prefix, versions, datasetId, users).initiatives;
    forall i, j | 0 <= i < j < |ini| ensures ini[i].id != ini[j].id {
      if ini[i].id == ini[j].id {
        StoredIdInjective(datasetId, rows[i], rows[j]);
      }
    }
  }
}
