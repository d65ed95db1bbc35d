/** Shared vocabulary: optional values, initiative ids, and the few JavaScript
    array operations the route handlers rely on (filter by membership, find,
    and splicing through `slice`). */
module Common {

  datatype Option<T> = None | Some(value: T)

  /** Initiative ids are strings (`${datasetId}-${initiative_id}`). */
  type Id = string

  predicate Distinct<T(==)>(s: seq<T>) {
    forall i, j :: 0 <= i < j < |s| ==> s[i] != s[j]
  }

  /** `allIds.filter((id) => !ordered.includes(id))`: the ids not placed yet,
      in catalog order. */
  function Remaining(allIds: seq<Id>, ordered: seq<Id>): (r: seq<Id>)
    ensures forall x :: x in r <==> x in allIds && x !in ordered
    ensures |r| <= |allIds|
    ensures Distinct(allIds) ==> Distinct(r)
  {
    if allIds == [] then []
    else if allIds[0] in ordered then Remaining(allIds[1..], ordered)
    else [allIds[0]] + Remaining(allIds[1..], ordered)
  }

  /** `ids.find((id) => id !== x)`: the first id that differs from `x`. */
  function FindOther(ids: seq<Id>, x: Id): (r: Option<Id>)
    ensures r.Some? <==> exists i :: 0 <= i < |ids| && ids[i] != x
    ensures r.Some? ==> r.value != x && r.value in ids
    ensures r.Some? ==> exists k :: 0 <= k < |ids| && ids[k] == r.value &&
                                    forall j :: 0 <= j < k ==> ids[j] == x
  {
    if ids == [] then None
    else if ids[0] != x then Some(ids[0])
    else
      var t := FindOther(ids[1..], x);
      assert forall i :: 1 <= i < |ids| ==> ids[i] == ids[1..][i - 1];
      if t.Some? then
        var k :| 0 <= k < |ids[1..]| && ids[1..][k] == t.value &&
                 forall j :: 0 <= j < k ==> ids[1..][j] == x;
        assert ids[k + 1] == t.value;
        t
      else t
  }

  /** The index JavaScript's `slice` actually uses for a bound `k` on an array
      of length `len`: a negative bound counts from the end, and every bound is
      clamped into `[0, len]`. */
  function ClampIndex(k: int, len: nat): (c: nat)
    ensures c <= len
    ensures 0 <= k <= len ==> c == k
    ensures k > len ==> c == len
  {
    if k < 0 then (if len + k < 0 then 0 else len + k)
    else if k > len then len
    else k
  }

  /** `[...s.slice(0, k), x, ...s.slice(k)]`. */
  function InsertAt(s: seq<Id>, k: int, x: Id): (r: seq<Id>)
    ensures |r| == |s| + 1
    ensures r[ClampIndex(k, |s|)] == x
    ensures r[..ClampIndex(k, |s|)] + r[ClampIndex(k, |s|) + 1..] == s
    ensures multiset(r) == multiset(s) + multiset{x}
  {
    var c := ClampIndex(k, |s|);
    assert s == s[..c] + s[c..];
    var r := s[..c] + [x] + s[c..];
    assert r[..c] == s[..c];
    assert r[c + 1..] == s[c..];
    r
  }

  /** Inserting an id that is not present keeps a sequence free of duplicates. */
  lemma InsertAtDistinct(s: seq<Id>, k: int, x: Id)
    requires Distinct(s) && x !in s
    ensures Distinct(InsertAt(s, k, x))
  {
    var r := InsertAt(s, k, x);
    var c := ClampIndex(k, |s|);
    forall i, j | 0 <= i < j < |r| ensures r[i] != r[j] {
      if i == c {
        assert r[j] == s[j - 1];
      } else if j == c {
        assert r[i] == s[i];
      } else {
        var i' := if i < c then i else i - 1;
        var j' := if j < c then j else j - 1;
        assert r[i] == s[i'] && r[j] == s[j'] && i' < j';
      }
    }
  }

  /** The characters `trim` and `parseInt` skip: the white space and line
      terminators of ECMAScript. */
  predicate IsJsSpace(c: char) {
    || ('\t' <= c <= '\r') || c == ' ' || c == '\U{A0}' || c == '\U{1680}'
    || ('\U{2000}' <= c <= '\U{200A}') || c == '\U{2028}' || c == '\U{2029}'
    || c == '\U{202F}' || c == '\U{205F}' || c == '\U{3000}' || c == '\U{FEFF}'
  }

  /** The string after its leading white space. */
  function TrimStart(s: string): (r: string)
    ensures |r| <= |s|
  {
    if s != [] && IsJsSpace(s[0]) then TrimStart(s[1..]) else s
  }

  lemma {:induction false} TrimStartDropsSpace(s: string)
    ensures var r := TrimStart(s);
            && r == s[|s| - |r|..]
            && (forall i :: 0 <= i < |s| - |r| ==> IsJsSpace(s[i]))
            && (|r| > 0 ==> !IsJsSpace(r[0]))
  {
    if s != [] && IsJsSpace(s[0]) {
      TrimStartDropsSpace(s[1..]);
    }
  }

  /** The string without its trailing white space. */
  function TrimEnd(s: string): (r: string)
    ensures |r| <= |s|
  {
    if s != [] && IsJsSpace(s[|s| - 1]) then TrimEnd(s[..|s| - 1]) else s
  }

  lemma {:induction false} TrimEndDropsSpace(s: string)
    ensures var r := TrimEnd(s);
            && r == s[..|r|]
            && (forall i :: |r| <= i < |s| ==> IsJsSpace(s[i]))
            && (|r| > 0 ==> !IsJsSpace(r[|r| - 1]))
  {
    if s != [] && IsJsSpace(s[|s| - 1]) {
      TrimEndDropsSpace(s[..|s| - 1]);
    }
  }

  /** `String.prototype.trim`: white space removed from both ends. */
  function Trim(s: string): string {
    TrimEnd(TrimStart(s))
  }

  /** What `Trim` keeps: the middle of the string, from its first to its last
      character that is not white space. */
  lemma TrimKeepsMiddle(s: string)
    ensures var r, a := Trim(s), |s| - |TrimStart(s)|;
            && a + |r| <= |s| && r == s[a..a + |r|]
            && (forall i :: 0 <= i < a ==> IsJsSpace(s[i]))
            && (forall i :: a + |r| <= i < |s| ==> IsJsSpace(s[i]))
            && (|r| > 0 ==> !IsJsSpace(r[0]) && !IsJsSpace(r[|r| - 1]))
  {
    var t := TrimStart(s);
    TrimStartDropsSpace(s);
    TrimEndDropsSpace(t);
    var r := TrimEnd(t);
    var a := |s| - |t|;
    assert r == s[a..a + |r|];
  }
}
