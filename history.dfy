/** GET /api/history (app/api/history/route.ts): the user's votes in
    `orderIndex` order, twenty to a page. `log` is the user's votes in the
    active dataset, already in `orderIndex` order (the `orderBy` of line 30);
    `pageParam` is the `page` query parameter, `None` when it is absent. */
module History {
  import opened Common
  import opened Ranking
  import opened Decimal

  /** Line 15: `take`. */
  const PageSize: nat := 20

  /** The longest prefix made of decimal digits. */
  function DigitPrefix(s: string): (r: string)
    ensures AllDigits(r) && |r| <= |s| && r == s[..|r|]
    ensures |r| < |s| ==> !IsDigit(s[|r|])
  {
    if s != [] && IsDigit(s[0]) then [s[0]] + DigitPrefix(s[1..]) else []
  }

  /** `parseInt(s, 10)`: leading white space, an optional sign, then as many
      digits as follow; `None` stands for `NaN`, when no digit follows. */
  function ParseInt(s: string): (r: Option<int>)
    ensures s != [] && AllDigits(s) ==> r == Some(DigitsValue(s))
    ensures (forall i :: 0 <= i < |s| ==> !IsDigit(s[i])) ==> r.None?
  {
    var t := TrimStart(s);
    TrimStartDropsSpace(s);
    var negative := |t| > 0 && t[0] == '-';
    var u := if |t| > 0 && (t[0] == '-' || t[0] == '+') then t[1..] else t;
    assert u == s[|s| - |u|..];
    var digits := DigitPrefix(u);
    assert digits != [] ==> IsDigit(s[|s| - |u|]) by {
      if digits != [] { assert digits[0] == u[0]; }
    }
    assert s != [] && AllDigits(s) ==> digits == s;
    if digits == [] then None
    else
      var v: int := DigitsValue(digits);
      Some(if negative then -v else v)
  }

  /** Line 14: `Math.max(parseInt(pageParam ?? '1', 10) || 1, 1)`. A missing,
      unreadable, zero or negative page is page 1; any other reading is taken
      as it is. */
  function PageNumber(pageParam: Option<string>): (page: int)
    ensures page >= 1
    ensures pageParam.Some? && ParseInt(pageParam.value).Some? && ParseInt(pageParam.value).value >= 1 ==>
              page == ParseInt(pageParam.value).value
    ensures pageParam.Some? && (ParseInt(pageParam.value).None? || ParseInt(pageParam.value).value < 1) ==>
              page == 1
  {
    var parsed := ParseInt(if pageParam.Some? then pageParam.value else "1");
    var n := if parsed.None? || parsed.value == 0 then 1 else parsed.value;
    if n > 1 then n else 1
  }

  /** Line 16. */
  function Skip(page: int): int {
    (page - 1) * PageSize
  }

  /** Line 41: `Math.ceil(total / take)`, the least number of pages that hold
      `total` votes. */
  function PageCount(total: nat): (pages: nat)
    ensures pages * PageSize >= total
    ensures pages > 0 ==> (pages - 1) * PageSize < total
  {
    (total + PageSize - 1) / PageSize
  }

  /** Lines 28-33: `findMany` with `skip` and `take` on the ordered votes. */
  function PageItems(log: seq<Vote>, skip: nat): (items: seq<Vote>)
    ensures |items| <= PageSize
    ensures |items| == (if skip >= |log| then 0 else if |log| - skip < PageSize then |log| - skip else PageSize)
    ensures forall i :: 0 <= i < |items| ==> skip + i < |log| && items[i] == log[skip + i]
  {
    var start := if skip < |log| then skip else |log|;
    var end := if start + PageSize < |log| then start + PageSize else |log|;
    log[start..end]
  }

  datatype HistoryPage = HistoryPage(items: seq<Vote>, page: int, total: nat, pages: nat)

  /** The handler after authentication and the active-dataset lookup. */
  function GetHistory(log: seq<Vote>, pageParam: Option<string>): (h: HistoryPage)
    ensures h.page >= 1 && h.page == PageNumber(pageParam)
    ensures h.total == |log| && h.pages == PageCount(|log|)
    ensures h.items == PageItems(log, Skip(h.page))
  {
    var page := PageNumber(pageParam);
    HistoryPage(PageItems(log, Skip(page)), page, |log|, PageCount(|log|))
  }

  /** Without a `page` parameter the first page is served. */
  lemma NoPageParamIsFirstPage()
    ensures PageNumber(None) == 1
  {
    assert TrimStart("1") == "1";
    assert DigitPrefix("1") == "1" by { assert DigitPrefix("1"[1..]) == []; }
  }

  /** `parseInt` reads back what `String` writes. */
  lemma ParseIntOfNumeral(n: nat)
    ensures ParseInt(Numeral(n)) == Some(n)
  {
    var s := Numeral(n);
    assert !IsJsSpace(s[0]);
    assert TrimStart(s) == s;
    DigitPrefixOfDigits(s);
    NumeralRoundTrip(n);
  }

  lemma {:induction false} DigitPrefixOfDigits(s: string)
    requires AllDigits(s)
    ensures DigitPrefix(s) == s
  {
    if s != [] {
      DigitPrefixOfDigits(s[1..]);
    }
  }

  /** A page requested by its number is the page served. */
  lemma PageNumberOfNumeral(n: nat)
    requires n >= 1
    ensures PageNumber(Some(Numeral(n))) == n
  {
    ParseIntOfNumeral(n);
  }

  /** On a contiguous log every page lists consecutive orderIndex values,
      starting at the skip, in ascending order. */
  lemma PageIsInOrder(log: seq<Vote>, pageParam: Option<string>)
    requires Contiguous(log)
    ensures var h := GetHistory(log, pageParam);
            && (forall i :: 0 <= i < |h.items| ==> h.items[i].orderIndex == Skip(h.page) + i)
            && (forall i, j :: 0 <= i < j < |h.items| ==> h.items[i].orderIndex < h.items[j].orderIndex)
  {
  }

  /** Every vote is listed exactly where its position says: vote `i` is item
      `i % 20` of page `i / 20 + 1`, and that page is within `pages`. */
  lemma {:induction false} EveryVoteOnItsPage(log: seq<Vote>, i: nat)
    requires i < |log|
    ensures var h := GetHistory(log, Some(Numeral(i / PageSize + 1)));
            && h.page == i / PageSize + 1 <= h.pages
            && i % PageSize < |h.items| && h.items[i % PageSize] == log[i]
  {
    PageNumberOfNumeral(i / PageSize + 1);
    var p := i / PageSize + 1;
    assert Skip(p) == i - i % PageSize;
    assert (p - 1) * PageSize <= i;
  }

  /** Beyond the last page nothing is listed, but the counts are still
      reported. */
  lemma PastLastPageIsEmpty(log: seq<Vote>, pageParam: Option<string>)
    requires PageNumber(pageParam) > PageCount(|log|)
    ensures GetHistory(log, pageParam).items == []
  {
    var p := PageNumber(pageParam);
    var pages := PageCount(|log|);
    assert Skip(p) >= pages * PageSize;
  }
}
