/** The page handler `index`: the latest 100 rows by period, or an empty
    list and an error message when the query fails. Rendering the template
    and the "last updated" clock reading are not part of this model. */
module ReadView {
  import opened Wrappers
  import opened Records
  import opened StringOrder

  /** `.limit(100)` */
  const PageSize: nat := 100

  const ErrorPrefix: string := "Could not connect to the database or query results: "

  /** Ordered as `order_by(KbtResult.period.desc())` orders. */
  predicate SortedDesc(rs: seq<Record>) {
    forall i, j :: 0 <= i < j < |rs| ==> LessEq(rs[j].period, rs[i].period)
  }

  /** A row no lower than every row of a descending list can go in front of it. */
  lemma SortedCons(x: Record, s: seq<Record>)
    requires SortedDesc(s)
    requires forall k :: 0 <= k < |s| ==> LessEq(s[k].period, x.period)
    ensures SortedDesc([x] + s)
  {
    var t := [x] + s;
    forall i, j | 0 <= i < j < |t|
      ensures LessEq(t[j].period, t[i].period)
    {
      assert t[j] == s[j - 1];
      if i > 0 {
        assert t[i] == s[i - 1];
      }
    }
  }

  /** A row no lower than the head of a descending list is no lower than any of it. */
  lemma AboveHead(r: Record, rs: seq<Record>)
    requires SortedDesc(rs) && rs != [] && LessEq(rs[0].period, r.period)
    ensures forall k :: 0 <= k < |rs| ==> LessEq(rs[k].period, r.period)
  {
    forall k | 0 < k < |rs|
      ensures LessEq(rs[k].period, r.period)
    {
      LessEqTransitive(rs[k].period, rs[0].period, r.period);
    }
  }

  /** The head of a descending list stays above the rest with a lower row inserted. */
  lemma HeadAbove(r: Record, rs: seq<Record>, tail: seq<Record>)
    requires SortedDesc(rs) && rs != [] && LessEq(r.period, rs[0].period)
    requires multiset(tail) == multiset(rs[1..]) + multiset{r}
    ensures forall k :: 0 <= k < |tail| ==> LessEq(tail[k].period, rs[0].period)
  {
    forall k | 0 <= k < |tail|
      ensures LessEq(tail[k].period, rs[0].period)
    {
      var x := tail[k];
      assert x in multiset(tail);
      if x != r {
        assert x in multiset(rs[1..]);
        var m :| 0 <= m < |rs[1..]| && rs[1..][m] == x;
        assert rs[m + 1] == x;
      }
    }
  }

  function Insert(r: Record, rs: seq<Record>): (out: seq<Record>)
    requires SortedDesc(rs)
    ensures SortedDesc(out)
    ensures multiset(out) == multiset(rs) + multiset{r}
  {
    if rs == [] then [r]
    else if LessEq(rs[0].period, r.period) then
      AboveHead(r, rs);
      SortedCons(r, rs);
      [r] + rs
    else
      LessEqTotal(rs[0].period, r.period);
      assert rs == [rs[0]] + rs[1..];
      var tail := Insert(r, rs[1..]);
      HeadAbove(r, rs, tail);
      SortedCons(rs[0], tail);
      [rs[0]] + tail
  }

  /** The rows in descending period order. */
  function SortDesc(rs: seq<Record>): (out: seq<Record>)
    ensures SortedDesc(out)
    ensures multiset(out) == multiset(rs)
  {
    if rs == [] then []
    else
      assert rs == [rs[0]] + rs[1..];
      Insert(rs[0], SortDesc(rs[1..]))
  }

  /** The first `n` rows of the table in descending period order. */
  function Latest(rs: seq<Record>, n: nat): (out: seq<Record>)
    ensures |out| == if |rs| < n then |rs| else n
    ensures SortedDesc(out)
    ensures multiset(out) <= multiset(rs)
    ensures forall x, y :: x in multiset(rs) - multiset(out) && y in out ==> LessEq(x.period, y.period)
  {
    var sorted := SortDesc(rs);
    var m := if |rs| < n then |rs| else n;
    assert sorted == sorted[..m] + sorted[m..];
    assert multiset(sorted) == multiset(sorted[..m]) + multiset(sorted[m..]);
    assert forall x :: x in multiset(rs) - multiset(sorted[..m]) ==> x in sorted[m..];
    sorted[..m]
  }

  /** How `KbtResult.query...all()` ended. */
  datatype QueryOutcome = QueryOk | QueryFailed(message: string)

  /** What `index` hands to the template: the rows and the error, None when there is none. */
  datatype Page = Page(results: seq<Record>, error: Option<string>)

  /** The page shows at most 100 rows of the table, in descending period
      order, and no row left off the page has a greater period than one on
      it; when the query fails it shows no rows and the error message. */
  function Index(rows: seq<Record>, query: QueryOutcome): (page: Page)
    ensures query.QueryOk? ==> page.error.None?
    ensures query.QueryOk? ==> |page.results| == if |rows| < PageSize then |rows| else PageSize
    ensures SortedDesc(page.results) && multiset(page.results) <= multiset(rows)
    ensures query.QueryOk? ==>
              forall x, y :: x in multiset(rows) - multiset(page.results) && y in page.results ==> LessEq(x.period, y.period)
    ensures query.QueryFailed? ==> page.results == [] && page.error == Some(ErrorPrefix + query.message)
  {
    match query
    case QueryOk => Page(Latest(rows, PageSize), None)
    case QueryFailed(message) => Page([], Some(ErrorPrefix + message))
  }

  /** With distinct periods the page lists distinct periods. */
  lemma LatestUnique(rows: seq<Record>, n: nat)
    requires UniquePeriods(rows)
    ensures UniquePeriods(Latest(rows, n))
  {
    var out := Latest(rows, n);
    forall i, j | 0 <= i < j < |out| ensures out[i].period != out[j].period {
      if out[i].period == out[j].period {
        assert out[i] in multiset(rows) && out[j] in multiset(rows);
        var a :| 0 <= a < |rows| && rows[a] == out[i];
        var b :| 0 <= b < |rows| && rows[b] == out[j];
        TwiceCounted(out, i, j);
        UniqueCount(rows, a);
        assert false;
      }
    }
  }

  lemma TwiceCounted(s: seq<Record>, i: nat, j: nat)
    requires i < j < |s| && s[i] == s[j]
    ensures multiset(s)[s[i]] >= 2
  {
    assert s == s[..j] + [s[j]] + s[j + 1..];
    assert s[i] == s[..j][i];
    assert multiset(s[..j])[s[i]] >= 1;
  }

  lemma UniqueCount(rows: seq<Record>, a: nat)
    requires UniquePeriods(rows) && a < |rows|
    ensures multiset(rows)[rows[a]] == 1
  {
    var r := rows[a];
    assert rows == rows[..a] + [r] + rows[a + 1..];
    assert r !in rows[..a] by {
      forall k | 0 <= k < a ensures rows[..a][k] != r { assert rows[..a][k] == rows[k]; }
    }
    assert r !in rows[a + 1..] by {
      var tail := rows[a + 1..];
      forall k | 0 <= k < |tail| ensures tail[k] != r { assert tail[k] == rows[a + 1 + k]; }
    }
  }

  /** An empty table gives an empty page and no error. */
  lemma EmptyStorePage()
    ensures Index([], QueryOk) == Page([], None)
  {
  }
}
