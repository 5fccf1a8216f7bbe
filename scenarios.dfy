/** Runs of the ingestion cycle on two-item payloads, and the page of a two-row table. */
module Scenarios {
  import opened Wrappers
  import opened Json
  import opened Records
  import opened Ingest
  import opened ReadView

  function Item(period: string, number: string, color: string): Value {
    Object([("period", Str(period)), ("number", Str(number)), ("color", Str(color))])
  }

  lemma ItemFields(period: string, number: string, color: string)
    ensures var fields := Item(period, number, color).fields;
      && PeriodKey(Lookup(fields, "period")) == Some(period)
      && NewRecord(period, fields) == Record(period, number, color)
  {
    var fields := Item(period, number, color).fields;
    assert fields[1..] == [("number", Str(number)), ("color", Str(color))];
    assert fields[1..][1..] == [("color", Str(color))];
    assert "period" != "number" && "period" != "color" && "number" != "color" by {
      assert |"color"| == 5 && |"period"| == 6 && "period"[0] != "number"[0];
    }
    assert Lookup(fields, "period") == Some(Str(period));
    assert Lookup(fields[1..], "number") == Some(Str(number));
    assert Lookup(fields, "number") == Some(Str(number));
    assert Lookup(fields[1..][1..], "color") == Some(Str(color));
    assert Lookup(fields[1..], "color") == Some(Str(color));
    assert Lookup(fields, "color") == Some(Str(color));
  }

  /** A dict item with a new period stages its row. */
  lemma StageNew(rows: seq<Record>, items: seq<Value>, staged: seq<Record>, period: string, number: string, color: string)
    requires Stage(rows, items, true) == Ok(staged)
    requires period !in PeriodsOf(rows + staged)
    ensures Stage(rows, items + [Item(period, number, color)], true) == Ok(staged + [Record(period, number, color)])
  {
    var all := items + [Item(period, number, color)];
    assert all[..|all| - 1] == items;
    ItemFields(period, number, color);
  }

  /** A dict item whose period is stored or staged stages nothing. */
  lemma StageSeen(rows: seq<Record>, items: seq<Value>, staged: seq<Record>, period: string, number: string, color: string)
    requires Stage(rows, items, true) == Ok(staged)
    requires period in PeriodsOf(rows + staged)
    ensures Stage(rows, items + [Item(period, number, color)], true) == Ok(staged)
  {
    var all := items + [Item(period, number, color)];
    assert all[..|all| - 1] == items;
    ItemFields(period, number, color);
  }

  /** An item that is not a dict raises at its own index. */
  lemma StageNotDict(rows: seq<Record>, items: seq<Value>, staged: seq<Record>, v: Value, online: bool)
    requires Stage(rows, items, online) == Ok(staged) && !v.Object?
    ensures Stage(rows, items + [v], online) == Err(ItemNotADict(|items|))
  {
    var all := items + [v];
    assert all[..|all| - 1] == items;
  }

  /** The commit accepts one more row that fits and has a new period. */
  lemma CommitFresh(rows: seq<Record>, staged: seq<Record>, r: Record)
    requires CommitCheck(rows, staged, true) == None
    requires Fits(r) && r.period !in PeriodsOf(rows + staged)
    ensures CommitCheck(rows, staged + [r], true) == None
  {
    assert (staged + [r])[..|staged|] == staged;
  }

  /** An empty table and two new items with distinct periods that fit their
      columns: both are stored, in payload order. */
  lemma TwoNewItems(p: string, n: string, c: string, q: string, m: string, d: string)
    requires p != q && Fits(Record(p, n, c)) && Fits(Record(q, m, d))
    ensures Cycle([], Payload(Array([Item(p, n, c), Item(q, m, d)])), true)
            == CycleResult([Record(p, n, c), Record(q, m, d)], Stored(2))
  {
    var none: seq<Record> := [];
    StageTwoNew(p, n, c, q, m, d);
    CommitTwo(none, Record(p, n, c), Record(q, m, d));
    CycleOfItems(none, [Item(p, n, c), Item(q, m, d)], true);
    assert none + [Record(p, n, c), Record(q, m, d)] == [Record(p, n, c), Record(q, m, d)];
  }

  /** Two rows with distinct new periods that fit their columns commit. */
  lemma CommitTwo(rows: seq<Record>, a: Record, b: Record)
    requires UniquePeriods(rows) && a.period !in PeriodsOf(rows) && b.period !in PeriodsOf(rows)
    requires a.period != b.period && Fits(a) && Fits(b)
    ensures CommitCheck(rows, [a, b], true) == None
  {
    AppendFresh(rows, a);
    AppendFresh(rows + [a], b);
    assert rows + [a] + [b] == rows + [a, b];
    var pending := [a, b];
    assert forall k :: 0 <= k < |pending| ==> Fits(pending[k]);
  }

  /** The first dict item against an empty table stages its row. */
  lemma StageFirstNew(p: string, n: string, c: string)
    ensures Stage([], [Item(p, n, c)], true) == Ok([Record(p, n, c)])
  {
    var none: seq<Record> := [];
    assert Stage(none, [], true) == Ok([]);
    StageNew(none, [], [], p, n, c);
    assert [] + [Record(p, n, c)] == [Record(p, n, c)] && [] + [Item(p, n, c)] == [Item(p, n, c)];
  }

  /** Two dict items with distinct periods against an empty table stage both rows, in order. */
  lemma StageTwoNew(p: string, n: string, c: string, q: string, m: string, d: string)
    requires p != q
    ensures Stage([], [Item(p, n, c), Item(q, m, d)], true) == Ok([Record(p, n, c), Record(q, m, d)])
  {
    var a := Record(p, n, c);
    var none: seq<Record> := [];
    StageFirstNew(p, n, c);
    assert PeriodsOf(none + [a]) == {p} by {
      assert none + [a] == [a];
    }
    StageNew(none, [Item(p, n, c)], [a], q, m, d);
    assert [Item(p, n, c)] + [Item(q, m, d)] == [Item(p, n, c), Item(q, m, d)];
    assert [a] + [Record(q, m, d)] == [a, Record(q, m, d)];
  }

  /** The page lists the later period first. */
  lemma TwoRowsPage(a: Record, b: Record)
    requires StringOrder.LessEq(a.period, b.period) && a.period != b.period
    ensures Index([a, b], QueryOk).results == [b, a]
  {
    var rows := [a, b];
    assert rows[1..] == [b];
    assert SortDesc([b]) == [b] by { assert [b][1..] == []; }
    if StringOrder.LessEq(b.period, a.period) {
      StringOrder.LessEqAntisymmetric(a.period, b.period);
    }
    assert SortDesc(rows) == Insert(a, [b]) == [b, a];
  }

  /** A stored period is not stored again: with a row for period `p` in the
      table, a payload of `p` and a new period `q` stores `q` alone and
      leaves the stored row as it was. */
  lemma OneAlreadyStored(stored: Record, n: string, c: string, q: string, m: string, d: string)
    requires q != stored.period && Fits(Record(q, m, d))
    ensures Cycle([stored], Payload(Array([Item(stored.period, n, c), Item(q, m, d)])), true)
            == CycleResult([stored, Record(q, m, d)], Stored(1))
  {
    StageSeenThenNew(stored, n, c, q, m, d);
    CommitBeside(stored, Record(q, m, d));
    CycleOfItems([stored], [Item(stored.period, n, c), Item(q, m, d)], true);
  }

  /** A fitting row with a period other than the stored one commits. */
  lemma CommitBeside(stored: Record, r: Record)
    requires r.period != stored.period && Fits(r)
    ensures CommitCheck([stored], [r], true) == None
  {
    assert CommitCheck([stored], [], true) == None;
    assert [stored] + [] == [stored] && PeriodsOf([stored]) == {stored.period};
    CommitFresh([stored], [], r);
    assert [] + [r] == [r];
  }

  /** The stored period is skipped and the new one staged. */
  lemma StageSeenThenNew(stored: Record, n: string, c: string, q: string, m: string, d: string)
    requires q != stored.period
    ensures Stage([stored], [Item(stored.period, n, c), Item(q, m, d)], true) == Ok([Record(q, m, d)])
  {
    var r := Record(q, m, d);
    var first := [Item(stored.period, n, c)];
    StageStoredOnly(stored, n, c);
    assert PeriodsOf([stored] + []) == {stored.period} by {
      assert [stored] + [] == [stored];
    }
    StageNew([stored], first, [], q, m, d);
    assert first + [Item(q, m, d)] == [Item(stored.period, n, c), Item(q, m, d)];
    assert [] + [r] == [r];
  }

  /** An item repeating the stored period stages nothing. */
  lemma StageStoredOnly(stored: Record, n: string, c: string)
    ensures Stage([stored], [Item(stored.period, n, c)], true) == Ok([])
  {
    assert Stage([stored], [], true) == Ok([]);
    assert stored.period in PeriodsOf([stored] + []) by {
      assert [stored] + [] == [stored];
    }
    StageSeen([stored], [], [], stored.period, n, c);
    assert [] + [Item(stored.period, n, c)] == [Item(stored.period, n, c)];
  }

  /** A period repeated inside one batch is staged once: autoflush lets the
      second lookup see the first row, which wins. */
  lemma RepeatedInBatch(p: string, n: string, c: string, m: string, d: string)
    requires Fits(Record(p, n, c))
    ensures Cycle([], Payload(Array([Item(p, n, c), Item(p, m, d)])), true)
            == CycleResult([Record(p, n, c)], Stored(1))
  {
    var a := Record(p, n, c);
    var none: seq<Record> := [];
    StageFirstNew(p, n, c);
    assert p in PeriodsOf(none + [a]) by {
      assert none + [a] == [a];
    }
    StageSeen(none, [Item(p, n, c)], [a], p, m, d);
    assert [Item(p, n, c)] + [Item(p, m, d)] == [Item(p, n, c), Item(p, m, d)];
    assert CommitCheck(none, [], true) == None;
    CommitFresh(none, [], a);
    assert [] + [a] == [a];
    CycleOfItems(none, [Item(p, n, c), Item(p, m, d)], true);
    assert none + [a] == [a];
  }

  /** An item that is not a dict raises inside the loop: the row staged
      before it is rolled back and the table is unchanged. */
  lemma NonDictRollsBack(p: string, n: string, c: string, v: Value)
    requires !v.Object?
    ensures Cycle([], Payload(Array([Item(p, n, c), v])), true)
            == CycleResult([], Failed(ItemNotADict(1)))
  {
    var none: seq<Record> := [];
    StageFirstNew(p, n, c);
    StageNotDict(none, [Item(p, n, c)], [Record(p, n, c)], v, true);
    assert [Item(p, n, c)] + [v] == [Item(p, n, c), v];
    CycleOfItems(none, [Item(p, n, c), v], true);
  }
}
