/** What one ingestion cycle guarantees about the table, proved about the
    specification `Ingest.Cycle` that `Ingest.Store.FetchAndStore` implements. */
module IngestLemmas {
  import opened Wrappers
  import opened Json
  import opened Records
  import opened Ingest

  /** `r` is the row the job builds from `item`: the item is a dict with a
      non-null period, the row's period is `str` of it, and `number` and
      `color` are `str` of the item's values, "N/A" only for a missing key. */
  predicate FromItem(r: Record, item: Value) {
    && item.Object?
    && PeriodKey(Lookup(item.fields, "period")) == Some(r.period)
    && r.number == (match Lookup(item.fields, "number") case None => "N/A" case Some(v) => Text(v))
    && r.color == (match Lookup(item.fields, "color") case None => "N/A" case Some(v) => Text(v))
  }

  /** The period the item would be stored under, when it has one. */
  function ItemKey(item: Value): Option<string>
    requires item.Object?
  {
    PeriodKey(Lookup(item.fields, "period"))
  }

  /** Every staged row was built from one of the items. */
  lemma {:induction false} StagedRowsComeFromItems(rows: seq<Record>, items: seq<Value>, online: bool)
    requires Stage(rows, items, online).Ok?
    ensures forall k :: 0 <= k < |Stage(rows, items, online).value| ==>
              exists i :: 0 <= i < |items| && FromItem(Stage(rows, items, online).value[k], items[i])
  {
    if items != [] {
      var n := |items| - 1;
      var init := items[..n];
      StagedRowsComeFromItems(rows, init, online);
      var staged := Stage(rows, init, online).value;
      var st := Stage(rows, items, online).value;
      forall k | 0 <= k < |st|
        ensures exists i :: 0 <= i < |items| && FromItem(st[k], items[i])
      {
        if k < |staged| {
          assert st[k] == staged[k];
          var i :| 0 <= i < |init| && FromItem(staged[k], init[i]);
          assert init[i] == items[i];
        } else {
          assert FromItem(st[k], items[n]);
        }
      }
    }
  }

  /** When the loop ends without an exception, every item was a dict and the
      period of every item that has one is stored or staged. */
  lemma {:induction false} StageCoversItems(rows: seq<Record>, items: seq<Value>, online: bool)
    requires Stage(rows, items, online).Ok?
    ensures forall i :: 0 <= i < |items| ==>
              items[i].Object? && (ItemKey(items[i]).Some? ==> ItemKey(items[i]).value in PeriodsOf(rows + Stage(rows, items, online).value))
  {
    if items != [] {
      var n := |items| - 1;
      var init := items[..n];
      StageCoversItems(rows, init, online);
      var staged := Stage(rows, init, online).value;
      var st := Stage(rows, items, online).value;
      assert PeriodsOf(rows + staged) <= PeriodsOf(rows + st) by {
        if st != staged {
          assert rows + st == (rows + staged) + [st[|st| - 1]];
          PeriodsOfAppend(rows + staged, st[|st| - 1]);
        }
      }
      forall i | 0 <= i < |items|
        ensures items[i].Object? && (ItemKey(items[i]).Some? ==> ItemKey(items[i]).value in PeriodsOf(rows + st))
      {
        if i < n {
          assert items[i] == init[i];
        } else if ItemKey(items[n]).Some? && ItemKey(items[n]).value !in PeriodsOf(rows + staged) {
          assert rows + st == (rows + staged) + [st[|st| - 1]];
          PeriodsOfAppend(rows + staged, st[|st| - 1]);
        }
      }
    }
  }

  /** An item whose period is stored or staged is skipped, so the staged
      rows never repeat a period and never repeat a stored one. */
  lemma {:induction false} StageKeepsPeriodsUnique(rows: seq<Record>, items: seq<Value>, online: bool)
    requires UniquePeriods(rows) && Stage(rows, items, online).Ok?
    ensures UniquePeriods(rows + Stage(rows, items, online).value)
  {
    if items != [] {
      var init := items[..|items| - 1];
      StageKeepsPeriodsUnique(rows, init, online);
      var staged := Stage(rows, init, online).value;
      var st := Stage(rows, items, online).value;
      if st != staged {
        assert rows + st == (rows + staged) + [st[|st| - 1]];
        AppendFresh(rows + staged, st[|st| - 1]);
      }
    }
  }

  /** With the database up, a batch of dicts gets through the loop: nothing
      but a non-dict item or a database that is down raises. */
  lemma {:induction false} StageOkOnDicts(rows: seq<Record>, items: seq<Value>)
    requires forall i :: 0 <= i < |items| ==> items[i].Object?
    ensures Stage(rows, items, true).Ok?
  {
    if items != [] {
      var init := items[..|items| - 1];
      assert forall i :: 0 <= i < |init| ==> init[i] == items[i];
      StageOkOnDicts(rows, init);
    }
  }

  /** The `ItemNotADict` the loop raises names an item that is not a dict. */
  lemma {:induction false} StageErrNamesItem(rows: seq<Record>, items: seq<Value>, online: bool)
    requires Stage(rows, items, online).Err? && Stage(rows, items, online).error.ItemNotADict?
    ensures Stage(rows, items, online).error.index < |items|
    ensures !items[Stage(rows, items, online).error.index].Object?
  {
    var init := items[..|items| - 1];
    if Stage(rows, init, online).Err? {
      StageErrNamesItem(rows, init, online);
      assert init[Stage(rows, init, online).error.index] == items[Stage(rows, init, online).error.index];
    }
  }

  /** With the database up, a non-empty list of dicts on a table with unique
      periods is either stored or refused only for a value too wide for its
      column. */
  lemma CycleStoresDicts(rows: seq<Record>, items: seq<Value>)
    requires UniquePeriods(rows) && |items| > 0
    requires forall i :: 0 <= i < |items| ==> items[i].Object?
    ensures var res := Cycle(rows, Payload(Array(items)), true);
      res.outcome.Stored? || (res.outcome.Failed? && res.outcome.error.DatabaseError? && res.outcome.error.reason.ValueTooLong?)
  {
    CycleOfItems(rows, items, true);
    StageOkOnDicts(rows, items);
    StageKeepsPeriodsUnique(rows, items, true);
    NoDuplicateReported(rows, Stage(rows, items, true).value);
  }

  /** A batch whose every item is a dict whose period, if any, is already
      stored stages nothing. */
  lemma {:induction false} StageNothingNew(rows: seq<Record>, items: seq<Value>, online: bool)
    requires online
    requires forall i :: 0 <= i < |items| ==>
               items[i].Object? && (ItemKey(items[i]).Some? ==> ItemKey(items[i]).value in PeriodsOf(rows))
    ensures Stage(rows, items, online) == Ok([])
  {
    if items != [] {
      var init := items[..|items| - 1];
      assert forall i :: 0 <= i < |init| ==> init[i] == items[i];
      StageNothingNew(rows, init, online);
      assert rows + [] == rows;
    }
  }

  /** With the staged rows' periods unique, the commit can only refuse a
      value too wide for its column, never a repeated period. */
  lemma {:induction false} NoDuplicateReported(rows: seq<Record>, pending: seq<Record>)
    requires UniquePeriods(rows + pending)
    ensures FirstViolation(rows, pending).None? || FirstViolation(rows, pending).value.ValueTooLong?
  {
    if pending != [] {
      var init, r := pending[..|pending| - 1], pending[|pending| - 1];
      assert rows + pending == (rows + init) + [r];
      assert UniquePeriods(rows + init) by {
        assert forall k :: 0 <= k < |rows + init| ==> (rows + init)[k] == (rows + pending)[k];
      }
      NoDuplicateReported(rows, init);
      assert r.period !in PeriodsOf(rows + init) by {
        forall k | 0 <= k < |rows + init|
          ensures (rows + init)[k].period != r.period
        {
          assert (rows + init)[k] == (rows + pending)[k];
          assert r == (rows + pending)[|rows + pending| - 1];
        }
      }
    }
  }

  /** The existence check keeps the unique constraint on `period` from ever
      firing: starting from a table with unique periods, a cycle never fails
      with a repeated period. */
  lemma CycleNeverDuplicates(rows: seq<Record>, fetched: Fetch, online: bool)
    requires UniquePeriods(rows)
    ensures var res := Cycle(rows, fetched, online);
      !(res.outcome.Failed? && res.outcome.error.DatabaseError? && res.outcome.error.reason.DuplicatePeriod?)
  {
    if fetched.Payload? && fetched.data.Array? && |fetched.data.items| > 0 {
      var items := fetched.data.items;
      CycleOfItems(rows, items, online);
      if Stage(rows, items, online).Ok? {
        StageKeepsPeriodsUnique(rows, items, online);
        NoDuplicateReported(rows, Stage(rows, items, online).value);
      }
    }
  }

  /** A successful cycle stores only rows built from the payload's items:
      each new row is `str` of an item's fields, with "N/A" only for a
      missing key, and a row for every dict item whose period was not stored. */
  lemma CycleStoresItems(rows: seq<Record>, items: seq<Value>, online: bool)
    requires Cycle(rows, Payload(Array(items)), online).outcome.Stored?
    ensures var after := Cycle(rows, Payload(Array(items)), online).rows;
      && |after| >= |rows|
      && (forall k :: |rows| <= k < |after| ==> exists i :: 0 <= i < |items| && FromItem(after[k], items[i]))
      && (forall i :: 0 <= i < |items| ==>
            items[i].Object? && (ItemKey(items[i]).Some? ==> ItemKey(items[i]).value in PeriodsOf(after)))
  {
    var staged := Stage(rows, items, online).value;
    StagedRowsComeFromItems(rows, items, online);
    StageCoversItems(rows, items, online);
    var after := Cycle(rows, Payload(Array(items)), online).rows;
    assert after == rows + staged;
    forall k | |rows| <= k < |after|
      ensures exists i :: 0 <= i < |items| && FromItem(after[k], items[i])
    {
      assert after[k] == staged[k - |rows|];
    }
  }

  /** Running the cycle again on the payload it has just stored stores
      nothing and commits nothing; the table stays as the first run left it
      (when the database is down the second run fails at its first query). */
  lemma CycleIdempotent(rows: seq<Record>, data: Value, online: bool, onlineAgain: bool)
    requires Cycle(rows, Payload(data), online).outcome.Stored?
    ensures var after := Cycle(rows, Payload(data), online).rows;
      Cycle(after, Payload(data), onlineAgain)
        == CycleResult(after, if onlineAgain then Stored(0) else Failed(DatabaseError(StoreUnavailable)))
  {
    var items := data.items;
    var staged := Stage(rows, items, online).value;
    var after := Cycle(rows, Payload(data), online).rows;
    assert after == rows + staged;
    StageCoversItems(rows, items, online);
    if onlineAgain {
      StageNothingNew(after, items, onlineAgain);
    } else {
      assert items[..1][..0] == [] && items[..1][0] == items[0];
      assert Stage(after, items[..1], onlineAgain) == Err(DatabaseError(StoreUnavailable));
      StageErrorIsFinal(after, items, onlineAgain, 1);
    }
  }

  /** The items with the one at `i` removed. */
  function Without(items: seq<Value>, i: nat): seq<Value>
    requires i < |items|
  {
    items[..i] + items[i + 1..]
  }

  /** What the loop staged, forgetting where an exception came from. */
  function StagedOrNone(r: Result<seq<Record>, CycleError>): Option<seq<Record>> {
    if r.Ok? then Some(r.value) else None
  }

  /** The item without a period leaves what is staged as it was. */
  lemma SkipNoneStep(rows: seq<Record>, items: seq<Value>, online: bool, i: nat)
    requires online && i < |items|
    requires items[i].Object? && IsNone(Lookup(items[i].fields, "period"))
    ensures StagedOrNone(Stage(rows, items[..i + 1], online)) == StagedOrNone(Stage(rows, items[..i], online))
  {
    if Stage(rows, items[..i], online).Ok? {
      StageNext(rows, items, online, i);
    } else {
      assert items[..i + 1][..i] == items[..i];
      StageErrorIsFinal(rows, items[..i + 1], online, i);
    }
  }

  /** Two loops that staged the same rows so far and meet the same item
      stage the same rows after it; only an error's index can differ. */
  lemma SameItemNext(rows: seq<Record>, a: seq<Value>, b: seq<Value>, online: bool, m: nat, n: nat)
    requires m < |a| && n < |b| && a[m] == b[n]
    requires StagedOrNone(Stage(rows, a[..m], online)) == StagedOrNone(Stage(rows, b[..n], online))
    ensures StagedOrNone(Stage(rows, a[..m + 1], online)) == StagedOrNone(Stage(rows, b[..n + 1], online))
  {
    if Stage(rows, a[..m], online).Ok? {
      StageNext(rows, a, online, m);
      StageNext(rows, b, online, n);
    } else {
      assert a[..m + 1][..m] == a[..m];
      StageErrorIsFinal(rows, a[..m + 1], online, m);
      assert b[..n + 1][..n] == b[..n];
      StageErrorIsFinal(rows, b[..n + 1], online, n);
    }
  }

  lemma {:induction false} SkipNonePeriodPrefix(rows: seq<Record>, items: seq<Value>, w: seq<Value>, online: bool, i: nat, k: nat)
    requires online && i < k <= |items| && w == Without(items, i)
    requires items[i].Object? && IsNone(Lookup(items[i].fields, "period"))
    ensures StagedOrNone(Stage(rows, items[..k], online)) == StagedOrNone(Stage(rows, w[..k - 1], online))
  {
    if k == i + 1 {
      assert w[..i] == items[..i];
      SkipNoneStep(rows, items, online, i);
    } else {
      SkipNonePeriodPrefix(rows, items, w, online, i, k - 1);
      assert w[k - 2] == items[k - 1] by {
        assert w == items[..i] + items[i + 1..];
        assert w[k - 2] == items[i + 1..][k - 2 - i];
      }
      SameItemNext(rows, items, w, online, k - 1, k - 2);
    }
  }

  /** Two non-empty payloads whose loops stage the same rows, or both raise,
      leave the same table. */
  lemma SameStagedSameRows(rows: seq<Record>, a: seq<Value>, b: seq<Value>, online: bool)
    requires |a| > 0 && |b| > 0
    requires StagedOrNone(Stage(rows, a, online)) == StagedOrNone(Stage(rows, b, online))
    ensures Cycle(rows, Payload(Array(a)), online).rows == Cycle(rows, Payload(Array(b)), online).rows
  {
    CycleOfItems(rows, a, online);
    CycleOfItems(rows, b, online);
  }

  /** An item without a period (key missing or null) is dropped without
      effect: removing it from the payload changes nothing that is stored, so
      it never keeps a later item from being stored. What is staged is the
      same too, except for a payload of that item alone: with the database
      down it raises at its query, while the empty payload is refused before
      any query. */
  lemma SkipNonePeriod(rows: seq<Record>, items: seq<Value>, i: nat, online: bool)
    requires i < |items|
    requires items[i].Object? && IsNone(Lookup(items[i].fields, "period"))
    ensures online || |items| > 1 ==>
              StagedOrNone(Stage(rows, items, online)) == StagedOrNone(Stage(rows, Without(items, i), online))
    ensures Cycle(rows, Payload(Array(items)), online).rows == Cycle(rows, Payload(Array(Without(items, i))), online).rows
  {
    var w := Without(items, i);
    if online {
      SkipNonePeriodPrefix(rows, items, w, online, i, |items|);
      assert items[..|items|] == items;
      assert w[..|items| - 1] == w;
    } else if |items| > 1 {
      assert Stage(rows, items, online).Err? && Stage(rows, w, online).Err?;
    }
    if |items| == 1 {
      assert w == [];
      SkipNoneAlone(rows, items, online);
    } else {
      SameStagedSameRows(rows, items, w, online);
    }
  }

  /** A payload of one item without a period leaves the table as it was,
      as the empty payload does. */
  lemma SkipNoneAlone(rows: seq<Record>, items: seq<Value>, online: bool)
    requires |items| == 1 && items[0].Object? && IsNone(Lookup(items[0].fields, "period"))
    ensures Cycle(rows, Payload(Array(items)), online).rows == rows
    ensures Cycle(rows, Payload(Array([])), online).rows == rows
  {
    CycleOfItems(rows, items, online);
    if online {
      SkipNoneStep(rows, items, online, 0);
      assert items[..1] == items && items[..0] == [];
    }
  }
}
