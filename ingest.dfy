/** One run of the scheduled ingestion job: take the API's answer, stage a
    row for every item whose period is not stored yet, and commit the staged
    rows as one transaction, or roll all of them back. */
module Ingest {
  import opened Wrappers
  import opened Json
  import opened Records

  /** What the HTTP request and `response.json()` produced. */
  datatype Fetch =
    | NetworkFailure          // requests raised (timeout, refused connection, non-2xx status)
    | DecodeFailure           // the body was not valid JSON
    | Payload(data: Value)    // the decoded body

  /** Why the database raised. */
  datatype DbError =
    | StoreUnavailable                // the database could not be reached
    | ValueTooLong(row: Record)       // a value is wider than its column
    | DuplicatePeriod(period: string) // the unique constraint on `period`

  /** The exceptions the job catches; each ends the cycle with a rollback. */
  datatype CycleError =
    | NetworkError
    | JsonDecodeError
    | ItemNotADict(index: nat)        // `item.get` on something that is not a dict
    | DatabaseError(reason: DbError)   // a query or the commit raised

  datatype Outcome =
    | Stored(count: nat)              // committed `count` rows; 0 means nothing new
    | InvalidPayload                  // the body was not a list, or an empty one
    | Failed(error: CycleError)

  datatype CycleResult = CycleResult(rows: seq<Record>, outcome: Outcome)

  /** The key the job stores for `item.get('period')`: `str` of the value, or
      None when the key is missing or holds null. */
  function PeriodKey(p: Option<Value>): (k: Option<string>)
    ensures k.None? <==> IsNone(p)
  {
    if IsNone(p) then None else Some(Text(p.value))
  }

  /** The row built from a dict item whose period is `period`. */
  function NewRecord(period: string, fields: seq<(string, Value)>): (r: Record)
    ensures r.period == period
    ensures Lookup(fields, "number").Some? ==> r.number == Text(Lookup(fields, "number").value)
    ensures Lookup(fields, "color").Some? ==> r.color == Text(Lookup(fields, "color").value)
    ensures r.number == "N/A" <==> Lookup(fields, "number").None? || Lookup(fields, "number") == Some(Str("N/A"))
    ensures r.color == "N/A" <==> Lookup(fields, "color").None? || Lookup(fields, "color") == Some(Str("N/A"))
  {
    Record(period, FieldText(fields, "number"), FieldText(fields, "color"))
  }

  /** One iteration of the loop over the items: `seen` is what the existence
      query can see (committed rows and the rows staged so far), `online`
      whether the database answers it. */
  function Step(seen: seq<Record>, item: Value, index: nat, online: bool): (r: Result<Option<Record>, CycleError>)
    ensures r.Err? <==> !item.Object? || !online
    ensures r.Err? ==> r.error == (if !item.Object? then ItemNotADict(index) else DatabaseError(StoreUnavailable))
    ensures r.Ok? && r.value.Some? ==>
              && PeriodKey(Lookup(item.fields, "period")) == Some(r.value.value.period)
              && r.value.value.period !in PeriodsOf(seen)
    ensures r.Ok? && r.value.None? ==>
              PeriodKey(Lookup(item.fields, "period")).None? || PeriodKey(Lookup(item.fields, "period")).value in PeriodsOf(seen)
  {
    if !item.Object? then Err(ItemNotADict(index))
    else if !online then Err(DatabaseError(StoreUnavailable))
    else
      var key := PeriodKey(Lookup(item.fields, "period"));
      if key.None? || key.value in PeriodsOf(seen) then Ok(None)
      else Ok(Some(NewRecord(key.value, item.fields)))
  }

  /** The rows the loop stages for `items` against the committed `rows`, or
      the exception that ends it. */
  function Stage(rows: seq<Record>, items: seq<Value>, online: bool): (r: Result<seq<Record>, CycleError>)
    ensures r.Ok? ==> |r.value| <= |items|
    ensures r.Err? ==> r.error.DatabaseError? || r.error.ItemNotADict?
    ensures r.Err? && r.error.DatabaseError? ==> !online && r.error.reason == StoreUnavailable
    ensures !online && items != [] ==> r.Err?
    decreases |items|
  {
    if items == [] then Ok([])
    else
      match Stage(rows, items[..|items| - 1], online)
      case Err(e) => Err(e)
      case Ok(staged) =>
        match Step(rows + staged, items[|items| - 1], |items| - 1, online)
        case Err(e) => Err(e)
        case Ok(None) => Ok(staged)
        case Ok(Some(r)) => Ok(staged + [r])
  }

  /** An exception ends the loop: once a prefix of the items raises, the
      whole batch raises the same exception. */
  lemma {:induction false} StageErrorIsFinal(rows: seq<Record>, items: seq<Value>, online: bool, j: nat)
    requires j <= |items| && Stage(rows, items[..j], online).Err?
    ensures Stage(rows, items, online) == Stage(rows, items[..j], online)
  {
    if j < |items| {
      var init := items[..|items| - 1];
      assert init[..j] == items[..j];
      StageErrorIsFinal(rows, init, online, j);
    } else {
      assert items[..j] == items;
    }
  }

  /** The loop's next iteration, as Stage sees it. */
  lemma StageNext(rows: seq<Record>, items: seq<Value>, online: bool, i: nat)
    requires i < |items| && Stage(rows, items[..i], online).Ok?
    ensures var staged := Stage(rows, items[..i], online).value;
      Stage(rows, items[..i + 1], online) ==
        match Step(rows + staged, items[i], i, online)
        case Err(e) => Err(e)
        case Ok(None) => Ok(staged)
        case Ok(Some(r)) => Ok(staged + [r])
  {
    assert items[..i + 1][..i] == items[..i];
  }

  /** The first row, in flush order, that the table's constraints refuse. */
  function FirstViolation(rows: seq<Record>, pending: seq<Record>): (r: Option<DbError>)
    ensures r.Some? ==> r.value.ValueTooLong? || r.value.DuplicatePeriod?
    ensures r.Some? && r.value.ValueTooLong? ==> r.value.row in pending && !Fits(r.value.row)
    ensures r.Some? && r.value.DuplicatePeriod? ==> r.value.period in PeriodsOf(pending)
    decreases |pending|
  {
    if pending == [] then None
    else
      match FirstViolation(rows, pending[..|pending| - 1])
      case Some(e) => Some(e)
      case None =>
        var r := pending[|pending| - 1];
        if !Fits(r) then Some(ValueTooLong(r))
        else if r.period in PeriodsOf(rows + pending[..|pending| - 1]) then Some(DuplicatePeriod(r.period))
        else None
  }

  /** A reported duplicate is a pending row whose period is already in the
      table or in an earlier pending row. */
  lemma {:induction false} DuplicateIsRepeat(rows: seq<Record>, pending: seq<Record>)
    requires FirstViolation(rows, pending).Some? && FirstViolation(rows, pending).value.DuplicatePeriod?
    ensures exists k :: 0 <= k < |pending| && pending[k].period == FirstViolation(rows, pending).value.period
                        && pending[k].period in PeriodsOf(rows + pending[..k])
  {
    var n := |pending| - 1;
    var init := pending[..n];
    if FirstViolation(rows, init).Some? {
      DuplicateIsRepeat(rows, init);
      var k :| 0 <= k < |init| && init[k].period == FirstViolation(rows, init).value.period
                 && init[k].period in PeriodsOf(rows + init[..k]);
      assert pending[k] == init[k] && pending[..k] == init[..k];
    } else {
      assert pending[n].period in PeriodsOf(rows + pending[..n]);
    }
  }

  /** What `db.session.commit()` reports for the pending rows. */
  function CommitCheck(rows: seq<Record>, pending: seq<Record>, online: bool): (r: Option<DbError>)
    ensures !online ==> r == Some(StoreUnavailable)
    ensures online && UniquePeriods(rows) ==>
              (r.None? <==> UniquePeriods(rows + pending) && forall k :: 0 <= k < |pending| ==> Fits(pending[k]))
    ensures online ==> r != Some(StoreUnavailable)
  {
    if !online then Some(StoreUnavailable)
    else if UniquePeriods(rows) then
      FirstViolationExactly(rows, pending);
      FirstViolation(rows, pending)
    else FirstViolation(rows, pending)
  }

  /** The table accepts exactly the batches that keep periods unique and fit the columns. */
  lemma {:induction false} FirstViolationExactly(rows: seq<Record>, pending: seq<Record>)
    requires UniquePeriods(rows)
    ensures FirstViolation(rows, pending).None? <==>
            UniquePeriods(rows + pending) && forall k :: 0 <= k < |pending| ==> Fits(pending[k])
  {
    if pending != [] {
      var init, r := pending[..|pending| - 1], pending[|pending| - 1];
      assert pending == init + [r];
      assert rows + pending == (rows + init) + [r];
      FirstViolationExactly(rows, init);
      if FirstViolation(rows, init).None? && Fits(r) && r.period !in PeriodsOf(rows + init) {
        AppendFresh(rows + init, r);
      }
      if UniquePeriods(rows + pending) {
        assert UniquePeriods(rows + init) by {
          assert forall k :: 0 <= k < |rows + init| ==> (rows + init)[k] == (rows + pending)[k];
        }
        assert r.period !in PeriodsOf(rows + init) by {
          forall k | 0 <= k < |rows + init|
            ensures (rows + init)[k].period != r.period
          {
            assert (rows + init)[k] == (rows + pending)[k];
            assert r == (rows + pending)[|rows + pending| - 1];
          }
        }
      }
    }
  }

  /** The whole job, `fetch_and_store_data`, as a function of the committed
      rows before it, what the fetch produced, and whether the database
      answers during the job. */
  function Cycle(rows: seq<Record>, fetched: Fetch, online: bool): (r: CycleResult)
    ensures |rows| <= |r.rows| && r.rows[..|rows|] == rows
    ensures r.outcome.Stored? ==> |r.rows| == |rows| + r.outcome.count
    ensures !r.outcome.Stored? || r.outcome.count == 0 ==> r.rows == rows
    ensures UniquePeriods(rows) ==> UniquePeriods(r.rows)
  {
    match fetched
    case NetworkFailure => CycleResult(rows, Failed(NetworkError))
    case DecodeFailure => CycleResult(rows, Failed(JsonDecodeError))
    case Payload(data) =>
      if !(data.Array? && |data.items| > 0) then CycleResult(rows, InvalidPayload)
      else
        match Stage(rows, data.items, online)
        case Err(e) => CycleResult(rows, Failed(e))
        case Ok(staged) =>
          if |staged| == 0 then CycleResult(rows, Stored(0))
          else
            match CommitCheck(rows, staged, online)
            case Some(e) => CycleResult(rows, Failed(DatabaseError(e)))
            case None => CycleResult(rows + staged, Stored(|staged|))
  }

  /** The job's cycle on a non-empty list, as the match on what the loop staged. */
  lemma CycleOfItems(rows: seq<Record>, items: seq<Value>, online: bool)
    requires |items| > 0
    ensures var staged := Stage(rows, items, online);
      Cycle(rows, Payload(Array(items)), online) ==
        if staged.Err? then CycleResult(rows, Failed(staged.error))
        else if |staged.value| == 0 then CycleResult(rows, Stored(0))
        else if CommitCheck(rows, staged.value, online).Some? then
          CycleResult(rows, Failed(DatabaseError(CommitCheck(rows, staged.value, online).value)))
        else CycleResult(rows + staged.value, Stored(|staged.value|))
  {
    var data := Array(items);
    assert data.Array? && |data.items| > 0;
  }

  /** The table and the SQLAlchemy session in front of it: `rows` are the
      committed rows, `pending` the rows added to the session and not yet
      committed. */
  class Store {
    var rows: seq<Record>
    var pending: seq<Record>

    ghost predicate Valid()
      reads this
    {
      UniquePeriods(rows)
    }

    /** The table as `db.create_all()` finds it at start-up, with an empty session. */
    constructor (existing: seq<Record>)
      requires UniquePeriods(existing)
      ensures Valid() && rows == existing && pending == []
    {
      rows := existing;
      pending := [];
    }

    /** `KbtResult.query.filter_by(period=...).first()`. Autoflush sends the
        pending rows first, so the query sees them; a None period is
        `IS NULL` on a NOT NULL column and matches nothing. The query raises
        when the database does not answer. */
    method Exists(period: Option<string>, online: bool) returns (r: Result<bool, DbError>)
      ensures !online ==> r == Err(StoreUnavailable)
      ensures online ==> r.Ok? && (r.value <==> period.Some? && exists k :: 0 <= k < |rows + pending| && (rows + pending)[k].period == period.value)
    {
      if !online {
        return Err(StoreUnavailable);
      }
      r := Ok(period.Some? && period.value in PeriodsOf(rows + pending));
    }

    /** `db.session.add(row)`. */
    method Add(r: Record)
      modifies this
      ensures rows == old(rows) && pending == old(pending) + [r]
    {
      pending := pending + [r];
    }

    /** `db.session.commit()`: all pending rows become visible, or, when the
        database refuses, none does and the session still holds them. */
    method Commit(online: bool) returns (err: Option<DbError>)
      requires Valid()
      modifies this
      ensures Valid()
      ensures err == CommitCheck(old(rows), old(pending), online)
      ensures err.None? ==> rows == old(rows) + old(pending) && pending == []
      ensures err.Some? ==> rows == old(rows) && pending == old(pending)
    {
      err := CommitCheck(rows, pending, online);
      if err.None? {
        FirstViolationExactly(rows, pending);
        rows := rows + pending;
        pending := [];
      }
    }

    /** `db.session.rollback()`: every pending row is discarded. */
    method Rollback()
      modifies this
      ensures rows == old(rows) && pending == []
    {
      pending := [];
    }

    /** `fetch_and_store_data`, from the point where the HTTP call and JSON
        decoding have produced `fetched`. */
    method FetchAndStore(fetched: Fetch, online: bool) returns (outcome: Outcome)
      requires Valid() && pending == []
      modifies this
      ensures Valid() && pending == []
      ensures CycleResult(rows, outcome) == Cycle(old(rows), fetched, online)
    {
      match fetched {
        case NetworkFailure =>
          Rollback();
          return Failed(NetworkError);
        case DecodeFailure =>
          Rollback();
          return Failed(JsonDecodeError);
        case Payload(data) =>
          if !(data.Array? && |data.items| > 0) {
            return InvalidPayload;
          }
          var items := data.items;
          var count := 0;
          var i := 0;
          while i < |items|
            invariant 0 <= i <= |items|
            invariant rows == old(rows)
            invariant Stage(rows, items[..i], online) == Ok(pending)
            invariant count == |pending|
          {
            var item := items[i];
            StageNext(rows, items, online, i);
            if !item.Object? {
              StageErrorIsFinal(rows, items, online, i + 1);
              Rollback();
              return Failed(ItemNotADict(i));
            }
            var periodId := PeriodKey(Lookup(item.fields, "period"));
            var found := Exists(periodId, online);
            if found.Err? {
              StageErrorIsFinal(rows, items, online, i + 1);
              Rollback();
              return Failed(DatabaseError(found.error));
            }
            if !found.value && periodId.Some? {
              Add(NewRecord(periodId.value, item.fields));
              count := count + 1;
            }
            i := i + 1;
          }
          assert items[..|items|] == items;
          if count > 0 {
            var err := Commit(online);
            if err.Some? {
              Rollback();
              return Failed(DatabaseError(err.value));
            }
          }
          return Stored(count);
      }
    }
  }
}
