# KBT results poller — a Dafny model of its ingestion core

The repository is a small Flask service (`app.py`). Every 60 seconds a
background job, `fetch_and_store_data`, asks an external API for the latest
results and stores each result whose `period` it has not seen. Each result
becomes a row `(period, number, color)` of the `KbtResult` table. The page
`/` shows the 100 rows with the greatest periods. At start-up the service
rebuilds `DATABASE_URL` into a `postgresql+psycopg2://` URL for SQLAlchemy.

The model covers three pieces:

- **The ingestion cycle** (`ingest.dfy`, `ingest_lemmas.dfy`). `Ingest.Store`
  is a class holding the committed rows (`rows`) and the rows added to the
  SQLAlchemy session but not yet committed (`pending`). Its methods are the
  operations the job uses: the existence query, `session.add`, `commit` and
  `rollback`. `Store.FetchAndStore` is the job's loop, proved equal to the
  specification function `Ingest.Cycle`. The lemmas about `Cycle` state what
  the job promises:
  - the table's periods stay unique;
  - the table is only ever appended to, and the count is the number of rows appended;
  - a failed or empty cycle leaves the table exactly as it was;
  - every stored row is `str` of an item's fields;
  - an item without a period is dropped without effect on the others;
  - running the same payload twice stores nothing the second time.
- **The page query** (`read_view.dfy`). `ReadView.Index` returns the first 100
  rows in descending period order, or no rows and an error message when the
  query fails.
- **The start-up configuration** (`config.dfy`). `Config.Configure` rejects a
  missing or empty `DATABASE_URL` and rebuilds the URL from its parsed parts.
  A small parser shows that the rebuilt URL reads back as those parts.

Supporting modules: `Json` (the decoded payload and Python's `str` of it),
`Decimal` (Python's `str` of an integer), `StringOrder` (the order of
`ORDER BY period DESC`), `Records` (the row and the table's constraints),
`Wrappers` (Option, Result) and `Scenarios` (runs on two-item payloads).

Modelling decisions:

- **Existence-check key.** The existence query filters on the raw
  `period` value (app.py:72), but the row stores `str(period)` (app.py:76).
  The model keys both on `str(period)`. The two agree whenever the API sends
  periods as strings.
- **Duplicates inside one batch.** SQLAlchemy sessions autoflush by
  default, so each existence query first sends the rows added so far. The
  query therefore sees committed and pending rows alike. A period repeated
  inside one batch is staged once (`Scenarios.RepeatedInBatch`).
- **Rows too wide for their columns.** Autoflush can send such a row at a
  later query instead of at the commit. Either way the exception rolls back
  the whole batch, so the model checks column widths at the commit. Only
  the table is modelled exactly in this case. The source raises at the
  first existence query after such a row is added, so the error the model
  reports in `Outcome.Failed` may differ: it can name a later item or the
  commit.
- **Database availability.** One flag, `online`, says whether the database
  answers during a cycle. When it does not, the first existence query raises
  and the batch is rolled back. Within a cycle a row is staged only after its
  query was answered, so the commit never runs against a database that is
  down; `Ingest.CommitCheck` still reports that case for a commit on its own.
- **What the code does in three places where a reader might expect otherwise:**
  - A unique-constraint failure at commit (app.py:84, app.py:101-103) rolls
    back the whole batch; no record is kept or skipped on its own.
  - A key holding `null` is stringified to `"None"` (app.py:77-78); the
    placeholder `"N/A"` is used only when the key is missing.
  - A malformed `DATABASE_URL` is rejected only when reading its parsed
    parts raises (app.py:24-31); a URL with missing parts is rebuilt with
    `None` in their place.

## Model

| member | source | states |
|---|---|---|
| Decimal.NatToString | app.py:27 | the port is printed as a non-empty string of decimal digits, with no leading zero except for 0 itself |
| Decimal.ParseNatToString | app.py:27 | the printed port reads back as the same number |
| Decimal.IntToString | app.py:76-78 | `str()` of an integer field starts with '-' exactly when it is negative, and is the plain numeral otherwise |
| Decimal.IntToStringInjective | app.py:76 | two different integer periods are stored under different keys |
| StringOrder.LessEqReflexive | app.py:115 | the order used by `order_by(period.desc())` is reflexive |
| StringOrder.LessEqTotal | app.py:115 | any two periods are comparable |
| StringOrder.LessEqAntisymmetric | app.py:115 | two periods ordered both ways are equal |
| StringOrder.LessEqTransitive | app.py:115 | the order is transitive |
| Json.Lookup | app.py:70 | `item.get(key)` is None exactly when no field has that key; otherwise it is the value of a field with that key |
| Json.Render | app.py:76-78 | `str()` of a string is the string itself; nested in a list or dict it is the string between two quote characters; a list prints between brackets and a dict between braces |
| Json.Text | app.py:76-78 | `str()` of a string is the string, of null is "None", and is "N/A" only for the string "N/A" |
| Json.FieldText | app.py:77-78 | `str(item.get(key, 'N/A'))` is `str` of the field's value when the key is present, and is "N/A" exactly when the key is missing or holds the string "N/A" |
| Records.AppendFresh | app.py:44 | adding a row whose period is not stored keeps `period` unique and adds exactly that period |
| Records.PeriodsOfAppend | app.py:44 | appending a row adds exactly its period to the table's periods |
| Ingest.NewRecord | app.py:75-79 | the new row's period is the item's key; `number` and `color` are `str` of the item's values, and "N/A" exactly when the key is missing or holds "N/A" |
| Ingest.Step | app.py:69-81 | one item raises exactly when it is not a dict (naming its index) or the database is down; otherwise it stages a row exactly when its period is present and neither stored nor staged, keyed on that period |
| Ingest.Stage | app.py:69-81 | the loop stages at most one row per item; its exception is a non-dict item or a database that is down, and it always raises on a non-empty payload when the database is down |
| Ingest.FirstViolation | app.py:44-46 | a reported violation is a staged row too wide for its columns or a staged period |
| Ingest.DuplicateIsRepeat | app.py:44 | a reported duplicate period belongs to a staged row whose period is already in the table or in an earlier staged row |
| Ingest.CommitCheck | app.py:84 | with the database up and a table of unique periods, the commit succeeds exactly when every staged row fits and all periods stay unique; it fails as unavailable exactly when the database is down |
| Ingest.Cycle | app.py:53-103 | a cycle only appends to the table; the count is the number of rows appended; a failed or empty cycle leaves the table as it was; unique periods stay unique |
| Ingest.PeriodKey | app.py:70-73 | an item has no key exactly when `period` is missing or null |
| Ingest.StageErrorIsFinal | app.py:69-70 | an exception raised by one item ends the whole batch with that exception |
| Ingest.FirstViolationExactly | app.py:44-46 | the table accepts a batch exactly when all periods stay unique and every value fits its column width |
| Ingest.Store.constructor | app.py:128-130 | the store starts from a table with unique periods and an empty session |
| Ingest.Store.Exists | app.py:72 | the query finds a committed or pending row with that period; a None period finds nothing; the query raises when the database is down |
| Ingest.Store.Add | app.py:80 | `session.add` appends the row to the pending rows and leaves the table alone |
| Ingest.Store.Commit | app.py:84 | either every pending row is appended to the table and the session is emptied, or nothing changes and the error is the first violation; the table's periods stay unique |
| Ingest.Store.Rollback | app.py:93-103 | every pending row is discarded and the table is unchanged |
| Ingest.Store.FetchAndStore | app.py:53-103 | the job leaves the table and returns the outcome that `Cycle` gives, with an empty session and unique periods |
| IngestLemmas.StagedRowsComeFromItems | app.py:75-79 | every staged row comes from an item: its period is `str` of the item's period, and `number` and `color` are `str` of the item's values ("N/A" only for a missing key; null gives "None") |
| IngestLemmas.StageCoversItems | app.py:69-81 | after a loop without exceptions, every item was a dict, and the period of every item that has one is stored or staged |
| IngestLemmas.StageKeepsPeriodsUnique | app.py:72-73 | an item whose period is already stored or staged is not staged, so stored and staged periods are all distinct |
| IngestLemmas.StageOkOnDicts | app.py:69-81 | with the database up, a payload whose items are all dicts goes through the loop without an exception |
| IngestLemmas.StageErrNamesItem | app.py:69-70 | a "not a dict" exception names the index of an item of the payload that is not a dict |
| IngestLemmas.CycleStoresDicts | app.py:67-85 | with the database up and unique periods in the table, a non-empty list of dicts is stored, or refused only for a value too wide for its column |
| IngestLemmas.StageNothingNew | app.py:72-73 | a batch of dicts whose periods are all stored stages nothing |
| IngestLemmas.NoDuplicateReported | app.py:44 | when the periods of table and batch are all distinct, the commit reports no duplicate period |
| IngestLemmas.CycleNeverDuplicates | app.py:72-73 | on a table with unique periods, a cycle never fails on the unique constraint: the existence check keeps duplicates out of the batch |
| IngestLemmas.CycleStoresItems | app.py:69-85 | after a successful cycle every new row comes from an item, and every dict item's period is in the table |
| IngestLemmas.CycleIdempotent | app.py:72-73 | a second cycle on the same payload stores nothing and leaves the table unchanged: it reports 0 new rows, or a database error when the database is down |
| IngestLemmas.SkipNonePeriod | app.py:70-73 | removing a dict item whose period is missing or null changes neither what is staged (whenever the database is up or another item remains) nor what is stored, for every payload and database state |
| ReadView.Insert | app.py:115 | inserting into a descending list keeps it descending and adds exactly that row |
| ReadView.SortDesc | app.py:115 | the rows are reordered by period, descending, as a permutation of the table |
| ReadView.Latest | app.py:115 | `limit(n)` gives min(n, size) rows in descending order, taken from the table, and no row left out has a greater period than a row shown |
| ReadView.Index | app.py:111-118 | the page shows min(100, size) rows of the table, in descending order, with the greatest periods and no error; if the query fails it shows no rows and the error message |
| ReadView.LatestUnique | app.py:115 | with unique periods in the table, the page shows no period twice |
| ReadView.EmptyStorePage | app.py:111-115 | an empty table gives an empty page and no error |
| Config.EffectivePort | app.py:27 | `port or 5432` is 5432 when the port is missing or 0, the given port otherwise, and is never 0 |
| Config.RebuildUrl | app.py:27-29 | the URL starts with `postgresql+psycopg2://`; when no other part contains '?', it contains '?' exactly when the query is non-empty |
| Config.DropFirst | app.py:27 | `path[1:]` is the path without its first character, and empty for an empty path |
| Config.Configure | app.py:17-31 | an unset or empty DATABASE_URL is rejected, and only then with that error; a set URL is accepted exactly when its parts could be read, and the engine is then given the rebuilt URL, which starts with `postgresql+psycopg2://` |
| Config.RebuildUrlRoundTrip | app.py:27-29 | the rebuilt URL reads back as user, password, host, the port (5432 by default), the path without its first character, and the query (appended only when non-empty) |
| Scenarios.StageNew | app.py:70-81 | a dict item whose period is neither stored nor staged appends its row to the staged rows |
| Scenarios.StageSeen | app.py:72-73 | a dict item whose period is stored or staged leaves the staged rows as they were |
| Scenarios.StageNotDict | app.py:69-70 | an item that is not a dict ends the loop with an error naming its index |
| Scenarios.CommitFresh | app.py:44-46 | the commit accepts one more row when it fits its columns and its period is new |
| Scenarios.TwoNewItems | app.py:67-85 | on an empty table, two items with distinct periods that fit their columns are both stored, in payload order, and the count is 2 |
| Scenarios.TwoRowsPage | app.py:115 | a two-row table is shown with the greater period first |
| Scenarios.OneAlreadyStored | app.py:72-81 | with one row stored, a payload repeating its period and adding a new one stores only the new row and leaves the stored one as it was |
| Scenarios.RepeatedInBatch | app.py:72-81 | a period repeated inside one payload is stored once, with the first item's values |
| Scenarios.NonDictRollsBack | app.py:69-103 | a non-dict item after a staged row rolls the row back and leaves the table unchanged |

## Left out

- The HTTP request, its 15-second timeout and `raise_for_status` (app.py:63-64) are foreign I/O. Their result is the input `Ingest.Fetch`.
- JSON decoding (app.py:65) is a library parser. The model starts from the decoded value.
  - JSON numbers with a fraction or exponent (Python floats) are not modelled.
  - With recent versions of `requests`, a decode error is caught by the network-error handler. Only the log line differs; both handlers roll back.
- Json.Render: Python's `repr` of a string nested in a list or dict is modelled as the string between single quotes. The choice of quote character and the escaping of quotes, backslashes and non-printable characters are not modelled.
- `urlparse` (app.py:25) is a library parser. `Config.Configure` takes the values its attributes return. It takes an error message when reading them raises, for example for a port outside 0-65535.
- Config.RebuildUrlRoundTrip holds only when the user has no ':', the password no '@', the host no ':' and the path no '?'. An IPv6 host does not satisfy this, because `urlparse` strips its brackets.
- The SQLAlchemy engine, sessions and `db.create_all()` (app.py:38, app.py:128-130) are replaced by `Ingest.Store`. The generated `id` column and the `created_at` timestamp (app.py:43, app.py:47) are not modelled.
- Ingest.FirstViolationExactly: Postgres silently truncates an over-long value whose excess characters are all spaces. The model rejects every over-long value instead.
- Ingest.Store.Exists: the query is keyed on `str(period)`, not on the raw value (app.py:72). When a period arrives as any non-string value (a number, a boolean, a list or a dict), the model stores the item under `str(period)`. Postgres would likely reject the comparison of a text column with such a value, raise, and roll back the batch; that path is not modelled.
- Strings containing the NUL character: the Postgres driver refuses them, so in the source a NUL in a period raises at the existence query (app.py:72) and one in `number` or `color` raises at the flush, and the batch rolls back. The model stores such rows; that path is not modelled.
- Ingest.Cycle: database availability is one flag for the whole cycle. A database that fails between two queries is not modelled.
- ReadView.Latest: periods are ordered by code point (the "C" collation). Another database collation may order them differently.
- APScheduler, overlapping cycles, and cycles running concurrently with page reads (app.py:134-136) are not modelled. The unique constraint checked by `Ingest.Store.Commit` is the backstop that overlapping cycles would rely on.
- `print` logging, `render_template`, the IST "last updated" timestamp and `app.run` (app.py:106, app.py:120-124, app.py:140) are UI, clock and I/O.
