# Races and sports-events repositories: query construction and row mapping

This project models the database layer of two read-only gRPC services: the
races repository (`racing/db/races.go`) and the sports-events repository
(`sports/db/sports.go`). Each repository builds a parameterised SQL
statement from a request, hands it to the database, and maps the result
cursor into protobuf records. The model covers:

- **Filter clause builders** (`applyFilter`). Each id list becomes an
  `IN (?,...,?)` clause with one `?` per id, and the ids become the bind
  arguments in the same order. The races visibility flag becomes the
  literal `visible=1` or `visible=0`, with no argument. Clauses are joined
  by ` AND ` behind one ` WHERE `. The key invariant is proved: the
  placeholders appended equal the arguments returned (`FilterAligned`).
- **Sort clause builder** (`applySorting`, races only). The option list
  becomes ` ORDER BY f1 DIR,f2 DIR` in caller order. Entries whose
  direction is neither ASC nor DESC are dropped. A non-nil list appends
  ` ORDER BY ` even when no term survives. Field names are not validated.
- **Row mappers** (`scanRaces` in both files). A cursor becomes one record
  per row, in cursor order. The first scan or timestamp-conversion error
  aborts the scan with no partial list. A scan error equal to
  `sql.ErrNoRows` yields an empty list and no error. Races also get a
  derived status: OPEN exactly when the start time is non-zero and
  strictly after now.
- **Repository operations**. `List` applies the filter, then (for races)
  the sorting, queries, and maps the rows; errors pass through unchanged.
  `GetRace` queries by id and returns the one matching race, or a default
  race for a missing id or any other row count.

The Go code builds `clauses`, `args` and `sort` slices in loops and extends
the query string with `+=`. The model keeps that form: each builder and
mapper is a Dafny `method` with a `while` loop, proved equal to a
specification function (`FilterSuffix`/`FilterArgs`, `OrderBy`,
`ScanSpec`). Lemmas about those functions state the properties.

Modules: `Wrappers` (Option, Result), `Sql` (Go's `strings.Repeat` and
`strings.Join`, placeholder counting, IN and WHERE text), `Store` (time,
timestamps, errors, cursor rows, the first failing row), `Races`, `Sports`.

Collaborators the model cannot see are parameters:
- `db: Statement -> Result<rows, Error>` stands for `sql.DB.Query`.
- `convert: Time -> Result<Timestamp, Error>` stands for `ptypes.TimestampProto`.
- `clock: nat -> Time` gives what `time.Now()` returns while row k is mapped.
- `listQuery` is the base SELECT text. It comes from `getRaceQueries()` /
  `getSportEventQuery()` in the repositories' `queries.go`, which is not part
  of this model.

Behaviour of the code worth knowing, all kept as written:
- A non-nil but empty sort list still appends ` ORDER BY ` (`OrderByWithoutTerms`).
- `time.Now()` is read once per row (racing/db/races.go:153), so the model's
  clock is indexed by row.
- Sort field names are not checked against any list of columns.
  `SortFieldMisaligns` shows a consequence: a field name holding `?` adds a
  placeholder with no argument.
- The not-found default race carries no timestamp, and a scanned race always
  does, so a caller can tell them apart (`ScannedNeverDefault`, `GetRaceSelects`).

## Model

| member | source | states |
|---|---|---|
| `Sql.MarksCount` | racing/db/races.go:101 | `strings.Repeat("?,", n-1) + "?"` holds exactly n placeholders |
| `Sql.MarksAreJoinedMarks` | racing/db/races.go:101 | that mark list is n copies of `?` joined by `,` |
| `Sql.InClauseCount` | racing/db/races.go:101 | an IN clause over a `?`-free column name holds one placeholder per value |
| `Sql.JoinCount` | racing/db/races.go:116 | joining clauses with a `?`-free separator keeps exactly their placeholders |
| `Sql.WhereCount` | racing/db/races.go:115-117 | the ` WHERE ` suffix holds exactly the placeholders of its clauses, and is empty with no clause |
| `Store.FirstFailure` | racing/db/races.go:142-161 | the row where the mapper stops: every earlier row scanned and converted, and this one did not |
| `Store.StopResult` | racing/db/races.go:146-161 | stopping at a row gives an empty list exactly for `sql.ErrNoRows`, else that row's scan or conversion error |
| `Races.ApplyFilter` | racing/db/races.go:90-120 | the query gains the filter's WHERE suffix, the args are the meeting ids (none for a nil filter), and the appended `?` count equals the arg count |
| `Races.FilterAligned` | racing/db/races.go:100-119 | for every filter, the placeholders in the appended text equal the number of arguments |
| `Races.FilterWithoutClauses` | racing/db/races.go:115-119 | a filter with no ids and no flag appends nothing and binds nothing |
| `Races.FilterMeetingOnly` | racing/db/races.go:100-106 | ids alone give ` WHERE meeting_id IN (?,...,?)` with one `?` per id |
| `Races.FilterVisibleOnly` | racing/db/races.go:107-113 | the flag alone gives ` WHERE visible=1` or ` WHERE visible=0` |
| `Races.FilterMeetingAndVisible` | racing/db/races.go:100-117 | both give the meeting clause, then ` AND `, then the visible clause |
| `Races.FilterTextIgnoresIdValues` | racing/db/races.go:100-106 | the query text depends on the ids only through their count, so no id is interpolated |
| `Races.ApplySorting` | racing/db/races.go:122-135 | the query gains nothing for nil options, else ` ORDER BY ` and the recognised terms joined by `,` |
| `Races.SortTermsAppend` | racing/db/races.go:125-131 | the terms keep the caller's order: terms of a concatenation are the concatenated terms |
| `Races.SortTermsDropUnrecognised` | racing/db/races.go:125-131 | an entry whose direction is neither ASC nor DESC contributes nothing, wherever it stands |
| `Races.SortTermsBound` | racing/db/races.go:125-131 | at most one term per option, and one per option exactly when every direction is recognised |
| `Races.SortTermsInOrder` | racing/db/races.go:125-131 | with all directions recognised, term i is `field_i DIR_i` |
| `Races.OrderByWithoutTerms` | racing/db/races.go:124-133 | a non-nil list with no recognised entry still appends ` ORDER BY ` |
| `Races.StatusOf` | racing/db/races.go:153-157 | OPEN exactly when the start time is non-zero and strictly after now, otherwise CLOSED |
| `Races.ScanRaces` | racing/db/races.go:137-169 | the loop returns exactly the scan specification: all races, an empty list for ErrNoRows, or the first error |
| `Races.ScanAllOrNothing` | racing/db/races.go:142-168 | a successful scan is empty or has one race per row, and it has one per row exactly when every row scans and converts |
| `Races.ScanOnePerRow` | racing/db/races.go:142-166 | race j carries row j's columns, its converted timestamp, and the status `StatusOf` derives from its start time and the clock at row j (OPEN or CLOSED, never unset) |
| `Races.ScanFailure` | racing/db/races.go:146-161 | a failed scan reports the error of the first row that did not get through, which is not ErrNoRows |
| `Races.ScanNoRowsEmpties` | racing/db/races.go:146-149 | a scan error equal to `sql.ErrNoRows` yields an empty list and no error, even after races were read |
| `Races.ScannedNeverDefault` | racing/db/races.go:158-165 | every race from a row carries a timestamp, so none equals the default race |
| `Races.ListResult` | racing/db/races.go:59-66 | a query error is returned unchanged, and a successful list is empty or has one race per row |
| `Races.List` | racing/db/races.go:50-67 | List queries with filter then sorting applied, and returns the list result |
| `Races.ListStatementAligned` | racing/db/races.go:57-61 | with a `?`-free base query and sort fields, the statement has one argument per placeholder |
| `Races.SortFieldMisaligns` | racing/db/races.go:122-133 | a sort field `?` adds a placeholder with no argument, because fields are not validated |
| `Races.GetRaceResult` | racing/db/races.go:69-88 | no id gives the default race; a query error is returned unchanged; a non-default race comes from a cursor of exactly one row, which scanned and converted |
| `Races.GetRace` | racing/db/races.go:69-88 | the method's result is the lookup result: default race without id, the query or scan error, the one race, or the default race for any other row count |
| `Races.GetRaceWithoutId` | racing/db/races.go:72-87 | with no id the result is the default race, whatever the database holds |
| `Races.GetRaceSelects` | racing/db/races.go:78-85 | a successful lookup gives the default race exactly when the scan did not yield one race, else that race |
| `Races.GetStatementAligned` | racing/db/races.go:73-74 | the lookup statement has exactly one placeholder and one argument, and that argument is the requested id |
| `Sports.ApplyFilter` | sports/db/sports.go:63-86 | the query gains the id clause's WHERE suffix, the args are the ids (none for a nil filter), and the appended `?` count equals the arg count |
| `Sports.FilterAligned` | sports/db/sports.go:73-85 | for every filter, the placeholders in the appended text equal the number of arguments |
| `Sports.FilterShape` | sports/db/sports.go:73-85 | no ids append nothing; n ids append ` WHERE id IN (?,...,?)` with n placeholders |
| `Sports.FilterTextIgnoresIdValues` | sports/db/sports.go:73-79 | the query text depends on the ids only through their count |
| `Sports.ScanRaces` | sports/db/sports.go:88-115 | the loop returns exactly the scan specification: all events, an empty list for ErrNoRows, or the first error |
| `Sports.ScanAllOrNothing` | sports/db/sports.go:93-114 | a successful scan is empty or has one event per row, and it has one per row exactly when every row scans and converts |
| `Sports.ScanOnePerRow` | sports/db/sports.go:93-112 | event j carries row j's columns and its converted timestamp |
| `Sports.ScanFailure` | sports/db/sports.go:97-107 | a failed scan reports the error of the first row that did not get through, which is not ErrNoRows |
| `Sports.ScanNoRowsEmpties` | sports/db/sports.go:97-100 | a scan error equal to `sql.ErrNoRows` yields an empty list and no error, even after events were read |
| `Sports.ListResult` | sports/db/sports.go:54-60 | a query error is returned unchanged, and a successful list is empty or has one event per row |
| `Sports.List` | sports/db/sports.go:46-61 | List queries with only the filter applied, no sorting, and returns the list result |
| `Sports.ListStatementAligned` | sports/db/sports.go:53-55 | with a `?`-free base query, the statement has one argument per placeholder |

## Left out

- `Init`, `sync.Once` and `seed` (sports/db/db.go): one-time schema creation and random seeding are database I/O with random data.
- sports/main.go and sports/service/sports.go: the gRPC server, flag parsing and a pass-through service add no logic.
- The base SELECT text: the repositories' `queries.go` is not part of this model, so it is the parameter `listQuery`.
- `rows.Err()` and `rows.Close()`: the code never calls them. A cursor that stops early on a driver error is just a shorter row sequence here.
- Nil `in` requests and nil entries in the sort list: the Go code would panic on them, and the model has no such values.
- `Races.Status`: racing.proto is not part of this model, so the enum's zero value, carried by the default race, is a separate `StatusUnset`.
- Go's distinction between a nil and an empty result slice: both are the empty sequence.
- Integer widths: ids are int64 in Go, but they are only bound as arguments, never computed with, so unbounded integers lose nothing.
- Time is an integer count from Go's zero instant. Monotonic clock readings and time zones are not modelled.
