/**
 * The sports-events repository (sports/db/sports.go): the id filter that
 * builds the WHERE clause of the list query, the row mapper, and the
 * List pipeline. There is no sorting and no derived status here.
 *
 * As for races, the database handle and ptypes.TimestampProto are
 * parameters (`db`, `convert`).
 */
module Sports {
  import opened Wrappers
  import opened Sql
  import opened Store

  /** A sports event as returned to callers (sports.SportsEvent). */
  datatype SportsEvent = SportsEvent(
    id: int,
    name: string,
    location: string,
    advertisedStartTime: Option<Timestamp>)

  /** The columns rows.Scan reads, in the order it reads them. */
  datatype EventCols = EventCols(id: int, name: string, location: string, advertisedStart: Time)

  /** sports.EventsFilter: event ids to match. */
  datatype EventsFilter = EventsFilter(ids: seq<int>)

  datatype ListSportsEventRequest = ListSportsEventRequest(filter: Option<EventsFilter>)

  type EventDb = Statement -> Result<seq<Row<EventCols>>, Error>

  // ---------------------------------------------------------------------
  // Filter clause builder

  function FilterClauses(f: EventsFilter): (r: seq<string>)
  {
    if |f.ids| > 0 then [InClause("id", |f.ids|)] else []
  }

  /** What applyFilter appends to the query. */
  function FilterSuffix(filter: Option<EventsFilter>): (r: string)
  {
    match filter
    case None => ""
    case Some(f) => Where(FilterClauses(f))
  }

  /** The bind arguments applyFilter returns. */
  function FilterArgs(filter: Option<EventsFilter>): (r: seq<int>)
  {
    match filter
    case None => []
    case Some(f) => f.ids
  }

  /** applyFilter: extends the query with the id clause of the filter and collects its arguments. */
  method ApplyFilter(query: string, filter: Option<EventsFilter>) returns (q: string, args: seq<int>)
    ensures q == query + FilterSuffix(filter)
    ensures args == FilterArgs(filter)
    ensures Placeholders(q) == Placeholders(query) + |args|
  {
    var clauses: seq<string> := [];
    args := [];
    if filter.None? {
      return query, args;
    }
    var f := filter.value;
    if |f.ids| > 0 {
      var idClause := "id IN (" + Repeat("?,", |f.ids| - 1) + "?)";
      assert idClause == InClause("id", |f.ids|);
      clauses := clauses + [idClause];
      var i := 0;
      while i < |f.ids|
        invariant 0 <= i <= |f.ids|
        invariant args == f.ids[..i]
      {
        args := args + [f.ids[i]];
        i := i + 1;
      }
    }
    q := query;
    if |clauses| != 0 {
      q := q + " WHERE " + Join(clauses, " AND ");
    }
    assert clauses == FilterClauses(f);
    FilterAligned(filter);
    CountConcat('?', query, FilterSuffix(filter));
  }

  /** Every placeholder the filter appends has exactly one argument, and no argument lacks one. */
  lemma FilterAligned(filter: Option<EventsFilter>)
    ensures Placeholders(FilterSuffix(filter)) == |FilterArgs(filter)|
  {
    if filter.Some? {
      var f := filter.value;
      WhereCount(FilterClauses(f));
      if |f.ids| > 0 {
        InClauseCount("id", |f.ids|);
        assert FilterClauses(f)[1..] == [];
      }
    }
  }

  /** No ids: no WHERE clause; some ids: the one IN clause with a `?` per id. */
  lemma FilterShape(f: EventsFilter)
    ensures f.ids == [] ==> FilterSuffix(Some(f)) == ""
    ensures f.ids != [] ==> FilterSuffix(Some(f)) == " WHERE " + "id IN (" + Marks(|f.ids|) + ")"
  {
  }

  /** The query text depends on the ids only through their number: no id is interpolated. */
  lemma FilterTextIgnoresIdValues(f1: EventsFilter, f2: EventsFilter)
    requires |f1.ids| == |f2.ids|
    ensures FilterSuffix(Some(f1)) == FilterSuffix(Some(f2))
    ensures FilterArgs(Some(f1)) == f1.ids
  {
  }

  // ---------------------------------------------------------------------
  // Row mapper

  function StartOf(c: EventCols): (r: Time)
  {
    c.advertisedStart
  }

  /** The event built from row k of a cursor whose first rows all convert. */
  function RecordAt(rows: seq<Row<EventCols>>, k: nat, convert: Converter): (r: SportsEvent)
    requires k < |rows| && Converts(rows[k], StartOf, convert)
  {
    var c := rows[k].cols;
    SportsEvent(c.id, c.name, c.location, Some(convert(c.advertisedStart).value))
  }

  /** What scanRaces returns for a cursor. */
  function ScanSpec(rows: seq<Row<EventCols>>, convert: Converter): (r: Result<seq<SportsEvent>, Error>)
  {
    var k := FirstFailure(rows, StartOf, convert);
    if k < |rows| then StopResult(rows[k], StartOf, convert)
    else Success(seq(|rows|, i requires 0 <= i < |rows| => RecordAt(rows, i, convert)))
  }

  /** scanRaces (the sports repository keeps the races repository's name for it). */
  method ScanRaces(rows: seq<Row<EventCols>>, convert: Converter) returns (r: Result<seq<SportsEvent>, Error>)
    ensures r == ScanSpec(rows, convert)
  {
    var events: seq<SportsEvent> := [];
    var i := 0;
    while i < |rows|
      invariant 0 <= i <= FirstFailure(rows, StartOf, convert)
      invariant |events| == i
      invariant forall j :: 0 <= j < i ==> events[j] == RecordAt(rows, j, convert)
    {
      match rows[i]
      case ScanError(err) =>
        if err == ErrNoRows {
          return Success([]);
        }
        return Failure(err);
      case Scanned(c) =>
        var ts := convert(c.advertisedStart);
        if ts.Failure? {
          return Failure(ts.error);
        }
        events := events + [SportsEvent(c.id, c.name, c.location, Some(ts.value))];
      i := i + 1;
    }
    assert events == seq(|rows|, j requires 0 <= j < |rows| => RecordAt(rows, j, convert));
    return Success(events);
  }

  /** Either every row becomes an event, or the result is an error or an empty list: never a partial list. */
  lemma ScanAllOrNothing(rows: seq<Row<EventCols>>, convert: Converter)
    ensures ScanSpec(rows, convert).Success? ==>
      ScanSpec(rows, convert).value == [] || |ScanSpec(rows, convert).value| == |rows|
    ensures (forall j :: 0 <= j < |rows| ==> Converts(rows[j], StartOf, convert)) <==>
      ScanSpec(rows, convert).Success? && |ScanSpec(rows, convert).value| == |rows|
  {
  }

  /** When every row converts, event j carries the columns of row j and its converted start time. */
  lemma ScanOnePerRow(rows: seq<Row<EventCols>>, convert: Converter, j: nat)
    requires forall i :: 0 <= i < |rows| ==> Converts(rows[i], StartOf, convert)
    requires j < |rows|
    ensures ScanSpec(rows, convert).Success?
    ensures var event := ScanSpec(rows, convert).value[j];
      && event.id == rows[j].cols.id
      && event.name == rows[j].cols.name
      && event.location == rows[j].cols.location
      && event.advertisedStartTime == Some(convert(rows[j].cols.advertisedStart).value)
  {
  }

  /** A failed scan reports the error of the first row that did not get through, and that row is not ErrNoRows. */
  lemma ScanFailure(rows: seq<Row<EventCols>>, convert: Converter)
    requires ScanSpec(rows, convert).Failure?
    ensures exists k :: (0 <= k < |rows| && k == FirstFailure(rows, StartOf, convert)
      && rows[k] != ScanError(ErrNoRows)
      && ScanSpec(rows, convert).error
         == (if rows[k].ScanError? then rows[k].err else convert(rows[k].cols.advertisedStart).error))
  {
  }

  /** A scan error equal to sql.ErrNoRows ends the scan with an empty list and no error, discarding earlier events. */
  lemma ScanNoRowsEmpties(rows: seq<Row<EventCols>>, convert: Converter, k: nat)
    requires k < |rows| && rows[k] == ScanError(ErrNoRows)
    requires forall j :: 0 <= j < k ==> Converts(rows[j], StartOf, convert)
    ensures ScanSpec(rows, convert) == Success([])
  {
  }

  // ---------------------------------------------------------------------
  // Repository operations

  /** The statement List hands to the database: the base query with the filter applied, no sorting. */
  function ListStatement(listQuery: string, request: ListSportsEventRequest): (r: Statement)
  {
    Statement(listQuery + FilterSuffix(request.filter), FilterArgs(request.filter))
  }

  /** What List returns: a query error unchanged, else the mapped cursor. */
  function ListResult(listQuery: string, request: ListSportsEventRequest, db: EventDb, convert: Converter)
    : (r: Result<seq<SportsEvent>, Error>)
    ensures db(ListStatement(listQuery, request)).Failure? ==> r == Failure(db(ListStatement(listQuery, request)).error)
    ensures r.Success? ==> r.value == [] || |r.value| == |db(ListStatement(listQuery, request)).value|
  {
    match db(ListStatement(listQuery, request))
    case Failure(e) => Failure(e)
    case Success(rows) =>
      ScanAllOrNothing(rows, convert);
      ScanSpec(rows, convert)
  }

  /** sportsRepo.List */
  method List(listQuery: string, request: ListSportsEventRequest, db: EventDb, convert: Converter)
    returns (r: Result<seq<SportsEvent>, Error>)
    ensures r == ListResult(listQuery, request, db, convert)
  {
    var query, args := ApplyFilter(listQuery, request.filter);
    var rows := db(Statement(query, args));
    if rows.Failure? {
      return Failure(rows.error);
    }
    r := ScanRaces(rows.value, convert);
  }

  /** With a base query free of `?`, the list statement has one argument per placeholder. */
  lemma ListStatementAligned(listQuery: string, request: ListSportsEventRequest)
    requires Placeholders(listQuery) == 0
    ensures Placeholders(ListStatement(listQuery, request).text) == |ListStatement(listQuery, request).args|
  {
    FilterAligned(request.filter);
    CountConcat('?', listQuery, FilterSuffix(request.filter));
  }
}
