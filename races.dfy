/**
 * The races repository (racing/db/races.go): the filter and sort clause
 * builders that assemble the list query, the row mapper that turns a
 * cursor into races and derives their OPEN/CLOSED status, the
 * single-race lookup, and the List pipeline that composes them.
 *
 * The database handle, the wall clock and the timestamp conversion are
 * parameters: `db` answers a statement with a cursor or an error,
 * `clock(k)` is what time.Now() reads while row k is mapped, and
 * `convert` is ptypes.TimestampProto.
 */
module Races {
  import opened Wrappers
  import opened Sql
  import opened Store

  /** The protobuf Status enum; StatusUnset is the value a default-constructed race carries. */
  datatype Status = StatusUnset | Open | Closed

  /** A race as returned to callers (racing.Race). */
  datatype Race = Race(
    id: int,
    meetingId: int,
    name: string,
    number: int,
    visible: bool,
    advertisedStartTime: Option<Timestamp>,
    status: Status)

  /** &racing.Race{}: every field at its zero value. */
  const DefaultRace := Race(0, 0, "", 0, false, None, StatusUnset)

  /** The columns rows.Scan reads, in the order it reads them. */
  datatype RaceCols = RaceCols(
    id: int,
    meetingId: int,
    name: string,
    number: int,
    visible: bool,
    advertisedStart: Time)

  /** racing.ListRacesRequestFilter: meeting ids to match and an optional visibility flag. */
  datatype RaceFilter = RaceFilter(meetingIds: seq<int>, visible: Option<bool>)

  /** racing.SortOrder: the two recognised directions, or any other enum value. */
  datatype SortOrder = SortAsc | SortDesc | SortOther(code: int)

  datatype SortOption = SortOption(field: string, order: SortOrder)

  /** A nil filter or a nil sort list is None; a non-nil but empty sort list is Some([]). */
  datatype ListRacesRequest = ListRacesRequest(filter: Option<RaceFilter>, sortOptions: Option<seq<SortOption>>)

  datatype GetRaceRequest = GetRaceRequest(raceId: Option<int>)

  type RaceDb = Statement -> Result<seq<Row<RaceCols>>, Error>

  // ---------------------------------------------------------------------
  // Filter clause builder

  function VisibleClause(visible: bool): (r: string)
  {
    if visible then "visible=1" else "visible=0"
  }

  /** The clauses of a present filter, the meeting clause before the visible clause. */
  function FilterClauses(f: RaceFilter): (r: seq<string>)
  {
    (if |f.meetingIds| > 0 then [InClause("meeting_id", |f.meetingIds|)] else [])
    + (if f.visible.Some? then [VisibleClause(f.visible.value)] else [])
  }

  /** What applyFilter appends to the query. */
  function FilterSuffix(filter: Option<RaceFilter>): (r: string)
  {
    match filter
    case None => ""
    case Some(f) => Where(FilterClauses(f))
  }

  /** The bind arguments applyFilter returns. */
  function FilterArgs(filter: Option<RaceFilter>): (r: seq<int>)
  {
    match filter
    case None => []
    case Some(f) => f.meetingIds
  }

  /** applyFilter: extends the query with the WHERE clause of the filter and collects its arguments. */
  method ApplyFilter(query: string, filter: Option<RaceFilter>) returns (q: string, args: seq<int>)
    ensures q == query + FilterSuffix(filter)
    ensures args == FilterArgs(filter)
    ensures Placeholders(q) == Placeholders(query) + |args|
  {
    var clauses: seq<string> := [];
    args := [];
    if filter.None? {
      return query, args;
    }
    var f := filter.value;
    if |f.meetingIds| > 0 {
      var meeting := "meeting_id IN (" + Repeat("?,", |f.meetingIds| - 1) + "?)";
      assert meeting == InClause("meeting_id", |f.meetingIds|);
      clauses := clauses + [meeting];
      var i := 0;
      while i < |f.meetingIds|
        invariant 0 <= i <= |f.meetingIds|
        invariant args == f.meetingIds[..i]
      {
        args := args + [f.meetingIds[i]];
        i := i + 1;
      }
    }
    if f.visible.Some? {
      if f.visible.value == true {
        clauses := clauses + ["visible=1"];
      } else {
        clauses := clauses + ["visible=0"];
      }
    }
    q := query;
    if |clauses| != 0 {
      q := q + " WHERE " + Join(clauses, " AND ");
    }
    assert clauses == FilterClauses(f);
    FilterAligned(filter);
    CountConcat('?', query, FilterSuffix(filter));
  }

  /** Every placeholder the filter appends has exactly one argument, and no argument lacks one. */
  lemma FilterAligned(filter: Option<RaceFilter>)
    ensures Placeholders(FilterSuffix(filter)) == |FilterArgs(filter)|
  {
    if filter.Some? {
      var f := filter.value;
      var clauses := FilterClauses(f);
      WhereCount(clauses);
      var meeting := if |f.meetingIds| > 0 then [InClause("meeting_id", |f.meetingIds|)] else [];
      var vis := if f.visible.Some? then [VisibleClause(f.visible.value)] else [];
      assert clauses == meeting + vis;
      if |f.meetingIds| > 0 {
        InClauseCount("meeting_id", |f.meetingIds|);
        assert PlaceholdersIn(meeting) == |f.meetingIds|;
      }
      if f.visible.Some? {
        NoPlaceholders(vis[0]);
        assert vis[1..] == [];
      }
      PlaceholdersInConcat(meeting, vis);
    }
  }

  lemma {:induction false} PlaceholdersInConcat(a: seq<string>, b: seq<string>)
    ensures PlaceholdersIn(a + b) == PlaceholdersIn(a) + PlaceholdersIn(b)
  {
    if a == [] {
      assert a + b == b;
    } else {
      assert (a + b)[1..] == a[1..] + b;
      PlaceholdersInConcat(a[1..], b);
    }
  }

  /** A filter with neither meeting ids nor a visibility flag leaves the query unchanged. */
  lemma FilterWithoutClauses(f: RaceFilter)
    requires f.meetingIds == [] && f.visible.None?
    ensures FilterSuffix(Some(f)) == "" && FilterArgs(Some(f)) == []
  {
  }

  /** Meeting ids alone: one IN clause with a `?` per id. */
  lemma FilterMeetingOnly(f: RaceFilter)
    requires f.meetingIds != [] && f.visible.None?
    ensures FilterSuffix(Some(f)) == " WHERE " + "meeting_id IN (" + Marks(|f.meetingIds|) + ")"
  {
  }

  /** The visibility flag alone: a literal `visible=1` or `visible=0`. */
  lemma FilterVisibleOnly(f: RaceFilter)
    requires f.meetingIds == [] && f.visible.Some?
    ensures FilterSuffix(Some(f)) == " WHERE " + "visible=" + (if f.visible.value then "1" else "0")
  {
  }

  /** Both: the meeting clause, then ` AND `, then the visibility clause. */
  lemma FilterMeetingAndVisible(f: RaceFilter)
    requires f.meetingIds != [] && f.visible.Some?
    ensures FilterSuffix(Some(f)) == " WHERE " + "meeting_id IN (" + Marks(|f.meetingIds|) + ")" + " AND "
                                     + "visible=" + (if f.visible.value then "1" else "0")
  {
    var n := |f.meetingIds|;
    var v := f.visible.value;
    assert InClause("meeting_id", n) == "meeting_id IN (" + Marks(n) + ")";
    assert FilterClauses(f) == [InClause("meeting_id", n), VisibleClause(v)];
    JoinPair(InClause("meeting_id", n), VisibleClause(v), " AND ");
  }

  /** The query text depends on the meeting ids only through their number: no id is interpolated. */
  lemma FilterTextIgnoresIdValues(f1: RaceFilter, f2: RaceFilter)
    requires |f1.meetingIds| == |f2.meetingIds| && f1.visible == f2.visible
    ensures FilterSuffix(Some(f1)) == FilterSuffix(Some(f2))
    ensures FilterArgs(Some(f1)) == f1.meetingIds
  {
  }

  // ---------------------------------------------------------------------
  // Sort clause builder

  predicate Recognised(o: SortOption)
  {
    o.order == SortDesc || o.order == SortAsc
  }

  /** `field DESC` or `field ASC`; the field name is used as given. */
  function SortTerm(o: SortOption): (r: string)
    requires Recognised(o)
  {
    o.field + " " + (if o.order == SortDesc then "DESC" else "ASC")
  }

  /** The ORDER BY terms of the recognised options, in caller order. */
  function SortTerms(opts: seq<SortOption>): (r: seq<string>)
  {
    if opts == [] then []
    else (if Recognised(opts[0]) then [SortTerm(opts[0])] else []) + SortTerms(opts[1..])
  }

  /** What applySorting appends: nothing for a nil list, ` ORDER BY ` and the terms otherwise. */
  function OrderBy(options: Option<seq<SortOption>>): (r: string)
  {
    match options
    case None => ""
    case Some(opts) => " ORDER BY " + Join(SortTerms(opts), ",")
  }

  /** applySorting */
  method ApplySorting(query: string, options: Option<seq<SortOption>>) returns (q: string)
    ensures q == query + OrderBy(options)
  {
    var sort: seq<string> := [];
    q := query;
    if options.Some? {
      var opts := options.value;
      var i := 0;
      while i < |opts|
        invariant 0 <= i <= |opts|
        invariant sort == SortTerms(opts[..i])
      {
        var s := opts[i];
        SortTermsAppend(opts[..i], [s]);
        assert opts[..i + 1] == opts[..i] + [s];
        if s.order == SortDesc {
          sort := sort + [s.field + " " + "DESC"];
        } else if s.order == SortAsc {
          sort := sort + [s.field + " " + "ASC"];
        }
        i := i + 1;
      }
      assert opts[..|opts|] == opts;
      q := q + " ORDER BY " + Join(sort, ",");
    }
  }

  /** Sorting keeps the caller's order: the terms of a concatenation are the concatenated terms. */
  lemma {:induction false} SortTermsAppend(a: seq<SortOption>, b: seq<SortOption>)
    ensures SortTerms(a + b) == SortTerms(a) + SortTerms(b)
  {
    if a == [] {
      assert a + b == b;
    } else {
      assert (a + b)[1..] == a[1..] + b;
      SortTermsAppend(a[1..], b);
    }
  }

  /** An entry with any direction but ASC or DESC contributes nothing, wherever it stands. */
  lemma SortTermsDropUnrecognised(a: seq<SortOption>, o: SortOption, b: seq<SortOption>)
    requires !Recognised(o)
    ensures SortTerms(a + [o] + b) == SortTerms(a + b)
  {
    SortTermsAppend(a + [o], b);
    SortTermsAppend(a, [o]);
    SortTermsAppend(a, b);
  }

  /** At most one term per option, and one per option exactly when every direction is recognised. */
  lemma {:induction false} SortTermsBound(opts: seq<SortOption>)
    ensures |SortTerms(opts)| <= |opts|
    ensures |SortTerms(opts)| == |opts| <==> forall i :: 0 <= i < |opts| ==> Recognised(opts[i])
  {
    if opts != [] {
      SortTermsBound(opts[1..]);
      if !Recognised(opts[0]) {
        assert |SortTerms(opts)| < |opts|;
      } else {
        assert forall i :: 1 <= i < |opts| ==> opts[i] == opts[1..][i - 1];
      }
    }
  }

  /** When every direction is recognised, term i renders option i. */
  lemma {:induction false} SortTermsInOrder(opts: seq<SortOption>)
    requires forall i :: 0 <= i < |opts| ==> Recognised(opts[i])
    ensures |SortTerms(opts)| == |opts|
    ensures forall i :: 0 <= i < |opts| ==> SortTerms(opts)[i] == SortTerm(opts[i])
  {
    if opts != [] {
      assert forall i :: 0 <= i < |opts| - 1 ==> opts[1..][i] == opts[i + 1];
      SortTermsInOrder(opts[1..]);
    }
  }

  /** A non-nil list appends ` ORDER BY ` even when no term survives. */
  lemma OrderByWithoutTerms(opts: seq<SortOption>)
    requires forall i :: 0 <= i < |opts| ==> !Recognised(opts[i])
    ensures OrderBy(Some(opts)) == " ORDER BY "
  {
    SortTermsNone(opts);
  }

  lemma {:induction false} SortTermsNone(opts: seq<SortOption>)
    requires forall i :: 0 <= i < |opts| ==> !Recognised(opts[i])
    ensures SortTerms(opts) == []
  {
    if opts != [] {
      assert forall i :: 0 <= i < |opts| - 1 ==> opts[1..][i] == opts[i + 1];
      SortTermsNone(opts[1..]);
    }
  }

  // ---------------------------------------------------------------------
  // Row mapper

  /** OPEN when the start time is set and strictly later than now, CLOSED otherwise. */
  function StatusOf(start: Time, now: Time): (s: Status)
    ensures s != StatusUnset
    ensures s == Open <==> start != ZeroTime && start > now
  {
    if !IsZero(start) && After(start, now) then Open else Closed
  }

  function StartOf(c: RaceCols): (r: Time)
  {
    c.advertisedStart
  }

  /** The race built from row k of a cursor whose first rows all convert. */
  function RecordAt(rows: seq<Row<RaceCols>>, k: nat, clock: nat -> Time, convert: Converter): (r: Race)
    requires k < |rows| && Converts(rows[k], StartOf, convert)
  {
    var c := rows[k].cols;
    Race(c.id, c.meetingId, c.name, c.number, c.visible,
         Some(convert(c.advertisedStart).value), StatusOf(c.advertisedStart, clock(k)))
  }

  /** What scanRaces returns for a cursor. */
  function ScanSpec(rows: seq<Row<RaceCols>>, clock: nat -> Time, convert: Converter): (r: Result<seq<Race>, Error>)
  {
    var k := FirstFailure(rows, StartOf, convert);
    if k < |rows| then StopResult(rows[k], StartOf, convert)
    else Success(seq(|rows|, i requires 0 <= i < |rows| => RecordAt(rows, i, clock, convert)))
  }

  /** scanRaces */
  method ScanRaces(rows: seq<Row<RaceCols>>, clock: nat -> Time, convert: Converter)
    returns (r: Result<seq<Race>, Error>)
    ensures r == ScanSpec(rows, clock, convert)
  {
    var races: seq<Race> := [];
    var i := 0;
    while i < |rows|
      invariant 0 <= i <= FirstFailure(rows, StartOf, convert)
      invariant |races| == i
      invariant forall j :: 0 <= j < i ==> races[j] == RecordAt(rows, j, clock, convert)
    {
      match rows[i]
      case ScanError(err) =>
        if err == ErrNoRows {
          return Success([]);
        }
        return Failure(err);
      case Scanned(c) =>
        var status := if !IsZero(c.advertisedStart) && After(c.advertisedStart, clock(i)) then Open else Closed;
        var ts := convert(c.advertisedStart);
        if ts.Failure? {
          return Failure(ts.error);
        }
        races := races + [Race(c.id, c.meetingId, c.name, c.number, c.visible, Some(ts.value), status)];
      i := i + 1;
    }
    assert races == seq(|rows|, j requires 0 <= j < |rows| => RecordAt(rows, j, clock, convert));
    return Success(races);
  }

  /** Either every row becomes a race, or the result is an error or an empty list: never a partial list. */
  lemma ScanAllOrNothing(rows: seq<Row<RaceCols>>, clock: nat -> Time, convert: Converter)
    ensures ScanSpec(rows, clock, convert).Success? ==>
      ScanSpec(rows, clock, convert).value == [] || |ScanSpec(rows, clock, convert).value| == |rows|
    ensures (forall j :: 0 <= j < |rows| ==> Converts(rows[j], StartOf, convert)) <==>
      ScanSpec(rows, clock, convert).Success? && |ScanSpec(rows, clock, convert).value| == |rows|
  {
  }

  /** When every row converts, race j comes from row j, with its status derived from row j's start time. */
  lemma ScanOnePerRow(rows: seq<Row<RaceCols>>, clock: nat -> Time, convert: Converter, j: nat)
    requires forall i :: 0 <= i < |rows| ==> Converts(rows[i], StartOf, convert)
    requires j < |rows|
    ensures ScanSpec(rows, clock, convert).Success?
    ensures var race := ScanSpec(rows, clock, convert).value[j];
      && race.id == rows[j].cols.id
      && race.meetingId == rows[j].cols.meetingId
      && race.name == rows[j].cols.name
      && race.number == rows[j].cols.number
      && race.visible == rows[j].cols.visible
      && race.advertisedStartTime == Some(convert(rows[j].cols.advertisedStart).value)
      && race.status == StatusOf(rows[j].cols.advertisedStart, clock(j))
  {
  }

  /** A failed scan reports the error of the first row that did not get through, and that row is not ErrNoRows. */
  lemma ScanFailure(rows: seq<Row<RaceCols>>, clock: nat -> Time, convert: Converter)
    requires ScanSpec(rows, clock, convert).Failure?
    ensures exists k :: (0 <= k < |rows| && k == FirstFailure(rows, StartOf, convert)
      && rows[k] != ScanError(ErrNoRows)
      && ScanSpec(rows, clock, convert).error
         == (if rows[k].ScanError? then rows[k].err else convert(rows[k].cols.advertisedStart).error))
  {
  }

  /** A scan error equal to sql.ErrNoRows ends the scan with an empty list and no error, discarding earlier races. */
  lemma ScanNoRowsEmpties(rows: seq<Row<RaceCols>>, clock: nat -> Time, convert: Converter, k: nat)
    requires k < |rows| && rows[k] == ScanError(ErrNoRows)
    requires forall j :: 0 <= j < k ==> Converts(rows[j], StartOf, convert)
    ensures ScanSpec(rows, clock, convert) == Success([])
  {
  }

  /** A race that came from a row always carries a timestamp, so it is never the default race. */
  lemma ScannedNeverDefault(rows: seq<Row<RaceCols>>, clock: nat -> Time, convert: Converter)
    requires ScanSpec(rows, clock, convert).Success?
    ensures forall j :: 0 <= j < |ScanSpec(rows, clock, convert).value| ==>
      ScanSpec(rows, clock, convert).value[j].advertisedStartTime.Some?
      && ScanSpec(rows, clock, convert).value[j] != DefaultRace
  {
  }

  // ---------------------------------------------------------------------
  // Repository operations

  /** The statement List hands to the database: filter first, then sorting. */
  function ListStatement(listQuery: string, request: ListRacesRequest): (r: Statement)
  {
    Statement(listQuery + FilterSuffix(request.filter) + OrderBy(request.sortOptions), FilterArgs(request.filter))
  }

  /** What List returns: a query error unchanged, else the mapped cursor. */
  function ListResult(listQuery: string, request: ListRacesRequest, db: RaceDb, clock: nat -> Time, convert: Converter)
    : (r: Result<seq<Race>, Error>)
    ensures db(ListStatement(listQuery, request)).Failure? ==> r == Failure(db(ListStatement(listQuery, request)).error)
    ensures r.Success? ==> r.value == [] || |r.value| == |db(ListStatement(listQuery, request)).value|
  {
    match db(ListStatement(listQuery, request))
    case Failure(e) => Failure(e)
    case Success(rows) =>
      ScanAllOrNothing(rows, clock, convert);
      ScanSpec(rows, clock, convert)
  }

  /** racesRepo.List */
  method List(listQuery: string, request: ListRacesRequest, db: RaceDb, clock: nat -> Time, convert: Converter)
    returns (r: Result<seq<Race>, Error>)
    ensures r == ListResult(listQuery, request, db, clock, convert)
  {
    var query, args := ApplyFilter(listQuery, request.filter);
    query := ApplySorting(query, request.sortOptions);
    var rows := db(Statement(query, args));
    if rows.Failure? {
      return Failure(rows.error);
    }
    r := ScanRaces(rows.value, clock, convert);
  }

  /** With a base query and sort fields free of `?`, the statement has one argument per placeholder. */
  lemma ListStatementAligned(listQuery: string, request: ListRacesRequest)
    requires Placeholders(listQuery) == 0
    requires request.sortOptions.Some? ==>
      forall i :: 0 <= i < |request.sortOptions.value| ==> Placeholders(request.sortOptions.value[i].field) == 0
    ensures Placeholders(ListStatement(listQuery, request).text) == |ListStatement(listQuery, request).args|
  {
    FilterAligned(request.filter);
    CountConcat('?', listQuery, FilterSuffix(request.filter));
    CountConcat('?', listQuery + FilterSuffix(request.filter), OrderBy(request.sortOptions));
    if request.sortOptions.Some? {
      var opts := request.sortOptions.value;
      SortTermsPlaceholders(opts);
      JoinCount(SortTerms(opts), ",");
      CountConcat('?', " ORDER BY ", Join(SortTerms(opts), ","));
    }
  }

  lemma {:induction false} SortTermsPlaceholders(opts: seq<SortOption>)
    requires forall i :: 0 <= i < |opts| ==> Placeholders(opts[i].field) == 0
    ensures PlaceholdersIn(SortTerms(opts)) == 0
  {
    if opts != [] {
      assert forall i :: 0 <= i < |opts| - 1 ==> opts[1..][i] == opts[i + 1];
      SortTermsPlaceholders(opts[1..]);
      var head := if Recognised(opts[0]) then [SortTerm(opts[0])] else [];
      if Recognised(opts[0]) {
        var o := opts[0];
        CountConcat('?', o.field, " ");
        var dir := if o.order == SortDesc then "DESC" else "ASC";
        NoPlaceholders(" ");
        NoPlaceholders(dir);
        CountConcat('?', o.field + " ", dir);
        assert head[1..] == [];
      }
      PlaceholdersInConcat(head, SortTerms(opts[1..]));
    }
  }

  /** Sort field names are not validated: a field holding `?` adds a placeholder with no argument. */
  lemma SortFieldMisaligns()
    ensures var stmt := ListStatement("", ListRacesRequest(None, Some([SortOption("?", SortAsc)])));
      Placeholders(stmt.text) == 1 && stmt.args == []
  {
    var opt := SortOption("?", SortAsc);
    assert [opt][1..] == [];
    assert SortTerms([opt]) == [SortTerm(opt)];
    var text := " ORDER BY " + SortTerm(opt);
    assert ListStatement("", ListRacesRequest(None, Some([opt]))).text == text;
    assert text == " ORDER BY " + "?" + " ASC";
    NoPlaceholders(" ORDER BY ");
    NoPlaceholders(" ASC");
    assert Placeholders("?") == 1;
    CountConcat('?', " ORDER BY ", "?");
    CountConcat('?', " ORDER BY " + "?", " ASC");
  }

  /** The statement GetRace hands to the database: the base query narrowed to one id, bound to that id. */
  function GetStatement(listQuery: string, id: int): (r: Statement)
  {
    Statement(listQuery + " WHERE id = ?", [id])
  }

  /** What GetRace returns for a request. */
  function GetRaceResult(listQuery: string, request: GetRaceRequest, db: RaceDb, clock: nat -> Time, convert: Converter)
    : (r: Result<Race, Error>)
    ensures request.raceId.None? ==> r == Success(DefaultRace)
    ensures request.raceId.Some? && db(GetStatement(listQuery, request.raceId.value)).Failure? ==>
      r == Failure(db(GetStatement(listQuery, request.raceId.value)).error)
    ensures r.Success? && r.value != DefaultRace ==>
      && request.raceId.Some?
      && var rows := db(GetStatement(listQuery, request.raceId.value)).value;
         |rows| == 1 && Converts(rows[0], StartOf, convert) && r.value == RecordAt(rows, 0, clock, convert)
  {
    match request.raceId
    case None => Success(DefaultRace)
    case Some(id) =>
      match db(GetStatement(listQuery, id))
      case Failure(e) => Failure(e)
      case Success(rows) =>
        ScanAllOrNothing(rows, clock, convert);
        match ScanSpec(rows, clock, convert)
        case Failure(e) => Failure(e)
        case Success(races) => Success(if |races| == 1 then races[0] else DefaultRace)
  }

  /** racesRepo.GetRace */
  method GetRace(listQuery: string, request: GetRaceRequest, db: RaceDb, clock: nat -> Time, convert: Converter)
    returns (r: Result<Race, Error>)
    ensures r == GetRaceResult(listQuery, request, db, clock, convert)
  {
    if request.raceId.None? {
      return Success(DefaultRace);
    }
    var query := listQuery + " WHERE id = ?";
    var rows := db(Statement(query, [request.raceId.value]));
    assert Statement(query, [request.raceId.value]) == GetStatement(listQuery, request.raceId.value);
    if rows.Failure? {
      return Failure(rows.error);
    }
    var races := ScanRaces(rows.value, clock, convert);
    if races.Failure? {
      return Failure(races.error);
    }
    if |races.value| == 1 {
      return Success(races.value[0]);
    }
    return Success(DefaultRace);
  }

  /** Without an id the lookup is the default race whatever the database holds. */
  lemma GetRaceWithoutId(listQuery: string, db1: RaceDb, db2: RaceDb, clock: nat -> Time, convert: Converter)
    ensures GetRaceResult(listQuery, GetRaceRequest(None), db1, clock, convert) == Success(DefaultRace)
    ensures GetRaceResult(listQuery, GetRaceRequest(None), db1, clock, convert)
         == GetRaceResult(listQuery, GetRaceRequest(None), db2, clock, convert)
  {
  }

  /**
   * With an id, a successful lookup yields the default race exactly when
   * the scan did not produce one race; a single matching row yields that row's race.
   */
  lemma GetRaceSelects(listQuery: string, id: int, db: RaceDb, clock: nat -> Time, convert: Converter)
    requires db(GetStatement(listQuery, id)).Success?
    requires ScanSpec(db(GetStatement(listQuery, id)).value, clock, convert).Success?
    ensures var races := ScanSpec(db(GetStatement(listQuery, id)).value, clock, convert).value;
      var r := GetRaceResult(listQuery, GetRaceRequest(Some(id)), db, clock, convert);
      && r.Success?
      && (r.value == DefaultRace <==> |races| != 1)
      && (|races| == 1 ==> r.value == races[0])
  {
  }

  /** The lookup statement has one placeholder and one argument, the requested id. */
  lemma GetStatementAligned(listQuery: string, id: int)
    requires Placeholders(listQuery) == 0
    ensures Placeholders(GetStatement(listQuery, id).text) == |GetStatement(listQuery, id).args| == 1
    ensures GetStatement(listQuery, id).args == [id]
  {
    CountConcat('?', listQuery, " WHERE id = ?");
  }
}
