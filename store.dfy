/**
 * What the repositories see of the database and of the protobuf time
 * library: points in time, wire timestamps, the errors they can return,
 * and a result cursor as a sequence of rows, each of which either scans
 * into its columns or fails with a scan error.
 */
module Store {
  import opened Wrappers

  /** A point in time, counted from Go's zero instant (the time.Time zero value). */
  type Time = int

  const ZeroTime: Time := 0

  /** time.Time.IsZero */
  predicate IsZero(t: Time)
  {
    t == ZeroTime
  }

  /** t.After(u): t is strictly later than u. */
  predicate After(t: Time, u: Time)
  {
    t > u
  }

  /** The protobuf wire timestamp (google.protobuf.Timestamp). */
  datatype Timestamp = Timestamp(seconds: int, nanos: int)

  /**
   * Errors the repositories pass on unchanged. ErrNoRows is database/sql's
   * sql.ErrNoRows, the one error the row mappers treat specially; every
   * other driver, scan or conversion error is Failed.
   */
  datatype Error = ErrNoRows | Failed(message: string)

  /** One step of rows.Next()/rows.Scan(...): the scanned columns, or the error Scan returned. */
  datatype Row<C> = Scanned(cols: C) | ScanError(err: Error)

  /** A statement handed to sql.DB.Query: query text and positional arguments. */
  datatype Statement = Statement(text: string, args: seq<int>)

  /** ptypes.TimestampProto: a partial conversion, failing with an error. */
  type Converter = Time -> Result<Timestamp, Error>

  /** A row the mapper gets through: it scanned, and its start time converts. */
  predicate Converts<C>(row: Row<C>, start: C -> Time, convert: Converter)
  {
    row.Scanned? && convert(start(row.cols)).Success?
  }

  /** Position of the first row the mapper stops at, or |rows| when there is none. */
  function FirstFailure<C>(rows: seq<Row<C>>, start: C -> Time, convert: Converter): (k: nat)
    ensures k <= |rows|
    ensures forall j :: 0 <= j < k ==> Converts(rows[j], start, convert)
    ensures k < |rows| ==> !Converts(rows[k], start, convert)
    decreases |rows|
  {
    if rows == [] || !Converts(rows[0], start, convert) then 0
    else 1 + FirstFailure(rows[1..], start, convert)
  }

  /**
   * What the mapper returns when it stops at a row: an empty list without
   * error for sql.ErrNoRows, otherwise the scan or conversion error.
   */
  function StopResult<C, T>(row: Row<C>, start: C -> Time, convert: Converter): (r: Result<seq<T>, Error>)
    requires !Converts(row, start, convert)
    ensures r.Success? <==> row == ScanError(ErrNoRows)
    ensures r.Success? ==> r.value == []
    ensures row.ScanError? && r.Failure? ==> r.error == row.err
    ensures row.Scanned? ==> r == Failure(convert(start(row.cols)).error)
  {
    match row
    case ScanError(e) => if e == ErrNoRows then Success([]) else Failure(e)
    case Scanned(c) => Failure(convert(start(c)).error)
  }
}
