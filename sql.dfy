/**
 * A stand-in for the parts of `database/sql` the store uses: a result cursor
 * (`*sql.Rows`) over a fixed sequence of rows, and a database handle whose
 * answer to a query is given.
 */
module Sql {
  import opened Wrappers
  import opened Reflect

  /** Errors surfaced by the driver or by the cursor itself. */
  datatype DriverError =
    | RowsClosed
    | NoCurrentRow
    | DestinationCount(expected: nat, got: nat)
    | Driver(message: string)

  /** One result row: its cells, or a row whose cells the driver cannot deliver. */
  datatype Row = Row(cells: seq<Value>) | Unreadable(cause: DriverError)

  /** The observable state of a cursor. */
  datatype Cursor = Cursor(
    columns: Result<seq<string>, DriverError>,
    pending: seq<Row>,
    current: Option<Row>,
    closed: bool)

  /** `Rows.Next`: whether a row became current, and the cursor afterwards (closed once exhausted). */
  function Advance(c: Cursor): (bool, Cursor) {
    if c.closed then (false, c)
    else if c.pending == [] then (false, c.(closed := true))
    else (true, c.(pending := c.pending[1..], current := Some(c.pending[0])))
  }

  /** `Rows.Columns`. */
  function ColumnsOf(c: Cursor): Result<seq<string>, DriverError> {
    if c.closed then Failure(RowsClosed) else c.columns
  }

  /** Why `Rows.Scan` into `n` destinations fails, if it does. */
  function ScanFailure(c: Cursor, n: nat): Option<DriverError> {
    if c.closed then Some(RowsClosed)
    else match c.current
      case None => Some(NoCurrentRow)
      case Some(Unreadable(cause)) => Some(cause)
      case Some(Row(cells)) => if |cells| != n then Some(DestinationCount(|cells|, n)) else None
  }

  class Rows {
    const columns: Result<seq<string>, DriverError>
    var pending: seq<Row>
    var current: Option<Row>
    var closed: bool

    function Snapshot(): Cursor
      reads this
    {
      Cursor(columns, pending, current, closed)
    }

    constructor (columns: Result<seq<string>, DriverError>, rows: seq<Row>)
      ensures Snapshot() == Cursor(columns, rows, None, false)
    {
      this.columns := columns;
      pending, current, closed := rows, None, false;
    }

    method Next() returns (more: bool)
      modifies this
      ensures (more, Snapshot()) == Advance(old(Snapshot()))
    {
      if closed {
        more := false;
      } else if pending == [] {
        more := false;
        closed := true;
      } else {
        more := true;
        current := Some(pending[0]);
        pending := pending[1..];
      }
    }

    function Columns(): Result<seq<string>, DriverError>
      reads this
    {
      ColumnsOf(Snapshot())
    }

    /**
     * `Rows.Scan(dest...)`: each destination is an index into `dest` (the
     * address `&values[i]`); on success cell `k` is stored through
     * destination `k` and nothing else in `dest` changes.
     */
    method Scan(dest: array<Value>, ptrs: array<nat>) returns (err: Option<DriverError>)
      requires forall k :: 0 <= k < ptrs.Length ==> ptrs[k] < dest.Length
      requires forall k, l :: 0 <= k < l < ptrs.Length ==> ptrs[k] != ptrs[l]
      modifies dest
      ensures err == ScanFailure(Snapshot(), ptrs.Length)
      ensures err.Some? ==> dest[..] == old(dest[..])
      ensures err.None? ==> current.Some? && current.value.Row?
      ensures err.None? ==> forall k :: 0 <= k < ptrs.Length ==> dest[ptrs[k]] == current.value.cells[k]
      ensures forall i :: 0 <= i < dest.Length && (forall k :: 0 <= k < ptrs.Length ==> ptrs[k] != i) ==> dest[i] == old(dest[i])
    {
      err := ScanFailure(Snapshot(), ptrs.Length);
      if err.Some? {
        return;
      }
      var cells := current.value.cells;
      for k := 0 to ptrs.Length
        invariant forall m :: 0 <= m < k ==> dest[ptrs[m]] == cells[m]
        invariant forall i :: 0 <= i < dest.Length && (forall m :: 0 <= m < k ==> ptrs[m] != i) ==> dest[i] == old(dest[i])
      {
        dest[ptrs[k]] := cells[k];
      }
    }

    method Close()
      modifies this
      ensures Snapshot() == old(Snapshot()).(closed := true)
    {
      closed := true;
    }
  }

  /** What the database does with one query: an execution error, or a result set. */
  datatype Answer =
    | QueryFailed(cause: DriverError)
    | ResultSet(columns: Result<seq<string>, DriverError>, rows: seq<Row>)

  /** `*sql.DB`, reduced to its (given) answers. */
  class DB {
    const answer: (string, seq<Value>) -> Answer

    constructor (answer: (string, seq<Value>) -> Answer)
      ensures this.answer == answer
    {
      this.answer := answer;
    }

    method Query(query: string, args: seq<Value>) returns (res: Result<Rows, DriverError>)
      ensures answer(query, args).QueryFailed? ==> res == Failure(answer(query, args).cause)
      ensures answer(query, args).ResultSet? ==>
        && res.Success? && fresh(res.value)
        && res.value.Snapshot() == Cursor(answer(query, args).columns, answer(query, args).rows, None, false)
    {
      match answer(query, args)
      case QueryFailed(cause) =>
        res := Failure(cause);
      case ResultSet(columns, rows) =>
        var cursor := new Rows(columns, rows);
        res := Success(cursor);
    }
  }
}
