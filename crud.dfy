/**
 * store.go of package crud: a reflection-driven decoder that copies the
 * first row of a query result into the fields of a struct, choosing each
 * field by its `crud:"…"` tag, and the `Store` that runs a query and decodes
 * its result.
 */
module Crud {
  import opened Wrappers
  import opened Reflect
  import opened Sql

  /** Runtime panics the code can raise; they are never wrapped. */
  datatype PanicReason =
    | IndexOutOfRange(index: nat, length: nat)
    | TypeOfNilValue

  /** The errors store.go returns, by kind; wrapping with context is a constructor. */
  datatype Error =
    | NotPointer
    | FieldNotFound(field: string)
    | TypeMismatch(field: string, fieldType: GoType, valueType: GoType)
    | CannotSet(field: string)
    | NoRows
    | GettingColumns(cause: DriverError)
    | ScanningRows(cause: DriverError)
    | GettingFieldNames(inner: Error)
    | SettingField(inner: Error)
    | Creating(cause: DriverError)
    | Scanning(inner: Error)
    | Panic(reason: PanicReason)

  /** A `StorageInput`: `GetArgs` yields the query's positional arguments. */
  datatype Input = Input(GetArgs: seq<Value>)

  /** The record after a decode, and the error that stopped it, if any. */
  datatype Decoded = Decoded(slots: seq<Value>, err: Option<Error>)

  // ---------------------------------------------------------------------------
  // GetColumnsFieldNames

  /** The name that lands in slot `k`: field `k`'s, when that field's tag is among the columns. */
  function ExpectedName(shape: seq<Field>, columns: seq<string>, k: int): string {
    if 0 <= k < |shape| && shape[k].tag in columns then shape[k].name else ""
  }

  /** The slice GetColumnsFieldNames returns when it does not fail. */
  function FieldNames(shape: seq<Field>, columns: seq<string>): seq<string> {
    seq(|columns|, k => ExpectedName(shape, columns, k))
  }

  /** The first field at index `k` or later whose tag is one of the columns. */
  function FirstTagMatchFrom(shape: seq<Field>, columns: seq<string>, k: nat): (r: Option<nat>)
    decreases |shape| - k
    ensures r.Some? ==> k <= r.value < |shape| && shape[r.value].tag in columns
    ensures r.Some? ==> forall j :: k <= j < r.value ==> shape[j].tag !in columns
    ensures r.None? ==> forall j :: k <= j < |shape| ==> shape[j].tag !in columns
  {
    if k >= |shape| then None
    else if shape[k].tag in columns then Some(k)
    else FirstTagMatchFrom(shape, columns, k + 1)
  }

  /**
   * The outcome of GetColumnsFieldNames: an error for a non-pointer, an
   * index-out-of-range panic at the first field whose index is no slot of
   * the result but whose tag is a column, and otherwise the names.
   */
  function Resolve(isPointer: bool, shape: seq<Field>, columns: seq<string>): (r: Result<seq<string>, Error>)
    ensures !isPointer ==> r == Failure(NotPointer)
    ensures isPointer && r.Failure? ==>
      && r.error.Panic? && r.error.reason.IndexOutOfRange? && r.error.reason.length == |columns|
      && |columns| <= r.error.reason.index < |shape| && shape[r.error.reason.index].tag in columns
    ensures r.Success? ==> |r.value| == |columns| && forall k :: 0 <= k < |columns| ==>
      r.value[k] == "" || (k < |shape| && shape[k].tag in columns && r.value[k] == shape[k].name)
  {
    if !isPointer then Failure(NotPointer)
    else match FirstTagMatchFrom(shape, columns, |columns|)
      case Some(j) => Failure(Panic(IndexOutOfRange(j, |columns|)))
      case None => Success(FieldNames(shape, columns))
  }

  /**
   * Allocates one name slot per column and, for field `i` in declaration
   * order, writes field `i`'s name into slot `i` when its tag equals some
   * column. Slot `i` is indexed by the field counter, not by the column.
   */
  method GetColumnsFieldNames(instance: Instance, columns: seq<string>) returns (res: Result<array<string>, Error>)
    ensures res.Failure? ==> Resolve(instance.PointerTo?, ShapeOf(instance), columns) == Failure(res.error)
    ensures res.Success? ==> Resolve(instance.PointerTo?, ShapeOf(instance), columns) == Success(res.value[..])
  {
    if !instance.PointerTo? {
      return Failure(NotPointer);
    }
    var t := instance.target.shape;
    var columnsFieldNameMap := new string[|columns|](_ => "");
    var numFields := |t|;
    var j := 0;
    for i := 0 to numFields
      invariant j == i
      invariant forall k :: 0 <= k < columnsFieldNameMap.Length ==>
        columnsFieldNameMap[k] == if k < i then ExpectedName(t, columns, k) else ""
      invariant forall k :: |columns| <= k < i ==> t[k].tag !in columns
    {
      var crudTag := t[i].tag;
      for c := 0 to |columns|
        invariant forall k :: 0 <= k < columnsFieldNameMap.Length && k != j ==>
          columnsFieldNameMap[k] == if k < i then ExpectedName(t, columns, k) else ""
        invariant j < columnsFieldNameMap.Length ==>
          columnsFieldNameMap[j] == if crudTag in columns[..c] then t[i].name else ""
        invariant j >= columnsFieldNameMap.Length ==> crudTag !in columns[..c]
      {
        if crudTag == columns[c] {
          if j >= columnsFieldNameMap.Length {
            var first := FirstTagMatchFrom(t, columns, |columns|);
            assert first == Some(j);
            return Failure(Panic(IndexOutOfRange(j, columnsFieldNameMap.Length)));
          }
          columnsFieldNameMap[j] := t[i].name;
        }
        assert columns[..c + 1] == columns[..c] + [columns[c]];
      }
      assert columns[..|columns|] == columns;
      j := j + 1;
    }
    assert columnsFieldNameMap[..] == FieldNames(t, columns);
    return Success(columnsFieldNameMap);
  }

  // ---------------------------------------------------------------------------
  // SetField

  /** `reflect.Value.FieldByName` on the struct: the index of the field called `name`. */
  function FieldIndex(shape: seq<Field>, name: string): (r: Option<nat>)
    ensures r.Some? ==> r.value < |shape| && shape[r.value].name == name
    ensures r.Some? ==> forall j :: 0 <= j < r.value ==> shape[j].name != name
    ensures r.None? ==> forall j :: 0 <= j < |shape| ==> shape[j].name != name
  {
    if shape == [] then None
    else if shape[0].name == name then Some(0)
    else match FieldIndex(shape[1..], name)
      case Some(k) => Some(k + 1)
      case None => None
  }

  /**
   * The value a settable field receives: the value itself when its type is
   * the field's, its conversion when convertible, and otherwise an error.
   */
  function Coerce(f: Field, value: Value, conv: Conversion): (r: Result<Value, Error>)
    ensures r.Success? <==> f.settable && value.Of? && (value.ty == f.ty || conv.convertibleTo(value.ty, f.ty))
    ensures !f.settable ==> r == Failure(CannotSet(f.name))
    ensures f.settable && value.Nil? ==> r == Failure(Panic(TypeOfNilValue))
    ensures f.settable && value.Of? && value.ty != f.ty && !conv.convertibleTo(value.ty, f.ty) ==>
      r == Failure(TypeMismatch(f.name, f.ty, value.ty))
    ensures r.Success? && value.ty == f.ty ==> r.value == value
    ensures r.Success? && value.ty != f.ty ==> r.value == conv.convert(value, f.ty)
  {
    if !f.settable then Failure(CannotSet(f.name))
    else if value.Nil? then Failure(Panic(TypeOfNilValue))
    else if value.ty == f.ty then Success(value)
    else if conv.convertibleTo(value.ty, f.ty) then Success(conv.convert(value, f.ty))
    else Failure(TypeMismatch(f.name, f.ty, value.ty))
  }

  /**
   * The effect of SetField on the struct's slots: the field called `name`
   * receives the coerced value and every other field keeps its value, or
   * the call fails and the record is left as it was.
   */
  function Assign(shape: seq<Field>, slots: seq<Value>, name: string, value: Value, conv: Conversion): (r: Result<seq<Value>, Error>)
    requires |slots| == |shape|
    ensures r.Success? ==> |r.value| == |slots|
    ensures FieldIndex(shape, name).None? ==> r == Failure(FieldNotFound(name))
    ensures FieldIndex(shape, name).Some? ==>
      var k := FieldIndex(shape, name).value;
      && (r.Success? <==> Coerce(shape[k], value, conv).Success?)
      && (r.Failure? ==> r.error == Coerce(shape[k], value, conv).error)
      && (r.Success? ==> r.value[k] == Coerce(shape[k], value, conv).value)
    ensures r.Success? ==> forall j {:trigger r.value[j]} :: 0 <= j < |slots| && shape[j].name != name ==> r.value[j] == slots[j]
  {
    match FieldIndex(shape, name)
    case None => Failure(FieldNotFound(name))
    case Some(k) =>
      match Coerce(shape[k], value, conv)
      case Failure(e) => Failure(e)
      case Success(v) => Success(slots[k := v])
  }

  /**
   * Assigns `value` to the field called `field` of the struct `instance`
   * points to, converting it when its type differs but is convertible.
   */
  method SetField(instance: Instance, field: string, value: Value, conv: Conversion) returns (err: Option<Error>)
    requires instance.PointerTo? ==> instance.target.Valid()
    requires conv.Valid()
    modifies Footprint(instance)
    ensures instance.PointerTo? ==> instance.target.Valid()
    ensures instance.NonPointer? ==> err == Some(NotPointer)
    ensures instance.PointerTo? ==>
      var r := Assign(instance.target.shape, old(instance.target.slots[..]), field, value, conv);
      && (r.Failure? ==> err == Some(r.error) && instance.target.slots[..] == old(instance.target.slots[..]))
      && (r.Success? ==> err == None && instance.target.slots[..] == r.value)
  {
    if !instance.PointerTo? {
      return Some(NotPointer);
    }
    var v := instance.target;
    var f := FieldIndex(v.shape, field);
    if f.None? {
      return Some(FieldNotFound(field));
    }
    var fieldType := v.shape[f.value].ty;
    if v.shape[f.value].settable {
      if value.Nil? {
        return Some(Panic(TypeOfNilValue));
      }
      var w := value;
      if fieldType != w.ty {
        if conv.convertibleTo(w.ty, fieldType) {
          w := conv.convert(w, fieldType);
        } else {
          return Some(TypeMismatch(field, fieldType, w.ty));
        }
      }
      v.slots[f.value] := w;
    } else {
      return Some(CannotSet(field));
    }
    return None;
  }

  // ---------------------------------------------------------------------------
  // Store.Scan and Store.Create

  /**
   * Scan's loop: SetField for each name slot in order, with its cell, stopping
   * at the first error and keeping what was assigned before it.
   */
  function Decode(shape: seq<Field>, slots: seq<Value>, names: seq<string>, values: seq<Value>, conv: Conversion): (d: Decoded)
    requires |slots| == |shape| && |names| == |values|
    decreases |names|
    ensures |d.slots| == |slots|
    ensures d.err.Some? ==> d.err.value.SettingField? || d.err.value == Panic(TypeOfNilValue)
  {
    if names == [] then Decoded(slots, None)
    else match Assign(shape, slots, names[0], values[0], conv)
      case Failure(e) => Decoded(slots, Some(if e.Panic? then e else SettingField(e)))
      case Success(next) => Decode(shape, next, names[1..], values[1..], conv)
  }

  /** One step of Decode: the first name's assignment, then the rest, or a stop at its error. */
  lemma DecodeStep(shape: seq<Field>, slots: seq<Value>, names: seq<string>, values: seq<Value>, conv: Conversion)
    requires |slots| == |shape| && |names| == |values| && names != []
    ensures
      var r := Assign(shape, slots, names[0], values[0], conv);
      Decode(shape, slots, names, values, conv)
        == if r.Failure? then Decoded(slots, Some(if r.error.Panic? then r.error else SettingField(r.error)))
           else Decode(shape, r.value, names[1..], values[1..], conv)
  {
  }

  /** What Scan does to a struct with the given shape and slots, reading from cursor `c`. */
  function ScanSpec(isPointer: bool, shape: seq<Field>, slots: seq<Value>, c: Cursor, conv: Conversion): (d: Decoded)
    requires |slots| == |shape|
    ensures |d.slots| == |slots|
    ensures d.err == Some(NoRows) <==> c.closed || c.pending == []
    ensures d.err.None? ==> isPointer && c.columns.Success?
  {
    var (more, c') := Advance(c);
    if !more then Decoded(slots, Some(NoRows)) else ScanCurrent(isPointer, shape, slots, c', conv)
  }

  /** Scan once `Rows.Next` has made a row current: read the columns, then the cells. */
  function ScanCurrent(isPointer: bool, shape: seq<Field>, slots: seq<Value>, c: Cursor, conv: Conversion): (d: Decoded)
    requires |slots| == |shape|
    ensures |d.slots| == |slots|
    ensures d.err != Some(NoRows)
    ensures d.err.None? ==>
      && !c.closed && c.columns.Success? && c.current.Some? && c.current.value.Row?
      && |c.current.value.cells| == |c.columns.value|
    ensures c.closed ==> d == Decoded(slots, Some(GettingColumns(RowsClosed)))
    ensures !c.closed && c.columns.Failure? ==> d == Decoded(slots, Some(GettingColumns(c.columns.error)))
    ensures !c.closed && c.columns.Success? && c.current.None? ==> d == Decoded(slots, Some(ScanningRows(NoCurrentRow)))
    ensures !c.closed && c.columns.Success? && c.current.Some? && c.current.value.Unreadable? ==>
      d == Decoded(slots, Some(ScanningRows(c.current.value.cause)))
    ensures (!c.closed && c.columns.Success? && c.current.Some? && c.current.value.Row?
             && |c.current.value.cells| != |c.columns.value|) ==>
      d == Decoded(slots, Some(ScanningRows(DestinationCount(|c.current.value.cells|, |c.columns.value|))))
  {
    match ColumnsOf(c)
    case Failure(cause) => Decoded(slots, Some(GettingColumns(cause)))
    case Success(columns) =>
      match ScanFailure(c, |columns|)
      case Some(cause) => Decoded(slots, Some(ScanningRows(cause)))
      case None => DecodeCells(isPointer, shape, slots, columns, c.current.value.cells, conv)
  }

  /** Scan once the cells are read: resolve the field names, then assign. */
  function DecodeCells(isPointer: bool, shape: seq<Field>, slots: seq<Value>, columns: seq<string>, cells: seq<Value>, conv: Conversion): (d: Decoded)
    requires |slots| == |shape| && |cells| == |columns|
    ensures |d.slots| == |slots|
    ensures d.err != Some(NoRows)
    ensures d.err.None? ==> isPointer && Resolve(isPointer, shape, columns).Success?
    ensures Resolve(isPointer, shape, columns).Failure? ==> d.slots == slots && d.err.Some?
    ensures !isPointer ==> d == Decoded(slots, Some(GettingFieldNames(NotPointer)))
    ensures isPointer && Resolve(isPointer, shape, columns).Failure? ==>
      d.err == Some(Resolve(isPointer, shape, columns).error) && d.err.value.Panic?
  {
    match Resolve(isPointer, shape, columns)
    case Failure(e) => Decoded(slots, Some(if e.Panic? then e else GettingFieldNames(e)))
    case Success(names) => Decode(shape, slots, names, cells, conv)
  }

  /** What Create does, given the database's answer to the query. */
  function CreateSpec(answer: Answer, isPointer: bool, shape: seq<Field>, slots: seq<Value>, conv: Conversion): (d: Decoded)
    requires |slots| == |shape|
    ensures d.err.None? <==>
      answer.ResultSet? && ScanSpec(isPointer, shape, slots, Cursor(answer.columns, answer.rows, None, false), conv).err.None?
    ensures answer.QueryFailed? ==> d == Decoded(slots, Some(Creating(answer.cause)))
    ensures answer.ResultSet? ==>
      var s := ScanSpec(isPointer, shape, slots, Cursor(answer.columns, answer.rows, None, false), conv);
      && d.slots == s.slots
      && (s.err.Some? && s.err.value.Panic? ==> d.err == s.err)
      && (s.err.Some? && !s.err.value.Panic? ==> d.err == Some(Scanning(s.err.value)))
  {
    match answer
    case QueryFailed(cause) => Decoded(slots, Some(Creating(cause)))
    case ResultSet(columns, rows) =>
      var d := ScanSpec(isPointer, shape, slots, Cursor(columns, rows, None, false), conv);
      Decoded(d.slots, if d.err.Some? && !d.err.value.Panic? then Some(Scanning(d.err.value)) else d.err)
  }

  /** `Store[in, out]`, which embeds the database handle. */
  class Store {
    const db: DB

    /** NewStore. */
    constructor (db: DB)
      ensures this.db == db
    {
      this.db := db;
    }

    /** Decodes the first row of `rows` into the struct `instance` points to. */
    method Scan(instance: Instance, rows: Rows, conv: Conversion) returns (err: Option<Error>)
      requires instance.PointerTo? ==> instance.target.Valid()
      requires conv.Valid()
      modifies rows, Footprint(instance)
      ensures instance.PointerTo? ==> instance.target.Valid()
      ensures rows.Snapshot() == Advance(old(rows.Snapshot())).1
      ensures
        var d := ScanSpec(instance.PointerTo?, ShapeOf(instance), old(SlotsOf(instance)), old(rows.Snapshot()), conv);
        err == d.err && SlotsOf(instance) == d.slots
    {
      ghost var before := old(rows.Snapshot());
      ghost var slots0 := SlotsOf(instance);
      var more := rows.Next();
      if !more {
        return Some(NoRows);
      }
      ghost var c := rows.Snapshot();
      assert ScanSpec(instance.PointerTo?, ShapeOf(instance), slots0, before, conv)
          == ScanCurrent(instance.PointerTo?, ShapeOf(instance), slots0, c, conv);
      var columnsResult := rows.Columns();
      if columnsResult.Failure? {
        return Some(GettingColumns(columnsResult.error));
      }
      var columns := columnsResult.value;
      var values := new Value[|columns|](_ => Nil);
      var valuePtrs := new nat[|columns|](_ => 0);
      for i := 0 to |columns|
        modifies valuePtrs
        invariant forall k :: 0 <= k < i ==> valuePtrs[k] == k
      {
        valuePtrs[i] := i;
      }
      var scanErr := rows.Scan(values, valuePtrs);
      if scanErr.Some? {
        return Some(ScanningRows(scanErr.value));
      }
      ghost var cells := rows.current.value.cells;
      assert values[..] == cells;
      assert ScanCurrent(instance.PointerTo?, ShapeOf(instance), slots0, c, conv)
          == DecodeCells(instance.PointerTo?, ShapeOf(instance), slots0, columns, cells, conv);
      var namesResult := GetColumnsFieldNames(instance, columns);
      if namesResult.Failure? {
        var e := namesResult.error;
        return Some(if e.Panic? then e else GettingFieldNames(e));
      }
      var orderedFieldNames := namesResult.value;
      assert instance.target.slots[..] == slots0 && values[..] == cells;
      assert DecodeCells(true, ShapeOf(instance), slots0, columns, cells, conv)
          == Decode(instance.target.shape, slots0, orderedFieldNames[..], cells, conv);
      err := SetFields(instance.target, orderedFieldNames, values, conv);
    }

    /**
     * Scan's last loop: SetField for each name slot `i` with cell `i`, in
     * order, returning at the first error.
     */
    method SetFields(target: Record, orderedFieldNames: array<string>, values: array<Value>, conv: Conversion) returns (err: Option<Error>)
      requires target.Valid() && conv.Valid()
      requires orderedFieldNames.Length == values.Length && values != target.slots
      modifies target.slots
      ensures target.Valid()
      ensures
        var d := Decode(target.shape, old(target.slots[..]), orderedFieldNames[..], values[..], conv);
        err == d.err && target.slots[..] == d.slots
    {
      var instance := PointerTo(target);
      ghost var shape := target.shape;
      ghost var outcome := Decode(shape, target.slots[..], orderedFieldNames[..], values[..], conv);
      assert orderedFieldNames[0..] == orderedFieldNames[..];
      assert values[0..] == values[..];
      for i := 0 to orderedFieldNames.Length
        invariant target.Valid()
        invariant outcome == Decode(shape, target.slots[..], orderedFieldNames[i..], values[i..], conv)
      {
        assert orderedFieldNames[i..][1..] == orderedFieldNames[i + 1..];
        assert values[i..][1..] == values[i + 1..];
        DecodeStep(shape, target.slots[..], orderedFieldNames[i..], values[i..], conv);
        var e := SetField(instance, orderedFieldNames[i], values[i], conv);
        if e.Some? {
          return Some(if e.value.Panic? then e.value else SettingField(e.value));
        }
      }
      return None;
    }

    /**
     * Runs `query` with the input's arguments and decodes the first result
     * row into `output`; the cursor is closed on every path once the query
     * has produced one.
     */
    method Create(query: string, input: Input, output: Instance, conv: Conversion) returns (err: Option<Error>, ghost cursor: Rows?)
      requires output.PointerTo? ==> output.target.Valid()
      requires conv.Valid()
      modifies Footprint(output)
      ensures output.PointerTo? ==> output.target.Valid()
      ensures
        var d := CreateSpec(db.answer(query, input.GetArgs), output.PointerTo?, ShapeOf(output), old(SlotsOf(output)), conv);
        err == d.err && SlotsOf(output) == d.slots
      ensures (cursor == null) == db.answer(query, input.GetArgs).QueryFailed?
      ensures cursor != null ==> fresh(cursor) && cursor.closed
    {
      var res := db.Query(query, input.GetArgs);
      if res.Failure? {
        return Some(Creating(res.error)), null;
      }
      var rows := res.value;
      cursor := rows;
      var e := Scan(output, rows, conv);
      rows.Close();
      err := if e.Some? && !e.value.Panic? then Some(Scanning(e.value)) else e;
    }
  }
}
