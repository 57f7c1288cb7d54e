/**
 * Properties of the decoder in store.go, stated over the specification
 * functions of module Crud that the methods there are proved against.
 */
module CrudProperties {
  import opened Wrappers
  import opened Reflect
  import opened Sql
  import opened Crud

  // ---------------------------------------------------------------------------
  // GetColumnsFieldNames

  lemma {:induction false} FirstTagMatchIgnoresColumnOrder(shape: seq<Field>, c1: seq<string>, c2: seq<string>, k: nat)
    requires forall x :: x in c1 <==> x in c2
    decreases |shape| - k
    ensures FirstTagMatchFrom(shape, c1, k) == FirstTagMatchFrom(shape, c2, k)
  {
    if k < |shape| {
      FirstTagMatchIgnoresColumnOrder(shape, c1, c2, k + 1);
    }
  }

  /** Permuting the columns changes neither the names returned nor whether it panics. */
  lemma ResolveIgnoresColumnOrder(isPointer: bool, shape: seq<Field>, c1: seq<string>, c2: seq<string>)
    requires multiset(c1) == multiset(c2)
    ensures Resolve(isPointer, shape, c1) == Resolve(isPointer, shape, c2)
  {
    forall x
      ensures x in c1 <==> x in c2
    {
      assert x in c1 <==> x in multiset(c1);
      assert x in c2 <==> x in multiset(c2);
    }
    assert |c1| == |multiset(c1)| == |multiset(c2)| == |c2|;
    FirstTagMatchIgnoresColumnOrder(shape, c1, c2, |c1|);
    assert FieldNames(shape, c1) == FieldNames(shape, c2) by {
      forall k | 0 <= k < |c1|
        ensures ExpectedName(shape, c1, k) == ExpectedName(shape, c2, k)
      {
      }
    }
  }

  /**
   * GetColumnsFieldNames succeeds exactly for a pointer whose fields past the
   * last slot carry no column's tag; slot `k` then holds field `k`'s name if
   * its tag is a column and "" otherwise. It panics exactly when some field
   * past the last slot carries a column's tag, at the first such field.
   */
  lemma ResolveOutcome(isPointer: bool, shape: seq<Field>, columns: seq<string>)
    ensures Resolve(isPointer, shape, columns).Success? <==>
      isPointer && forall k :: |columns| <= k < |shape| ==> shape[k].tag !in columns
    ensures Resolve(isPointer, shape, columns).Success? ==>
      var names := Resolve(isPointer, shape, columns).value;
      && |names| == |columns|
      && forall k :: 0 <= k < |columns| ==>
        names[k] == if k < |shape| && shape[k].tag in columns then shape[k].name else ""
    ensures !isPointer ==> Resolve(isPointer, shape, columns) == Failure(NotPointer)
    ensures forall j :: isPointer && |columns| <= j < |shape| && shape[j].tag in columns ==>
      ((forall k :: |columns| <= k < j ==> shape[k].tag !in columns) ==>
        Resolve(isPointer, shape, columns) == Failure(Panic(IndexOutOfRange(j, |columns|))))
  {
    var first := FirstTagMatchFrom(shape, columns, |columns|);
    if isPointer && first.Some? {
      forall j | |columns| <= j < |shape| && shape[j].tag in columns && (forall k :: |columns| <= k < j ==> shape[k].tag !in columns)
        ensures j == first.value
      {
      }
    }
  }

  /** A field without a `crud` tag has tag "", so it is picked only when some column is literally named "". */
  lemma UntaggedFieldMatchesOnlyEmptyColumn(shape: seq<Field>, columns: seq<string>, k: nat)
    requires WellFormed(shape) && k < |shape| && k < |columns| && shape[k].tag == ""
    ensures FieldNames(shape, columns)[k] == shape[k].name <==> "" in columns
  {
  }

  // ---------------------------------------------------------------------------
  // SetField

  /** Setting a field twice with the same value is the same as setting it once. */
  lemma AssignIdempotent(shape: seq<Field>, slots: seq<Value>, name: string, value: Value, conv: Conversion)
    requires |slots| == |shape| && Assign(shape, slots, name, value, conv).Success?
    ensures Assign(shape, Assign(shape, slots, name, value, conv).value, name, value, conv)
         == Assign(shape, slots, name, value, conv)
  {
    var k := FieldIndex(shape, name).value;
    var v := Coerce(shape[k], value, conv).value;
    assert Assign(shape, slots, name, value, conv) == Success(slots[k := v]);
    assert slots[k := v][k := v] == slots[k := v];
  }

  /** Setting two different fields gives the same struct in either order. */
  lemma AssignCommutes(shape: seq<Field>, slots: seq<Value>, n1: string, v1: Value, n2: string, v2: Value, conv: Conversion)
    requires |slots| == |shape| && n1 != n2
    requires Assign(shape, slots, n1, v1, conv).Success? && Assign(shape, slots, n2, v2, conv).Success?
    ensures
      var a := Assign(shape, slots, n1, v1, conv).value;
      var b := Assign(shape, slots, n2, v2, conv).value;
      Assign(shape, a, n2, v2, conv).Success? && Assign(shape, a, n2, v2, conv) == Assign(shape, b, n1, v1, conv)
  {
    var k1 := FieldIndex(shape, n1).value;
    var k2 := FieldIndex(shape, n2).value;
    var a := Assign(shape, slots, n1, v1, conv).value;
    var b := Assign(shape, slots, n2, v2, conv).value;
    var w1 := Coerce(shape[k1], v1, conv).value;
    var w2 := Coerce(shape[k2], v2, conv).value;
    assert k1 != k2;
    assert a == slots[k1 := w1] && b == slots[k2 := w2];
    assert Assign(shape, a, n2, v2, conv) == Success(a[k2 := w2]);
    assert Assign(shape, b, n1, v1, conv) == Success(b[k1 := w1]);
    assert a[k2 := w2] == b[k1 := w1];
  }

  /** With a conversion that yields its target type, a coerced value has the field's type. */
  lemma CoerceTyped(f: Field, value: Value, conv: Conversion)
    requires conv.Valid() && Coerce(f, value, conv).Success?
    ensures Coerce(f, value, conv).value.Of? && Coerce(f, value, conv).value.ty == f.ty
  {
  }

  /** A successful SetField keeps every field holding a value of its declared type. */
  lemma AssignKeepsWellTyped(shape: seq<Field>, slots: seq<Value>, name: string, value: Value, conv: Conversion)
    requires WellTyped(shape, slots) && conv.Valid() && Assign(shape, slots, name, value, conv).Success?
    ensures WellTyped(shape, Assign(shape, slots, name, value, conv).value)
  {
    var k := FieldIndex(shape, name).value;
    CoerceTyped(shape[k], value, conv);
  }

  // ---------------------------------------------------------------------------
  // The loop of Scan

  /** Scan's loop keeps every field holding a value of its declared type, whether it succeeds or stops early. */
  lemma {:induction false} DecodeKeepsWellTyped(shape: seq<Field>, slots: seq<Value>, names: seq<string>, values: seq<Value>, conv: Conversion)
    requires WellTyped(shape, slots) && conv.Valid() && |names| == |values|
    decreases |names|
    ensures WellTyped(shape, Decode(shape, slots, names, values, conv).slots)
  {
    if names != [] {
      match Assign(shape, slots, names[0], values[0], conv)
      case Failure(_) =>
      case Success(next) =>
        AssignKeepsWellTyped(shape, slots, names[0], values[0], conv);
        DecodeKeepsWellTyped(shape, next, names[1..], values[1..], conv);
    }
  }

  /**
   * Decoding a concatenation decodes the first part and, only if that
   * succeeded, goes on from the struct it left: an error stops the loop and
   * keeps every assignment made before it.
   */
  lemma {:induction false} DecodeAppend(shape: seq<Field>, slots: seq<Value>, n1: seq<string>, v1: seq<Value>, n2: seq<string>, v2: seq<Value>, conv: Conversion)
    requires |slots| == |shape| && |n1| == |v1| && |n2| == |v2|
    decreases |n1|
    ensures
      var d1 := Decode(shape, slots, n1, v1, conv);
      Decode(shape, slots, n1 + n2, v1 + v2, conv) == if d1.err.Some? then d1 else Decode(shape, d1.slots, n2, v2, conv)
  {
    if n1 == [] {
      assert n1 + n2 == n2 && v1 + v2 == v2;
    } else {
      assert (n1 + n2)[0] == n1[0] && (n1 + n2)[1..] == n1[1..] + n2;
      assert (v1 + v2)[0] == v1[0] && (v1 + v2)[1..] == v1[1..] + v2;
      match Assign(shape, slots, n1[0], v1[0], conv)
      case Failure(_) =>
      case Success(next) =>
        DecodeAppend(shape, next, n1[1..], v1[1..], n2, v2, conv);
    }
  }

  /** A field that no name slot names keeps its value, whatever the outcome. */
  lemma {:induction false} DecodeKeepsUnnamedFields(shape: seq<Field>, slots: seq<Value>, names: seq<string>, values: seq<Value>, conv: Conversion, j: nat)
    requires |slots| == |shape| && |names| == |values| && j < |shape| && shape[j].name !in names
    decreases |names|
    ensures Decode(shape, slots, names, values, conv).slots[j] == slots[j]
  {
    if names != [] {
      match Assign(shape, slots, names[0], values[0], conv)
      case Failure(_) =>
      case Success(next) =>
        assert shape[j].name !in names[1..];
        DecodeKeepsUnnamedFields(shape, next, names[1..], values[1..], conv, j);
    }
  }

  /** The decode succeeds only if every name slot names a field that accepts its cell. */
  lemma {:induction false} DecodeSucceedsOnlyIfEveryNameAssignable(shape: seq<Field>, slots: seq<Value>, names: seq<string>, values: seq<Value>, conv: Conversion)
    requires |slots| == |shape| && |names| == |values|
    requires Decode(shape, slots, names, values, conv).err.None?
    decreases |names|
    ensures forall i :: 0 <= i < |names| ==>
      && FieldIndex(shape, names[i]).Some?
      && Coerce(shape[FieldIndex(shape, names[i]).value], values[i], conv).Success?
  {
    if names != [] {
      var next := Assign(shape, slots, names[0], values[0], conv).value;
      DecodeSucceedsOnlyIfEveryNameAssignable(shape, next, names[1..], values[1..], conv);
      forall i | 1 <= i < |names|
        ensures FieldIndex(shape, names[i]).Some?
      {
        assert names[i] == names[1..][i - 1];
      }
    }
  }

  /** Conversely, the decode succeeds when every name slot names a field that accepts its cell. */
  lemma {:induction false} DecodeSucceedsIfEveryNameAssignable(shape: seq<Field>, slots: seq<Value>, names: seq<string>, values: seq<Value>, conv: Conversion)
    requires |slots| == |shape| && |names| == |values|
    requires forall i :: 0 <= i < |names| ==>
      && FieldIndex(shape, names[i]).Some?
      && Coerce(shape[FieldIndex(shape, names[i]).value], values[i], conv).Success?
    decreases |names|
    ensures Decode(shape, slots, names, values, conv).err.None?
  {
    if names != [] {
      var next := Assign(shape, slots, names[0], values[0], conv);
      assert next.Success?;
      forall i | 0 <= i < |names[1..]|
        ensures FieldIndex(shape, names[1..][i]).Some?
        ensures Coerce(shape[FieldIndex(shape, names[1..][i]).value], values[1..][i], conv).Success?
      {
        assert names[1..][i] == names[i + 1] && values[1..][i] == values[i + 1];
      }
      DecodeSucceedsIfEveryNameAssignable(shape, next.value, names[1..], values[1..], conv);
    }
  }

  /**
   * After a successful decode, the field named by slot `i` holds cell `i`
   * (converted to its type), provided no later slot names the same field.
   */
  lemma {:induction false} DecodeSetsEachNamedField(shape: seq<Field>, slots: seq<Value>, names: seq<string>, values: seq<Value>, conv: Conversion, i: nat)
    requires |slots| == |shape| && |names| == |values| && i < |names|
    requires Decode(shape, slots, names, values, conv).err.None? && names[i] !in names[i + 1..]
    decreases |names|
    ensures FieldIndex(shape, names[i]).Some?
    ensures
      var k := FieldIndex(shape, names[i]).value;
      && Coerce(shape[k], values[i], conv).Success?
      && Decode(shape, slots, names, values, conv).slots[k] == Coerce(shape[k], values[i], conv).value
  {
    var next := Assign(shape, slots, names[0], values[0], conv).value;
    if i == 0 {
      var k := FieldIndex(shape, names[0]).value;
      DecodeKeepsUnnamedFields(shape, next, names[1..], values[1..], conv, k);
    } else {
      assert names[1..][i - 1..] == names[i..] && names[1..][i - 1 + 1..] == names[i + 1..];
      DecodeSetsEachNamedField(shape, next, names[1..], values[1..], conv, i - 1);
    }
  }

  /** Slot `i` names field `off + i`, which is settable, and cell `i` has exactly that field's type. */
  ghost predicate AlignedAt(shape: seq<Field>, off: nat, names: seq<string>, values: seq<Value>, i: int)
    requires 0 <= i < |names| == |values| && off + |names| <= |shape|
  {
    FieldIndex(shape, names[i]) == Some(off + i) && shape[off + i].settable && values[i].Of? && values[i].ty == shape[off + i].ty
  }

  /** Every slot of the run is aligned with its field. */
  ghost predicate Aligned(shape: seq<Field>, off: nat, names: seq<string>, values: seq<Value>) {
    && |names| == |values| && off + |names| <= |shape|
    && forall i :: 0 <= i < |names| ==> AlignedAt(shape, off, names, values, i)
  }

  /** Dropping the first slot and cell of an aligned run leaves a run aligned one field further on. */
  lemma AlignedTail(shape: seq<Field>, off: nat, names: seq<string>, values: seq<Value>)
    requires Aligned(shape, off, names, values) && names != []
    ensures Aligned(shape, off + 1, names[1..], values[1..])
  {
    forall i | 0 <= i < |names[1..]|
      ensures FieldIndex(shape, names[1..][i]) == Some(off + 1 + i) && shape[off + 1 + i].settable
      ensures values[1..][i].Of? && values[1..][i].ty == shape[off + 1 + i].ty
    {
      assert AlignedAt(shape, off, names, values, i + 1);
      assert names[1..][i] == names[i + 1] && values[1..][i] == values[i + 1];
    }
  }

  /** Assigning a value of exactly the type of a settable field stores it unchanged. */
  lemma AssignExact(shape: seq<Field>, slots: seq<Value>, name: string, value: Value, conv: Conversion, k: nat)
    requires |slots| == |shape| && k < |shape| && FieldIndex(shape, name) == Some(k)
    requires shape[k].settable && value.Of? && value.ty == shape[k].ty
    ensures Assign(shape, slots, name, value, conv) == Success(slots[k := value])
  {
    assert Coerce(shape[k], value, conv) == Success(value);
  }

  /**
   * Over an aligned run starting at field `off`, the decode succeeds and the
   * cells replace fields `off` to `off + |names| - 1`, every other field
   * keeping its value.
   */
  lemma {:induction false} DecodeInOrder(shape: seq<Field>, slots: seq<Value>, off: nat, names: seq<string>, values: seq<Value>, conv: Conversion)
    requires |slots| == |shape| && Aligned(shape, off, names, values)
    decreases |names|
    ensures Decode(shape, slots, names, values, conv) == Decoded(slots[..off] + values + slots[off + |names|..], None)
  {
    if names == [] {
      assert slots[..off] + slots[off..] == slots;
    } else {
      DecodeInOrderStep(shape, slots, off, names, values, conv);
      DecodeInOrder(shape, slots[off := values[0]], off + 1, names[1..], values[1..], conv);
      SpliceStep(slots, off, values);
    }
  }

  /** The first slot of an aligned run stores its cell, and the rest of the run stays aligned. */
  lemma DecodeInOrderStep(shape: seq<Field>, slots: seq<Value>, off: nat, names: seq<string>, values: seq<Value>, conv: Conversion)
    requires |slots| == |shape| && Aligned(shape, off, names, values) && names != []
    ensures Decode(shape, slots, names, values, conv) == Decode(shape, slots[off := values[0]], names[1..], values[1..], conv)
    ensures Aligned(shape, off + 1, names[1..], values[1..])
  {
    assert AlignedAt(shape, off, names, values, 0);
    AssignExact(shape, slots, names[0], values[0], conv, off);
    DecodeStep(shape, slots, names, values, conv);
    AlignedTail(shape, off, names, values);
  }

  /** Writing the first value at `off`, then splicing in the rest after it, splices in all of them. */
  lemma SpliceStep(slots: seq<Value>, off: nat, values: seq<Value>)
    requires values != [] && off + |values| <= |slots|
    ensures
      var next := slots[off := values[0]];
      next[..off + 1] + values[1..] + next[off + 1 + |values[1..]|..] == slots[..off] + values + slots[off + |values|..]
  {
    var next := slots[off := values[0]];
    assert next[..off + 1] == slots[..off] + [values[0]];
    assert next[off + 1 + |values[1..]|..] == slots[off + |values|..];
    assert [values[0]] + values[1..] == values;
  }

  /** In a well-formed struct, looking a field up by its own name finds it. */
  lemma FieldIndexOfOwnName(shape: seq<Field>, k: nat)
    requires WellFormed(shape) && k < |shape|
    ensures FieldIndex(shape, shape[k].name) == Some(k)
  {
  }

  // ---------------------------------------------------------------------------
  // Scan

  /** Without a first row Scan fails with "no rows returned" and touches nothing. */
  lemma ScanWithoutRowsFails(isPointer: bool, shape: seq<Field>, slots: seq<Value>, c: Cursor, conv: Conversion)
    requires |slots| == |shape| && (c.closed || c.pending == [])
    ensures ScanSpec(isPointer, shape, slots, c, conv) == Decoded(slots, Some(NoRows))
  {
  }

  /**
   * Every failure other than one raised while assigning fields (a wrapped
   * SetField error, or the panic on a nil cell) leaves the struct unchanged:
   * the row, columns, cells and names are all checked before any field is set.
   */
  lemma ScanChecksBeforeAssigning(isPointer: bool, shape: seq<Field>, slots: seq<Value>, c: Cursor, conv: Conversion)
    requires |slots| == |shape|
    requires
      var d := ScanSpec(isPointer, shape, slots, c, conv);
      d.err.Some? && !d.err.value.SettingField? && d.err.value != Panic(TypeOfNilValue)
    ensures ScanSpec(isPointer, shape, slots, c, conv).slots == slots
  {
  }

  /**
   * Scan succeeds only for a pointer and a cursor with a first row, and only
   * when the first |columns| fields all carry tags that are columns, are
   * settable, and no later field's tag is a column: slot `k` is field `k`'s
   * name or "", and "" names no field.
   */
  lemma ScanSucceedsOnlyWhenTagsCoverColumns(isPointer: bool, shape: seq<Field>, slots: seq<Value>, c: Cursor, conv: Conversion)
    requires WellFormed(shape) && |slots| == |shape|
    requires ScanSpec(isPointer, shape, slots, c, conv).err.None?
    ensures isPointer && !c.closed && c.pending != [] && c.columns.Success?
    ensures c.pending[0].Row? && |c.pending[0].cells| == |c.columns.value|
    ensures
      var columns := c.columns.value;
      && |columns| <= |shape|
      && (forall k :: 0 <= k < |columns| ==>
            shape[k].tag in columns && shape[k].settable && Coerce(shape[k], c.pending[0].cells[k], conv).Success?)
      && (forall k :: |columns| <= k < |shape| ==> shape[k].tag !in columns)
  {
    var c' := Advance(c).1;
    var columns := c.columns.value;
    var cells := c'.current.value.cells;
    var names := FieldNames(shape, columns);
    assert Decode(shape, slots, names, cells, conv).err.None?;
    DecodeSucceedsOnlyIfEveryNameAssignable(shape, slots, names, cells, conv);
    EmptySlotPastLastField(shape, columns);
    assert |columns| <= |shape|;
    forall k | 0 <= k < |columns|
      ensures shape[k].tag in columns && shape[k].settable && Coerce(shape[k], cells[k], conv).Success?
    {
      assert names[k] == ExpectedName(shape, columns, k);
      FieldIndexOfOwnName(shape, k);
    }
  }

  /**
   * Conversely, Scan succeeds for a pointer and an open cursor whose first
   * row is readable with one cell per column, when the first |columns|
   * fields are tagged with columns and accept their cells, and no later
   * field's tag is a column.
   */
  lemma ScanSucceedsWhenTagsCoverColumns(shape: seq<Field>, slots: seq<Value>, c: Cursor, conv: Conversion)
    requires WellFormed(shape) && |slots| == |shape|
    requires !c.closed && c.pending != [] && c.columns.Success?
    requires c.pending[0].Row? && |c.pending[0].cells| == |c.columns.value| <= |shape|
    requires forall k :: 0 <= k < |c.columns.value| ==>
      shape[k].tag in c.columns.value && Coerce(shape[k], c.pending[0].cells[k], conv).Success?
    requires forall k :: |c.columns.value| <= k < |shape| ==> shape[k].tag !in c.columns.value
    ensures ScanSpec(true, shape, slots, c, conv).err.None?
  {
    var columns := c.columns.value;
    var cells := c.pending[0].cells;
    var names := FieldNames(shape, columns);
    assert ScanSpec(true, shape, slots, c, conv) == DecodeCells(true, shape, slots, columns, cells, conv);
    assert FirstTagMatchFrom(shape, columns, |columns|).None?;
    forall i | 0 <= i < |names|
      ensures FieldIndex(shape, names[i]) == Some(i)
    {
      assert names[i] == ExpectedName(shape, columns, i);
      FieldIndexOfOwnName(shape, i);
    }
    DecodeSucceedsIfEveryNameAssignable(shape, slots, names, cells, conv);
  }

  /**
   * The order of Scan's checks once a first row exists: unreadable columns
   * first, then an unreadable row or a wrong cell count, then a non-pointer,
   * then the out-of-range panic, unwrapped; each leaves the struct as it was.
   */
  lemma ScanErrorOrder(isPointer: bool, shape: seq<Field>, slots: seq<Value>, c: Cursor, conv: Conversion)
    requires |slots| == |shape| && !c.closed && c.pending != []
    ensures c.columns.Failure? ==>
      ScanSpec(isPointer, shape, slots, c, conv) == Decoded(slots, Some(GettingColumns(c.columns.error)))
    ensures c.columns.Success? && c.pending[0].Unreadable? ==>
      ScanSpec(isPointer, shape, slots, c, conv) == Decoded(slots, Some(ScanningRows(c.pending[0].cause)))
    ensures c.columns.Success? && c.pending[0].Row? && |c.pending[0].cells| != |c.columns.value| ==>
      ScanSpec(isPointer, shape, slots, c, conv)
        == Decoded(slots, Some(ScanningRows(DestinationCount(|c.pending[0].cells|, |c.columns.value|))))
    ensures c.columns.Success? && c.pending[0].Row? && |c.pending[0].cells| == |c.columns.value| && !isPointer ==>
      ScanSpec(isPointer, shape, slots, c, conv) == Decoded(slots, Some(GettingFieldNames(NotPointer)))
    ensures c.columns.Success? && c.pending[0].Row? && |c.pending[0].cells| == |c.columns.value| && isPointer ==>
      forall j :: |c.columns.value| <= j < |shape| && shape[j].tag in c.columns.value ==>
        ((forall k :: |c.columns.value| <= k < j ==> shape[k].tag !in c.columns.value) ==>
          ScanSpec(isPointer, shape, slots, c, conv)
            == Decoded(slots, Some(Panic(IndexOutOfRange(j, |c.columns.value|)))))
  {
    if c.columns.Success? && c.pending[0].Row? && |c.pending[0].cells| == |c.columns.value| && isPointer {
      ResolveOutcome(isPointer, shape, c.columns.value);
    }
  }

  /** With more columns than fields, the slot just past the last field stays "". */
  lemma EmptySlotPastLastField(shape: seq<Field>, columns: seq<string>)
    ensures |columns| > |shape| ==> FieldNames(shape, columns)[|shape|] == ""
  {
  }

  /** On a fresh cursor whose first row is readable, Scan reduces to decoding that row's cells. */
  lemma ScanOfFirstRow(isPointer: bool, shape: seq<Field>, slots: seq<Value>, columns: seq<string>, cells: seq<Value>, rest: seq<Row>, conv: Conversion)
    requires |slots| == |shape| && |cells| == |columns|
    ensures ScanSpec(isPointer, shape, slots, Cursor(Success(columns), [Row(cells)] + rest, None, false), conv)
         == DecodeCells(isPointer, shape, slots, columns, cells, conv)
  {
    var c := Cursor(Success(columns), [Row(cells)] + rest, None, false);
    assert Advance(c) == (true, Cursor(Success(columns), rest, Some(Row(cells)), false));
  }

  /** When column `k` is field `k`'s tag, and no later field's tag is a column, slot `k` names field `k`. */
  lemma AlignedColumnsNameFieldsInOrder(shape: seq<Field>, columns: seq<string>)
    requires WellFormed(shape) && |columns| <= |shape|
    requires forall k :: 0 <= k < |columns| ==> columns[k] == shape[k].tag
    requires forall k :: |columns| <= k < |shape| ==> shape[k].tag !in columns
    ensures Resolve(true, shape, columns) == Success(FieldNames(shape, columns))
    ensures forall i :: 0 <= i < |columns| ==> FieldIndex(shape, FieldNames(shape, columns)[i]) == Some(i)
  {
    assert FirstTagMatchFrom(shape, columns, |columns|).None?;
    forall i | 0 <= i < |columns|
      ensures FieldIndex(shape, FieldNames(shape, columns)[i]) == Some(i)
    {
      assert shape[i].tag == columns[i];
      FieldIndexOfOwnName(shape, i);
    }
  }

  /**
   * The case store.go handles as intended: the columns are the tags of the
   * first fields in declaration order, and each cell has its field's type.
   * Scan then copies the row into those fields and succeeds.
   */
  lemma ScanDecodesAlignedRow(shape: seq<Field>, slots: seq<Value>, columns: seq<string>, cells: seq<Value>, rest: seq<Row>, conv: Conversion)
    requires WellFormed(shape) && |slots| == |shape| && |cells| == |columns| <= |shape|
    requires forall k :: 0 <= k < |columns| ==>
      columns[k] == shape[k].tag && shape[k].settable && cells[k].Of? && cells[k].ty == shape[k].ty
    requires forall k :: |columns| <= k < |shape| ==> shape[k].tag !in columns
    ensures ScanSpec(true, shape, slots, Cursor(Success(columns), [Row(cells)] + rest, None, false), conv)
         == Decoded(cells + slots[|columns|..], None)
  {
    var names := FieldNames(shape, columns);
    ScanOfFirstRow(true, shape, slots, columns, cells, rest, conv);
    AlignedColumnsNameFieldsInOrder(shape, columns);
    forall i | 0 <= i < |names|
      ensures AlignedAt(shape, 0, names, cells, i)
    {
    }
    DecodeInOrder(shape, slots, 0, names, cells, conv);
    assert DecodeCells(true, shape, slots, columns, cells, conv) == Decode(shape, slots, names, cells, conv);
    assert slots[..0] + cells == cells;
  }

  /**
   * Slot `i` is filled by field `i`, not by the field whose tag is column `i`:
   * with fields Name (tag "name") and Email (tag "email") and the columns in
   * the order email, name, Scan succeeds and stores the email cell in Name
   * and the name cell in Email.
   */
  lemma ScanPairsCellsWithFieldsByPosition(conv: Conversion)
    ensures
      var shape := [Field("Name", "name", String, true), Field("Email", "email", String, true)];
      var blank := [Of(String, Text("")), Of(String, Text(""))];
      var cells := [Of(String, Text("ann@example.org")), Of(String, Text("Ann"))];
      ScanSpec(true, shape, blank, Cursor(Success(["email", "name"]), [Row(cells)], None, false), conv)
        == Decoded(cells, None)
  {
    var shape := [Field("Name", "name", String, true), Field("Email", "email", String, true)];
    var blank := [Of(String, Text("")), Of(String, Text(""))];
    var cells := [Of(String, Text("ann@example.org")), Of(String, Text("Ann"))];
    var columns := ["email", "name"];
    assert "name" in columns && "email" in columns;
    assert FieldNames(shape, columns) == ["Name", "Email"];
    assert FieldIndex(shape, "Name") == Some(0) && FieldIndex(shape, "Email") == Some(1);
    assert AlignedAt(shape, 0, ["Name", "Email"], cells, 0) && AlignedAt(shape, 0, ["Name", "Email"], cells, 1);
    DecodeInOrder(shape, blank, 0, ["Name", "Email"], cells, conv);
    assert blank[..0] + cells + blank[2..] == cells;
  }

  // ---------------------------------------------------------------------------
  // A client, after store_test.go

  method SetFieldScenario(conv: Conversion)
    requires conv.Valid()
  {
    var shape := [Field("Column1", "column1", String, true)];
    var record := new Record(shape, [Of(String, Text(""))]);
    var instance := PointerTo(record);
    var err := SetField(instance, "Column1", Of(String, Text("new value")), conv);
    assert err == None;
    assert record.slots[0] == Of(String, Text("new value"));
    err := SetField(instance, "NonExistingField", Of(String, Text("value")), conv);
    assert err == Some(FieldNotFound("NonExistingField"));
    assert record.slots[0] == Of(String, Text("new value"));
  }
}
