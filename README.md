# crud: the store decoder, in Dafny

This project models `store.go` of the Go package `crud`. That package maps the first row of a SQL result onto a Go struct by reflection:

- `GetColumnsFieldNames` lays out one name slot per result column. It fills slot `i` with the name of struct field `i` when that field's `crud:"…"` tag equals one of the columns, and leaves it `""` otherwise.
- `SetField` assigns one value to one struct field, looked up by name. It converts a value whose type differs but is convertible, and fails for a non-pointer, an unknown name, an unsettable field or an inconvertible type.
- `Store.Scan` advances the cursor and reads the columns and the cells of the first row. It computes the name slots, then calls `SetField` for slot `i` with cell `i`, stopping at the first error.
- `Store.Create` runs a query with the input's arguments, closes the cursor when it is done, and decodes the first row into the output struct.
- `NewStore` wraps a database handle.

The model is split into modules:

- `Reflect` stands in for the `reflect` package:
  - Go types, dynamic values (`Nil` for an untyped nil).
  - Struct fields as explicit descriptors (name, tag, type, settable).
  - A struct in memory as a `Record` object with one mutable slot per field.
  - `ConvertibleTo`/`Convert` as a given `Conversion`.
- `Sql` stands in for `database/sql`:
  - A `Rows` cursor object over a fixed list of rows (`Next`, `Columns`, `Scan` through destination pointers, `Close`).
  - A `DB` whose answer to each query is given.
- `Crud` is `store.go` itself:
  - Each Go function is written as an imperative method that follows the Go code branch by branch: arrays for the slices, loops with their invariants, the struct mutated in place.
  - Each method is proved equal to a specification function: `Resolve`, `Assign`, `Decode`, `ScanSpec`, `CreateSpec`.
- `CrudProperties` proves what these functions promise: the outcome of the name layout, insensitivity to column order, idempotence and commutation of assignments, the loop's frame and stop-at-first-error behaviour, type preservation, and the conditions under which a scan succeeds.

Errors are explicit values. Each `fmt.Errorf("…: %w", err)` wrapping is a constructor of `Crud.Error` (`GettingColumns`, `ScanningRows`, `GettingFieldNames`, `SettingField`, `Creating`, `Scanning`). Two of the code's runtime panics are modelled, and they are results too. `Panic(IndexOutOfRange(j, n))` comes from the write at store.go:119 when a field with index `j >= len(columns)` has a column's tag. `Panic(TypeOfNilValue)` comes from `v.Type()` at store.go:77 on a nil cell. A panic unwinds unwrapped through `Scan` and `Create`, and `Create`'s deferred `Close` still runs.

The doc comment at store.go:94-98 says the slice is "ordered by the order of the columns slice". The code indexes the slice by the field counter `j`, not by the column's position. This model follows the code. `CrudProperties.ScanPairsCellsWithFieldsByPosition` shows the consequence: columns `email, name` over fields `Name, Email` store the email in `Name`. That the code differs from its comment is stated here; it is not claimed as a defect.

## Model

| member | source | states |
|---|---|---|
| Crud.FirstTagMatchFrom | store.go:113-121 | the result is the first field at index `k` or later whose tag is one of the columns, or none when no such field exists |
| Crud.GetColumnsFieldNames | store.go:99-127 | the nested loops return exactly what `Resolve` gives: `NotPointer` for a non-pointer, the out-of-range panic at the first field at or past `len(columns)` whose tag is a column, or else the name slots |
| Crud.Resolve | store.go:99-127 | a non-pointer gives `NotPointer`; any other failure is the out-of-range panic at a field past the end of the slice, at index `len(columns)` or more, whose tag is a column; on success there is one slot per column, each either `""` or the name of the field at that index with a column's tag |
| CrudProperties.ResolveOutcome | store.go:103-126 | the name layout succeeds iff the instance is a pointer and no field at index `len(columns)` or more has a column's tag; slot `k` is then field `k`'s name if its tag is a column and `""` otherwise; a non-pointer gives `NotPointer`; otherwise it panics at the first offending field |
| CrudProperties.FirstTagMatchIgnoresColumnOrder | store.go:113-121 | which field first matches depends only on the set of columns |
| CrudProperties.ResolveIgnoresColumnOrder | store.go:110-126 | permuting the columns changes neither the slots returned nor whether and where it panics |
| CrudProperties.UntaggedFieldMatchesOnlyEmptyColumn | store.go:115-120 | a field without a `crud` tag fills its slot iff some column is literally `""` |
| CrudProperties.AlignedColumnsNameFieldsInOrder | store.go:110-126 | when column `k` is field `k`'s tag and no later field's tag is a column, the layout succeeds and slot `k` names field `k` |
| CrudProperties.ScanPairsCellsWithFieldsByPosition | store.go:110-124 | with fields Name/`name`, Email/`email` and columns `email, name`, Scan succeeds and stores the email cell in Name and the name cell in Email |
| Crud.FieldIndex | store.go:69-72 | the result is the index of the first field with that name, and none only if no field has it |
| Crud.Coerce | store.go:75-89 | succeeds iff the field is settable, the value is non-nil and its type is the field's or convertible to it; otherwise `CannotSet`, the nil panic or `TypeMismatch`, in that order of precedence; the value is kept as is when the type matches and converted otherwise |
| CrudProperties.CoerceTyped | store.go:76-86 | with a conversion that yields its target type, the value stored has the field's type |
| Crud.Assign | store.go:58-92 | an unknown name gives `FieldNotFound`; otherwise it succeeds iff `Coerce` does, the field receives the coerced value, every other field keeps its value, and the length is unchanged |
| Crud.SetField | store.go:58-92 | a non-pointer gives `NotPointer`; for a pointer, the error and the new struct are exactly `Assign`'s, and a failure leaves the struct unchanged; the struct stays well-typed |
| CrudProperties.AssignIdempotent | store.go:86 | setting a field twice to the same value is the same as setting it once |
| CrudProperties.AssignCommutes | store.go:69-86 | two successful assignments to different fields give the same struct in either order |
| CrudProperties.AssignKeepsWellTyped | store.go:75-86 | a successful assignment keeps every field holding a value of its declared type |
| Crud.Decode | store.go:48-53 | the loop keeps the number of fields, and any error it stops with is a wrapped SetField error or the nil panic |
| CrudProperties.DecodeAppend | store.go:48-53 | running the loop over two concatenated parts is running it over the first and, only if that succeeded, over the second from there |
| CrudProperties.DecodeKeepsUnnamedFields | store.go:48-53 | a field that no slot names keeps its value whatever the outcome |
| CrudProperties.DecodeSucceedsOnlyIfEveryNameAssignable | store.go:48-53 | the loop succeeds only if every slot names a field that accepts its cell |
| CrudProperties.DecodeSucceedsIfEveryNameAssignable | store.go:48-53 | conversely, the loop succeeds when every slot names a field that accepts its cell |
| CrudProperties.DecodeSetsEachNamedField | store.go:48-53 | after a successful loop, the field named by slot `i` holds cell `i`, coerced, unless a later slot names it again |
| CrudProperties.DecodeKeepsWellTyped | store.go:48-53 | the loop keeps every field well-typed, whether it succeeds or stops early |
| CrudProperties.DecodeInOrder | store.go:48-53 | when slot `i` names field `off + i`, that field is settable and cell `i` has exactly its type, the loop succeeds and the cells replace exactly those fields |
| Crud.Store.SetFields | store.go:48-53 | the loop writes into the struct exactly the slots `Decode` gives and returns its error, keeping the struct well-typed |
| Sql.Rows.Next | store.go:19 | a row becomes current iff the cursor is open with rows left; an exhausted cursor closes itself |
| Sql.Rows.Scan | store.go:29-36 | fails with the cursor's reason (closed, no current row, unreadable row, wrong destination count) and changes nothing, or stores cell `k` through destination `k` and changes nothing else |
| Sql.Rows.Close | store.go:138 | only the cursor's closed flag changes |
| Crud.Store.Scan | store.go:18-56 | the error and the new struct are exactly `ScanSpec` of the old struct and cursor, and the cursor has advanced by one `Next`; the struct stays well-typed |
| Crud.ScanSpec | store.go:18-53 | the number of fields is unchanged; Scan reports "no rows returned" exactly when the cursor is closed or has no rows left; success needs a pointer and readable columns |
| Crud.ScanCurrent | store.go:24-53 | once a row is current: a closed cursor or unreadable columns give `GettingColumns`; then a missing or unreadable row or a wrong cell count gives `ScanningRows` with its cause; each leaves the struct unchanged; success needs all of these to pass |
| Crud.DecodeCells | store.go:42-53 | a non-pointer gives `GettingFieldNames(NotPointer)`; for a pointer, a failed name layout is the out-of-range panic, passed on unwrapped; either way the struct is unchanged; success needs a pointer and a successful layout |
| CrudProperties.ScanWithoutRowsFails | store.go:19-21 | without a first row, Scan returns "no rows returned" and touches nothing |
| CrudProperties.ScanChecksBeforeAssigning | store.go:18-46 | every failure other than one raised while setting a field leaves the struct unchanged |
| CrudProperties.ScanSucceedsOnlyWhenTagsCoverColumns | store.go:18-56 | a successful Scan implies: a pointer; an open cursor with a readable first row, one cell per column; readable columns; no more columns than fields; each of the first `len(columns)` fields tagged with a column, settable, and accepting its cell; no later field tagged with a column |
| CrudProperties.ScanSucceedsWhenTagsCoverColumns | store.go:18-56 | conversely, those conditions make Scan succeed, so together the two lemmas give exactly when Scan succeeds |
| CrudProperties.ScanErrorOrder | store.go:24-46 | with a first row, the checks fail in this order, each with the struct unchanged: unreadable columns (`GettingColumns`), an unreadable row or a wrong cell count (`ScanningRows`), a non-pointer (`GettingFieldNames(NotPointer)`), then the out-of-range panic at the first field at or past `len(columns)` with a column's tag, unwrapped |
| CrudProperties.ScanDecodesAlignedRow | store.go:18-56 | when the columns are the tags of the first fields in declaration order and each cell has its field's type, Scan copies the row into those fields and succeeds |
| Sql.DB.Query | store.go:130-133 | a failing query returns its error; otherwise a fresh, open cursor over the answer's columns and rows with no current row |
| Crud.CreateSpec | store.go:129-146 | a failed query gives `Creating(cause)` without scanning and leaves the struct unchanged; on a result set the struct is what Scan leaves on the fresh cursor, and Scan's error is wrapped as `Scanning`, except a panic, which passes through; so Create succeeds iff Scan does |
| Crud.Store.Create | store.go:129-146 | the error and the new struct are exactly `CreateSpec` of the database's answer to the query and the input's arguments; the cursor exists iff the query did not fail, and then it is closed afterwards |
| Crud.Store.constructor | store.go:14-16 | `NewStore` keeps the given database handle |

## Left out

- Crud.Store.Scan: the first result, the `out` value, is always Go's zero value in store.go:20-55 and is not modelled; only the error and the effect on the struct are.
- The `reflect` package is not modelled itself. Field descriptors, `Tag.Get("crud")` (a field's tag is given as a string, `""` when absent), and `ConvertibleTo`/`Convert` are given. A `Conversion` is a parameter, assumed to yield its target type and never to panic.
- Embedded structs are not modelled: `FieldByName` can find promoted fields that `NumField` does not count.
- An instance that is a pointer to a non-struct is not modelled: in Go, `NumField` and `FieldByName` panic on it. Instances are a pointer to a struct (`PointerTo`) or not a pointer (`NonPointer`).
- Nil instances are not modelled. The model cannot express an untyped nil `instance`, where `t.Kind()` at store.go:103 would panic after a successful `rows.Scan`. It also cannot express a nil `*T`: `GetColumnsFieldNames` succeeds on one, since it reads only the type, and then `FieldByName` on the zero `Value` at store.go:69 panics as soon as there is a column. These panics are not modelled. `Instance` is either a pointer to an allocated struct or a non-nil non-pointer.
- Structs with several blank `_` fields are not modelled: Go allows them, but `Reflect.WellFormed` requires field names to be non-empty and distinct.
- The `database/sql` machinery is not modelled: drivers, connections, `rows.Err()`, and how a driver converts column values. A query's answer is a given function of the query text and its arguments, and a row's cells are given `Value`s. `Sql.Rows.Columns` belongs to this given cursor: a closed cursor answers `RowsClosed`, an open one its result set's columns.
- Sql.Rows.Scan: requires distinct, in-range destinations, which Go does not demand of its callers; store.go always passes `&values[0..n-1]`, which meets it.
- Crud.Store.SetFields: requires the cell array not to be the struct's own storage; in store.go the cells live in a fresh slice.
- Crud.SetField: requires the conversion to yield its target type, which `reflect.Value.Convert` guarantees and the model cannot see.
- The text of the error messages, including `%T` and `%v` renderings of types and kinds, is not modelled; each message is a constructor carrying its operands.
- The type parameters `in` and `out` of `Store` are not modelled. `StorageInput` is reduced to its `GetArgs` sequence of values, held as the field of `Crud.Input`. `StorageOutput` (crud.go:13-16) is not used by store.go.
- crud_test.go is not part of this model: it runs end to end against a real database. store_test.go's scenario is reproduced as the client method `CrudProperties.SetFieldScenario`.
- Concurrency and the lifetime of the database handle are not modelled.
