/**
 * A static stand-in for the parts of Go's `reflect` package that the decoder
 * uses. A struct type is an explicit sequence of field descriptors, a dynamic
 * value carries its Go type, and the convertibility table is a given pair of
 * functions.
 */
module Reflect {

  /** Go types, by identity. `Named` covers every defined type (e.g. `uuid.UUID`). */
  datatype GoType =
    | Bool
    | Int
    | Int64
    | Float64
    | String
    | Bytes
    | Named(name: string)
    | Pointer(elem: GoType)

  /** The payload of a dynamic value; `Other` stands for any Go value by its memory image. */
  datatype Datum =
    | Boolean(b: bool)
    | Integer(i: int)
    | Float(bits: bv64)
    | Text(s: string)
    | ByteString(bytes: seq<bv8>)
    | Other(image: seq<bv8>)

  /** An `interface{}` value: the nil interface, or a value together with its dynamic type. */
  datatype Value = Nil | Of(ty: GoType, datum: Datum)

  /**
   * One field of a struct type: its name, the value of its `crud` struct tag
   * (`""` when the field has no such tag), its type, and whether reflection
   * may set it (exported fields reached through a pointer).
   */
  datatype Field = Field(name: string, tag: string, ty: GoType, settable: bool)

  /** Go's type system guarantees that a struct's field names are non-empty and distinct. */
  ghost predicate WellFormed(shape: seq<Field>) {
    && (forall i :: 0 <= i < |shape| ==> shape[i].name != "")
    && (forall i, j :: 0 <= i < j < |shape| ==> shape[i].name != shape[j].name)
  }

  /** Every slot holds a value whose dynamic type is its field's declared type. */
  ghost predicate WellTyped(shape: seq<Field>, slots: seq<Value>) {
    && |slots| == |shape|
    && forall i :: 0 <= i < |slots| ==> slots[i].Of? && slots[i].ty == shape[i].ty
  }

  /**
   * `Type.ConvertibleTo` and `Value.Convert`, taken as given: the model does
   * not fix Go's conversion table, only that a conversion yields the target type.
   */
  datatype Conversion = Conversion(convertibleTo: (GoType, GoType) -> bool, convert: (Value, GoType) -> Value) {
    ghost predicate Valid() {
      forall v: Value, t: GoType ::
        v.Of? && convertibleTo(v.ty, t) ==> convert(v, t).Of? && convert(v, t).ty == t
    }
  }

  /** A struct value in memory: a fixed shape and one mutable slot per field. */
  class Record {
    const shape: seq<Field>
    const slots: array<Value>

    ghost predicate Valid()
      reads slots
    {
      WellFormed(shape) && slots.Length == |shape| && WellTyped(shape, slots[..])
    }

    constructor (shape: seq<Field>, init: seq<Value>)
      requires WellFormed(shape) && WellTyped(shape, init)
      ensures Valid() && fresh(slots)
      ensures this.shape == shape && slots[..] == init
    {
      this.shape := shape;
      slots := new Value[|init|](i requires 0 <= i < |init| => init[i]);
    }
  }

  /** What may be passed as `instance any`: a pointer to a struct, or any non-pointer value. */
  datatype Instance = PointerTo(target: Record) | NonPointer

  /** The objects a decoder may write through `instance`. */
  function Footprint(instance: Instance): set<object> {
    if instance.PointerTo? then {instance.target.slots} else {}
  }

  /** The struct type behind `instance` (empty for a non-pointer). */
  function ShapeOf(instance: Instance): seq<Field> {
    if instance.PointerTo? then instance.target.shape else []
  }

  /** The current field values behind `instance` (empty for a non-pointer). */
  function SlotsOf(instance: Instance): seq<Value>
    reads Footprint(instance)
  {
    if instance.PointerTo? then instance.target.slots[..] else []
  }
}
