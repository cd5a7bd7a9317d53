/** Element data types shared by the DLPack exporter, the sparse matrix
    builder and the sparse solver factory.  The type registry itself
    (`quadrants/ir/type.h`, `data_type_name`, `data_type_size`) is not part
    of this model; the names and byte sizes below are the conventional ones
    the callers compare against ("f32", "f64", 4, 8, ...). */
module DataTypes {

  datatype PrimitiveType = F16 | F32 | F64 | I8 | I16 | I32 | I64 | U1 | U8 | U16 | U32 | U64

  /** A data type is either primitive or something else (a tensor, struct
      or pointer type), which every caller in the model rejects. */
  datatype DataType = Primitive(prim: PrimitiveType) | NonPrimitive

  /** `data_type_name` of a primitive type. */
  function Name(p: PrimitiveType): string
  {
    match p
    case F16 => "f16"
    case F32 => "f32"
    case F64 => "f64"
    case I8 => "i8"
    case I16 => "i16"
    case I32 => "i32"
    case I64 => "i64"
    case U1 => "u1"
    case U8 => "u8"
    case U16 => "u16"
    case U32 => "u32"
    case U64 => "u64"
  }

  /** `data_type_size` of a primitive type, in bytes (`u1` is stored in a byte). */
  function Size(p: PrimitiveType): nat
  {
    match p
    case F16 => 2
    case F32 => 4
    case F64 => 8
    case I8 => 1
    case I16 => 2
    case I32 => 4
    case I64 => 8
    case U1 => 1
    case U8 => 1
    case U16 => 2
    case U32 => 4
    case U64 => 8
  }

  predicate IsFloat(p: PrimitiveType)
  {
    p == F16 || p == F32 || p == F64
  }

  /** Name lookups that compare strings ("f32" == name) identify the type. */
  lemma NameIdentifies(a: PrimitiveType, b: PrimitiveType)
    ensures Name(a) == Name(b) <==> a == b
  {
  }
}
