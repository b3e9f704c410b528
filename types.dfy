/** LLIR data types and linkage (`DataType`, `Linkage`, `Type`, `PointerType`,
    `StructType`). A type is a value; a pointer owns its base type. */
module Types {

  datatype DataType = Void | I8 | I16 | I32 | I64 | F32 | F64 | Ptr | Struct

  datatype Linkage = Global | Local | Extern

  datatype Type =
    | Basic(tag: DataType)                              // `new Type(tag)`
    | PointerType(base: Type)                           // `new PointerType(base)`
    | StructType(name: string, elementTypes: seq<Type>) // `new StructType(name, elements)`
  {
    /** `Type::getType`: pointer and struct types carry their own tags, and a
        type tagged with anything else is the basic type of that tag. */
    function GetType(): (t: DataType)
      ensures PointerType? ==> t == Ptr
      ensures StructType? ==> t == Struct
      ensures t != Ptr && t != Struct ==> this == Basic(t)
    {
      match this
      case Basic(t) => t
      case PointerType(_) => Ptr
      case StructType(_, _) => Struct
    }
  }

  function CreateVoidType(): (t: Type) ensures t.GetType() == Void { Basic(Void) }
  function CreateI8Type(): (t: Type) ensures t.GetType() == I8 { Basic(I8) }
  function CreateI16Type(): (t: Type) ensures t.GetType() == I16 { Basic(I16) }
  function CreateI32Type(): (t: Type) ensures t.GetType() == I32 { Basic(I32) }
  function CreateI64Type(): (t: Type) ensures t.GetType() == I64 { Basic(I64) }

  /** `PointerType(Type *baseType)`. */
  function PointerOf(base: Type): (t: Type)
    ensures t.PointerType? && t.GetType() == Ptr && t.base == base
  {
    PointerType(base)
  }

  /** `PointerType(DataType type)`: the base is a fresh plain type with that tag. */
  function PointerToTag(tag: DataType): (t: Type)
    ensures t.PointerType? && t.GetType() == Ptr && t.base.GetType() == tag
  {
    PointerType(Basic(tag))
  }

  function CreateVoidPtrType(): (t: Type)
    ensures t.PointerType? && t.GetType() == Ptr && t.base.GetType() == Void
  {
    PointerToTag(Void)
  }

  function CreateI8PtrType(): (t: Type)
    ensures t.PointerType? && t.GetType() == Ptr && t.base.GetType() == I8
  {
    PointerToTag(I8)
  }

  function CreateI16PtrType(): (t: Type)
    ensures t.PointerType? && t.GetType() == Ptr && t.base.GetType() == I16
  {
    PointerToTag(I16)
  }

  function CreateI32PtrType(): (t: Type)
    ensures t.PointerType? && t.GetType() == Ptr && t.base.GetType() == I32
  {
    PointerToTag(I32)
  }

  function CreateI64PtrType(): (t: Type)
    ensures t.PointerType? && t.GetType() == Ptr && t.base.GetType() == I64
  {
    PointerToTag(I64)
  }
}
