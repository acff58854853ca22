/** The LLVM types of an imported module, as the LLVM 19 build of the importer represents them. */
module Types {
  import opened Common

  datatype FpKind = Half | BFloat | Single | Double | FP128 | X86FP80 | PPCFP128

  datatype Type =
    | VoidType
    | IntegerType(bits: U32)
    | PointerType(addrSpace: U32)
    | FPType(kind: FpKind)
    | FuncType(result: Type, params: seq<Type>, isVarArg: bool)
    | VectorType(vecElem: Type, lanes: U64, scalable: bool)
    | ArrayType(elem: Type, count: U64)
    | StructType(elems: seq<Type>, isPacked: bool)
    | NamedStructType(name: string)
    | X86MMXType
    | X86AMXType
    | MetadataType
    | LabelType
    | TokenType
    | TargetExtType

  datatype StructDef = Opaque | Defined(ty: Type)

  /** `named_struct_defs`: the definition of each named struct. */
  type Defs = map<string, StructDef>
}
