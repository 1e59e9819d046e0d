/** The package surface the generator reads, as an abstract descriptor in
    place of go/types objects. */
module Descriptor {

  datatype Option<T> = None | Some(value: T)

  /** A type as the generator sees it: a basic type (int, string, ...), a
      named type (with the cgo spelling of its handle), or anything else,
      carried with the spelling that fmt's %#T would give it. */
  datatype TypeRef =
    | Basic(name: string)
    | Named(objName: string, cgotype: string)
    | OtherType(spelling: string)

  /** One element of a parameter or result tuple. */
  datatype Var = Var(name: string, typ: TypeRef)

  /** One struct field, in raw declaration order. */
  datatype Field = Field(name: string, typ: TypeRef, exported: bool)

  /** What a package-scope object is. Only functions and named struct types
      are supported; every other kind makes the generator panic. */
  datatype DeclKind =
    | Func(params: seq<Var>, results: seq<Var>)
    | Struct(fields: seq<Field>)
    | ConstDecl
    | VarDecl
    | InterfaceType
    | OtherNamedType
    | OtherObject

  datatype Decl = Decl(name: string, exported: bool, kind: DeclKind)

  /** A package: its name, its import path and its scope's declarations in
      the order gen visits them. gen loops over Scope.Names(), which go/types
      returns sorted by name, so `decls` stands for that name-sorted list,
      not for source order. Nothing in the model depends on the order being
      sorted: every property holds for any order of `decls`. */
  datatype Package = Package(name: string, path: string, decls: seq<Decl>)

  predicate Supported(k: DeclKind) { k.Func? || k.Struct? }

  /** An exported declaration the generator cannot handle: it panics on it. */
  predicate Blocks(d: Decl) { d.exported && !Supported(d.kind) }

  /** Whether a value of this type crosses the ABI behind an opaque pointer.
      The decision (needWrap / needWrapType) is made outside the core; this
      model takes it to hold exactly for named types. */
  predicate NeedWrap(t: TypeRef) { t.Named? }

  /** The cgo handle type of a wrapped value (the typedesc's cgotype). */
  function CgoType(t: TypeRef): string
    requires NeedWrap(t)
  {
    t.cgotype
  }
}
