# gopy's Go-side binder, modelled in Dafny

gopy turns a Go package into a CPython extension module. Part of that work is
writing a Go "binder stub" (`package main`, built with `-buildmode=c-shared`),
which exports one C-callable wrapper per exported function and per exported
struct of the wrapped package. `bind/gengo.go` writes this stub. Its driver
`gen` walks the names of the package scope in the order `Scope.Names()`
returns them, which go/types sorts by name. It binds each exported function with
`genFunc`/`genFuncBody` and each exported struct with `genStruct`, then closes
the file with a `main` stub and an `init` function.

This project models that generator and proves what the text it writes looks
like. The modules are:

- `Text` (`text.dfy`): `strings.Join`, the flattening of a buffer of
  fragments, and the spellings of fmt's `%d` (`Decimal`) and `%03d` (`Pad3`).
- `Descriptor` (`descriptor.dfy`): the package surface the generator reads
  from `go/types`, as values. These are types, tuple elements, struct
  fields (raw order, exported flag), declarations and the package.
- `GoText` (`gotext.dfy`): the text itself, as functions of the descriptor.
  There is one fragment per `Printf` call. It holds the symbol-naming rules,
  `qualifiedType`, `tupleString`'s text, each binder's fragments, and the
  driver's walk (`Walk`) with the outcome of a run (`GenOutcome`).
- `GoTextProps` (`properties.dfy`): lemmas about that text:
  - tuple rendering and the result clause
  - the wrapper body and its single `return`
  - the raw-index naming of struct symbols
  - the order of bindings, and how a run ends
- `GoGen` (`gengo.dfy`): the `goGen` object as class `Generator`. Its `out`
  field is the output buffer as a sequence of fragments, and `level` is the
  printer's indentation. It also has the package and the accumulated `err`
  list, and one method per function of the source:
  - `gen` becomes `Gen`, with `GenScope`, `GenDecl` and `GenTrailer` as its
    parts.
  - `genFunc` and `genFuncBody` become `GenFunc` and `GenFuncBody`. Their
    loops are `GenLocals`, `GenArgs` and `GenReturnExprs`/`GenRetExpr`.
  - `genStruct` becomes `GenStruct`, with `GenField` and `GenCtor`.
  - `genPreamble` becomes `GenPreamble` and `tupleString` becomes
    `TupleString`.

  Each method is proved to append exactly the fragments its `GoText`
  function names, and to leave `level` and `err` as they were.

Behaviour of gengo.go that a caller might not expect, and that the model
keeps:

- Bindings come in alphabetical order of declaration name, not in source
  order, because `gen` walks the sorted `Scope.Names()` list. The model's
  `Package.decls` stands for that sorted list. Every lemma holds for any
  order of `decls`, so `WalkAppend`, `BindingsAppend` and
  `WalkBindsExported` say that the bindings follow the list's order,
  whatever it is.
- Every symbol is prefixed `GoPy_` (`GoPy_F`, `GoPy_S_getter_2`, ...).
- An exported declaration that is neither a function nor a struct makes
  `gen` panic; diagnostics are not collected. Declarations after it are
  never bound, and no trailer is written. `FuncThenInterface`,
  `InterfaceThenFunc` and `AbortedRun` state this. The model represents the
  panic as the outcome `Panicked`.
- A wrapper with no results still writes one space before `{`. A single
  result is written as `name type`, not only as its type.
- Export names can collide between declarations: a struct `S`'s
  constructor and a function `S_new`'s wrapper are the same symbol
  (`CtorMeetsFuncWrapper`).
- The getter of a wrapped field ends with the conversion expression itself.
  It has no `return` keyword (`GetterBody`).

## Model

| member | source | states |
|---|---|---|
| GoText.QualifiedType | bind/gengo.go:272-289 | a basic type is spelled by its name, a named type by the `GoPy_` handle of its object, anything else by its `%#T` spelling |
| GoGen.Generator.TupleString | bind/gengo.go:255-270 | the rendered tuple is the `name type` items in order joined by ", ", and the empty tuple renders as "" |
| GoTextProps.TupleTextEmpty | bind/gengo.go:255-270 | a tuple renders as "" if and only if it has no elements |
| GoTextProps.TupleTextAppend | bind/gengo.go:255-270 | rendering keeps order: a concatenation renders as the two renderings joined by ", " |
| GoTextProps.ResultClauseCases | bind/gengo.go:123-129 | no results give a single space; one result gives its `name type` unparenthesised; several give the first and the rest, comma separated, in parentheses |
| GoTextProps.LhsText | bind/gengo.go:152-160 | the assignment target lists the locals `_gopy_000`, `_gopy_001`, ... one per result, in order, separated by ", " |
| GoTextProps.LocalNames | bind/gengo.go:156 | result locals are pairwise distinct, and have exactly three digits below 1000 |
| GoTextProps.ArgsText | bind/gengo.go:164-171 | the forwarded arguments are the parameter names in original order, separated by ", " |
| GoTextProps.RetText | bind/gengo.go:179-193 | the return list has one entry per result, in order; an entry is wrapped in `cgotype(unsafe.Pointer(&...))` exactly when its result needs wrapping |
| GoTextProps.FuncBodyText | bind/gengo.go:151-195 | the body is `locals := ` (only with results), the call `pkg.F(args)`, and a `return` line only with results |
| GoTextProps.ReturnCount | bind/gengo.go:175-195 | the body contains the `return ` fragment once if the function has results and never otherwise |
| GoTextProps.StructSymbolsDistinct | bind/gengo.go:200-241 | within a struct, getters and field wrappers are distinct per raw index, and the handle, the wrappers, the getters and the constructor never share a name |
| GoTextProps.ExportLineInjective | bind/gengo.go:200-241 | two export directives are equal if and only if they export the same symbol |
| GoTextProps.GetterIff | bind/gengo.go:204-230 | a getter for 1-based index k is exported if and only if raw field k exists and is exported, counting unexported fields |
| GoTextProps.FieldWrapIff | bind/gengo.go:204-218 | a field wrapper type for index k is exported if and only if raw field k is exported and needs wrapping |
| GoTextProps.CtorOnce | bind/gengo.go:239-247 | every struct's text holds exactly one constructor directive, whatever its fields, and the constructor's four fragments close it |
| GoTextProps.WalkAbortsAtFirst | bind/gengo.go:63-102 | the walk panics if and only if some exported declaration is neither function nor struct; it panics on the first one, having bound everything before it |
| GoTextProps.WalkBindsExported | bind/gengo.go:63-72 | without a panic, the bound declarations are the exported ones, in the order of the scope list, with nothing else bound |
| GoTextProps.WalkAppend | bind/gengo.go:63-102 | declarations are bound in the order of the (name-sorted) scope list: walking a concatenation is walking its parts in turn |
| GoTextProps.BindingsAppend | bind/gengo.go:63-102 | the bindings' text is the texts of the declarations, in order |
| GoTextProps.CompleteRun | bind/gengo.go:63-117 | a run with no blocking declaration binds exactly the exported declarations, in list order, ends with the trailer, and returns the error list exactly when it is non-empty |
| GoTextProps.AbortedRun | bind/gengo.go:73-101 | a run with a blocking declaration panics naming the first one and its kind, and writes only the bindings before it after the preamble |
| GoTextProps.NothingExported | bind/gengo.go:59-117 | a package without exported declarations gets the preamble followed only by the trailer, and fails only when errors were already recorded |
| GoTextProps.FuncThenInterface | bind/gengo.go:73-101 | a function then an interface: the function is bound in full, then the run panics on the interface without a trailer |
| GoTextProps.InterfaceThenFunc | bind/gengo.go:73-101 | an interface then a function: the run panics before binding anything |
| GoTextProps.CtorMeetsFuncWrapper | bind/gengo.go:239-241 | the constructor of struct S carries the same export name as the wrapper of a function S_new |
| Text.Decimal | bind/gengo.go:213-219 | `%d` of a number is a non-empty string of digits with no leading zero (except for 0 itself); it has one, two or three digits exactly below 10, 100 and 1000, and each factor of ten adds one digit |
| Text.DecimalRoundTrip | bind/gengo.go:213-219 | `%d` loses nothing: reading the digits back gives the number |
| Text.Pad3Spelling | bind/gengo.go:156 | `%03d` gives three digits below 1000, plain `%d` from 1000 on, and always reads back as the number |
| GoGen.Generator.Gen | bind/gengo.go:59-118 | appends the preamble, then the bindings of the exported declarations in the order of the scope list, then the trailer unless it panicked; returns the panic, the error list, or nil |
| GoGen.Generator.GenScope | bind/gengo.go:63-102 | appends the bindings of the walk and reports the declaration it panicked on |
| GoGen.Generator.GenDecl | bind/gengo.go:65-100 | dispatches a function to the function binder and a struct to the struct binder |
| GoGen.Generator.GenTrailer | bind/gengo.go:105-111 | appends the `main` stub and the `init` function naming the package |
| GoGen.Generator.GenPreamble | bind/gengo.go:250-253 | appends the preamble filled with the package name and its quoted import path |
| GoGen.Generator.GenFunc | bind/gengo.go:120-146 | appends the export directive, doc comment and signature, the body, and the closing brace |
| GoGen.Generator.GenFuncBody | bind/gengo.go:148-196 | appends the locals, the call with forwarded parameters, and the return line |
| GoGen.Generator.GenLocals | bind/gengo.go:152-160 | appends the result locals, comma separated |
| GoGen.Generator.GenArgs | bind/gengo.go:164-171 | appends the parameter names, comma separated |
| GoGen.Generator.GenReturnExprs | bind/gengo.go:179-194 | appends the return entries, comma separated |
| GoGen.Generator.GenRetExpr | bind/gengo.go:183-193 | appends one return entry, wrapped when the result needs it |
| GoGen.Generator.GenStruct | bind/gengo.go:198-248 | appends the handle type, each exported field's part in raw order, then the constructor |
| GoGen.Generator.GenField | bind/gengo.go:205-236 | appends a field's wrapper type (only when wrapped) and its getter, both named by the raw index plus one |
| GoGen.Generator.GenCtor | bind/gengo.go:239-247 | appends the constructor returning a handle to a zero value |

## Left out

- Debug logging (`debugf`) writes nothing into the stub and is not modelled.
- The debug comment that genFuncBody writes on the return line (line 190) is
  not part of the modelled text.
- Indentation is kept only as the `level` counter. Applying it to the printed
  lines belongs to the printer, which is not part of this model.
- `go/types` is replaced by the descriptor. `Exported`, the object kinds and
  `Underlying` become fields of `Decl`. The type assertions on the scope
  objects become the `DeclKind` variants.
- The order of `Scope.Names()` is the order of `Package.decls`. go/types
  sorts those names by name, but the model does not sort them: it takes the
  list as given, and its lemmas hold for any order.
- The wrapping decision (`needWrap`/`needWrapType`) and the typedesc table
  are not part of this model. `NeedWrap` takes a type to need wrapping
  exactly when it is named, and `CgoType` reads its cgo spelling from the
  type.
- QualifiedType: the `%#T` fallback is kept as an opaque spelling. The switch
  on the underlying type after the named case's return is dead code and is
  not modelled.
- Quote: fmt's `%q` is modelled only for escaping `"` and `\`. Control and
  non-printable characters in package names or paths are not modelled.
- A panic is modelled as the `Panicked` outcome of `Gen`. Recovery, if any,
  is up to callers outside the core.
- The third argument that genPreamble passes to Printf (line 252) has no
  verb in the template and is not modelled.
- The `err` list is only read: nothing in the core adds to it.
- Compiling the stub with cgo, and the stub's behaviour at run time, are not
  modelled.
- ReturnCount: requires that parameter names contain no space. A name
  `return ` would otherwise be a fragment of the call. Go identifiers never
  contain one.
