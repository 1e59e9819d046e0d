/** The text the Go-side binder emits, as functions of the descriptor. Each
    function gives the sequence of fragments that one part of the generator
    writes, one fragment per Printf call, so that the methods of GoGen can be
    proved to write exactly these fragments. */
module GoText {
  import opened Text
  import opened Descriptor

  // ---- Symbol names ----

  /** The exported symbol of a function wrapper or of a struct handle type. */
  function ExportName(name: string): string { "GoPy_" + name }

  /** The wrapper type of the field with raw 1-based index k of struct s. */
  function FieldWrapName(s: string, k: nat): string { "GoPy_" + s + "_field_" + Decimal(k) }

  /** The getter of the field with raw 1-based index k of struct s. */
  function GetterName(s: string, k: nat): string { "GoPy_" + s + "_getter_" + Decimal(k) }

  /** The constructor of struct s. */
  function CtorName(s: string): string { "GoPy_" + s + "_new" }

  /** The i-th result local in a function wrapper (`_gopy_%03d`). */
  function LocalName(i: nat): string { "_gopy_" + Pad3(i) }

  /** The cgo directive that exports a symbol. */
  function ExportLine(sym: string): string { "//export " + sym + "\n" }

  // ---- qualifiedType and tupleString ----

  /** How a type is spelled in a stub signature. A named type is spelled as
      the handle type that the struct binder declares for it. In
      qualifiedType (bind/gengo.go) the switch on the underlying type after
      the named case's return is dead code and has no counterpart here. */
  function QualifiedType(t: TypeRef): (r: string)
    ensures t.Basic? ==> r == t.name
    ensures t.Named? ==> r == ExportName(t.objName)
    ensures t.OtherType? ==> r == t.spelling
  {
    match t
    case Basic(name) => name
    case Named(objName, _) => "GoPy_" + objName
    case OtherType(spelling) => spelling
  }

  /** One tuple element as `name type`. */
  function Item(v: Var): string { v.name + " " + QualifiedType(v.typ) }

  function Items(t: seq<Var>): seq<string>
  {
    seq(|t|, i requires 0 <= i < |t| => Item(t[i]))
  }

  /** What tupleString returns for a tuple. */
  function TupleText(t: seq<Var>): string { Join(Items(t), ", ") }

  // ---- genFunc ----

  /** The parameter list of a wrapper signature, always parenthesised. */
  function ParamsClause(params: seq<Var>): string { "(" + TupleText(params) + ")" }

  /** The result clause of a wrapper signature: parenthesised only when
      there is more than one result, always followed by one space. */
  function ResultClause(results: seq<Var>): string
  {
    if |results| > 1 then "(" + TupleText(results) + ") " else TupleText(results) + " "
  }

  /** The single fragment genFunc writes before the body: the export
      directive, the doc comment and the wrapper signature. */
  function FuncHeader(pkgPath: string, f: string, params: seq<Var>, results: seq<Var>): string
  {
    "\n//export " + ExportName(f) + "\n// " + ExportName(f) + " wraps " + pkgPath + "." + f
    + "\nfunc " + ExportName(f) + ParamsClause(params) + ResultClause(results) + "{\n"
  }

  /** The fragments naming the first n result locals, comma separated. */
  function LhsParts(n: nat): seq<string>
    decreases n
  {
    if n == 0 then []
    else LhsParts(n - 1) + (if n - 1 > 0 then [", "] else []) + [LocalName(n - 1)]
  }

  function AssignParts(n: nat): seq<string> { if n > 0 then [" := "] else [] }

  /** The start of the forwarding call, `pkg.F(`. */
  function CallPart(pkgName: string, f: string): string { pkgName + "." + f + "(" }

  /** One fragment per parameter: its name, followed by ", " unless it is the last. */
  function ArgParts(params: seq<Var>): seq<string>
  {
    seq(|params|, i requires 0 <= i < |params| =>
      params[i].name + (if i + 1 < |params| then ", " else ""))
  }

  /** The fragments for the i-th local in the return line. */
  function RetExprParts(i: nat, v: Var): seq<string>
  {
    (if NeedWrap(v.typ) then [CgoType(v.typ) + "(unsafe.Pointer(&"] else [])
    + [LocalName(i)]
    + (if NeedWrap(v.typ) then ["))"] else [])
  }

  /** The fragments listing every result local after `return `. */
  function RetParts(results: seq<Var>): seq<string>
    decreases |results|
  {
    if results == [] then []
    else
      var n := |results| - 1;
      RetParts(results[..n]) + (if n > 0 then [", "] else []) + RetExprParts(n, results[n])
  }

  function ReturnParts(results: seq<Var>): seq<string>
  {
    if |results| == 0 then [] else ["return "] + RetParts(results) + ["\n"]
  }

  /** Everything genFuncBody writes. */
  function FuncBodyParts(pkgName: string, f: string, params: seq<Var>, results: seq<Var>): seq<string>
  {
    LhsParts(|results|) + AssignParts(|results|) + [CallPart(pkgName, f)]
    + ArgParts(params) + [")\n"] + ReturnParts(results)
  }

  /** Everything genFunc writes for one function. */
  function FuncParts(pkgName: string, pkgPath: string, f: string, params: seq<Var>, results: seq<Var>): seq<string>
  {
    [FuncHeader(pkgPath, f, params, results)] + FuncBodyParts(pkgName, f, params, results) + ["}\n\n"]
  }

  // ---- genStruct ----

  function HandleParts(s: string): seq<string>
  {
    [ExportLine(ExportName(s)), "type " + ExportName(s) + " unsafe.Pointer\n\n"]
  }

  /** The getter's return type: the field wrapper when the field is wrapped. */
  function GetterResultType(s: string, i: nat, f: Field): string
  {
    if NeedWrap(f.typ) then FieldWrapName(s, i + 1) else QualifiedType(f.typ)
  }

  /** The statement that a getter's body ends with. */
  function GetterBody(f: Field): string
  {
    if NeedWrap(f.typ) then CgoType(f.typ) + "(unsafe.Pointer(&ret." + f.name + "))\n"
    else "return ret." + f.name + "\n"
  }

  /** What genStruct writes for the field at 0-based raw position i. */
  function FieldPart(pkgName: string, s: string, i: nat, f: Field): seq<string>
  {
    if !f.exported then []
    else
      (if NeedWrap(f.typ)
       then [ExportLine(FieldWrapName(s, i + 1)), "type " + FieldWrapName(s, i + 1) + " unsafe.Pointer\n\n"]
       else [])
      + [ ExportLine(GetterName(s, i + 1)),
          "func " + GetterName(s, i + 1) + "(self " + ExportName(s) + ") " + GetterResultType(s, i, f) + " {\n",
          "ret := (*" + pkgName + "." + s + ")(unsafe.Pointer(self))\n",
          GetterBody(f),
          "}\n\n" ]
  }

  /** What genStruct writes for all fields, in raw order. */
  function FieldsParts(pkgName: string, s: string, fields: seq<Field>): seq<string>
    decreases |fields|
  {
    if fields == [] then []
    else
      var n := |fields| - 1;
      FieldsParts(pkgName, s, fields[..n]) + FieldPart(pkgName, s, n, fields[n])
  }

  function CtorParts(pkgName: string, s: string): seq<string>
  {
    [ ExportLine(CtorName(s)),
      "func " + CtorName(s) + "() " + ExportName(s) + " {\n",
      "return (" + ExportName(s) + ")(unsafe.Pointer(&" + pkgName + "." + s + "{}))\n",
      "}\n\n" ]
  }

  /** Everything genStruct writes for one struct. */
  function StructParts(pkgName: string, s: string, fields: seq<Field>): seq<string>
  {
    HandleParts(s) + FieldsParts(pkgName, s, fields) + CtorParts(pkgName, s)
  }

  // ---- gen and genPreamble ----

  /** fmt's %q of a string, for the characters that occur in package names
      and import paths: the string in double quotes, with `"` and `\` escaped. */
  function Quote(s: string): string { "\"" + Escape(s) + "\"" }

  function Escape(s: string): string
    decreases |s|
  {
    if s == [] then ""
    else (if s[0] == '"' then "\\\"" else if s[0] == '\\' then "\\\\" else [s[0]]) + Escape(s[1..])
  }

  /** The preamble template filled with the package name and quoted path. */
  function PreambleText(name: string, path: string): string
  {
    "// Package main is an autogenerated binder stub for package " + name + ".\n"
    + "// gopy gen -lang=go " + name + "\n"
    + "//\n"
    + "// File is generated by gopy gen. Do not edit.\n"
    + "package main\n"
    + "\n"
    + "//#cgo pkg-config: python2 --cflags --libs\n"
    + "//#include <stdlib.h>\n"
    + "//#include <string.h>\n"
    + "import \"C\"\n"
    + "\n"
    + "import (\n"
    + "\t\"unsafe\"\n"
    + "\n"
    + "\t" + Quote(path) + "\n"
    + ")\n"
    + "\n"
    + "var _ = unsafe.Pointer(nil)\n"
    + "\n"
    + "// --- begin cgo helpers ---\n"
    + "\n"
    + "//export CGoPy_GoString\n"
    + "func CGoPy_GoString(str *C.char) string { \n"
    + "\treturn C.GoString(str)\n"
    + "}\n"
    + "\n"
    + "//export CGoPy_CString\n"
    + "func CGoPy_CString(s string) *C.char {\n"
    + "\treturn C.CString(s)\n"
    + "}\n"
    + "\n"
    + "// --- end cgo helpers ---\n"
  }

  /** The main stub and the init function that keeps the cgo helpers linked. */
  function TrailerParts(name: string): seq<string>
  {
    [ "// buildmode=c-shared needs a 'main'\n\nfunc main() {}\n",
      "// tickle cgo\nfunc init() {\n",
      "str := C.CString(" + Quote(name) + ")\n",
      "C.free(unsafe.Pointer(str))\n",
      "}\n" ]
  }

  /** What the driver writes for one supported, exported declaration. */
  function DeclParts(pkgName: string, pkgPath: string, d: Decl): seq<string>
    requires Supported(d.kind)
  {
    match d.kind
    case Func(params, results) => FuncParts(pkgName, pkgPath, d.name, params, results)
    case Struct(fields) => StructParts(pkgName, d.name, fields)
  }

  /** The state of the driver's walk over the scope names: the declarations
      bound so far, in order, and the declaration it panicked on, if any. */
  datatype Walked = Walked(bound: seq<Decl>, aborted: Option<Decl>)

  /** One step of the walk: a declaration after a panic, or an unexported
      one, changes nothing; a supported one is bound; any other panics. */
  function Step(w: Walked, d: Decl): Walked
  {
    if w.aborted.Some? || !d.exported then w
    else if Supported(d.kind) then Walked(w.bound + [d], None)
    else Walked(w.bound, Some(d))
  }

  function Walk(decls: seq<Decl>): (w: Walked)
    ensures forall i :: 0 <= i < |w.bound| ==> w.bound[i].exported && Supported(w.bound[i].kind)
    ensures w.aborted.Some? ==> Blocks(w.aborted.value)
    decreases |decls|
  {
    if decls == [] then Walked([], None)
    else Step(Walk(decls[..|decls| - 1]), decls[|decls| - 1])
  }

  /** The bindings of supported declarations, one after the other. */
  function Bindings(pkgName: string, pkgPath: string, ds: seq<Decl>): seq<string>
    requires forall i :: 0 <= i < |ds| ==> Supported(ds[i].kind)
    decreases |ds|
  {
    if ds == [] then []
    else Bindings(pkgName, pkgPath, ds[..|ds| - 1]) + DeclParts(pkgName, pkgPath, ds[|ds| - 1])
  }

  /** What gen writes after the preamble: the bindings, then the trailer
      unless the walk panicked. */
  function GenBody(pkg: Package): seq<string>
  {
    var w := Walk(pkg.decls);
    Bindings(pkg.name, pkg.path, w.bound) + (if w.aborted.None? then TrailerParts(pkg.name) else [])
  }

  /** Everything gen writes for a package. */
  function GenParts(pkg: Package): seq<string>
  {
    [PreambleText(pkg.name, pkg.path)] + GenBody(pkg)
  }

  /** How a run of gen ends: nil, the accumulated error list, or a panic on
      an unsupported declaration. */
  datatype Outcome = Ok | Failed(errs: seq<string>) | Panicked(name: string, kind: DeclKind)

  function GenOutcome(pkg: Package, err: seq<string>): Outcome
  {
    var w := Walk(pkg.decls);
    if w.aborted.Some? then Panicked(w.aborted.value.name, w.aborted.value.kind)
    else if |err| > 0 then Failed(err)
    else Ok
  }
}
