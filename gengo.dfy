/** The Go-side generator: an object owning the printer's output buffer,
    whose methods append fragments to it exactly as the binder does. */
module GoGen {
  import opened Text
  import opened Descriptor
  import opened GoText
  import GoTextProps

  class Generator {
    /** The printer's buffer: one entry per Printf call, in call order. */
    var out: seq<string>
    /** The printer's indentation level. */
    var level: int
    /** The package being bound. */
    const pkg: Package
    /** Errors gathered for this run; gen only reads them. */
    var err: seq<string>

    constructor (pkg: Package, err: seq<string>)
      ensures out == [] && level == 0 && this.pkg == pkg && this.err == err
    {
      this.pkg := pkg;
      this.err := err;
      out := [];
      level := 0;
    }

    method Printf(s: string)
      modifies this
      ensures out == old(out) + [s] && level == old(level) && err == old(err)
    {
      out := out + [s];
    }

    method Indent()
      modifies this
      ensures out == old(out) && level == old(level) + 1 && err == old(err)
    {
      level := level + 1;
    }

    method Outdent()
      modifies this
      ensures out == old(out) && level == old(level) - 1 && err == old(err)
    {
      level := level - 1;
    }

    /** tupleString: every element as `name type`, in tuple order, joined by
        ", "; the empty string for an empty tuple. */
    method TupleString(tuple: seq<Var>) returns (r: string)
      ensures tuple == [] ==> r == ""
      ensures r == Join(Items(tuple), ", ")
    {
      var n := |tuple|;
      if n <= 0 {
        return "";
      }
      var str: seq<string> := [];
      for i := 0 to |tuple|
        invariant |str| == i
        invariant forall k :: 0 <= k < i ==> str[k] == tuple[k].name + " " + QualifiedType(tuple[k].typ)
      {
        var v := tuple[i];
        str := str + [v.name + " " + QualifiedType(v.typ)];
      }
      assert str == Items(tuple);
      r := Join(str, ", ");
    }

    /** gen: the preamble, one binding per exported declaration in scope
        order, then the trailer; a panic on the first exported declaration
        that is neither a function nor a named struct. */
    method Gen() returns (res: Outcome)
      modifies this
      ensures out == old(out) + GenParts(pkg)
      ensures res == GenOutcome(pkg, err)
      ensures level == old(level) && err == old(err)
    {
      GenPreamble();
      ghost var start := out;
      var aborted := GenScope();
      ghost var body := Bindings(pkg.name, pkg.path, Walk(pkg.decls).bound);
      if aborted.Some? {
        Assoc(old(out), [PreambleText(pkg.name, pkg.path)], body);
        return Panicked(aborted.value.name, aborted.value.kind);
      }
      GenTrailer();
      Assoc(start, body, TrailerParts(pkg.name));
      Assoc(old(out), [PreambleText(pkg.name, pkg.path)], body + TrailerParts(pkg.name));

      if |err| > 0 {
        return Failed(err);
      }
      return Ok;
    }

    /** gen's loop over the scope names: binds each exported declaration in
        order and stops at the first one it cannot bind, which it returns
        (where gen panics). */
    method GenScope() returns (aborted: Option<Decl>)
      modifies this
      ensures out == old(out) + Bindings(pkg.name, pkg.path, Walk(pkg.decls).bound)
      ensures aborted == Walk(pkg.decls).aborted
      ensures level == old(level) && err == old(err)
    {
      var decls := pkg.decls;
      for i := 0 to |decls|
        invariant Walk(decls[..i]).aborted.None?
        invariant out == old(out) + Bindings(pkg.name, pkg.path, Walk(decls[..i]).bound)
        invariant level == old(level) && err == old(err)
      {
        var d := decls[i];
        ghost var before := Walk(decls[..i]).bound;
        GoTextProps.WalkStep(decls, i);
        if !d.exported {
          continue;
        }
        if !Supported(d.kind) {
          GoTextProps.WalkAbortPersists(decls, i + 1);
          return Some(d);
        }
        GenDecl(d);
        GoTextProps.BindingsSnoc(pkg.name, pkg.path, before, d);
        Assoc(old(out), Bindings(pkg.name, pkg.path, before), DeclParts(pkg.name, pkg.path, d));
      }
      assert decls[..|decls|] == decls;
      return None;
    }

    /** The supported arms of gen's type switch: a function or a named struct. */
    method GenDecl(d: Decl)
      requires Supported(d.kind)
      modifies this
      ensures out == old(out) + DeclParts(pkg.name, pkg.path, d)
      ensures level == old(level) && err == old(err)
    {
      match d.kind {
        case Func(params, results) =>
          GenFunc(d.name, params, results);
        case Struct(fields) =>
          GenStruct(d.name, fields);
      }
    }

    /** The end of gen: the empty main and the init that keeps cgo linked. */
    method GenTrailer()
      modifies this
      ensures out == old(out) + TrailerParts(pkg.name)
      ensures level == old(level) && err == old(err)
    {
      Printf("// buildmode=c-shared needs a 'main'\n\nfunc main() {}\n");
      Printf("// tickle cgo\nfunc init() {\n");
      Indent();
      Printf("str := C.CString(" + Quote(pkg.name) + ")\n");
      Printf("C.free(unsafe.Pointer(str))\n");
      Outdent();
      Printf("}\n");
    }

    /** genFunc: the export directive and signature, the body, the closing brace. */
    method GenFunc(name: string, params: seq<Var>, results: seq<Var>)
      modifies this
      ensures out == old(out) + FuncParts(pkg.name, pkg.path, name, params, results)
      ensures level == old(level) && err == old(err)
    {
      var ps := TupleString(params);
      ps := "(" + ps + ")";
      var ret := TupleString(results);
      if |results| > 1 {
        ret := "(" + ret + ") ";
      } else {
        ret := ret + " ";
      }
      var header := "\n//export " + ExportName(name) + "\n// " + ExportName(name) + " wraps " + pkg.path + "." + name
        + "\nfunc " + ExportName(name) + ps + ret + "{\n";
      assert header == FuncHeader(pkg.path, name, params, results);
      Printf(header);
      Indent();
      GenFuncBody(name, params, results);
      Outdent();
      Printf("}\n\n");
      Assoc(old(out), [header], FuncBodyParts(pkg.name, name, params, results));
      Assoc(old(out), [header] + FuncBodyParts(pkg.name, name, params, results), ["}\n\n"]);
    }

    /** genFuncBody: bind the results to numbered locals, forward the call,
        and return the locals, wrapped where needed. */
    method GenFuncBody(name: string, params: seq<Var>, results: seq<Var>)
      modifies this
      ensures out == old(out) + FuncBodyParts(pkg.name, name, params, results)
      ensures level == old(level) && err == old(err)
    {
      var n := |results|;
      GenLocals(n);
      if n > 0 {
        Printf(" := ");
      }
      Printf(CallPart(pkg.name, name));
      GenArgs(params);
      Printf(")\n");
      ghost var front := out;
      if n > 0 {
        Printf("return ");
        GenReturnExprs(results);
        Printf("\n");
        GoTextProps.AppendAssoc3(front, ["return "], RetParts(results), ["\n"]);
      }
      GoTextProps.FuncBodySplit(old(out), pkg.name, name, params, results);
    }

    /** The first loop of genFuncBody: `_gopy_000, _gopy_001, ...`, one per result. */
    method GenLocals(n: nat)
      modifies this
      ensures out == old(out) + LhsParts(n)
      ensures level == old(level) && err == old(err)
    {
      for i := 0 to n
        invariant out == old(out) + LhsParts(i)
        invariant level == old(level) && err == old(err)
      {
        if i > 0 {
          Printf(", ");
        }
        Printf(LocalName(i));
        GoTextProps.LhsPartsStep(old(out), i);
      }
    }

    /** The second loop of genFuncBody: the parameter names, comma separated. */
    method GenArgs(params: seq<Var>)
      modifies this
      ensures out == old(out) + ArgParts(params)
      ensures level == old(level) && err == old(err)
    {
      for i := 0 to |params|
        invariant out == old(out) + ArgParts(params)[..i]
        invariant level == old(level) && err == old(err)
      {
        var tail := "";
        if i + 1 < |params| {
          tail := ", ";
        }
        Printf(params[i].name + tail);
        assert ArgParts(params)[..i + 1] == ArgParts(params)[..i] + [params[i].name + tail];
        Assoc(old(out), ArgParts(params)[..i], [params[i].name + tail]);
      }
      assert ArgParts(params)[..|params|] == ArgParts(params);
    }

    /** The last loop of genFuncBody: every local, comma separated, behind
        its cgo handle type when the result needs wrapping. */
    method GenReturnExprs(results: seq<Var>)
      modifies this
      ensures out == old(out) + RetParts(results)
      ensures level == old(level) && err == old(err)
    {
      for i := 0 to |results|
        invariant out == old(out) + RetParts(results[..i])
        invariant level == old(level) && err == old(err)
      {
        if i > 0 {
          Printf(", ");
        }
        var res := results[i];
        GenRetExpr(i, res);
        GoTextProps.RetPartsStep(old(out), results, i);
      }
      assert results[..|results|] == results;
    }

    /** One entry of the return line. */
    method GenRetExpr(i: nat, res: Var)
      modifies this
      ensures out == old(out) + RetExprParts(i, res)
      ensures level == old(level) && err == old(err)
    {
      if NeedWrap(res.typ) {
        Printf(CgoType(res.typ) + "(unsafe.Pointer(&");
      }
      Printf(LocalName(i));
      if NeedWrap(res.typ) {
        Printf("))");
      }
      GoTextProps.AppendAssoc3(old(out),
        if NeedWrap(res.typ) then [CgoType(res.typ) + "(unsafe.Pointer(&"] else [],
        [LocalName(i)],
        if NeedWrap(res.typ) then ["))"] else []);
    }

    /** genStruct: the handle type, a getter (and, for a wrapped field, a
        field type) per exported field named by its raw index, and one
        constructor. */
    method GenStruct(name: string, fields: seq<Field>)
      modifies this
      ensures out == old(out) + StructParts(pkg.name, name, fields)
      ensures level == old(level) && err == old(err)
    {
      var pkgname := pkg.name;
      Printf(ExportLine(ExportName(name)));
      Printf("type " + ExportName(name) + " unsafe.Pointer\n\n");
      ghost var head := out;
      assert head == old(out) + HandleParts(name);

      for i := 0 to |fields|
        invariant out == head + FieldsParts(pkgname, name, fields[..i])
        invariant level == old(level) && err == old(err)
      {
        var f := fields[i];
        GoTextProps.FieldsPartsSnoc(pkgname, name, fields, i);
        if !f.exported {
          continue;
        }
        GenField(name, i, f);
        Assoc(head, FieldsParts(pkgname, name, fields[..i]), FieldPart(pkgname, name, i, f));
      }
      assert fields[..|fields|] == fields;
      GenCtor(name);
      GoTextProps.AppendAssoc3(old(out), HandleParts(name), FieldsParts(pkgname, name, fields), CtorParts(pkgname, name));
    }

    /** The end of genStruct: the constructor of a zero value. */
    method GenCtor(name: string)
      modifies this
      ensures out == old(out) + CtorParts(pkg.name, name)
      ensures level == old(level) && err == old(err)
    {
      var pkgname := pkg.name;
      Printf(ExportLine(CtorName(name)));
      Printf("func " + CtorName(name) + "() " + ExportName(name) + " {\n");
      Indent();
      Printf("return (" + ExportName(name) + ")(unsafe.Pointer(&" + pkgname + "." + name + "{}))\n");
      Outdent();
      Printf("}\n\n");
    }

    /** The part of genStruct's loop for one exported field at raw position i. */
    method GenField(name: string, i: nat, f: Field)
      requires f.exported
      modifies this
      ensures out == old(out) + FieldPart(pkg.name, name, i, f)
      ensures level == old(level) && err == old(err)
    {
      var pkgname := pkg.name;
      var ft := f.typ;
      var ftname := QualifiedType(ft);
      if NeedWrap(ft) {
        ftname := FieldWrapName(name, i + 1);
        Printf(ExportLine(ftname));
        Printf("type " + ftname + " unsafe.Pointer\n\n");
      }
      Printf(ExportLine(GetterName(name, i + 1)));
      Printf("func " + GetterName(name, i + 1) + "(self " + ExportName(name) + ") " + ftname + " {\n");
      Indent();
      Printf("ret := (*" + pkgname + "." + name + ")(unsafe.Pointer(self))\n");
      if NeedWrap(f.typ) {
        Printf(CgoType(f.typ) + "(unsafe.Pointer(&ret." + f.name + "))\n");
      } else {
        Printf("return ret." + f.name + "\n");
      }
      Outdent();
      Printf("}\n\n");
    }

    /** genPreamble: the header template, filled with the package's name and path. */
    method GenPreamble()
      modifies this
      ensures out == old(out) + [PreambleText(pkg.name, pkg.path)]
      ensures level == old(level) && err == old(err)
    {
      var n := pkg.name;
      Printf(PreambleText(n, pkg.path));
    }
  }
}
