/** Properties of the emitted text: order preservation, positional naming,
    and which fragments appear how often. */
module GoTextProps {
  import opened Text
  import opened Descriptor
  import opened GoText

  // ---- tupleString ----

  lemma {:induction false} JoinNonEmpty(xs: seq<string>, sep: string)
    requires |xs| > 0 && |xs[|xs| - 1]| > 0
    ensures |Join(xs, sep)| > 0
  {
    if |xs| > 1 {
      assert Join(xs, sep) == Join(xs[..|xs| - 1], sep) + sep + xs[|xs| - 1];
    }
  }

  /** A tuple renders as the empty string exactly when it has no elements. */
  lemma TupleTextEmpty(t: seq<Var>)
    ensures TupleText(t) == "" <==> t == []
  {
    if t != [] {
      assert Items(t)[|t| - 1] == Item(t[|t| - 1]);
      JoinNonEmpty(Items(t), ", ");
    }
  }

  /** Rendering keeps tuple order: the rendering of a concatenation is the
      two renderings, in order, with ", " between them. */
  lemma TupleTextAppend(a: seq<Var>, b: seq<Var>)
    requires a != [] && b != []
    ensures TupleText(a + b) == TupleText(a) + ", " + TupleText(b)
  {
    assert Items(a + b) == Items(a) + Items(b);
    JoinAppend(Items(a), Items(b), ", ");
  }

  /** The result clause: one space for no results, `name type ` for one,
      and for several the first result, ", ", the rest, in parentheses. */
  lemma ResultClauseCases(results: seq<Var>)
    ensures |results| == 0 ==> ResultClause(results) == " "
    ensures |results| == 1 ==> ResultClause(results) == results[0].name + " " + QualifiedType(results[0].typ) + " "
    ensures |results| > 1 ==>
      ResultClause(results) == "(" + TupleText(results[..1]) + ", " + TupleText(results[1..]) + ") "
  {
    if |results| == 1 {
      assert Items(results) == [Item(results[0])];
    } else if |results| > 1 {
      var a, b := results[..1], results[1..];
      assert a + b == results;
      TupleTextAppend(a, b);
      var x, y := TupleText(a), TupleText(b);
      Assoc("(", x + ", ", y);
      Assoc("(", x, ", ");
    }
  }

  // ---- genFuncBody ----

  function Locals(n: nat): seq<string>
  {
    seq(n, i requires 0 <= i < n => LocalName(i))
  }

  function Names(params: seq<Var>): seq<string>
  {
    seq(|params|, i requires 0 <= i < |params| => params[i].name)
  }

  /** The i-th entry of the return line: the local, or its address behind
      the cgo handle type when the result needs wrapping. */
  function RetExpr(i: nat, v: Var): string
  {
    if NeedWrap(v.typ) then CgoType(v.typ) + "(unsafe.Pointer(&" + LocalName(i) + "))" else LocalName(i)
  }

  function RetExprs(results: seq<Var>): seq<string>
  {
    seq(|results|, i requires 0 <= i < |results| => RetExpr(i, results[i]))
  }

  lemma Concat1(x: string)
    ensures Concat([x]) == x
  {
    assert [x][..0] == [];
  }

  /** The left-hand side lists `_gopy_000`, ..., in result order. */
  lemma {:induction false} LhsText(n: nat)
    ensures Concat(LhsParts(n)) == Join(Locals(n), ", ")
    decreases n
  {
    if n > 0 {
      LhsText(n - 1);
      var sep: seq<string> := if n - 1 > 0 then [", "] else [];
      ConcatAppend(LhsParts(n - 1) + sep, [LocalName(n - 1)]);
      ConcatAppend(LhsParts(n - 1), sep);
      Concat1(LocalName(n - 1));
      assert Locals(n)[..n - 1] == Locals(n - 1);
      if n - 1 > 0 {
        Concat1(", ");
      }
    }
  }

  lemma {:induction false} CommaPrefixText(names: seq<string>, m: nat)
    requires m <= |names|
    ensures Concat(seq(m, i requires 0 <= i < m => names[i] + ", ")) ==
      if m == 0 then "" else Join(names[..m], ", ") + ", "
    decreases m
  {
    if m > 0 {
      var s := seq(m, i requires 0 <= i < m => names[i] + ", ");
      assert s[..m - 1] == seq(m - 1, i requires 0 <= i < m - 1 => names[i] + ", ");
      CommaPrefixText(names, m - 1);
      assert names[..m][..m - 1] == names[..m - 1];
      if m - 1 > 0 {
        Assoc(Join(names[..m - 1], ", ") + ", ", names[m - 1], ", ");
      }
    }
  }

  /** The forwarded arguments are the parameter names, in order, separated by ", ". */
  lemma ArgsText(params: seq<Var>)
    ensures Concat(ArgParts(params)) == Join(Names(params), ", ")
  {
    var n := |params|;
    if n > 0 {
      var a := ArgParts(params);
      var names := Names(params);
      assert a[..n - 1] == seq(n - 1, i requires 0 <= i < n - 1 => names[i] + ", ");
      CommaPrefixText(names, n - 1);
      assert names[..n] == names;
      if n - 1 > 0 {
        assert names[..n - 1] == names[..n][..n - 1];
      }
    }
  }

  lemma RetExprText(i: nat, v: Var)
    ensures Concat(RetExprParts(i, v)) == RetExpr(i, v)
  {
    var p := RetExprParts(i, v);
    if NeedWrap(v.typ) {
      var a := CgoType(v.typ) + "(unsafe.Pointer(&";
      assert p == [a] + [LocalName(i)] + ["))"];
      ConcatAppend([a] + [LocalName(i)], ["))"]);
      ConcatAppend([a], [LocalName(i)]);
      Concat1(a);
      Concat1(LocalName(i));
      Concat1("))");
    } else {
      assert p == [LocalName(i)];
      Concat1(LocalName(i));
    }
  }

  /** The return line lists every local in result order, each wrapped
      exactly when its result needs wrapping. */
  lemma {:induction false} RetText(results: seq<Var>)
    ensures Concat(RetParts(results)) == Join(RetExprs(results), ", ")
    decreases |results|
  {
    if results != [] {
      var n := |results| - 1;
      RetText(results[..n]);
      var sep: seq<string> := if n > 0 then [", "] else [];
      ConcatAppend(RetParts(results[..n]) + sep, RetExprParts(n, results[n]));
      ConcatAppend(RetParts(results[..n]), sep);
      RetExprText(n, results[n]);
      assert RetExprs(results)[..n] == RetExprs(results[..n]);
      if n > 0 {
        Concat1(", ");
      }
    }
  }

  /** The whole body of a wrapper: `_gopy_000, ... := ` only when there are
      results, the forwarding call with the parameter names in order, and a
      return line only when there are results. */
  lemma FuncBodyText(pkgName: string, f: string, params: seq<Var>, results: seq<Var>)
    ensures Concat(FuncBodyParts(pkgName, f, params, results)) ==
      (if |results| > 0 then Join(Locals(|results|), ", ") + " := " else "")
      + pkgName + "." + f + "(" + Join(Names(params), ", ") + ")\n"
      + (if |results| > 0 then "return " + Join(RetExprs(results), ", ") + "\n" else "")
  {
    var n := |results|;
    var l := LhsParts(n);
    var a := AssignParts(n);
    var c := [CallPart(pkgName, f)];
    var g := ArgParts(params);
    var r := ReturnParts(results);
    ConcatAppend(l + a + c + g + [")\n"], r);
    ConcatAppend(l + a + c + g, [")\n"]);
    ConcatAppend(l + a + c, g);
    ConcatAppend(l + a, c);
    ConcatAppend(l, a);
    LhsText(n);
    ArgsText(params);
    Concat1(CallPart(pkgName, f));
    Concat1(")\n");
    var lhs := if n > 0 then Join(Locals(n), ", ") + " := " else "";
    if n > 0 {
      Concat1(" := ");
      RetText(results);
      ConcatAppend(["return "] + RetParts(results), ["\n"]);
      ConcatAppend(["return "], RetParts(results));
      Concat1("return ");
      Concat1("\n");
    }
    assert Concat(l) + Concat(a) == lhs;
    Assoc(lhs, pkgName + "." + f, "(");
    Assoc(lhs, pkgName + ".", f);
    Assoc(lhs, pkgName, ".");
  }

  /** Result locals have distinct names, three digits each below 1000. */
  lemma LocalNames(i: nat, j: nat)
    ensures i < 1000 ==> |LocalName(i)| == 9
    ensures LocalName(i) == LocalName(j) <==> i == j
  {
    Pad3Spelling(i);
    Pad3Spelling(j);
    if LocalName(i) == LocalName(j) {
      assert Pad3(i) == LocalName(i)[6..];
      assert Pad3(j) == LocalName(j)[6..];
    }
  }

  /** Go identifiers never contain a space. */
  predicate NoSpaceNames(params: seq<Var>)
  {
    forall i :: 0 <= i < |params| ==> ' ' !in params[i].name
  }

  lemma {:induction false} NotReturnLhs(n: nat)
    ensures "return " !in LhsParts(n)
    decreases n
  {
    if n > 0 {
      NotReturnLhs(n - 1);
      assert LocalName(n - 1)[0] == '_';
    }
  }

  lemma NotReturnExpr(i: nat, v: Var)
    ensures "return " !in RetExprParts(i, v)
  {
    assert LocalName(i)[0] == '_';
    if NeedWrap(v.typ) {
      var w := CgoType(v.typ) + "(unsafe.Pointer(&";
      assert w[|w| - 1] == '&';
      assert RetExprParts(i, v) == [w, LocalName(i), "))"];
    } else {
      assert RetExprParts(i, v) == [LocalName(i)];
    }
  }

  lemma {:induction false} NotReturnRet(results: seq<Var>)
    ensures "return " !in RetParts(results)
    decreases |results|
  {
    if results != [] {
      var n := |results| - 1;
      NotReturnRet(results[..n]);
      NotReturnExpr(n, results[n]);
      var sep: seq<string> := if n > 0 then [", "] else [];
      assert "return " !in sep;
      assert RetParts(results) == RetParts(results[..n]) + sep + RetExprParts(n, results[n]);
    }
  }

  lemma NotReturnArgs(params: seq<Var>)
    requires NoSpaceNames(params)
    ensures "return " !in ArgParts(params)
  {
    var a := ArgParts(params);
    forall i | 0 <= i < |a|
      ensures a[i] != "return "
    {
      assert "return "[5] == 'n' && "return "[6] == ' ';
      if i + 1 < |params| {
        var x := params[i].name + ", ";
        assert |x| < 2 || x[|x| - 2] == ',';
      } else {
        assert a[i] == params[i].name;
      }
    }
  }

  /** No fragment before the return line is `return `. */
  lemma NotReturnFront(pkgName: string, f: string, params: seq<Var>, n: nat)
    requires NoSpaceNames(params)
    ensures "return " !in LhsParts(n) + AssignParts(n) + [CallPart(pkgName, f)] + ArgParts(params) + [")\n"]
  {
    NotReturnLhs(n);
    NotReturnArgs(params);
    var c := CallPart(pkgName, f);
    assert c[|c| - 1] == '(';
    assert "return " !in AssignParts(n);
  }

  lemma CountAbsent(xs: seq<string>, x: string)
    requires x !in xs
    ensures multiset(xs)[x] == 0
  {
  }

  lemma CountSplit(a: seq<string>, b: seq<string>, x: string)
    ensures multiset(a + b)[x] == multiset(a)[x] + multiset(b)[x]
  {
  }

  /** A wrapper body has exactly one `return ` when the function has
      results and none when it has none. */
  lemma ReturnCount(pkgName: string, f: string, params: seq<Var>, results: seq<Var>)
    requires NoSpaceNames(params)
    ensures multiset(FuncBodyParts(pkgName, f, params, results))["return "] == if |results| > 0 then 1 else 0
  {
    var n := |results|;
    var front := LhsParts(n) + AssignParts(n) + [CallPart(pkgName, f)] + ArgParts(params) + [")\n"];
    var r := ReturnParts(results);
    NotReturnFront(pkgName, f, params, n);
    CountAbsent(front, "return ");
    CountSplit(front, r, "return ");
    if n > 0 {
      NotReturnRet(results);
      var rest := RetParts(results) + ["\n"];
      CountAbsent(rest, "return ");
      Assoc(["return "], RetParts(results), ["\n"]);
      CountSplit(["return "], rest, "return ");
    }
  }

  // ---- genStruct: symbol names ----

  lemma DiffersAfter(p: string, x: string, y: string)
    requires x != y
    ensures p + x != p + y
  {
    assert (p + x)[|p|..] == x;
    assert (p + y)[|p|..] == y;
  }

  /** Within one struct, each symbol is named by exactly one of: the handle,
      a field wrapper with its raw index, a getter with its raw index, the
      constructor. */
  lemma StructSymbolsDistinct(s: string, j: nat, k: nat)
    ensures GetterName(s, j) == GetterName(s, k) <==> j == k
    ensures FieldWrapName(s, j) == FieldWrapName(s, k) <==> j == k
    ensures GetterName(s, j) != FieldWrapName(s, k)
    ensures GetterName(s, j) != CtorName(s) && FieldWrapName(s, j) != CtorName(s)
    ensures ExportName(s) != GetterName(s, j) && ExportName(s) != FieldWrapName(s, j)
    ensures ExportName(s) != CtorName(s)
  {
    var p := "GoPy_" + s;
    var gj, gk := "_getter_" + Decimal(j), "_getter_" + Decimal(k);
    var fj, fk := "_field_" + Decimal(j), "_field_" + Decimal(k);
    Assoc(p, "_getter_", Decimal(j));
    Assoc(p, "_getter_", Decimal(k));
    Assoc(p, "_field_", Decimal(j));
    Assoc(p, "_field_", Decimal(k));
    DecimalRoundTrip(j);
    DecimalRoundTrip(k);
    if GetterName(s, j) == GetterName(s, k) {
      assert gj == GetterName(s, j)[|p|..] && gk == GetterName(s, k)[|p|..];
      assert Decimal(j) == gj[8..] && Decimal(k) == gk[8..];
    }
    if FieldWrapName(s, j) == FieldWrapName(s, k) {
      assert fj == FieldWrapName(s, j)[|p|..] && fk == FieldWrapName(s, k)[|p|..];
      assert Decimal(j) == fj[7..] && Decimal(k) == fk[7..];
    }
    assert gj[1] == 'g' && fk[1] == 'f' && fj[1] == 'f' && "_new"[1] == 'n';
    DiffersAfter(p, gj, fk);
    DiffersAfter(p, gj, "_new");
    DiffersAfter(p, fj, "_new");
    assert |ExportName(s)| < |GetterName(s, j)| && |ExportName(s)| < |FieldWrapName(s, j)|;
    assert |ExportName(s)| < |CtorName(s)|;
  }

  /** An export directive names its symbol: equal directives, equal symbols. */
  lemma ExportLineInjective(x: string, y: string)
    ensures ExportLine(x) == ExportLine(y) <==> x == y
  {
    if ExportLine(x) == ExportLine(y) {
      Middle("//export ", x, y, "\n");
    }
  }

  /** An export directive starts with '/'; its next-to-last character is the
      symbol's last one. */
  lemma ExportLineShape(x: string)
    requires |x| > 0
    ensures ExportLine(x)[0] == '/'
    ensures |ExportLine(x)| == |x| + 10 && ExportLine(x)[|x| + 8] == x[|x| - 1]
  {
  }

  lemma SymbolEnds(s: string, k: nat)
    ensures IsDigit(GetterName(s, k)[|GetterName(s, k)| - 1])
    ensures IsDigit(FieldWrapName(s, k)[|FieldWrapName(s, k)| - 1])
    ensures CtorName(s)[|CtorName(s)| - 1] == 'w'
  {
    var d := Decimal(k);
    assert GetterName(s, k)[|GetterName(s, k)| - 1] == d[|d| - 1];
    assert FieldWrapName(s, k)[|FieldWrapName(s, k)| - 1] == d[|d| - 1];
  }

  // ---- genStruct: which directives appear ----

  /** A line that is not an export directive of a symbol ending in a digit
      or in 'w': it does not start with '/', or it ends in ")\n". */
  predicate Filler(l: string)
  {
    |l| >= 2 && (l[0] != '/' || l[|l| - 2] == ')')
  }

  lemma NotDirective(l: string, sym: string)
    requires Filler(l)
    requires |sym| > 0 && (IsDigit(sym[|sym| - 1]) || sym[|sym| - 1] == 'w')
    ensures l != ExportLine(sym)
  {
    ExportLineShape(sym);
  }

  /** The lines of a field's part other than its directives. */
  function FieldFillers(pkgName: string, s: string, i: nat, f: Field): seq<string>
  {
    (if NeedWrap(f.typ) then ["type " + FieldWrapName(s, i + 1) + " unsafe.Pointer\n\n"] else [])
    + [ "func " + GetterName(s, i + 1) + "(self " + ExportName(s) + ") " + GetterResultType(s, i, f) + " {\n",
        "ret := (*" + pkgName + "." + s + ")(unsafe.Pointer(self))\n",
        GetterBody(f),
        "}\n\n" ]
  }

  lemma FieldFillersFill(pkgName: string, s: string, i: nat, f: Field)
    ensures forall l :: l in FieldFillers(pkgName, s, i, f) ==> Filler(l)
  {
    var body := GetterBody(f);
    if NeedWrap(f.typ) {
      assert body[|body| - 2] == ')';
    } else {
      assert body[0] == 'r';
    }
  }

  /** The directive lines of a field's part: its wrapper type's, when it
      is wrapped, then its getter's. */
  function FieldDirectives(s: string, i: nat, f: Field): seq<string>
  {
    (if NeedWrap(f.typ) then [ExportLine(FieldWrapName(s, i + 1))] else []) + [ExportLine(GetterName(s, i + 1))]
  }

  lemma FieldPartSplit(pkgName: string, s: string, i: nat, f: Field, x: string)
    requires f.exported
    ensures x in FieldPart(pkgName, s, i, f) <==> x in FieldDirectives(s, i, f) || x in FieldFillers(pkgName, s, i, f)
  {
  }

  lemma NotInFillers(pkgName: string, s: string, i: nat, f: Field, sym: string)
    requires |sym| > 0 && (IsDigit(sym[|sym| - 1]) || sym[|sym| - 1] == 'w')
    ensures ExportLine(sym) !in FieldFillers(pkgName, s, i, f)
  {
    FieldFillersFill(pkgName, s, i, f);
    forall l | l in FieldFillers(pkgName, s, i, f)
      ensures l != ExportLine(sym)
    {
      NotDirective(l, sym);
    }
  }

  /** Which directives one field's part contains. */
  lemma FieldPartLines(pkgName: string, s: string, i: nat, f: Field, k: nat)
    ensures ExportLine(GetterName(s, k)) in FieldPart(pkgName, s, i, f) <==> f.exported && k == i + 1
    ensures ExportLine(FieldWrapName(s, k)) in FieldPart(pkgName, s, i, f) <==>
      f.exported && NeedWrap(f.typ) && k == i + 1
    ensures ExportLine(CtorName(s)) !in FieldPart(pkgName, s, i, f)
  {
    if f.exported {
      var g, w, c := GetterName(s, k), FieldWrapName(s, k), CtorName(s);
      var gi, wi := GetterName(s, i + 1), FieldWrapName(s, i + 1);
      FieldPartSplit(pkgName, s, i, f, ExportLine(g));
      FieldPartSplit(pkgName, s, i, f, ExportLine(w));
      FieldPartSplit(pkgName, s, i, f, ExportLine(c));
      SymbolEnds(s, k);
      NotInFillers(pkgName, s, i, f, g);
      NotInFillers(pkgName, s, i, f, w);
      NotInFillers(pkgName, s, i, f, c);
      StructSymbolsDistinct(s, k, i + 1);
      StructSymbolsDistinct(s, i + 1, k);
      ExportLineInjective(g, gi);
      ExportLineInjective(g, wi);
      ExportLineInjective(w, gi);
      ExportLineInjective(w, wi);
      ExportLineInjective(c, gi);
      ExportLineInjective(c, wi);
    }
  }

  lemma {:induction false} FieldsPartsLines(pkgName: string, s: string, fields: seq<Field>, k: nat)
    ensures ExportLine(GetterName(s, k)) in FieldsParts(pkgName, s, fields) <==>
      1 <= k <= |fields| && fields[k - 1].exported
    ensures ExportLine(FieldWrapName(s, k)) in FieldsParts(pkgName, s, fields) <==>
      1 <= k <= |fields| && fields[k - 1].exported && NeedWrap(fields[k - 1].typ)
    ensures ExportLine(CtorName(s)) !in FieldsParts(pkgName, s, fields)
    decreases |fields|
  {
    if fields != [] {
      var n := |fields| - 1;
      FieldsPartsLines(pkgName, s, fields[..n], k);
      FieldPartLines(pkgName, s, n, fields[n], k);
      if 1 <= k <= n {
        assert fields[..n][k - 1] == fields[k - 1];
      }
    }
  }

  lemma HandleCtorLines(pkgName: string, s: string, k: nat)
    ensures ExportLine(GetterName(s, k)) !in HandleParts(s) + CtorParts(pkgName, s)
    ensures ExportLine(FieldWrapName(s, k)) !in HandleParts(s) + CtorParts(pkgName, s)
    ensures ExportLine(CtorName(s)) !in HandleParts(s)
    ensures multiset(CtorParts(pkgName, s))[ExportLine(CtorName(s))] == 1
  {
    var g, w, c, h := GetterName(s, k), FieldWrapName(s, k), CtorName(s), ExportName(s);
    StructSymbolsDistinct(s, k, k);
    ExportLineInjective(g, h);
    ExportLineInjective(w, h);
    ExportLineInjective(c, h);
    ExportLineInjective(g, c);
    ExportLineInjective(w, c);
    ExportLineShape(c);
    ExportLineShape(g);
    ExportLineShape(w);
  }

  /** Getters are named by raw field index: a getter for index k exists
      exactly when field k (1-based, counting unexported fields) is exported. */
  lemma GetterIff(pkgName: string, s: string, fields: seq<Field>, k: nat)
    ensures ExportLine(GetterName(s, k)) in StructParts(pkgName, s, fields) <==>
      1 <= k <= |fields| && fields[k - 1].exported
  {
    FieldsPartsLines(pkgName, s, fields, k);
    HandleCtorLines(pkgName, s, k);
  }

  /** A field wrapper type for index k exists exactly when field k is
      exported and needs wrapping. */
  lemma FieldWrapIff(pkgName: string, s: string, fields: seq<Field>, k: nat)
    ensures ExportLine(FieldWrapName(s, k)) in StructParts(pkgName, s, fields) <==>
      1 <= k <= |fields| && fields[k - 1].exported && NeedWrap(fields[k - 1].typ)
  {
    FieldsPartsLines(pkgName, s, fields, k);
    HandleCtorLines(pkgName, s, k);
  }

  /** Every struct gets exactly one constructor, whatever its fields, and its
      four fragments close the struct's part. */
  lemma CtorOnce(pkgName: string, s: string, fields: seq<Field>)
    ensures multiset(StructParts(pkgName, s, fields))[ExportLine(CtorName(s))] == 1
    ensures StructParts(pkgName, s, fields)[|StructParts(pkgName, s, fields)| - 4] == ExportLine(CtorName(s))
  {
    FieldsPartsLines(pkgName, s, fields, 0);
    HandleCtorLines(pkgName, s, 0);
  }

  // ---- regrouping steps used by the generator's proofs ----

  lemma AppendAssoc3(o: seq<string>, a: seq<string>, b: seq<string>, c: seq<string>)
    ensures o + a + b + c == o + (a + b + c)
  {
    Assoc(o, a, b);
    Assoc(o, a + b, c);
  }

  /** One turn of genFuncBody's first loop: a separator after the first
      local, then the local. */
  lemma LhsPartsStep(o: seq<string>, i: nat)
    ensures o + LhsParts(i) + (if i > 0 then [", "] else []) + [LocalName(i)] == o + LhsParts(i + 1)
  {
    AppendAssoc3(o, LhsParts(i), if i > 0 then [", "] else [], [LocalName(i)]);
  }

  /** One turn of genFuncBody's return loop: a separator after the first
      entry, then the entry. */
  lemma RetPartsStep(o: seq<string>, results: seq<Var>, i: nat)
    requires i < |results|
    ensures o + RetParts(results[..i]) + (if i > 0 then [", "] else []) + RetExprParts(i, results[i]) ==
      o + RetParts(results[..i + 1])
  {
    assert results[..i + 1][..i] == results[..i];
    AppendAssoc3(o, RetParts(results[..i]), if i > 0 then [", "] else [], RetExprParts(i, results[i]));
  }

  /** The body's fragments, grouped as genFuncBody writes them. */
  lemma FuncBodySplit(o: seq<string>, pkgName: string, f: string, params: seq<Var>, results: seq<Var>)
    ensures o + FuncBodyParts(pkgName, f, params, results) ==
      o + LhsParts(|results|) + AssignParts(|results|) + [CallPart(pkgName, f)] + ArgParts(params) + [")\n"]
      + ReturnParts(results)
  {
    var l, a, c, g, p, r := LhsParts(|results|), AssignParts(|results|), [CallPart(pkgName, f)], ArgParts(params), [")\n"], ReturnParts(results);
    Assoc(o, l + a + c + g + p, r);
    Assoc(o, l + a + c + g, p);
    Assoc(o, l + a + c, g);
    Assoc(o, l + a, c);
    Assoc(o, l, a);
  }

  lemma FieldsPartsSnoc(pkgName: string, s: string, fields: seq<Field>, i: nat)
    requires i < |fields|
    ensures FieldsParts(pkgName, s, fields[..i + 1]) ==
      FieldsParts(pkgName, s, fields[..i]) + FieldPart(pkgName, s, i, fields[i])
  {
    assert fields[..i + 1][..i] == fields[..i];
  }

  lemma BindingsSnoc(pkgName: string, pkgPath: string, ds: seq<Decl>, d: Decl)
    requires forall i :: 0 <= i < |ds| ==> Supported(ds[i].kind)
    requires Supported(d.kind)
    ensures Bindings(pkgName, pkgPath, ds + [d]) == Bindings(pkgName, pkgPath, ds) + DeclParts(pkgName, pkgPath, d)
  {
    assert (ds + [d])[..|ds|] == ds;
  }

  // ---- gen ----

  lemma WalkStep(decls: seq<Decl>, i: nat)
    requires i < |decls|
    ensures Walk(decls[..i + 1]) == Step(Walk(decls[..i]), decls[i])
  {
    assert decls[..i + 1][..i] == decls[..i];
  }

  /** After a panic the walk never changes again. */
  lemma {:induction false} WalkAbortPersists(decls: seq<Decl>, i: nat)
    requires i <= |decls|
    requires Walk(decls[..i]).aborted.Some?
    ensures Walk(decls) == Walk(decls[..i])
    decreases |decls| - i
  {
    if i < |decls| {
      var prefix := decls[..|decls| - 1];
      assert prefix[..i] == decls[..i];
      WalkAbortPersists(prefix, i);
    } else {
      assert decls[..i] == decls;
    }
  }

  /** A step panics when the walk already had, or when it meets a blocking
      declaration; a walk that had panicked stays as it was. */
  lemma StepAbort(w: Walked, d: Decl)
    ensures Step(w, d).aborted.Some? <==> w.aborted.Some? || Blocks(d)
    ensures w.aborted.Some? ==> Step(w, d) == w
    ensures w.aborted.None? && Blocks(d) ==> Step(w, d) == Walked(w.bound, Some(d))
  {
  }

  /** The walk panics exactly when some exported declaration is not
      supported, and then on the first such declaration, having bound
      everything before it. */
  lemma {:induction false} WalkAbortsAtFirst(decls: seq<Decl>)
    ensures Walk(decls).aborted.None? <==> forall i :: 0 <= i < |decls| ==> !Blocks(decls[i])
    ensures forall i :: 0 <= i < |decls| && Blocks(decls[i]) && (forall j :: 0 <= j < i ==> !Blocks(decls[j])) ==>
      Walk(decls) == Walked(Walk(decls[..i]).bound, Some(decls[i]))
    decreases |decls|
  {
    if decls != [] {
      var n := |decls| - 1;
      var prefix, last := decls[..n], decls[n];
      WalkAbortsAtFirst(prefix);
      assert Walk(decls) == Step(Walk(prefix), last);
      StepAbort(Walk(prefix), last);
      assert forall j :: 0 <= j < n ==> prefix[j] == decls[j];
      forall i | 0 <= i < |decls| && Blocks(decls[i]) && (forall j :: 0 <= j < i ==> !Blocks(decls[j]))
        ensures Walk(decls) == Walked(Walk(decls[..i]).bound, Some(decls[i]))
      {
        if i < n {
          assert prefix[..i] == decls[..i];
          assert Blocks(prefix[i]);
        } else {
          assert decls[..i] == prefix;
        }
      }
    }
  }

  /** A step that leaves the walk unpanicked started unpanicked, met no
      blocking declaration, and bound its declaration exactly when exported. */
  lemma StepNone(w: Walked, d: Decl)
    requires Step(w, d).aborted.None?
    ensures w.aborted.None? && !Blocks(d)
    ensures Step(w, d).bound == if d.exported then w.bound + [d] else w.bound
  {
  }

  /** The exported declarations of a list, in list order. */
  function ExportedDecls(decls: seq<Decl>): seq<Decl>
    decreases |decls|
  {
    if decls == [] then []
    else
      var n := |decls| - 1;
      ExportedDecls(decls[..n]) + (if decls[n].exported then [decls[n]] else [])
  }

  /** Without a panic, the bound declarations are exactly the exported ones,
      in the order of the list. */
  lemma {:induction false} WalkBindsExported(decls: seq<Decl>)
    requires Walk(decls).aborted.None?
    ensures Walk(decls).bound == ExportedDecls(decls)
    ensures forall d :: d in Walk(decls).bound <==> d in decls && d.exported
    decreases |decls|
  {
    if decls != [] {
      var n := |decls| - 1;
      var prefix, last := decls[..n], decls[n];
      assert decls == prefix + [last];
      assert Walk(decls) == Step(Walk(prefix), last);
      StepNone(Walk(prefix), last);
      WalkBindsExported(prefix);
      if !last.exported {
        assert ExportedDecls(decls) == ExportedDecls(prefix) + [];
      }
      forall d
        ensures d in Walk(decls).bound <==> d in decls && d.exported
      {
        assert d in decls <==> d in prefix || d == last;
      }
    }
  }

  /** Declarations are bound in order: walking a concatenation is walking
      the first part and then the second, unless the first panics. */
  lemma {:induction false} WalkAppend(a: seq<Decl>, b: seq<Decl>)
    requires Walk(a).aborted.None?
    ensures Walk(a + b) == Walked(Walk(a).bound + Walk(b).bound, Walk(b).aborted)
    decreases |b|
  {
    if b == [] {
      assert a + b == a;
    } else {
      assert (a + b)[..|a + b| - 1] == a + b[..|b| - 1];
      WalkAppend(a, b[..|b| - 1]);
      var wb := Walk(b[..|b| - 1]);
      Assoc(Walk(a).bound, wb.bound, [b[|b| - 1]]);
    }
  }

  /** The text of a run of bindings is the texts of its parts, in order. */
  lemma {:induction false} BindingsAppend(pkgName: string, pkgPath: string, a: seq<Decl>, b: seq<Decl>)
    requires forall i :: 0 <= i < |a| ==> Supported(a[i].kind)
    requires forall i :: 0 <= i < |b| ==> Supported(b[i].kind)
    ensures Bindings(pkgName, pkgPath, a + b) == Bindings(pkgName, pkgPath, a) + Bindings(pkgName, pkgPath, b)
    decreases |b|
  {
    if b == [] {
      assert a + b == a;
    } else {
      var n := |b| - 1;
      assert (a + b)[..|a + b| - 1] == a + b[..n];
      assert (a + b)[|a + b| - 1] == b[n];
      BindingsAppend(pkgName, pkgPath, a, b[..n]);
      Assoc(Bindings(pkgName, pkgPath, a), Bindings(pkgName, pkgPath, b[..n]), DeclParts(pkgName, pkgPath, b[n]));
    }
  }

  lemma {:induction false} WalkUnexported(decls: seq<Decl>)
    requires forall i :: 0 <= i < |decls| ==> !decls[i].exported
    ensures Walk(decls) == Walked([], None)
    decreases |decls|
  {
    if decls != [] {
      var n := |decls| - 1;
      assert forall i :: 0 <= i < n ==> decls[..n][i] == decls[i];
      WalkUnexported(decls[..n]);
    }
  }

  /** A package with no exported declarations gets the preamble and then
      only the trailer, and gen fails only if errors were already recorded. */
  lemma NothingExported(pkg: Package, err: seq<string>)
    requires forall i :: 0 <= i < |pkg.decls| ==> !pkg.decls[i].exported
    ensures GenBody(pkg) == TrailerParts(pkg.name)
    ensures GenOutcome(pkg, err) == (if |err| > 0 then Failed(err) else Ok)
  {
    WalkUnexported(pkg.decls);
  }

  /** A function followed by an interface: after the preamble the function
      is bound in full, then gen panics on the interface and writes no trailer. */
  lemma FuncThenInterface(pkg: Package, err: seq<string>, f: Decl, iface: Decl)
    requires pkg.decls == [f, iface]
    requires f.exported && f.kind.Func? && iface.exported && iface.kind == InterfaceType
    ensures GenBody(pkg) == DeclParts(pkg.name, pkg.path, f)
    ensures GenOutcome(pkg, err) == Panicked(iface.name, InterfaceType)
  {
    assert pkg.decls[..1] == [f];
    assert [f][..0] == [];
    assert Walk([f]) == Walked([f], None);
    assert Walk(pkg.decls) == Walked([f], Some(iface));
    assert Bindings(pkg.name, pkg.path, [f]) == DeclParts(pkg.name, pkg.path, f);
  }

  /** The same interface first: gen panics before binding the function, so
      nothing follows the preamble. */
  lemma InterfaceThenFunc(pkg: Package, err: seq<string>, f: Decl, iface: Decl)
    requires pkg.decls == [iface, f]
    requires f.exported && f.kind.Func? && iface.exported && iface.kind == InterfaceType
    ensures GenBody(pkg) == []
    ensures GenOutcome(pkg, err) == Panicked(iface.name, InterfaceType)
  {
    assert pkg.decls[..1] == [iface];
    assert [iface][..0] == [];
    assert Walk([iface]) == Walked([], Some(iface));
    assert Walk(pkg.decls) == Walked([], Some(iface));
  }

  /** A run that meets no blocking declaration binds exactly the exported
      declarations, ends with the trailer, and fails exactly when errors
      were recorded before it. */
  lemma CompleteRun(pkg: Package, err: seq<string>)
    requires forall i :: 0 <= i < |pkg.decls| ==> !Blocks(pkg.decls[i])
    ensures Walk(pkg.decls).bound == ExportedDecls(pkg.decls)
    ensures forall d :: d in Walk(pkg.decls).bound <==> d in pkg.decls && d.exported
    ensures |GenBody(pkg)| >= 5 && GenBody(pkg)[|GenBody(pkg)| - 5..] == TrailerParts(pkg.name)
    ensures GenOutcome(pkg, err) == Ok <==> err == []
    ensures GenOutcome(pkg, err) == Failed(err) <==> err != []
  {
    WalkAbortsAtFirst(pkg.decls);
    WalkBindsExported(pkg.decls);
    var b := Bindings(pkg.name, pkg.path, Walk(pkg.decls).bound);
    assert GenBody(pkg) == b + TrailerParts(pkg.name);
    assert (b + TrailerParts(pkg.name))[|b|..] == TrailerParts(pkg.name);
  }

  /** A run that meets a blocking declaration panics on the first one,
      naming it, after binding what came before it, and writes nothing more. */
  lemma AbortedRun(pkg: Package, err: seq<string>, i: nat)
    requires i < |pkg.decls| && Blocks(pkg.decls[i])
    requires forall j :: 0 <= j < i ==> !Blocks(pkg.decls[j])
    ensures GenOutcome(pkg, err) == Panicked(pkg.decls[i].name, pkg.decls[i].kind)
    ensures GenBody(pkg) == Bindings(pkg.name, pkg.path, Walk(pkg.decls[..i]).bound)
  {
    WalkAbortsAtFirst(pkg.decls);
  }

  /** Export names are not unique across declarations: the constructor of a
      struct S is the wrapper of a function named S_new. */
  lemma CtorMeetsFuncWrapper(s: string)
    ensures CtorName(s) == ExportName(s + "_new")
    ensures ExportLine(CtorName(s)) in StructParts("p", s, [])
  {
    Assoc("GoPy_", s, "_new");
  }
}
