/** Early errors about declared names: which statement lists are checked, and for what. */
module StaticSemantics {
  import opened Prelude
  import opened Syntax

  datatype ListKind = ScriptOrFunction | BlockList

  // ----- declared names -----

  /** The names a statement declares directly in its list (section 14.2.1 of ECMA-262). */
  function LexicalNames(s: Stmt, k: ListKind): seq<Name> {
    match s
    case Lexical(names, _, _) => names
    case Class(name, _) => if name == "" then [] else [name]
    case Function(name, _, _) => if k == BlockList then [name] else []
    case Export(Some(inner)) => LexicalNames(inner, k)
    case _ => []
  }

  function AllLexicalNames(ss: seq<Stmt>, k: ListKind): seq<Name> {
    if ss == [] then [] else LexicalNames(ss[0], k) + AllLexicalNames(ss[1..], k)
  }

  function VarNames(s: Stmt, k: ListKind): seq<Name> {
    match s
    case VarDecl(names, _, _) => names
    case Function(name, _, _) => if k == ScriptOrFunction then [name] else []
    case Block(body) => AllVarNames(body, BlockList)
    case If(_, body, otherwise) => AllVarNames(body, k) + AllVarNames(otherwise, k)
    case For(init, _, _, body) => AllVarNames(init, k) + AllVarNames(body, k)
    case ForHead(_, _, _, _, body) => AllVarNames(body, k)
    case While(_, body) => AllVarNames(body, k)
    case DoWhile(body, _) => AllVarNames(body, k)
    case With(_, body) => AllVarNames(body, k)
    case Switch(_, cases) => CaseVarNames(cases)
    case Try(body, _, handler, finalizer) =>
      AllVarNames(body, BlockList) + AllVarNames(handler, BlockList) + AllVarNames(finalizer, BlockList)
    case Label(inner) => VarNames(inner, k)
    case Export(Some(inner)) => VarNames(inner, k)
    case _ => []
  }

  function AllVarNames(ss: seq<Stmt>, k: ListKind): seq<Name> {
    if ss == [] then [] else VarNames(ss[0], k) + AllVarNames(ss[1..], k)
  }

  function CaseVarNames(cs: seq<Case>): seq<Name> {
    if cs == [] then [] else AllVarNames(cs[0].body, BlockList) + CaseVarNames(cs[1..])
  }

  function CaseLexicalNames(cs: seq<Case>): seq<Name> {
    if cs == [] then [] else AllLexicalNames(cs[0].body, BlockList) + CaseLexicalNames(cs[1..])
  }

  // ----- what is checked -----

  /** One requirement on the program: names that meet in one place (declared lexically, declared by var, and
      parameters), a statement in a position where a function declaration may not stand, or a function's name. */
  datatype Check =
    | Names(lexical: seq<Name>, vars: seq<Name>, params: seq<Name>)
    | SubStatement(s: Stmt)
    | FunctionName(name: Name)

  predicate Distinct(ns: seq<Name>) {
    forall i, j :: 0 <= i < j < |ns| ==> ns[i] != ns[j]
  }

  predicate Disjoint(ns: seq<Name>, ms: seq<Name>) {
    forall i :: 0 <= i < |ns| ==> ns[i] !in ms
  }

  predicate Passes(c: Check) {
    match c
    case Names(lexical, vars, params) =>
      Distinct(lexical) && Distinct(params) && Disjoint(vars, lexical) && Disjoint(params, lexical)
    case SubStatement(s) => !s.Function?
    case FunctionName(name) => name != "eval" && name != "arguments"
  }

  /** Everything checked inside a statement. */
  function Checks(s: Stmt): seq<Check> {
    match s
    case Block(body) => ListChecks(body, BlockList)
    case Function(name, params, body) =>
      [Names([], [], params), Names(AllLexicalNames(body, ScriptOrFunction), [], params), FunctionName(name)]
      + ListChecks(body, ScriptOrFunction)
    case If(_, body, otherwise) => SubChecks(body) + SubChecks(otherwise)
    case For(init, _, update, body) => AllChecks(init) + AllChecks(update) + SubChecks(body)
    case ForHead(_, _, _, _, body) => SubChecks(body)
    case While(_, body) => SubChecks(body)
    case DoWhile(body, _) => SubChecks(body)
    case With(_, body) => SubChecks(body)
    case Switch(_, cases) => [Names(CaseLexicalNames(cases), CaseVarNames(cases), [])] + CaseChecks(cases)
    case Try(body, param, handler, finalizer) =>
      ListChecks(body, BlockList) + ParamChecks(param, handler) + ListChecks(handler, BlockList) + ListChecks(finalizer, BlockList)
    case Label(inner) => [SubStatement(inner)] + Checks(inner)
    case Export(Some(inner)) => Checks(inner)
    case _ => []
  }

  function ParamChecks(param: Option<CatchParam>, handler: seq<Stmt>): seq<Check> {
    if param.None? then [] else
    [Names([], [], BoundNames(param.value)), Names(AllLexicalNames(handler, BlockList), [], BoundNames(param.value))]
  }

  function AllChecks(ss: seq<Stmt>): seq<Check>
    decreases ss, 0
  {
    if ss == [] then [] else Checks(ss[0]) + AllChecks(ss[1..])
  }

  /** The body of a statement that is not a block. */
  function SubChecks(ss: seq<Stmt>): seq<Check> {
    if ss == [] then [] else [SubStatement(ss[0])] + Checks(ss[0]) + SubChecks(ss[1..])
  }

  function CaseChecks(cs: seq<Case>): seq<Check> {
    if cs == [] then [] else ListChecks(cs[0].body, BlockList) + CaseChecks(cs[1..])
  }

  /** A statement list is one place where names meet, with everything inside it. */
  function ListChecks(ss: seq<Stmt>, k: ListKind): seq<Check>
    decreases ss, 1
  {
    [Names(AllLexicalNames(ss, k), AllVarNames(ss, k), [])] + AllChecks(ss)
  }

  ghost predicate AllPass(cs: seq<Check>) {
    forall i :: 0 <= i < |cs| ==> Passes(cs[i])
  }

  datatype Cause = Redeclared | FunctionInStatement | RestrictedName

  function CauseOf(c: Check): Cause {
    match c
    case Names(_, _, _) => Redeclared
    case SubStatement(_) => FunctionInStatement
    case FunctionName(_) => RestrictedName
  }

  ghost predicate Fails(cs: seq<Check>, cause: Cause) {
    exists i :: 0 <= i < |cs| && !Passes(cs[i]) && CauseOf(cs[i]) == cause
  }

  // ----- the imperative passes -----

  /** None exactly when every check passes, otherwise the cause of one that fails. */
  ghost predicate Judges(r: Option<Cause>, cs: seq<Check>) {
    match r
    case None => AllPass(cs)
    case Some(cause) => Fails(cs, cause)
  }

  lemma JudgesWithin(r: Option<Cause>, cs: seq<Check>, before: seq<Check>, after: seq<Check>)
    requires Judges(r, cs) && AllPass(before)
    ensures r.Some? ==> Judges(r, before + cs + after)
    ensures r.None? ==> AllPass(before + cs)
  {
    if r.Some? {
      var i :| 0 <= i < |cs| && !Passes(cs[i]) && CauseOf(cs[i]) == r.value;
      assert (before + cs + after)[|before| + i] == cs[i];
    }
  }

  lemma JudgesFirst(c: Check, after: seq<Check>)
    ensures !Passes(c) ==> Judges(Some(CauseOf(c)), [c] + after)
    ensures Passes(c) ==> AllPass([c]) && Judges(None, [c])
  {
    assert ([c] + after)[0] == c;
  }

  function ToSet(ns: seq<Name>): set<Name> {
    set n | n in ns
  }

  /** Insert the names one by one; a repeated one ends the pass. */
  method PushUnique(names: set<Name>, ghost before: seq<Name>, ns: seq<Name>) returns (ok: bool, out: set<Name>)
    requires names == ToSet(before) && Distinct(before)
    ensures ok <==> Distinct(before + ns)
    ensures ok ==> out == ToSet(before + ns)
  {
    out := names;
    assert before + ns[..0] == before;
    for i := 0 to |ns|
      invariant out == ToSet(before + ns[..i]) && Distinct(before + ns[..i])
    {
      ghost var seen := before + ns[..i];
      assert before + ns[..i + 1] == seen + [ns[i]];
      if ns[i] in out {
        Repeats(seen, ns[i], ns[i + 1..]);
        assert before + ns == seen + [ns[i]] + ns[i + 1..];
        return false, out;
      }
      out := out + {ns[i]};
    }
    assert ns[..|ns|] == ns;
    return true, out;
  }

  lemma Repeats(seen: seq<Name>, n: Name, rest: seq<Name>)
    requires n in seen
    ensures !Distinct(seen + [n] + rest)
  {
    var i :| 0 <= i < |seen| && seen[i] == n;
    var all := seen + [n] + rest;
    assert all[i] == all[|seen|];
  }

  lemma DistinctPrefix(ns: seq<Name>, ms: seq<Name>)
    ensures !Distinct(ns) ==> !Distinct(ns + ms)
  {
    if !Distinct(ns) {
      var i, j :| 0 <= i < j < |ns| && ns[i] == ns[j];
      assert (ns + ms)[i] == (ns + ms)[j];
    }
  }

  method CollectDirectLexicalNames(s: Stmt, k: ListKind, names: set<Name>, ghost before: seq<Name>)
    returns (ok: bool, out: set<Name>)
    requires names == ToSet(before) && Distinct(before)
    ensures ok <==> Distinct(before + LexicalNames(s, k))
    ensures ok ==> out == ToSet(before + LexicalNames(s, k))
  {
    ok, out := true, names;
    assert before + [] == before;
    match s {
      case Lexical(ns, _, _) => ok, out := PushUnique(names, before, ns);
      case Class(name, _) => if name != "" { ok, out := PushUnique(names, before, [name]); }
      case Function(name, _, _) => if k == BlockList { ok, out := PushUnique(names, before, [name]); }
      case Export(Some(inner)) => ok, out := CollectDirectLexicalNames(inner, k, names, before);
      case _ =>
    }
  }

  method CollectLexicalNames(ss: seq<Stmt>, k: ListKind, names: set<Name>, ghost before: seq<Name>)
    returns (ok: bool, out: set<Name>)
    requires names == ToSet(before) && Distinct(before)
    ensures ok <==> Distinct(before + AllLexicalNames(ss, k))
    ensures ok ==> out == ToSet(before + AllLexicalNames(ss, k))
  {
    out := names;
    ghost var seen := before;
    for i := 0 to |ss|
      invariant out == ToSet(seen) && Distinct(seen)
      invariant seen + AllLexicalNames(ss[i..], k) == before + AllLexicalNames(ss, k)
    {
      ghost var here, rest := LexicalNames(ss[i], k), AllLexicalNames(ss[i + 1..], k);
      assert ss[i..][1..] == ss[i + 1..];
      assert seen + (here + rest) == seen + here + rest;
      ok, out := CollectDirectLexicalNames(ss[i], k, out, seen);
      DistinctPrefix(seen + here, rest);
      if !ok { return; }
      seen := seen + here;
    }
    assert seen + [] == seen;
    return true, out;
  }

  method CollectVarDeclaredNames(s: Stmt, k: ListKind, names: seq<Name>) returns (out: seq<Name>)
    ensures out == names + VarNames(s, k)
    decreases s
  {
    hide AllVarNames, CaseVarNames;
    out := names;
    match s {
      case VarDecl(ns, _, _) => out := out + ns;
      case Function(name, _, _) => if k == ScriptOrFunction { out := out + [name]; }
      case Block(body) => out := CollectVarNames(body, BlockList, out);
      case If(_, body, otherwise) =>
        out := CollectVarNames(body, k, out);
        out := CollectVarNames(otherwise, k, out);
      case For(init, _, _, body) =>
        out := CollectVarNames(init, k, out);
        out := CollectVarNames(body, k, out);
      case ForHead(_, _, _, _, body) => out := CollectVarNames(body, k, out);
      case While(_, body) => out := CollectVarNames(body, k, out);
      case DoWhile(body, _) => out := CollectVarNames(body, k, out);
      case With(_, body) => out := CollectVarNames(body, k, out);
      case Switch(_, cases) =>
        out := CollectCaseVarNames(cases, out);
      case Try(body, _, handler, finalizer) =>
        out := CollectVarNames(body, BlockList, out);
        out := CollectVarNames(handler, BlockList, out);
        out := CollectVarNames(finalizer, BlockList, out);
      case Label(inner) => out := CollectVarDeclaredNames(inner, k, out);
      case Export(Some(inner)) => out := CollectVarDeclaredNames(inner, k, out);
      case _ =>
    }
  }

  method CollectCaseVarNames(cases: seq<Case>, names: seq<Name>) returns (out: seq<Name>)
    ensures out == names + CaseVarNames(cases)
    decreases cases
  {
    out := names;
    for i := 0 to |cases|
      invariant out + CaseVarNames(cases[i..]) == names + CaseVarNames(cases)
    {
      assert cases[i..][1..] == cases[i + 1..];
      out := CollectVarNames(cases[i].body, BlockList, out);
    }
  }

  method CollectVarNames(ss: seq<Stmt>, k: ListKind, names: seq<Name>) returns (out: seq<Name>)
    ensures out == names + AllVarNames(ss, k)
    decreases ss
  {
    out := names;
    for i := 0 to |ss|
      invariant out + AllVarNames(ss[i..], k) == names + AllVarNames(ss, k)
    {
      assert ss[i..][1..] == ss[i + 1..];
      out := CollectVarDeclaredNames(ss[i], k, out);
    }
  }

  method Apart(ns: seq<Name>, names: set<Name>, ghost ms: seq<Name>) returns (apart: bool)
    requires names == ToSet(ms)
    ensures apart <==> Disjoint(ns, ms)
  {
    for i := 0 to |ns|
      invariant forall j :: 0 <= j < i ==> ns[j] !in ms
    {
      if ns[i] in names { return false; }
    }
    return true;
  }

  method ValidateStatementList(ss: seq<Stmt>, k: ListKind) returns (r: Option<Cause>)
    ensures Judges(r, ListChecks(ss, k))
    decreases ss, 1
  {
    ghost var first := Names(AllLexicalNames(ss, k), AllVarNames(ss, k), []);
    JudgesFirst(first, AllChecks(ss));
    assert [] + AllLexicalNames(ss, k) == AllLexicalNames(ss, k);
    var ok, lexical := CollectLexicalNames(ss, k, {}, []);
    if !ok { return Some(Redeclared); }
    var vars := CollectVarNames(ss, k, []);
    assert [] + AllVarNames(ss, k) == AllVarNames(ss, k);
    var apart := Apart(vars, lexical, AllLexicalNames(ss, k));
    if !apart { return Some(Redeclared); }
    r := ValidateAll(ss);
    JudgesWithin(r, AllChecks(ss), [first], []);
    assert [first] + AllChecks(ss) + [] == ListChecks(ss, k);
  }

  method ValidateAll(ss: seq<Stmt>) returns (r: Option<Cause>)
    ensures Judges(r, AllChecks(ss))
    decreases ss, 0
  {
    ghost var done: seq<Check> := [];
    for i := 0 to |ss|
      invariant done + AllChecks(ss[i..]) == AllChecks(ss) && AllPass(done)
    {
      assert ss[i..][1..] == ss[i + 1..];
      r := ValidateStatement(ss[i]);
      JudgesWithin(r, Checks(ss[i]), done, AllChecks(ss[i + 1..]));
      assert done + (Checks(ss[i]) + AllChecks(ss[i + 1..])) == done + Checks(ss[i]) + AllChecks(ss[i + 1..]);
      if r.Some? { return; }
      done := done + Checks(ss[i]);
    }
    assert done + [] == done;
    return None;
  }

  method ValidateSubStatements(ss: seq<Stmt>) returns (r: Option<Cause>)
    ensures Judges(r, SubChecks(ss))
    decreases ss, 0
  {
    hide Checks, Passes, Judges, AllPass;
    ghost var done: seq<Check> := [];
    AllPassMeansNone([]);
    for i := 0 to |ss|
      invariant done + SubChecks(ss[i..]) == SubChecks(ss) && AllPass(done)
    {
      ghost var here, rest := [SubStatement(ss[i])] + Checks(ss[i]), SubChecks(ss[i + 1..]);
      assert ss[i..][1..] == ss[i + 1..];
      assert done + (here + rest) == done + here + rest;
      r := ValidateLabelled(ss[i]);
      JudgesWithin(r, here, done, rest);
      if r.Some? { return; }
      done := done + here;
    }
    assert done + [] == done;
    AllPassMeansNone(done);
    return None;
  }

  lemma AllPassMeansNone(cs: seq<Check>)
    ensures AllPass(cs) ==> Judges(None, cs)
    ensures AllPass([])
  {
  }

  /** validate_non_block_body, then the statement itself. */
  method ValidateLabelled(s: Stmt) returns (r: Option<Cause>)
    ensures Judges(r, [SubStatement(s)] + Checks(s))
    decreases s, 2
  {
    JudgesFirst(SubStatement(s), Checks(s));
    if s.Function? { return Some(FunctionInStatement); }
    r := ValidateStatement(s);
    JudgesWithin(r, Checks(s), [SubStatement(s)], []);
    assert [SubStatement(s)] + Checks(s) + [] == [SubStatement(s)] + Checks(s);
  }

  lemma JudgesPlus(r: Option<Cause>, cs: seq<Check>, ds: seq<Check>)
    ensures r.Some? && Judges(r, cs) ==> Judges(r, cs + ds)
    ensures AllPass(cs) && Judges(r, ds) ==> Judges(r, cs + ds)
  {
    if r.Some? && Judges(r, cs) { JudgesWithin(r, cs, [], ds); assert [] + cs + ds == cs + ds; }
    if AllPass(cs) && Judges(r, ds) { JudgesWithin(r, ds, cs, []); assert cs + ds + [] == cs + ds; }
  }

  /** A second part is judged only when the first passed. */
  lemma JudgesBoth(first: Option<Cause>, cs: seq<Check>, second: Option<Cause>, ds: seq<Check>)
    requires Judges(first, cs) && (first.None? ==> Judges(second, ds))
    ensures Judges(if first.Some? then first else second, cs + ds)
  {
    JudgesPlus(first, cs, ds);
    JudgesPlus(second, cs, ds);
  }

  lemma NothingToCheck()
    ensures Judges(None, [])
  {
  }

  method ValidateStatement(s: Stmt) returns (r: Option<Cause>)
    ensures Judges(r, Checks(s))
    decreases s, 1
  {
    hide Judges;
    match s {
      case Block(body) => r := ValidateStatementList(body, BlockList);
      case Function(_, _, _) => r := ValidateFunctionLike(s);
      case If(_, body, otherwise) =>
        r := ValidateSubStatements(body);
        ghost var first := r;
        if r.None? { r := ValidateSubStatements(otherwise); }
        JudgesBoth(first, SubChecks(body), r, SubChecks(otherwise));
      case For(_, _, _, _) => r := ValidateFor(s);
      case ForHead(_, _, _, _, body) => r := ValidateSubStatements(body);
      case While(_, body) => r := ValidateSubStatements(body);
      case DoWhile(body, _) => r := ValidateSubStatements(body);
      case With(_, body) => r := ValidateSubStatements(body);
      case Switch(_, _) => r := ValidateSwitch(s);
      case Try(_, _, _, _) => r := ValidateTry(s);
      case Label(inner) => r := ValidateLabelled(inner);
      case Export(Some(inner)) => r := ValidateStatement(inner);
      case _ =>
        NothingToCheck();
        r := None;
    }
  }

  method ValidateFor(s: Stmt) returns (r: Option<Cause>)
    requires s.For?
    ensures Judges(r, Checks(s))
    decreases s, 0
  {
    hide Judges;
    r := ValidateAll(s.init);
    ghost var first := r;
    if r.None? { r := ValidateAll(s.update); }
    JudgesBoth(first, AllChecks(s.init), r, AllChecks(s.update));
    ghost var second := r;
    if r.None? { r := ValidateSubStatements(s.body); }
    JudgesBoth(second, AllChecks(s.init) + AllChecks(s.update), r, SubChecks(s.body));
  }

  /** The parameters on their own, then against the lexical names of the body. */
  method CheckParams(params: seq<Name>, body: seq<Stmt>, k: ListKind) returns (ok: bool)
    ensures ok <==> Passes(Names([], [], params)) && Passes(Names(AllLexicalNames(body, k), [], params))
  {
    assert [] + params == params;
    var distinct, _ := PushUnique({}, [], params);
    if !distinct { return false; }
    assert [] + AllLexicalNames(body, k) == AllLexicalNames(body, k);
    var unique, lexical := CollectLexicalNames(body, k, {}, []);
    if !unique { return false; }
    ok := Apart(params, lexical, AllLexicalNames(body, k));
  }

  lemma JudgesParams(params: seq<Name>, lexical: seq<Name>, ok: bool)
    requires ok <==> Passes(Names([], [], params)) && Passes(Names(lexical, [], params))
    ensures Judges(if ok then None else Some(Redeclared), [Names([], [], params), Names(lexical, [], params)])
  {
    var cs := [Names([], [], params), Names(lexical, [], params)];
    assert !Passes(cs[0]) || !Passes(cs[1]) || ok;
  }

  method ValidateFunctionLike(s: Stmt) returns (r: Option<Cause>)
    requires s.Function?
    ensures Judges(r, Checks(s))
    decreases s, 0
  {
    hide Judges, Passes;
    ghost var lexical := AllLexicalNames(s.body, ScriptOrFunction);
    ghost var params := [Names([], [], s.params), Names(lexical, [], s.params)];
    var ok := CheckParams(s.params, s.body, ScriptOrFunction);
    JudgesParams(s.params, lexical, ok);
    r := if ok then None else Some(Redeclared);
    ghost var first := r;
    if r.None? && (s.name == "eval" || s.name == "arguments") { r := Some(RestrictedName); }
    JudgesName(s.name);
    JudgesBoth(first, params, r, [FunctionName(s.name)]);
    ghost var second := r;
    if r.None? { r := ValidateStatementList(s.body, ScriptOrFunction); }
    JudgesBoth(second, params + [FunctionName(s.name)], r, ListChecks(s.body, ScriptOrFunction));
    assert params + [FunctionName(s.name)] == [Names([], [], s.params), Names(lexical, [], s.params), FunctionName(s.name)];
  }

  lemma JudgesName(name: Name)
    ensures Judges(if name == "eval" || name == "arguments" then Some(RestrictedName) else None, [FunctionName(name)])
  {
    var cs := [FunctionName(name)];
    assert CauseOf(cs[0]) == RestrictedName;
  }

  method ValidateTry(s: Stmt) returns (r: Option<Cause>)
    requires s.Try?
    ensures Judges(r, Checks(s))
    decreases s, 0
  {
    hide Judges, Passes;
    r := ValidateStatementList(s.body, BlockList);
    ghost var first := r;
    if r.None? { r := ValidateParam(s.param, s.handler); }
    JudgesBoth(first, ListChecks(s.body, BlockList), r, ParamChecks(s.param, s.handler));
    ghost var second, done := r, ListChecks(s.body, BlockList) + ParamChecks(s.param, s.handler);
    if r.None? { r := ValidateStatementList(s.handler, BlockList); }
    JudgesBoth(second, done, r, ListChecks(s.handler, BlockList));
    ghost var third := r;
    if r.None? { r := ValidateStatementList(s.finalizer, BlockList); }
    JudgesBoth(third, done + ListChecks(s.handler, BlockList), r, ListChecks(s.finalizer, BlockList));
  }

  method ValidateParam(param: Option<CatchParam>, handler: seq<Stmt>) returns (r: Option<Cause>)
    ensures Judges(r, ParamChecks(param, handler))
  {
    if param.None? { return None; }
    var ok := CheckParams(BoundNames(param.value), handler, BlockList);
    JudgesParams(BoundNames(param.value), AllLexicalNames(handler, BlockList), ok);
    return if ok then None else Some(Redeclared);
  }

  method ValidateSwitch(s: Stmt) returns (r: Option<Cause>)
    requires s.Switch?
    ensures Judges(r, Checks(s))
    decreases s, 0
  {
    hide Judges, Passes, AllLexicalNames, AllVarNames, CaseLexicalNames, CaseVarNames, ListChecks;
    ghost var first := Names(CaseLexicalNames(s.cases), CaseVarNames(s.cases), []);
    var ok := CheckCases(s.cases);
    JudgesFirst(first, CaseChecks(s.cases));
    if !ok { return Some(Redeclared); }
    ghost var done := [first];
    for i := 0 to |s.cases|
      invariant done + CaseChecks(s.cases[i..]) == Checks(s) && Judges(None, done)
    {
      ghost var here, rest := ListChecks(s.cases[i].body, BlockList), CaseChecks(s.cases[i + 1..]);
      assert s.cases[i..][1..] == s.cases[i + 1..];
      assert done + (here + rest) == done + here + rest;
      r := ValidateStatementList(s.cases[i].body, BlockList);
      JudgesBoth(None, done, r, here);
      JudgesPlus(r, done + here, rest);
      if r.Some? { return; }
      done := done + here;
    }
    assert done + [] == done;
    return None;
  }

  lemma NoNames()
    ensures Distinct([]) && forall ns :: Disjoint([], ns)
  {
  }

  /** One pass over all statements of all cases, for both sets of names. */
  method CheckCases(cases: seq<Case>) returns (ok: bool)
    ensures ok <==> Passes(Names(CaseLexicalNames(cases), CaseVarNames(cases), []))
  {
    hide AllLexicalNames, AllVarNames, Distinct, Disjoint;
    var lexical: set<Name>, vars: seq<Name> := {}, [];
    NoNames();
    ghost var seen: seq<Name> := [];
    for i := 0 to |cases|
      invariant lexical == ToSet(seen) && Distinct(seen)
      invariant seen + CaseLexicalNames(cases[i..]) == CaseLexicalNames(cases)
      invariant vars + CaseVarNames(cases[i..]) == CaseVarNames(cases)
    {
      ghost var here, rest := AllLexicalNames(cases[i].body, BlockList), CaseLexicalNames(cases[i + 1..]);
      assert cases[i..][1..] == cases[i + 1..];
      ghost var someVars, moreVars := AllVarNames(cases[i].body, BlockList), CaseVarNames(cases[i + 1..]);
      assert seen + (here + rest) == seen + here + rest;
      assert vars + (someVars + moreVars) == vars + someVars + moreVars;
      ok, lexical := CollectLexicalNames(cases[i].body, BlockList, lexical, seen);
      DistinctPrefix(seen + here, rest);
      if !ok { return; }
      vars := CollectVarNames(cases[i].body, BlockList, vars);
      seen := seen + here;
    }
    assert seen + [] == seen && vars + [] == vars;
    ok := Apart(vars, lexical, seen);
  }

  /** The whole program. */
  method ValidateEarlyErrors(statements: seq<Stmt>) returns (r: Option<Cause>)
    ensures r.None? <==> AllPass(ListChecks(statements, ScriptOrFunction))
    ensures r.Some? ==> Fails(ListChecks(statements, ScriptOrFunction), r.value)
  {
    r := ValidateStatementList(statements, ScriptOrFunction);
  }
}
