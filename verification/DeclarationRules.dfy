/** The language's rules about declared names, said of programs directly, and the verdict of the passes against them. */
module DeclarationRules {
  import opened Prelude
  import opened Syntax
  import opened StaticSemantics
  import opened EarlyErrorLaws
  import opened EarlyErrorSpec

  // ----- what declares a name -----

  /** The statement declares the name lexically in a list of that kind: let, const and using their bound names, a class
      its name, a function its name unless it stands at the top of a script or function, an export what it exports. */
  predicate Declares(s: Stmt, k: ListKind, n: Name) {
    match s
    case Lexical(names, _, _) => n in names
    case Class(name, _) => name != "" && n == name
    case Function(name, _, _) => k == BlockList && n == name
    case Export(Some(inner)) => Declares(inner, k, n)
    case _ => false
  }

  predicate SomeDeclares(ss: seq<Stmt>, k: ListKind, n: Name) {
    exists i :: 0 <= i < |ss| && Declares(ss[i], k, n)
  }

  predicate Different(names: seq<Name>) {
    forall i, j :: 0 <= i < j < |names| ==> names[i] != names[j]
  }

  /** One declaration binds no name twice. */
  predicate BindsOnce(s: Stmt) {
    match s
    case Lexical(names, _, _) => Different(names)
    case Export(Some(inner)) => BindsOnce(inner)
    case _ => true
  }

  // ----- the rules -----

  /** No name is declared lexically twice in the list. */
  ghost predicate DeclaredOnce(ss: seq<Stmt>, k: ListKind) {
    && (forall i :: 0 <= i < |ss| ==> BindsOnce(ss[i]))
    && (forall i, j, n :: 0 <= i < j < |ss| && Declares(ss[i], k, n) ==> !Declares(ss[j], k, n))
  }

  /** Nor is one declared both lexically and by var (sections 14.2.1, 16.1.1 and 15.2.1 of ECMA-262). */
  ghost predicate NoClash(ss: seq<Stmt>, k: ListKind) {
    DeclaredOnce(ss, k) && NotDeclaredIn(AllSpecVarNames(ss, k), ss, k)
  }

  /** Names bound around a body, twice none, and none that the body declares by var. */
  predicate HeadOk(names: seq<Name>, body: seq<Stmt>) {
    Different(names) && forall n :: n in names ==> n !in AllSpecVarNames(body, BlockList)
  }

  predicate NotDeclaredIn(names: seq<Name>, body: seq<Stmt>, k: ListKind) {
    forall n :: n in names ==> !SomeDeclares(body, k, n)
  }

  predicate CatchOk(param: Option<CatchParam>, handler: seq<Stmt>) {
    match param
    case None => true
    case Some(Identifier(n)) => !SomeDeclares(handler, BlockList, n)
    case Some(Pattern(names, _)) => NotDeclaredIn(names, handler, BlockList) && HeadOk(names, handler)
  }

  /** All statements of a case block, which is one scope. */
  function CaseStatements(cs: seq<Case>): seq<Stmt> {
    if cs == [] then [] else cs[0].body + CaseStatements(cs[1..])
  }

  ghost predicate Lawful(ss: seq<Stmt>, k: ListKind)
    decreases ss, 1
  {
    NoClash(ss, k) && LawfulEach(ss)
  }

  ghost predicate LawfulEach(ss: seq<Stmt>)
    decreases ss, 0
  {
    forall i :: 0 <= i < |ss| ==> LawfulStmt(ss[i])
  }

  /** Bodies that are no lists: no function declaration is one. */
  ghost predicate LawfulBody(ss: seq<Stmt>)
    decreases ss, 0
  {
    forall i :: 0 <= i < |ss| ==> !ss[i].Function? && LawfulStmt(ss[i])
  }

  ghost predicate LawfulCases(cs: seq<Case>)
    decreases cs, 0
  {
    forall i :: 0 <= i < |cs| ==> LawfulCase(cs[i])
  }

  ghost predicate LawfulCase(c: Case)
    decreases c, 0
  {
    Lawful(c.body, BlockList)
  }

  ghost predicate LawfulStmt(s: Stmt)
    decreases s, 0
  {
    match s
    case Block(body) => Lawful(body, BlockList)
    case Function(name, params, body) =>
      && name != "eval" && name != "arguments"
      && Different(params) && NotDeclaredIn(params, body, ScriptOrFunction)
      && Lawful(body, ScriptOrFunction)
    case If(_, body, otherwise) => LawfulBody(body) && LawfulBody(otherwise)
    case For(init, _, update, body) =>
      (init != [] && init[0].Lexical? ==> HeadOk(init[0].names, body))
      && LawfulEach(init) && LawfulEach(update) && LawfulBody(body)
    case ForHead(kind, names, _, _, body) => (kind == HeadLexical ==> HeadOk(names, body)) && LawfulBody(body)
    case While(_, body) => LawfulBody(body)
    case DoWhile(body, _) => LawfulBody(body)
    case With(_, body) => LawfulBody(body)
    case Switch(_, cases) => NoClash(CaseStatements(cases), BlockList) && LawfulCases(cases)
    case Try(body, param, handler, finalizer) =>
      CatchOk(param, handler) && Lawful(body, BlockList) && Lawful(handler, BlockList) && Lawful(finalizer, BlockList)
    case Label(inner) => !inner.Function? && LawfulStmt(inner)
    case Export(Some(inner)) => LawfulStmt(inner)
    case _ => true
  }

  // ----- the names of a place -----

  lemma {:induction false} NamesAreDeclared(s: Stmt, k: ListKind)
    ensures forall n :: n in LexicalNames(s, k) <==> Declares(s, k, n)
    ensures Distinct(LexicalNames(s, k)) <==> BindsOnce(s)
  {
    match s
    case Export(Some(inner)) => NamesAreDeclared(inner, k);
    case _ =>
  }

  /** The names that the passes collect are exactly those declared, and repeat exactly when the rules are broken. */
  lemma {:induction false} ListNamesAreDeclared(ss: seq<Stmt>, k: ListKind)
    ensures forall n :: n in AllLexicalNames(ss, k) <==> SomeDeclares(ss, k, n)
    ensures Distinct(AllLexicalNames(ss, k)) <==> DeclaredOnce(ss, k)
  {
    hide LexicalNames, Declares, BindsOnce, Distinct, SomeDeclares;
    if ss == [] {
      NoneDistinct();
      NoneDeclared(k);
    } else {
      var s, rest := ss[0], ss[1..];
      NamesAreDeclared(s, k);
      ListNamesAreDeclared(rest, k);
      DistinctConcat(LexicalNames(s, k), AllLexicalNames(rest, k));
      FirstDeclares(ss, k);
      OnceByFirst(ss, k);
    }
  }

  lemma NoneDistinct()
    ensures Distinct([])
  {
  }

  lemma NoneDeclared(k: ListKind)
    ensures forall n :: !SomeDeclares([], k, n)
  {
  }

  lemma DistinctConcat(xs: seq<Name>, ys: seq<Name>)
    ensures Distinct(xs + ys) <==> Distinct(xs) && Distinct(ys) && forall n :: n in xs ==> n !in ys
  {
    var all := xs + ys;
    assert forall i :: 0 <= i < |xs| ==> all[i] == xs[i];
    assert forall j :: 0 <= j < |ys| ==> all[|xs| + j] == ys[j];
    if Distinct(all) {
      forall i | 0 <= i < |xs| ensures xs[i] !in ys { DistinctApart(xs, ys, i); }
    } else {
      var i, j :| 0 <= i < j < |all| && all[i] == all[j];
      if i < |xs| && |xs| <= j { assert all[i] in xs && all[j] in ys; }
    }
  }

  lemma DistinctApart(xs: seq<Name>, ys: seq<Name>, i: nat)
    requires i < |xs| && Distinct(xs + ys)
    ensures xs[i] !in ys
  {
    forall j | 0 <= j < |ys| ensures ys[j] != xs[i] { assert (xs + ys)[i] != (xs + ys)[|xs| + j]; }
  }

  lemma FirstDeclares(ss: seq<Stmt>, k: ListKind)
    requires ss != []
    ensures forall n :: SomeDeclares(ss, k, n) <==> Declares(ss[0], k, n) || SomeDeclares(ss[1..], k, n)
  {
    hide Declares;
    var rest := ss[1..];
    forall n ensures SomeDeclares(ss, k, n) <==> Declares(ss[0], k, n) || SomeDeclares(rest, k, n) {
      if SomeDeclares(ss, k, n) {
        var i :| 0 <= i < |ss| && Declares(ss[i], k, n);
        if i > 0 { assert Declares(rest[i - 1], k, n); }
      }
      if SomeDeclares(rest, k, n) {
        var i :| 0 <= i < |rest| && Declares(rest[i], k, n);
        assert Declares(ss[i + 1], k, n);
      }
    }
  }

  lemma OnceByFirst(ss: seq<Stmt>, k: ListKind)
    requires ss != []
    ensures DeclaredOnce(ss, k) <==>
      (BindsOnce(ss[0]) && DeclaredOnce(ss[1..], k) && forall n :: Declares(ss[0], k, n) ==> !SomeDeclares(ss[1..], k, n))
  {
    hide Declares, BindsOnce;
    var rest := ss[1..];
    assert forall i :: 0 <= i < |rest| ==> rest[i] == ss[i + 1];
    assert forall i :: 0 < i < |ss| ==> ss[i] == rest[i - 1];
    if DeclaredOnce(ss, k) {
      forall i, j, n | 0 <= i < j < |rest| && Declares(rest[i], k, n) ensures !Declares(rest[j], k, n) {
        assert Declares(ss[i + 1], k, n) && !Declares(ss[j + 1], k, n);
      }
      forall n, j | Declares(ss[0], k, n) && 0 <= j < |rest| ensures !Declares(rest[j], k, n) {
        assert !Declares(ss[j + 1], k, n);
      }
    }
    if BindsOnce(ss[0]) && DeclaredOnce(rest, k) && forall n :: Declares(ss[0], k, n) ==> !SomeDeclares(rest, k, n) {
      forall i, j, n | 0 <= i < j < |ss| && Declares(ss[i], k, n) ensures !Declares(ss[j], k, n) {
        assert Declares(ss[j], k, n) == Declares(rest[j - 1], k, n);
        if i > 0 { assert Declares(rest[i - 1], k, n) && !Declares(rest[j - 1], k, n); }
      }
    }
  }

  /** A place passes exactly when no names clash in it. */
  lemma PlaceIff(ss: seq<Stmt>, k: ListKind)
    ensures Passes(Names(AllLexicalNames(ss, k), AllSpecVarNames(ss, k), [])) <==> NoClash(ss, k)
  {
    hide Declares, BindsOnce, Distinct, DeclaredOnce, AllLexicalNames, AllSpecVarNames, LexicalNames, SomeDeclares;
    ListNamesAreDeclared(ss, k);
    NoneDistinct();
    DisjointByMembers(AllSpecVarNames(ss, k), AllLexicalNames(ss, k));
    DisjointByMembers([], AllLexicalNames(ss, k));
  }

  lemma HeadIff(names: seq<Name>, body: seq<Stmt>)
    ensures Passes(HeadRule(names, body)) <==> HeadOk(names, body)
  {
    hide AllSpecVarNames;
    DisjointByMembers(AllSpecVarNames(body, BlockList), names);
    DisjointByMembers([], names);
  }

  lemma ParamsIff(params: seq<Name>, body: seq<Stmt>, k: ListKind)
    ensures Passes(Names([], [], params)) <==> Different(params)
    ensures Different(params) && DeclaredOnce(body, k) ==>
      (Passes(Names(AllLexicalNames(body, k), [], params)) <==> NotDeclaredIn(params, body, k))
    ensures Passes(Names(AllLexicalNames(body, k), [], params)) ==> NotDeclaredIn(params, body, k)
  {
    hide Declares, BindsOnce, AllLexicalNames, LexicalNames, SomeDeclares;
    ListNamesAreDeclared(body, k);
    DisjointByMembers(params, AllLexicalNames(body, k));
    DisjointByMembers(params, []);
  }

  // ----- the case block -----

  lemma {:induction false} CaseNames(cs: seq<Case>)
    ensures CaseLexicalNames(cs) == AllLexicalNames(CaseStatements(cs), BlockList)
    ensures CaseSpecVarNames(cs) == AllSpecVarNames(CaseStatements(cs), BlockList)
  {
    hide LexicalNames, SpecVarNames;
    if cs != [] {
      CaseNames(cs[1..]);
      ConcatNames(cs[0].body, CaseStatements(cs[1..]), BlockList);
    }
  }

  lemma {:induction false} ConcatNames(xs: seq<Stmt>, ys: seq<Stmt>, k: ListKind)
    ensures AllLexicalNames(xs + ys, k) == AllLexicalNames(xs, k) + AllLexicalNames(ys, k)
    ensures AllSpecVarNames(xs + ys, k) == AllSpecVarNames(xs, k) + AllSpecVarNames(ys, k)
    decreases |xs|
  {
    hide LexicalNames, SpecVarNames;
    if xs == [] {
      assert xs + ys == ys;
    } else {
      assert (xs + ys)[1..] == xs[1..] + ys;
      ConcatNames(xs[1..], ys, k);
    }
  }

  // ----- the verdict -----

  lemma {:induction false} ListLawful(ss: seq<Stmt>, k: ListKind)
    ensures Lawful(ss, k) <==> AllPass(SpecListChecks(ss, k))
    decreases ss, 3
  {
    hide AllPass, NoClash, LawfulEach, SpecAllChecks, AllLexicalNames, AllSpecVarNames, Passes;
    var place := Names(AllLexicalNames(ss, k), AllSpecVarNames(ss, k), []);
    PlaceIff(ss, k);
    PassOne(place);
    PassBoth([place], SpecAllChecks(ss));
    EachLawful(ss);
  }

  lemma {:induction false} EachLawful(ss: seq<Stmt>)
    ensures LawfulEach(ss) <==> AllPass(SpecAllChecks(ss))
    decreases ss, 2
  {
    hide AllPass, LawfulStmt, SpecChecks;
    if ss == [] {
      PassNone();
    } else {
      StmtLawful(ss[0]);
      EachLawful(ss[1..]);
      PassBoth(SpecChecks(ss[0]), SpecAllChecks(ss[1..]));
      assert forall i :: 1 <= i < |ss| ==> ss[i] == ss[1..][i - 1];
      assert forall i :: 0 <= i < |ss| - 1 ==> ss[1..][i] == ss[i + 1];
    }
  }

  lemma {:induction false} BodyLawful(ss: seq<Stmt>)
    ensures LawfulBody(ss) <==> AllPass(SpecSubChecks(ss))
    decreases ss, 2
  {
    hide AllPass, LawfulStmt, SpecChecks;
    if ss == [] {
      PassNone();
    } else {
      StmtLawful(ss[0]);
      BodyLawful(ss[1..]);
      PlainSubStatement(ss[0]);
      PassOne(SubStatement(ss[0]));
      PassBoth([SubStatement(ss[0])], SpecChecks(ss[0]));
      PassBoth([SubStatement(ss[0])] + SpecChecks(ss[0]), SpecSubChecks(ss[1..]));
      assert forall i :: 1 <= i < |ss| ==> ss[i] == ss[1..][i - 1];
      assert forall i :: 0 <= i < |ss| - 1 ==> ss[1..][i] == ss[i + 1];
    }
  }

  lemma {:induction false} CasesLawful(cs: seq<Case>)
    ensures LawfulCases(cs) <==> AllPass(SpecCaseChecks(cs))
    decreases cs, 2
  {
    hide AllPass, Lawful, SpecListChecks;
    if cs == [] {
      PassNone();
    } else {
      ListLawful(cs[0].body, BlockList);
      CasesLawful(cs[1..]);
      PassBoth(SpecListChecks(cs[0].body, BlockList), SpecCaseChecks(cs[1..]));
      assert forall i :: 1 <= i < |cs| ==> cs[i] == cs[1..][i - 1];
      assert forall i :: 0 <= i < |cs| - 1 ==> cs[1..][i] == cs[i + 1];
    }
  }

  lemma FunctionLawful(name: Name, params: seq<Name>, body: seq<Stmt>)
    requires Lawful(body, ScriptOrFunction) <==> AllPass(SpecListChecks(body, ScriptOrFunction))
    ensures AllPass([Names([], [], params), Names(AllLexicalNames(body, ScriptOrFunction), [], params), FunctionName(name)]
                    + SpecListChecks(body, ScriptOrFunction))
      <==> (name != "eval" && name != "arguments" && Different(params) && NotDeclaredIn(params, body, ScriptOrFunction)
            && Lawful(body, ScriptOrFunction))
  {
    hide AllPass, SpecListChecks, AllLexicalNames, LawfulEach, AllSpecVarNames, Declares, BindsOnce, SomeDeclares, NotDeclaredIn, Different;
    var k := ScriptOrFunction;
    var own, inner, called := Names([], [], params), Names(AllLexicalNames(body, k), [], params), FunctionName(name);
    PassBoth([own, inner, called], SpecListChecks(body, k));
    assert [own, inner, called] == [own] + ([inner] + [called]);
    PassBoth([own], [inner] + [called]);
    PassBoth([inner], [called]);
    PassOne(own);
    PassOne(inner);
    PassOne(called);
    ParamsIff(params, body, k);
  }

  lemma CatchLawful(param: Option<CatchParam>, handler: seq<Stmt>)
    requires DeclaredOnce(handler, BlockList)
    ensures AllPass(PatternRules(param, handler)) && AllPass(ParamChecks(param, handler)) <==> CatchOk(param, handler)
  {
    hide AllPass, AllLexicalNames, AllSpecVarNames, Declares, BindsOnce, DeclaredOnce, SomeDeclares, HeadRule, Passes;
    PassNone();
    if param.Some? {
      var names := BoundNames(param.value);
      var own, inner := Names([], [], names), Names(AllLexicalNames(handler, BlockList), [], names);
      assert [own, inner] == [own] + [inner];
      PassBoth([own], [inner]);
      PassOne(own);
      PassOne(inner);
      PassOne(HeadRule(names, handler));
      ParamsIff(names, handler, BlockList);
      HeadIff(names, handler);
    }
  }

  lemma OnceWhenLawful(ss: seq<Stmt>, k: ListKind)
    requires Lawful(ss, k)
    ensures DeclaredOnce(ss, k)
  {
    hide Declares, BindsOnce, SomeDeclares, AllSpecVarNames, LawfulEach;
  }

  lemma TryLawful(body: seq<Stmt>, param: Option<CatchParam>, handler: seq<Stmt>, finalizer: seq<Stmt>)
    requires Lawful(body, BlockList) <==> AllPass(SpecListChecks(body, BlockList))
    requires Lawful(handler, BlockList) <==> AllPass(SpecListChecks(handler, BlockList))
    requires Lawful(finalizer, BlockList) <==> AllPass(SpecListChecks(finalizer, BlockList))
    ensures AllPass(PatternRules(param, handler)
                    + (SpecListChecks(body, BlockList) + ParamChecks(param, handler) + SpecListChecks(handler, BlockList)
                       + SpecListChecks(finalizer, BlockList)))
      <==> CatchOk(param, handler) && Lawful(body, BlockList) && Lawful(handler, BlockList) && Lawful(finalizer, BlockList)
  {
    hide *;
    var a, b, c, d := SpecListChecks(body, BlockList), ParamChecks(param, handler), SpecListChecks(handler, BlockList), SpecListChecks(finalizer, BlockList);
    PassBoth(PatternRules(param, handler), a + b + c + d);
    PassBoth(a + b + c, d);
    PassBoth(a + b, c);
    PassBoth(a, b);
    if Lawful(handler, BlockList) {
      OnceWhenLawful(handler, BlockList);
      CatchLawful(param, handler);
    }
  }

  lemma ForLawful(init: seq<Stmt>, update: seq<Stmt>, body: seq<Stmt>)
    requires LawfulEach(init) <==> AllPass(SpecAllChecks(init))
    requires LawfulEach(update) <==> AllPass(SpecAllChecks(update))
    requires LawfulBody(body) <==> AllPass(SpecSubChecks(body))
    ensures AllPass(InitRules(init, body) + (SpecAllChecks(init) + SpecAllChecks(update) + SpecSubChecks(body)))
      <==> ((init != [] && init[0].Lexical? ==> HeadOk(init[0].names, body))
            && LawfulEach(init) && LawfulEach(update) && LawfulBody(body))
  {
    hide AllPass, LawfulEach, LawfulBody, SpecAllChecks, SpecSubChecks, HeadRule, HeadOk, Passes;
    PassBoth(InitRules(init, body), SpecAllChecks(init) + SpecAllChecks(update) + SpecSubChecks(body));
    PassBoth(SpecAllChecks(init) + SpecAllChecks(update), SpecSubChecks(body));
    PassBoth(SpecAllChecks(init), SpecAllChecks(update));
    PassNone();
    if init != [] && init[0].Lexical? {
      HeadIff(init[0].names, body);
      PassOne(HeadRule(init[0].names, body));
    }
  }

  lemma {:induction false} StmtLawful(s: Stmt)
    ensures LawfulStmt(s) <==> AllPass(SpecChecks(s))
    decreases s, 1
  {
    hide AllPass, Lawful, LawfulEach, LawfulBody, LawfulCases, NoClash, SpecListChecks, SpecAllChecks, SpecSubChecks, SpecCaseChecks;
    hide HeadRule, HeadOk, CatchOk, PatternRules, ParamChecks, InitRules, NotDeclaredIn, Different, Passes, AllLexicalNames;
    hide CaseLexicalNames, CaseSpecVarNames;
    PassNone();
    match s
    case Block(body) => ListLawful(body, BlockList);
    case Function(name, params, body) =>
      ListLawful(body, ScriptOrFunction);
      FunctionLawful(name, params, body);
    case If(_, body, otherwise) =>
      BodyLawful(body);
      BodyLawful(otherwise);
      PassBoth(SpecSubChecks(body), SpecSubChecks(otherwise));
    case For(init, _, update, body) =>
      EachLawful(init);
      EachLawful(update);
      BodyLawful(body);
      ForLawful(init, update, body);
    case ForHead(kind, names, _, _, body) =>
      BodyLawful(body);
      HeadIff(names, body);
      PassOne(HeadRule(names, body));
      PassBoth(if kind == HeadLexical then [HeadRule(names, body)] else [], SpecSubChecks(body));
    case While(_, body) => BodyLawful(body);
    case DoWhile(body, _) => BodyLawful(body);
    case With(_, body) => BodyLawful(body);
    case Switch(_, cases) =>
      CasesLawful(cases);
      CaseNames(cases);
      PlaceIff(CaseStatements(cases), BlockList);
      PassOne(Names(CaseLexicalNames(cases), CaseSpecVarNames(cases), []));
      PassBoth([Names(CaseLexicalNames(cases), CaseSpecVarNames(cases), [])], SpecCaseChecks(cases));
    case Try(body, param, handler, finalizer) =>
      ListLawful(body, BlockList);
      ListLawful(handler, BlockList);
      ListLawful(finalizer, BlockList);
      TryLawful(body, param, handler, finalizer);
    case Label(inner) =>
      StmtLawful(inner);
      PlainSubStatement(inner);
      PassOne(SubStatement(inner));
      PassBoth([SubStatement(inner)], SpecChecks(inner));
    case Export(Some(inner)) => StmtLawful(inner);
    case _ =>
  }

  /** A program is lawful exactly when the passes accept it and none of what they do not ask is broken anywhere in it. */
  lemma LawfulIff(program: seq<Stmt>, k: ListKind)
    ensures Lawful(program, k) <==> AllPass(ListChecks(program, k)) && AllPass(MissedInList(program, k))
  {
    hide Lawful, AllPass, SpecListChecks, ListChecks, MissedInList;
    ListLawful(program, k);
    VerdictIsLanguagesIff(program, k);
  }

  lemma ClashIsTwice(ss: seq<Stmt>, k: ListKind, i: nat, j: nat, n: Name)
    requires i < j < |ss|
    requires Declares(ss[i], k, n) && Declares(ss[j], k, n)
    ensures !DeclaredOnce(ss, k)
  {
    hide Declares, BindsOnce;
  }

  /** Two statements of one list that declare a name between them are refused, whatever else the list holds. */
  lemma ClashRefused(ss: seq<Stmt>, k: ListKind, i: nat, j: nat, n: Name)
    requires i < j < |ss|
    requires Declares(ss[i], k, n) && Declares(ss[j], k, n)
    ensures !AllPass(ListChecks(ss, k))
  {
    hide Declares, BindsOnce, AllVarNames, AllChecks, DeclaredOnce, AllLexicalNames;
    ListNamesAreDeclared(ss, k);
    ClashIsTwice(ss, k, i, j, n);
    var place := Names(AllLexicalNames(ss, k), AllVarNames(ss, k), []);
    assert !Passes(place);
    assert ListChecks(ss, k)[0] == place;
  }

  /** Two classes of one name, a let beside a class, an exported class beside a let, and, in a block, two functions. */
  lemma RefusedPairs(n: Name, parts: seq<Expr>, params: seq<Name>, body: seq<Stmt>)
    requires n != ""
    ensures !AllPass(ListChecks([Class(n, parts), Class(n, parts)], ScriptOrFunction))
    ensures !AllPass(ListChecks([Lexical([n], [], []), Class(n, parts)], ScriptOrFunction))
    ensures !AllPass(ListChecks([Export(Some(Class(n, parts))), Lexical([n], [], [])], ScriptOrFunction))
    ensures !AllPass(ListChecks([Function(n, params, body), Function(n, params, body)], BlockList))
  {
    hide AllPass, ListChecks;
    ClashRefused([Class(n, parts), Class(n, parts)], ScriptOrFunction, 0, 1, n);
    ClashRefused([Lexical([n], [], []), Class(n, parts)], ScriptOrFunction, 0, 1, n);
    ClashRefused([Export(Some(Class(n, parts))), Lexical([n], [], [])], ScriptOrFunction, 0, 1, n);
    ClashRefused([Function(n, params, body), Function(n, params, body)], BlockList, 0, 1, n);
  }

  /** What a failing requirement is reported as: a clash of names, a function declaration that is no list's, or a function
      called eval or arguments. */
  lemma ReportsWhatFails(c: Check)
    requires !Passes(c)
    ensures CauseOf(c) == Redeclared <==> c.Names?
    ensures CauseOf(c) == FunctionInStatement <==> c.SubStatement? && c.s.Function?
    ensures CauseOf(c) == RestrictedName <==> c == FunctionName("eval") || c == FunctionName("arguments")
  {
  }
}
