/** The rules of the language about declared names, and exactly when the passes give its verdict. */
module EarlyErrorSpec {
  import opened Prelude
  import opened Syntax
  import opened StaticSemantics
  import opened EarlyErrorLaws

  // ----- var declarations in loop heads -----

  /** The names declared by var in the heads of for-in and for-of loops, at any depth of the same function. */
  function HeadVars(s: Stmt): seq<Name> {
    match s
    case ForHead(kind, names, _, _, body) => (if kind == HeadVar then names else []) + AllHeadVars(body)
    case Block(body) => AllHeadVars(body)
    case If(_, body, otherwise) => AllHeadVars(body) + AllHeadVars(otherwise)
    case For(init, _, _, body) => AllHeadVars(init) + AllHeadVars(body)
    case While(_, body) => AllHeadVars(body)
    case DoWhile(body, _) => AllHeadVars(body)
    case With(_, body) => AllHeadVars(body)
    case Switch(_, cases) => CaseHeadVars(cases)
    case Try(body, _, handler, finalizer) => AllHeadVars(body) + AllHeadVars(handler) + AllHeadVars(finalizer)
    case Label(inner) => HeadVars(inner)
    case Export(Some(inner)) => HeadVars(inner)
    case _ => []
  }

  function AllHeadVars(ss: seq<Stmt>): seq<Name> {
    if ss == [] then [] else HeadVars(ss[0]) + AllHeadVars(ss[1..])
  }

  function CaseHeadVars(cs: seq<Case>): seq<Name> {
    if cs == [] then [] else AllHeadVars(cs[0].body) + CaseHeadVars(cs[1..])
  }

  /** The var-declared names of the language (section 8.2.6 of ECMA-262): loop heads declare too. */
  function SpecVarNames(s: Stmt, k: ListKind): seq<Name> {
    match s
    case VarDecl(names, _, _) => names
    case Function(name, _, _) => if k == ScriptOrFunction then [name] else []
    case Block(body) => AllSpecVarNames(body, BlockList)
    case If(_, body, otherwise) => AllSpecVarNames(body, k) + AllSpecVarNames(otherwise, k)
    case For(init, _, _, body) => AllSpecVarNames(init, k) + AllSpecVarNames(body, k)
    case ForHead(kind, names, _, _, body) => (if kind == HeadVar then names else []) + AllSpecVarNames(body, k)
    case While(_, body) => AllSpecVarNames(body, k)
    case DoWhile(body, _) => AllSpecVarNames(body, k)
    case With(_, body) => AllSpecVarNames(body, k)
    case Switch(_, cases) => CaseSpecVarNames(cases)
    case Try(body, _, handler, finalizer) =>
      AllSpecVarNames(body, BlockList) + AllSpecVarNames(handler, BlockList) + AllSpecVarNames(finalizer, BlockList)
    case Label(inner) => SpecVarNames(inner, k)
    case Export(Some(inner)) => SpecVarNames(inner, k)
    case _ => []
  }

  function AllSpecVarNames(ss: seq<Stmt>, k: ListKind): seq<Name> {
    if ss == [] then [] else SpecVarNames(ss[0], k) + AllSpecVarNames(ss[1..], k)
  }

  function CaseSpecVarNames(cs: seq<Case>): seq<Name> {
    if cs == [] then [] else AllSpecVarNames(cs[0].body, BlockList) + CaseSpecVarNames(cs[1..])
  }

  ghost predicate Covers(spec: seq<Name>, code: seq<Name>, heads: seq<Name>) {
    forall n :: n in spec <==> n in code || n in heads
  }

  lemma CoversBoth(s1: seq<Name>, c1: seq<Name>, h1: seq<Name>, s2: seq<Name>, c2: seq<Name>, h2: seq<Name>)
    requires Covers(s1, c1, h1) && Covers(s2, c2, h2)
    ensures Covers(s1 + s2, c1 + c2, h1 + h2)
  {
  }

  lemma {:induction false} ListCovers(ss: seq<Stmt>, k: ListKind)
    ensures Covers(AllSpecVarNames(ss, k), AllVarNames(ss, k), AllHeadVars(ss))
    decreases ss
  {
    hide Covers, SpecVarNames, VarNames, HeadVars;
    if ss == [] {
      NoneCovers();
    } else {
      StmtCovers(ss[0], k);
      ListCovers(ss[1..], k);
      CoversBoth(SpecVarNames(ss[0], k), VarNames(ss[0], k), HeadVars(ss[0]),
                 AllSpecVarNames(ss[1..], k), AllVarNames(ss[1..], k), AllHeadVars(ss[1..]));
    }
  }

  lemma NoneCovers()
    ensures Covers([], [], [])
  {
  }

  lemma {:induction false} CasesCover(cs: seq<Case>)
    ensures Covers(CaseSpecVarNames(cs), CaseVarNames(cs), CaseHeadVars(cs))
    decreases cs
  {
    hide Covers, AllSpecVarNames, AllVarNames, AllHeadVars;
    if cs == [] {
      NoneCovers();
    } else {
      ListCovers(cs[0].body, BlockList);
      CasesCover(cs[1..]);
      CoversBoth(AllSpecVarNames(cs[0].body, BlockList), AllVarNames(cs[0].body, BlockList), AllHeadVars(cs[0].body),
                 CaseSpecVarNames(cs[1..]), CaseVarNames(cs[1..]), CaseHeadVars(cs[1..]));
    }
  }

  lemma TwoListsCover(xs: seq<Stmt>, ys: seq<Stmt>, k: ListKind)
    requires Covers(AllSpecVarNames(xs, k), AllVarNames(xs, k), AllHeadVars(xs))
    requires Covers(AllSpecVarNames(ys, k), AllVarNames(ys, k), AllHeadVars(ys))
    ensures Covers(AllSpecVarNames(xs, k) + AllSpecVarNames(ys, k), AllVarNames(xs, k) + AllVarNames(ys, k), AllHeadVars(xs) + AllHeadVars(ys))
  {
    hide AllSpecVarNames, AllVarNames, AllHeadVars;
  }

  lemma {:induction false} StmtCovers(s: Stmt, k: ListKind)
    ensures Covers(SpecVarNames(s, k), VarNames(s, k), HeadVars(s))
    decreases s
  {
    hide AllSpecVarNames, AllVarNames, AllHeadVars, CaseSpecVarNames, CaseVarNames, CaseHeadVars;
    match s
    case Block(body) => ListCovers(body, BlockList);
    case If(_, body, otherwise) =>
      ListCovers(body, k);
      ListCovers(otherwise, k);
      TwoListsCover(body, otherwise, k);
    case For(init, _, _, body) =>
      ListCovers(init, k);
      ListCovers(body, k);
      TwoListsCover(init, body, k);
    case ForHead(_, _, _, _, body) => ListCovers(body, k);
    case While(_, body) => ListCovers(body, k);
    case DoWhile(body, _) => ListCovers(body, k);
    case With(_, body) => ListCovers(body, k);
    case Switch(_, cases) => CasesCover(cases);
    case Try(body, _, handler, finalizer) =>
      ListCovers(body, BlockList);
      ListCovers(handler, BlockList);
      ListCovers(finalizer, BlockList);
      TwoListsCover(body, handler, BlockList);
    case Label(inner) => StmtCovers(inner, k);
    case Export(Some(inner)) => StmtCovers(inner, k);
    case _ =>
  }

  /** Exactly the names common to both parts decide a check on their union. */
  lemma CoveredCheck(lexical: seq<Name>, spec: seq<Name>, code: seq<Name>, heads: seq<Name>)
    requires Covers(spec, code, heads)
    ensures Passes(Names(lexical, spec, [])) <==> Passes(Names(lexical, code, [])) && Passes(Names(lexical, heads, []))
  {
    DisjointByMembers(spec, lexical);
    DisjointByMembers(code, lexical);
    DisjointByMembers(heads, lexical);
  }

  // ----- the rules of the language -----

  /** The names declared lexically in the head of a loop clash with each other and with what the body declares by
      var (sections 14.7.4.1 and 14.7.5.1 of ECMA-262). */
  function HeadRule(names: seq<Name>, body: seq<Stmt>): Check {
    Names(names, AllSpecVarNames(body, BlockList), [])
  }

  function InitRules(init: seq<Stmt>, body: seq<Stmt>): seq<Check> {
    if init != [] && init[0].Lexical? then [HeadRule(init[0].names, body)] else []
  }

  /** So do the names of a catch pattern, but not a plain catch name (sections 14.15.1 and B.3.4). */
  function PatternRules(param: Option<CatchParam>, handler: seq<Stmt>): seq<Check> {
    match param
    case Some(Pattern(names, _)) => [HeadRule(names, handler)]
    case _ => []
  }

  /** Everything the language requires inside a statement. */
  function SpecChecks(s: Stmt): seq<Check> {
    match s
    case Block(body) => SpecListChecks(body, BlockList)
    case Function(name, params, body) =>
      [Names([], [], params), Names(AllLexicalNames(body, ScriptOrFunction), [], params), FunctionName(name)]
      + SpecListChecks(body, ScriptOrFunction)
    case If(_, body, otherwise) => SpecSubChecks(body) + SpecSubChecks(otherwise)
    case For(init, _, update, body) =>
      InitRules(init, body) + (SpecAllChecks(init) + SpecAllChecks(update) + SpecSubChecks(body))
    case ForHead(kind, names, _, _, body) =>
      (if kind == HeadLexical then [HeadRule(names, body)] else []) + SpecSubChecks(body)
    case While(_, body) => SpecSubChecks(body)
    case DoWhile(body, _) => SpecSubChecks(body)
    case With(_, body) => SpecSubChecks(body)
    case Switch(_, cases) => [Names(CaseLexicalNames(cases), CaseSpecVarNames(cases), [])] + SpecCaseChecks(cases)
    case Try(body, param, handler, finalizer) =>
      PatternRules(param, handler)
      + (SpecListChecks(body, BlockList) + ParamChecks(param, handler) + SpecListChecks(handler, BlockList)
         + SpecListChecks(finalizer, BlockList))
    case Label(inner) => [SubStatement(inner)] + SpecChecks(inner)
    case Export(Some(inner)) => SpecChecks(inner)
    case _ => []
  }

  function SpecAllChecks(ss: seq<Stmt>): seq<Check>
    decreases ss, 0
  {
    if ss == [] then [] else SpecChecks(ss[0]) + SpecAllChecks(ss[1..])
  }

  function SpecSubChecks(ss: seq<Stmt>): seq<Check> {
    if ss == [] then [] else [SubStatement(ss[0])] + SpecChecks(ss[0]) + SpecSubChecks(ss[1..])
  }

  function SpecCaseChecks(cs: seq<Case>): seq<Check> {
    if cs == [] then [] else SpecListChecks(cs[0].body, BlockList) + SpecCaseChecks(cs[1..])
  }

  function SpecListChecks(ss: seq<Stmt>, k: ListKind): seq<Check>
    decreases ss, 1
  {
    [Names(AllLexicalNames(ss, k), AllSpecVarNames(ss, k), [])] + SpecAllChecks(ss)
  }

  // ----- what the passes do not ask -----

  /** The requirements no pass makes, at every place: names of a list or case block against var names in loop heads,
      and the rules on loop heads and catch patterns. */
  function Missed(s: Stmt): seq<Check> {
    match s
    case Block(body) => MissedInList(body, BlockList)
    case Function(_, _, body) => MissedInList(body, ScriptOrFunction)
    case If(_, body, otherwise) => MissedInAll(body) + MissedInAll(otherwise)
    case For(init, _, update, body) => InitRules(init, body) + (MissedInAll(init) + MissedInAll(update) + MissedInAll(body))
    case ForHead(kind, names, _, _, body) => (if kind == HeadLexical then [HeadRule(names, body)] else []) + MissedInAll(body)
    case While(_, body) => MissedInAll(body)
    case DoWhile(body, _) => MissedInAll(body)
    case With(_, body) => MissedInAll(body)
    case Switch(_, cases) => [Names(CaseLexicalNames(cases), CaseHeadVars(cases), [])] + MissedInCases(cases)
    case Try(body, param, handler, finalizer) =>
      PatternRules(param, handler)
      + (MissedInList(body, BlockList) + MissedInList(handler, BlockList) + MissedInList(finalizer, BlockList))
    case Label(inner) => Missed(inner)
    case Export(Some(inner)) => Missed(inner)
    case _ => []
  }

  function MissedInAll(ss: seq<Stmt>): seq<Check>
    decreases ss, 0
  {
    if ss == [] then [] else Missed(ss[0]) + MissedInAll(ss[1..])
  }

  function MissedInCases(cs: seq<Case>): seq<Check> {
    if cs == [] then [] else MissedInList(cs[0].body, BlockList) + MissedInCases(cs[1..])
  }

  function MissedInList(ss: seq<Stmt>, k: ListKind): seq<Check>
    decreases ss, 1
  {
    [Names(AllLexicalNames(ss, k), AllHeadVars(ss), [])] + MissedInAll(ss)
  }

  // ----- the two verdicts -----

  /** All of the first pass exactly when all of the other two do. */
  ghost predicate Splits(spec: seq<Check>, code: seq<Check>, missed: seq<Check>) {
    AllPass(spec) <==> AllPass(code) && AllPass(missed)
  }

  lemma SplitsBoth(s1: seq<Check>, c1: seq<Check>, m1: seq<Check>, s2: seq<Check>, c2: seq<Check>, m2: seq<Check>)
    requires Splits(s1, c1, m1) && Splits(s2, c2, m2)
    ensures Splits(s1 + s2, c1 + c2, m1 + m2)
  {
    hide AllPass;
    PassBoth(s1, s2);
    PassBoth(c1, c2);
    PassBoth(m1, m2);
  }

  /** A requirement both make, and one only the language makes. */
  lemma SplitsShared(shared: seq<Check>, s: seq<Check>, c: seq<Check>, m: seq<Check>)
    requires Splits(s, c, m)
    ensures Splits(shared + s, shared + c, m)
    ensures Splits(shared + s, c, shared + m)
  {
    hide AllPass;
    PassBoth(shared, s);
    PassBoth(shared, c);
    PassBoth(shared, m);
  }

  lemma SplitsNone()
    ensures Splits([], [], [])
  {
  }

  lemma SplitsPlace(lexical: seq<Name>, spec: seq<Name>, code: seq<Name>, heads: seq<Name>)
    requires Covers(spec, code, heads)
    ensures Splits([Names(lexical, spec, [])], [Names(lexical, code, [])], [Names(lexical, heads, [])])
  {
    hide AllPass;
    CoveredCheck(lexical, spec, code, heads);
    PassOne(Names(lexical, spec, []));
    PassOne(Names(lexical, code, []));
    PassOne(Names(lexical, heads, []));
  }

  lemma {:induction false} ListSplits(ss: seq<Stmt>, k: ListKind)
    ensures Splits(SpecListChecks(ss, k), ListChecks(ss, k), MissedInList(ss, k))
    decreases ss, 2
  {
    hide Splits, Covers, SpecAllChecks, AllChecks, MissedInAll;
    ListCovers(ss, k);
    SplitsPlace(AllLexicalNames(ss, k), AllSpecVarNames(ss, k), AllVarNames(ss, k), AllHeadVars(ss));
    AllSplits(ss);
    SplitsBoth([Names(AllLexicalNames(ss, k), AllSpecVarNames(ss, k), [])], [Names(AllLexicalNames(ss, k), AllVarNames(ss, k), [])],
               [Names(AllLexicalNames(ss, k), AllHeadVars(ss), [])], SpecAllChecks(ss), AllChecks(ss), MissedInAll(ss));
  }

  lemma {:induction false} AllSplits(ss: seq<Stmt>)
    ensures Splits(SpecAllChecks(ss), AllChecks(ss), MissedInAll(ss))
    decreases ss, 1
  {
    hide Splits, SpecChecks, Checks, Missed;
    if ss == [] {
      SplitsNone();
    } else {
      StmtSplits(ss[0]);
      AllSplits(ss[1..]);
      SplitsBoth(SpecChecks(ss[0]), Checks(ss[0]), Missed(ss[0]), SpecAllChecks(ss[1..]), AllChecks(ss[1..]), MissedInAll(ss[1..]));
    }
  }

  lemma {:induction false} SubSplits(ss: seq<Stmt>)
    ensures Splits(SpecSubChecks(ss), SubChecks(ss), MissedInAll(ss))
    decreases ss, 1
  {
    hide Splits, SpecChecks, Checks, Missed;
    if ss == [] {
      SplitsNone();
    } else {
      StmtSplits(ss[0]);
      SubSplits(ss[1..]);
      SplitsShared([SubStatement(ss[0])], SpecChecks(ss[0]), Checks(ss[0]), Missed(ss[0]));
      SplitsBoth([SubStatement(ss[0])] + SpecChecks(ss[0]), [SubStatement(ss[0])] + Checks(ss[0]), Missed(ss[0]),
                 SpecSubChecks(ss[1..]), SubChecks(ss[1..]), MissedInAll(ss[1..]));
    }
  }

  lemma {:induction false} CasesSplit(cs: seq<Case>)
    ensures Splits(SpecCaseChecks(cs), CaseChecks(cs), MissedInCases(cs))
    decreases cs
  {
    hide Splits, SpecListChecks, ListChecks, MissedInList;
    if cs == [] {
      SplitsNone();
    } else {
      var xs, k := cs[0].body, BlockList;
      ListSplits(xs, k);
      CasesSplit(cs[1..]);
      SplitsBoth(SpecListChecks(xs, k), ListChecks(xs, k), MissedInList(xs, k),
                 SpecCaseChecks(cs[1..]), CaseChecks(cs[1..]), MissedInCases(cs[1..]));
    }
  }

  lemma {:induction false} StmtSplits(s: Stmt)
    ensures Splits(SpecChecks(s), Checks(s), Missed(s))
    decreases s
  {
    hide Splits, SpecListChecks, ListChecks, MissedInList, SpecSubChecks, SubChecks, MissedInAll;
    hide SpecAllChecks, AllChecks, SpecCaseChecks, CaseChecks, MissedInCases;
    match s
    case Block(body) => ListSplits(body, BlockList);
    case Function(name, params, body) =>
      var k := ScriptOrFunction;
      ListSplits(body, k);
      SplitsShared([Names([], [], params), Names(AllLexicalNames(body, k), [], params), FunctionName(name)],
                   SpecListChecks(body, k), ListChecks(body, k), MissedInList(body, k));
    case If(_, body, otherwise) =>
      SubSplits(body);
      SubSplits(otherwise);
      SplitsBoth(SpecSubChecks(body), SubChecks(body), MissedInAll(body),
                 SpecSubChecks(otherwise), SubChecks(otherwise), MissedInAll(otherwise));
    case For(init, _, update, body) =>
      AllSplits(init);
      AllSplits(update);
      SubSplits(body);
      ForSplits(init, update, body);
    case ForHead(kind, names, _, _, body) =>
      SubSplits(body);
      SplitsShared(if kind == HeadLexical then [HeadRule(names, body)] else [], SpecSubChecks(body), SubChecks(body), MissedInAll(body));
    case While(_, body) => SubSplits(body);
    case DoWhile(body, _) => SubSplits(body);
    case With(_, body) => SubSplits(body);
    case Switch(_, cases) =>
      CasesCover(cases);
      CasesSplit(cases);
      SplitsPlace(CaseLexicalNames(cases), CaseSpecVarNames(cases), CaseVarNames(cases), CaseHeadVars(cases));
      SplitsBoth([Names(CaseLexicalNames(cases), CaseSpecVarNames(cases), [])], [Names(CaseLexicalNames(cases), CaseVarNames(cases), [])],
                 [Names(CaseLexicalNames(cases), CaseHeadVars(cases), [])], SpecCaseChecks(cases), CaseChecks(cases), MissedInCases(cases));
    case Try(body, param, handler, finalizer) =>
      ListSplits(body, BlockList);
      ListSplits(handler, BlockList);
      ListSplits(finalizer, BlockList);
      TrySplits(body, param, handler, finalizer);
    case Label(inner) =>
      StmtSplits(inner);
      SplitsShared([SubStatement(inner)], SpecChecks(inner), Checks(inner), Missed(inner));
    case Export(Some(inner)) => StmtSplits(inner);
    case _ => SplitsNone();
  }

  lemma ForSplits(init: seq<Stmt>, update: seq<Stmt>, body: seq<Stmt>)
    requires Splits(SpecAllChecks(init), AllChecks(init), MissedInAll(init))
    requires Splits(SpecAllChecks(update), AllChecks(update), MissedInAll(update))
    requires Splits(SpecSubChecks(body), SubChecks(body), MissedInAll(body))
    ensures Splits(InitRules(init, body) + (SpecAllChecks(init) + SpecAllChecks(update) + SpecSubChecks(body)),
                   AllChecks(init) + AllChecks(update) + SubChecks(body),
                   InitRules(init, body) + (MissedInAll(init) + MissedInAll(update) + MissedInAll(body)))
  {
    hide *;
    var s, c, m := SpecAllChecks(init) + SpecAllChecks(update), AllChecks(init) + AllChecks(update), MissedInAll(init) + MissedInAll(update);
    SplitsBoth(SpecAllChecks(init), AllChecks(init), MissedInAll(init), SpecAllChecks(update), AllChecks(update), MissedInAll(update));
    SplitsBoth(s, c, m, SpecSubChecks(body), SubChecks(body), MissedInAll(body));
    SplitsShared(InitRules(init, body), s + SpecSubChecks(body), c + SubChecks(body), m + MissedInAll(body));
  }

  lemma TrySplits(body: seq<Stmt>, param: Option<CatchParam>, handler: seq<Stmt>, finalizer: seq<Stmt>)
    requires Splits(SpecListChecks(body, BlockList), ListChecks(body, BlockList), MissedInList(body, BlockList))
    requires Splits(SpecListChecks(handler, BlockList), ListChecks(handler, BlockList), MissedInList(handler, BlockList))
    requires Splits(SpecListChecks(finalizer, BlockList), ListChecks(finalizer, BlockList), MissedInList(finalizer, BlockList))
    ensures Splits(PatternRules(param, handler)
                   + (SpecListChecks(body, BlockList) + ParamChecks(param, handler) + SpecListChecks(handler, BlockList)
                      + SpecListChecks(finalizer, BlockList)),
                   ListChecks(body, BlockList) + ParamChecks(param, handler) + ListChecks(handler, BlockList) + ListChecks(finalizer, BlockList),
                   PatternRules(param, handler)
                   + (MissedInList(body, BlockList) + MissedInList(handler, BlockList) + MissedInList(finalizer, BlockList)))
  {
    hide *;
    var k := BlockList;
    var s1, c1, m1 := SpecListChecks(body, k) + ParamChecks(param, handler), ListChecks(body, k) + ParamChecks(param, handler), MissedInList(body, k);
    SplitsAfter(SpecListChecks(body, k), ListChecks(body, k), m1, ParamChecks(param, handler));
    var s2, c2, m2 := s1 + SpecListChecks(handler, k), c1 + ListChecks(handler, k), m1 + MissedInList(handler, k);
    SplitsBoth(s1, c1, m1, SpecListChecks(handler, k), ListChecks(handler, k), MissedInList(handler, k));
    SplitsBoth(s2, c2, m2, SpecListChecks(finalizer, k), ListChecks(finalizer, k), MissedInList(finalizer, k));
    SplitsShared(PatternRules(param, handler), s2 + SpecListChecks(finalizer, k), c2 + ListChecks(finalizer, k), m2 + MissedInList(finalizer, k));
  }

  lemma SplitsAfter(s: seq<Check>, c: seq<Check>, m: seq<Check>, shared: seq<Check>)
    requires Splits(s, c, m)
    ensures Splits(s + shared, c + shared, m)
  {
    hide AllPass;
    PassBoth(s, shared);
    PassBoth(c, shared);
  }

  /** A program meets the language's rules on declared names exactly when the passes accept it and, at every place
      in it, no lexical name is declared by var in a loop head, no name of a lexical loop head is repeated or
      declared by var in the loop's body, and no name of a catch pattern is declared by var in the handler. */
  lemma VerdictIsLanguagesIff(program: seq<Stmt>, k: ListKind)
    ensures AllPass(SpecListChecks(program, k)) <==> AllPass(ListChecks(program, k)) && AllPass(MissedInList(program, k))
  {
    ListSplits(program, k);
  }

  // ----- inputs that pass and should not -----

  /** let x; for (var x of []); */
  const HEAD_VAR: seq<Stmt> := [Lexical(["x"], [], []), ForHead(HeadVar, ["x"], [], [], [])]

  /** for (let x of []) { var x; } */
  const HEAD_LEXICAL: seq<Stmt> := [ForHead(HeadLexical, ["x"], [], [], [Block([VarDecl(["x"], [], [])])])]

  /** try {} catch ([x]) { var x; } */
  const CATCH_PATTERN: seq<Stmt> := [Try([], Some(Pattern(["x"], [])), [VarDecl(["x"], [], [])], [])]

  lemma AllOfOne(s: Stmt)
    ensures AllChecks([s]) == Checks(s) && MissedInAll([s]) == Missed(s)
    ensures forall k :: AllLexicalNames([s], k) == LexicalNames(s, k) && AllVarNames([s], k) == VarNames(s, k)
    ensures forall k :: AllSpecVarNames([s], k) == SpecVarNames(s, k)
  {
    assert [s][1..] == [];
  }

  /** Names(x, x) is a clash, and checks with nothing declared lexically pass. */
  lemma Clash()
    ensures !Passes(Names(["x"], ["x"], []))
    ensures forall vars :: Passes(Names([], vars, []))
    ensures Passes(Names(["x"], [], [])) && Passes(Names([], [], ["x"]))
  {
    assert ["x"][0] in ["x"];
  }

  lemma FailsAt(cs: seq<Check>, ds: seq<Check>)
    ensures !AllPass(cs + ([Names(["x"], ["x"], [])] + ds))
  {
    Clash();
    assert (cs + ([Names(["x"], ["x"], [])] + ds))[|cs|] == Names(["x"], ["x"], []);
  }

  lemma HeadVarMissed()
    ensures AllPass(ListChecks(HEAD_VAR, ScriptOrFunction)) && !AllPass(SpecListChecks(HEAD_VAR, ScriptOrFunction))
  {
    hide Passes, AllPass, SpecListChecks;
    var k, b := ScriptOrFunction, HEAD_VAR[1];
    assert HEAD_VAR[1..] == [b];
    AllOfOne(b);
    assert AllHeadVars([b]) == ["x"] by { assert [b][1..] == []; }
    assert AllLexicalNames(HEAD_VAR, k) == ["x"] && AllVarNames(HEAD_VAR, k) == [] && AllChecks(HEAD_VAR) == [];
    assert ListChecks(HEAD_VAR, k) == [Names(["x"], [], [])];
    assert AllHeadVars(HEAD_VAR) == ["x"];
    assert MissedInList(HEAD_VAR, k) == [] + ([Names(["x"], ["x"], [])] + MissedInAll(HEAD_VAR));
    Clash();
    PassOne(Names(["x"], [], []));
    FailsAt([], MissedInAll(HEAD_VAR));
    VerdictIsLanguagesIff(HEAD_VAR, k);
  }

  lemma HeadLexicalParts(loop: Stmt, block: Stmt, decl: Stmt)
    requires HEAD_LEXICAL == [loop] && block == loop.body[0] && decl == VarDecl(["x"], [], [])
    ensures ListChecks(HEAD_LEXICAL, ScriptOrFunction) == [Names([], ["x"], [])] + ([SubStatement(block)] + [Names([], ["x"], [])])
    ensures Missed(loop) == [Names(["x"], ["x"], [])] + MissedInAll([block])
  {
    AllOfOne(loop);
    AllOfOne(block);
    AllOfOne(decl);
    assert loop.body == [block] && block.body == [decl];
    assert SubChecks([block]) == [SubStatement(block)] + Checks(block) by { assert [block][1..] == []; }
    assert Checks(block) == [Names([], ["x"], [])];
  }

  lemma HeadLexicalMissed()
    ensures AllPass(ListChecks(HEAD_LEXICAL, ScriptOrFunction)) && !AllPass(SpecListChecks(HEAD_LEXICAL, ScriptOrFunction))
  {
    hide Passes, AllPass, SpecListChecks, ListChecks, Missed;
    var loop, inner := HEAD_LEXICAL[0], Names([], ["x"], []);
    var block := loop.body[0];
    HeadLexicalParts(loop, block, VarDecl(["x"], [], []));
    Clash();
    PassOne(inner);
    PassOne(SubStatement(block));
    PlainSubStatement(block);
    PassBoth([SubStatement(block)], [inner]);
    PassBoth([inner], [SubStatement(block)] + [inner]);
    AllOfOne(loop);
    FailsAt([Names([], AllHeadVars(HEAD_LEXICAL), [])], MissedInAll([block]));
    VerdictIsLanguagesIff(HEAD_LEXICAL, ScriptOrFunction);
  }

  lemma CatchPatternMissed()
    ensures AllPass(ListChecks(CATCH_PATTERN, ScriptOrFunction)) && !AllPass(SpecListChecks(CATCH_PATTERN, ScriptOrFunction))
  {
    hide Passes, AllPass, SpecListChecks;
    var k, attempt, decl := ScriptOrFunction, CATCH_PATTERN[0], VarDecl(["x"], [], []);
    AllOfOne(attempt);
    AllOfOne(decl);
    assert attempt.handler == [decl];
    var empty, inner, param := Names([], [], []), Names([], ["x"], []), Names([], [], ["x"]);
    assert ListChecks([], BlockList) == [empty] && ListChecks([decl], BlockList) == [inner];
    assert ParamChecks(attempt.param, [decl]) == [param] + [param];
    assert Checks(attempt) == [empty] + ([param] + [param]) + [inner] + [empty];
    assert AllVarNames(CATCH_PATTERN, k) == ["x"];
    Clash();
    PassOne(empty);
    PassOne(inner);
    PassOne(param);
    PassBoth([param], [param]);
    PassBoth([empty], [param] + [param]);
    PassBoth([empty] + ([param] + [param]), [inner]);
    PassBoth([empty] + ([param] + [param]) + [inner], [empty]);
    PassBoth([inner], Checks(attempt));
    var rest := MissedInList([], BlockList) + MissedInList([decl], BlockList) + MissedInList([], BlockList);
    assert Missed(attempt) == [Names(["x"], ["x"], [])] + rest;
    FailsAt([Names([], AllHeadVars(CATCH_PATTERN), [])], rest);
    VerdictIsLanguagesIff(CATCH_PATTERN, k);
  }
}
