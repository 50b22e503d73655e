/** What the eval scan is meant to find, and for which programs and masks it finds exactly that. */
module EvalOccurrences {
  import opened Prelude
  import opened Syntax
  import opened EvalScan

  // ----- the constructs the rules speak of, wherever they stand in the code of this scope -----

  /** Assigning to eval or arguments: assignment, compound assignment, update, an assignment pattern that names one of
      them, or the target of a loop head. References to arguments and new.target, super calls and super properties count
      wherever they stand in the code of this scope, also in keys, arguments, templates, defaults and class heritage. */
  function MeantExpr(e: Expr): Flags {
    match e
    case Var(name) => When(name == "arguments", ARGUMENTS)
    case Leaf => {}
    case ClassExpr(outer) => MeantExprs(outer)
    case Template(parts) => MeantExprs(parts)
    case NewTarget => {NEW_TARGET}
    case SuperCall(args) => {SUPER_CALL} + MeantExprs(args)
    case SuperMethod(args) => {SUPER_PROP} + MeantExprs(args)
    case SuperProperty => {SUPER_PROP}
    case SuperComputedProperty(key) => {SUPER_PROP} + MeantExpr(key)
    case SuperComputedMethod(key, args) => {SUPER_PROP} + MeantExpr(key) + MeantExprs(args)
    case Arrow(defaults, body) => MeantExprs(defaults) + MeantStmts(body)
    case Pair(op, a, b) => When(Assigns(op) && Named(a), STRICT_ASSIGN) + MeantExpr(a) + MeantExpr(b)
    case Update(x) => When(Named(x), STRICT_ASSIGN) + MeantExpr(x)
    case AssignPattern(names, parts) => When(NamesRestricted(names), STRICT_ASSIGN) + MeantExprs(parts)
    case Compound(parts) => MeantExprs(parts)
  }

  /** A reference to eval or arguments. */
  predicate Named(e: Expr) { e == Var("eval") || e == Var("arguments") }

  predicate NamesRestricted(names: seq<Name>) {
    "arguments" in names || "eval" in names
  }

  predicate Assigns(op: PairOp) {
    op.Assignment? || op.CompoundAssignment?
  }

  function MeantExprs(es: seq<Expr>): Flags {
    if es == [] then {} else MeantExpr(es[0]) + MeantExprs(es[1..])
  }

  function MeantStmts(ss: seq<Stmt>): Flags {
    if ss == [] then {} else MeantStmt(ss[0]) + MeantStmts(ss[1..])
  }

  function MeantCases(cs: seq<Case>): Flags {
    if cs == [] then {} else MeantExprs(cs[0].test) + MeantStmts(cs[0].body) + MeantCases(cs[1..])
  }

  /** Naming eval or arguments as the target of an assignment. */
  function TargetName(name: Name): Flags {
    When(name == "arguments" || name == "eval", STRICT_ASSIGN) + When(name == "arguments", ARGUMENTS)
  }

  function TargetNames(names: seq<Name>): Flags {
    if names == [] then {} else TargetName(names[0]) + TargetNames(names[1..])
  }

  /** What a loop head assigns to: a name, or the first part when there is none. */
  function HeadTargets(kind: HeadKind, names: seq<Name>, parts: seq<Expr>): Flags {
    if kind != HeadTarget then {}
    else if names != [] then TargetNames(names)
    else When(parts != [] && Named(parts[0]), STRICT_ASSIGN)
  }

  function MeantStmt(s: Stmt): Flags {
    match s
    case Simple(parts) => MeantExprs(parts)
    case Expression(e) => MeantExpr(e)
    case Lexical(_, inits, defaults) => MeantExprs(inits) + MeantExprs(defaults)
    case VarDecl(_, inits, defaults) => MeantExprs(inits) + MeantExprs(defaults)
    case Assign(name, e) => TargetName(name) + MeantExpr(e)
    case Function(_, _, _) => {}
    case Class(_, outer) => MeantExprs(outer)
    case Block(body) => MeantStmts(body)
    case If(test, body, otherwise) => MeantExpr(test) + MeantStmts(body) + MeantStmts(otherwise)
    case For(init, tests, update, body) => MeantStmts(init) + MeantExprs(tests) + MeantStmts(update) + MeantStmts(body)
    case ForHead(kind, names, parts, defaults, body) =>
      HeadTargets(kind, names, parts) + MeantExprs(parts) + MeantExprs(defaults) + MeantStmts(body)
    case While(test, body) => MeantExpr(test) + MeantStmts(body)
    case DoWhile(body, test) => MeantStmts(body) + MeantExpr(test)
    case With(test, body) => MeantExpr(test) + MeantStmts(body)
    case Switch(subject, cases) => MeantExpr(subject) + MeantCases(cases)
    case Try(body, Some(Pattern(_, defaults)), handler, finalizer) =>
      MeantStmts(body) + MeantExprs(defaults) + MeantStmts(handler) + MeantStmts(finalizer)
    case Try(body, _, handler, finalizer) => MeantStmts(body) + MeantStmts(handler) + MeantStmts(finalizer)
    case Label(inner) => MeantStmt(inner)
    case Import => {IMPORT_EXPORT}
    case Export(None) => {IMPORT_EXPORT}
    case Export(Some(inner)) => {IMPORT_EXPORT} + MeantStmt(inner)
  }

  // ----- what the scan raises beside the point -----

  /** Flags of constructs that are not what the flag is for: an operator, element access or sequence whose left side
      is eval or arguments, and a method called on super. */
  function ExcessExpr(e: Expr): Flags {
    match e
    case SuperMethod(_) | SuperComputedMethod(_, _) => {SUPER_CALL}
    case Arrow(_, body) => ExcessStmts(body)
    case Pair(op, a, b) => When(!Assigns(op) && Named(a), STRICT_ASSIGN) + ExcessExpr(a) + ExcessExpr(b)
    case Update(x) => ExcessExpr(x)
    case AssignPattern(_, parts) => ExcessExprs(parts)
    case Compound(parts) => ExcessExprs(parts)
    case _ => {}
  }

  function ExcessExprs(es: seq<Expr>): Flags {
    if es == [] then {} else ExcessExpr(es[0]) + ExcessExprs(es[1..])
  }

  function ExcessStmts(ss: seq<Stmt>): Flags {
    if ss == [] then {} else ExcessStmt(ss[0]) + ExcessStmts(ss[1..])
  }

  function ExcessCases(cs: seq<Case>): Flags {
    if cs == [] then {} else ExcessExprs(cs[0].test) + ExcessStmts(cs[0].body) + ExcessCases(cs[1..])
  }

  function ExcessStmt(s: Stmt): Flags {
    match s
    case Simple(parts) => ExcessExprs(parts)
    case Expression(e) => ExcessExpr(e)
    case Lexical(_, inits, _) => ExcessExprs(inits)
    case VarDecl(_, inits, _) => ExcessExprs(inits)
    case Assign(_, e) => ExcessExpr(e)
    case Block(body) => ExcessStmts(body)
    case If(test, body, otherwise) => ExcessExpr(test) + ExcessStmts(body) + ExcessStmts(otherwise)
    case For(init, tests, update, body) => ExcessStmts(init) + ExcessExprs(tests) + ExcessStmts(update) + ExcessStmts(body)
    case ForHead(_, _, parts, _, body) => ExcessExprs(parts) + ExcessStmts(body)
    case While(test, body) => ExcessExpr(test) + ExcessStmts(body)
    case DoWhile(body, test) => ExcessStmts(body) + ExcessExpr(test)
    case With(test, body) => ExcessExpr(test) + ExcessStmts(body)
    case Switch(subject, cases) => ExcessExpr(subject) + ExcessCases(cases)
    case Try(body, _, handler, finalizer) => ExcessStmts(body) + ExcessStmts(handler) + ExcessStmts(finalizer)
    case Label(inner) => ExcessStmt(inner)
    case _ => {}
  }

  // ----- what the scan does not look at -----

  /** Flags of what stands in keys and arguments of super, in templates, in defaults, in class heritage and class keys
      and in exported declarations, and of what is assigned to by update, assignment pattern or loop head. */
  function HiddenExpr(e: Expr): Flags {
    match e
    case ClassExpr(outer) => MeantExprs(outer)
    case Template(parts) => MeantExprs(parts)
    case SuperCall(args) => MeantExprs(args)
    case SuperMethod(args) => {SUPER_PROP} + MeantExprs(args)
    case SuperComputedProperty(key) => MeantExpr(key)
    case SuperComputedMethod(key, args) => MeantExpr(key) + MeantExprs(args)
    case Arrow(defaults, body) => MeantExprs(defaults) + HiddenStmts(body)
    case Pair(_, a, b) => HiddenExpr(a) + HiddenExpr(b)
    case Update(x) => When(Named(x), STRICT_ASSIGN) + HiddenExpr(x)
    case AssignPattern(names, parts) => When(NamesRestricted(names), STRICT_ASSIGN) + HiddenExprs(parts)
    case Compound(parts) => HiddenExprs(parts)
    case _ => {}
  }

  function HiddenExprs(es: seq<Expr>): Flags {
    if es == [] then {} else HiddenExpr(es[0]) + HiddenExprs(es[1..])
  }

  function HiddenStmts(ss: seq<Stmt>): Flags {
    if ss == [] then {} else HiddenStmt(ss[0]) + HiddenStmts(ss[1..])
  }

  function HiddenCases(cs: seq<Case>): Flags {
    if cs == [] then {} else HiddenExprs(cs[0].test) + HiddenStmts(cs[0].body) + HiddenCases(cs[1..])
  }

  function HiddenStmt(s: Stmt): Flags {
    match s
    case Simple(parts) => HiddenExprs(parts)
    case Expression(e) => HiddenExpr(e)
    case Lexical(_, inits, defaults) => HiddenExprs(inits) + MeantExprs(defaults)
    case VarDecl(_, inits, defaults) => HiddenExprs(inits) + MeantExprs(defaults)
    case Assign(name, e) => When(name == "arguments", ARGUMENTS) + HiddenExpr(e)
    case Block(body) => HiddenStmts(body)
    case If(test, body, otherwise) => HiddenExpr(test) + HiddenStmts(body) + HiddenStmts(otherwise)
    case For(init, tests, update, body) => HiddenStmts(init) + HiddenExprs(tests) + HiddenStmts(update) + HiddenStmts(body)
    case ForHead(kind, names, parts, defaults, body) =>
      HeadTargets(kind, names, parts) + HiddenExprs(parts) + MeantExprs(defaults) + HiddenStmts(body)
    case While(test, body) => HiddenExpr(test) + HiddenStmts(body)
    case DoWhile(body, test) => HiddenStmts(body) + HiddenExpr(test)
    case With(test, body) => HiddenExpr(test) + HiddenStmts(body)
    case Switch(subject, cases) => HiddenExpr(subject) + HiddenCases(cases)
    case Try(body, Some(Pattern(_, defaults)), handler, finalizer) =>
      HiddenStmts(body) + MeantExprs(defaults) + HiddenStmts(handler) + HiddenStmts(finalizer)
    case Try(body, _, handler, finalizer) => HiddenStmts(body) + HiddenStmts(handler) + HiddenStmts(finalizer)
    case Class(_, outer) => MeantExprs(outer)
    case Label(inner) => HiddenStmt(inner)
    case Export(Some(inner)) => MeantStmt(inner)
    case _ => {}
  }

  // ----- the four agree -----

  /** What is raised is meant or excess, and what is meant is raised or hidden. */
  ghost predicate Sorted(raised: Flags, meant: Flags, excess: Flags, hidden: Flags) {
    raised <= meant + excess && excess <= raised && meant <= raised + hidden && hidden <= meant
  }

  lemma {:induction false} ExprSorted(e: Expr)
    ensures Sorted(ExprFlags(e), MeantExpr(e), ExcessExpr(e), HiddenExpr(e))
    decreases e
  {
    hide ExprsFlags, MeantExprs, ExcessExprs, HiddenExprs, StmtsFlags, MeantStmts, ExcessStmts, HiddenStmts;
    match e
    case Arrow(_, body) => StmtsSorted(body);
    case Pair(_, a, b) =>
      ExprSorted(a);
      ExprSorted(b);
    case Update(x) => ExprSorted(x);
    case AssignPattern(_, parts) => ExprsSorted(parts);
    case Compound(parts) => ExprsSorted(parts);
    case _ =>
  }

  lemma {:induction false} ExprsSorted(es: seq<Expr>)
    ensures Sorted(ExprsFlags(es), MeantExprs(es), ExcessExprs(es), HiddenExprs(es))
    decreases es
  {
    hide ExprFlags, MeantExpr, ExcessExpr, HiddenExpr;
    if es != [] {
      ExprSorted(es[0]);
      ExprsSorted(es[1..]);
    }
  }

  lemma {:induction false} StmtsSorted(ss: seq<Stmt>)
    ensures Sorted(StmtsFlags(ss), MeantStmts(ss), ExcessStmts(ss), HiddenStmts(ss))
    decreases ss
  {
    hide StmtFlags, MeantStmt, ExcessStmt, HiddenStmt;
    if ss != [] {
      StmtSorted(ss[0]);
      StmtsSorted(ss[1..]);
    }
  }

  lemma {:induction false} CasesSorted(cs: seq<Case>)
    ensures Sorted(CasesFlags(cs), MeantCases(cs), ExcessCases(cs), HiddenCases(cs))
    decreases cs
  {
    hide ExprsFlags, MeantExprs, ExcessExprs, HiddenExprs, StmtsFlags, MeantStmts, ExcessStmts, HiddenStmts;
    if cs != [] {
      ExprsSorted(cs[0].test);
      StmtsSorted(cs[0].body);
      CasesSorted(cs[1..]);
    }
  }

  predicate IsLoop(s: Stmt) {
    s.For? || s.ForHead? || s.While? || s.DoWhile?
  }

  lemma {:induction false} LoopSorted(s: Stmt)
    requires IsLoop(s)
    ensures Sorted(StmtFlags(s), MeantStmt(s), ExcessStmt(s), HiddenStmt(s))
    decreases s, 0
  {
    hide ExprsFlags, MeantExprs, ExcessExprs, HiddenExprs, StmtsFlags, MeantStmts, ExcessStmts, HiddenStmts;
    hide CasesFlags, MeantCases, ExcessCases, HiddenCases, HeadTargets;
    match s
    case For(init, tests, update, body) =>
      StmtsSorted(init);
      ExprsSorted(tests);
      StmtsSorted(update);
      StmtsSorted(body);
    case ForHead(_, _, parts, _, body) =>
      ExprsSorted(parts);
      StmtsSorted(body);
    case While(test, body) =>
      ExprSorted(test);
      StmtsSorted(body);
    case DoWhile(body, test) =>
      StmtsSorted(body);
      ExprSorted(test);
    case _ =>
  }

  lemma {:induction false} StmtSorted(s: Stmt)
    ensures Sorted(StmtFlags(s), MeantStmt(s), ExcessStmt(s), HiddenStmt(s))
    decreases s, 1
  {
    hide ExprsFlags, MeantExprs, ExcessExprs, HiddenExprs, StmtsFlags, MeantStmts, ExcessStmts, HiddenStmts;
    hide CasesFlags, MeantCases, ExcessCases, HiddenCases, HeadTargets;
    if IsLoop(s) {
      LoopSorted(s);
      return;
    }
    match s
    case Simple(parts) => ExprsSorted(parts);
    case Expression(e) => ExprSorted(e);
    case Lexical(_, inits, _) => ExprsSorted(inits);
    case VarDecl(_, inits, _) => ExprsSorted(inits);
    case Assign(_, e) => ExprSorted(e);
    case Block(body) => StmtsSorted(body);
    case If(test, body, otherwise) =>
      ExprSorted(test);
      StmtsSorted(body);
      StmtsSorted(otherwise);
    case With(test, body) =>
      ExprSorted(test);
      StmtsSorted(body);
    case Switch(subject, cases) =>
      ExprSorted(subject);
      CasesSorted(cases);
    case Try(body, _, handler, finalizer) =>
      StmtsSorted(body);
      StmtsSorted(handler);
      StmtsSorted(finalizer);
    case Label(inner) => StmtSorted(inner);
    case _ =>
  }

  // ----- when the scan is right -----

  /** The scan returns, within its mask, exactly the flags of the constructs it is meant to find if and only if every
      masked flag it raises beside the point also stands for a construct that is meant, and every masked flag of a
      construct it does not look at is also raised in view. */
  lemma ScanRightIff(ss: seq<Stmt>, mask: Flags)
    ensures ScanStmts(ss, mask, {}) * mask == MeantStmts(ss) * mask <==>
      ExcessStmts(ss) * mask <= MeantStmts(ss) && HiddenStmts(ss) * mask <= StmtsFlags(ss)
  {
    ScanFindsMaskedOccurrences(ss, mask);
    StmtsSorted(ss);
    var raised, meant := StmtsFlags(ss), MeantStmts(ss);
    if raised * mask == meant * mask {
      forall f | f in ExcessStmts(ss) * mask ensures f in meant { assert f in raised * mask; }
      forall f | f in HiddenStmts(ss) * mask ensures f in raised { assert f in meant * mask; }
    }
  }

  /** So it is right for every mask on programs without such constructs. */
  lemma RightWithoutQuirks(ss: seq<Stmt>, mask: Flags)
    requires ExcessStmts(ss) == {} && HiddenStmts(ss) == {}
    ensures ScanStmts(ss, mask, {}) * mask == MeantStmts(ss) * mask
  {
    ScanRightIff(ss, mask);
  }

  /** Reading an element of arguments raises the strict flag beside the point... */
  lemma ReadingRaisesStrictFlag()
    ensures var program := [Expression(Pair(ElementAccess, Var("arguments"), Leaf))];
            MeantStmts(program) == {ARGUMENTS} && ScanStmts(program, {STRICT_ASSIGN}, {}) == {STRICT_ASSIGN}
  {
    var e := Pair(ElementAccess, Var("arguments"), Leaf);
    MeantOfOne(e);
    OneExpression(e, {STRICT_ASSIGN});
  }

  /** ...incrementing it goes unseen... */
  lemma UpdateMissesStrictFlag()
    ensures var program := [Expression(Update(Var("arguments")))];
            STRICT_ASSIGN in MeantStmts(program) && ScanStmts(program, {STRICT_ASSIGN}, {}) == {}
  {
    MeantOfOne(Update(Var("arguments")));
    OneExpression(Update(Var("arguments")), {STRICT_ASSIGN});
  }

  /** ...and so does whatever stands in the brackets of a super property. */
  lemma SuperHidesKey(key: Expr, mask: Flags)
    requires mask != {}
    ensures var program := [Expression(SuperComputedProperty(key))];
            MeantExpr(key) <= MeantStmts(program) && ScanStmts(program, mask, {}) == {SUPER_PROP}
  {
    MeantOfOne(SuperComputedProperty(key));
    OneExpression(SuperComputedProperty(key), mask);
  }

  /** What a class extends goes unseen... */
  lemma HeritageHidden(name: Name, mask: Flags)
    requires ARGUMENTS in mask
    ensures var program := [Class(name, [Var("arguments")])];
            ARGUMENTS in MeantStmts(program) && ScanStmts(program, mask, {}) == {}
  {
    var class_ := Class(name, [Var("arguments")]);
    assert [class_][1..] == [];
    assert [Var("arguments")][0] == Var("arguments");
    assert ARGUMENTS in MeantStmt(class_);
  }

  /** ...and so does assigning through a pattern. */
  lemma PatternMissesStrictFlag()
    ensures var program := [Expression(Pair(Assignment, AssignPattern(["arguments"], [Var("arguments")]), Leaf))];
            STRICT_ASSIGN in MeantStmts(program) && ScanStmts(program, {STRICT_ASSIGN}, {}) == {}
  {
    var pattern := AssignPattern(["arguments"], [Var("arguments")]);
    var e := Pair(Assignment, pattern, Leaf);
    MeantOfOne(e);
    OneExpression(e, {STRICT_ASSIGN});
    assert [Var("arguments")][1..] == [];
    assert STRICT_ASSIGN in MeantExpr(pattern);
    assert ScanExprs([Var("arguments")], {STRICT_ASSIGN}, {}) == {};
    assert ScanExpr(pattern, {STRICT_ASSIGN}, {}) == {};
  }

  lemma MeantOfOne(e: Expr)
    ensures MeantStmts([Expression(e)]) == MeantExpr(e)
  {
    assert [Expression(e)][1..] == [];
    assert MeantStmts([]) == {};
  }
}
