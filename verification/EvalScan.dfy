/** The early-exit scan for constructs forbidden in eval code, against the set of all occurrences. */
module EvalScan {
  import opened Prelude
  import opened Syntax

  /** The bits of a mask. */
  datatype Flag = ARGUMENTS | SUPER_CALL | SUPER_PROP | NEW_TARGET | IMPORT_EXPORT | STRICT_ASSIGN

  type Flags = set<Flag>

  predicate Restricted(e: Expr) {
    e.Var? && (e.name == "arguments" || e.name == "eval")
  }

  function When(b: bool, f: Flag): Flags {
    if b then {f} else {}
  }

  // ----- every occurrence, without mask or early exit -----

  function ExprFlags(e: Expr): Flags {
    match e
    case Var(name) => When(name == "arguments", ARGUMENTS)
    case Leaf | ClassExpr(_) | Template(_) | SuperProperty | NewTarget => OwnFlags(e)
    case SuperCall(_) | SuperMethod(_) | SuperComputedProperty(_) | SuperComputedMethod(_, _) => OwnFlags(e)
    case Arrow(_, body) => StmtsFlags(body)
    case Pair(_, a, b) => When(Restricted(a), STRICT_ASSIGN) + ExprFlags(a) + ExprFlags(b)
    case Update(x) => ExprFlags(x)
    case AssignPattern(_, parts) => ExprsFlags(parts)
    case Compound(parts) => ExprsFlags(parts)
  }

  /** Flags set whatever the mask is. */
  function OwnFlags(e: Expr): Flags {
    match e
    case NewTarget => {NEW_TARGET}
    case SuperCall(_) | SuperMethod(_) => {SUPER_CALL}
    case SuperProperty | SuperComputedProperty(_) => {SUPER_PROP}
    case SuperComputedMethod(_, _) => {SUPER_PROP, SUPER_CALL}
    case _ => {}
  }

  function ExprsFlags(es: seq<Expr>): Flags {
    if es == [] then {} else ExprFlags(es[0]) + ExprsFlags(es[1..])
  }

  function StmtsFlags(ss: seq<Stmt>): Flags {
    if ss == [] then {} else StmtFlags(ss[0]) + StmtsFlags(ss[1..])
  }

  function CasesFlags(cs: seq<Case>): Flags {
    if cs == [] then {} else ExprsFlags(cs[0].test) + StmtsFlags(cs[0].body) + CasesFlags(cs[1..])
  }

  function StmtFlags(s: Stmt): Flags {
    match s
    case Simple(parts) => ExprsFlags(parts)
    case Expression(e) => When(AssignsRestricted(e), STRICT_ASSIGN) + ExprFlags(e)
    case Lexical(_, inits, _) => ExprsFlags(inits)
    case VarDecl(_, inits, _) => ExprsFlags(inits)
    case Assign(name, e) => When(name == "arguments" || name == "eval", STRICT_ASSIGN) + ExprFlags(e)
    case Function(_, _, _) | Class(_, _) => {}
    case Block(body) => StmtsFlags(body)
    case If(test, body, otherwise) => ExprFlags(test) + StmtsFlags(body) + StmtsFlags(otherwise)
    case For(init, tests, update, body) => StmtsFlags(init) + ExprsFlags(tests) + StmtsFlags(update) + StmtsFlags(body)
    case ForHead(_, _, parts, _, body) => ExprsFlags(parts) + StmtsFlags(body)
    case While(test, body) => ExprFlags(test) + StmtsFlags(body)
    case DoWhile(body, test) => StmtsFlags(body) + ExprFlags(test)
    case With(test, body) => ExprFlags(test) + StmtsFlags(body)
    case Switch(subject, cases) => ExprFlags(subject) + CasesFlags(cases)
    case Try(body, _, handler, finalizer) => StmtsFlags(body) + StmtsFlags(handler) + StmtsFlags(finalizer)
    case Label(inner) => StmtFlags(inner)
    case Import | Export(_) => {IMPORT_EXPORT}
  }

  predicate AssignsRestricted(e: Expr) {
    e.Pair? && e.op.Assignment? && Restricted(e.left)
  }

  // ----- the scan: found flags are threaded through, and a mask already covered stops it -----

  function ScanExpr(e: Expr, mask: Flags, found: Flags): Flags
    decreases e
  {
    if mask <= found then found else
    match e
    case Var(name) => found + When(ARGUMENTS in mask && name == "arguments", ARGUMENTS)
    case Leaf | ClassExpr(_) | Template(_) | SuperProperty | NewTarget => found + OwnFlags(e)
    case SuperCall(_) | SuperMethod(_) | SuperComputedProperty(_) | SuperComputedMethod(_, _) => found + OwnFlags(e)
    case Arrow(_, body) => ScanStmts(body, mask, found)
    case Pair(_, a, b) =>
      ScanExpr(b, mask, ScanExpr(a, mask, found + When(STRICT_ASSIGN in mask && Restricted(a), STRICT_ASSIGN)))
    case Update(x) => ScanExpr(x, mask, found)
    case AssignPattern(_, parts) => ScanExprs(parts, mask, found)
    case Compound(parts) => ScanExprs(parts, mask, found)
  }

  function ScanExprs(es: seq<Expr>, mask: Flags, found: Flags): Flags
    decreases es
  {
    if es == [] then found else ScanExprs(es[1..], mask, ScanExpr(es[0], mask, found))
  }

  function ScanStmts(ss: seq<Stmt>, mask: Flags, found: Flags): Flags
    decreases ss
  {
    if ss == [] then found else ScanStmts(ss[1..], mask, ScanStmt(ss[0], mask, found))
  }

  function ScanCases(cs: seq<Case>, mask: Flags, found: Flags): Flags
    decreases cs
  {
    if cs == [] then found else
    ScanCases(cs[1..], mask, ScanStmts(cs[0].body, mask, ScanExprs(cs[0].test, mask, found)))
  }

  function ScanStmt(s: Stmt, mask: Flags, found: Flags): Flags
    decreases s
  {
    if mask <= found then found else
    match s
    case Simple(parts) => ScanExprs(parts, mask, found)
    case Expression(e) => ScanExpr(e, mask, found + When(STRICT_ASSIGN in mask && AssignsRestricted(e), STRICT_ASSIGN))
    case Lexical(_, inits, _) => ScanExprs(inits, mask, found)
    case VarDecl(_, inits, _) => ScanExprs(inits, mask, found)
    case Assign(name, e) =>
      ScanExpr(e, mask, found + When(STRICT_ASSIGN in mask && (name == "arguments" || name == "eval"), STRICT_ASSIGN))
    case Function(_, _, _) | Class(_, _) => found
    case Block(body) => ScanStmts(body, mask, found)
    case If(test, body, otherwise) => ScanStmts(otherwise, mask, ScanStmts(body, mask, ScanExpr(test, mask, found)))
    case For(init, tests, update, body) =>
      ScanStmts(body, mask, ScanStmts(update, mask, ScanExprs(tests, mask, ScanStmts(init, mask, found))))
    case ForHead(_, _, parts, _, body) => ScanStmts(body, mask, ScanExprs(parts, mask, found))
    case While(test, body) => ScanStmts(body, mask, ScanExpr(test, mask, found))
    case DoWhile(body, test) => ScanExpr(test, mask, ScanStmts(body, mask, found))
    case With(test, body) => ScanStmts(body, mask, ScanExpr(test, mask, found))
    case Switch(subject, cases) => ScanCases(cases, mask, ScanExpr(subject, mask, found))
    case Try(body, _, handler, finalizer) => ScanStmts(finalizer, mask, ScanStmts(handler, mask, ScanStmts(body, mask, found)))
    case Label(inner) => ScanStmt(inner, mask, found)
    case Import | Export(_) => found + When(IMPORT_EXPORT in mask, IMPORT_EXPORT)
  }

  // ----- the imperative form -----

  /** The accumulator that the scan updates in place. */
  class Scanner {
    const mask: Flags
    var found: Flags

    constructor (mask: Flags)
      ensures this.mask == mask && found == {}
    {
      this.mask, found := mask, {};
    }

    method Add(b: bool, f: Flag)
      modifies this
      ensures found == old(found) + When(b, f)
    {
      if b { found := found + {f}; }
    }

    method Exprs(es: seq<Expr>)
      modifies this
      ensures found == ScanExprs(es, mask, old(found))
      decreases es
    {
      for i := 0 to |es|
        invariant ScanExprs(es[i..], mask, found) == ScanExprs(es, mask, old(found))
      {
        Expr(es[i]);
        assert es[i..][1..] == es[i + 1..];
      }
    }

    method Stmts(ss: seq<Stmt>)
      modifies this
      ensures found == ScanStmts(ss, mask, old(found))
      decreases ss
    {
      for i := 0 to |ss|
        invariant ScanStmts(ss[i..], mask, found) == ScanStmts(ss, mask, old(found))
      {
        Stmt(ss[i]);
        assert ss[i..][1..] == ss[i + 1..];
      }
    }

    method Cases(cs: seq<Case>)
      modifies this
      ensures found == ScanCases(cs, mask, old(found))
      decreases cs
    {
      for i := 0 to |cs|
        invariant ScanCases(cs[i..], mask, found) == ScanCases(cs, mask, old(found))
      {
        Exprs(cs[i].test);
        Stmts(cs[i].body);
        assert cs[i..][1..] == cs[i + 1..];
      }
    }

    method Expr(e: Expr)
      modifies this
      ensures found == ScanExpr(e, mask, old(found))
      decreases e
    {
      if mask <= found { return; }
      match e {
        case Var(name) => Add(ARGUMENTS in mask && name == "arguments", ARGUMENTS);
        case NewTarget => found := found + {NEW_TARGET};
        case SuperCall(_) | SuperMethod(_) => found := found + {SUPER_CALL};
        case SuperProperty | SuperComputedProperty(_) => found := found + {SUPER_PROP};
        case SuperComputedMethod(_, _) => found := found + {SUPER_PROP, SUPER_CALL};
        case Leaf | ClassExpr(_) | Template(_) =>
        case Arrow(_, body) => Stmts(body);
        case Pair(_, a, b) =>
          Add(STRICT_ASSIGN in mask && Restricted(a), STRICT_ASSIGN);
          Expr(a);
          Expr(b);
        case Update(x) => Expr(x);
        case AssignPattern(_, parts) => Exprs(parts);
        case Compound(parts) => Exprs(parts);
      }
    }

    method Stmt(s: Stmt)
      modifies this
      ensures found == ScanStmt(s, mask, old(found))
      decreases s
    {
      hide ScanExpr, ScanExprs, ScanStmts, ScanCases, When;
      if mask <= found { return; }
      match s {
        case Simple(parts) => Exprs(parts);
        case Expression(e) =>
          Add(STRICT_ASSIGN in mask && AssignsRestricted(e), STRICT_ASSIGN);
          Expr(e);
        case Lexical(_, inits, _) => Exprs(inits);
        case VarDecl(_, inits, _) => Exprs(inits);
        case Assign(name, e) =>
          Add(STRICT_ASSIGN in mask && (name == "arguments" || name == "eval"), STRICT_ASSIGN);
          Expr(e);
        case Function(_, _, _) | Class(_, _) =>
        case Block(body) => Stmts(body);
        case If(test, body, otherwise) =>
          Expr(test);
          Stmts(body);
          Stmts(otherwise);
        case For(init, tests, update, body) =>
          Stmts(init);
          Exprs(tests);
          Stmts(update);
          Stmts(body);
        case ForHead(_, _, parts, _, body) =>
          Exprs(parts);
          Stmts(body);
        case While(test, body) =>
          Expr(test);
          Stmts(body);
        case DoWhile(body, test) =>
          Stmts(body);
          Expr(test);
        case With(test, body) =>
          Expr(test);
          Stmts(body);
        case Switch(subject, cases) =>
          Expr(subject);
          Cases(cases);
        case Try(body, _, handler, finalizer) =>
          Stmts(body);
          Stmts(handler);
          Stmts(finalizer);
        case Label(inner) => Stmt(inner);
        case Import | Export(_) => Add(IMPORT_EXPORT in mask, IMPORT_EXPORT);
      }
    }
  }

  /** The driver: one statement after another, until the mask is covered. */
  method EvalAstScan(statements: seq<Stmt>, mask: Flags) returns (found: Flags)
    ensures found == ScanStmts(statements, mask, {})
  {
    var scanner := new Scanner(mask);
    for i := 0 to |statements|
      invariant ScanStmts(statements[i..], mask, scanner.found) == ScanStmts(statements, mask, {})
    {
      scanner.Stmt(statements[i]);
      assert statements[i..][1..] == statements[i + 1..];
      if mask <= scanner.found {
        Covered(statements[i + 1..], mask, scanner.found);
        return scanner.found;
      }
    }
    return scanner.found;
  }

  lemma {:induction false} Covered(ss: seq<Stmt>, mask: Flags, found: Flags)
    requires mask <= found
    ensures ScanStmts(ss, mask, found) == found
  {
    if ss != [] { Covered(ss[1..], mask, found); }
  }

  // ----- the scan finds exactly the masked occurrences -----

  const UNMASKED: Flags := {SUPER_CALL, SUPER_PROP, NEW_TARGET}

  /** From found to r a scan of something with these occurrences went right: nothing lost, nothing invented, every
      occurrence in the mask found, and beyond the mask only flags that are set without asking it. */
  ghost predicate Honest(found: Flags, r: Flags, all: Flags, mask: Flags) {
    && found <= r <= found + all
    && all * mask <= r
    && r <= found + mask + UNMASKED
  }

  lemma Then(a: Flags, b: Flags, c: Flags, all1: Flags, all2: Flags, mask: Flags)
    requires Honest(a, b, all1, mask) && Honest(b, c, all2, mask)
    ensures Honest(a, c, all1 + all2, mask)
  {
  }

  lemma {:induction false} ExprHonest(e: Expr, mask: Flags, found: Flags)
    ensures Honest(found, ScanExpr(e, mask, found), ExprFlags(e), mask)
    decreases e
  {
    if !(mask <= found) {
      match e
      case Arrow(_, body) => StmtsHonest(body, mask, found);
      case Pair(_, a, b) =>
        var f := found + When(STRICT_ASSIGN in mask && Restricted(a), STRICT_ASSIGN);
        var g := ScanExpr(a, mask, f);
        ExprHonest(a, mask, f);
        ExprHonest(b, mask, g);
        var own := When(Restricted(a), STRICT_ASSIGN);
        Then(found, f, g, own, ExprFlags(a), mask);
        Then(found, g, ScanExpr(b, mask, g), own + ExprFlags(a), ExprFlags(b), mask);
      case Update(x) => ExprHonest(x, mask, found);
      case AssignPattern(_, parts) => ExprsHonest(parts, mask, found);
      case Compound(parts) => ExprsHonest(parts, mask, found);
      case _ =>
    }
  }

  lemma {:induction false} ExprsHonest(es: seq<Expr>, mask: Flags, found: Flags)
    ensures Honest(found, ScanExprs(es, mask, found), ExprsFlags(es), mask)
    decreases es
  {
    if es != [] {
      var f := ScanExpr(es[0], mask, found);
      ExprHonest(es[0], mask, found);
      ExprsHonest(es[1..], mask, f);
      Then(found, f, ScanExprs(es[1..], mask, f), ExprFlags(es[0]), ExprsFlags(es[1..]), mask);
    }
  }

  lemma {:induction false} StmtsHonest(ss: seq<Stmt>, mask: Flags, found: Flags)
    ensures Honest(found, ScanStmts(ss, mask, found), StmtsFlags(ss), mask)
    decreases ss
  {
    if ss != [] {
      var f := ScanStmt(ss[0], mask, found);
      StmtHonest(ss[0], mask, found);
      StmtsHonest(ss[1..], mask, f);
      Then(found, f, ScanStmts(ss[1..], mask, f), StmtFlags(ss[0]), StmtsFlags(ss[1..]), mask);
    }
  }

  lemma {:induction false} CasesHonest(cs: seq<Case>, mask: Flags, found: Flags)
    ensures Honest(found, ScanCases(cs, mask, found), CasesFlags(cs), mask)
    decreases cs
  {
    if cs != [] {
      var f := ScanExprs(cs[0].test, mask, found);
      var g := ScanStmts(cs[0].body, mask, f);
      ExprsHonest(cs[0].test, mask, found);
      StmtsHonest(cs[0].body, mask, f);
      CasesHonest(cs[1..], mask, g);
      Then(found, f, g, ExprsFlags(cs[0].test), StmtsFlags(cs[0].body), mask);
      Then(found, g, ScanCases(cs[1..], mask, g), ExprsFlags(cs[0].test) + StmtsFlags(cs[0].body), CasesFlags(cs[1..]), mask);
    }
  }

  lemma {:induction false} StmtHonest(s: Stmt, mask: Flags, found: Flags)
    ensures Honest(found, ScanStmt(s, mask, found), StmtFlags(s), mask)
    decreases s
  {
    if !(mask <= found) {
      match s
      case Simple(parts) => ExprsHonest(parts, mask, found);
      case Expression(e) =>
        var f := found + When(STRICT_ASSIGN in mask && AssignsRestricted(e), STRICT_ASSIGN);
        ExprHonest(e, mask, f);
        Then(found, f, ScanExpr(e, mask, f), When(AssignsRestricted(e), STRICT_ASSIGN), ExprFlags(e), mask);
      case Lexical(_, inits, _) => ExprsHonest(inits, mask, found);
      case VarDecl(_, inits, _) => ExprsHonest(inits, mask, found);
      case Assign(name, e) =>
        var b := name == "arguments" || name == "eval";
        var f := found + When(STRICT_ASSIGN in mask && b, STRICT_ASSIGN);
        ExprHonest(e, mask, f);
        Then(found, f, ScanExpr(e, mask, f), When(b, STRICT_ASSIGN), ExprFlags(e), mask);
      case Block(body) => StmtsHonest(body, mask, found);
      case If(test, body, otherwise) =>
        var f := ScanExpr(test, mask, found);
        var g := ScanStmts(body, mask, f);
        ExprHonest(test, mask, found);
        StmtsHonest(body, mask, f);
        Then(found, f, g, ExprFlags(test), StmtsFlags(body), mask);
        StmtsHonest(otherwise, mask, g);
        Then(found, g, ScanStmts(otherwise, mask, g), ExprFlags(test) + StmtsFlags(body), StmtsFlags(otherwise), mask);
      case For(init, tests, update, body) =>
        var f := ScanStmts(init, mask, found);
        var g := ScanExprs(tests, mask, f);
        var h := ScanStmts(update, mask, g);
        StmtsHonest(init, mask, found);
        ExprsHonest(tests, mask, f);
        StmtsHonest(update, mask, g);
        StmtsHonest(body, mask, h);
        Then(found, f, g, StmtsFlags(init), ExprsFlags(tests), mask);
        Then(found, g, h, StmtsFlags(init) + ExprsFlags(tests), StmtsFlags(update), mask);
        Then(found, h, ScanStmts(body, mask, h), StmtsFlags(init) + ExprsFlags(tests) + StmtsFlags(update), StmtsFlags(body), mask);
      case ForHead(_, _, parts, _, body) =>
        var f := ScanExprs(parts, mask, found);
        ExprsHonest(parts, mask, found);
        StmtsHonest(body, mask, f);
        Then(found, f, ScanStmts(body, mask, f), ExprsFlags(parts), StmtsFlags(body), mask);
      case While(test, body) =>
        var f := ScanExpr(test, mask, found);
        ExprHonest(test, mask, found);
        StmtsHonest(body, mask, f);
        Then(found, f, ScanStmts(body, mask, f), ExprFlags(test), StmtsFlags(body), mask);
      case DoWhile(body, test) =>
        var f := ScanStmts(body, mask, found);
        StmtsHonest(body, mask, found);
        ExprHonest(test, mask, f);
        Then(found, f, ScanExpr(test, mask, f), StmtsFlags(body), ExprFlags(test), mask);
      case With(test, body) =>
        var f := ScanExpr(test, mask, found);
        ExprHonest(test, mask, found);
        StmtsHonest(body, mask, f);
        Then(found, f, ScanStmts(body, mask, f), ExprFlags(test), StmtsFlags(body), mask);
      case Switch(subject, cases) =>
        var f := ScanExpr(subject, mask, found);
        ExprHonest(subject, mask, found);
        CasesHonest(cases, mask, f);
        Then(found, f, ScanCases(cases, mask, f), ExprFlags(subject), CasesFlags(cases), mask);
      case Try(body, _, handler, finalizer) =>
        var f := ScanStmts(body, mask, found);
        var g := ScanStmts(handler, mask, f);
        StmtsHonest(body, mask, found);
        StmtsHonest(handler, mask, f);
        StmtsHonest(finalizer, mask, g);
        Then(found, f, g, StmtsFlags(body), StmtsFlags(handler), mask);
        Then(found, g, ScanStmts(finalizer, mask, g), StmtsFlags(body) + StmtsFlags(handler), StmtsFlags(finalizer), mask);
      case Label(inner) => StmtHonest(inner, mask, found);
      case _ =>
    }
  }

  // ----- what callers may rely on -----

  /** The flags of the mask that come back are exactly those that occur: early exits lose nothing in the mask. */
  lemma ScanFindsMaskedOccurrences(ss: seq<Stmt>, mask: Flags)
    ensures ScanStmts(ss, mask, {}) * mask == StmtsFlags(ss) * mask
  {
    StmtsHonest(ss, mask, {});
  }

  /** Only flags of the mask come back, for every program, exactly when the mask is empty or holds the three flags
      that are set without consulting it. */
  lemma SubsetOfMaskIff(mask: Flags)
    ensures (forall ss :: ScanStmts(ss, mask, {}) <= mask) <==> mask == {} || UNMASKED <= mask
  {
    forall ss | mask == {} || UNMASKED <= mask ensures ScanStmts(ss, mask, {}) <= mask {
      if mask == {} { Covered(ss, mask, {}); } else { StmtsHonest(ss, mask, {}); }
    }
    if mask != {} && !(UNMASKED <= mask) {
      var e := if SUPER_CALL !in mask then SuperCall([]) else if SUPER_PROP !in mask then SuperProperty else NewTarget;
      OneExpression(e, mask);
      assert !(ScanStmts([Expression(e)], mask, {}) <= mask);
    }
  }

  lemma OneExpression(e: Expr, mask: Flags)
    requires mask != {} && !AssignsRestricted(e)
    ensures ScanStmts([Expression(e)], mask, {}) == ScanExpr(e, mask, {})
  {
    assert [Expression(e)][1..] == [];
    var none: Flags := {};
    assert none + When(false, STRICT_ASSIGN) == none;
  }
}
