/** The verdict on declared names does not depend on the order of statements. */
module EarlyErrorLaws {
  import opened Prelude
  import opened Syntax
  import opened StaticSemantics

  // ----- checks and names as bags -----

  lemma PassBoth(cs: seq<Check>, ds: seq<Check>)
    ensures AllPass(cs + ds) <==> AllPass(cs) && AllPass(ds)
  {
    if AllPass(cs + ds) {
      assert forall i :: 0 <= i < |cs| ==> cs[i] == (cs + ds)[i];
      assert forall i :: 0 <= i < |ds| ==> ds[i] == (cs + ds)[|cs| + i];
    }
  }

  lemma PassNone()
    ensures AllPass([])
  {
  }

  lemma PlainSubStatement(s: Stmt)
    ensures Passes(SubStatement(s)) <==> !s.Function?
  {
  }

  lemma PassOne(c: Check)
    ensures AllPass([c]) <==> Passes(c)
  {
    assert [c][0] == c;
  }

  lemma DistinctIsBag(ns: seq<Name>)
    ensures Distinct(ns) <==> forall n :: multiset(ns)[n] <= 1
  {
    if Distinct(ns) {
      forall n ensures multiset(ns)[n] <= 1 { DistinctCounts(ns, n); }
    } else {
      var i, j :| 0 <= i < j < |ns| && ns[i] == ns[j];
      assert ns == ns[..i] + [ns[i]] + ns[i + 1..j] + [ns[j]] + ns[j + 1..];
      assert multiset(ns)[ns[i]] >= 2;
    }
  }

  lemma {:induction false} DistinctCounts(ns: seq<Name>, n: Name)
    requires Distinct(ns)
    ensures multiset(ns)[n] <= 1
  {
    if ns != [] {
      var last := |ns| - 1;
      assert ns == ns[..last] + [ns[last]];
      DistinctCounts(ns[..last], n);
      assert ns[last] !in ns[..last];
    }
  }

  /** A name check sees only which names there are, and how often. */
  lemma NamesAsBags(c: Check, d: Check)
    requires c.Names? && d.Names?
    requires multiset(c.lexical) == multiset(d.lexical) && multiset(c.vars) == multiset(d.vars) && c.params == d.params
    ensures Passes(c) <==> Passes(d)
  {
    DistinctIsBag(c.lexical);
    DistinctIsBag(d.lexical);
    SameMembers(c.lexical, d.lexical);
    SameMembers(c.vars, d.vars);
    DisjointByMembers(c.vars, c.lexical);
    DisjointByMembers(d.vars, d.lexical);
    DisjointByMembers(c.params, c.lexical);
    DisjointByMembers(d.params, d.lexical);
  }

  lemma SameMembers(ns: seq<Name>, ms: seq<Name>)
    requires multiset(ns) == multiset(ms)
    ensures forall n :: n in ns <==> n in ms
  {
    assert forall n :: n in ns <==> n in multiset(ns);
    assert forall n :: n in ms <==> n in multiset(ms);
  }

  lemma DisjointByMembers(ns: seq<Name>, ms: seq<Name>)
    ensures Disjoint(ns, ms) <==> forall n :: n in ns ==> n !in ms
  {
  }

  ghost function LexicalBag(k: ListKind): Stmt -> multiset<Name> {
    s => multiset(LexicalNames(s, k))
  }

  ghost function VarBag(k: ListKind): Stmt -> multiset<Name> {
    s => multiset(VarNames(s, k))
  }

  ghost function Bag(f: Stmt -> multiset<Name>, ss: seq<Stmt>): multiset<Name> {
    if ss == [] then multiset{} else f(ss[0]) + Bag(f, ss[1..])
  }

  lemma {:induction false} NamesAreBags(ss: seq<Stmt>, k: ListKind)
    ensures multiset(AllLexicalNames(ss, k)) == Bag(LexicalBag(k), ss)
    ensures multiset(AllVarNames(ss, k)) == Bag(VarBag(k), ss)
  {
    if ss != [] { NamesAreBags(ss[1..], k); }
  }

  lemma {:induction false} BagConcat(f: Stmt -> multiset<Name>, xs: seq<Stmt>, ys: seq<Stmt>)
    ensures Bag(f, xs + ys) == Bag(f, xs) + Bag(f, ys)
    decreases |xs|
  {
    if xs == [] {
      assert xs + ys == ys;
    } else {
      assert (xs + ys)[1..] == xs[1..] + ys;
      BagConcat(f, xs[1..], ys);
    }
  }

  lemma {:induction false} BagPermutes(f: Stmt -> multiset<Name>, xs: seq<Stmt>, ys: seq<Stmt>)
    requires multiset(xs) == multiset(ys)
    ensures Bag(f, xs) == Bag(f, ys)
    decreases |xs|
  {
    if xs == [] {
      assert |multiset(ys)| == 0;
    } else {
      var x := xs[0];
      assert x in multiset(ys);
      var j :| 0 <= j < |ys| && ys[j] == x;
      var rest := ys[..j] + ys[j + 1..];
      RemoveOne(xs, ys, j);
      assert xs == [x] + xs[1..];
      assert ys == ys[..j] + ([x] + ys[j + 1..]);
      BagPermutes(f, xs[1..], rest);
      BagConcat(f, ys[..j], ys[j + 1..]);
      BagConcat(f, ys[..j], [x] + ys[j + 1..]);
      BagOfCons(f, x, ys[j + 1..]);
      BagOfCons(f, x, xs[1..]);
    }
  }

  lemma RemoveOne(xs: seq<Stmt>, ys: seq<Stmt>, j: nat)
    requires xs != [] && j < |ys| && ys[j] == xs[0] && multiset(xs) == multiset(ys)
    ensures multiset(xs[1..]) == multiset(ys[..j] + ys[j + 1..])
  {
    assert xs == [xs[0]] + xs[1..];
    assert ys == ys[..j] + [xs[0]] + ys[j + 1..];
    assert multiset(xs) == multiset{xs[0]} + multiset(xs[1..]);
    assert multiset(ys) == multiset(ys[..j]) + multiset{xs[0]} + multiset(ys[j + 1..]);
    assert multiset(xs[1..]) == multiset(xs) - multiset{xs[0]};
    assert multiset(ys[..j] + ys[j + 1..]) == multiset(ys) - multiset{xs[0]};
  }

  lemma BagOfCons(f: Stmt -> multiset<Name>, x: Stmt, xs: seq<Stmt>)
    ensures Bag(f, [x] + xs) == f(x) + Bag(f, xs)
  {
    assert ([x] + xs)[1..] == xs;
  }

  // ----- programs that differ in the order of statements -----

  /** The same statement up to the order of statements in every list inside it. */
  ghost predicate Reordered(s: Stmt, t: Stmt)
    decreases s
  {
    match s
    case Function(name, params, body) => t.Function? && t.name == name && t.params == params && ReorderedLists(body, t.body)
    case Block(body) => t.Block? && ReorderedLists(body, t.body)
    case If(_, body, otherwise) => t.If? && ReorderedLists(body, t.body) && ReorderedLists(otherwise, t.otherwise)
    case For(init, _, update, body) =>
      t.For? && ReorderedLists(init, t.init) && ReorderedLists(update, t.update) && ReorderedLists(body, t.body)
    case ForHead(_, _, _, _, body) => t.ForHead? && ReorderedLists(body, t.body)
    case While(_, body) => t.While? && ReorderedLists(body, t.body)
    case DoWhile(body, _) => t.DoWhile? && ReorderedLists(body, t.body)
    case With(_, body) => t.With? && ReorderedLists(body, t.body)
    case Switch(_, cases) => t.Switch? && ReorderedCases(cases, t.cases)
    case Try(body, param, handler, finalizer) =>
      t.Try? && t.param == param && ReorderedLists(body, t.body) && ReorderedLists(handler, t.handler)
      && ReorderedLists(finalizer, t.finalizer)
    case Label(inner) => t.Label? && Reordered(inner, t.inner)
    case Export(Some(inner)) => t.Export? && t.declaration.Some? && Reordered(inner, t.declaration.value)
    case _ => t == s
  }

  /** Reorder inside the statements of a list, then the list itself. */
  ghost predicate ReorderedLists(xs: seq<Stmt>, ys: seq<Stmt>)
    decreases xs
  {
    exists zs :: Pointwise(xs, zs) && multiset(zs) == multiset(ys)
  }

  ghost predicate Pointwise(xs: seq<Stmt>, zs: seq<Stmt>)
    decreases xs, 0
  {
    |xs| == |zs| && forall i :: 0 <= i < |xs| ==> Reordered(xs[i], zs[i])
  }

  ghost predicate ReorderedCases(cs: seq<Case>, ds: seq<Case>)
    decreases cs
  {
    |cs| == |ds| && forall i :: 0 <= i < |cs| ==> ReorderedLists(cs[i].body, ds[i].body)
  }

  /** Nothing the passes look at tells these statements apart. */
  ghost predicate Alike(s: Stmt, t: Stmt) {
    && (forall k :: multiset(LexicalNames(s, k)) == multiset(LexicalNames(t, k)))
    && (forall k :: multiset(VarNames(s, k)) == multiset(VarNames(t, k)))
    && (AllPass(Checks(s)) <==> AllPass(Checks(t)))
    && (s.Function? <==> t.Function?)
  }

  ghost predicate ListsAlike(xs: seq<Stmt>, ys: seq<Stmt>) {
    && (forall k :: multiset(AllLexicalNames(xs, k)) == multiset(AllLexicalNames(ys, k)))
    && (forall k :: multiset(AllVarNames(xs, k)) == multiset(AllVarNames(ys, k)))
    && (AllPass(AllChecks(xs)) <==> AllPass(AllChecks(ys)))
    && (AllPass(SubChecks(xs)) <==> AllPass(SubChecks(ys)))
  }

  lemma {:induction false} ChecksOfEach(ss: seq<Stmt>)
    ensures AllPass(AllChecks(ss)) <==> forall s :: s in ss ==> AllPass(Checks(s))
    ensures AllPass(SubChecks(ss)) <==> forall s :: s in ss ==> !s.Function? && AllPass(Checks(s))
  {
    hide Checks, Passes, AllPass;
    PassNone();
    if ss != [] {
      ChecksOfEach(ss[1..]);
      assert forall s :: s in ss <==> s == ss[0] || s in ss[1..];
      ChecksSplit(ss);
    }
  }

  lemma PermutedAlike(xs: seq<Stmt>, ys: seq<Stmt>)
    requires multiset(xs) == multiset(ys)
    ensures ListsAlike(xs, ys)
  {
    forall k ensures multiset(AllLexicalNames(xs, k)) == multiset(AllLexicalNames(ys, k)) && multiset(AllVarNames(xs, k)) == multiset(AllVarNames(ys, k)) {
      NamesAreBags(xs, k);
      NamesAreBags(ys, k);
      BagPermutes(LexicalBag(k), xs, ys);
      BagPermutes(VarBag(k), xs, ys);
    }
    ChecksOfEach(xs);
    ChecksOfEach(ys);
    assert forall s :: s in xs <==> s in multiset(xs);
    assert forall s :: s in ys <==> s in multiset(ys);
  }

  lemma {:induction false} PointwiseAlike(xs: seq<Stmt>, zs: seq<Stmt>)
    requires |xs| == |zs| && forall i :: 0 <= i < |xs| ==> Alike(xs[i], zs[i])
    ensures ListsAlike(xs, zs)
  {
    hide Alike, Checks, AllPass, LexicalBag, VarBag;
    forall k ensures multiset(AllLexicalNames(xs, k)) == multiset(AllLexicalNames(zs, k)) && multiset(AllVarNames(xs, k)) == multiset(AllVarNames(zs, k)) {
      NamesAreBags(xs, k);
      NamesAreBags(zs, k);
      BagsAlike(xs, zs, k);
    }
    ChecksPointwise(xs, zs);
  }

  lemma {:induction false} ChecksPointwise(xs: seq<Stmt>, zs: seq<Stmt>)
    requires |xs| == |zs| && forall i :: 0 <= i < |xs| ==> Alike(xs[i], zs[i])
    ensures AllPass(AllChecks(xs)) <==> AllPass(AllChecks(zs))
    ensures AllPass(SubChecks(xs)) <==> AllPass(SubChecks(zs))
  {
    hide Alike, Checks, AllPass, Passes;
    if xs != [] {
      ChecksPointwise(xs[1..], zs[1..]);
      AlikeChecks(xs[0], zs[0]);
      ChecksSplit(xs);
      ChecksSplit(zs);
    }
  }

  lemma ChecksSplit(ss: seq<Stmt>)
    requires ss != []
    ensures AllPass(AllChecks(ss)) <==> AllPass(Checks(ss[0])) && AllPass(AllChecks(ss[1..]))
    ensures AllPass(SubChecks(ss)) <==> !ss[0].Function? && AllPass(Checks(ss[0])) && AllPass(SubChecks(ss[1..]))
  {
    hide Checks, Passes, AllPass;
    PassBoth(Checks(ss[0]), AllChecks(ss[1..]));
    PassOne(SubStatement(ss[0]));
    PlainSubStatement(ss[0]);
    PassBoth([SubStatement(ss[0])], Checks(ss[0]));
    PassBoth([SubStatement(ss[0])] + Checks(ss[0]), SubChecks(ss[1..]));
  }

  lemma AlikeChecks(s: Stmt, t: Stmt)
    requires Alike(s, t)
    ensures AllPass(Checks(s)) <==> AllPass(Checks(t))
    ensures s.Function? <==> t.Function?
  {
  }

  lemma {:induction false} BagsAlike(xs: seq<Stmt>, zs: seq<Stmt>, k: ListKind)
    requires |xs| == |zs| && forall i :: 0 <= i < |xs| ==> Alike(xs[i], zs[i])
    ensures Bag(LexicalBag(k), xs) == Bag(LexicalBag(k), zs)
    ensures Bag(VarBag(k), xs) == Bag(VarBag(k), zs)
  {
    if xs != [] {
      assert Alike(xs[0], zs[0]);
      BagsAlike(xs[1..], zs[1..], k);
    }
  }

  /** A list whose contents look alike passes or fails as a whole alike. */
  lemma ListChecksAlike(xs: seq<Stmt>, ys: seq<Stmt>, k: ListKind)
    requires ListsAlike(xs, ys)
    ensures AllPass(ListChecks(xs, k)) <==> AllPass(ListChecks(ys, k))
  {
    hide AllPass, Passes;
    var c, d := Names(AllLexicalNames(xs, k), AllVarNames(xs, k), []), Names(AllLexicalNames(ys, k), AllVarNames(ys, k), []);
    NamesAsBags(c, d);
    PassOne(c);
    PassOne(d);
    PassBoth([c], AllChecks(xs));
    PassBoth([d], AllChecks(ys));
  }

  lemma ParamsAlike(xs: seq<Stmt>, ys: seq<Stmt>, k: ListKind, params: seq<Name>)
    requires ListsAlike(xs, ys)
    ensures Passes(Names(AllLexicalNames(xs, k), [], params)) <==> Passes(Names(AllLexicalNames(ys, k), [], params))
  {
    NamesAsBags(Names(AllLexicalNames(xs, k), [], params), Names(AllLexicalNames(ys, k), [], params));
  }

  lemma AlikeThrough(xs: seq<Stmt>, zs: seq<Stmt>, ys: seq<Stmt>)
    requires ListsAlike(xs, zs) && ListsAlike(zs, ys)
    ensures ListsAlike(xs, ys)
  {
  }

  /** Both bags of names and the verdict of a statement with two or three lists inside are unions of theirs. */
  lemma TwoBags(a: seq<Name>, b: seq<Name>, c: seq<Name>, d: seq<Name>)
    requires multiset(a) == multiset(c) && multiset(b) == multiset(d)
    ensures multiset(a + b) == multiset(c + d)
  {
  }

  lemma {:induction false} ReorderedListsAlike(xs: seq<Stmt>, ys: seq<Stmt>)
    requires ReorderedLists(xs, ys)
    ensures ListsAlike(xs, ys)
    decreases xs, 1
  {
    hide Reordered, Alike, ListsAlike;
    var zs :| Pointwise(xs, zs) && multiset(zs) == multiset(ys);
    forall i | 0 <= i < |xs| ensures Alike(xs[i], zs[i]) { ReorderedAlike(xs[i], zs[i]); }
    PointwiseAlike(xs, zs);
    PermutedAlike(zs, ys);
    AlikeThrough(xs, zs, ys);
  }

  lemma {:induction false} ReorderedAlike(s: Stmt, t: Stmt)
    requires Reordered(s, t)
    ensures Alike(s, t)
    decreases s, 1
  {
    hide ReorderedLists, ReorderedCases, ListsAlike, CasesAlike, Alike, Checks, LexicalNames, VarNames, AllPass;
    match s
    case Function(_, params, body) =>
      ReorderedListsAlike(body, t.body);
      FunctionAlike(s, t);
    case Block(body) =>
      ReorderedListsAlike(body, t.body);
      BlockAlike(s, t);
    case If(_, body, otherwise) =>
      ReorderedListsAlike(body, t.body);
      ReorderedListsAlike(otherwise, t.otherwise);
      IfAlike(s, t);
    case For(init, _, update, body) =>
      ReorderedListsAlike(init, t.init);
      ReorderedListsAlike(update, t.update);
      ReorderedListsAlike(body, t.body);
      ForAlike(s, t);
    case ForHead(_, _, _, _, body) =>
      ReorderedListsAlike(body, t.body);
      LoopAlike(s, t);
    case While(_, body) =>
      ReorderedListsAlike(body, t.body);
      LoopAlike(s, t);
    case DoWhile(body, _) =>
      ReorderedListsAlike(body, t.body);
      LoopAlike(s, t);
    case With(_, body) =>
      ReorderedListsAlike(body, t.body);
      LoopAlike(s, t);
    case Switch(_, cases) =>
      ReorderedCasesAlike(cases, t.cases);
      SwitchAlike(s, t);
    case Try(body, _, handler, finalizer) =>
      ReorderedListsAlike(body, t.body);
      ReorderedListsAlike(handler, t.handler);
      ReorderedListsAlike(finalizer, t.finalizer);
      TryAlike(s, t);
    case Label(inner) =>
      ReorderedAlike(inner, t.inner);
      LabelAlike(s, t);
    case Export(Some(inner)) =>
      ReorderedAlike(inner, t.declaration.value);
      ExportAlike(s, t);
    case _ => SelfAlike(s);
  }

  lemma SelfAlike(s: Stmt)
    ensures Alike(s, s)
  {
  }

  lemma BlockParts(s: Stmt)
    requires s.Block?
    ensures Checks(s) == ListChecks(s.body, BlockList)
    ensures forall k :: LexicalNames(s, k) == [] && VarNames(s, k) == AllVarNames(s.body, BlockList)
  {
  }

  lemma BlockAlike(s: Stmt, t: Stmt)
    requires s.Block? && t.Block? && ListsAlike(s.body, t.body)
    ensures Alike(s, t)
  {
    hide Checks, LexicalNames, VarNames, AllPass, Passes, AllLexicalNames, AllVarNames;
    BlockParts(s);
    BlockParts(t);
    ListChecksAlike(s.body, t.body, BlockList);
  }

  lemma FunctionAlike(s: Stmt, t: Stmt)
    requires s.Function? && t.Function? && s.name == t.name && s.params == t.params && ListsAlike(s.body, t.body)
    ensures Alike(s, t)
  {
    hide AllPass, Passes;
    var k := ScriptOrFunction;
    ListChecksAlike(s.body, t.body, k);
    ParamsAlike(s.body, t.body, k, s.params);
    FunctionChecksSplit(s);
    FunctionChecksSplit(t);
  }

  lemma FunctionChecksSplit(s: Stmt)
    requires s.Function?
    ensures AllPass(Checks(s)) <==>
      && Passes(Names([], [], s.params)) && Passes(Names(AllLexicalNames(s.body, ScriptOrFunction), [], s.params))
      && Passes(FunctionName(s.name)) && AllPass(ListChecks(s.body, ScriptOrFunction))
  {
    hide Passes, AllPass;
    var a, b, c := Names([], [], s.params), Names(AllLexicalNames(s.body, ScriptOrFunction), [], s.params), FunctionName(s.name);
    PassOne(a);
    PassOne(b);
    PassOne(c);
    PassBoth([a], [b]);
    PassBoth([a, b], [c]);
    assert [a] + [b] == [a, b] && [a, b] + [c] == [a, b, c];
    PassBoth([a, b, c], ListChecks(s.body, ScriptOrFunction));
  }

  lemma IfParts(s: Stmt)
    requires s.If?
    ensures Checks(s) == SubChecks(s.body) + SubChecks(s.otherwise)
    ensures forall k :: LexicalNames(s, k) == []
    ensures forall k :: VarNames(s, k) == AllVarNames(s.body, k) + AllVarNames(s.otherwise, k)
  {
  }

  lemma IfAlike(s: Stmt, t: Stmt)
    requires s.If? && t.If? && ListsAlike(s.body, t.body) && ListsAlike(s.otherwise, t.otherwise)
    ensures Alike(s, t)
  {
    hide Checks, LexicalNames, VarNames, AllPass, Passes, AllLexicalNames, AllVarNames;
    IfParts(s);
    IfParts(t);
    PassBoth(SubChecks(s.body), SubChecks(s.otherwise));
    PassBoth(SubChecks(t.body), SubChecks(t.otherwise));
    forall k ensures multiset(VarNames(s, k)) == multiset(VarNames(t, k)) {
      TwoBags(AllVarNames(s.body, k), AllVarNames(s.otherwise, k), AllVarNames(t.body, k), AllVarNames(t.otherwise, k));
    }
  }

  lemma ForParts(s: Stmt)
    requires s.For?
    ensures Checks(s) == AllChecks(s.init) + AllChecks(s.update) + SubChecks(s.body)
    ensures forall k :: LexicalNames(s, k) == []
    ensures forall k :: VarNames(s, k) == AllVarNames(s.init, k) + AllVarNames(s.body, k)
  {
  }

  lemma ForAlike(s: Stmt, t: Stmt)
    requires s.For? && t.For? && ListsAlike(s.init, t.init) && ListsAlike(s.update, t.update) && ListsAlike(s.body, t.body)
    ensures Alike(s, t)
  {
    hide Checks, LexicalNames, VarNames, AllPass, Passes, AllLexicalNames, AllVarNames;
    ForParts(s);
    ForParts(t);
    PassBoth(AllChecks(s.init), AllChecks(s.update));
    PassBoth(AllChecks(s.init) + AllChecks(s.update), SubChecks(s.body));
    PassBoth(AllChecks(t.init), AllChecks(t.update));
    PassBoth(AllChecks(t.init) + AllChecks(t.update), SubChecks(t.body));
    forall k ensures multiset(VarNames(s, k)) == multiset(VarNames(t, k)) {
      TwoBags(AllVarNames(s.init, k), AllVarNames(s.body, k), AllVarNames(t.init, k), AllVarNames(t.body, k));
    }
  }

  predicate IsLoop(s: Stmt) { s.ForHead? || s.While? || s.DoWhile? || s.With? }

  lemma LoopParts(s: Stmt)
    requires IsLoop(s)
    ensures Checks(s) == SubChecks(s.body)
    ensures forall k :: LexicalNames(s, k) == [] && VarNames(s, k) == AllVarNames(s.body, k)
  {
  }

  lemma LoopAlike(s: Stmt, t: Stmt)
    requires IsLoop(s) && IsLoop(t) && ListsAlike(s.body, t.body)
    ensures Alike(s, t)
  {
    hide Checks, LexicalNames, VarNames, AllPass, Passes, AllLexicalNames, AllVarNames;
    LoopParts(s);
    LoopParts(t);
  }

  lemma LabelParts(s: Stmt)
    requires s.Label?
    ensures Checks(s) == [SubStatement(s.inner)] + Checks(s.inner)
    ensures forall k :: LexicalNames(s, k) == [] && VarNames(s, k) == VarNames(s.inner, k)
  {
  }

  lemma LabelAlike(s: Stmt, t: Stmt)
    requires s.Label? && t.Label? && Alike(s.inner, t.inner)
    ensures Alike(s, t)
  {
    hide Checks, LexicalNames, VarNames, AllPass, Passes, AllLexicalNames, AllVarNames;
    LabelParts(s);
    LabelParts(t);
    PlainSubStatement(s.inner);
    PlainSubStatement(t.inner);
    PassOne(SubStatement(s.inner));
    PassOne(SubStatement(t.inner));
    PassBoth([SubStatement(s.inner)], Checks(s.inner));
    PassBoth([SubStatement(t.inner)], Checks(t.inner));
  }

  lemma ExportParts(s: Stmt)
    requires s.Export? && s.declaration.Some?
    ensures Checks(s) == Checks(s.declaration.value)
    ensures forall k :: LexicalNames(s, k) == LexicalNames(s.declaration.value, k)
    ensures forall k :: VarNames(s, k) == VarNames(s.declaration.value, k)
  {
  }

  lemma ExportAlike(s: Stmt, t: Stmt)
    requires s.Export? && t.Export? && s.declaration.Some? && t.declaration.Some?
    requires Alike(s.declaration.value, t.declaration.value)
    ensures Alike(s, t)
  {
    hide Checks, LexicalNames, VarNames, AllPass, Passes, AllLexicalNames, AllVarNames;
    ExportParts(s);
    ExportParts(t);
  }

  lemma TryNames(s: Stmt)
    requires s.Try?
    ensures forall k :: LexicalNames(s, k) == []
    ensures forall k :: VarNames(s, k) == (AllVarNames(s.body, BlockList) + AllVarNames(s.handler, BlockList) + AllVarNames(s.finalizer, BlockList))
  {
  }

  lemma TryAlike(s: Stmt, t: Stmt)
    requires s.Try? && t.Try? && s.param == t.param
    requires ListsAlike(s.body, t.body) && ListsAlike(s.handler, t.handler) && ListsAlike(s.finalizer, t.finalizer)
    ensures Alike(s, t)
  {
    hide Checks, LexicalNames, VarNames, AllPass, Passes, AllLexicalNames, AllVarNames;
    var k := BlockList;
    ListChecksAlike(s.body, t.body, k);
    ListChecksAlike(s.handler, t.handler, k);
    ListChecksAlike(s.finalizer, t.finalizer, k);
    if s.param.Some? { ParamsAlike(s.handler, t.handler, k, BoundNames(s.param.value)); }
    TryChecksSplit(s);
    TryChecksSplit(t);
    TryNames(s);
    TryNames(t);
    TwoBags(AllVarNames(s.body, k), AllVarNames(s.handler, k), AllVarNames(t.body, k), AllVarNames(t.handler, k));
    TwoBags(AllVarNames(s.body, k) + AllVarNames(s.handler, k), AllVarNames(s.finalizer, k),
            AllVarNames(t.body, k) + AllVarNames(t.handler, k), AllVarNames(t.finalizer, k));
  }

  lemma TryChecksSplit(s: Stmt)
    requires s.Try?
    ensures AllPass(Checks(s)) <==>
      && AllPass(ListChecks(s.body, BlockList)) && AllPass(ListChecks(s.handler, BlockList)) && AllPass(ListChecks(s.finalizer, BlockList))
      && (s.param.Some? ==>
            Passes(Names([], [], BoundNames(s.param.value))) && Passes(Names(AllLexicalNames(s.handler, BlockList), [], BoundNames(s.param.value))))
  {
    hide Passes, AllPass;
    var a, p, b, c := ListChecks(s.body, BlockList), ParamChecks(s.param, s.handler), ListChecks(s.handler, BlockList), ListChecks(s.finalizer, BlockList);
    PassBoth(a, p);
    PassBoth(a + p, b);
    PassBoth(a + p + b, c);
    PassNone();
    if s.param.Some? {
      var x, y := Names([], [], BoundNames(s.param.value)), Names(AllLexicalNames(s.handler, BlockList), [], BoundNames(s.param.value));
      PassOne(x);
      PassOne(y);
      PassBoth([x], [y]);
      assert p == [x] + [y];
    }
  }

  ghost predicate CasesAlike(cs: seq<Case>, ds: seq<Case>) {
    && multiset(CaseLexicalNames(cs)) == multiset(CaseLexicalNames(ds))
    && multiset(CaseVarNames(cs)) == multiset(CaseVarNames(ds))
    && (AllPass(CaseChecks(cs)) <==> AllPass(CaseChecks(ds)))
  }

  lemma {:induction false} ReorderedCasesAlike(cs: seq<Case>, ds: seq<Case>)
    requires ReorderedCases(cs, ds)
    ensures CasesAlike(cs, ds)
    decreases cs
  {
    hide ReorderedLists, AllPass;
    if cs != [] {
      var xs, ys, k := cs[0].body, ds[0].body, BlockList;
      ReorderedListsAlike(xs, ys);
      ReorderedCasesAlike(cs[1..], ds[1..]);
      ListChecksAlike(xs, ys, k);
      PassBoth(ListChecks(xs, k), CaseChecks(cs[1..]));
      PassBoth(ListChecks(ys, k), CaseChecks(ds[1..]));
      TwoBags(AllLexicalNames(xs, k), CaseLexicalNames(cs[1..]), AllLexicalNames(ys, k), CaseLexicalNames(ds[1..]));
      TwoBags(AllVarNames(xs, k), CaseVarNames(cs[1..]), AllVarNames(ys, k), CaseVarNames(ds[1..]));
    }
  }

  lemma SwitchParts(s: Stmt)
    requires s.Switch?
    ensures Checks(s) == [Names(CaseLexicalNames(s.cases), CaseVarNames(s.cases), [])] + CaseChecks(s.cases)
    ensures forall k :: LexicalNames(s, k) == [] && VarNames(s, k) == CaseVarNames(s.cases)
  {
  }

  lemma SwitchAlike(s: Stmt, t: Stmt)
    requires s.Switch? && t.Switch? && CasesAlike(s.cases, t.cases)
    ensures Alike(s, t)
  {
    hide Checks, LexicalNames, VarNames, AllPass, Passes, AllLexicalNames, AllVarNames;
    SwitchParts(s);
    SwitchParts(t);
    var c, d := Names(CaseLexicalNames(s.cases), CaseVarNames(s.cases), []), Names(CaseLexicalNames(t.cases), CaseVarNames(t.cases), []);
    NamesAsBags(c, d);
    PassOne(c);
    PassOne(d);
    PassBoth([c], CaseChecks(s.cases));
    PassBoth([d], CaseChecks(t.cases));
  }

  /** Reordering statements in a list, and in any lists inside it, does not change whether it is accepted. */
  lemma OrderIrrelevant(xs: seq<Stmt>, ys: seq<Stmt>, k: ListKind)
    requires ReorderedLists(xs, ys)
    ensures AllPass(ListChecks(xs, k)) <==> AllPass(ListChecks(ys, k))
  {
    ReorderedListsAlike(xs, ys);
    ListChecksAlike(xs, ys, k);
  }
}
