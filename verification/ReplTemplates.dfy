/** Templates with substitutions as the documentation means them, and exactly which ones the completeness test, which
    reads a template as plain text up to the next bare backtick, takes for what they are. */
module ReplTemplates {
  import opened Prelude
  import opened Repl
  import opened ReplLaws
  import opened ReplReading

  // ----- the documented reading -----

  /** A piece of code other than a template, or a template with its substitutions. */
  datatype Item = Code(p: Piece) | Whole(parts: seq<Part>)

  datatype Part = Chunk(text: string) | Subst(code: seq<Item>)

  function ItemText(item: Item): (t: string)
    ensures t != []
    decreases item
  {
    match item
    case Code(p) => Text(p)
    case Whole(parts) => "`" + PartsText(parts) + "`"
  }

  function ItemsText(items: seq<Item>): string
    decreases items
  {
    if items == [] then [] else ItemText(items[0]) + ItemsText(items[1..])
  }

  function PartsText(parts: seq<Part>): string
    decreases parts
  {
    if parts == [] then [] else PartText(parts[0]) + PartsText(parts[1..])
  }

  function PartText(part: Part): string
    decreases part
  {
    match part
    case Chunk(text) => text
    case Subst(code) => "${" + ItemsText(code) + "}"
  }

  /** The brackets of the code, those in substitutions included, and the braces that delimit these. */
  function DocumentedBrackets(items: seq<Item>): seq<char>
    decreases items
  {
    if items == [] then [] else ItemBrackets(items[0]) + DocumentedBrackets(items[1..])
  }

  function ItemBrackets(item: Item): seq<char>
    decreases item
  {
    match item
    case Code(p) => PieceBrackets(p)
    case Whole(parts) => PartsBrackets(parts)
  }

  function PartsBrackets(parts: seq<Part>): seq<char>
    decreases parts
  {
    if parts == [] then [] else PartBrackets(parts[0]) + PartsBrackets(parts[1..])
  }

  function PartBrackets(part: Part): seq<char>
    decreases part
  {
    match part
    case Chunk(_) => []
    case Subst(code) => ['{'] + DocumentedBrackets(code) + ['}']
  }

  /** Template text opens no substitution. */
  predicate OpensNone(text: string) {
    forall i :: 0 <= i < |Events(text)| ==> Events(text)[i] != '{'
  }

  function PrevAfterItem(item: Item, prev: Option<char>): Option<char> {
    match item
    case Code(p) => PrevAfter(p, prev)
    case Whole(_) => Some('`')
  }

  function PrevAfterItems(items: seq<Item>, prev: Option<char>): Option<char>
    decreases |items|
  {
    if items == [] then prev else PrevAfterItems(items[1..], PrevAfterItem(items[0], prev))
  }

  ghost predicate ItemsProper(items: seq<Item>, prev: Option<char>, rest: string)
    decreases items
  {
    items == [] || (ItemProper(items[0], prev, ItemsText(items[1..]) + rest)
                    && ItemsProper(items[1..], PrevAfterItem(items[0], prev), rest))
  }

  ghost predicate ItemProper(item: Item, prev: Option<char>, rest: string)
    decreases item
  {
    match item
    case Code(p) => !p.Template? && Proper(p, prev, rest)
    case Whole(parts) => IsTemplate(parts)
  }

  /** Text around substitutions, each with code whose brackets balance. */
  ghost predicate IsTemplate(parts: seq<Part>)
    decreases parts
  {
    |parts| % 2 == 1 && forall j :: 0 <= j < |parts| ==> (parts[j].Chunk? <==> j % 2 == 0) && PartProper(parts[j])
  }

  ghost predicate PartProper(part: Part)
    decreases part
  {
    match part
    case Chunk(text) => Inside(text, '`') && OpensNone(text)
    case Subst(code) => ItemsProper(code, Some('{'), "}") && Balanced(DocumentedBrackets(code))
  }

  lemma BalancedConcat(xs: seq<char>, ys: seq<char>)
    requires Balanced(xs) && Balanced(ys)
    ensures Balanced(xs + ys)
  {
    hide Balanced, Fold;
    BalancedFolds(xs, []);
    BalancedFolds(ys, []);
    FoldConcat([], xs, ys);
    FoldsBalanced(xs + ys);
  }

  lemma {:induction false} TemplateBalanced(parts: seq<Part>)
    requires forall j :: 0 <= j < |parts| ==> PartProper(parts[j])
    ensures Balanced(PartsBrackets(parts))
    decreases |parts|
  {
    hide Balanced, ItemsProper;
    if parts == [] {
      EmptyBalanced(PartsBrackets(parts));
    } else {
      TemplateBalanced(parts[1..]);
      var bs := PartBrackets(parts[0]);
      if parts[0].Chunk? {
        EmptyBalanced(bs);
      } else {
        var inner := DocumentedBrackets(parts[0].code);
        EmptyBalanced(bs[|inner| + 2..]);
        assert bs[1..|inner| + 1] == inner;
        BalancedPair(bs, |inner| + 1, inner, bs[|inner| + 2..]);
      }
      BalancedConcat(bs, PartsBrackets(parts[1..]));
    }
  }

  // ----- what the test takes for a template -----

  /** Whatever came before and comes after, the test goes over this text and is back in code after a template. */
  ghost predicate PassedOver(x: string) {
    forall rest: string, st: State | st.mode == Mode.Code && !st.escape :: Run(x + rest, st) == Run(rest, st.(prev := Some('`')))
  }

  /** Whatever came before, the test asks for more after this text. */
  ghost predicate StaysOpen(x: string) {
    forall st: State | st.mode == Mode.Code && !st.escape :: !Run(x, st)
  }

  /** A reading of a text that begins with a backtick. */
  ghost predicate Reads(x: string, ps: seq<Piece>, tail: Tail) {
    && x != [] && x[0] == '`' && TextAll(ps) + TailText(tail) == x
    && AllProper(ps, None, TailText(tail)) && ProperTail(tail, PrevAfterAll(ps, None))
  }

  function LastChar(x: string): char
    requires x != []
  {
    x[|x| - 1]
  }

  lemma {:induction false} LastIsTemplate(ps: seq<Piece>, prev: Option<char>, rest: string)
    requires AllProper(ps, prev, rest) && TextAll(ps) != [] && LastChar(TextAll(ps)) == '`'
    ensures ps != [] && ps[|ps| - 1].Template?
    decreases |ps|
  {
    hide Proper, Text, PrevAfter;
    var p := ps[0];
    if |ps| == 1 {
      assert TextAll(ps) == Text(p);
      EndsOfPiece(p, prev, TextAll(ps[1..]) + rest);
    } else {
      var more := TextAll(ps[1..]);
      assert TextAll(ps) == Text(p) + more;
      assert more != [] by { assert more == Text(ps[1..][0]) + TextAll(ps[1..][1..]); }
      assert LastChar(Text(p) + more) == LastChar(more);
      LastIsTemplate(ps[1..], PrevAfter(p, prev), rest);
    }
  }

  lemma EndsOfPiece(p: Piece, prev: Option<char>, rest: string)
    requires Proper(p, prev, rest) && LastChar(Text(p)) == '`'
    ensures p.Template?
  {
  }

  predicate SameHead(xs: string, ys: string) {
    xs != [] && ys != [] && xs[0] == ys[0]
  }

  /** What follows matters only by its first character, and not at all after a template. */
  lemma {:induction false} RestChanged(ps: seq<Piece>, prev: Option<char>, rest: string, other: string)
    requires AllProper(ps, prev, rest)
    requires SameHead(rest, other) || ps == [] || ps[|ps| - 1].Template?
    ensures AllProper(ps, prev, other)
    decreases |ps|
  {
    hide Inside, IsWhitespace, CanStartRegex, NoCommentEnd, Text, PrevAfter;
    if ps != [] {
      var more, changed := TextAll(ps[1..]) + rest, TextAll(ps[1..]) + other;
      if |ps| > 1 {
        assert ps[1..][|ps| - 2] == ps[|ps| - 1];
        assert TextAll(ps[1..]) != [];
        assert SameHead(more, changed);
      } else {
        assert more == rest && changed == other;
      }
      RestChanged(ps[1..], PrevAfter(ps[0], prev), rest, other);
    }
  }

  lemma {:induction false} PrevAtEnd(ps: seq<Piece>, prev: Option<char>)
    requires ps != [] && ps[|ps| - 1].Template?
    ensures PrevAfterAll(ps, prev) == Some('`')
    decreases |ps|
  {
    if |ps| > 1 { PrevAtEnd(ps[1..], PrevAfter(ps[0], prev)); }
  }

  /** A piece that begins with a backtick is a template. */
  lemma FirstIsTemplate(x: string, ps: seq<Piece>, tail: Tail, prev: Option<char>)
    requires Reads(x, ps, tail)
    ensures AllProper(ps, prev, TailText(tail)) && ProperTail(tail, PrevAfterAll(ps, prev))
  {
    hide Inside, IsWhitespace, CanStartRegex, NoCommentEnd, Dangle;
    if ps != [] {
      assert x[0] == Text(ps[0])[0];
      BeginOfPiece(ps[0], None, TextAll(ps[1..]) + TailText(tail));
      assert PrevAfterAll(ps, prev) == PrevAfterAll(ps, None);
    } else {
      assert x == TailText(tail);
    }
  }

  lemma BeginOfPiece(p: Piece, prev: Option<char>, rest: string)
    requires Proper(p, prev, rest) && Text(p)[0] == '`'
    ensures p.Template?
  {
  }

  lemma {:induction false} FoldOnTop(below: seq<char>, stack: seq<char>, bs: seq<char>)
    requires Fold(stack, bs).Some?
    ensures Fold(below + stack, bs) == Some(below + Fold(stack, bs).value)
    decreases |bs|
  {
    if bs != [] {
      if IsOpen(bs[0]) {
        assert below + stack + [Closer(bs[0])] == below + (stack + [Closer(bs[0])]);
        FoldOnTop(below, stack + [Closer(bs[0])], bs[1..]);
      } else {
        var all := below + stack;
        assert all[|all| - 1] == stack[|stack| - 1] && all[..|all| - 1] == below + stack[..|stack| - 1];
        FoldOnTop(below, stack[..|stack| - 1], bs[1..]);
      }
    }
  }

  // ----- templates that are passed over -----

  /** A text between backticks is passed over exactly when it is read as whole pieces whose brackets balance. */
  lemma PassedOverIff(x: string, ps: seq<Piece>, tail: Tail)
    requires Reads(x, ps, tail) && |x| > 1 && LastChar(x) == '`'
    ensures PassedOver(x) <==> tail.NoTail? && Balanced(Brackets(ps))
  {
    hide Run, AllProper, ProperTail, Balanced, TextAll, Brackets;
    if tail.NoTail? && Balanced(Brackets(ps)) {
      assert TextAll(ps) == x;
      WholePassedOver(x, ps);
    }
    if PassedOver(x) {
      assert x + [] == x;
      AtEnd(START.(prev := Some('`')));
      assert Run(x, START);
      BracketRead('(', [], START.(prev := Some('`')));
      assert ['('] + [] == "(";
      AtEnd(START.(stack := [')'], prev := Some('(')));
      assert Fold([], ['(']) == Some([')']) by { assert ['('][1..] == []; assert [] + [')'] == [')']; }
      assert !Run(x + "(", START);
      OnlyWhole(x, ps, tail);
    }
  }

  lemma WholePassedOver(x: string, ps: seq<Piece>)
    requires Reads(x, ps, NoTail) && TextAll(ps) == x && LastChar(x) == '`' && Balanced(Brackets(ps))
    ensures PassedOver(x)
  {
    hide Run, AllProper, Balanced, TextAll, Brackets, PrevAfterAll, Fold;
    LastIsTemplate(ps, None, []);
    forall rest: string, st: State | st.mode == Mode.Code && !st.escape
      ensures Run(x + rest, st) == Run(rest, st.(prev := Some('`')))
    {
      FirstIsTemplate(x, ps, NoTail, st.prev);
      RestChanged(ps, st.prev, [], rest);
      PiecesRead(ps, rest, st);
      BalancedFolds(Brackets(ps), st.stack);
      PrevAtEnd(ps, st.prev);
    }
  }

  lemma OnlyWhole(x: string, ps: seq<Piece>, tail: Tail)
    requires Reads(x, ps, tail) && |x| > 1 && LastChar(x) == '`' && Run(x, START) && !Run(x + "(", START)
    ensures tail.NoTail? && Balanced(Brackets(ps))
  {
    hide Run, AllProper, ProperTail, Balanced, TextAll, Brackets, Fold, CanBeBalanced, Inside, Dangle;
    var text, longer := TailText(tail), TailText(tail) + "(";
    if tail.NoTail? {
      assert TextAll(ps) + [] == TextAll(ps);
      LastIsTemplate(ps, None, []);
    } else {
      assert text != [];
    }
    RestChanged(ps, None, text, longer);
    assert x + "(" == TextAll(ps) + longer;
    PiecesRead(ps, text, START);
    PiecesRead(ps, longer, START);
    var st := START.(stack := Fold([], Brackets(ps)).value, prev := PrevAfterAll(ps, None));
    LongerTail(tail, st);
    FoldsIffCanBeBalanced(Brackets(ps));
  }

  /** A tail after which the test answers complete, but not with one more bracket, is no tail. */
  lemma LongerTail(tail: Tail, st: State)
    requires ProperTail(tail, st.prev) && st.mode == Mode.Code && !st.escape
    requires Run(TailText(tail), st) && !Run(TailText(tail) + "(", st)
    ensures tail.NoTail? && st.stack == []
  {
    hide Run, Inside, Fold, Events, CanStartRegex;
    TailRead(tail, st);
    NothingFolded(st.stack);
    if tail.OpenLine? {
      var in_, body := st.(mode := LineComment, prev := Some('/')), tail.body + "(";
      assert TailText(tail) + "(" == "//" + body;
      OneTurn("//" + body, st, in_, 2, body);
      assert body + [] == body;
      var last := LineBody(body, [], in_);
      AtEnd(in_.(prev := last));
    }
    if tail.OpenTemplate? {
      var in_, rest := st.(mode := Backtick, prev := Some('`')), Dangle(tail.dangling) + "(";
      assert TailText(tail) + "(" == "`" + (tail.body + rest);
      OneTurn("`" + (tail.body + rest), st, in_, 1, tail.body + rest);
      var last := TemplateBody(tail.body, rest, in_);
    }
  }

  lemma NothingFolded(stack: seq<char>)
    ensures Fold(stack, []) == Some(stack)
  {
  }

  /** After a text that begins with a backtick more is always asked for exactly when its reading ends open or with
      brackets to close, and has no mismatch. */
  lemma StaysOpenIff(x: string, ps: seq<Piece>, tail: Tail)
    requires Reads(x, ps, tail)
    ensures var bs := Brackets(ps) + TailBrackets(tail);
      StaysOpen(x) <==> CanBeBalanced(bs) && (IsOpenTail(tail) || !Balanced(bs))
  {
    hide Run, AllProper, ProperTail, Balanced, TextAll, Brackets, TailText, Fold, CanBeBalanced, PrevAfterAll;
    var bs, ts := Brackets(ps), TailBrackets(tail);
    VerdictOnPieces(ps, tail);
    assert StaysOpen(x) ==> !Run(x, START);
    FoldsIffCanBeBalanced(bs + ts);
    FoldConcat([], bs, ts);
    if CanBeBalanced(bs + ts) && (IsOpenTail(tail) || !Balanced(bs + ts)) {
      var stack := Fold([], bs).value;
      NothingFolded(stack);
      forall st: State | st.mode == Mode.Code && !st.escape ensures !Run(x, st) {
        FirstIsTemplate(x, ps, tail, st.prev);
        PiecesRead(ps, TailText(tail), st);
        FoldOnTop(st.stack, [], bs);
        assert st.stack + [] == st.stack;
        FoldOnTop(st.stack, stack, ts);
        TailRead(tail, st.(stack := st.stack + stack, prev := PrevAfterAll(ps, st.prev)));
      }
    }
  }

  // ----- templates without nested ones -----

  /** A template that holds no bare backtick is passed over exactly when its substitution openings and its bare
      closing braces, wherever they stand, balance. */
  lemma SimpleTemplateIff(body: string)
    requires Inside(body, '`')
    ensures PassedOver("`" + body + "`") <==> Balanced(Events(body))
  {
    hide Inside, Events, Balanced;
    var p := Template(body);
    assert [p][1..] == [];
    assert TextAll([p]) == "`" + body + "`";
    assert TextAll([p]) + TailText(NoTail) == "`" + body + "`";
    assert Proper(p, None, TextAll([p][1..]) + TailText(NoTail));
    assert AllProper([p], None, TailText(NoTail));
    assert Brackets([p]) == Events(body);
    PassedOverIff("`" + body + "`", [p], NoTail);
  }

  lemma {:induction false} EventsThenBrace(code: string)
    requires Inside(code, '`')
    ensures Inside(code + "}", '`') && Events(code + "}") == Events(code) + ['}']
    decreases |code|
  {
    var t := code + "}";
    if code == [] {
      assert t[1..] == [];
    } else if code[0] == '\\' {
      assert t[2..] == code[2..] + "}";
      EventsThenBrace(code[2..]);
    } else {
      assert t[1..] == code[1..] + "}";
      EventsThenBrace(code[1..]);
      if code[0] == '$' && Follows(code, '{') {
        assert t[2..] == code[2..] + "}";
        EventsThenBrace(code[2..]);
      }
    }
  }

  lemma {:induction false} FoldClosers(bs: seq<char>)
    requires forall i :: 0 <= i < |bs| ==> bs[i] == '}'
    ensures Fold(['}'], bs + ['}']) == Some([]) <==> bs == []
  {
    var all := bs + ['}'];
    assert Pop(['}'], '}') == Some([]);
    if bs != [] {
      assert all[1..] == bs[1..] + ['}'];
      assert all[1..][0] == '}';
    }
  }

  /** A single substitution is passed over exactly when its code has no bare closing brace: braces in the code, even
      balanced ones, are not counted when they open. */
  lemma SubstitutionIff(code: string)
    requires Inside(code, '`') && OpensNone(code)
    ensures PassedOver("`${" + code + "}`") <==> '}' !in Events(code)
  {
    hide Balanced, Run, Inside;
    var body := "${" + code + "}";
    assert "`" + body + "`" == "`${" + code + "}`";
    EventsThenBrace(code);
    InsideOpening(code + "}");
    assert body == "${" + (code + "}");
    SimpleTemplateIff(body);
    var es := Events(code);
    EventsAreBraces(code);
    assert Events(body) == ['{'] + (es + ['}']);
    assert (['{'] + (es + ['}']))[1..] == es + ['}'];
    assert [] + ['}'] == ['}'];
    FoldClosers(es);
    FoldsIffCanBeBalanced(Events(body));
    if es != [] { assert es[0] == '}'; }
  }

  lemma InsideOpening(code: string)
    requires Inside(code, '`')
    ensures Inside("${" + code, '`') && Events("${" + code) == ['{'] + Events(code)
  {
    var t := "${" + code;
    assert t[2..] == code;
    assert t[1..] == "{" + code;
    assert t[1..][1..] == code;
  }

  lemma {:induction false} EventsAreBraces(body: string)
    ensures forall i :: 0 <= i < |Events(body)| ==> Events(body)[i] == '{' || Events(body)[i] == '}'
    decreases |body|
  {
    if body == [] {
    } else if body[0] == '\\' {
      if |body| > 1 { EventsAreBraces(body[2..]); }
    } else {
      EventsAreBraces(body[1..]);
      if body[0] == '$' && Follows(body, '{') { EventsAreBraces(body[2..]); }
    }
  }

  /** Template text with a bare closing brace and no substitution is never passed over. */
  lemma TextIff(text: string)
    requires Inside(text, '`') && OpensNone(text)
    ensures PassedOver("`" + text + "`") <==> '}' !in Events(text)
  {
    hide Balanced, Run, Inside;
    SimpleTemplateIff(text);
    EventsAreBraces(text);
    FoldsIffCanBeBalanced(Events(text));
    if Events(text) != [] { assert Events(text)[0] == '}'; }
  }

  // ----- mismatches in substitutions -----

  function Braces(n: nat): seq<char> {
    seq(n, _ => '}')
  }

  lemma {:induction false} FoldDeep(n: nat, es: seq<char>) returns (m: nat)
    requires n > |es| && forall i :: 0 <= i < |es| ==> es[i] == '{' || es[i] == '}'
    ensures m > 0 && Fold(Braces(n), es) == Some(Braces(m))
    decreases |es|
  {
    if es == [] {
      m := n;
    } else if es[0] == '{' {
      assert Braces(n) + ['}'] == Braces(n + 1);
      m := FoldDeep(n + 1, es[1..]);
    } else {
      assert Braces(n)[..n - 1] == Braces(n - 1);
      m := FoldDeep(n - 1, es[1..]);
    }
  }

  /** Whatever came before and comes after, the input counts as complete. */
  ghost predicate AlwaysComplete(x: string) {
    forall rest: string, st: State | st.mode == Mode.Code && !st.escape :: Run(x + rest, st)
  }

  /** No template without nested ones makes every input complete, whatever brackets its substitutions hold. */
  lemma MismatchUnseen(body: string)
    requires Inside(body, '`')
    ensures !AlwaysComplete("`" + body + "`")
  {
    hide Run, Inside, Events;
    var es := Events(body);
    EventsAreBraces(body);
    var m := FoldDeep(|es| + 1, es);
    var st := START.(stack := Braces(|es| + 1));
    TemplateRead(body, "(", st);
    var after := st.(stack := Braces(m), prev := Some('`'));
    BracketRead('(', [], after);
    assert ['('] + [] == "(" && ['('][1..] == [];
    AtEnd(after.(stack := Braces(m) + [')'], prev := Some('(')));
    assert !Run("`" + body + "`" + "(", st);
  }

  /** The brackets of every substitution balance. */
  ghost predicate CodeBalanced(parts: seq<Part>) {
    forall j :: 0 <= j < |parts| && parts[j].Subst? ==> Balanced(DocumentedBrackets(parts[j].code))
  }

  /** In every context the test treats the template as documented: it goes over one whose substitutions balance, and a
      mismatch in a substitution makes the input complete. */
  ghost predicate AsDocumented(parts: seq<Part>) {
    var x := "`" + PartsText(parts) + "`";
    if CodeBalanced(parts) then PassedOver(x) else AlwaysComplete(x)
  }

  /** A template without nested ones is treated as documented exactly when the brackets of its substitutions balance,
      and so do its openings and bare closing braces. */
  lemma AsDocumentedIff(parts: seq<Part>)
    requires Inside(PartsText(parts), '`')
    ensures AsDocumented(parts) <==> CodeBalanced(parts) && Balanced(Events(PartsText(parts)))
  {
    hide PassedOver, AlwaysComplete, CodeBalanced, Balanced, Inside;
    SimpleTemplateIff(PartsText(parts));
    MismatchUnseen(PartsText(parts));
  }

  // ----- whole inputs -----

  /** How an input ends: as a tail other than a template, or inside a template. */
  datatype Ending = Shut(tail: Tail) | Cut(x: string)

  function EndText(end: Ending): string {
    match end
    case Shut(tail) => TailText(tail)
    case Cut(x) => x
  }

  ghost predicate EndProper(end: Ending, prev: Option<char>) {
    match end
    case Shut(tail) => ProperTail(tail, prev) && !tail.OpenTemplate?
    case Cut(x) => StaysOpen(x)
  }

  predicate IsOpenEnd(end: Ending) {
    end.Cut? || IsOpenTail(end.tail)
  }

  lemma {:induction false} ItemsRead(items: seq<Item>, rest: string, st: State)
    requires ItemsProper(items, st.prev, rest) && st.mode == Mode.Code && !st.escape
    requires forall j :: 0 <= j < |items| && items[j].Whole? ==> PassedOver(ItemText(items[j]))
    ensures Run(ItemsText(items) + rest, st) ==
      if Fold(st.stack, DocumentedBrackets(items)).None? then true
      else Run(rest, st.(stack := Fold(st.stack, DocumentedBrackets(items)).value, prev := PrevAfterItems(items, st.prev)))
    decreases |items|
  {
    hide Run, Proper, PassedOver, ItemBrackets, ItemText, Fold, Balanced, IsTemplate;
    if items == [] {
      assert ItemsText(items) + rest == rest;
      NothingFolded(st.stack);
    } else {
      var item, more := items[0], ItemsText(items[1..]) + rest;
      assert ItemsText(items) + rest == ItemText(item) + more;
      ItemRead(item, more, st);
      FoldConcat(st.stack, ItemBrackets(item), DocumentedBrackets(items[1..]));
      if Fold(st.stack, ItemBrackets(item)).Some? {
        ItemsRead(items[1..], rest, st.(stack := Fold(st.stack, ItemBrackets(item)).value, prev := PrevAfterItem(item, st.prev)));
      }
    }
  }

  lemma ItemRead(item: Item, rest: string, st: State)
    requires ItemProper(item, st.prev, rest) && st.mode == Mode.Code && !st.escape
    requires item.Whole? ==> PassedOver(ItemText(item))
    ensures Run(ItemText(item) + rest, st) ==
      if Fold(st.stack, ItemBrackets(item)).None? then true
      else Run(rest, st.(stack := Fold(st.stack, ItemBrackets(item)).value, prev := PrevAfterItem(item, st.prev)))
  {
    hide Run, Proper, Text, PieceBrackets, PrevAfter, Fold, Balanced, PartsText, PartsBrackets, PartProper;
    match item
    case Code(p) => PieceRead(p, rest, st);
    case Whole(parts) =>
      TemplateBalanced(parts);
      BalancedFolds(PartsBrackets(parts), st.stack);
  }

  /** When every template of an input is passed over, and one it ends inside of stays open, the verdict is the
      documented one: more is asked for exactly when the brackets of the code, substitutions included, can be
      balanced by adding to them and are not balanced yet or the input ends inside something. */
  lemma DocumentedVerdict(items: seq<Item>, end: Ending)
    requires ItemsProper(items, None, EndText(end)) && EndProper(end, PrevAfterItems(items, None))
    requires forall j :: 0 <= j < |items| && items[j].Whole? ==> PassedOver(ItemText(items[j]))
    ensures var bs := DocumentedBrackets(items);
      !Run(ItemsText(items) + EndText(end), START) <==> CanBeBalanced(bs) && (IsOpenEnd(end) || !Balanced(bs))
  {
    hide Run, ItemsProper, Balanced, CanBeBalanced, Fold, TailText, PassedOver, ItemText, ItemsText, ProperTail;
    var bs := DocumentedBrackets(items);
    ItemsRead(items, EndText(end), START);
    FoldsIffCanBeBalanced(bs);
    if Fold([], bs).Some? {
      var st := START.(stack := Fold([], bs).value, prev := PrevAfterItems(items, None));
      NothingFolded(st.stack);
      if end.Shut? { TailRead(end.tail, st); }
    }
  }
}
