/** The SQL92 parser as the code runs it, the build-time checks, and what both mean for whole expressions. */
module SqlParse {
  import opened SqlLex
  import opened SqlGrammar

  const MAX_EXPR_BYTES: nat := 1024
  const MAX_IN_ELEMS: nat := 64

  datatype Outcome = Good(node: Expr) | Refused(col: nat, why: Why)

  datatype ConstOutcome = GoodConst(c: Const) | RefusedConst(col: nat, why: Why)

  class Parser {
    const toks: seq<Token>
    var pos: nat
    var depth: nat

    constructor (toks: seq<Token>)
      requires Stream(Lexemes(toks))
      ensures Valid() && this.toks == toks && pos == 0 && depth == 0
    {
      this.toks, pos, depth := toks, 0, 0;
    }

    /** The position never leaves the tokens, the last of which is the end token. */
    ghost predicate Valid()
      reads this
    {
      Stream(Lexemes(toks)) && pos < |toks|
    }

    ghost function Ls(): seq<Lexeme> {
      Lexemes(toks)
    }

    function Peek(): (l: Lexeme)
      requires Valid()
      reads this
      ensures l == Ls()[pos]
    {
      toks[pos].lex
    }

    method Next()
      requires Valid()
      modifies `pos
      ensures Valid() && pos == if old(Peek()) == End then old(pos) else old(pos) + 1
    {
      if pos < |toks| - 1 {
        pos := pos + 1;
      }
    }

    /** `r` is the syntax tree of what `p` found, read up to here, or the refusal at the same token. */
    ghost predicate Agrees(p: Parsed, r: Outcome)
      reads this
    {
      match p
      case Got(t, n) => r == Good(Ast(t)) && pos == n
      case Fail(at, why) => at < |toks| && r == Refused(toks[at].col, why)
    }

    method Refuse(why: Why) returns (r: Outcome)
      requires Valid()
      ensures r == Refused(toks[pos].col, why)
    {
      r := Refused(toks[pos].col, why);
    }

    method ParseConstant() returns (r: ConstOutcome)
      requires Valid()
      modifies `pos
      ensures Valid()
      ensures match ConstOf(old(Peek()))
        case AConst(c) => r == GoodConst(c) && pos == old(pos) + 1
        case NoConst => r == RefusedConst(toks[old(pos)].col, WantConst) && pos == old(pos)
    {
      var c: Const;
      match Peek() {
        case Number(t) => c := Num(t);
        case Text(t) => c := Str(t);
        case Word(True) => c := Bool(true);
        case Word(False) => c := Bool(false);
        case Word(Null) => c := NullConst;
        case _ => return RefusedConst(toks[pos].col, WantConst);
      }
      Next();
      r := GoodConst(c);
    }

    /** parseIn: the list grows until a closing parenthesis. */
    method ParseIn(ident: string, negated: bool) returns (r: Outcome)
      requires Valid()
      modifies `pos
      ensures Valid() && Agrees(InP(Ls(), ident, old(pos), negated), r)
    {
      hide Stream;
      if Peek() != LPar {
        r := Refuse(WantOpen);
        return;
      }
      Next();
      if Peek() == RPar {
        r := Refuse(EmptyList);
        return;
      }
      var vals: seq<Const> := [];
      ghost var start := pos;
      while true
        invariant Valid() && start <= pos && (vals == [] <==> start == pos)
        invariant ValsP(Ls(), start) == MoreVals(vals, ValsP(Ls(), pos))
        decreases |toks| - pos
      {
        ghost var rest := ValsP(Ls(), pos);
        var v := ParseConstant();
        if v.RefusedConst? {
          return Refused(v.col, v.why);
        }
        ghost var had := vals;
        vals := vals + [v.c];
        if Peek() == Comma {
          Next();
          MoreAgain(had, v.c, ValsP(Ls(), pos));
        } else if Peek() == RPar {
          Next();
          return Good(InNode(ident, vals, negated));
        } else {
          r := Refuse(WantCommaOrClose);
          return;
        }
      }
    }

    method ParseBetween(ident: string, negated: bool) returns (r: Outcome)
      requires Valid()
      modifies `pos
      ensures Valid() && Agrees(BetweenP(Ls(), ident, old(pos), negated), r)
    {
      var lo := ParseConstant();
      if lo.RefusedConst? {
        return Refused(lo.col, lo.why);
      }
      if Peek() != Word(And) {
        r := Refuse(WantAnd);
        return;
      }
      Next();
      var hi := ParseConstant();
      if hi.RefusedConst? {
        return Refused(hi.col, hi.why);
      }
      r := Good(BetweenNode(ident, lo.c, hi.c, negated));
    }

    method ParseIsNull(ident: string) returns (r: Outcome)
      requires Valid() && Peek() == Word(Is)
      modifies `pos
      ensures Valid() && Agrees(IdentP(Ls(), ident, old(pos)), r)
    {
      Next();
      var negated := false;
      if Peek() == Word(Not) {
        Next();
        negated := true;
      }
      if Peek() != Word(Null) {
        r := Refuse(WantNull);
        return;
      }
      Next();
      r := Good(IsNullNode(ident, negated));
    }

    method ParseNotInBetween(ident: string) returns (r: Outcome)
      requires Valid() && Peek() == Word(Not)
      modifies `pos
      ensures Valid() && Agrees(IdentP(Ls(), ident, old(pos)), r)
    {
      hide InP, BetweenP;
      Next();
      if Peek() == Word(In) {
        Next();
        r := ParseIn(ident, true);
      } else if Peek() == Word(Between) {
        Next();
        r := ParseBetween(ident, true);
      } else {
        r := Refuse(WantInOrBetween);
      }
    }

    method ParseIdentForm() returns (r: Outcome)
      requires Valid() && Peek().Ident?
      modifies `pos
      ensures Valid() && Agrees(IdentP(Ls(), old(Peek()).text, old(pos) + 1), r)
    {
      var ident := Peek().text;
      Next();
      if Peek().Op? {
        var op := Peek().op;
        Next();
        if Peek().Ident? {
          r := Refuse(TwoIdents);
          return;
        }
        var val := ParseConstant();
        if val.RefusedConst? {
          return Refused(val.col, val.why);
        }
        return Good(CmpNode(ident, op, val.c));
      } else if Peek() == Word(Is) {
        r := ParseIsNull(ident);
      } else if Peek() == Word(Not) {
        r := ParseNotInBetween(ident);
      } else if Peek() == Word(Between) {
        Next();
        r := ParseBetween(ident, false);
      } else if Peek() == Word(In) {
        Next();
        r := ParseIn(ident, false);
      } else {
        r := Refuse(WantPredicate);
      }
    }

    method ParseConstLeft() returns (r: Outcome)
      requires Valid() && ConstOf(Peek()).AConst?
      modifies `pos
      ensures Valid() && Agrees(ConstLeftP(Ls(), ConstOf(old(Peek())).c, old(pos) + 1), r)
    {
      var val := ParseConstant();
      if Peek().Op? {
        var op := Peek().op;
        Next();
        if !Peek().Ident? {
          r := Refuse(WantIdent);
          return;
        }
        var ident := Peek().text;
        Next();
        return Good(CmpNode(ident, Flip(op), val.c));
      }
      if Peek() == Word(Is) || Peek() == Word(Between) || Peek() == Word(In) {
        r := Refuse(NotAnIdent);
        return;
      }
      r := Refuse(WantComparison);
    }

    method ParsePrimary() returns (r: Outcome)
      requires Valid()
      modifies `pos, `depth
      ensures Valid() && depth == old(depth) && Agrees(PrimaryP(Ls(), old(pos), depth), r)
      decreases |toks| - pos, 1
    {
      hide IdentP, ConstLeftP;
      if Peek() == LPar {
        if depth >= MAX_DEPTH {
          r := Refuse(TooDeep);
          return;
        }
        depth := depth + 1;
        Next();
        r := ParseOr();
        depth := depth - 1;
        if r.Refused? {
          return;
        }
        if Peek() != RPar {
          r := Refuse(WantClose);
          return;
        }
        Next();
      } else if Peek().Ident? {
        r := ParseIdentForm();
      } else if Peek().Number? || Peek().Text? || Peek() == Word(True) || Peek() == Word(False) {
        r := ParseConstLeft();
      } else {
        r := Refuse(WantPredicate);
      }
    }

    method ParseNot() returns (r: Outcome)
      requires Valid()
      modifies `pos, `depth
      ensures Valid() && depth == old(depth) && Agrees(NotP(Ls(), old(pos), depth), r)
      decreases |toks| - pos, 2
    {
      hide PrimaryP;
      if Peek() == Word(Not) {
        Next();
        r := ParsePrimary();
        if r.Good? {
          r := Good(NotNode(r.node));
        }
        return;
      }
      r := ParsePrimary();
    }

    method ParseAnd() returns (r: Outcome)
      requires Valid()
      modifies `pos, `depth
      ensures Valid() && depth == old(depth) && Agrees(AndP(Ls(), old(pos), depth), r)
      decreases |toks| - pos, 3
    {
      hide NotP;
      r := ParseNot();
      if r.Refused? {
        return;
      }
      var left := r.node;
      ghost var t := NotP(Ls(), old(pos), depth).tree;
      while Peek() == Word(And)
        invariant Valid() && depth == old(depth) && pos > old(pos) && left == Ast(t)
        invariant AndP(Ls(), old(pos), depth) == AndLoop(Ls(), t, pos, depth)
        decreases |toks| - pos
      {
        Next();
        ghost var at := pos;
        r := ParseNot();
        if r.Refused? {
          return;
        }
        left := AndNode(left, r.node);
        t := AndTree(t, NotP(Ls(), at, depth).tree);
      }
      r := Good(left);
    }

    method ParseOr() returns (r: Outcome)
      requires Valid()
      modifies `pos, `depth
      ensures Valid() && depth == old(depth) && Agrees(OrP(Ls(), old(pos), depth), r)
      decreases |toks| - pos, 4
    {
      hide AndP;
      r := ParseAnd();
      if r.Refused? {
        return;
      }
      var left := r.node;
      ghost var t := AndP(Ls(), old(pos), depth).tree;
      while Peek() == Word(Or)
        invariant Valid() && depth == old(depth) && pos > old(pos) && left == Ast(t)
        invariant OrP(Ls(), old(pos), depth) == OrLoop(Ls(), t, pos, depth)
        decreases |toks| - pos
      {
        Next();
        ghost var at := pos;
        r := ParseAnd();
        if r.Refused? {
          return;
        }
        left := OrNode(left, r.node);
        t := OrTree(t, AndP(Ls(), at, depth).tree);
      }
      r := Good(left);
    }
  }

  function MoreVals(vals: seq<Const>, r: ParsedVals): ParsedVals {
    match r
    case GotVals(vs, n) => GotVals(vals + vs, n)
    case FailVals(at, why) => r
  }

  lemma MoreAgain(vals: seq<Const>, c: Const, r: ParsedVals)
    ensures MoreVals(vals, MoreVals([c], r)) == MoreVals(vals + [c], r)
  {
    if r.GotVals? {
      assert vals + ([c] + r.vals) == vals + [c] + r.vals;
    }
  }

  // ----- whole expressions -----

  lemma LexStream(s: string, i: nat, isFloat: string -> bool)
    requires i <= |s| && LexFrom(s, i, isFloat).Toks?
    ensures Stream(Lexemes(LexFrom(s, i, isFloat).toks))
  {
    LexTiles(s, i, i, isFloat);
    TilesStream(s, i, LexFrom(s, i, isFloat).toks, isFloat);
  }

  /** Tokens that tile a text: proper ones, then the end; and every column lies in the text or just after it. */
  lemma {:induction false} TilesStream(s: string, i: nat, toks: seq<Token>, isFloat: string -> bool)
    requires Tiles(s, i, toks, isFloat)
    ensures Stream(Lexemes(toks)) && forall k :: 0 <= k < |toks| - 1 ==> Proper(toks[k].lex, isFloat)
    ensures forall k :: 0 <= k < |toks| ==> 1 <= toks[k].col <= |s| + 1
    decreases |toks|
  {
    hide Blank, Spells, Longest;
    if |toks| > 1 {
      var e :| Piece(s, toks[0].col - 1, e, toks[0].lex, isFloat) && Tiles(s, e, toks[1..], isFloat);
      TilesStream(s, e, toks[1..], isFloat);
      forall k | 0 <= k < |toks|
        ensures 1 <= toks[k].col <= |s| + 1
        ensures k < |toks| - 1 ==> Proper(toks[k].lex, isFloat)
        ensures k == |toks| - 1 ==> toks[k].lex == End
      {
        if k > 0 {
          assert toks[k] == toks[1..][k - 1];
          assert Lexemes(toks[1..])[k - 1] == toks[k].lex;
        }
      }
    }
  }

  /** parseSQL92 as a function of the text. */
  function ParseText(s: string, isFloat: string -> bool): Outcome {
    match LexFrom(s, 0, isFloat)
    case Bad(col, why) => Refused(col, why)
    case Toks(toks) =>
      LexStream(s, 0, isFloat);
      match ParseP(Lexemes(toks))
      case Got(t, _) => Good(Ast(t))
      case Fail(at, why) => Refused(toks[at].col, why)
  }

  method ParseSQL92(s: string, isFloat: string -> bool) returns (r: Outcome)
    ensures r == ParseText(s, isFloat)
    ensures r.Refused? ==> 1 <= r.col <= |s| + 1
  {
    hide OrP, LexFrom;
    var lexed := Lex(s, isFloat);
    if lexed.Bad? {
      return Refused(lexed.col, lexed.why);
    }
    LexStream(s, 0, isFloat);
    TilesStream(s, 0, lexed.toks, isFloat);
    var p := new Parser(lexed.toks);
    r := p.ParseOr();
    if r.Refused? {
      return;
    }
    if p.Peek() != End {
      r := p.Refuse(WantEnd);
    }
  }

  /** The text is one sentence of the grammar, nested at most 16 parentheses deep, with that syntax tree. */
  ghost predicate Says(s: string, toks: seq<Token>, t: Tree, isFloat: string -> bool) {
    && Tiles(s, 0, toks, isFloat) && Lexemes(toks) == Yield(t) + [End]
    && Fits(t, 0) && Parens(t) <= 16
  }

  lemma SaysParsed(s: string, toks: seq<Token>, t: Tree, isFloat: string -> bool)
    requires Says(s, toks, t, isFloat)
    ensures ParseText(s, isFloat) == Good(Ast(t))
  {
    hide ParseP, LexFrom, Yield, Fits, Parens, Tiles;
    TilesLex(s, 0, toks, isFloat);
    TilesStream(s, 0, toks, isFloat);
    ParseExact(Lexemes(toks), t);
  }

  lemma ParsedSays(s: string, isFloat: string -> bool) returns (toks: seq<Token>, t: Tree)
    requires ParseText(s, isFloat).Good?
    ensures Says(s, toks, t, isFloat) && ParseText(s, isFloat) == Good(Ast(t))
  {
    hide ParseP, Tiles, Yield, Fits, Parens;
    toks := LexFrom(s, 0, isFloat).toks;
    LexTiles(s, 0, 0, isFloat);
    LexStream(s, 0, isFloat);
    t := ParseP(Lexemes(toks)).tree;
    assert ParseP(Lexemes(toks)) == Got(t, ParseP(Lexemes(toks)).next);
    ParseExact(Lexemes(toks), t);
  }

  /** parseSQL92 accepts exactly the sentences of the grammar and returns what they say. */
  lemma AcceptsExactly(s: string, n: Expr, isFloat: string -> bool)
    ensures ParseText(s, isFloat) == Good(n) <==> exists toks, t :: Says(s, toks, t, isFloat) && Ast(t) == n
  {
    hide Says, ParseText;
    if ParseText(s, isFloat) == Good(n) {
      var toks, t := ParsedSays(s, isFloat);
    }
    if toks, t :| Says(s, toks, t, isFloat) && Ast(t) == n {
      SaysParsed(s, toks, t, isFloat);
    }
  }

  // ----- build-time checks -----

  function Height(n: Expr): nat {
    match n
    case OrNode(l, r) => 1 + Max(Height(l), Height(r))
    case AndNode(l, r) => 1 + Max(Height(l), Height(r))
    case NotNode(x) => 1 + Height(x)
    case _ => 1
  }

  predicate Ordering(o: CmpOp) {
    o != Eq && o != Ne
  }

  predicate SameKind(c: Const, d: Const) {
    (c.Num? <==> d.Num?) && (c.Str? <==> d.Str?) && (c.Bool? <==> d.Bool?)
  }

  /** No predicate of the tree compares what cannot be compared. */
  predicate Sensible(n: Expr) {
    match n
    case OrNode(l, r) => Sensible(l) && Sensible(r)
    case AndNode(l, r) => Sensible(l) && Sensible(r)
    case NotNode(x) => Sensible(x)
    case CmpNode(_, o, c) => c.Num? || ((c.Str? || c.Bool?) && (o == Eq || o == Ne))
    case BetweenNode(_, lo, hi, _) => lo.Num? && hi.Num?
    case InNode(_, vals, _) =>
      && |vals| <= 64
      && ((forall i :: 0 <= i < |vals| ==> vals[i].Num?) || (forall i :: 0 <= i < |vals| ==> vals[i].Str?)
          || forall i :: 0 <= i < |vals| ==> vals[i].Bool?)
    case IsNullNode(_, _) => true
  }

  datatype Verdict = Fine | TooTall | OrderedText | NullCompared | OrderedBool | TooMany | MixedList | NullListed
    | MixedBounds | BoundsNotNumbers

  ghost function Kind(c: Const): nat {
    match c case Num(_) => 0 case Str(_) => 1 case Bool(_) => 2 case NullConst => 3
  }

  /** What each complaint says about a list. */
  ghost predicate ListFault(vals: seq<Const>, v: Verdict) {
    match v
    case TooMany => |vals| > 64
    case MixedList => exists i, j :: 0 <= i < j < |vals| && Kind(vals[i]) != Kind(vals[j])
    case NullListed => vals != [] && forall i :: 0 <= i < |vals| ==> vals[i] == NullConst
    case _ => false
  }

  /** What each complaint says about an expression: some predicate of it has that fault. */
  ghost predicate Fault(n: Expr, v: Verdict) {
    match n
    case OrNode(l, r) => Fault(l, v) || Fault(r, v)
    case AndNode(l, r) => Fault(l, v) || Fault(r, v)
    case NotNode(x) => Fault(x, v)
    case CmpNode(_, o, c) =>
      || (v == OrderedText && c.Str? && o in {Lt, Le, Gt, Ge})
      || (v == OrderedBool && c.Bool? && o in {Lt, Le, Gt, Ge})
      || (v == NullCompared && c == NullConst)
    case BetweenNode(_, lo, hi, _) =>
      || (v == MixedBounds && Kind(lo) != Kind(hi))
      || (v == BoundsNotNumbers && Kind(lo) == Kind(hi) != 0)
    case InNode(_, vals, _) => ListFault(vals, v)
    case IsNullNode(_, _) => false
  }

  method ValidateList(vals: seq<Const>) returns (v: Verdict)
    ensures v == Fine <==> Sensible(InNode("", vals, false))
    ensures v != Fine ==> ListFault(vals, v)
  {
    if |vals| > MAX_IN_ELEMS {
      return TooMany;
    }
    var i := 1;
    while i < |vals|
      invariant 1 <= i && (i <= |vals| || |vals| == 0)
      invariant forall k :: 0 <= k < i && k < |vals| ==> SameKind(vals[k], vals[0])
    {
      if !SameKind(vals[i], vals[0]) {
        return MixedList;
      }
      i := i + 1;
    }
    i := 0;
    while i < |vals|
      invariant 0 <= i <= |vals| && forall k :: 0 <= k < i ==> !vals[k].NullConst?
    {
      if vals[i].NullConst? {
        return NullListed;
      }
      i := i + 1;
    }
    v := Fine;
  }

  /**
   * validate accepts exactly the trees of at most 16 levels whose every predicate makes sense, and what it complains of
   * is there.
   */
  method Validate(n: Expr, depth: nat) returns (v: Verdict)
    ensures v == Fine <==> Height(n) + depth <= 17 && Sensible(n)
    ensures v == TooTall ==> Height(n) + depth > 17
    ensures v != Fine && v != TooTall ==> Fault(n, v)
    decreases n
  {
    if depth > MAX_DEPTH {
      return TooTall;
    }
    match n
    case OrNode(l, r) =>
      v := Validate(l, depth + 1);
      if v == Fine {
        v := Validate(r, depth + 1);
      }
    case AndNode(l, r) =>
      v := Validate(l, depth + 1);
      if v == Fine {
        v := Validate(r, depth + 1);
      }
    case NotNode(x) =>
      v := Validate(x, depth + 1);
    case CmpNode(_, o, c) =>
      v := if c.Str? && Ordering(o) then OrderedText
           else if c.NullConst? then NullCompared
           else if c.Bool? && Ordering(o) then OrderedBool
           else Fine;
    case InNode(_, vals, _) =>
      v := ValidateList(vals);
    case BetweenNode(_, lo, hi, _) =>
      v := if !SameKind(lo, hi) then MixedBounds else if !lo.Num? then BoundsNotNumbers else Fine;
    case IsNullNode(_, _) =>
      v := Fine;
  }

  datatype Built = Filter(root: Expr) | TooLong | BadSyntax(col: nat, why: Why) | BadMeaning(v: Verdict)

  /** buildSQLFilter. */
  method BuildSQLFilter(s: string, isFloat: string -> bool) returns (b: Built)
    ensures b == TooLong <==> |s| > 1024
    ensures forall n :: b == Filter(n) <==> (|s| <= 1024 && ParseText(s, isFloat) == Good(n)
      && Height(n) <= 16 && Sensible(n))
    ensures b.BadSyntax? ==> ParseText(s, isFloat) == Refused(b.col, b.why) && 1 <= b.col <= |s| + 1
    ensures b.BadMeaning? ==> ParseText(s, isFloat).Good?
    ensures b.BadMeaning? && b.v == TooTall ==> Height(ParseText(s, isFloat).node) > 16
    ensures b.BadMeaning? && b.v != TooTall ==> Fault(ParseText(s, isFloat).node, b.v)
  {
    if |s| > MAX_EXPR_BYTES {
      return TooLong;
    }
    var r := ParseSQL92(s, isFloat);
    if r.Refused? {
      return BadSyntax(r.col, r.why);
    }
    var v := Validate(r.node, 1);
    b := if v == Fine then Filter(r.node) else BadMeaning(v);
  }

  // ----- printing -----

  /** The tree written with parentheses round every part. */
  function Full(n: Expr): (t: Tree)
    ensures Ast(t) == n && Parens(t) == Height(n)
  {
    match n
    case OrNode(l, r) => Paren(OrTree(Full(l), Full(r)))
    case AndNode(l, r) => Paren(AndTree(Full(l), Full(r)))
    case NotNode(x) => Paren(NotTree(Full(x)))
    case _ => Paren(Leaf(n))
  }

  predicate WritableConst(c: Const, isFloat: string -> bool) {
    c.Num? ==> NumberText(c.text) && isFloat(c.text)
  }

  /** Names are attribute names, numbers are decimal texts ParseFloat takes, and no list is empty. */
  predicate Writable(n: Expr, isFloat: string -> bool) {
    match n
    case OrNode(l, r) => Writable(l, isFloat) && Writable(r, isFloat)
    case AndNode(l, r) => Writable(l, isFloat) && Writable(r, isFloat)
    case NotNode(x) => Writable(x, isFloat)
    case CmpNode(id, _, c) => IdentText(id) && WritableConst(c, isFloat)
    case BetweenNode(id, lo, hi, _) => IdentText(id) && WritableConst(lo, isFloat) && WritableConst(hi, isFloat)
    case InNode(id, vals, _) => IdentText(id) && vals != [] && forall i :: 0 <= i < |vals| ==>
          WritableConst(vals[i], isFloat)
    case IsNullNode(id, _) => IdentText(id)
  }

  ghost predicate AllProper(ls: seq<Lexeme>, isFloat: string -> bool) {
    forall k :: 0 <= k < |ls| ==> Proper(ls[k], isFloat)
  }

  lemma ProperBoth(a: seq<Lexeme>, b: seq<Lexeme>, isFloat: string -> bool)
    ensures AllProper(a + b, isFloat) <==> AllProper(a, isFloat) && AllProper(b, isFloat)
  {
    if AllProper(a + b, isFloat) {
      assert forall k :: 0 <= k < |a| ==> a[k] == (a + b)[k];
      assert forall k :: 0 <= k < |b| ==> b[k] == (a + b)[|a| + k];
    }
  }

  lemma ProperConst(c: Const, isFloat: string -> bool)
    ensures Proper(ConstLex(c), isFloat) <==> WritableConst(c, isFloat)
  {
  }

  lemma {:induction false} ProperList(vals: seq<Const>, isFloat: string -> bool)
    ensures AllProper(Listed(vals), isFloat) <==> forall i :: 0 <= i < |vals| ==> WritableConst(vals[i], isFloat)
  {
    if vals != [] {
      var c := vals[0];
      ProperConst(c, isFloat);
      assert forall i :: 1 <= i < |vals| ==> vals[i] == vals[1..][i - 1];
      ProperList(vals[1..], isFloat);
      ProperBoth([ConstLex(c), Comma], Listed(vals[1..]), isFloat);
      assert AllProper([ConstLex(c), Comma], isFloat) <==> Proper([ConstLex(c), Comma][0], isFloat);
      assert AllProper([ConstLex(c), RPar], isFloat) <==> Proper([ConstLex(c), RPar][0], isFloat);
    }
  }

  lemma {:induction false} WritableLeaf(p: Expr, isFloat: string -> bool)
    requires Fits(Leaf(p), 0)
    ensures AllProper(Yield(Leaf(p)), isFloat) <==> Writable(p, isFloat)
  {
    hide AllProper;
    var y := AfterName(p);
    ProperBoth([Ident(p.ident)], y, isFloat);
    OneProper(Ident(p.ident), isFloat);
    match p
    case CmpNode(_, o, c) =>
      ThreeProper(Op(o), ConstLex(c), Op(o), isFloat);
      assert [Op(o), ConstLex(c)] + [Op(o)] == [Op(o), ConstLex(c), Op(o)];
      ProperBoth(y, [Op(o)], isFloat);
      OneProper(Op(o), isFloat);
      ProperConst(c, isFloat);
    case BetweenNode(_, lo, hi, neg) =>
      ProperBoth(Negation(neg) + [Word(Between)], [ConstLex(lo), Word(And), ConstLex(hi)], isFloat);
      WordsProper(neg, Between, isFloat);
      ThreeProper(ConstLex(lo), Word(And), ConstLex(hi), isFloat);
      ProperConst(lo, isFloat);
      ProperConst(hi, isFloat);
    case InNode(_, vals, neg) =>
      ProperBoth(Negation(neg) + [Word(In)], [LPar] + Listed(vals), isFloat);
      WordsProper(neg, In, isFloat);
      ProperBoth([LPar], Listed(vals), isFloat);
      OneProper(LPar, isFloat);
      ProperList(vals, isFloat);
    case IsNullNode(_, neg) =>
      ProperBoth([Word(Is)] + Negation(neg), [Word(Null)], isFloat);
      ProperBoth([Word(Is)], Negation(neg), isFloat);
      ProperBoth(Negation(neg), [Word(Null)], isFloat);
      WordsProper(neg, Null, isFloat);
      OneProper(Word(Is), isFloat);
  }

  lemma OneProper(l: Lexeme, isFloat: string -> bool)
    ensures AllProper([l], isFloat) <==> Proper(l, isFloat)
  {
    assert [l][0] == l;
  }

  lemma ThreeProper(a: Lexeme, b: Lexeme, c: Lexeme, isFloat: string -> bool)
    ensures AllProper([a, b, c], isFloat) <==> Proper(a, isFloat) && Proper(b, isFloat) && Proper(c, isFloat)
  {
    var y := [a, b, c];
    assert y[0] == a && y[1] == b && y[2] == c;
  }

  lemma WordsProper(neg: bool, k: Keyword, isFloat: string -> bool)
    ensures AllProper(Negation(neg) + [Word(k)], isFloat)
  {
  }

  /** The tokens of a tree are ones some text stands for exactly when its syntax tree can be written down. */
  lemma {:induction false} WritableExact(t: Tree, isFloat: string -> bool)
    requires Fits(t, 0)
    ensures AllProper(Yield(t), isFloat) <==> Writable(Ast(t), isFloat)
  {
    hide AllProper, AfterName;
    match t
    case OrTree(l, r) =>
      FitsLower(r, 1);
      WritableExact(l, isFloat);
      WritableExact(r, isFloat);
      ProperJoin(Yield(l), Word(Or), Yield(r), isFloat);
    case AndTree(l, r) =>
      FitsLower(l, 1);
      FitsLower(r, 2);
      WritableExact(l, isFloat);
      WritableExact(r, isFloat);
      ProperJoin(Yield(l), Word(And), Yield(r), isFloat);
    case NotTree(x) =>
      FitsLower(x, 3);
      WritableExact(x, isFloat);
      ProperBoth([Word(Not)], Yield(x), isFloat);
      OneProper(Word(Not), isFloat);
    case Paren(x) =>
      WritableExact(x, isFloat);
      ProperBoth([LPar] + Yield(x), [RPar], isFloat);
      ProperBoth([LPar], Yield(x), isFloat);
      OneProper(LPar, isFloat);
      OneProper(RPar, isFloat);
    case Leaf(p) => WritableLeaf(p, isFloat);
    case Flipped(c, o, id) =>
      ThreeProper(ConstLex(c), Op(o), Ident(id), isFloat);
      ProperConst(c, isFloat);
  }

  lemma ProperJoin(a: seq<Lexeme>, x: Lexeme, b: seq<Lexeme>, isFloat: string -> bool)
    requires Proper(x, isFloat)
    ensures AllProper(a + [x] + b, isFloat) <==> AllProper(a, isFloat) && AllProper(b, isFloat)
  {
    hide AllProper;
    ProperBoth(a + [x], b, isFloat);
    ProperBoth(a, [x], isFloat);
    OneProper(x, isFloat);
  }

  /** The text of a tree: its tokens, each followed by a space. */
  function TextOf(t: Tree): string {
    Render(Yield(t))
  }

  /**
   * However an expression is written, with any parentheses the grammar allows nested at most 16 deep, constants on
   * either side, its text parses to its syntax tree.
   */
  lemma WrittenParses(t: Tree, isFloat: string -> bool)
    requires Fits(t, 0) && Parens(t) <= 16 && Writable(Ast(t), isFloat)
    ensures ParseText(TextOf(t), isFloat) == Good(Ast(t))
  {
    hide Yield, Fits, Parens, Writable, ParseP, LexFrom, Proper;
    WritableExact(t, isFloat);
    LexRendered(Yield(t), isFloat);
    LexStream(TextOf(t), 0, isFloat);
    ParseExact(Yield(t) + [End], t);
  }

  lemma {:induction false} FullFits(n: Expr, isFloat: string -> bool)
    requires Writable(n, isFloat)
    ensures Fits(Full(n), 3)
  {
    match n
    case OrNode(l, r) =>
      FullFits(l, isFloat);
      FullFits(r, isFloat);
      FitsLower(Full(l), 3);
      FitsLower(Full(r), 3);
    case AndNode(l, r) =>
      FullFits(l, isFloat);
      FullFits(r, isFloat);
      FitsLower(Full(l), 3);
      FitsLower(Full(r), 3);
    case NotNode(x) =>
      FullFits(x, isFloat);
    case _ =>
  }

  function Print(n: Expr): string {
    TextOf(Full(n))
  }

  /** The fully parenthesised text of any tree of at most 16 levels parses back to it. */
  lemma RoundTrip(n: Expr, isFloat: string -> bool)
    requires Writable(n, isFloat) && Height(n) <= 16
    ensures ParseText(Print(n), isFloat) == Good(n)
  {
    FullFits(n, isFloat);
    FitsLower(Full(n), 3);
    WrittenParses(Full(n), isFloat);
  }

  /** Every syntax tree the parser returns can be written down. */
  lemma ParsedWritable(s: string, isFloat: string -> bool)
    requires ParseText(s, isFloat).Good?
    ensures Writable(ParseText(s, isFloat).node, isFloat)
  {
    hide ParseText, Tiles, Proper, Fits, Yield, Writable;
    var toks, t := ParsedSays(s, isFloat);
    TilesStream(s, 0, toks, isFloat);
    assert forall k :: 0 <= k < |Yield(t)| ==> Yield(t)[k] == Lexemes(toks)[k];
    WritableExact(t, isFloat);
  }

  /** So printing what a filter was built from and parsing the text again gives the same filter. */
  lemma Reparsed(s: string, n: Expr, isFloat: string -> bool)
    requires ParseText(s, isFloat) == Good(n) && Height(n) <= 16
    ensures ParseText(Print(n), isFloat) == Good(n)
  {
    ParsedWritable(s, isFloat);
    RoundTrip(n, isFloat);
  }
}
