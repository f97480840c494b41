/**
 * The grammar of SQL92 filter expressions as derivation trees, the recursive-descent parser as functions that build
 * them, and the proof that the parser accepts exactly the trees' sentences whose parentheses nest at most 16 deep.
 */
module SqlGrammar {
  import opened SqlLex

  const MAX_DEPTH: nat := 16

  /** Numbers keep their decimal text; the integer and float64 values are functions of it. */
  datatype Const = Num(text: string) | Str(text: string) | Bool(b: bool) | NullConst

  /** The syntax tree the filter is evaluated from. */
  datatype Expr = OrNode(left: Expr, right: Expr) | AndNode(left: Expr, right: Expr) | NotNode(inner: Expr)
    | CmpNode(ident: string, op: CmpOp, val: Const)
    | BetweenNode(ident: string, lo: Const, hi: Const, negated: bool)
    | InNode(ident: string, vals: seq<Const>, negated: bool)
    | IsNullNode(ident: string, negated: bool)

  /** One way of writing an expression: parentheses and constants on the left still visible. */
  datatype Tree = OrTree(left: Tree, right: Tree) | AndTree(left: Tree, right: Tree) | NotTree(inner: Tree)
    | Paren(inner: Tree) | Leaf(pred: Expr) | Flipped(val: Const, op: CmpOp, ident: string)

  function Flip(o: CmpOp): CmpOp {
    match o
    case Lt => Gt
    case Gt => Lt
    case Le => Ge
    case Ge => Le
    case _ => o
  }

  predicate Compare(o: CmpOp, x: int, y: int) {
    match o
    case Eq => x == y
    case Ne => x != y
    case Gt => x > y
    case Ge => x >= y
    case Lt => x < y
    case Le => x <= y
  }

  /** `p` says of `y` and `x` what `o` says of `x` and `y`. */
  ghost predicate Mirrors(o: CmpOp, p: CmpOp) {
    forall x, y :: Compare(o, x, y) == Compare(p, y, x)
  }

  /** Turning a comparison round keeps what it says with exactly one operator: `Flip`. */
  lemma FlipMeaning(o: CmpOp, p: CmpOp)
    ensures Mirrors(o, p) <==> p == Flip(o)
  {
    if Mirrors(o, p) {
      assert Compare(o, 0, 1) == Compare(p, 1, 0);
      assert Compare(o, 1, 0) == Compare(p, 0, 1);
      assert Compare(o, 0, 0) == Compare(p, 0, 0);
    }
  }

  function Ast(t: Tree): Expr {
    match t
    case OrTree(l, r) => OrNode(Ast(l), Ast(r))
    case AndTree(l, r) => AndNode(Ast(l), Ast(r))
    case NotTree(x) => NotNode(Ast(x))
    case Paren(x) => Ast(x)
    case Leaf(p) => p
    case Flipped(c, o, id) => CmpNode(id, Flip(o), c)
  }

  function Parens(t: Tree): nat {
    match t
    case OrTree(l, r) => Max(Parens(l), Parens(r))
    case AndTree(l, r) => Max(Parens(l), Parens(r))
    case NotTree(x) => Parens(x)
    case Paren(x) => 1 + Parens(x)
    case _ => 0
  }

  function Max(a: nat, b: nat): nat {
    if a < b then b else a
  }

  /** The grammar: level 0 is a disjunction, 1 a conjunction, 2 a negation, 3 a primary. */
  predicate Fits(t: Tree, level: nat) {
    match t
    case OrTree(l, r) => level == 0 && Fits(l, 0) && Fits(r, 1)
    case AndTree(l, r) => level <= 1 && Fits(l, 1) && Fits(r, 2)
    case NotTree(x) => level <= 2 && Fits(x, 3)
    case Paren(x) => Fits(x, 0)
    case Leaf(p) => !p.OrNode? && !p.AndNode? && !p.NotNode? && (p.InNode? ==> p.vals != [])
    case Flipped(c, _, _) => !c.NullConst?
  }

  lemma FitsLower(t: Tree, level: nat)
    requires Fits(t, level)
    ensures forall k :: 0 <= k <= level ==> Fits(t, k)
  {
  }

  function ConstLex(c: Const): Lexeme {
    match c
    case Num(t) => Number(t)
    case Str(t) => Text(t)
    case Bool(b) => Word(if b then True else False)
    case NullConst => Word(Null)
  }

  function Listed(vals: seq<Const>): seq<Lexeme> {
    if vals == [] then []
    else if |vals| == 1 then [ConstLex(vals[0]), RPar]
    else [ConstLex(vals[0]), Comma] + Listed(vals[1..])
  }

  function Negation(negated: bool): seq<Lexeme> {
    if negated then [Word(Not)] else []
  }

  /** The tokens of a predicate after its attribute name. */
  function AfterName(p: Expr): seq<Lexeme> {
    match p
    case CmpNode(_, o, c) => [Op(o), ConstLex(c)]
    case BetweenNode(_, lo, hi, neg) => Negation(neg) + [Word(Between)] + [ConstLex(lo), Word(And), ConstLex(hi)]
    case InNode(_, vals, neg) => Negation(neg) + [Word(In)] + ([LPar] + Listed(vals))
    case IsNullNode(_, neg) => [Word(Is)] + Negation(neg) + [Word(Null)]
    case _ => []
  }

  /** The tokens of a tree. */
  function Yield(t: Tree): seq<Lexeme> {
    match t
    case OrTree(l, r) => Yield(l) + [Word(Or)] + Yield(r)
    case AndTree(l, r) => Yield(l) + [Word(And)] + Yield(r)
    case NotTree(x) => [Word(Not)] + Yield(x)
    case Paren(x) => [LPar] + Yield(x) + [RPar]
    case Leaf(p) => if p.OrNode? || p.AndNode? || p.NotNode? then [] else [Ident(p.ident)] + AfterName(p)
    case Flipped(c, o, id) => [ConstLex(c), Op(o), Ident(id)]
  }

  // ----- the parser as functions -----

  /** The end token comes last and nowhere else, as the lexer leaves it. */
  predicate Stream(ls: seq<Lexeme>) {
    |ls| > 0 && ls[|ls| - 1] == End && forall k :: 0 <= k < |ls| - 1 ==> ls[k] != End
  }

  /** A tree and the position after it, or the token a refusal points at. */
  datatype Parsed = Got(tree: Tree, next: nat) | Fail(at: nat, why: Why)

  datatype ParsedVals = GotVals(vals: seq<Const>, next: nat) | FailVals(at: nat, why: Why)

  datatype Literal = NoConst | AConst(c: Const)

  function ConstOf(l: Lexeme): Literal {
    match l
    case Number(t) => AConst(Num(t))
    case Text(t) => AConst(Str(t))
    case Word(True) => AConst(Bool(true))
    case Word(False) => AConst(Bool(false))
    case Word(Null) => AConst(NullConst)
    case _ => NoConst
  }

  function ValsP(ls: seq<Lexeme>, pos: nat): (r: ParsedVals)
    requires Stream(ls) && pos < |ls|
    ensures r.GotVals? ==> pos < r.next < |ls| && r.vals != []
    ensures r.FailVals? ==> pos <= r.at < |ls|
    decreases |ls| - pos
  {
    match ConstOf(ls[pos])
    case NoConst => FailVals(pos, WantConst)
    case AConst(c) =>
      if ls[pos + 1] == Comma then
        match ValsP(ls, pos + 2)
        case GotVals(vs, n) => GotVals([c] + vs, n)
        case FailVals(at, why) => FailVals(at, why)
      else if ls[pos + 1] == RPar then GotVals([c], pos + 2)
      else FailVals(pos + 1, WantCommaOrClose)
  }

  /** After IN. */
  function InP(ls: seq<Lexeme>, id: string, pos: nat, neg: bool): (r: Parsed)
    requires Stream(ls) && pos < |ls|
    ensures r.Got? ==> Fits(r.tree, 3)
    ensures r.Got? ==> r.tree.Leaf? && r.tree.pred.InNode? && r.tree.pred.ident == id && r.tree.pred.negated == neg
    ensures r.Got? ==> pos < r.next < |ls|
    ensures r.Fail? ==> pos <= r.at < |ls|
  {
    if ls[pos] != LPar then Fail(pos, WantOpen)
    else if ls[pos + 1] == RPar then Fail(pos + 1, EmptyList)
    else
      match ValsP(ls, pos + 1)
      case GotVals(vs, n) => Got(Leaf(InNode(id, vs, neg)), n)
      case FailVals(at, why) => Fail(at, why)
  }

  /** After BETWEEN, whose AND it takes itself. */
  function BetweenP(ls: seq<Lexeme>, id: string, pos: nat, neg: bool): (r: Parsed)
    requires Stream(ls) && pos < |ls|
    ensures r.Got? ==> r.tree.Leaf? && r.tree.pred.BetweenNode? && r.tree.pred.ident == id && r.tree.pred.negated == neg
    ensures r.Got? ==> pos < r.next < |ls|
    ensures r.Fail? ==> pos <= r.at < |ls|
  {
    match ConstOf(ls[pos])
    case NoConst => Fail(pos, WantConst)
    case AConst(lo) =>
      if ls[pos + 1] != Word(And) then Fail(pos + 1, WantAnd)
      else
        match ConstOf(ls[pos + 2])
        case NoConst => Fail(pos + 2, WantConst)
        case AConst(hi) => Got(Leaf(BetweenNode(id, lo, hi, neg)), pos + 3)
  }

  /** After an attribute name. */
  function IdentP(ls: seq<Lexeme>, id: string, pos: nat): (r: Parsed)
    requires Stream(ls) && pos < |ls|
    ensures r.Got? ==> pos < r.next < |ls|
    ensures r.Fail? ==> pos <= r.at < |ls|
  {
    match ls[pos]
    case Op(o) =>
      if ls[pos + 1].Ident? then Fail(pos + 1, TwoIdents)
      else
        (match ConstOf(ls[pos + 1])
        case NoConst => Fail(pos + 1, WantConst)
        case AConst(c) => Got(Leaf(CmpNode(id, o, c)), pos + 2))
    case Word(Is) =>
      var neg := ls[pos + 1] == Word(Not);
      var at := if neg then pos + 2 else pos + 1;
      if ls[at] == Word(Null) then Got(Leaf(IsNullNode(id, neg)), at + 1) else Fail(at, WantNull)
    case Word(Not) =>
      if ls[pos + 1] == Word(In) then InP(ls, id, pos + 2, true)
      else if ls[pos + 1] == Word(Between) then BetweenP(ls, id, pos + 2, true)
      else Fail(pos + 1, WantInOrBetween)
    case Word(Between) => BetweenP(ls, id, pos + 1, false)
    case Word(In) => InP(ls, id, pos + 1, false)
    case _ => Fail(pos, WantPredicate)
  }

  /** A constant on the left. */
  function ConstLeftP(ls: seq<Lexeme>, c: Const, pos: nat): (r: Parsed)
    requires Stream(ls) && pos < |ls|
    ensures r.Got? ==> r.tree.Flipped? && r.tree.val == c
    ensures r.Got? ==> pos < r.next < |ls|
    ensures r.Fail? ==> pos <= r.at < |ls|
  {
    match ls[pos]
    case Op(o) =>
      if ls[pos + 1].Ident? then Got(Flipped(c, o, ls[pos + 1].text), pos + 2) else Fail(pos + 1, WantIdent)
    case Word(Is) => Fail(pos, NotAnIdent)
    case Word(Between) => Fail(pos, NotAnIdent)
    case Word(In) => Fail(pos, NotAnIdent)
    case _ => Fail(pos, WantComparison)
  }

  function PrimaryP(ls: seq<Lexeme>, pos: nat, depth: nat): (r: Parsed)
    requires Stream(ls) && pos < |ls|
    ensures r.Got? ==> pos < r.next < |ls|
    ensures r.Fail? ==> pos <= r.at < |ls|
    decreases |ls| - pos, 1
  {
    if ls[pos] == LPar then
      if depth >= MAX_DEPTH then Fail(pos, TooDeep)
      else
        match OrP(ls, pos + 1, depth + 1)
        case Fail(at, why) => Fail(at, why)
        case Got(t, n) => if ls[n] == RPar then Got(Paren(t), n + 1) else Fail(n, WantClose)
    else if ls[pos].Ident? then IdentP(ls, ls[pos].text, pos + 1)
    else
      match ConstOf(ls[pos])
      case AConst(c) => if c.NullConst? then Fail(pos, WantPredicate) else ConstLeftP(ls, c, pos + 1)
      case NoConst => Fail(pos, WantPredicate)
  }

  function NotP(ls: seq<Lexeme>, pos: nat, depth: nat): (r: Parsed)
    requires Stream(ls) && pos < |ls|
    ensures r.Got? ==> pos < r.next < |ls|
    ensures r.Fail? ==> pos <= r.at < |ls|
    decreases |ls| - pos, 2
  {
    if ls[pos] == Word(Not) then
      match PrimaryP(ls, pos + 1, depth)
      case Fail(at, why) => Fail(at, why)
      case Got(t, n) => Got(NotTree(t), n)
    else PrimaryP(ls, pos, depth)
  }

  function AndP(ls: seq<Lexeme>, pos: nat, depth: nat): (r: Parsed)
    requires Stream(ls) && pos < |ls|
    ensures r.Got? ==> pos < r.next < |ls|
    ensures r.Fail? ==> pos <= r.at < |ls|
    decreases |ls| - pos, 3
  {
    match NotP(ls, pos, depth)
    case Fail(at, why) => Fail(at, why)
    case Got(t, n) => AndLoop(ls, t, n, depth)
  }

  function AndLoop(ls: seq<Lexeme>, left: Tree, pos: nat, depth: nat): (r: Parsed)
    requires Stream(ls) && pos < |ls|
    ensures r.Got? ==> pos <= r.next < |ls|
    ensures r.Fail? ==> pos <= r.at < |ls|
    decreases |ls| - pos, 3
  {
    if ls[pos] != Word(And) then Got(left, pos)
    else
      match NotP(ls, pos + 1, depth)
      case Fail(at, why) => Fail(at, why)
      case Got(t, n) => AndLoop(ls, AndTree(left, t), n, depth)
  }

  function OrP(ls: seq<Lexeme>, pos: nat, depth: nat): (r: Parsed)
    requires Stream(ls) && pos < |ls|
    ensures r.Got? ==> pos < r.next < |ls|
    ensures r.Fail? ==> pos <= r.at < |ls|
    decreases |ls| - pos, 4
  {
    match AndP(ls, pos, depth)
    case Fail(at, why) => Fail(at, why)
    case Got(t, n) => OrLoop(ls, t, n, depth)
  }

  function OrLoop(ls: seq<Lexeme>, left: Tree, pos: nat, depth: nat): (r: Parsed)
    requires Stream(ls) && pos < |ls|
    ensures r.Got? ==> pos <= r.next < |ls|
    ensures r.Fail? ==> pos <= r.at < |ls|
    decreases |ls| - pos, 4
  {
    if ls[pos] != Word(Or) then Got(left, pos)
    else
      match AndP(ls, pos + 1, depth)
      case Fail(at, why) => Fail(at, why)
      case Got(t, n) => OrLoop(ls, OrTree(left, t), n, depth)
  }

  /** The whole stream is one expression. */
  function ParseP(ls: seq<Lexeme>): (r: Parsed)
    requires Stream(ls)
    ensures r.Fail? ==> r.at < |ls|
  {
    match OrP(ls, 0, 0)
    case Fail(at, why) => Fail(at, why)
    case Got(t, n) => if ls[n] == End then Got(t, n) else Fail(n, WantEnd)
  }

  // ----- what the parser accepts is in the grammar -----

  /** The tokens `y` stand at `i`, with the end token still to come. */
  predicate Here(ls: seq<Lexeme>, i: nat, y: seq<Lexeme>) {
    i + |y| < |ls| && ls[i..i + |y|] == y
  }

  lemma HereBoth(ls: seq<Lexeme>, i: nat, a: seq<Lexeme>, b: seq<Lexeme>)
    ensures Here(ls, i, a + b) <==> Here(ls, i, a) && Here(ls, i + |a|, b)
  {
    if Here(ls, i, a + b) {
      assert ls[i..i + |a|] == ls[i..i + |a + b|][..|a|];
      assert ls[i + |a|..i + |a| + |b|] == ls[i..i + |a + b|][|a|..];
    }
    if Here(ls, i, a) && Here(ls, i + |a|, b) {
      assert ls[i..i + |a + b|] == ls[i..i + |a|] + ls[i + |a|..i + |a| + |b|];
    }
  }

  lemma HereOne(ls: seq<Lexeme>, i: nat, x: Lexeme)
    ensures Here(ls, i, [x]) <==> i + 1 < |ls| && ls[i] == x
  {
  }

  lemma HereTwo(ls: seq<Lexeme>, i: nat, x: Lexeme, y: Lexeme)
    ensures Here(ls, i, [x, y]) <==> i + 2 < |ls| && ls[i] == x && ls[i + 1] == y
  {
    assert [x, y] == [x] + [y];
    HereBoth(ls, i, [x], [y]);
    HereOne(ls, i, x);
    HereOne(ls, i + 1, y);
  }

  lemma {:induction false} ValsExact(ls: seq<Lexeme>, pos: nat, vals: seq<Const>, n: nat)
    requires Stream(ls) && pos < |ls| && vals != []
    ensures ValsP(ls, pos) == GotVals(vals, n) <==> n == pos + |Listed(vals)| && Here(ls, pos, Listed(vals))
    decreases |vals|
  {
    hide Here;
    var c := vals[0];
    ConstRead(ls[pos], c);
    if |vals| == 1 {
      assert vals == [c];
      HereTwo(ls, pos, ConstLex(c), RPar);
    } else {
      assert vals == [c] + vals[1..];
      HereTwo(ls, pos, ConstLex(c), Comma);
      HereBoth(ls, pos, [ConstLex(c), Comma], Listed(vals[1..]));
      if ConstOf(ls[pos]) == AConst(c) && ls[pos + 1] == Comma {
        ValsExact(ls, pos + 2, vals[1..], n);
      }
    }
  }

  lemma ConstRead(l: Lexeme, c: Const)
    ensures l == ConstLex(c) <==> ConstOf(l) == AConst(c)
  {
  }

  lemma InExact(ls: seq<Lexeme>, id: string, pos: nat, neg: bool, vals: seq<Const>, n: nat)
    requires Stream(ls) && pos < |ls| && vals != []
    ensures InP(ls, id, pos, neg) == Got(Leaf(InNode(id, vals, neg)), n)
      <==> n == pos + 1 + |Listed(vals)| && Here(ls, pos, [LPar] + Listed(vals))
  {
    hide Here, Listed, ValsP;
    HereBoth(ls, pos, [LPar], Listed(vals));
    HereOne(ls, pos, LPar);
    if ls[pos] == LPar {
      ValsExact(ls, pos + 1, vals, n);
      FirstVal(ls, pos + 1, vals);
    }
  }

  /** A list of constants does not start with a closing parenthesis. */
  lemma FirstVal(ls: seq<Lexeme>, pos: nat, vals: seq<Const>)
    requires vals != []
    ensures Here(ls, pos, Listed(vals)) ==> pos < |ls| && ls[pos] != RPar
  {
    assert Here(ls, pos, Listed(vals)) ==> ls[pos] == ls[pos..pos + |Listed(vals)|][0];
  }

  lemma BetweenExact(ls: seq<Lexeme>, id: string, pos: nat, neg: bool, lo: Const, hi: Const, n: nat)
    requires Stream(ls) && pos < |ls|
    ensures BetweenP(ls, id, pos, neg) == Got(Leaf(BetweenNode(id, lo, hi, neg)), n)
      <==> n == pos + 3 && Here(ls, pos, [ConstLex(lo), Word(And), ConstLex(hi)])
  {
    hide Here;
    var y := [ConstLex(lo), Word(And)];
    assert y + [ConstLex(hi)] == [ConstLex(lo), Word(And), ConstLex(hi)];
    HereBoth(ls, pos, y, [ConstLex(hi)]);
    HereTwo(ls, pos, ConstLex(lo), Word(And));
    HereOne(ls, pos + 2, ConstLex(hi));
    ConstRead(ls[pos], lo);
    if pos + 2 < |ls| {
      ConstRead(ls[pos + 2], hi);
    }
  }

  lemma CmpExact(ls: seq<Lexeme>, id: string, pos: nat, o: CmpOp, c: Const, n: nat)
    requires Stream(ls) && pos < |ls|
    ensures var got := IdentP(ls, id, pos) == Got(Leaf(CmpNode(id, o, c)), n);
            got <==> n == pos + 2 && Here(ls, pos, [Op(o), ConstLex(c)])
  {
    hide Here, InP, BetweenP;
    HereTwo(ls, pos, Op(o), ConstLex(c));
    if pos + 1 < |ls| {
      ConstRead(ls[pos + 1], c);
    }
  }

  lemma IsNullExact(ls: seq<Lexeme>, id: string, pos: nat, neg: bool, n: nat)
    requires Stream(ls) && pos < |ls|
    ensures IdentP(ls, id, pos) == Got(Leaf(IsNullNode(id, neg)), n)
      <==> n == pos + 2 + |Negation(neg)| && Here(ls, pos, [Word(Is)] + Negation(neg) + [Word(Null)])
  {
    hide Here, InP, BetweenP;
    HereTwo(ls, pos, Word(Is), Word(Null));
    HereTwo(ls, pos, Word(Is), Word(Not));
    HereBoth(ls, pos, [Word(Is), Word(Not)], [Word(Null)]);
    HereOne(ls, pos + 2, Word(Null));
    assert [Word(Is)] + Negation(neg) + [Word(Null)]
        == if neg then [Word(Is), Word(Not)] + [Word(Null)] else [Word(Is), Word(Null)];
  }

  /** After a name, [NOT] IN or [NOT] BETWEEN leads to the list or the bounds. */
  lemma NegatedExact(ls: seq<Lexeme>, pos: nat, neg: bool, k: Keyword, y: seq<Lexeme>)
    ensures Here(ls, pos, Negation(neg) + [Word(k)] + y)
      <==> (var at := if neg then pos + 2 else pos + 1;
        at < |ls| && (neg ==> ls[pos] == Word(Not)) && ls[at - 1] == Word(k) && Here(ls, at, y))
  {
    hide Here;
    HereOne(ls, pos, Word(k));
    HereTwo(ls, pos, Word(Not), Word(k));
    var h := if neg then [Word(Not), Word(k)] else [Word(k)];
    assert Negation(neg) + [Word(k)] == h;
    HereBoth(ls, pos, h, y);
    HereInside(ls, pos + |h|, y);
  }

  lemma HereInside(ls: seq<Lexeme>, i: nat, y: seq<Lexeme>)
    ensures Here(ls, i, y) ==> i < |ls|
  {
  }

  lemma IdentInExact(ls: seq<Lexeme>, id: string, pos: nat, neg: bool, vals: seq<Const>, n: nat)
    requires Stream(ls) && pos < |ls| && vals != []
    ensures var got, said := IdentP(ls, id, pos) == Got(Leaf(InNode(id, vals, neg)), n), Negation(neg);
            var size := |said| + |Listed(vals)|;
            got <==> n == pos + 2 + size && Here(ls, pos, said + [Word(In)] + ([LPar] + Listed(vals)))
  {
    hide Here, Listed, InP, BetweenP;
    NegatedExact(ls, pos, neg, In, [LPar] + Listed(vals));
    var at := if neg then pos + 2 else pos + 1;
    if at < |ls| {
      InExact(ls, id, at, neg, vals, n);
    }
  }

  lemma IdentBetweenExact(ls: seq<Lexeme>, id: string, pos: nat, neg: bool, lo: Const, hi: Const, n: nat)
    requires Stream(ls) && pos < |ls|
    ensures IdentP(ls, id, pos) == Got(Leaf(BetweenNode(id, lo, hi, neg)), n)
      <==> (n == pos + 4 + |Negation(neg)|
        && Here(ls, pos, Negation(neg) + [Word(Between)] + [ConstLex(lo), Word(And), ConstLex(hi)]))
  {
    hide Here, InP, BetweenP;
    NegatedExact(ls, pos, neg, Between, [ConstLex(lo), Word(And), ConstLex(hi)]);
    var at := if neg then pos + 2 else pos + 1;
    if at < |ls| {
      BetweenExact(ls, id, at, neg, lo, hi, n);
    }
  }

  lemma OtherName(ls: seq<Lexeme>, id: string, pos: nat)
    requires Stream(ls) && pos < |ls|
    ensures var r := IdentP(ls, id, pos);
      r.Got? ==> r.tree.Leaf? && Fits(r.tree, 3) && r.tree.pred.ident == id
  {
    hide InP, BetweenP;
  }

  lemma NameExact(ls: seq<Lexeme>, pos: nat, p: Expr, n: nat)
    requires Stream(ls) && pos < |ls| && Fits(Leaf(p), 3)
    ensures IdentP(ls, p.ident, pos) == Got(Leaf(p), n) <==> n == pos + |AfterName(p)| && Here(ls, pos, AfterName(p))
  {
    hide Here, Listed, IdentP;
    match p
    case CmpNode(id, o, c) => CmpExact(ls, id, pos, o, c, n);
    case IsNullNode(id, neg) => IsNullExact(ls, id, pos, neg, n);
    case InNode(id, vals, neg) => IdentInExact(ls, id, pos, neg, vals, n);
    case BetweenNode(id, lo, hi, neg) => IdentBetweenExact(ls, id, pos, neg, lo, hi, n);
  }

  /** A predicate that starts with a name is read exactly where its tokens stand. */
  lemma LeafExact(ls: seq<Lexeme>, pos: nat, depth: nat, p: Expr, n: nat)
    requires Stream(ls) && pos < |ls| && Fits(Leaf(p), 3)
    ensures var got := PrimaryP(ls, pos, depth) == Got(Leaf(p), n);
            got <==> n == pos + |Yield(Leaf(p))| && Here(ls, pos, Yield(Leaf(p)))
  {
    hide Here, AfterName, IdentP, ConstLeftP, OrP;
    HereOne(ls, pos, Ident(p.ident));
    HereBoth(ls, pos, [Ident(p.ident)], AfterName(p));
    if pos + 1 < |ls| {
      NameExact(ls, pos + 1, p, n);
      if ls[pos].Ident? {
        OtherName(ls, ls[pos].text, pos + 1);
      }
    }
  }

  lemma FlippedExact(ls: seq<Lexeme>, pos: nat, depth: nat, c: Const, o: CmpOp, id: string, n: nat)
    requires Stream(ls) && pos < |ls| && !c.NullConst?
    ensures PrimaryP(ls, pos, depth) == Got(Flipped(c, o, id), n)
      <==> n == pos + 3 && Here(ls, pos, [ConstLex(c), Op(o), Ident(id)])
  {
    hide Here, IdentP, OrP;
    ConstRead(ls[pos], c);
    var y := [Op(o), Ident(id)];
    assert [ConstLex(c), Op(o), Ident(id)] == [ConstLex(c)] + y;
    HereOne(ls, pos, ConstLex(c));
    HereBoth(ls, pos, [ConstLex(c)], y);
    HereTwo(ls, pos + 1, Op(o), Ident(id));
    if pos + 1 < |ls| && ls[pos].Ident? {
      OtherName(ls, ls[pos].text, pos + 1);
    }
  }

  /** Tree `t` of that level is written from `pos` to `n`, with no more than the parentheses still allowed. */
  predicate Written(ls: seq<Lexeme>, pos: nat, n: nat, t: Tree, level: nat, depth: nat) {
    Fits(t, level) && Parens(t) + depth <= MAX_DEPTH && n == pos + |Yield(t)| && Here(ls, pos, Yield(t))
  }

  lemma JoinWritten(ls: seq<Lexeme>, a: nat, b: nat, c: nat, l: Tree, r: Tree, x: Lexeme)
    requires b == a + |Yield(l)| && c == b + 1 + |Yield(r)| && c < |ls|
    ensures Here(ls, a, Yield(l) + [x] + Yield(r)) <==> Here(ls, a, Yield(l)) && ls[b] == x && Here(ls, b + 1, Yield(r))
  {
    hide Here, Yield;
    HereBoth(ls, a, Yield(l) + [x], Yield(r));
    HereBoth(ls, a, Yield(l), [x]);
    HereOne(ls, b, x);
  }

  lemma ParenWritten(ls: seq<Lexeme>, a: nat, x: Tree)
    ensures Here(ls, a, Yield(Paren(x)))
      <==> (a + 2 + |Yield(x)| < |ls| && ls[a] == LPar && Here(ls, a + 1, Yield(x)) && ls[a + 1 + |Yield(x)|] == RPar)
  {
    hide Here;
    HereBoth(ls, a, [LPar] + Yield(x), [RPar]);
    HereBoth(ls, a, [LPar], Yield(x));
    HereOne(ls, a, LPar);
    HereOne(ls, a + 1 + |Yield(x)|, RPar);
  }

  lemma NotWritten(ls: seq<Lexeme>, a: nat, x: Tree)
    ensures Here(ls, a, Yield(NotTree(x))) <==> a + 1 < |ls| && ls[a] == Word(Not) && Here(ls, a + 1, Yield(x))
  {
    hide Here;
    HereBoth(ls, a, [Word(Not)], Yield(x));
    HereOne(ls, a, Word(Not));
    HereInside(ls, a + 1, Yield(x));
  }

  lemma {:induction false} PrimarySound(ls: seq<Lexeme>, pos: nat, depth: nat)
    requires Stream(ls) && pos < |ls| && depth <= MAX_DEPTH && PrimaryP(ls, pos, depth).Got?
    ensures var r := PrimaryP(ls, pos, depth); Written(ls, pos, r.next, r.tree, 3, depth)
    decreases |ls| - pos, 1
  {
    hide Here, IdentP, ConstLeftP, OrP;
    var r := PrimaryP(ls, pos, depth);
    if ls[pos] == LPar {
      OrSound(ls, pos + 1, depth + 1);
      ParenWritten(ls, pos, r.tree.inner);
    } else if ls[pos].Ident? {
      OtherName(ls, ls[pos].text, pos + 1);
      LeafExact(ls, pos, depth, r.tree.pred, r.next);
    } else {
      FlippedExact(ls, pos, depth, r.tree.val, r.tree.op, r.tree.ident, r.next);
    }
  }

  lemma {:induction false} NotSound(ls: seq<Lexeme>, pos: nat, depth: nat)
    requires Stream(ls) && pos < |ls| && depth <= MAX_DEPTH && NotP(ls, pos, depth).Got?
    ensures var r := NotP(ls, pos, depth); Written(ls, pos, r.next, r.tree, 2, depth)
    decreases |ls| - pos, 2
  {
    hide Here, PrimaryP;
    if ls[pos] == Word(Not) {
      PrimarySound(ls, pos + 1, depth);
      NotWritten(ls, pos, PrimaryP(ls, pos + 1, depth).tree);
    } else {
      PrimarySound(ls, pos, depth);
      FitsLower(PrimaryP(ls, pos, depth).tree, 3);
    }
  }

  lemma {:induction false} AndSound(ls: seq<Lexeme>, pos: nat, depth: nat)
    requires Stream(ls) && pos < |ls| && depth <= MAX_DEPTH && AndP(ls, pos, depth).Got?
    ensures var r := AndP(ls, pos, depth); Written(ls, pos, r.next, r.tree, 1, depth) && ls[r.next] != Word(And)
    decreases |ls| - pos, 4
  {
    hide Here, NotP, AndLoop;
    var r := NotP(ls, pos, depth);
    NotSound(ls, pos, depth);
    FitsLower(r.tree, 2);
    AndLoopSound(ls, pos, r.tree, r.next, depth);
  }

  lemma {:induction false} AndLoopSound(ls: seq<Lexeme>, start: nat, left: Tree, pos: nat, depth: nat)
    requires Stream(ls) && pos < |ls| && depth <= MAX_DEPTH && Written(ls, start, pos, left, 1, depth)
    requires AndLoop(ls, left, pos, depth).Got?
    ensures var r := AndLoop(ls, left, pos, depth);
            Written(ls, start, r.next, r.tree, 1, depth) && ls[r.next] != Word(And)
    decreases |ls| - pos, 3
  {
    hide Here, NotP;
    if ls[pos] == Word(And) {
      var r := NotP(ls, pos + 1, depth);
      NotSound(ls, pos + 1, depth);
      JoinWritten(ls, start, pos, r.next, left, r.tree, Word(And));
      AndLoopSound(ls, start, AndTree(left, r.tree), r.next, depth);
    }
  }

  lemma {:induction false} OrSound(ls: seq<Lexeme>, pos: nat, depth: nat)
    requires Stream(ls) && pos < |ls| && depth <= MAX_DEPTH && OrP(ls, pos, depth).Got?
    ensures var r := OrP(ls, pos, depth); Written(ls, pos, r.next, r.tree, 0, depth)
    decreases |ls| - pos, 6
  {
    hide Here, AndP, OrLoop;
    var r := AndP(ls, pos, depth);
    AndSound(ls, pos, depth);
    FitsLower(r.tree, 1);
    OrLoopSound(ls, pos, r.tree, r.next, depth);
  }

  lemma {:induction false} OrLoopSound(ls: seq<Lexeme>, start: nat, left: Tree, pos: nat, depth: nat)
    requires Stream(ls) && pos < |ls| && depth <= MAX_DEPTH && Written(ls, start, pos, left, 0, depth)
    requires OrLoop(ls, left, pos, depth).Got?
    ensures var r := OrLoop(ls, left, pos, depth); Written(ls, start, r.next, r.tree, 0, depth)
    decreases |ls| - pos, 5
  {
    hide Here, AndP;
    if ls[pos] == Word(Or) {
      var r := AndP(ls, pos + 1, depth);
      AndSound(ls, pos + 1, depth);
      JoinWritten(ls, start, pos, r.next, left, r.tree, Word(Or));
      OrLoopSound(ls, start, OrTree(left, r.tree), r.next, depth);
    }
  }

  // ----- and everything in the grammar is accepted -----

  lemma {:induction false} PrimaryComplete(ls: seq<Lexeme>, pos: nat, n: nat, t: Tree, depth: nat)
    requires Stream(ls) && Written(ls, pos, n, t, 3, depth)
    ensures pos < |ls| && PrimaryP(ls, pos, depth) == Got(t, n)
    decreases t, 1
  {
    hide Here, IdentP, ConstLeftP, OrP, AfterName;
    HereInside(ls, pos, Yield(t));
    match t
    case Leaf(p) => LeafExact(ls, pos, depth, p, n);
    case Flipped(c, o, id) => FlippedExact(ls, pos, depth, c, o, id, n);
    case Paren(x) =>
      ParenWritten(ls, pos, x);
      OrComplete(ls, pos + 1, n - 1, x, depth + 1);
  }

  lemma {:induction false} NotComplete(ls: seq<Lexeme>, pos: nat, n: nat, t: Tree, depth: nat)
    requires Stream(ls) && Written(ls, pos, n, t, 2, depth)
    ensures pos < |ls| && NotP(ls, pos, depth) == Got(t, n)
    decreases t, 2
  {
    hide Here, PrimaryP;
    if t.NotTree? {
      NotWritten(ls, pos, t.inner);
      PrimaryComplete(ls, pos + 1, n, t.inner, depth);
    } else {
      PrimaryComplete(ls, pos, n, t, depth);
      PrimaryStart(ls, pos, depth);
    }
  }

  /** No primary starts with NOT. */
  lemma PrimaryStart(ls: seq<Lexeme>, pos: nat, depth: nat)
    requires Stream(ls) && pos < |ls|
    ensures PrimaryP(ls, pos, depth).Got? ==> ls[pos] != Word(Not)
  {
  }

  /** The loop of parseAnd gets as far as `t`, with all of it read. */
  lemma {:induction false} AndReaches(ls: seq<Lexeme>, pos: nat, n: nat, t: Tree, depth: nat)
    requires Stream(ls) && Written(ls, pos, n, t, 1, depth)
    ensures pos < |ls| && n < |ls| && AndP(ls, pos, depth) == AndLoop(ls, t, n, depth)
    decreases t, 3
  {
    hide NotP;
    HereInside(ls, pos, Yield(t));
    if t.AndTree? {
      var b := pos + |Yield(t.left)|;
      JoinWritten(ls, pos, b, n, t.left, t.right, Word(And));
      hide Here;
      AndReaches(ls, pos, b, t.left, depth);
      NotComplete(ls, b + 1, n, t.right, depth);
    } else {
      hide AndLoop;
      NotComplete(ls, pos, n, t, depth);
    }
  }

  lemma {:induction false} AndComplete(ls: seq<Lexeme>, pos: nat, n: nat, t: Tree, depth: nat)
    requires Stream(ls) && Written(ls, pos, n, t, 1, depth) && n < |ls| && ls[n] != Word(And)
    ensures pos < |ls| && AndP(ls, pos, depth) == Got(t, n)
    decreases t, 4
  {
    hide Here, NotP;
    AndReaches(ls, pos, n, t, depth);
  }

  lemma {:induction false} OrReaches(ls: seq<Lexeme>, pos: nat, n: nat, t: Tree, depth: nat)
    requires Stream(ls) && Written(ls, pos, n, t, 0, depth) && n < |ls| && ls[n] != Word(And)
    ensures pos < |ls| && OrP(ls, pos, depth) == OrLoop(ls, t, n, depth)
    decreases t, 5
  {
    hide AndP;
    HereInside(ls, pos, Yield(t));
    if t.OrTree? {
      var b := pos + |Yield(t.left)|;
      JoinWritten(ls, pos, b, n, t.left, t.right, Word(Or));
      hide Here;
      OrReaches(ls, pos, b, t.left, depth);
      AndComplete(ls, b + 1, n, t.right, depth);
    } else {
      hide OrLoop;
      AndComplete(ls, pos, n, t, depth);
    }
  }

  lemma {:induction false} OrComplete(ls: seq<Lexeme>, pos: nat, n: nat, t: Tree, depth: nat)
    requires Stream(ls) && Written(ls, pos, n, t, 0, depth) && n < |ls| && ls[n] != Word(And) && ls[n] != Word(Or)
    ensures pos < |ls| && OrP(ls, pos, depth) == Got(t, n)
    decreases t, 6
  {
    hide Here, AndP;
    OrReaches(ls, pos, n, t, depth);
  }

  /**
   * The parser accepts a token stream exactly when it is one sentence of the grammar whose parentheses nest at most 16
   * deep, and then it finds that sentence's tree, which is the only one.
   */
  lemma ParseExact(ls: seq<Lexeme>, t: Tree)
    requires Stream(ls)
    ensures var parsed := exists n: nat :: ParseP(ls) == Got(t, n);
            parsed <==> Fits(t, 0) && Parens(t) <= 16 && ls == Yield(t) + [End]
  {
    hide OrP;
    var n := |Yield(t)|;
    if Fits(t, 0) && Parens(t) <= 16 && ls == Yield(t) + [End] {
      OrComplete(ls, 0, n, t, 0);
      assert ParseP(ls) == Got(t, n);
    }
    if k: nat :| ParseP(ls) == Got(t, k) {
      OrSound(ls, 0, 0);
      assert ls == ls[0..k] + [End];
    }
  }

  /** So no two trees have the same tokens, when neither nests too deep. */
  lemma Unambiguous(t: Tree, u: Tree)
    requires Fits(t, 0) && Fits(u, 0) && Parens(t) <= 16 && Parens(u) <= 16
    requires Yield(t) == Yield(u) && Stream(Yield(t) + [End])
    ensures t == u
  {
    ParseExact(Yield(t) + [End], t);
    ParseExact(Yield(t) + [End], u);
  }
}
