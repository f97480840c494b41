/**
 * The lexer of SQL92 filter expressions. A `char` stands for one byte of the expression, so columns are byte columns;
 * which decimal texts ParseFloat takes is a parameter.
 */
module SqlLex {
  datatype Keyword = And | Or | Not | Between | In | Is | Null | True | False

  datatype CmpOp = Eq | Ne | Gt | Ge | Lt | Le

  /** What a token is, without its place. */
  datatype Lexeme = End | Ident(text: string) | Number(text: string) | Text(text: string) | Word(word: Keyword)
    | Op(op: CmpOp) | LPar | RPar | Comma

  datatype Token = Token(lex: Lexeme, col: nat)

  datatype Why = BadNumber | BadChar | BadNotEqual | OpenString | TooDeep | WantClose | WantPredicate | TwoIdents
    | WantConst | WantNull | WantInOrBetween | WantAnd | WantOpen | EmptyList | WantCommaOrClose | WantIdent
    | WantComparison | NotAnIdent | WantEnd

  datatype Lexed = Toks(toks: seq<Token>) | Bad(col: nat, why: Why)

  function KeywordText(k: Keyword): string {
    match k
    case And => "AND"
    case Or => "OR"
    case Not => "NOT"
    case Between => "BETWEEN"
    case In => "IN"
    case Is => "IS"
    case Null => "NULL"
    case True => "TRUE"
    case False => "FALSE"
  }

  datatype Found = None | Some(word: Keyword)

  function KeywordOf(upper: string): Found {
    if upper == "AND" then Some(And)
    else if upper == "OR" then Some(Or)
    else if upper == "NOT" then Some(Not)
    else if upper == "BETWEEN" then Some(Between)
    else if upper == "IN" then Some(In)
    else if upper == "IS" then Some(Is)
    else if upper == "NULL" then Some(Null)
    else if upper == "TRUE" then Some(True)
    else if upper == "FALSE" then Some(False)
    else None
  }

  function OpText(o: CmpOp): string {
    match o
    case Eq => "="
    case Ne => "<>"
    case Gt => ">"
    case Ge => ">="
    case Lt => "<"
    case Le => "<="
  }

  predicate Space(c: char) {
    c == ' ' || c == '\t' || c == '\n' || c == '\r'
  }

  predicate Digit(c: char) {
    '0' <= c <= '9'
  }

  predicate NumberPart(c: char) {
    Digit(c) || c == '.'
  }

  predicate IdentStart(c: char) {
    c == '_' || 'a' <= c <= 'z' || 'A' <= c <= 'Z'
  }

  predicate IdentPart(c: char) {
    IdentStart(c) || Digit(c)
  }

  function UpperChar(c: char): char {
    if 'a' <= c <= 'z' then (c as int - 32) as char else c
  }

  function Upper(s: string): (u: string)
    ensures |u| == |s| && forall k :: 0 <= k < |s| ==> u[k] == UpperChar(s[k])
  {
    seq(|s|, k requires 0 <= k < |s| => UpperChar(s[k]))
  }

  /** The character classes, letter by letter. */
  lemma Alphabet(c: char)
    ensures Space(c) <==> c in " \t\n\r"
    ensures Digit(c) <==> c in "0123456789"
    ensures NumberPart(c) <==> c in "0123456789."
    ensures IdentStart(c) <==> c in "abcdefghijklmnopqrstuvwxyz" || c in "ABCDEFGHIJKLMNOPQRSTUVWXYZ" || c == '_'
    ensures IdentPart(c) <==> IdentStart(c) || c in "0123456789"
  {
    Letters(c);
  }

  lemma Letters(c: char)
    ensures 'a' <= c <= 'z' <==> c in "abcdefghijklmnopqrstuvwxyz"
    ensures 'A' <= c <= 'Z' <==> c in "ABCDEFGHIJKLMNOPQRSTUVWXYZ"
    ensures '0' <= c <= '9' <==> c in "0123456789"
  {
    RunOfChars('a', "abcdefghijklmnopqrstuvwxyz", c);
    RunOfChars('A', "ABCDEFGHIJKLMNOPQRSTUVWXYZ", c);
    RunOfChars('0', "0123456789", c);
  }

  lemma RunOfChars(first: char, s: string, c: char)
    requires forall k :: 0 <= k < |s| ==> s[k] as int == first as int + k
    ensures c in s <==> first as int <= c as int < first as int + |s|
  {
    if first as int <= c as int < first as int + |s| {
      assert s[c as int - first as int] == c;
    }
  }

  /** A word is a keyword in any mixture of cases, and upper case touches nothing but the 26 letters. */
  lemma AnyCase(w: string)
    ensures |Upper(w)| == |w|
    ensures forall k, n :: 0 <= k < |w| && 0 <= n < 26 ==>
              (w[k] == "abcdefghijklmnopqrstuvwxyz"[n] ==> Upper(w)[k] == "ABCDEFGHIJKLMNOPQRSTUVWXYZ"[n])
    ensures forall k :: 0 <= k < |w| && w[k] !in "abcdefghijklmnopqrstuvwxyz" ==> Upper(w)[k] == w[k]
    ensures KeywordOf(Upper(w)).Some? <==>
              Upper(w) in ["AND", "OR", "NOT", "BETWEEN", "IN", "IS", "NULL", "TRUE", "FALSE"]
  {
    forall k | 0 <= k < |w| && w[k] !in "abcdefghijklmnopqrstuvwxyz" ensures Upper(w)[k] == w[k] {
      Letters(w[k]);
    }
  }

  lemma Spelling()
    ensures KeywordText(And) == "AND" && KeywordText(Or) == "OR" && KeywordText(Not) == "NOT"
    ensures KeywordText(Between) == "BETWEEN" && KeywordText(In) == "IN" && KeywordText(Is) == "IS"
    ensures KeywordText(Null) == "NULL" && KeywordText(True) == "TRUE" && KeywordText(False) == "FALSE"
    ensures OpText(Eq) == "=" && OpText(Ne) == "<>" && OpText(Lt) == "<" && OpText(Le) == "<="
    ensures OpText(Gt) == ">" && OpText(Ge) == ">="
  {
  }

  /** Where the run of `part` characters that starts at `i` ends. */
  function RunEnd(s: string, i: nat, part: char -> bool): (e: nat)
    requires i <= |s|
    ensures i <= e <= |s| && (forall k :: i <= k < e ==> part(s[k])) && (e < |s| ==> !part(s[e]))
    decreases |s| - i
  {
    if i < |s| && part(s[i]) then RunEnd(s, i + 1, part) else i
  }

  datatype Scanned = Open | Closed(text: string, next: nat)

  /** The rest of a string constant, read from just after its opening quote or any byte of its content. */
  function ScanText(s: string, i: nat): (r: Scanned)
    requires i <= |s|
    ensures r.Closed? ==> i < r.next <= |s|
    decreases |s| - i
  {
    if i == |s| then Open
    else if s[i] == '\'' then
      if i + 1 < |s| && s[i + 1] == '\'' then Push('\'', ScanText(s, i + 2)) else Closed("", i + 1)
    else Push(s[i], ScanText(s, i + 1))
  }

  function Push(c: char, r: Scanned): Scanned {
    match r
    case Open => Open
    case Closed(t, n) => Closed([c] + t, n)
  }

  datatype Step = Skip(next: nat) | Take(lex: Lexeme, next: nat) | Stop(col: nat, why: Why)

  function NumberStep(s: string, start: nat, digits: nat, isFloat: string -> bool): Step
    requires start <= digits <= |s|
  {
    var e := RunEnd(s, digits, NumberPart);
    if isFloat(s[start..e]) then Take(Number(s[start..e]), e) else Stop(start + 1, BadNumber)
  }

  function WordStep(s: string, i: nat): Step
    requires i <= |s|
  {
    var e := RunEnd(s, i, IdentPart);
    match KeywordOf(Upper(s[i..e]))
    case Some(k) => Take(Word(k), e)
    case None => Take(Ident(s[i..e]), e)
  }

  /** What the lexer makes of the byte at `i`. */
  function StepAt(s: string, i: nat, isFloat: string -> bool): (st: Step)
    requires i < |s|
    ensures !st.Stop? ==> i < st.next <= |s|
    ensures st.Stop? ==> st.col == i + 1
  {
    var c := s[i];
    var d := if i + 1 < |s| then s[i + 1] else ' ';
    if Space(c) then Skip(i + 1)
    else if c == '(' then Take(LPar, i + 1)
    else if c == ')' then Take(RPar, i + 1)
    else if c == ',' then Take(Comma, i + 1)
    else if c == '=' then Take(Op(Eq), i + 1)
    else if c == '<' then
      if d == '=' then Take(Op(Le), i + 2) else if d == '>' then Take(Op(Ne), i + 2) else Take(Op(Lt), i + 1)
    else if c == '>' then
      if d == '=' then Take(Op(Ge), i + 2) else Take(Op(Gt), i + 1)
    else if c == '-' then
      if Digit(d) then NumberStep(s, i, i + 1, isFloat) else Stop(i + 1, BadChar)
    else if Digit(c) then NumberStep(s, i, i, isFloat)
    else if c == '\'' then
      match ScanText(s, i + 1)
      case Open => Stop(i + 1, OpenString)
      case Closed(t, n) => Take(Text(t), n)
    else if IdentStart(c) then WordStep(s, i)
    else if c == '!' && d == '=' then Stop(i + 1, BadNotEqual)
    else Stop(i + 1, BadChar)
  }

  function Prepend(toks: seq<Token>, r: Lexed): Lexed {
    match r
    case Toks(ts) => Toks(toks + ts)
    case Bad(_, _) => r
  }

  /** The tokens from byte `i` on. */
  function LexFrom(s: string, i: nat, isFloat: string -> bool): (r: Lexed)
    requires i <= |s|
    ensures r.Toks? ==> |r.toks| > 0
    decreases |s| - i
  {
    if i == |s| then Toks([Token(End, i + 1)])
    else
      match StepAt(s, i, isFloat)
      case Skip(n) => LexFrom(s, n, isFloat)
      case Take(l, n) => Prepend([Token(l, i + 1)], LexFrom(s, n, isFloat))
      case Stop(col, why) => Bad(col, why)
  }

  // ----- what a token sequence has to do with its text -----

  /** A string constant's content with its quotes doubled. */
  function Doubled(t: string): string {
    if t == "" then "" else (if t[0] == '\'' then "''" else [t[0]]) + Doubled(t[1..])
  }

  function Show(l: Lexeme): string {
    match l
    case End => ""
    case Ident(t) => t
    case Number(t) => t
    case Text(t) => "'" + Doubled(t) + "'"
    case Word(k) => KeywordText(k)
    case Op(o) => OpText(o)
    case LPar => "("
    case RPar => ")"
    case Comma => ","
  }

  /** `w` spells `l`: exactly, or for a keyword in any mix of cases. */
  predicate Spells(w: string, l: Lexeme) {
    if l.Word? then Upper(w) == KeywordText(l.word) else w == Show(l)
  }

  predicate NumberText(t: string) {
    var d := if |t| > 0 && t[0] == '-' then 1 else 0;
    |t| > d && Digit(t[d]) && forall k :: d <= k < |t| ==> NumberPart(t[k])
  }

  predicate IdentText(t: string) {
    |t| > 0 && IdentStart(t[0]) && (forall k :: 0 <= k < |t| ==> IdentPart(t[k])) && KeywordOf(Upper(t)) == None
  }

  /** A lexeme that some text stands for. */
  predicate Proper(l: Lexeme, isFloat: string -> bool) {
    match l
    case End => false
    case Ident(t) => IdentText(t)
    case Number(t) => NumberText(t) && isFloat(t)
    case _ => true
  }

  /** The token that ends at `e` could not have gone on. */
  predicate Longest(s: string, e: nat, l: Lexeme)
    requires e <= |s|
  {
    e < |s| ==>
      match l
      case Ident(_) => !IdentPart(s[e])
      case Word(_) => !IdentPart(s[e])
      case Number(_) => !NumberPart(s[e])
      case Text(_) => s[e] != '\''
      case Op(Lt) => s[e] != '=' && s[e] != '>'
      case Op(Gt) => s[e] != '='
      case _ => true
  }

  /** Bytes `j` to `e` are one token. */
  predicate Piece(s: string, j: nat, e: nat, l: Lexeme, isFloat: string -> bool) {
    j < e <= |s| && Proper(l, isFloat) && Spells(s[j..e], l) && Longest(s, e, l)
  }

  predicate Blank(s: string, i: nat, j: nat) {
    i <= j <= |s| && forall k :: i <= k < j ==> Space(s[k])
  }

  /**
   * From byte `i` on the text is made of these tokens: each spelled at its column and as long as it can be, nothing
   * but white space between them, and the end token last.
   */
  ghost predicate Tiles(s: string, i: nat, toks: seq<Token>, isFloat: string -> bool)
    decreases |toks|
  {
    && |toks| > 0 && toks[0].col > 0 && Blank(s, i, toks[0].col - 1)
    && if |toks| == 1 then toks[0] == Token(End, |s| + 1)
       else exists e :: Piece(s, toks[0].col - 1, e, toks[0].lex, isFloat) && Tiles(s, e, toks[1..], isFloat)
  }

  lemma {:induction false} ScanSpells(s: string, i: nat)
    requires i <= |s| && ScanText(s, i).Closed?
    ensures var r := ScanText(s, i); s[i..r.next] == Doubled(r.text) + "'" && (r.next < |s| ==> s[r.next] != '\'')
    decreases |s| - i
  {
    var r := ScanText(s, i);
    if s[i] == '\'' {
      if i + 1 < |s| && s[i + 1] == '\'' {
        ScanSpells(s, i + 2);
        assert r.text[1..] == ScanText(s, i + 2).text;
        assert s[i..r.next] == "''" + s[i + 2..r.next];
      }
    } else {
      ScanSpells(s, i + 1);
      assert r.text[1..] == ScanText(s, i + 1).text;
      assert s[i..r.next] == [s[i]] + s[i + 1..r.next];
    }
  }

  lemma KeywordSpelled(u: string)
    requires KeywordOf(u).Some?
    ensures KeywordText(KeywordOf(u).word) == u
  {
  }

  lemma WordPiece(s: string, i: nat, isFloat: string -> bool)
    requires i < |s| && IdentStart(s[i])
    ensures var st := WordStep(s, i); st.Take? && Piece(s, i, st.next, st.lex, isFloat)
  {
    var w := s[i..RunEnd(s, i, IdentPart)];
    hide RunEnd, Upper, KeywordText;
    if KeywordOf(Upper(w)).Some? {
      KeywordSpelled(Upper(w));
    }
  }

  lemma NumberPiece(s: string, i: nat, isFloat: string -> bool)
    requires i < |s| && StepAt(s, i, isFloat).Take? && (s[i] == '-' || Digit(s[i]))
    ensures var st := StepAt(s, i, isFloat); Piece(s, i, st.next, st.lex, isFloat)
  {
    hide ScanText, KeywordOf, Upper, KeywordText;
    assert s[i] == '-' ==> i + 1 < |s| && Digit(s[i + 1]);
  }

  lemma StepSpells(s: string, i: nat, isFloat: string -> bool)
    requires i < |s| && StepAt(s, i, isFloat).Take?
    ensures var st := StepAt(s, i, isFloat); Piece(s, i, st.next, st.lex, isFloat)
  {
    hide RunEnd, ScanText, KeywordOf, Upper, KeywordText, WordStep, NumberStep;
    var c := s[i];
    if c == '\'' {
      ScanSpells(s, i + 1);
      var n := StepAt(s, i, isFloat).next;
      assert s[i..n] == [c] + s[i + 1..n];
    } else if IdentStart(c) {
      WordPiece(s, i, isFloat);
    } else if c == '-' || Digit(c) {
      NumberPiece(s, i, isFloat);
    }
  }

  /** Lexing loses and adds nothing: the tokens tile the text, and every number is one ParseFloat takes. */
  lemma {:induction false} LexTiles(s: string, i: nat, from: nat, isFloat: string -> bool)
    requires Blank(s, from, i) && LexFrom(s, i, isFloat).Toks?
    ensures Tiles(s, from, LexFrom(s, i, isFloat).toks, isFloat)
    decreases |s| - i
  {
    if i < |s| {
      match StepAt(s, i, isFloat)
      case Skip(n) =>
        LexTiles(s, n, from, isFloat);
      case Take(l, n) =>
        StepSpells(s, i, isFloat);
        LexTiles(s, n, n, isFloat);
        var toks := LexFrom(s, i, isFloat).toks;
        assert toks[1..] == LexFrom(s, n, isFloat).toks;
    }
  }

  // ----- lexing what was printed -----

  function Lexemes(toks: seq<Token>): (ls: seq<Lexeme>)
    ensures |ls| == |toks| && forall k :: 0 <= k < |ls| ==> ls[k] == toks[k].lex
  {
    seq(|toks|, k requires 0 <= k < |toks| => toks[k].lex)
  }

  /** One space after every lexeme. */
  function Render(ls: seq<Lexeme>): string {
    if ls == [] then "" else Show(ls[0]) + " " + Render(ls[1..])
  }

  lemma {:induction false} RunEndIs(s: string, i: nat, e: nat, part: char -> bool)
    requires i <= e <= |s| && (forall k :: i <= k < e ==> part(s[k])) && (e < |s| ==> !part(s[e]))
    ensures RunEnd(s, i, part) == e
    decreases e - i
  {
    if i < e {
      RunEndIs(s, i + 1, e, part);
    }
  }

  lemma {:induction false} ScanDoubled(s: string, i: nat, e: nat, t: string)
    requires i <= e <= |s| && s[i..e] == Doubled(t) + "'" && (e < |s| ==> s[e] != '\'')
    ensures ScanText(s, i) == Closed(t, e)
    decreases |t|
  {
    var w := s[i..e];
    if t == "" {
      assert w[0] == s[i] && |w| == 1;
    } else {
      var d := if t[0] == '\'' then 2 else 1;
      assert w[d..] == Doubled(t[1..]) + "'";
      assert w[0] == s[i] && w[d - 1] == s[i + d - 1];
      assert s[i + d..e] == w[d..];
      ScanDoubled(s, i + d, e, t[1..]);
      assert [t[0]] + t[1..] == t;
    }
  }

  lemma KeywordUpper(k: Keyword, w: string)
    requires Upper(w) == KeywordText(k)
    ensures KeywordOf(Upper(w)) == Some(k) && |w| > 0 && forall j :: 0 <= j < |w| ==> IdentStart(w[j])
  {
    var t := KeywordText(k);
    forall j | 0 <= j < |w|
      ensures IdentStart(w[j])
    {
      assert 'A' <= t[j] <= 'Z';
      assert t[j] == UpperChar(w[j]);
    }
  }

  lemma WordTaken(s: string, j: nat, e: nat, l: Lexeme, isFloat: string -> bool)
    requires Piece(s, j, e, l, isFloat) && (l.Word? || l.Ident?)
    ensures StepAt(s, j, isFloat) == Take(l, e)
  {
    var w := s[j..e];
    if l.Word? {
      KeywordUpper(l.word, w);
    }
    assert w[0] == s[j] && IdentStart(w[0]);
    assert forall k :: j <= k < e ==> s[k] == w[k - j];
    RunEndIs(s, j, e, IdentPart);
  }

  lemma NumberTaken(s: string, j: nat, e: nat, l: Lexeme, isFloat: string -> bool)
    requires Piece(s, j, e, l, isFloat) && l.Number?
    ensures StepAt(s, j, isFloat) == Take(l, e)
  {
    var w := s[j..e];
    var d := if w[0] == '-' then 1 else 0;
    assert forall k :: j <= k < e ==> s[k] == w[k - j];
    assert Digit(s[j + d]);
    RunEndIs(s, j + d, e, NumberPart);
  }

  lemma TextTaken(s: string, j: nat, e: nat, t: string, isFloat: string -> bool)
    requires Piece(s, j, e, Text(t), isFloat)
    ensures StepAt(s, j, isFloat) == Take(Text(t), e)
  {
    hide RunEnd, ScanText, KeywordOf, Upper, Blank;
    var w := s[j..e];
    assert w[0] == s[j];
    assert s[j + 1..e] == w[1..] == Doubled(t) + "'";
    ScanDoubled(s, j + 1, e, t);
  }

  lemma MarkTaken(s: string, j: nat, e: nat, l: Lexeme, isFloat: string -> bool)
    requires Piece(s, j, e, l, isFloat) && (l == LPar || l == RPar || l == Comma)
    ensures StepAt(s, j, isFloat) == Take(l, e)
  {
    hide RunEnd, ScanText, KeywordOf, Upper, Blank;
    var w := s[j..e];
    assert w[0] == s[j] && |w| == e - j;
  }

  /** One token's bytes are taken as that token, no shorter and no longer. */
  lemma PieceTaken(s: string, j: nat, e: nat, l: Lexeme, isFloat: string -> bool)
    requires Piece(s, j, e, l, isFloat)
    ensures StepAt(s, j, isFloat) == Take(l, e)
  {
    hide StepAt, Spells, Longest;
    match l
    case Ident(_) => WordTaken(s, j, e, l, isFloat);
    case Word(_) => WordTaken(s, j, e, l, isFloat);
    case Number(_) => NumberTaken(s, j, e, l, isFloat);
    case Text(t) => TextTaken(s, j, e, t, isFloat);
    case Op(o) => OpTaken(s, j, e, o, isFloat);
    case End =>
    case _ => MarkTaken(s, j, e, l, isFloat);
  }

  lemma OpTaken(s: string, j: nat, e: nat, o: CmpOp, isFloat: string -> bool)
    requires Piece(s, j, e, Op(o), isFloat)
    ensures StepAt(s, j, isFloat) == Take(Op(o), e)
  {
    hide RunEnd, ScanText, KeywordOf, Upper, Proper, Blank;
    var w := s[j..e];
    assert w[0] == s[j] && |w| == e - j;
    assert |w| == 2 ==> w[1] == s[j + 1];
  }

  lemma {:induction false} BlankSkipped(s: string, i: nat, j: nat, isFloat: string -> bool)
    requires Blank(s, i, j)
    ensures LexFrom(s, i, isFloat) == LexFrom(s, j, isFloat)
    decreases j - i
  {
    if i < j {
      BlankSkipped(s, i + 1, j, isFloat);
    }
  }

  lemma BlankInside(s: string, i: nat, j: nat)
    requires Blank(s, i, j)
    ensures i <= j <= |s|
  {
  }

  /** The other half: tokens that tile the text are what the lexer returns, so a text has at most one such reading. */
  lemma {:induction false} TilesLex(s: string, i: nat, toks: seq<Token>, isFloat: string -> bool)
    requires Tiles(s, i, toks, isFloat)
    ensures i <= |s| && LexFrom(s, i, isFloat) == Toks(toks)
    decreases |toks|
  {
    hide StepAt, Piece, Blank;
    var j := toks[0].col - 1;
    BlankInside(s, i, j);
    BlankSkipped(s, i, j, isFloat);
    if |toks| == 1 {
      assert toks == [toks[0]];
    } else {
      var e :| Piece(s, j, e, toks[0].lex, isFloat) && Tiles(s, e, toks[1..], isFloat);
      PieceTaken(s, j, e, toks[0].lex, isFloat);
      TilesLex(s, e, toks[1..], isFloat);
      assert [toks[0]] + toks[1..] == toks;
    }
  }

  lemma KeywordIsUpper(k: Keyword)
    ensures Upper(KeywordText(k)) == KeywordText(k) && KeywordText(k) != ""
  {
  }

  lemma ShownTaken(s: string, i: nat, l: Lexeme, isFloat: string -> bool)
    requires Proper(l, isFloat) && i + |Show(l)| < |s| && s[i..i + |Show(l)|] == Show(l) && s[i + |Show(l)|] == ' '
    ensures StepAt(s, i, isFloat) == Take(l, i + |Show(l)|)
  {
    hide RunEnd, ScanText, StepAt, Upper, KeywordText;
    if l.Word? {
      KeywordIsUpper(l.word);
    }
    PieceTaken(s, i, i + |Show(l)|, l, isFloat);
  }

  lemma {:induction false} LexRenderedAt(s: string, i: nat, ls: seq<Lexeme>, isFloat: string -> bool)
    requires i <= |s| && s[i..] == Render(ls) && forall k :: 0 <= k < |ls| ==> Proper(ls[k], isFloat)
    ensures var r := LexFrom(s, i, isFloat); r.Toks? && Lexemes(r.toks) == ls + [End]
    decreases |ls|
  {
    hide StepAt, Show, Proper;
    if ls == [] {
      assert Lexemes([Token(End, i + 1)]) == [End];
    } else {
      var w := Show(ls[0]);
      var rest := Render(ls[1..]);
      assert s[i..] == w + " " + rest;
      var e := i + |w|;
      assert s[i..e] == s[i..][..|w|] == w;
      assert s[e] == s[i..][|w|] == ' ';
      assert s[e + 1..] == s[i..][|w| + 1..] == rest;
      ShownTaken(s, i, ls[0], isFloat);
      LexRenderedAt(s, e + 1, ls[1..], isFloat);
      LexedOnce(s, i, ls[0], e, isFloat);
      var ts := LexFrom(s, e + 1, isFloat).toks;
      assert Lexemes([Token(ls[0], i + 1)] + ts) == [ls[0]] + Lexemes(ts);
      assert [ls[0]] + (ls[1..] + [End]) == ls + [End];
    }
  }

  lemma LexedOnce(s: string, i: nat, l: Lexeme, e: nat, isFloat: string -> bool)
    requires i < e < |s| && s[e] == ' ' && StepAt(s, i, isFloat) == Take(l, e)
    ensures LexFrom(s, i, isFloat) == Prepend([Token(l, i + 1)], LexFrom(s, e + 1, isFloat))
  {
    assert Space(s[e]);
    BlankSkipped(s, e, e + 1, isFloat);
  }

  /** Printing any proper lexemes and lexing the text gives them back. */
  lemma LexRendered(ls: seq<Lexeme>, isFloat: string -> bool)
    requires forall k :: 0 <= k < |ls| ==> Proper(ls[k], isFloat)
    ensures var r := LexFrom(Render(ls), 0, isFloat); r.Toks? && Lexemes(r.toks) == ls + [End]
  {
    assert Render(ls)[0..] == Render(ls);
    LexRenderedAt(Render(ls), 0, ls, isFloat);
  }

  // ----- the lexer -----

  lemma PrependMore(toks: seq<Token>, t: Token, r: Lexed)
    ensures Prepend(toks, Prepend([t], r)) == Prepend(toks + [t], r)
  {
    if r.Toks? {
      assert toks + ([t] + r.toks) == toks + [t] + r.toks;
    }
  }

  method ScanRun(s: string, from: nat, part: char -> bool) returns (i: nat)
    requires from <= |s|
    ensures i == RunEnd(s, from, part)
  {
    i := from;
    while i < |s| && part(s[i])
      invariant from <= i <= |s| && RunEnd(s, from, part) == RunEnd(s, i, part)
    {
      i := i + 1;
    }
  }

  function PushAll(t: string, r: Scanned): Scanned {
    match r
    case Open => Open
    case Closed(u, n) => Closed(t + u, n)
  }

  method ReadText(s: string, from: nat) returns (r: Scanned)
    requires from <= |s|
    ensures r == ScanText(s, from)
  {
    var i, sb := from, "";
    while i < |s|
      invariant from <= i <= |s| && ScanText(s, from) == PushAll(sb, ScanText(s, i))
    {
      ghost var rest := ScanText(s, i);
      if s[i] == '\'' {
        if i + 1 < |s| && s[i + 1] == '\'' {
          PushOne(sb, '\'', ScanText(s, i + 2));
          sb := sb + ['\''];
          i := i + 2;
          continue;
        }
        return Closed(sb, i + 1);
      }
      PushOne(sb, s[i], ScanText(s, i + 1));
      sb := sb + [s[i]];
      i := i + 1;
    }
    return Open;
  }

  lemma PushOne(t: string, c: char, r: Scanned)
    ensures PushAll(t, Push(c, r)) == PushAll(t + [c], r)
  {
    if r.Closed? {
      assert t + ([c] + r.text) == t + [c] + r.text;
    }
  }

  /** The switch of lex: what starts at byte `i`. */
  method ReadOne(s: string, i: nat, isFloat: string -> bool) returns (st: Step)
    requires i < |s|
    ensures st == StepAt(s, i, isFloat)
  {
    hide RunEnd, ScanText, KeywordOf;
    var c := s[i];
    if Space(c) {
      return Skip(i + 1);
    } else if c == '(' {
      return Take(LPar, i + 1);
    } else if c == ')' {
      return Take(RPar, i + 1);
    } else if c == ',' {
      return Take(Comma, i + 1);
    } else if c == '=' {
      return Take(Op(Eq), i + 1);
    } else if c == '<' || c == '>' {
      if i + 1 < |s| && s[i + 1] == '=' {
        return Take(Op(if c == '<' then Le else Ge), i + 2);
      } else if c == '<' && i + 1 < |s| && s[i + 1] == '>' {
        return Take(Op(Ne), i + 2);
      }
      return Take(Op(if c == '<' then Lt else Gt), i + 1);
    } else if c == '-' {
      if i + 1 < |s| && Digit(s[i + 1]) {
        st := ReadNumber(s, i, i + 1, isFloat);
        return;
      }
      return Stop(i + 1, BadChar);
    } else if Digit(c) {
      st := ReadNumber(s, i, i, isFloat);
    } else if c == '\'' {
      var text := ReadText(s, i + 1);
      return if text.Open? then Stop(i + 1, OpenString) else Take(Text(text.text), text.next);
    } else if IdentStart(c) {
      var e := ScanRun(s, i, IdentPart);
      var word := KeywordOf(Upper(s[i..e]));
      return Take(if word.Some? then Word(word.word) else Ident(s[i..e]), e);
    } else if c == '!' && i + 1 < |s| && s[i + 1] == '=' {
      return Stop(i + 1, BadNotEqual);
    } else {
      return Stop(i + 1, BadChar);
    }
  }

  method ReadNumber(s: string, start: nat, digits: nat, isFloat: string -> bool) returns (st: Step)
    requires start <= digits <= |s|
    ensures st == NumberStep(s, start, digits, isFloat)
  {
    var e := ScanRun(s, digits, NumberPart);
    return if isFloat(s[start..e]) then Take(Number(s[start..e]), e) else Stop(start + 1, BadNumber);
  }

  /**
   * lex: one pass over the bytes. It succeeds exactly when some tokens tile the text, and returns those; a refusal
   * names a column of the text.
   */
  method Lex(s: string, isFloat: string -> bool) returns (r: Lexed)
    ensures r == LexFrom(s, 0, isFloat)
    ensures r.Toks? ==> Tiles(s, 0, r.toks, isFloat)
    ensures r.Bad? ==> 1 <= r.col <= |s| && forall toks :: !Tiles(s, 0, toks, isFloat)
  {
    hide StepAt, Tiles;
    var toks: seq<Token>, i := [], 0;
    while i < |s|
      invariant 0 <= i <= |s| && LexFrom(s, 0, isFloat) == Prepend(toks, LexFrom(s, i, isFloat))
    {
      var st := ReadOne(s, i, isFloat);
      match st
      case Skip(n) =>
        i := n;
      case Take(l, n) =>
        PrependMore(toks, Token(l, i + 1), LexFrom(s, n, isFloat));
        toks := toks + [Token(l, i + 1)];
        i := n;
      case Stop(col, why) =>
        NoTiles(s, isFloat);
        return Bad(col, why);
    }
    r := Toks(toks + [Token(End, |s| + 1)]);
    LexTiles(s, 0, 0, isFloat);
  }

  lemma NoTiles(s: string, isFloat: string -> bool)
    requires LexFrom(s, 0, isFloat).Bad?
    ensures forall toks :: !Tiles(s, 0, toks, isFloat)
  {
    forall toks | Tiles(s, 0, toks, isFloat)
      ensures false
    {
      TilesLex(s, 0, toks, isFloat);
    }
  }
}
