/** The printer and the parser against each other: printing a tree and parsing the
    text back gives the same tree, as long as no NOT sits directly under a NOT. The
    printer writes NOT without parentheses, so NOT (NOT x), which the parser
    accepts, prints as NOT NOT x, which it rejects. */
module RoundTrip {
  import opened Wrappers
  import opened Text
  import opened ExpressionTree
  import opened Tokenizer
  import opened TokenizerFacts
  import opened Parser
  import opened ParserFacts

  /** No NOT node has a NOT node as its child. */
  predicate SingleNots(e: Expr) {
    match e
    case Criteria(_, _) => true
    case And(l, r) => SingleNots(l) && SingleNots(r)
    case Or(l, r) => SingleNots(l) && SingleNots(r)
    case Not(c) => !c.Not? && SingleNots(c)
  }

  /** The trees whose printed text parses back to them. */
  predicate Reparsable(e: Expr) {
    ValuesOk(e) && SingleNots(e)
  }

  /** The tokens of the printed text of e, without the closing EOF. */
  function Tokens(e: Expr): seq<Token> {
    match e
    case Criteria(t, v) => LeafTokens(t, v)
    case And(l, r) => [OpenParen] + Tokens(l) + [AndToken] + Tokens(r) + [CloseParen]
    case Or(l, r) => [OpenParen] + Tokens(l) + [OrToken] + Tokens(r) + [CloseParen]
    case Not(c) => [NotToken] + Tokens(c)
  }

  /** w is written in s at p, character by character. */
  predicate StrAt(s: string, p: nat, w: string) {
    p + |w| <= |s| && forall j :: 0 <= j < |w| ==> s[p + j] == w[j]
  }

  lemma StrAtConcat(s: string, p: nat, a: string, b: string)
    requires StrAt(s, p, a + b)
    ensures StrAt(s, p, a) && StrAt(s, p + |a|, b)
  {
    forall j | 0 <= j < |a|
      ensures s[p + j] == a[j]
    {
      assert (a + b)[j] == a[j];
    }
    forall j | 0 <= j < |b|
      ensures s[p + |a| + j] == b[j]
    {
      assert s[p + (|a| + j)] == (a + b)[|a| + j];
    }
  }

  lemma StrAtChar(s: string, p: nat, c: char)
    requires StrAt(s, p, [c])
    ensures p < |s| && s[p] == c
  {
    assert s[p + 0] == [c][0];
  }

  lemma StrAtSlice(s: string, p: nat, w: string)
    requires StrAt(s, p, w)
    ensures s[p..p + |w|] == w
  {
    forall j | 0 <= j < |w|
      ensures s[p..p + |w|][j] == w[j]
    {
      assert s[p + j] == w[j];
    }
  }

  lemma PrependConcat(a: seq<Token>, b: seq<Token>, r: Result<seq<Token>, SyntaxError>)
    ensures PrependAll(a, PrependAll(b, r)) == PrependAll(a + b, r)
  {
    if r.Success? {
      assert a + (b + r.value) == (a + b) + r.value;
    }
  }

  /** The first double quote from i is at j when s[i..j] holds none. */
  lemma QuoteFromAt(s: string, i: nat, j: nat)
    requires i <= j < |s| && s[j] == '"'
    requires forall k :: i <= k < j ==> s[k] != '"'
    ensures QuoteFrom(s, i) == j
  {
  }

  /** A keyword spelled in upper case and followed by a space lexes to its token;
      q is the position after the space. */
  lemma LexWordSpace(s: string, p: nat, k: Keyword, q: nat)
    requires StrAt(s, p, KeywordWord(k) + " ") && q == p + |KeywordWord(k)| + 1
    ensures LexFrom(s, p) == PrependAll([KeywordToken(k)], LexFrom(s, q))
  {
    var w := KeywordWord(k);
    StrAtConcat(s, p, w, " ");
    StrAtChar(s, p + |w|, ' ');
    StrAtSlice(s, p, w);
    LexKeyword(s, p, k);
    LexSkipStep(s, p + |w|);
  }

  /** Where a quote-free v is written, no double quote occurs. */
  lemma NoQuoteIn(s: string, i: nat, v: string)
    requires StrAt(s, i, v) && '"' !in v
    ensures forall j :: i <= j < i + |v| ==> s[j] != '"'
  {
    forall j | i <= j < i + |v|
      ensures s[j] != '"'
    {
      assert s[i + (j - i)] == v[j - i];
    }
  }

  /** The parts of name + " \"" + v + "\"": the name and a space, the opening
      quote, the value, the closing quote. */
  lemma LeafTextParts(s: string, p: nat, w: string, v: string)
    requires StrAt(s, p, KeywordAndString(w, v))
    ensures var n := p + |w|;
            && n + 2 + |v| < |s| && StrAt(s, p, w + " ") && s[n + 1] == '"'
            && StrAt(s, n + 2, v) && s[n + 2 + |v|] == '"'
  {
    var n := p + |w|;
    var full := KeywordAndString(w, v);
    forall j | 0 <= j < |w| + 1 ensures s[p + j] == (w + " ")[j] {
      assert full[j] == (w + " ")[j];
    }
    forall j | 0 <= j < |v| ensures s[n + 2 + j] == v[j] {
      assert s[p + (|w| + 2 + j)] == full[|w| + 2 + j];
    }
    assert s[p + (|w| + 1)] == full[|w| + 1];
    assert s[p + (|w| + 2 + |v|)] == full[|w| + 2 + |v|];
  }

  /** The printed leaf lexes to the leaf's tokens; q is the position after it. */
  lemma LexPrintedLeaf(s: string, p: nat, t: CriteriaType, v: string, q: nat)
    requires '"' !in v && q == p + |Print(Criteria(t, v))|
    requires StrAt(s, p, Print(Criteria(t, v))) && WordEnds(s, q)
    ensures LexFrom(s, p) == PrependAll(LeafTokens(t, v), LexFrom(s, q))
  {
    if TakesNoValue(t) {
      StrAtSlice(s, p, CriteriaName(t));
      LexKeyword(s, p, CriteriaKeyword(t));
    } else {
      LexValuedLeaf(s, p, t, v, q);
    }
  }

  /** A quote-free value between double quotes lexes to one string token. */
  lemma LexQuotedValue(s: string, i: nat, v: string, q: nat)
    requires '"' !in v && i < |s| && s[i] == '"' && StrAt(s, i + 1, v)
    requires i + 1 + |v| < |s| && s[i + 1 + |v|] == '"' && q == i + 2 + |v|
    ensures LexFrom(s, i) == PrependAll([StringToken(v)], LexFrom(s, q))
  {
    NoQuoteIn(s, i + 1, v);
    QuoteFromAt(s, i + 1, i + 1 + |v|);
    StrAtSlice(s, i + 1, v);
    LexString(s, i);
  }

  /** A keyword, a space and a quoted value lex to the criteria token and the string. */
  lemma LexValuedLeaf(s: string, p: nat, t: CriteriaType, v: string, q: nat)
    requires '"' !in v && StrAt(s, p, KeywordAndString(CriteriaName(t), v))
    requires q == p + |CriteriaName(t)| + 3 + |v|
    ensures LexFrom(s, p) == PrependAll([CriteriaToken(t), StringToken(v)], LexFrom(s, q))
  {
    var w := CriteriaName(t);
    var m := p + |w| + 1;
    assert KeywordWord(CriteriaKeyword(t)) == w;
    LeafTextParts(s, p, w, v);
    LexWordSpace(s, p, CriteriaKeyword(t), m);
    LexQuotedValue(s, m, v, q);
    PrependPair(LexFrom(s, p), LexFrom(s, m), LexFrom(s, q), CriteriaToken(t), StringToken(v));
  }

  lemma PrependPair(x0: Result<seq<Token>, SyntaxError>, x1: Result<seq<Token>, SyntaxError>,
                    x2: Result<seq<Token>, SyntaxError>, a: Token, b: Token)
    requires x0 == PrependAll([a], x1) && x1 == PrependAll([b], x2)
    ensures x0 == PrependAll([a, b], x2)
  {
    PrependConcat([a], [b], x2);
    assert [a] + [b] == [a, b];
  }

  /** Print(e) written at p, and followed at q by what may end a word, lexes to
      Tokens(e) and then whatever follows q. */
  lemma {:induction false} LexPrinted(s: string, p: nat, e: Expr, q: nat)
    requires ValuesOk(e) && q == p + |Print(e)|
    requires StrAt(s, p, Print(e)) && WordEnds(s, q)
    ensures LexFrom(s, p) == PrependAll(Tokens(e), LexFrom(s, q))
    decreases e, 1
  {
    match e
    case Criteria(t, v) =>
      LexPrintedLeaf(s, p, t, v, q);
    case Not(c) =>
      LexPrintedNot(s, p, c, q);
    case And(l, r) =>
      LexPrintedBinary(s, p, l, r, true, q);
    case Or(l, r) =>
      LexPrintedBinary(s, p, l, r, false, q);
  }

  lemma {:induction false} LexPrintedNot(s: string, p: nat, c: Expr, q: nat)
    requires ValuesOk(c) && q == p + |Print(Not(c))|
    requires StrAt(s, p, Print(Not(c))) && WordEnds(s, q)
    ensures LexFrom(s, p) == PrependAll(Tokens(Not(c)), LexFrom(s, q))
    decreases Not(c), 0
  {
    var pc := Print(c);
    StrAtConcat(s, p, "NOT" + " ", pc);
    LexWordSpace(s, p, OperatorKeyword(NotOp), p + 4);
    LexPrinted(s, p + 4, c, q);
    PrependConcat([NotToken], Tokens(c), LexFrom(s, q));
    assert Tokens(Not(c)) == [NotToken] + Tokens(c);
  }

  lemma {:induction false} LexPrintedBinary(s: string, p: nat, l: Expr, r: Expr, conjunction: bool, q: nat)
    requires ValuesOk(l) && ValuesOk(r) && q == p + |Print(BinaryNode(l, r, conjunction))|
    requires StrAt(s, p, Print(BinaryNode(l, r, conjunction))) && WordEnds(s, q)
    ensures LexFrom(s, p) == PrependAll(Tokens(BinaryNode(l, r, conjunction)), LexFrom(s, q))
    decreases BinaryNode(l, r, conjunction), 0
  {
    var w := OperatorWord(BinaryOperator(conjunction));
    var a := p + 1 + |Print(l)|;
    var b := a + |w| + 2;
    var c := b + |Print(r)|;
    BinaryTextAt(s, p, l, r, conjunction, a, b, c, q);
    assert LexFrom(s, p + 1) == PrependAll(Tokens(l), LexFrom(s, a)) by {
      LexPrinted(s, p + 1, l, a);
    }
    assert LexFrom(s, b) == PrependAll(Tokens(r), LexFrom(s, c)) by {
      LexPrinted(s, b, r, c);
    }
    LexBinary(s, p, l, r, conjunction, a, b, c, q);
  }

  /** Where the operands, the operator word and the parentheses of a printed binary
      node sit in s, and that each operand is followed by what may end a word. */
  lemma BinaryTextAt(s: string, p: nat, l: Expr, r: Expr, conjunction: bool, a: nat, b: nat, c: nat, q: nat)
    requires q == p + |Print(BinaryNode(l, r, conjunction))| && StrAt(s, p, Print(BinaryNode(l, r, conjunction)))
    requires a == p + 1 + |Print(l)| && b == a + |OperatorWord(BinaryOperator(conjunction))| + 2
    requires c == b + |Print(r)|
    ensures c < |s| && q == c + 1
    ensures StrAt(s, p + 1, Print(l)) && WordEnds(s, a) && StrAt(s, b, Print(r)) && WordEnds(s, c)
    ensures s[p] == '(' && s[a] == ' ' && StrAt(s, a + 1, OperatorWord(BinaryOperator(conjunction)) + " ") && s[c] == ')'
  {
    PrintBinary(l, r, conjunction);
    BinaryTextParts(s, p, Print(l), OperatorWord(BinaryOperator(conjunction)), Print(r));
  }

  function BinaryNode(l: Expr, r: Expr, conjunction: bool): Expr {
    if conjunction then And(l, r) else Or(l, r)
  }

  function BinaryOperator(conjunction: bool): Operator {
    if conjunction then AndOp else OrOp
  }

  /** The printed binary node, spelled with its operator word. */
  lemma PrintBinary(l: Expr, r: Expr, conjunction: bool)
    ensures Print(BinaryNode(l, r, conjunction))
         == Parenthesised(Print(l), OperatorWord(BinaryOperator(conjunction)), Print(r))
  {
  }

  /** The parts of "(" + pl + " " + w + " " + pr + ")": the parenthesis, pl, a
      space, w and a space, pr, the closing parenthesis. */
  lemma BinaryTextParts(s: string, p: nat, pl: string, w: string, pr: string)
    requires StrAt(s, p, Parenthesised(pl, w, pr))
    ensures var a := p + 1 + |pl|;
            var c := a + |w| + 2 + |pr|;
            && c < |s| && s[p] == '(' && StrAt(s, p + 1, pl) && s[a] == ' '
            && StrAt(s, a + 1, w + " ") && StrAt(s, a + |w| + 2, pr) && s[c] == ')'
  {
    var a := p + 1 + |pl|;
    var full := Parenthesised(pl, w, pr);
    forall j | 0 <= j < |pl| ensures s[p + 1 + j] == pl[j] {
      assert s[p + (1 + j)] == full[1 + j];
    }
    forall j | 0 <= j < |w| + 1 ensures s[a + 1 + j] == (w + " ")[j] {
      assert s[p + (|pl| + 2 + j)] == full[|pl| + 2 + j];
    }
    forall j | 0 <= j < |pr| ensures s[a + |w| + 2 + j] == pr[j] {
      assert s[p + (|pl| + |w| + 3 + j)] == full[|pl| + |w| + 3 + j];
    }
    assert s[p + 0] == full[0];
    assert s[p + (1 + |pl|)] == full[1 + |pl|];
    assert s[p + (|pl| + |w| + 3 + |pr|)] == full[|pl| + |w| + 3 + |pr|];
  }

  /** The token sequence of a binary node assembled from the lexing steps. */
  lemma ComposeBinary(x0: Result<seq<Token>, SyntaxError>, x1: Result<seq<Token>, SyntaxError>,
                      xa: Result<seq<Token>, SyntaxError>, xb: Result<seq<Token>, SyntaxError>,
                      xc: Result<seq<Token>, SyntaxError>, xe: Result<seq<Token>, SyntaxError>,
                      tl: seq<Token>, opTok: Token, tr: seq<Token>)
    requires x0 == PrependAll([OpenParen], x1) && x1 == PrependAll(tl, xa)
    requires xa == PrependAll([opTok], xb) && xb == PrependAll(tr, xc)
    requires xc == PrependAll([CloseParen], xe)
    ensures x0 == PrependAll([OpenParen] + tl + [opTok] + tr + [CloseParen], xe)
  {
    PrependConcat(tr, [CloseParen], xe);
    PrependConcat([opTok], tr + [CloseParen], xe);
    PrependConcat(tl, [opTok] + (tr + [CloseParen]), xe);
    PrependConcat([OpenParen], tl + ([opTok] + (tr + [CloseParen])), xe);
    assert [OpenParen] + (tl + ([opTok] + (tr + [CloseParen]))) == [OpenParen] + tl + [opTok] + tr + [CloseParen];
  }

  /** A space, an operator keyword and a space lex to the operator's token. */
  lemma LexOperatorInfix(s: string, a: nat, op: Operator, b: nat)
    requires a < |s| && s[a] == ' ' && StrAt(s, a + 1, OperatorWord(op) + " ") && b == a + |OperatorWord(op)| + 2
    ensures LexFrom(s, a) == PrependAll([OperatorToken(op)], LexFrom(s, b))
  {
    LexSkipStep(s, a);
    LexWordSpace(s, a + 1, OperatorKeyword(op), b);
  }

  /** The lexing of "(l AND r)" or "(l OR r)" from the lexing of l and r. */
  lemma LexBinary(s: string, p: nat, l: Expr, r: Expr, conjunction: bool, a: nat, b: nat, c: nat, q: nat)
    requires a == p + 1 + |Print(l)| && b == a + |OperatorWord(BinaryOperator(conjunction))| + 2
    requires c == b + |Print(r)| && c < |s| && q == c + 1
    requires s[p] == '(' && s[a] == ' ' && StrAt(s, a + 1, OperatorWord(BinaryOperator(conjunction)) + " ") && s[c] == ')'
    requires LexFrom(s, p + 1) == PrependAll(Tokens(l), LexFrom(s, a))
    requires LexFrom(s, b) == PrependAll(Tokens(r), LexFrom(s, c))
    ensures LexFrom(s, p) == PrependAll(Tokens(BinaryNode(l, r, conjunction)), LexFrom(s, q))
  {
    var op := BinaryOperator(conjunction);
    LexParen(s, p);
    LexOperatorInfix(s, a, op, b);
    LexParen(s, c);
    ComposeBinary(LexFrom(s, p), LexFrom(s, p + 1), LexFrom(s, a), LexFrom(s, b), LexFrom(s, c), LexFrom(s, q),
                  Tokens(l), OperatorToken(op), Tokens(r));
  }

  /** ParsePrimaryExpression on "( ... )" whose contents parse up to a ")". */
  lemma PrimaryParen(toks: seq<Token>, p: nat, e: Expr, q: nat)
    requires p < |toks| && toks[p] == OpenParen && ParseOr(toks, p + 1) == Success((e, q))
    requires q < |toks| && toks[q] == CloseParen
    ensures ParsePrimary(toks, p) == Success((e, q + 1))
  {
  }

  /** "( l AND r )" or "( l OR r )" with NOT-level operands is a primary. */
  lemma PrimaryBinary(toks: seq<Token>, p: nat, l: Expr, q1: nat, r: Expr, q2: nat, conjunction: bool, q: nat)
    requires p < |toks| && toks[p] == OpenParen && ParseNot(toks, p + 1) == Success((l, q1))
    requires q1 < |toks| && toks[q1] == (if conjunction then AndToken else OrToken)
    requires ParseNot(toks, q1 + 1) == Success((r, q2))
    requires q2 < |toks| && toks[q2] == CloseParen && q == q2 + 1
    ensures ParsePrimary(toks, p) == Success((BinaryNode(l, r, conjunction), q))
  {
    AndFrom(toks, p + 1, l, q1);
    AndFrom(toks, q1 + 1, r, q2);
    AndTailOff(toks, r, q2);
    if conjunction {
      AndTailOn(toks, l, q1, r, q2);
      AndTailOff(toks, And(l, r), q2);
      OrFrom(toks, p + 1, And(l, r), q2);
      OrTailOff(toks, And(l, r), q2);
      PrimaryParen(toks, p, And(l, r), q2);
    } else {
      AndTailOff(toks, l, q1);
      OrFrom(toks, p + 1, l, q1);
      OrTailOn(toks, l, q1, r, q2);
      OrTailOff(toks, Or(l, r), q2);
      PrimaryParen(toks, p, Or(l, r), q2);
    }
  }

  /** The tokens of a reparsable tree that is not a NOT parse back as a primary;
      q is the position after them. */
  lemma {:induction false} ParsePrimaryPrinted(toks: seq<Token>, p: nat, e: Expr, q: nat)
    requires Reparsable(e) && !e.Not? && At(toks, p, Tokens(e)) && q == p + |Tokens(e)|
    ensures ParsePrimary(toks, p) == Success((e, q))
    decreases e, 1
  {
    match e
    case Criteria(t, v) =>
      ParseLeaf(toks, p, t, v);
    case And(l, r) =>
      ParseBinaryPrinted(toks, p, l, r, true, q);
    case Or(l, r) =>
      ParseBinaryPrinted(toks, p, l, r, false, q);
  }

  /** The parts of the tokens [OpenParen] + tl + [opTok] + tr + [CloseParen]. */
  lemma BinaryTokenParts(toks: seq<Token>, p: nat, tl: seq<Token>, opTok: Token, tr: seq<Token>)
    requires At(toks, p, [OpenParen] + tl + [opTok] + tr + [CloseParen])
    ensures var q1 := p + 1 + |tl|;
            var q2 := q1 + 1 + |tr|;
            && q2 < |toks| && toks[p] == OpenParen && At(toks, p + 1, tl)
            && toks[q1] == opTok && At(toks, q1 + 1, tr) && toks[q2] == CloseParen
  {
    var q1 := p + 1 + |tl|;
    AtConcat(toks, p, [OpenParen] + tl + [opTok] + tr, [CloseParen]);
    AtConcat(toks, p, [OpenParen] + tl + [opTok], tr);
    AtConcat(toks, p, [OpenParen] + tl, [opTok]);
    AtConcat(toks, p, [OpenParen], tl);
    AtHead(toks, p, [OpenParen]);
    AtHead(toks, q1, [opTok]);
    AtHead(toks, q1 + 1 + |tr|, [CloseParen]);
  }

  lemma {:induction false} ParseBinaryPrinted(toks: seq<Token>, p: nat, l: Expr, r: Expr, conjunction: bool, q: nat)
    requires Reparsable(l) && Reparsable(r)
    requires At(toks, p, Tokens(BinaryNode(l, r, conjunction))) && q == p + |Tokens(BinaryNode(l, r, conjunction))|
    ensures ParsePrimary(toks, p) == Success((BinaryNode(l, r, conjunction), q))
    decreases BinaryNode(l, r, conjunction), 0
  {
    var opTok := if conjunction then AndToken else OrToken;
    var tl, tr := Tokens(l), Tokens(r);
    assert Tokens(BinaryNode(l, r, conjunction)) == [OpenParen] + tl + [opTok] + tr + [CloseParen];
    var q1 := p + 1 + |tl|;
    var q2 := q1 + 1 + |tr|;
    BinaryTokenParts(toks, p, tl, opTok, tr);
    assert ParseNot(toks, p + 1) == Success((l, q1)) by {
      ParseNotPrinted(toks, p + 1, l, q1);
    }
    assert ParseNot(toks, q1 + 1) == Success((r, q2)) by {
      ParseNotPrinted(toks, q1 + 1, r, q2);
    }
    PrimaryBinary(toks, p, l, q1, r, q2, conjunction, q);
  }

  /** The tokens of a reparsable tree parse back at the NOT level. */
  lemma {:induction false} ParseNotPrinted(toks: seq<Token>, p: nat, e: Expr, q: nat)
    requires Reparsable(e) && At(toks, p, Tokens(e)) && q == p + |Tokens(e)|
    ensures ParseNot(toks, p) == Success((e, q))
    decreases e, 2
  {
    if e.Not? {
      var c := e.child;
      AtConcat(toks, p, [NotToken], Tokens(c));
      AtHead(toks, p, [NotToken]);
      ParsePrimaryPrinted(toks, p + 1, c, q);
    } else {
      assert Tokens(e)[0] != NotToken by {
        match e
        case Criteria(t, v) =>
        case And(l, r) =>
        case Or(l, r) =>
      }
      AtHead(toks, p, Tokens(e));
      ParsePrimaryPrinted(toks, p, e, q);
    }
  }

  /** The printed text of a tree tokenizes to its tokens and EOF. */
  lemma LexPrintedText(e: Expr)
    requires ValuesOk(e)
    ensures Lex(Print(e)) == Success(Tokens(e) + [EOF])
  {
    var s := Print(e);
    assert StrAt(s, 0, s);
    LexPrinted(s, 0, e, |s|);
  }

  /** Printing then parsing gives back the tree, when no NOT is directly under a NOT
      and the values are ones the tokenizer can deliver. */
  lemma PrintThenParse(e: Expr)
    requires Reparsable(e)
    ensures ParseText(Print(e)) == Success(e)
  {
    LexPrintedText(e);
    var toks := Tokens(e) + [EOF];
    var n := |Tokens(e)|;
    AtOfConcat([], Tokens(e), [EOF]);
    assert [] + Tokens(e) + [EOF] == toks;
    ParseNotPrinted(toks, 0, e, n);
    assert toks[n] == EOF;
    AndFrom(toks, 0, e, n);
    AndTailOff(toks, e, n);
    OrFrom(toks, 0, e, n);
    OrTailOff(toks, e, n);
  }

  /** A tree the parser produced reparses from its printed text, unless it holds a
      NOT directly under a NOT. */
  lemma ParsedTreeReprints(s: string)
    requires ParseText(s).Success? && SingleNots(ParseText(s).value)
    ensures ParseText(Print(ParseText(s).value)) == ParseText(s)
  {
    ParsedValuesOk(s);
    PrintThenParse(ParseText(s).value);
  }

  /** The proviso is needed: a double negation prints as NOT NOT ..., which the
      parser rejects at the second NOT. */
  lemma DoubleNegationDoesNotReparse(c: Expr)
    requires ValuesOk(c)
    ensures ParseText(Print(Not(Not(c)))) == Failure(UnexpectedToken(NotToken))
  {
    var e := Not(Not(c));
    LexPrintedText(e);
    var toks := Tokens(e) + [EOF];
    assert toks[0] == NotToken && toks[1] == NotToken;
    NotNotRejected(toks, 0);
  }

  /** The parts of "NOT (" + inner + ")". */
  lemma NegatedGroupParts(s: string, inner: string)
    requires s == "NOT (" + inner + ")"
    ensures |s| == 6 + |inner| && StrAt(s, 0, "NOT" + " ") && s[4] == '('
    ensures StrAt(s, 5, inner) && s[5 + |inner|] == ')'
  {
    forall j | 0 <= j < 4 ensures s[0 + j] == ("NOT" + " ")[j] {
    }
    forall j | 0 <= j < |inner| ensures s[5 + j] == inner[j] {
    }
  }

  lemma ComposeNegatedGroup(x0: Result<seq<Token>, SyntaxError>, x1: Result<seq<Token>, SyntaxError>,
                            x2: Result<seq<Token>, SyntaxError>, x3: Result<seq<Token>, SyntaxError>,
                            x4: Result<seq<Token>, SyntaxError>, tn: seq<Token>)
    requires x0 == PrependAll([NotToken], x1) && x1 == PrependAll([OpenParen], x2)
    requires x2 == PrependAll(tn, x3) && x3 == PrependAll([CloseParen], x4)
    ensures x0 == PrependAll([NotToken, OpenParen] + tn + [CloseParen], x4)
  {
    PrependConcat(tn, [CloseParen], x4);
    PrependConcat([OpenParen], tn + [CloseParen], x4);
    PrependConcat([NotToken], [OpenParen] + (tn + [CloseParen]), x4);
    assert [NotToken] + ([OpenParen] + (tn + [CloseParen])) == [NotToken, OpenParen] + tn + [CloseParen];
  }

  /** "NOT (" + Print(Not(c)) + ")" tokenizes to NOT, "(", the tokens of Not(c), ")"
      and EOF. */
  lemma LexNegatedGroup(c: Expr)
    requires ValuesOk(c)
    ensures Lex("NOT (" + Print(Not(c)) + ")") == Success([NotToken, OpenParen] + Tokens(Not(c)) + [CloseParen] + [EOF])
  {
    var inner := Print(Not(c));
    var s := "NOT (" + inner + ")";
    var m := 5 + |inner|;
    assert |s| == m + 1 by {
      NegatedGroupParts(s, inner);
    }
    assert LexFrom(s, 0) == PrependAll([NotToken], LexFrom(s, 4)) by {
      NegatedGroupParts(s, inner);
      LexWordSpace(s, 0, OperatorKeyword(NotOp), 4);
    }
    assert LexFrom(s, 4) == PrependAll([OpenParen], LexFrom(s, 5)) by {
      NegatedGroupParts(s, inner);
      LexParen(s, 4);
    }
    assert LexFrom(s, 5) == PrependAll(Tokens(Not(c)), LexFrom(s, m)) by {
      NegatedGroupParts(s, inner);
      LexPrinted(s, 5, Not(c), m);
    }
    assert LexFrom(s, m) == PrependAll([CloseParen], LexFrom(s, m + 1)) by {
      NegatedGroupParts(s, inner);
      LexParen(s, m);
    }
    ComposeNegatedGroup(LexFrom(s, 0), LexFrom(s, 4), LexFrom(s, 5), LexFrom(s, m), LexFrom(s, m + 1), Tokens(Not(c)));
  }

  /** NOT ( NOT ... ) parses as a double negation. */
  lemma ParseNegatedGroup(toks: seq<Token>, c: Expr)
    requires Reparsable(c) && !c.Not?
    requires toks == [NotToken, OpenParen] + Tokens(Not(c)) + [CloseParen] + [EOF]
    ensures ParseOr(toks, 0) == Success((Not(Not(c)), |toks| - 1))
  {
    var tn := Tokens(Not(c));
    var q := 2 + |tn|;
    AtOfConcat([NotToken, OpenParen], tn, [CloseParen, EOF]);
    assert toks == [NotToken, OpenParen] + tn + [CloseParen, EOF];
    assert toks[q] == CloseParen && toks[q + 1] == EOF && |toks| == q + 2;
    assert ParseNot(toks, 2) == Success((Not(c), q)) by {
      ParseNotPrinted(toks, 2, Not(c), q);
    }
    assert ParseOr(toks, 2) == Success((Not(c), q)) by {
      AndFrom(toks, 2, Not(c), q);
      AndTailOff(toks, Not(c), q);
      OrFrom(toks, 2, Not(c), q);
      OrTailOff(toks, Not(c), q);
    }
    assert ParseNot(toks, 0) == Success((Not(Not(c)), q + 1)) by {
      PrimaryParen(toks, 1, Not(c), q);
    }
    AndFrom(toks, 0, Not(Not(c)), q + 1);
    AndTailOff(toks, Not(Not(c)), q + 1);
    OrFrom(toks, 0, Not(Not(c)), q + 1);
    OrTailOff(toks, Not(Not(c)), q + 1);
  }

  /** And the parser does build double negations, from NOT (NOT ...). */
  lemma DoubleNegationParses(c: Expr)
    requires Reparsable(c) && !c.Not?
    ensures ParseText("NOT (" + Print(Not(c)) + ")") == Success(Not(Not(c)))
  {
    LexNegatedGroup(c);
    ParseNegatedGroup([NotToken, OpenParen] + Tokens(Not(c)) + [CloseParen] + [EOF], c);
  }
}
