/** The tokenizer of the rule-expression language: whole-word, case-insensitive
    operators and criteria keywords, parentheses, and double-quoted string literals
    without escapes, ending in an EOF token. */
module Tokenizer {
  import opened Wrappers
  import opened Text
  import opened ExpressionTree

  datatype Token =
    | CriteriaToken(criteriaType: CriteriaType)
    | StringToken(value: string)
    | AndToken
    | OrToken
    | NotToken
    | OpenParen
    | CloseParen
    | EOF

  /** TokenType.ToString(), as "Unexpected token: ..." reports it. */
  function TokenTypeName(t: Token): string {
    match t
    case CriteriaToken(_) => "Criteria"
    case StringToken(_) => "String"
    case AndToken => "And"
    case OrToken => "Or"
    case NotToken => "Not"
    case OpenParen => "OpenParen"
    case CloseParen => "CloseParen"
    case EOF => "EOF"
  }

  /** The exceptions the tokenizer and the parser throw. */
  datatype SyntaxError =
    | UnterminatedString
    | UnexpectedCharacter(position: nat, c: char)
    | UnexpectedEnd
    | MissingClosingParenthesis
    | ExpectedString(after: CriteriaType)
    | UnexpectedToken(token: Token)

  /** The exception's Message. */
  function Message(e: SyntaxError): string {
    match e
    case UnterminatedString => "Unterminated string literal"
    case UnexpectedCharacter(p, c) => "Unexpected character at position " + NatToString(p) + ": " + [c]
    case UnexpectedEnd => "Unexpected end of expression"
    case MissingClosingParenthesis => "Missing closing parenthesis"
    case ExpectedString(t) => "Expected string after " + CriteriaName(t)
    case UnexpectedToken(t) => "Unexpected token: " + TokenTypeName(t)
  }

  datatype Operator = AndOp | OrOp | NotOp

  function OperatorWord(op: Operator): string {
    match op
    case AndOp => "AND"
    case OrOp => "OR"
    case NotOp => "NOT"
  }

  function OperatorToken(op: Operator): Token {
    match op
    case AndOp => AndToken
    case OrOp => OrToken
    case NotOp => NotToken
  }

  /** A word that ends at q is a whole word: q is the end of the input or holds
      whitespace or a parenthesis. */
  predicate WordEnds(s: string, q: nat)
    requires q <= |s|
  {
    q == |s| || IsWhiteSpace(s[q]) || s[q] == '(' || s[q] == ')'
  }

  /** `word` is written at pos, in any letter case, as a whole word. */
  predicate MatchesWord(s: string, pos: nat, word: string) {
    && pos + |word| <= |s|
    && EqualsIgnoreCase(s[pos..pos + |word|], word)
    && WordEnds(s, pos + |word|)
  }

  /** A keyword match ends after pos at a word boundary and yields an operator or a
      criteria token. */
  predicate KeywordResult(s: string, pos: nat, r: Option<(Token, nat)>) {
    r.Some? ==>
      && pos < r.value.1 <= |s| && WordEnds(s, r.value.1)
      && (r.value.0.AndToken? || r.value.0.OrToken? || r.value.0.NotToken? || r.value.0.CriteriaToken?)
  }

  /** TryMatchOperator: on a match, the operator's token and the position after it. */
  function TryMatchOperator(s: string, pos: nat, op: Operator): (r: Option<(Token, nat)>)
    ensures KeywordResult(s, pos, r)
    ensures r.Some? <==> MatchesWord(s, pos, OperatorWord(op))
    ensures r.Some? ==> r.value == (OperatorToken(op), pos + |OperatorWord(op)|)
  {
    if MatchesWord(s, pos, OperatorWord(op)) then Some((OperatorToken(op), pos + |OperatorWord(op)|))
    else None
  }

  /** TryMatchCriteria: on a match, the criteria token and the position after it. */
  function TryMatchCriteria(s: string, pos: nat, c: CriteriaType): (r: Option<(Token, nat)>)
    ensures KeywordResult(s, pos, r)
    ensures r.Some? <==> MatchesWord(s, pos, CriteriaName(c))
    ensures r.Some? ==> r.value == (CriteriaToken(c), pos + |CriteriaName(c)|)
  {
    if MatchesWord(s, pos, CriteriaName(c)) then Some((CriteriaToken(c), pos + |CriteriaName(c)|))
    else None
  }

  datatype Keyword = OperatorKeyword(op: Operator) | CriteriaKeyword(criteria: CriteriaType)

  /** The keywords in the order the tokenizer tries them: the operators AND, OR,
      NOT, then the criteria TITLE, GENRE, STUDIO, ACTOR, DIRECTOR, MOVIE, SHOW. */
  const KeywordOrder: seq<Keyword> := [
    OperatorKeyword(AndOp), OperatorKeyword(OrOp), OperatorKeyword(NotOp),
    CriteriaKeyword(Title), CriteriaKeyword(Genre), CriteriaKeyword(Studio), CriteriaKeyword(Actor),
    CriteriaKeyword(Director), CriteriaKeyword(Movie), CriteriaKeyword(Show)]

  function KeywordWord(k: Keyword): string {
    match k
    case OperatorKeyword(op) => OperatorWord(op)
    case CriteriaKeyword(c) => CriteriaName(c)
  }

  function TryMatchKeyword(s: string, pos: nat, k: Keyword): (r: Option<(Token, nat)>)
    ensures KeywordResult(s, pos, r)
  {
    match k
    case OperatorKeyword(op) => TryMatchOperator(s, pos, op)
    case CriteriaKeyword(c) => TryMatchCriteria(s, pos, c)
  }

  /** The first keyword of kws written at pos as a whole word. */
  function MatchFirst(s: string, pos: nat, kws: seq<Keyword>): (r: Option<(Token, nat)>)
    ensures KeywordResult(s, pos, r)
  {
    if kws == [] then None
    else
      var m := TryMatchKeyword(s, pos, kws[0]);
      if m.Some? then m else MatchFirst(s, pos, kws[1..])
  }

  /** The keyword tests of one tokenizer step, in order; the first match wins. */
  function MatchKeyword(s: string, pos: nat): (r: Option<(Token, nat)>)
    ensures KeywordResult(s, pos, r)
  {
    MatchFirst(s, pos, KeywordOrder)
  }

  /** The first double quote at or after i, or |s| when there is none. */
  function QuoteFrom(s: string, i: nat): (q: nat)
    requires i <= |s|
    ensures i <= q <= |s|
    ensures q < |s| ==> s[q] == '"'
    ensures forall j :: i <= j < q ==> s[j] != '"'
    decreases |s| - i
  {
    if i == |s| || s[i] == '"' then i else QuoteFrom(s, i + 1)
  }

  /** One token starting at a non-whitespace position: a keyword, a parenthesis, or
      a string literal running to the next double quote. */
  function ScanToken(s: string, pos: nat): (r: Result<(Token, nat), SyntaxError>)
    requires pos < |s|
    ensures r.Success? ==> pos < r.value.1 <= |s|
    ensures r.Success? ==> !r.value.0.EOF?
    ensures r.Success? && r.value.0.StringToken? ==> '"' !in r.value.0.value
  {
    var kw := MatchKeyword(s, pos);
    if kw.Some? then Success(kw.value)
    else if s[pos] == '(' then Success((OpenParen, pos + 1))
    else if s[pos] == ')' then Success((CloseParen, pos + 1))
    else if s[pos] == '"' then
      var close := QuoteFrom(s, pos + 1);
      if close >= |s| then Failure(UnterminatedString)
      else Success((StringToken(s[pos + 1..close]), close + 1))
    else Failure(UnexpectedCharacter(pos, s[pos]))
  }

  /** A token stream ends in EOF, has no other EOF, and no string value holds a quote. */
  predicate WellTerminated(ts: seq<Token>) {
    && |ts| > 0 && ts[|ts| - 1] == EOF
    && (forall i :: 0 <= i < |ts| - 1 ==> ts[i] != EOF)
    && (forall i :: 0 <= i < |ts| && ts[i].StringToken? ==> '"' !in ts[i].value)
  }

  /** prefix placed in front of a successful result; failures pass through. */
  function PrependAll(prefix: seq<Token>, r: Result<seq<Token>, SyntaxError>): Result<seq<Token>, SyntaxError> {
    if r.Success? then Success(prefix + r.value) else r
  }

  /** The tokens of s[pos..]: whitespace is skipped and produces nothing. */
  function LexFrom(s: string, pos: nat): (r: Result<seq<Token>, SyntaxError>)
    requires pos <= |s|
    decreases |s| - pos
  {
    if pos == |s| then Success([EOF])
    else if IsWhiteSpace(s[pos]) then LexFrom(s, pos + 1)
    else
      var st := ScanToken(s, pos);
      if st.Failure? then Failure(st.error)
      else PrependAll([st.value.0], LexFrom(s, st.value.1))
  }

  function Lex(s: string): Result<seq<Token>, SyntaxError> {
    LexFrom(s, 0)
  }

  /** A successful tokenization ends in its only EOF, and its string values hold no
      double quote. */
  lemma {:induction false} LexWellTerminated(s: string, pos: nat)
    requires pos <= |s|
    ensures LexFrom(s, pos).Success? ==> WellTerminated(LexFrom(s, pos).value)
    decreases |s| - pos
  {
    if pos == |s| {
    } else if IsWhiteSpace(s[pos]) {
      LexWellTerminated(s, pos + 1);
    } else {
      var st := ScanToken(s, pos);
      if st.Success? {
        LexWellTerminated(s, st.value.1);
        var rest := LexFrom(s, st.value.1);
        if rest.Success? {
          assert ([st.value.0] + rest.value)[1..] == rest.value;
        }
      }
    }
  }

  /** TokenizeExpression: the loop over the input, skipping whitespace and appending
      one token per step, then the closing EOF. */
  method TokenizeExpression(expression: string) returns (r: Result<seq<Token>, SyntaxError>)
    ensures r == Lex(expression)
  {
    var tokens: seq<Token> := [];
    var position: nat := 0;
    assert Lex(expression).Success? ==> [] + Lex(expression).value == Lex(expression).value;
    while position < |expression|
      invariant position <= |expression|
      invariant Lex(expression) == PrependAll(tokens, LexFrom(expression, position))
      decreases |expression| - position
    {
      position := SkipWhiteSpace(expression, position);
      if position >= |expression| {
        break;
      }
      var keyword := MatchKeyword(expression, position);
      if keyword.Some? {
        LexKeywordStep(expression, position, tokens);
        tokens := tokens + [keyword.value.0];
        position := keyword.value.1;
        continue;
      }
      if expression[position] == '(' || expression[position] == ')' {
        var paren := if expression[position] == '(' then OpenParen else CloseParen;
        LexParenStep(expression, position, tokens);
        tokens := tokens + [paren];
        position := position + 1;
        continue;
      }
      if expression[position] == '"' {
        LexStringStep(expression, position, tokens);
        var startPos := position + 1;
        position := FindClosingQuote(expression, startPos);
        if position >= |expression| {
          return Failure(UnterminatedString);
        }
        var value := expression[startPos..position];
        tokens := tokens + [StringToken(value)];
        position := position + 1;
        continue;
      }
      LexOtherStep(expression, position, tokens);
      return Failure(UnexpectedCharacter(position, expression[position]));
    }
    tokens := tokens + [EOF];
    return Success(tokens);
  }

  /** The whitespace-skipping loop at the head of each round: the first position from
      `from` on that is not whitespace, or the end; lexing from there gives the same
      result. */
  method SkipWhiteSpace(expression: string, from: nat) returns (position: nat)
    requires from <= |expression|
    ensures from <= position <= |expression|
    ensures position < |expression| ==> !IsWhiteSpace(expression[position])
    ensures LexFrom(expression, position) == LexFrom(expression, from)
  {
    position := from;
    while position < |expression| && IsWhiteSpace(expression[position])
      invariant from <= position <= |expression|
      invariant LexFrom(expression, position) == LexFrom(expression, from)
      decreases |expression| - position
    {
      LexSkipStep(expression, position);
      position := position + 1;
    }
  }

  /** The scan for the closing quote of a string literal that opened just before
      startPos: the first double quote from startPos on, or the end of the input. */
  method FindClosingQuote(expression: string, startPos: nat) returns (position: nat)
    requires startPos <= |expression|
    ensures position == QuoteFrom(expression, startPos)
  {
    position := startPos;
    while position < |expression| && expression[position] != '"'
      invariant startPos <= position <= |expression|
      invariant QuoteFrom(expression, startPos) == QuoteFrom(expression, position)
      decreases |expression| - position
    {
      position := position + 1;
    }
  }

  lemma PrependStep(tokens: seq<Token>, t: Token, rest: Result<seq<Token>, SyntaxError>)
    ensures PrependAll(tokens, PrependAll([t], rest)) == PrependAll(tokens + [t], rest)
  {
    if rest.Success? {
      assert tokens + ([t] + rest.value) == (tokens + [t]) + rest.value;
    }
  }

  lemma LexSkipStep(s: string, p: nat)
    requires p < |s| && IsWhiteSpace(s[p])
    ensures LexFrom(s, p) == LexFrom(s, p + 1)
  {
  }

  lemma LexKeywordStep(s: string, p: nat, tokens: seq<Token>)
    requires p < |s| && !IsWhiteSpace(s[p]) && MatchKeyword(s, p).Some?
    ensures var kw := MatchKeyword(s, p).value;
            PrependAll(tokens, LexFrom(s, p)) == PrependAll(tokens + [kw.0], LexFrom(s, kw.1))
  {
    var kw := MatchKeyword(s, p).value;
    assert ScanToken(s, p) == Success(kw);
    PrependStep(tokens, kw.0, LexFrom(s, kw.1));
  }

  lemma LexParenStep(s: string, p: nat, tokens: seq<Token>)
    requires p < |s| && !IsWhiteSpace(s[p]) && MatchKeyword(s, p).None?
    requires s[p] == '(' || s[p] == ')'
    ensures var t := if s[p] == '(' then OpenParen else CloseParen;
            PrependAll(tokens, LexFrom(s, p)) == PrependAll(tokens + [t], LexFrom(s, p + 1))
  {
    var t := if s[p] == '(' then OpenParen else CloseParen;
    assert ScanToken(s, p) == Success((t, p + 1));
    PrependStep(tokens, t, LexFrom(s, p + 1));
  }

  lemma LexStringStep(s: string, p: nat, tokens: seq<Token>)
    requires p < |s| && s[p] == '"' && MatchKeyword(s, p).None?
    ensures var q := QuoteFrom(s, p + 1);
            && (q == |s| ==> PrependAll(tokens, LexFrom(s, p)) == Failure(UnterminatedString))
            && (q < |s| ==> PrependAll(tokens, LexFrom(s, p))
                             == PrependAll(tokens + [StringToken(s[p + 1..q])], LexFrom(s, q + 1)))
  {
    var q := QuoteFrom(s, p + 1);
    if q < |s| {
      assert ScanToken(s, p) == Success((StringToken(s[p + 1..q]), q + 1));
      PrependStep(tokens, StringToken(s[p + 1..q]), LexFrom(s, q + 1));
    }
  }

  lemma LexOtherStep(s: string, p: nat, tokens: seq<Token>)
    requires p < |s| && !IsWhiteSpace(s[p]) && MatchKeyword(s, p).None?
    requires s[p] != '(' && s[p] != ')' && s[p] != '"'
    ensures PrependAll(tokens, LexFrom(s, p)) == Failure(UnexpectedCharacter(p, s[p]))
  {
  }
}

module TokenizerFacts {
  import opened Wrappers
  import opened Text
  import opened ExpressionTree
  import opened Tokenizer

  function KeywordToken(k: Keyword): Token {
    match k
    case OperatorKeyword(op) => OperatorToken(op)
    case CriteriaKeyword(c) => CriteriaToken(c)
  }

  lemma KeywordShape(k: Keyword)
    ensures |KeywordWord(k)| >= 2
    ensures forall i :: 0 <= i < |KeywordWord(k)| ==> 'A' <= KeywordWord(k)[i] <= 'Z'
  {
    match k
    case OperatorKeyword(op) =>
    case CriteriaKeyword(c) =>
  }

  /** Two different keywords already differ in their first two letters, so no
      keyword is a prefix of another. */
  lemma KeywordsDifferEarly(k1: Keyword, k2: Keyword)
    requires k1 != k2
    ensures KeywordWord(k1)[0] != KeywordWord(k2)[0] || KeywordWord(k1)[1] != KeywordWord(k2)[1]
  {
    match k1
    case OperatorKeyword(op) =>
    case CriteriaKeyword(c) =>
  }

  lemma ToUpperOfLetter(c: char, u: char)
    requires 'A' <= u <= 'Z' && ToUpper(c) == u
    ensures ('a' <= c <= 'z' || 'A' <= c <= 'Z') && !IsWhiteSpace(c) && c != '(' && c != ')' && c != '"'
  {
  }

  /** Where keyword k is spelled (in any case) at p, no other keyword matches there. */
  lemma {:induction false} OnlyThatKeyword(s: string, p: nat, k: Keyword, other: Keyword)
    requires p + |KeywordWord(k)| <= |s| && EqualsIgnoreCase(s[p..p + |KeywordWord(k)|], KeywordWord(k))
    requires other != k
    ensures TryMatchKeyword(s, p, other).None?
  {
    var w, w' := KeywordWord(k), KeywordWord(other);
    KeywordShape(k);
    KeywordShape(other);
    KeywordsDifferEarly(k, other);
    assert s[p..p + |w|][0] == s[p] && s[p..p + |w|][1] == s[p + 1];
    assert ToUpper(s[p]) == w[0] && ToUpper(s[p + 1]) == w[1];
    if p + |w'| <= |s| {
      assert s[p..p + |w'|][0] == s[p] && s[p..p + |w'|][1] == s[p + 1];
      assert ToUpper(w'[0]) == w'[0] && ToUpper(w'[1]) == w'[1];
      assert !EqualsIgnoreCase(s[p..p + |w'|], w');
    }
    assert !MatchesWord(s, p, w');
    match other
    case OperatorKeyword(op) =>
    case CriteriaKeyword(c) =>
  }

  lemma {:induction false} MatchFirstSpelled(s: string, p: nat, k: Keyword, kws: seq<Keyword>)
    requires p + |KeywordWord(k)| <= |s| && EqualsIgnoreCase(s[p..p + |KeywordWord(k)|], KeywordWord(k))
    ensures MatchFirst(s, p, kws) ==
              if k in kws && WordEnds(s, p + |KeywordWord(k)|)
              then Some((KeywordToken(k), p + |KeywordWord(k)|)) else None
  {
    if kws != [] {
      if kws[0] == k {
        assert TryMatchKeyword(s, p, k).Some? <==> WordEnds(s, p + |KeywordWord(k)|) by {
          match k
          case OperatorKeyword(op) =>
          case CriteriaKeyword(c) =>
        }
        if !WordEnds(s, p + |KeywordWord(k)|) {
          MatchFirstSpelled(s, p, k, kws[1..]);
        } else {
          match k
          case OperatorKeyword(op) =>
          case CriteriaKeyword(c) =>
        }
      } else {
        OnlyThatKeyword(s, p, k, kws[0]);
        MatchFirstSpelled(s, p, k, kws[1..]);
        assert k in kws <==> k in kws[1..];
      }
    }
  }

  lemma AllKeywordsListed(k: Keyword)
    ensures k in KeywordOrder
  {
    var i := match k
      case OperatorKeyword(AndOp) => 0
      case OperatorKeyword(OrOp) => 1
      case OperatorKeyword(NotOp) => 2
      case CriteriaKeyword(Title) => 3
      case CriteriaKeyword(Genre) => 4
      case CriteriaKeyword(Studio) => 5
      case CriteriaKeyword(Actor) => 6
      case CriteriaKeyword(Director) => 7
      case CriteriaKeyword(Movie) => 8
      case CriteriaKeyword(Show) => 9;
    assert KeywordOrder[i] == k;
  }

  /** A keyword spelled in any letter case at p becomes its token exactly when it is
      a whole word: followed by the end of input, whitespace or a parenthesis. */
  lemma KeywordRecognised(s: string, p: nat, k: Keyword)
    requires p + |KeywordWord(k)| <= |s| && EqualsIgnoreCase(s[p..p + |KeywordWord(k)|], KeywordWord(k))
    ensures MatchKeyword(s, p) ==
              if WordEnds(s, p + |KeywordWord(k)|) then Some((KeywordToken(k), p + |KeywordWord(k)|)) else None
  {
    AllKeywordsListed(k);
    MatchFirstSpelled(s, p, k, KeywordOrder);
  }

  /** A character that is not a letter can start no keyword. */
  lemma {:induction false} NoKeywordAtNonLetter(s: string, p: nat, kws: seq<Keyword>)
    requires p < |s| && !('a' <= s[p] <= 'z' || 'A' <= s[p] <= 'Z')
    ensures MatchFirst(s, p, kws).None?
  {
    if kws != [] {
      var w := KeywordWord(kws[0]);
      KeywordShape(kws[0]);
      if p + |w| <= |s| {
        assert s[p..p + |w|][0] == s[p];
      }
      assert ToUpper(s[p]) != ToUpper(w[0]);
      assert TryMatchKeyword(s, p, kws[0]).None? by {
        match kws[0]
        case OperatorKeyword(op) =>
        case CriteriaKeyword(c) =>
      }
      NoKeywordAtNonLetter(s, p, kws[1..]);
    }
  }

  /** Whitespace produces no tokens: a run of it is skipped. */
  lemma {:induction false} LexSkipsWhitespace(s: string, p: nat, q: nat)
    requires p <= q <= |s|
    requires forall i :: p <= i < q ==> IsWhiteSpace(s[i])
    ensures LexFrom(s, p) == LexFrom(s, q)
    decreases q - p
  {
    if p < q {
      LexSkipStep(s, p);
      LexSkipsWhitespace(s, p + 1, q);
    }
  }

  /** A keyword written as a whole word is one token. */
  lemma LexKeyword(s: string, p: nat, k: Keyword)
    requires p + |KeywordWord(k)| <= |s| && EqualsIgnoreCase(s[p..p + |KeywordWord(k)|], KeywordWord(k))
    requires WordEnds(s, p + |KeywordWord(k)|)
    ensures LexFrom(s, p) == PrependAll([KeywordToken(k)], LexFrom(s, p + |KeywordWord(k)|))
  {
    KeywordRecognised(s, p, k);
    KeywordShape(k);
    assert s[p..p + |KeywordWord(k)|][0] == s[p];
    ToUpperOfLetter(s[p], KeywordWord(k)[0]);
  }

  /** A keyword glued to what follows it, e.g. TITLE"x", is an unexpected character. */
  lemma LexGluedKeyword(s: string, p: nat, k: Keyword)
    requires p + |KeywordWord(k)| <= |s| && EqualsIgnoreCase(s[p..p + |KeywordWord(k)|], KeywordWord(k))
    requires !WordEnds(s, p + |KeywordWord(k)|)
    ensures LexFrom(s, p) == Failure(UnexpectedCharacter(p, s[p]))
  {
    KeywordRecognised(s, p, k);
    KeywordShape(k);
    assert s[p..p + |KeywordWord(k)|][0] == s[p];
    ToUpperOfLetter(s[p], KeywordWord(k)[0]);
  }

  /** A double quote opens a string token holding exactly the characters up to the
      next double quote; without one the input is an unterminated literal. */
  lemma LexString(s: string, p: nat)
    requires p < |s| && s[p] == '"'
    ensures var q := QuoteFrom(s, p + 1);
            && (q == |s| ==> LexFrom(s, p) == Failure(UnterminatedString))
            && (q < |s| ==> LexFrom(s, p) == PrependAll([StringToken(s[p + 1..q])], LexFrom(s, q + 1)))
  {
    NoKeywordAtNonLetter(s, p, KeywordOrder);
    PrependNothing(LexFrom(s, p));
    LexStringStep(s, p, []);
    var q := QuoteFrom(s, p + 1);
    if q < |s| {
      assert PrependAll([] + [StringToken(s[p + 1..q])], LexFrom(s, q + 1))
          == PrependAll([StringToken(s[p + 1..q])], LexFrom(s, q + 1));
    }
  }

  lemma PrependNothing(r: Result<seq<Token>, SyntaxError>)
    ensures PrependAll([], r) == r
  {
    if r.Success? {
      assert [] + r.value == r.value;
    }
  }

  /** Parentheses are single tokens. */
  lemma LexParen(s: string, p: nat)
    requires p < |s| && (s[p] == '(' || s[p] == ')')
    ensures LexFrom(s, p) == PrependAll([if s[p] == '(' then OpenParen else CloseParen], LexFrom(s, p + 1))
  {
    NoKeywordAtNonLetter(s, p, KeywordOrder);
  }
}
