/** The recursive-descent parser of the rule-expression language. Precedence, from
    loosest to tightest: OR, AND, NOT, then a primary (a parenthesised expression
    or a criteria leaf). OR and AND chains are left-associative; NOT takes exactly
    one primary. */
module Parser {
  import opened Wrappers
  import opened ExpressionTree
  import opened Tokenizer

  /** A parsed tree and the position of the first token after it. */
  type Parsed = Result<(Expr, nat), SyntaxError>

  /** The token stream ends in EOF, as every tokenization does. */
  predicate EndsInEOF(toks: seq<Token>) {
    |toks| > 0 && toks[|toks| - 1] == EOF
  }

  /** No string token holds a double quote, as every tokenization guarantees. */
  predicate QuoteFree(toks: seq<Token>) {
    forall i :: 0 <= i < |toks| && toks[i].StringToken? ==> '"' !in toks[i].value
  }

  /** The leaf values a parse can produce: MOVIE and SHOW carry "", and no value
      holds a double quote when the tokens held none. */
  predicate ValuesOk(e: Expr) {
    match e
    case Criteria(t, v) => (TakesNoValue(t) ==> v == "") && '"' !in v
    case And(l, r) => ValuesOk(l) && ValuesOk(r)
    case Or(l, r) => ValuesOk(l) && ValuesOk(r)
    case Not(c) => ValuesOk(c)
  }

  /** ParseOrExpression: an AND-expression followed by any number of OR operands. */
  function ParseOr(toks: seq<Token>, pos: nat): (r: Parsed)
    requires pos <= |toks|
    ensures r.Success? ==> pos < r.value.1 <= |toks|
    ensures EndsInEOF(toks) && pos < |toks| ==> r != Failure(UnexpectedEnd) && (r.Success? ==> r.value.1 < |toks|)
    ensures QuoteFree(toks) && r.Success? ==> ValuesOk(r.value.0)
    decreases |toks| - pos, 4
  {
    var left :- ParseAnd(toks, pos);
    ParseOrTail(toks, left.0, left.1)
  }

  /** The while loop of ParseOrExpression: each OR folds the next AND-expression
      into the left operand. */
  function ParseOrTail(toks: seq<Token>, left: Expr, pos: nat): (r: Parsed)
    requires pos <= |toks|
    ensures r.Success? ==> pos <= r.value.1 <= |toks|
    ensures EndsInEOF(toks) && pos < |toks| ==> r != Failure(UnexpectedEnd) && (r.Success? ==> r.value.1 < |toks|)
    ensures QuoteFree(toks) && ValuesOk(left) && r.Success? ==> ValuesOk(r.value.0)
    decreases |toks| - pos, 0
  {
    if pos < |toks| && toks[pos] == OrToken then
      var right :- ParseAnd(toks, pos + 1);
      ParseOrTail(toks, Or(left, right.0), right.1)
    else
      Success((left, pos))
  }

  /** ParseAndExpression: a NOT-expression followed by any number of AND operands. */
  function ParseAnd(toks: seq<Token>, pos: nat): (r: Parsed)
    requires pos <= |toks|
    ensures r.Success? ==> pos < r.value.1 <= |toks|
    ensures EndsInEOF(toks) && pos < |toks| ==> r != Failure(UnexpectedEnd) && (r.Success? ==> r.value.1 < |toks|)
    ensures QuoteFree(toks) && r.Success? ==> ValuesOk(r.value.0)
    decreases |toks| - pos, 3
  {
    var left :- ParseNot(toks, pos);
    ParseAndTail(toks, left.0, left.1)
  }

  /** The while loop of ParseAndExpression. */
  function ParseAndTail(toks: seq<Token>, left: Expr, pos: nat): (r: Parsed)
    requires pos <= |toks|
    ensures r.Success? ==> pos <= r.value.1 <= |toks|
    ensures EndsInEOF(toks) && pos < |toks| ==> r != Failure(UnexpectedEnd) && (r.Success? ==> r.value.1 < |toks|)
    ensures QuoteFree(toks) && ValuesOk(left) && r.Success? ==> ValuesOk(r.value.0)
    decreases |toks| - pos, 0
  {
    if pos < |toks| && toks[pos] == AndToken then
      var right :- ParseNot(toks, pos + 1);
      ParseAndTail(toks, And(left, right.0), right.1)
    else
      Success((left, pos))
  }

  /** ParseNotExpression: an optional NOT in front of one primary. */
  function ParseNot(toks: seq<Token>, pos: nat): (r: Parsed)
    requires pos <= |toks|
    ensures r.Success? ==> pos < r.value.1 <= |toks|
    ensures EndsInEOF(toks) && pos < |toks| ==> r != Failure(UnexpectedEnd) && (r.Success? ==> r.value.1 < |toks|)
    ensures QuoteFree(toks) && r.Success? ==> ValuesOk(r.value.0)
    decreases |toks| - pos, 2
  {
    if pos < |toks| && toks[pos] == NotToken then
      var child :- ParsePrimary(toks, pos + 1);
      Success((Not(child.0), child.1))
    else
      ParsePrimary(toks, pos)
  }

  /** ParsePrimaryExpression: a parenthesised expression, MOVIE or SHOW alone, or
      another criteria keyword followed by its string. */
  function ParsePrimary(toks: seq<Token>, pos: nat): (r: Parsed)
    requires pos <= |toks|
    ensures r.Success? ==> pos < r.value.1 <= |toks|
    ensures EndsInEOF(toks) && pos < |toks| ==> r != Failure(UnexpectedEnd) && (r.Success? ==> r.value.1 < |toks|)
    ensures QuoteFree(toks) && r.Success? ==> ValuesOk(r.value.0)
    decreases |toks| - pos, 1
  {
    if pos == |toks| then Failure(UnexpectedEnd)
    else match toks[pos]
      case OpenParen =>
        var node :- ParseOr(toks, pos + 1);
        if node.1 == |toks| || toks[node.1] != CloseParen then Failure(MissingClosingParenthesis)
        else Success((node.0, node.1 + 1))
      case CriteriaToken(t) =>
        if TakesNoValue(t) then Success((Criteria(t, ""), pos + 1))
        else if pos + 1 == |toks| || !toks[pos + 1].StringToken? then Failure(ExpectedString(t))
        else Success((Criteria(t, toks[pos + 1].value), pos + 2))
      case _ => Failure(UnexpectedToken(toks[pos]))
  }

  /** ParseExpression's use of the two phases: tokenize, then parse from the first
      token. Tokens after the parsed expression are not examined. */
  function ParseText(s: string): Result<Expr, SyntaxError> {
    var toks :- Lex(s);
    var r :- ParseOr(toks, 0);
    Success(r.0)
  }

  /** ParseExpressionTree: the whole grammar starts at OR. */
  method ParseExpressionTree(toks: seq<Token>, position: nat) returns (r: Parsed)
    requires position <= |toks|
    ensures r == ParseOr(toks, position)
    decreases |toks| - position, 5
  {
    r := ParseOrExpression(toks, position);
  }

  method ParseOrExpression(toks: seq<Token>, position: nat) returns (r: Parsed)
    requires position <= |toks|
    ensures r == ParseOr(toks, position)
    decreases |toks| - position, 4
  {
    var first :- ParseAndExpression(toks, position);
    var left := first.0;
    var p := first.1;
    while p < |toks| && toks[p] == OrToken
      invariant position < p <= |toks|
      invariant ParseOr(toks, position) == ParseOrTail(toks, left, p)
      decreases |toks| - p
    {
      var right :- ParseAndExpression(toks, p + 1);
      left := Or(left, right.0);
      p := right.1;
    }
    return Success((left, p));
  }

  method ParseAndExpression(toks: seq<Token>, position: nat) returns (r: Parsed)
    requires position <= |toks|
    ensures r == ParseAnd(toks, position)
    decreases |toks| - position, 3
  {
    var first :- ParseNotExpression(toks, position);
    var left := first.0;
    var p := first.1;
    while p < |toks| && toks[p] == AndToken
      invariant position < p <= |toks|
      invariant ParseAnd(toks, position) == ParseAndTail(toks, left, p)
      decreases |toks| - p
    {
      var right :- ParseNotExpression(toks, p + 1);
      left := And(left, right.0);
      p := right.1;
    }
    return Success((left, p));
  }

  method ParseNotExpression(toks: seq<Token>, position: nat) returns (r: Parsed)
    requires position <= |toks|
    ensures r == ParseNot(toks, position)
    decreases |toks| - position, 2
  {
    if position < |toks| && toks[position] == NotToken {
      var child :- ParsePrimaryExpression(toks, position + 1);
      return Success((Not(child.0), child.1));
    }
    r := ParsePrimaryExpression(toks, position);
  }

  method ParsePrimaryExpression(toks: seq<Token>, position: nat) returns (r: Parsed)
    requires position <= |toks|
    ensures r == ParsePrimary(toks, position)
    decreases |toks| - position, 1
  {
    if position >= |toks| {
      return Failure(UnexpectedEnd);
    }
    if toks[position] == OpenParen {
      var node :- ParseExpressionTree(toks, position + 1);
      if node.1 >= |toks| || toks[node.1] != CloseParen {
        return Failure(MissingClosingParenthesis);
      }
      return Success((node.0, node.1 + 1));
    }
    if toks[position].CriteriaToken? {
      var t := toks[position].criteriaType;
      var p := position + 1;
      if TakesNoValue(t) {
        return Success((Criteria(t, ""), p));
      }
      if p >= |toks| || !toks[p].StringToken? {
        return Failure(ExpectedString(t));
      }
      return Success((Criteria(t, toks[p].value), p + 1));
    }
    return Failure(UnexpectedToken(toks[position]));
  }
}
