/** What the parser does with the token shapes the grammar is about: criteria
    leaves, AND and OR chains, NOT, parentheses and whatever follows a complete
    expression. */
module ParserFacts {
  import opened Wrappers
  import opened ExpressionTree
  import opened Tokenizer
  import opened Parser

  /** xs occurs in toks starting at p. */
  predicate At(toks: seq<Token>, p: nat, xs: seq<Token>) {
    p + |xs| <= |toks| && forall i :: 0 <= i < |xs| ==> toks[p + i] == xs[i]
  }

  lemma AtConcat(toks: seq<Token>, p: nat, a: seq<Token>, b: seq<Token>)
    ensures At(toks, p, a + b) <==> At(toks, p, a) && At(toks, p + |a|, b)
  {
    if At(toks, p, a) && At(toks, p + |a|, b) {
      forall i | 0 <= i < |a + b|
        ensures toks[p + i] == (a + b)[i]
      {
        if i >= |a| {
          assert toks[p + |a| + (i - |a|)] == b[i - |a|];
        }
      }
    }
    if At(toks, p, a + b) {
      forall i | 0 <= i < |a|
        ensures toks[p + i] == a[i]
      {
        assert (a + b)[i] == a[i];
      }
      forall i | 0 <= i < |b|
        ensures toks[p + |a| + i] == b[i]
      {
        assert toks[p + (|a| + i)] == (a + b)[|a| + i];
      }
    }
  }

  lemma AtHead(toks: seq<Token>, p: nat, xs: seq<Token>)
    requires At(toks, p, xs) && |xs| > 0
    ensures p < |toks| && toks[p] == xs[0]
  {
    assert toks[p + 0] == xs[0];
  }

  lemma AtOfConcat(pre: seq<Token>, xs: seq<Token>, post: seq<Token>)
    ensures At(pre + xs + post, |pre|, xs)
  {
    var toks := pre + xs + post;
    forall i | 0 <= i < |xs|
      ensures toks[|pre| + i] == xs[i]
    {
    }
  }

  /** A leaf as the tokenizer delivers it: the criteria token, then its string
      unless it is MOVIE or SHOW. */
  function LeafTokens(t: CriteriaType, v: string): seq<Token> {
    if TakesNoValue(t) then [CriteriaToken(t)] else [CriteriaToken(t), StringToken(v)]
  }

  /** The value a leaf can carry: MOVIE and SHOW carry "". */
  predicate LeafOk(t: CriteriaType, v: string) {
    TakesNoValue(t) ==> v == ""
  }

  /** A token that ends an AND-expression: anything but AND, or the end. */
  predicate EndsAnd(toks: seq<Token>, q: nat) {
    q >= |toks| || toks[q] != AndToken
  }

  /** A token that ends an OR-expression: neither AND nor OR, or the end. */
  predicate EndsOr(toks: seq<Token>, q: nat) {
    q >= |toks| || (toks[q] != AndToken && toks[q] != OrToken)
  }

  /** One unfolding of each grammar rule, for longer derivations. */
  lemma OrFrom(toks: seq<Token>, p: nat, e: Expr, q: nat)
    requires p <= |toks| && ParseAnd(toks, p) == Success((e, q))
    ensures ParseOr(toks, p) == ParseOrTail(toks, e, q)
  {
  }

  lemma AndFrom(toks: seq<Token>, p: nat, e: Expr, q: nat)
    requires p <= |toks| && ParseNot(toks, p) == Success((e, q))
    ensures ParseAnd(toks, p) == ParseAndTail(toks, e, q)
  {
  }

  lemma OrTailOn(toks: seq<Token>, left: Expr, p: nat, e: Expr, q: nat)
    requires p < |toks| && toks[p] == OrToken && ParseAnd(toks, p + 1) == Success((e, q))
    ensures ParseOrTail(toks, left, p) == ParseOrTail(toks, Or(left, e), q)
  {
  }

  lemma AndTailOn(toks: seq<Token>, left: Expr, p: nat, e: Expr, q: nat)
    requires p < |toks| && toks[p] == AndToken && ParseNot(toks, p + 1) == Success((e, q))
    ensures ParseAndTail(toks, left, p) == ParseAndTail(toks, And(left, e), q)
  {
  }

  lemma OrTailOff(toks: seq<Token>, left: Expr, p: nat)
    requires p <= |toks| && (p == |toks| || toks[p] != OrToken)
    ensures ParseOrTail(toks, left, p) == Success((left, p))
  {
  }

  lemma AndTailOff(toks: seq<Token>, left: Expr, p: nat)
    requires p <= |toks| && EndsAnd(toks, p)
    ensures ParseAndTail(toks, left, p) == Success((left, p))
  {
  }

  /** A leaf's tokens parse to the leaf at the primary and at the NOT level. */
  lemma ParseLeaf(toks: seq<Token>, p: nat, t: CriteriaType, v: string)
    requires LeafOk(t, v) && At(toks, p, LeafTokens(t, v))
    ensures ParsePrimary(toks, p) == Success((Criteria(t, v), p + |LeafTokens(t, v)|))
    ensures ParseNot(toks, p) == Success((Criteria(t, v), p + |LeafTokens(t, v)|))
  {
    AtHead(toks, p, LeafTokens(t, v));
    if !TakesNoValue(t) {
      assert LeafTokens(t, v)[1] == StringToken(v);
      assert toks[p + 1] == StringToken(v);
    }
  }

  /** A leaf followed by anything but AND is a whole AND-expression. */
  lemma ParseLeafAnd(toks: seq<Token>, p: nat, t: CriteriaType, v: string)
    requires LeafOk(t, v) && At(toks, p, LeafTokens(t, v))
    requires EndsAnd(toks, p + |LeafTokens(t, v)|)
    ensures ParseAnd(toks, p) == Success((Criteria(t, v), p + |LeafTokens(t, v)|))
  {
    var e, q := Criteria(t, v), p + |LeafTokens(t, v)|;
    ParseLeaf(toks, p, t, v);
    AndFrom(toks, p, e, q);
    AndTailOff(toks, e, q);
  }

  /** A leaf followed by a token that ends an OR-expression parses to the leaf at
      every level; whatever follows is left unread. */
  lemma ParseLeafAlone(toks: seq<Token>, p: nat, t: CriteriaType, v: string)
    requires LeafOk(t, v) && At(toks, p, LeafTokens(t, v))
    requires EndsOr(toks, p + |LeafTokens(t, v)|)
    ensures ParseAnd(toks, p) == Success((Criteria(t, v), p + |LeafTokens(t, v)|))
    ensures ParseOr(toks, p) == Success((Criteria(t, v), p + |LeafTokens(t, v)|))
  {
    var e, q := Criteria(t, v), p + |LeafTokens(t, v)|;
    ParseLeafAnd(toks, p, t, v);
    OrFrom(toks, p, e, q);
    OrTailOff(toks, e, q);
  }

  /** `op l1 op l2 ... op ln`: the operands after the first one of a chain. */
  function OpChain(op: Token, ls: seq<(CriteriaType, string)>): seq<Token>
    decreases |ls|
  {
    if ls == [] then [] else [op] + LeafTokens(ls[0].0, ls[0].1) + OpChain(op, ls[1..])
  }

  /** The left-associated AND (conjunction = true) or OR of acc with the leaves ls. */
  function FoldLeft(conjunction: bool, acc: Expr, ls: seq<(CriteriaType, string)>): Expr
    decreases |ls|
  {
    if ls == [] then acc
    else
      var leaf := Criteria(ls[0].0, ls[0].1);
      FoldLeft(conjunction, if conjunction then And(acc, leaf) else Or(acc, leaf), ls[1..])
  }

  predicate LeavesOk(ls: seq<(CriteriaType, string)>) {
    forall i :: 0 <= i < |ls| ==> LeafOk(ls[i].0, ls[i].1)
  }

  lemma LeavesOkTail(ls: seq<(CriteriaType, string)>)
    requires ls != [] && LeavesOk(ls)
    ensures LeafOk(ls[0].0, ls[0].1) && LeavesOk(ls[1..])
  {
    assert LeafOk(ls[0].0, ls[0].1);
    forall i | 0 <= i < |ls[1..]|
      ensures LeafOk(ls[1..][i].0, ls[1..][i].1)
    {
      assert ls[1..][i] == ls[i + 1];
    }
  }

  /** One AND step of a chain: the AND and the leaf after it. */
  lemma AndLeafStep(toks: seq<Token>, acc: Expr, p: nat, t: CriteriaType, v: string, rest: seq<Token>)
    requires LeafOk(t, v) && At(toks, p, [AndToken] + LeafTokens(t, v) + rest)
    ensures ParseAndTail(toks, acc, p) == ParseAndTail(toks, And(acc, Criteria(t, v)), p + 1 + |LeafTokens(t, v)|)
  {
    AtConcat(toks, p, [AndToken] + LeafTokens(t, v), rest);
    AtConcat(toks, p, [AndToken], LeafTokens(t, v));
    AtHead(toks, p, [AndToken]);
    ParseLeaf(toks, p + 1, t, v);
    AndTailOn(toks, acc, p, Criteria(t, v), p + 1 + |LeafTokens(t, v)|);
  }

  /** One OR step of a chain of leaves: the OR and the leaf after it, which the AND
      level returns alone since an OR or the end of the chain follows it. */
  lemma OrLeafStep(toks: seq<Token>, acc: Expr, p: nat, t: CriteriaType, v: string, rest: seq<Token>)
    requires LeafOk(t, v) && At(toks, p, [OrToken] + LeafTokens(t, v) + rest)
    requires rest != [] ==> rest[0] == OrToken
    requires EndsOr(toks, p + 1 + |LeafTokens(t, v)| + |rest|)
    ensures ParseOrTail(toks, acc, p) == ParseOrTail(toks, Or(acc, Criteria(t, v)), p + 1 + |LeafTokens(t, v)|)
  {
    var q := p + 1 + |LeafTokens(t, v)|;
    AtConcat(toks, p, [OrToken] + LeafTokens(t, v), rest);
    AtConcat(toks, p, [OrToken], LeafTokens(t, v));
    AtHead(toks, p, [OrToken]);
    ParseLeaf(toks, p + 1, t, v);
    if rest != [] {
      AtHead(toks, q, rest);
    }
    AndFrom(toks, p + 1, Criteria(t, v), q);
    AndTailOff(toks, Criteria(t, v), q);
    OrTailOn(toks, acc, p, Criteria(t, v), q);
  }

  /** The AND loop folds a chain of AND-separated leaves to the left. */
  lemma {:induction false} AndTailChain(toks: seq<Token>, acc: Expr, p: nat, ls: seq<(CriteriaType, string)>)
    requires p <= |toks| && LeavesOk(ls) && At(toks, p, OpChain(AndToken, ls))
    requires EndsAnd(toks, p + |OpChain(AndToken, ls)|)
    ensures ParseAndTail(toks, acc, p) == Success((FoldLeft(true, acc, ls), p + |OpChain(AndToken, ls)|))
    decreases |ls|
  {
    if ls != [] {
      var lt := LeafTokens(ls[0].0, ls[0].1);
      var rest := OpChain(AndToken, ls[1..]);
      var next := And(acc, Criteria(ls[0].0, ls[0].1));
      var q := p + 1 + |lt|;
      assert OpChain(AndToken, ls) == [AndToken] + lt + rest;
      LeavesOkTail(ls);
      assert ParseAndTail(toks, acc, p) == ParseAndTail(toks, next, q) by {
        AndLeafStep(toks, acc, p, ls[0].0, ls[0].1, rest);
      }
      assert At(toks, q, rest) by {
        AtConcat(toks, p, [AndToken] + lt, rest);
      }
      AndTailChain(toks, next, q, ls[1..]);
    } else {
      AndTailOff(toks, acc, p);
    }
  }

  /** The OR loop folds a chain of OR-separated leaves to the left. */
  lemma {:induction false} OrTailChain(toks: seq<Token>, acc: Expr, p: nat, ls: seq<(CriteriaType, string)>)
    requires p <= |toks| && LeavesOk(ls) && At(toks, p, OpChain(OrToken, ls))
    requires EndsOr(toks, p + |OpChain(OrToken, ls)|)
    ensures ParseOrTail(toks, acc, p) == Success((FoldLeft(false, acc, ls), p + |OpChain(OrToken, ls)|))
    decreases |ls|
  {
    if ls != [] {
      var lt := LeafTokens(ls[0].0, ls[0].1);
      var rest := OpChain(OrToken, ls[1..]);
      var next := Or(acc, Criteria(ls[0].0, ls[0].1));
      var q := p + 1 + |lt|;
      assert OpChain(OrToken, ls) == [OrToken] + lt + rest;
      LeavesOkTail(ls);
      assert ParseOrTail(toks, acc, p) == ParseOrTail(toks, next, q) by {
        OrLeafStep(toks, acc, p, ls[0].0, ls[0].1, rest);
      }
      assert At(toks, q, rest) by {
        AtConcat(toks, p, [OrToken] + lt, rest);
      }
      OrTailChain(toks, next, q, ls[1..]);
    } else {
      OrTailOff(toks, acc, p);
    }
  }

  /** AND is left-associative: `l0 AND l1 AND ... AND ln` parses to
      (((l0 AND l1) AND ...) AND ln), and parsing stops at the first token that is
      not AND. */
  lemma AndChainLeftAssociative(toks: seq<Token>, p: nat, t: CriteriaType, v: string,
                                ls: seq<(CriteriaType, string)>)
    requires LeafOk(t, v) && LeavesOk(ls)
    requires At(toks, p, LeafTokens(t, v) + OpChain(AndToken, ls))
    requires EndsOr(toks, p + |LeafTokens(t, v) + OpChain(AndToken, ls)|)
    ensures ParseOr(toks, p) == Success((FoldLeft(true, Criteria(t, v), ls), p + |LeafTokens(t, v) + OpChain(AndToken, ls)|))
  {
    AtConcat(toks, p, LeafTokens(t, v), OpChain(AndToken, ls));
    ParseLeaf(toks, p, t, v);
    var q := p + |LeafTokens(t, v)|;
    var n := q + |OpChain(AndToken, ls)|;
    AndTailChain(toks, Criteria(t, v), q, ls);
    AndFrom(toks, p, Criteria(t, v), q);
    OrFrom(toks, p, FoldLeft(true, Criteria(t, v), ls), n);
    OrTailOff(toks, FoldLeft(true, Criteria(t, v), ls), n);
  }

  /** OR is left-associative: `l0 OR l1 OR ... OR ln` parses to
      (((l0 OR l1) OR ...) OR ln). */
  lemma OrChainLeftAssociative(toks: seq<Token>, p: nat, t: CriteriaType, v: string,
                               ls: seq<(CriteriaType, string)>)
    requires LeafOk(t, v) && LeavesOk(ls)
    requires At(toks, p, LeafTokens(t, v) + OpChain(OrToken, ls))
    requires EndsOr(toks, p + |LeafTokens(t, v) + OpChain(OrToken, ls)|)
    ensures ParseOr(toks, p) == Success((FoldLeft(false, Criteria(t, v), ls), p + |LeafTokens(t, v) + OpChain(OrToken, ls)|))
  {
    OrChainHead(toks, p, t, v, ls);
    OrTailChain(toks, Criteria(t, v), p + |LeafTokens(t, v)|, ls);
  }

  /** The first leaf of an OR chain is the AND level's whole result, and the rest of the
      chain follows it. */
  lemma OrChainHead(toks: seq<Token>, p: nat, t: CriteriaType, v: string, ls: seq<(CriteriaType, string)>)
    requires LeafOk(t, v)
    requires At(toks, p, LeafTokens(t, v) + OpChain(OrToken, ls))
    requires EndsOr(toks, p + |LeafTokens(t, v) + OpChain(OrToken, ls)|)
    ensures var q := p + |LeafTokens(t, v)|;
            && q <= |toks| && At(toks, q, OpChain(OrToken, ls))
            && q + |OpChain(OrToken, ls)| == p + |LeafTokens(t, v) + OpChain(OrToken, ls)|
            && EndsOr(toks, q + |OpChain(OrToken, ls)|)
            && ParseOr(toks, p) == ParseOrTail(toks, Criteria(t, v), q)
  {
    var lt := LeafTokens(t, v);
    var rest := OpChain(OrToken, ls);
    assert |lt + rest| == |lt| + |rest|;
    AtConcat(toks, p, lt, rest);
    if rest != [] {
      AtHead(toks, p + |lt|, rest);
    }
    ParseLeafAnd(toks, p, t, v);
    OrFrom(toks, p, Criteria(t, v), p + |lt|);
  }

  /** AND binds tighter than OR: `a AND b OR c` parses to ((a AND b) OR c), for
      any operands a, b, c at the NOT level (leaves, negations, parenthesised
      expressions). */
  lemma AndBindsTighterLeft(toks: seq<Token>, p: nat, a: Expr, q1: nat, b: Expr, q2: nat, c: Expr, q3: nat)
    requires p <= |toks| && ParseNot(toks, p) == Success((a, q1))
    requires q1 < |toks| && toks[q1] == AndToken && ParseNot(toks, q1 + 1) == Success((b, q2))
    requires q2 < |toks| && toks[q2] == OrToken && ParseNot(toks, q2 + 1) == Success((c, q3))
    requires EndsOr(toks, q3)
    ensures ParseOr(toks, p) == Success((Or(And(a, b), c), q3))
  {
    AndFrom(toks, p, a, q1);
    AndTailOn(toks, a, q1, b, q2);
    AndTailOff(toks, And(a, b), q2);
    AndFrom(toks, q2 + 1, c, q3);
    AndTailOff(toks, c, q3);
    OrFrom(toks, p, And(a, b), q2);
    OrTailOn(toks, And(a, b), q2, c, q3);
    OrTailOff(toks, Or(And(a, b), c), q3);
  }

  /** AND binds tighter than OR on the right too: `a OR b AND c` parses to
      (a OR (b AND c)). */
  lemma AndBindsTighterRight(toks: seq<Token>, p: nat, a: Expr, q1: nat, b: Expr, q2: nat, c: Expr, q3: nat)
    requires p <= |toks| && ParseNot(toks, p) == Success((a, q1))
    requires q1 < |toks| && toks[q1] == OrToken && ParseNot(toks, q1 + 1) == Success((b, q2))
    requires q2 < |toks| && toks[q2] == AndToken && ParseNot(toks, q2 + 1) == Success((c, q3))
    requires EndsOr(toks, q3)
    ensures ParseOr(toks, p) == Success((Or(a, And(b, c)), q3))
  {
    AndFrom(toks, p, a, q1);
    AndTailOff(toks, a, q1);
    AndFrom(toks, q1 + 1, b, q2);
    AndTailOn(toks, b, q2, c, q3);
    AndTailOff(toks, And(b, c), q3);
    OrFrom(toks, p, a, q1);
    OrTailOn(toks, a, q1, And(b, c), q3);
    OrTailOff(toks, Or(a, And(b, c)), q3);
  }

  /** NOT takes one primary, and a second NOT is not a primary: NOT NOT fails at
      the second NOT, at every precedence level. */
  lemma NotNotRejected(toks: seq<Token>, p: nat)
    requires p + 1 < |toks| && toks[p] == NotToken && toks[p + 1] == NotToken
    ensures ParseNot(toks, p) == Failure(UnexpectedToken(NotToken))
    ensures ParseAnd(toks, p) == Failure(UnexpectedToken(NotToken))
    ensures ParseOr(toks, p) == Failure(UnexpectedToken(NotToken))
  {
  }

  /** A token that cannot start an expression (AND, OR, a string, ')' or EOF) is
      reported as an unexpected token. */
  lemma UnexpectedStart(toks: seq<Token>, p: nat)
    requires p < |toks| && !toks[p].CriteriaToken? && toks[p] != OpenParen && toks[p] != NotToken
    ensures ParseOr(toks, p) == Failure(UnexpectedToken(toks[p]))
  {
    assert ParsePrimary(toks, p) == Failure(UnexpectedToken(toks[p]));
    assert ParseNot(toks, p) == Failure(UnexpectedToken(toks[p]));
    assert ParseAnd(toks, p) == Failure(UnexpectedToken(toks[p]));
  }

  /** A criteria keyword other than MOVIE and SHOW is accepted exactly when a string
      follows it, and reported as "Expected string after ..." otherwise. */
  lemma CriteriaNeedsString(toks: seq<Token>, p: nat, t: CriteriaType)
    requires p < |toks| && toks[p] == CriteriaToken(t) && !TakesNoValue(t)
    ensures ParsePrimary(toks, p).Success? <==> p + 1 < |toks| && toks[p + 1].StringToken?
    ensures ParsePrimary(toks, p).Failure? ==> ParsePrimary(toks, p).error == ExpectedString(t)
    ensures ParsePrimary(toks, p).Success? ==>
              ParsePrimary(toks, p).value == (Criteria(t, toks[p + 1].value), p + 2)
  {
  }

  /** MOVIE and SHOW consume no string: a string after them is left unread. */
  lemma MediaKindTakesNoString(toks: seq<Token>, p: nat, t: CriteriaType)
    requires p < |toks| && toks[p] == CriteriaToken(t) && TakesNoValue(t)
    ensures ParsePrimary(toks, p) == Success((Criteria(t, ""), p + 1))
  {
  }

  /** A parenthesised primary ends with the closing parenthesis it consumed. */
  lemma {:induction false} ParenthesisedEndsWithClose(toks: seq<Token>, p: nat)
    requires p < |toks| && toks[p] == OpenParen
    ensures ParsePrimary(toks, p).Success? ==>
              var q := ParsePrimary(toks, p).value.1;
              p + 2 <= q && toks[q - 1] == CloseParen
  {
  }

  /** An opening parenthesis with no closing one after it cannot be parsed; when its
      contents parse, the error is "Missing closing parenthesis". */
  lemma UnclosedParenthesis(toks: seq<Token>, p: nat)
    requires p < |toks| && toks[p] == OpenParen
    requires forall i :: p < i < |toks| ==> toks[i] != CloseParen
    ensures ParsePrimary(toks, p).Failure?
    ensures ParseOr(toks, p + 1).Success? ==> ParsePrimary(toks, p) == Failure(MissingClosingParenthesis)
  {
    ParenthesisedEndsWithClose(toks, p);
  }

  /** Tokens after a complete expression are ignored: a leaf followed by anything
      that does not continue an OR-expression parses to the leaf alone. */
  lemma TrailingTokensIgnored(t: CriteriaType, v: string, rest: seq<Token>)
    requires LeafOk(t, v) && EndsOr(rest, 0)
    ensures ParseOr(LeafTokens(t, v) + rest, 0) == Success((Criteria(t, v), |LeafTokens(t, v)|))
  {
    var toks := LeafTokens(t, v) + rest;
    AtOfConcat([], LeafTokens(t, v), rest);
    assert toks == [] + LeafTokens(t, v) + rest;
    assert EndsOr(toks, |LeafTokens(t, v)|) by {
      if |LeafTokens(t, v)| < |toks| {
        assert toks[|LeafTokens(t, v)|] == rest[0];
      }
    }
    ParseLeafAlone(toks, 0, t, v);
  }

  /** On a tokenizer's output (ending in EOF) the parser never runs off the end:
      "Unexpected end of expression" does not occur and EOF is never consumed. */
  lemma NoUnexpectedEnd(s: string)
    requires Lex(s).Success?
    ensures ParseOr(Lex(s).value, 0) != Failure(UnexpectedEnd)
    ensures ParseOr(Lex(s).value, 0).Success? ==> ParseOr(Lex(s).value, 0).value.1 < |Lex(s).value|
  {
    LexWellTerminated(s, 0);
  }

  /** Every tree parsed from text gives MOVIE and SHOW the value "" and holds no
      double quote in a value. */
  lemma ParsedValuesOk(s: string)
    requires ParseText(s).Success?
    ensures ValuesOk(ParseText(s).value)
  {
    LexWellTerminated(s, 0);
  }
}
