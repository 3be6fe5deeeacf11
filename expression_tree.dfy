/** The expression tree of a collection rule: criteria leaves combined with AND,
    OR and NOT; its evaluation against a criteria resolver, and its printed form. */
module ExpressionTree {

  /** The kinds of criteria. Movie and Show test the media kind and carry no value. */
  datatype CriteriaType = Title | Genre | Studio | Actor | Director | Movie | Show

  /** CriteriaType.ToString().ToUpper(): the keyword the tokenizer recognises. */
  function CriteriaName(t: CriteriaType): string {
    match t
    case Title => "TITLE"
    case Genre => "GENRE"
    case Studio => "STUDIO"
    case Actor => "ACTOR"
    case Director => "DIRECTOR"
    case Movie => "MOVIE"
    case Show => "SHOW"
  }

  predicate TakesNoValue(t: CriteriaType) {
    t == Movie || t == Show
  }

  datatype Expr =
    | Criteria(criteriaType: CriteriaType, value: string)
    | And(left: Expr, right: Expr)
    | Or(left: Expr, right: Expr)
    | Not(child: Expr)

  /** ExpressionNode.Evaluate: each leaf is decided by the resolver; AND, OR and NOT
      are conjunction, disjunction and negation. */
  function Evaluate(e: Expr, resolve: (CriteriaType, string) -> bool): bool {
    match e
    case Criteria(t, v) => resolve(t, v)
    case And(l, r) => Evaluate(l, resolve) && Evaluate(r, resolve)
    case Or(l, r) => Evaluate(l, resolve) || Evaluate(r, resolve)
    case Not(c) => !Evaluate(c, resolve)
  }

  /** ExpressionNode.ToString: binary nodes are fully parenthesised, NOT is a prefix,
      a criteria leaf is its keyword followed by its value in double quotes, except
      MOVIE and SHOW which print as the bare keyword. */
  function Print(e: Expr): string {
    match e
    case Criteria(t, v) =>
      if TakesNoValue(t) then CriteriaName(t) else KeywordAndString(CriteriaName(t), v)
    case And(l, r) => Parenthesised(Print(l), "AND", Print(r))
    case Or(l, r) => Parenthesised(Print(l), "OR", Print(r))
    case Not(c) => "NOT" + " " + Print(c)
  }

  /** name + " \"" + v + "\"": a criteria leaf with its value, as CriteriaNode prints it. */
  function KeywordAndString(name: string, v: string): string {
    name + " \"" + v + "\""
  }

  /** "(" + a + " " + op + " " + b + ")": a binary node as AndNode and OrNode print it. */
  function Parenthesised(a: string, op: string, b: string): string {
    "(" + a + " " + op + " " + b + ")"
  }

  /** The (criteria, value) pairs at the leaves. */
  function Leaves(e: Expr): set<(CriteriaType, string)> {
    match e
    case Criteria(t, v) => {(t, v)}
    case And(l, r) => Leaves(l) + Leaves(r)
    case Or(l, r) => Leaves(l) + Leaves(r)
    case Not(c) => Leaves(c)
  }

  /** Two resolvers that agree on every leaf of e give e the same value. */
  lemma {:induction false} EvaluateCongruence(e: Expr, r1: (CriteriaType, string) -> bool,
                                             r2: (CriteriaType, string) -> bool)
    requires forall leaf :: leaf in Leaves(e) ==> r1(leaf.0, leaf.1) == r2(leaf.0, leaf.1)
    ensures Evaluate(e, r1) == Evaluate(e, r2)
  {
    match e
    case Criteria(t, v) =>
      assert (t, v) in Leaves(e);
    case And(l, r) =>
      EvaluateCongruence(l, r1, r2);
      EvaluateCongruence(r, r1, r2);
    case Or(l, r) =>
      EvaluateCongruence(l, r1, r2);
      EvaluateCongruence(r, r1, r2);
    case Not(c) =>
      EvaluateCongruence(c, r1, r2);
  }

  /** No NOT node anywhere in e. */
  predicate NotFree(e: Expr) {
    match e
    case Criteria(_, _) => true
    case And(l, r) => NotFree(l) && NotFree(r)
    case Or(l, r) => NotFree(l) && NotFree(r)
    case Not(_) => false
  }

  /** Without NOT, making more leaves true never makes the expression false. */
  lemma {:induction false} EvaluateMonotone(e: Expr, r1: (CriteriaType, string) -> bool,
                                           r2: (CriteriaType, string) -> bool)
    requires NotFree(e)
    requires forall leaf :: leaf in Leaves(e) ==> r1(leaf.0, leaf.1) ==> r2(leaf.0, leaf.1)
    ensures Evaluate(e, r1) ==> Evaluate(e, r2)
  {
    match e
    case Criteria(t, v) =>
      assert (t, v) in Leaves(e);
    case And(l, r) =>
      EvaluateMonotone(l, r1, r2);
      EvaluateMonotone(r, r1, r2);
    case Or(l, r) =>
      EvaluateMonotone(l, r1, r2);
      EvaluateMonotone(r, r1, r2);
  }

  /** Without NOT, a resolver that answers the same b for every leaf gives b. */
  lemma {:induction false} EvaluateConstant(e: Expr, b: bool)
    requires NotFree(e)
    ensures Evaluate(e, (t: CriteriaType, v: string) => b) == b
  {
    match e
    case Criteria(_, _) =>
    case And(l, r) =>
      EvaluateConstant(l, b);
      EvaluateConstant(r, b);
    case Or(l, r) =>
      EvaluateConstant(l, b);
      EvaluateConstant(r, b);
  }

  /** NOT inverts whatever its operand gives under a constant resolver: a NOT-free
      tree under one NOT gives !b. */
  lemma {:induction false} EvaluateConstantNegated(e: Expr, b: bool)
    requires NotFree(e)
    ensures Evaluate(Not(e), (t: CriteriaType, v: string) => b) == !b
  {
    EvaluateConstant(e, b);
  }
}
