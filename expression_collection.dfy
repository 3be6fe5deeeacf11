/** ExpressionCollection: a named collection rule written in the expression
    language, and the entry point that validates and parses its text. */
module ExpressionCollections {
  import opened Wrappers
  import opened Text
  import opened ExpressionTree
  import opened Tokenizer
  import opened Parser
  import opened RoundTrip

  const DefaultCollectionName: string := "Auto Collection"
  const EmptyExpressionMessage: string := "Expression cannot be empty"

  /** The message ParseExpression records for an exception of the tokenizer or parser. */
  function ErrorMessage(e: SyntaxError): string {
    "Error parsing expression: " + Message(e)
  }

  /** What ParseExpression decides for a given text: the tree it stores, or the one
      message it records. Blank text is refused before it is tokenized. */
  function ParseOutcome(expression: string): Result<Expr, string> {
    if IsNullOrWhiteSpace(expression) then Failure(EmptyExpressionMessage)
    else
      match ParseText(expression)
      case Success(e) => Success(e)
      case Failure(err) => Failure(ErrorMessage(err))
  }

  class ExpressionCollection {
    var CollectionName: string
    var Expression: string
    var CaseSensitive: bool
    var ParsedExpression: Option<Expr>
    var ParseErrors: seq<string>

    /** The parameterless constructor: the default name, an empty expression, not
        parsed. */
    constructor ()
      ensures CollectionName == DefaultCollectionName && Expression == "" && !CaseSensitive
      ensures ParsedExpression == None && ParseErrors == []
    {
      CollectionName := DefaultCollectionName;
      Expression := "";
      CaseSensitive := false;
      ParsedExpression := None;
      ParseErrors := [];
    }

    /** ExpressionCollection(collectionName, expression, caseSensitive): the fields
        as given, then the expression parsed at once. */
    constructor WithExpression(collectionName: string, expression: string, caseSensitive: bool)
      ensures CollectionName == collectionName && Expression == expression && CaseSensitive == caseSensitive
      ensures ParseOutcome(expression).Success? ==>
                ParsedExpression == Some(ParseOutcome(expression).value) && ParseErrors == []
      ensures ParseOutcome(expression).Failure? ==>
                ParsedExpression == None && ParseErrors == [ParseOutcome(expression).error]
    {
      CollectionName := collectionName;
      Expression := expression;
      CaseSensitive := caseSensitive;
      ParsedExpression := None;
      ParseErrors := [];
      new;
      var _ := ParseExpression();
    }

    /** ParseExpression: clears the errors, refuses blank text, otherwise tokenizes
        and parses from the first token. It succeeds exactly when no error is
        recorded; a failure records exactly one message and keeps the previous tree. */
    method ParseExpression() returns (ok: bool)
      modifies this
      ensures CollectionName == old(CollectionName) && Expression == old(Expression)
      ensures CaseSensitive == old(CaseSensitive)
      ensures ok <==> ParseErrors == []
      ensures ok <==> ParseOutcome(Expression).Success?
      ensures ok ==> ParsedExpression == Some(ParseOutcome(Expression).value)
      ensures !ok ==> ParsedExpression == old(ParsedExpression) && ParseErrors == [ParseOutcome(Expression).error]
    {
      ParseErrors := [];
      if IsNullOrWhiteSpace(Expression) {
        ParseErrors := ParseErrors + [EmptyExpressionMessage];
        return false;
      }
      var tokens := TokenizeExpression(Expression);
      if tokens.Failure? {
        ParseErrors := ParseErrors + [ErrorMessage(tokens.error)];
        return false;
      }
      var position: nat := 0;
      var tree := ParseExpressionTree(tokens.value, position);
      if tree.Failure? {
        ParseErrors := ParseErrors + [ErrorMessage(tree.error)];
        return false;
      }
      ParsedExpression := Some(tree.value.0);
      return true;
    }
  }

  /** Printed text is never blank: it starts with a keyword letter or "(". */
  lemma PrintNotBlank(e: Expr)
    ensures |Print(e)| > 0 && !IsWhiteSpace(Print(e)[0])
  {
    match e
    case Criteria(t, v) =>
      if !TakesNoValue(t) {
        assert KeywordAndString(CriteriaName(t), v)[0] == CriteriaName(t)[0];
      }
    case And(l, r) =>
      assert Parenthesised(Print(l), "AND", Print(r))[0] == '(';
    case Or(l, r) =>
      assert Parenthesised(Print(l), "OR", Print(r))[0] == '(';
    case Not(c) =>
      assert ("NOT" + " " + Print(c))[0] == 'N';
  }

  /** ParseExpression stores back the tree whose printed text it is given, when no
      NOT sits directly under a NOT and the values hold no double quote. */
  lemma PrintedExpressionParses(e: Expr)
    requires Reparsable(e)
    ensures ParseOutcome(Print(e)) == Success(e)
  {
    PrintNotBlank(e);
    PrintThenParse(e);
  }
}
