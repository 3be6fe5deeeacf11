# Auto Collections for Jellyfin, modelled in Dafny

The Auto Collections plugin keeps one Jellyfin box set per configured rule. The
box set holds the library's movies and series that the rule selects. This project
models three parts of the plugin and proves properties about each:

- **The rule-expression language** (`ExpressionCollection`). The tokenizer
  recognises whole-word, case-insensitive operators AND, OR and NOT. It also
  recognises the criteria keywords TITLE, GENRE, STUDIO, ACTOR, DIRECTOR, MOVIE
  and SHOW, the parentheses, and double-quoted strings without escapes.
  - The recursive-descent parser gives OR the loosest binding, then AND, then
    NOT, then a primary.
  - The expression tree has `Evaluate` against a criteria resolver and a
    `ToString` printer.
  - `ExpressionCollection.ParseExpression` validates and parses the text.
- **The rule records** (`PluginConfiguration`). This covers comma-separated tag
  splitting, the default titles and collection names, and the constructor
  defaults of `TagTitlePair`, `TitleMatchPair` and `PluginConfiguration`.
- **The collection manager** (`AutoCollectionsManager`), which covers:
  - the library queries a rule makes: tag or genre, a specific person, and match
    by title, genre, studio, actor or director;
  - AND matching by iterative narrowing, and OR matching by concatenation and
    de-duplication;
  - the removal and addition passes that bring a box set's linked children in
    line;
  - the collection name generated for tag rules;
  - the image priority for a new box set;
  - the two rule drivers, and the run over all title-match rules with its
    per-rule exception handling.

Modules follow the source:

| module | file | models |
|---|---|---|
| `Text` | `text.dfy` | the .NET string primitives the code uses |
| `ExpressionTree` | `expression_tree.dfy` | the expression tree |
| `Tokenizer`, `TokenizerFacts` | `tokenizer.dfy` | the tokenizer |
| `Parser` | `parser.dfy` | the parser |
| `ParserFacts` | `parser_facts.dfy` | grammar facts |
| `RoundTrip` | `round_trip.dfy` | printing against parsing |
| `ExpressionCollections` | `expression_collection.dfy` | the class with `ParseExpression` |
| `PluginConfiguration` | `plugin_configuration.dfy` | the rule records |
| `Catalog` | `catalog.dfy` | the library and the queries |
| `Reconcile` | `reconcile.dfy` | the box set and the two passes |
| `Manager` | `manager.dfy` | naming, images and the drivers |

The code's loops are methods proved against specification functions:
- the tokenizer loop, `TokenizeExpression`, against `Lex`;
- the parser's `Parse*Expression` methods, against `ParseOr` to `ParsePrimary`;
- AND matching, against `AndMatching`;
- the OR accumulation, against `OrMatching`;
- the person gathering, against `MoviesWithPerson`.

The properties are lemmas about those functions.

Objects whose fields the code updates are classes:
- `ExpressionCollection`;
- the `BoxSet`. Its linked children, lock flag and image are fields, and the
  calls issued on it to the collection manager and the library are recorded in
  `Calls`;
- `AutoCollectionsManager`, which holds the library's box sets.

Calls into Jellyfin are modelled as follows:
- **The library.** It is a value: a sequence of item records and a sequence of
  people. Each query is a filter over that value.
- **Exceptions.** In `ExecuteAutoCollectionsNoProgress`, the index set
  `failing` names the rules whose processing throws.

Notes on what the code does:
- **No expression-rule driver.** The manager never constructs or runs an
  `ExpressionCollection`, and no driver evaluates expression rules. The language
  is modelled on its own.
- **The tag-rule driver has no caller.** `ExecuteAutoCollectionsForTagTitlePair`
  (`AutoCollectionsManager.cs:563-667`) is private, and nothing calls it. The run
  over all rules (`AutoCollectionsManager.cs:361-386`) executes only the
  title-match rules. The tag driver is modelled and proved on its own.
- **Person match in SetPhotoForCollection.** The person used for a new box set's
  image is found by a name query. The name must equal the collection name
  ignoring case (`AutoCollectionsManager.cs:480-490`). A specific
  person found from the tags is likewise the first one whose name equals a tag
  ignoring case. Nothing checks that the person is the only match.
- **Per-term query.** Without a specific person, a term selects items tagged with
  it or in the genre of that name. With a specific person, every term selects the
  same thing: the items crediting that person as actor or director
  (`AutoCollectionsManager.cs:128-184`).
- **Image only when items matched.** The title-match driver sets an image only
  when the new box set received items. The tag driver tries whenever the rule
  has tags, even when nothing matched.
- **Printing NOT.** The printer writes NOT without parentheses, so a NOT directly
  under a NOT prints as `NOT NOT ...`. The parser rejects that text.
  - The printer and the grammar both behave this way; it does not come from one
    mistaken line.
  - The round trip is proved for every tree without such a nesting.
  - The counterexample, and the parenthesised form that does parse, are lemmas.

## Model

Source paths are relative to the repository root.

| member | source | states |
|---|---|---|
| Text.Trim | Jellyfin.Plugin.AutoCollections/Configuration/PluginConfiguration.cs:57 | the result is a slice of the input outside which there is only whitespace, and it neither starts nor ends with whitespace |
| Text.Split | Jellyfin.Plugin.AutoCollections/Configuration/PluginConfiguration.cs:56 | one more segment than separators, no segment holds the separator, and joining the segments with it gives back the input |
| Text.Capitalize | Jellyfin.Plugin.AutoCollections/Configuration/PluginConfiguration.cs:151-153 | only the first character changes, to its upper case; the length and the rest of the string are kept |
| Text.ToUpper | Jellyfin.Plugin.AutoCollections/Configuration/PluginConfiguration.cs:46 | lower-case ASCII letters map to their capitals, every other character is unchanged |
| Text.NatToString | Jellyfin.Plugin.AutoCollections/AutoCollectionsManager.cs:418 | a non-empty run of decimal digits, without a leading zero, whose value is the number |
| Text.CaseSensitiveImpliesIgnoreCase | Jellyfin.Plugin.AutoCollections/AutoCollectionsManager.cs:217-219 | an Ordinal substring match is also an OrdinalIgnoreCase match |
| ExpressionTree.EvaluateCongruence | Jellyfin.Plugin.AutoCollections/Configuration/ExpressionCollection.cs:75-78 | two resolvers that agree on every leaf give the tree the same value |
| ExpressionTree.EvaluateMonotone | Jellyfin.Plugin.AutoCollections/Configuration/ExpressionCollection.cs:103-106 | without NOT, making more leaves true never turns AND/OR from true to false |
| ExpressionTree.EvaluateConstant | Jellyfin.Plugin.AutoCollections/Configuration/ExpressionCollection.cs:126-129 | without NOT, a resolver that always answers b makes the whole tree b |
| ExpressionTree.EvaluateConstantNegated | Jellyfin.Plugin.AutoCollections/Configuration/ExpressionCollection.cs:147-150 | NOT over a NOT-free tree under a constant resolver b gives the negation of b |
| Tokenizer.TryMatchOperator | Jellyfin.Plugin.AutoCollections/Configuration/ExpressionCollection.cs:335-367 | succeeds exactly when the operator is spelled at the position in any letter case and is followed by the end, whitespace or a parenthesis; then yields its token and the position after it |
| Tokenizer.TryMatchCriteria | Jellyfin.Plugin.AutoCollections/Configuration/ExpressionCollection.cs:367-415 | the same for a criteria keyword, yielding the criteria token |
| Tokenizer.QuoteFrom | Jellyfin.Plugin.AutoCollections/Configuration/ExpressionCollection.cs:313-315 | the first double quote at or after the position, or the end when there is none |
| Tokenizer.ScanToken | Jellyfin.Plugin.AutoCollections/Configuration/ExpressionCollection.cs:230-327 | a successful step consumes at least one character, never yields EOF, and yields no string value holding a quote |
| Tokenizer.LexWellTerminated | Jellyfin.Plugin.AutoCollections/Configuration/ExpressionCollection.cs:330-332 | every successful tokenization ends in EOF, has no other EOF, and holds no string value with a double quote |
| Tokenizer.TokenizeExpression | Jellyfin.Plugin.AutoCollections/Configuration/ExpressionCollection.cs:215-333 | the loop's result, tokens or the first error, is exactly the tokenization Lex of the input |
| Tokenizer.SkipWhiteSpace | Jellyfin.Plugin.AutoCollections/Configuration/ExpressionCollection.cs:222-224 | stops at the first non-whitespace character or the end, and leaves the tokens of what follows unchanged |
| Tokenizer.FindClosingQuote | Jellyfin.Plugin.AutoCollections/Configuration/ExpressionCollection.cs:313-315 | the scan ends at the first double quote after the opening one, or at the end |
| Tokenizer.LexStringStep | Jellyfin.Plugin.AutoCollections/Configuration/ExpressionCollection.cs:307-323 | a quote with no closing quote fails as an unterminated literal; otherwise one string token is appended and scanning resumes after the closing quote |
| Tokenizer.LexOtherStep | Jellyfin.Plugin.AutoCollections/Configuration/ExpressionCollection.cs:327 | a character that starts no keyword, parenthesis or string fails with its position and the character |
| TokenizerFacts.KeywordsDifferEarly | Jellyfin.Plugin.AutoCollections/Configuration/ExpressionCollection.cs:230-289 | two different keywords differ in their first two letters, so at most one of the tests can match at a position |
| TokenizerFacts.OnlyThatKeyword | Jellyfin.Plugin.AutoCollections/Configuration/ExpressionCollection.cs:230-289 | where one keyword is spelled, every other keyword's test fails |
| TokenizerFacts.KeywordRecognised | Jellyfin.Plugin.AutoCollections/Configuration/ExpressionCollection.cs:230-289 | a keyword spelled in any letter case becomes its own token exactly when it is a whole word, whatever the order of the tests |
| TokenizerFacts.NoKeywordAtNonLetter | Jellyfin.Plugin.AutoCollections/Configuration/ExpressionCollection.cs:230-289 | no keyword test matches at a character that is not a letter |
| TokenizerFacts.LexSkipsWhitespace | Jellyfin.Plugin.AutoCollections/Configuration/ExpressionCollection.cs:222-224 | a run of whitespace produces no tokens |
| TokenizerFacts.LexKeyword | Jellyfin.Plugin.AutoCollections/Configuration/ExpressionCollection.cs:230-289 | a whole-word keyword is one token followed by the tokens of the rest |
| TokenizerFacts.LexGluedKeyword | Jellyfin.Plugin.AutoCollections/Configuration/ExpressionCollection.cs:327 | a keyword glued to what follows it, such as TITLE"x", is an unexpected character at its first letter |
| TokenizerFacts.LexString | Jellyfin.Plugin.AutoCollections/Configuration/ExpressionCollection.cs:307-323 | a double quote opens a string token holding exactly the characters up to the next quote; without one, the input is an unterminated literal |
| TokenizerFacts.LexParen | Jellyfin.Plugin.AutoCollections/Configuration/ExpressionCollection.cs:292-305 | each parenthesis is one token |
| Parser.ParseOr | Jellyfin.Plugin.AutoCollections/Configuration/ExpressionCollection.cs:423-435 | a success consumes at least one token; on EOF-terminated tokens it never reports an unexpected end and stops before EOF; parsed values hold no quote |
| Parser.ParseOrTail | Jellyfin.Plugin.AutoCollections/Configuration/ExpressionCollection.cs:428-432 | the OR loop never moves backwards and keeps the same end-of-input and value guarantees |
| Parser.ParseAnd | Jellyfin.Plugin.AutoCollections/Configuration/ExpressionCollection.cs:437-449 | as ParseOr, for an AND-expression |
| Parser.ParseAndTail | Jellyfin.Plugin.AutoCollections/Configuration/ExpressionCollection.cs:442-446 | as ParseOrTail, for the AND loop |
| Parser.ParseNot | Jellyfin.Plugin.AutoCollections/Configuration/ExpressionCollection.cs:451-461 | as ParseOr, for an optional NOT before one primary |
| Parser.ParsePrimary | Jellyfin.Plugin.AutoCollections/Configuration/ExpressionCollection.cs:463-500 | as ParseOr, for a parenthesised expression or a criteria leaf; MOVIE and SHOW leaves carry "" |
| Parser.ParseExpressionTree | Jellyfin.Plugin.AutoCollections/Configuration/ExpressionCollection.cs:418-421 | the same result as the OR-level parse |
| Parser.ParseOrExpression | Jellyfin.Plugin.AutoCollections/Configuration/ExpressionCollection.cs:423-435 | the loop that threads the position returns exactly ParseOr's tree and position, or its error |
| Parser.ParseAndExpression | Jellyfin.Plugin.AutoCollections/Configuration/ExpressionCollection.cs:437-449 | the loop returns exactly ParseAnd's result |
| Parser.ParseNotExpression | Jellyfin.Plugin.AutoCollections/Configuration/ExpressionCollection.cs:451-461 | returns exactly ParseNot's result |
| Parser.ParsePrimaryExpression | Jellyfin.Plugin.AutoCollections/Configuration/ExpressionCollection.cs:463-500 | returns exactly ParsePrimary's result |
| ParserFacts.AndTailChain | Jellyfin.Plugin.AutoCollections/Configuration/ExpressionCollection.cs:442-446 | the AND loop over a chain of AND-separated leaves folds them to the left |
| ParserFacts.OrTailChain | Jellyfin.Plugin.AutoCollections/Configuration/ExpressionCollection.cs:428-432 | the OR loop over a chain of OR-separated leaves folds them to the left |
| ParserFacts.AndChainLeftAssociative | Jellyfin.Plugin.AutoCollections/Configuration/ExpressionCollection.cs:437-449 | `l0 AND l1 AND ... AND ln` parses to the left-nested conjunction and consumes the whole chain |
| ParserFacts.OrChainLeftAssociative | Jellyfin.Plugin.AutoCollections/Configuration/ExpressionCollection.cs:423-435 | `l0 OR l1 OR ... OR ln` parses to the left-nested disjunction, e.g. Or(Or(A,B),C) |
| ParserFacts.AndBindsTighterLeft | Jellyfin.Plugin.AutoCollections/Configuration/ExpressionCollection.cs:423-449 | `a AND b OR c` parses to Or(And(a,b),c) |
| ParserFacts.AndBindsTighterRight | Jellyfin.Plugin.AutoCollections/Configuration/ExpressionCollection.cs:423-449 | `a OR b AND c` parses to Or(a,And(b,c)) |
| ParserFacts.NotNotRejected | Jellyfin.Plugin.AutoCollections/Configuration/ExpressionCollection.cs:451-461 | NOT NOT fails with an unexpected NOT token at every level of the grammar |
| ParserFacts.UnexpectedStart | Jellyfin.Plugin.AutoCollections/Configuration/ExpressionCollection.cs:497-499 | an expression starting with AND, OR, a string, ")" or EOF fails with that unexpected token |
| ParserFacts.CriteriaNeedsString | Jellyfin.Plugin.AutoCollections/Configuration/ExpressionCollection.cs:483-494 | a criteria keyword other than MOVIE and SHOW parses exactly when a string token follows, giving the leaf with that value; otherwise "Expected string after" the keyword |
| ParserFacts.MediaKindTakesNoString | Jellyfin.Plugin.AutoCollections/Configuration/ExpressionCollection.cs:475-481 | MOVIE and SHOW become a leaf with value "" and consume no string |
| ParserFacts.ParenthesisedEndsWithClose | Jellyfin.Plugin.AutoCollections/Configuration/ExpressionCollection.cs:465-473 | a parenthesised primary ends just after the closing parenthesis it consumed |
| ParserFacts.UnclosedParenthesis | Jellyfin.Plugin.AutoCollections/Configuration/ExpressionCollection.cs:465-473 | "(" with no ")" after it fails, with "Missing closing parenthesis" when its inner expression parses |
| ParserFacts.TrailingTokensIgnored | Jellyfin.Plugin.AutoCollections/Configuration/ExpressionCollection.cs:418-421 | tokens after a complete expression, e.g. TITLE "A" "B", are not examined: the leaf is the result |
| ParserFacts.NoUnexpectedEnd | Jellyfin.Plugin.AutoCollections/Configuration/ExpressionCollection.cs:330-332 | on any tokenizer output the parser never runs off the end and stops at or before EOF |
| ParserFacts.ParsedValuesOk | Jellyfin.Plugin.AutoCollections/Configuration/ExpressionCollection.cs:475-494 | every parsed tree gives MOVIE and SHOW the value "" and holds no value with a double quote |
| RoundTrip.LexPrintedText | Jellyfin.Plugin.AutoCollections/Configuration/ExpressionCollection.cs:80-88 | the printed text of a tree whose values hold no quote tokenizes to the tree's tokens and EOF |
| RoundTrip.PrintThenParse | Jellyfin.Plugin.AutoCollections/Configuration/ExpressionCollection.cs:108-111 | printing a tree without a NOT directly under a NOT, then parsing, gives back the same tree |
| RoundTrip.ParsedTreeReprints | Jellyfin.Plugin.AutoCollections/Configuration/ExpressionCollection.cs:131-134 | every tree parsed from text, unless it holds a NOT directly under a NOT, reparses from its printed text to itself |
| RoundTrip.DoubleNegationDoesNotReparse | Jellyfin.Plugin.AutoCollections/Configuration/ExpressionCollection.cs:152-155 | a double negation prints as NOT NOT ..., whose parse fails with an unexpected NOT token |
| RoundTrip.DoubleNegationParses | Jellyfin.Plugin.AutoCollections/Configuration/ExpressionCollection.cs:463-473 | NOT ( NOT x ) does parse to the double negation |
| ExpressionCollections.ExpressionCollection.constructor | Jellyfin.Plugin.AutoCollections/Configuration/ExpressionCollection.cs:171-177 | the default name "Auto Collection", an empty expression, case-insensitive, nothing parsed, no errors |
| ExpressionCollections.ExpressionCollection.WithExpression | Jellyfin.Plugin.AutoCollections/Configuration/ExpressionCollection.cs:179-188 | the fields as given, and the expression parsed at once: its tree stored or its one error recorded |
| ExpressionCollections.ExpressionCollection.ParseExpression | Jellyfin.Plugin.AutoCollections/Configuration/ExpressionCollection.cs:191-212 | returns true exactly when no error is left; blank text fails without tokenizing; a failure records exactly one message and keeps the previous tree; a success stores the parsed tree |
| ExpressionCollections.PrintNotBlank | Jellyfin.Plugin.AutoCollections/Configuration/ExpressionCollection.cs:80-88 | printed text is never blank, so ParseExpression never refuses it as empty |
| ExpressionCollections.PrintedExpressionParses | Jellyfin.Plugin.AutoCollections/Configuration/ExpressionCollection.cs:191-212 | ParseExpression stores back the tree whose printed text it is given, for trees without a NOT directly under a NOT |
| PluginConfiguration.GetDefaultTitle | Jellyfin.Plugin.AutoCollections/Configuration/PluginConfiguration.cs:38-48 | "Auto Collection" when the trimmed text before the first comma is empty; otherwise that text with its first character upper-cased, then " Auto Collection" |
| PluginConfiguration.FirstSplitSegment | Jellyfin.Plugin.AutoCollections/Configuration/PluginConfiguration.cs:44 | the first segment of a comma split is the text before the first comma |
| PluginConfiguration.TrimEach | Jellyfin.Plugin.AutoCollections/Configuration/PluginConfiguration.cs:57 | every segment trimmed, position by position |
| PluginConfiguration.CleanSegmentsMembers | Jellyfin.Plugin.AutoCollections/Configuration/PluginConfiguration.cs:57-58 | the cleaned segments are exactly the non-empty trimmed segments, each non-empty and trimmed |
| PluginConfiguration.CleanSegmentsInOrder | Jellyfin.Plugin.AutoCollections/Configuration/PluginConfiguration.cs:57-58 | the cleaned segments keep the order of the trimmed ones |
| PluginConfiguration.CleanSegmentsCommaFree | Jellyfin.Plugin.AutoCollections/Configuration/PluginConfiguration.cs:56-58 | trimming and dropping keep segments free of commas |
| PluginConfiguration.GetTagsArray | Jellyfin.Plugin.AutoCollections/Configuration/PluginConfiguration.cs:51-60 | empty for an empty tag. Otherwise at most one more tags than commas, each non-empty, trimmed and comma-free. The result is exactly the comma split, trimmed segment by segment, with the empty segments dropped: order and repeated tags are kept |
| PluginConfiguration.CleanSegmentsIsTrimThenFilter | Jellyfin.Plugin.AutoCollections/Configuration/PluginConfiguration.cs:57-58 | the one-pass cleaning equals trimming every segment and then dropping the empty ones, duplicates included |
| PluginConfiguration.NewDefaultTagTitlePair | Jellyfin.Plugin.AutoCollections/Configuration/PluginConfiguration.cs:24-29 | empty tag, title "Auto Collection", OR matching |
| PluginConfiguration.NewTagTitlePair | Jellyfin.Plugin.AutoCollections/Configuration/PluginConfiguration.cs:31-36 | tag and mode as given; a missing title is replaced by the default title of the tag |
| PluginConfiguration.GetDefaultCollectionName | Jellyfin.Plugin.AutoCollections/Configuration/PluginConfiguration.cs:145-163 | "Auto Collection" for an empty pattern; otherwise the capitalised pattern in the template of its match type |
| PluginConfiguration.NewDefaultTitleMatchPair | Jellyfin.Plugin.AutoCollections/Configuration/PluginConfiguration.cs:122-128 | empty pattern, name "Auto Collection", case-insensitive, match on title |
| PluginConfiguration.NewTitleMatchPair | Jellyfin.Plugin.AutoCollections/Configuration/PluginConfiguration.cs:137-143 | fields as given; a missing name is replaced by the generated collection name |
| PluginConfiguration.NewConfiguration | Jellyfin.Plugin.AutoCollections/Configuration/PluginConfiguration.cs:179-183 | no title-match rules |
| Catalog.Filter | Jellyfin.Plugin.AutoCollections/AutoCollectionsManager.cs:222-241 | the elements satisfying the predicate, and only those |
| Catalog.Distinct | Jellyfin.Plugin.AutoCollections/AutoCollectionsManager.cs:645-646 | a sub-collection of its input with the same ids, each id once |
| Catalog.DistinctSnoc | Jellyfin.Plugin.AutoCollections/AutoCollectionsManager.cs:792-798 | adding an item to the input adds it to the result exactly when its id is new |
| Catalog.GetFromLibraryMembers | Jellyfin.Plugin.AutoCollections/AutoCollectionsManager.cs:128-184 | a term's result holds library items of the kind that are tagged with it or in its genre (with a specific person: that credit the person as actor or director). Every such item is there by id, each id once |
| Catalog.KeepIds | Jellyfin.Plugin.AutoCollections/AutoCollectionsManager.cs:201 | exactly the items whose id is in the set |
| Catalog.KeepIdsInOrder | Jellyfin.Plugin.AutoCollections/AutoCollectionsManager.cs:201 | the kept items are a subsequence of the input: their order is the input's |
| Catalog.NarrowedMembers | Jellyfin.Plugin.AutoCollections/AutoCollectionsManager.cs:197-201 | an item survives the narrowing exactly when it is in the first result and its id is in every result |
| Catalog.NarrowedInOrder | Jellyfin.Plugin.AutoCollections/AutoCollectionsManager.cs:197-201 | narrowing by any number of results keeps a subsequence of the first result |
| Catalog.NarrowedStaysEmpty | Jellyfin.Plugin.AutoCollections/AutoCollectionsManager.cs:197 | once nothing is left, later terms leave nothing, so stopping the loop early is sound |
| Catalog.GetFromLibraryWithAndMatching | Jellyfin.Plugin.AutoCollections/AutoCollectionsManager.cs:188-204 | the loop with early exit computes exactly AND matching: nothing for no terms, else the narrowed first result, a subsequence of the first term's result in its order |
| Catalog.AndMatchingMembers | Jellyfin.Plugin.AutoCollections/AutoCollectionsManager.cs:107-123 | an item is AND-matched exactly when the first term's result holds it and every term's result holds its id; no id twice |
| Catalog.AndMatchingInOrder | Jellyfin.Plugin.AutoCollections/AutoCollectionsManager.cs:188-204 | AND matching is a subsequence of the first term's result; with AndMatchingMembers this fixes it as the first term's items, in order, whose id every result holds |
| Catalog.AndMatchingSelected | Jellyfin.Plugin.AutoCollections/AutoCollectionsManager.cs:188-204 | without a specific person, a library item every term selects is AND-matched |
| Catalog.FlattenMembers | Jellyfin.Plugin.AutoCollections/AutoCollectionsManager.cs:640-641 | an item is in the concatenation exactly when some part holds it |
| Catalog.OrMatchingMembers | Jellyfin.Plugin.AutoCollections/AutoCollectionsManager.cs:633-646 | every OR-matched item is selected by some tag, every item some tag selects is there by id, and no id appears twice |
| Catalog.CollectOrMatches | Jellyfin.Plugin.AutoCollections/AutoCollectionsManager.cs:633-646 | the loop over the tags and the final Distinct compute exactly OR matching, for movies and for series |
| Catalog.PersonsMatching | Jellyfin.Plugin.AutoCollections/AutoCollectionsManager.cs:760-766 | exactly the people whose name contains the pattern |
| Catalog.MoviesWithPersonMembers | Jellyfin.Plugin.AutoCollections/AutoCollectionsManager.cs:753-803 | the result holds exactly the library's movies crediting, in the role, someone whose name contains the pattern, each once |
| Catalog.GetMoviesWithPerson | Jellyfin.Plugin.AutoCollections/AutoCollectionsManager.cs:777-800 | the nested gathering loops compute exactly MoviesWithPerson |
| Catalog.GetMoviesFromLibraryByMatch | Jellyfin.Plugin.AutoCollections/AutoCollectionsManager.cs:207-242 | computes exactly MoviesByMatch: the field filter, or the movies of matching people for Actor and Director |
| Catalog.FieldMatchMembers | Jellyfin.Plugin.AutoCollections/AutoCollectionsManager.cs:245-292 | for Title, Genre and Studio, an item is matched exactly when it is a library item of the kind whose field test holds |
| Catalog.MovieMatchCaseInsensitiveWider | Jellyfin.Plugin.AutoCollections/AutoCollectionsManager.cs:217-233 | a case-sensitive field match is also a case-insensitive one |
| Catalog.EmptyGenreDiffers | Jellyfin.Plugin.AutoCollections/AutoCollectionsManager.cs:263-265 | series do not skip empty genres and movies do: the same empty genre matches the empty pattern for a series and not for a movie |
| Reconcile.BoxSet.constructor | Jellyfin.Plugin.AutoCollections/AutoCollectionsManager.cs:576-581 | a new box set has the name and tags given, is locked, and has no children, no image and no calls |
| Reconcile.ToRemove | Jellyfin.Plugin.AutoCollections/AutoCollectionsManager.cs:311-317 | exactly the children whose id is not wanted; empty when every child is wanted |
| Reconcile.ToAdd | Jellyfin.Plugin.AutoCollections/AutoCollectionsManager.cs:330-338 | exactly the wanted ids not among the children; empty when all are present |
| Reconcile.Without | Jellyfin.Plugin.AutoCollections/AutoCollectionsManager.cs:322 | exactly the children not listed for removal |
| Reconcile.Kept | Jellyfin.Plugin.AutoCollections/AutoCollectionsManager.cs:308-324 | exactly the children whose id is wanted |
| Reconcile.RemovalKeepsWanted | Jellyfin.Plugin.AutoCollections/AutoCollectionsManager.cs:308-324 | removing ToRemove leaves exactly the wanted children, in their order |
| Reconcile.RemoveAndAddDisjoint | Jellyfin.Plugin.AutoCollections/AutoCollectionsManager.cs:654-655 | no id is both removed and added |
| Reconcile.Converges | Jellyfin.Plugin.AutoCollections/AutoCollectionsManager.cs:720-721 | after removing and adding, the children are exactly the wanted ids, and the kept ones stay first in their old order |
| Reconcile.SecondRunQuiet | Jellyfin.Plugin.AutoCollections/AutoCollectionsManager.cs:319-344 | when the children already are the wanted ids, neither pass has anything to do: the reconciled children are the old ones and no call is issued |
| Reconcile.KeptAll | Jellyfin.Plugin.AutoCollections/AutoCollectionsManager.cs:311-317 | when every child is wanted, the removal pass keeps the children as they are |
| Reconcile.RemoveUnwantedMediaItems | Jellyfin.Plugin.AutoCollections/AutoCollectionsManager.cs:308-324 | the children become the wanted ones; one removal call is issued, only when something is removed; lock and image unchanged |
| Reconcile.AddWantedMediaItems | Jellyfin.Plugin.AutoCollections/AutoCollectionsManager.cs:327-345 | the missing wanted ids are appended; one add call is issued, only when something is added; lock and image unchanged |
| Reconcile.ReconcileMediaItems | Jellyfin.Plugin.AutoCollections/AutoCollectionsManager.cs:654-655 | the removal pass then the addition pass: the children become the kept ones followed by the missing wanted ids, the calls are at most one removal then at most one addition, the children are exactly the wanted ids, lock and image unchanged |
| Manager.CollectionNameFromTitle | Jellyfin.Plugin.AutoCollections/AutoCollectionsManager.cs:400-408 | a non-blank title is the name verbatim; without title and tags the name is "Auto Collection" |
| Manager.GeneratedNameStart | Jellyfin.Plugin.AutoCollections/AutoCollectionsManager.cs:410-421 | a generated name starts with the capitalised first tag and is not blank |
| Manager.CollectionNameNotBlank | Jellyfin.Plugin.AutoCollections/AutoCollectionsManager.cs:397-422 | every collection name is non-blank |
| Manager.CollectionNameStartsWithFirstTag | Jellyfin.Plugin.AutoCollections/AutoCollectionsManager.cs:405-421 | without a title, a rule with tags is named after its capitalised first tag |
| Manager.CollectionNameGenerated | Jellyfin.Plugin.AutoCollections/AutoCollectionsManager.cs:410-421 | without a title, an AND rule with several tags is named `<First> + <d> more tags` where d is the decimal text, without leading zero, of the number of other tags; every other rule with tags is named `<First> Auto Collection` |
| Manager.AndOrNamesDiffer | Jellyfin.Plugin.AutoCollections/AutoCollectionsManager.cs:415-421 | over several tags, AND mode ("... + n more tags") and OR mode ("... Auto Collection") give different names |
| Manager.PersonNamed | Jellyfin.Plugin.AutoCollections/AutoCollectionsManager.cs:480-490 | a found person is a library person whose name equals the term ignoring case and who has an image; none is found only when no such person exists |
| Manager.SpecificPersonFor | Jellyfin.Plugin.AutoCollections/AutoCollectionsManager.cs:596-616 | the person of the first tag that names one; none only when no tag does |
| Manager.FindSpecificPerson | Jellyfin.Plugin.AutoCollections/AutoCollectionsManager.cs:594-616 | the loop with break finds exactly SpecificPersonFor |
| Manager.FirstChildWithImage | Jellyfin.Plugin.AutoCollections/AutoCollectionsManager.cs:521-527 | a found id is the first child, in the children's order, whose item has an image: every earlier child has none; none only when no child's item has one |
| Manager.PhotoChoiceSound | Jellyfin.Plugin.AutoCollections/AutoCollectionsManager.cs:427-559 | the chosen image comes from the specific person, from a person named like the collection (only with no specific person), or from the first member item that has one; none only when all three have none |
| Manager.SpecificPersonFirst | Jellyfin.Plugin.AutoCollections/AutoCollectionsManager.cs:432-455 | a specific person with an image always wins |
| Manager.SpecificPersonWithoutImage | Jellyfin.Plugin.AutoCollections/AutoCollectionsManager.cs:475 | with a specific person without image, no person named like the collection is used: only a member item can give the image |
| Manager.SetPhotoForCollection | Jellyfin.Plugin.AutoCollections/AutoCollectionsManager.cs:427-559 | the chosen image is set and one update call recorded; with no choice the box set is left as is |
| Manager.SetImage | Jellyfin.Plugin.AutoCollections/AutoCollectionsManager.cs:539-545 | the image is set and one update call recorded; nothing else changes |
| Manager.FindBoxSet | Jellyfin.Plugin.AutoCollections/AutoCollectionsManager.cs:348-358 | a found box set has the name and the "Autocollection" tag; none only when no box set has both. `AutoCollectionsManager.GetBoxSetByName` is this search over the manager's box sets |
| Manager.FindBoxSetAppendOther | Jellyfin.Plugin.AutoCollections/AutoCollectionsManager.cs:348-358 | adding a box set under another name does not change what a name finds |
| Manager.FindBoxSetAppendNew | Jellyfin.Plugin.AutoCollections/AutoCollectionsManager.cs:348-358 | a box set added, tagged, after its name found nothing is what the name then finds |
| Manager.LastRunExists | Jellyfin.Plugin.AutoCollections/AutoCollectionsManager.cs:370-383 | every rule that runs leaves some last running rule under its collection name |
| Manager.LastRunIsLast | Jellyfin.Plugin.AutoCollections/AutoCollectionsManager.cs:370-383 | a running rule with no later running rule of the same collection name is that name's last run |
| Manager.AutoCollectionsManager.constructor | Jellyfin.Plugin.AutoCollections/AutoCollectionsManager.cs:36-45 | the library, configuration and box sets as given |
| Manager.AutoCollectionsManager.GetOrCreateCollection | Jellyfin.Plugin.AutoCollections/AutoCollectionsManager.cs:688-700 | the box set found by name, or a fresh empty, locked box set tagged "Autocollection" and added to the library |
| Manager.AutoCollectionsManager.ExecuteAutoCollectionsForTitleMatchPair | Jellyfin.Plugin.AutoCollections/AutoCollectionsManager.cs:670-733 | the box set the name then finds links exactly the matching movies and series; lookups of other names and the children of other box sets are unchanged. An existing one keeps its lock and image, and its children and calls are those of the removal pass followed by the addition pass. A new one is appended, locked and tagged, and gets the chosen image only when items matched |
| Manager.AutoCollectionsManager.ExecuteAutoCollectionsForTagTitlePair | Jellyfin.Plugin.AutoCollections/AutoCollectionsManager.cs:563-667 | the box set the name then finds links exactly the items the tags select under AND or OR, and lookups of other names are unchanged. Without tags, nothing but the find-or-create happens. An existing box set keeps its lock and image, and its children and calls are those of the removal pass followed by the addition pass. A new box set is appended, locked and tagged, and gets the image chosen with the specific person |
| Manager.AutoCollectionsManager.RunTitleMatchRule | Jellyfin.Plugin.AutoCollections/AutoCollectionsManager.cs:370-376 | one turn of the run: the rule's box set is then found by name and links exactly what the rule matches; other names find what they found before; every box set that existed keeps its image and lock, and one under another name keeps its children and calls |
| Manager.AutoCollectionsManager.ExecuteAutoCollectionsNoProgress | Jellyfin.Plugin.AutoCollections/AutoCollectionsManager.cs:361-386 | every rule in order. A failing rule is skipped and the run goes on. Every other rule's box set exists afterwards, and the last rule that runs under each name leaves that name's box set linking exactly what it matches. Existing box sets are kept in order and keep their image and lock. A box set whose name no running rule uses also keeps its children and calls |

## Left out

- Logging, `async`/`ConfigureAwait`, the progress and cancellation parameters of
  `ExecuteAutoCollections` (it only calls the no-progress version), the timer,
  `OnTimerElapsed`, `RunAsync`, `Dispose` and the plugin-directory creation:
  they are plumbing with no effect on collection contents. The model reads each
  awaited call as a sequential step.
- Jellyfin's query engine: `InternalItemsQuery` with `IsVirtualItem`,
  `HasTvdbId`, `Recursive` and item persistence are replaced by filters over the
  library value. Virtual items and the TVDB filter are not modelled.
- `DisplayOrder = "Default"` is not modelled: it is a display setting set on every
  run and read by nothing here.
- Image files: `SetImage` with a path, `ImageInfos` and `UpdateItemAsync` are one
  recorded `UpdateImage` call carrying the image's source (a person or a member
  item). The check `ImageInfos != null` is read as "has a primary image".
- SetPhotoForCollection: its own try/catch for provider failures is not
  modelled; the method is modelled as always succeeding.
- `Union` and `Distinct` compare references in .NET; they are modelled as
  de-duplication by id keeping the first occurrence. The `HashSet` of
  `GetMoviesWithPerson` is modelled with insertion order.
- Unicode: whitespace, `char.ToUpper` and `OrdinalIgnoreCase` are ASCII only.
- Null strings and null lists are modelled as empty ones. A null title or
  collection name in the constructors is an `Option`.
- `GetSeriesWithPerson` (AutoCollectionsManager.cs:807-857) is not modelled:
  nothing in the code calls it.
- `GetMoviesFromLibraryByTitleMatch` and `GetSeriesFromLibraryByTitleMatch` are
  not modelled: they are one-line wrappers that fix the match type to Title.
- ExecuteAutoCollectionsNoProgress: a throwing rule is modelled as failing
  before it changes anything (the index set `failing`). A rule that throws
  halfway, with some calls already issued, is not modelled.
- The collection manager's own bookkeeping behind `CreateCollectionAsync`,
  `AddToCollectionAsync` and `RemoveFromCollectionAsync` is reduced to the
  children sequence and the recorded calls.
- `Token.ToString` is modelled only where the parser uses it. That use is the
  "Expected string after" message, where the token is a criteria token and its
  text is the upper-case keyword (`CriteriaName`). Its string and other-token
  cases are not modelled.
- Plugin.cs, the scheduled task and the HTTP controller are not part of this
  model.
- GetCollectionName: the function carries no ensures of its own. Its contract
  is stated by the lemmas CollectionNameFromTitle, GeneratedNameStart,
  CollectionNameGenerated, CollectionNameNotBlank,
  CollectionNameStartsWithFirstTag and AndOrNamesDiffer.
- Evaluate, Print, Lex, ParseText, AndMatching, OrMatching, MoviesByMatch,
  SeriesByMatch and PhotoChoice are specification functions. Their properties
  are the lemmas and method contracts listed above.
- SeriesByMatch: series are selected by a plain filter with no looping method.
  The three-way query switch of `GetSeriesFromLibraryByMatch` has no loop in the
  code.
- ExecuteAutoCollectionsForTitleMatchPair and ExecuteAutoCollectionsForTagTitlePair:
  for a newly created box set, the children are stated as a set (exactly the wanted
  ids), not as a sequence, and the calls recorded on it are not stated.
- ExecuteAutoCollectionsForTagTitlePair: unlike the title-match driver, it does
  not state that box sets under other names keep their children.
- SkipWhiteSpace and FindClosingQuote are the two inner loops of
  `TokenizeExpression`, written as separate methods with their own contracts.
