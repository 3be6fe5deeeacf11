/** The rule records a user configures: the older comma-separated tag rules
    (TagTitlePair), the pattern rules (TitleMatchPair), and the defaults and
    name generators their constructors use. */
module PluginConfiguration {
  import opened Wrappers
  import opened Text

  /** How the tags of one TagTitlePair combine. */
  datatype TagMatchingMode = Or | And

  /** What a TitleMatchPair's pattern is compared against. */
  datatype MatchType = Title | Genre | Studio | Actor | Director

  const DefaultName: string := "Auto Collection"

  datatype TagTitlePair = TagTitlePair(tag: string, title: string, matchingMode: TagMatchingMode)

  datatype TitleMatchPair = TitleMatchPair(
    titleMatch: string,
    collectionName: string,
    caseSensitive: bool,
    matchType: MatchType)

  datatype Configuration = Configuration(titleMatchPairs: seq<TitleMatchPair>)

  /** The text before the first comma of s (all of s when it has none). */
  function FirstSegment(s: string): string {
    s[..IndexOf(s, ',')]
  }

  /** s has no whitespace at either end. */
  predicate IsTrimmed(s: string) {
    s == [] || (!IsWhiteSpace(s[0]) && !IsWhiteSpace(s[|s| - 1]))
  }

  lemma {:induction false} FirstSplitSegment(s: string)
    ensures Split(s, ',')[0] == FirstSegment(s)
  {
    var i := IndexOf(s, ',');
    if i < |s| {
      assert (Split(s, ',') == [s[..i]] + Split(s[i + 1..], ','));
    }
  }

  /** TagTitlePair.GetDefaultTitle: the trimmed text before the first comma,
      capitalised, followed by " Auto Collection"; just "Auto Collection" when the
      tag is empty or that text is blank. */
  function GetDefaultTitle(tag: string): (r: string)
    ensures var first := Trim(FirstSegment(tag));
            && (first == [] ==> r == DefaultName)
            && (first != [] ==> r == [ToUpper(first[0])] + first[1..] + " Auto Collection")
  {
    if tag == "" then DefaultName
    else
      FirstSplitSegment(tag);
      var firstTag := Trim(Split(tag, ',')[0]);
      if |firstTag| > 0 then Capitalize(firstTag) + " Auto Collection" else DefaultName
  }

  /** Every segment trimmed, in order. */
  function TrimEach(segs: seq<string>): (r: seq<string>)
    ensures |r| == |segs|
    ensures forall k :: 0 <= k < |segs| ==> r[k] == Trim(segs[k])
  {
    if segs == [] then [] else [Trim(segs[0])] + TrimEach(segs[1..])
  }

  /** a can be obtained from b by deleting elements: the order of a's elements is b's. */
  predicate IsSubsequence<T(==)>(a: seq<T>, b: seq<T>) {
    if a == [] then true
    else if b == [] then false
    else (a[0] == b[0] && IsSubsequence(a[1..], b[1..])) || IsSubsequence(a, b[1..])
  }

  lemma {:induction false} IsSubsequenceRefl<T>(a: seq<T>)
    ensures IsSubsequence(a, a)
  {
    if a != [] {
      IsSubsequenceRefl(a[1..]);
    }
  }

  /** Deleting elements twice is deleting elements once. */
  lemma {:induction false} IsSubsequenceTrans<T>(a: seq<T>, b: seq<T>, c: seq<T>)
    requires IsSubsequence(a, b) && IsSubsequence(b, c)
    ensures IsSubsequence(a, c)
    decreases |c|
  {
    if a != [] {
      if IsSubsequence(b, c[1..]) {
        IsSubsequenceTrans(a, b, c[1..]);
      } else if a[0] == b[0] && IsSubsequence(a[1..], b[1..]) {
        IsSubsequenceTrans(a[1..], b[1..], c[1..]);
      } else {
        IsSubsequenceTrans(a, b[1..], c[1..]);
      }
    }
  }

  /** The trimmed segments, with the empty ones dropped. */
  function CleanSegments(segs: seq<string>): (r: seq<string>)
    ensures |r| <= |segs|
  {
    if segs == [] then []
    else
      var t := Trim(segs[0]);
      if t == [] then CleanSegments(segs[1..]) else [t] + CleanSegments(segs[1..])
  }

  /** Every cleaned segment is non-empty and trimmed, and the cleaned segments are
      exactly the non-empty trimmed ones. */
  lemma {:induction false} CleanSegmentsMembers(segs: seq<string>)
    ensures forall x :: x in CleanSegments(segs) ==> x != [] && IsTrimmed(x)
    ensures forall x :: x in CleanSegments(segs) <==> x != [] && x in TrimEach(segs)
  {
    if segs != [] {
      var t := Trim(segs[0]);
      var rest := CleanSegments(segs[1..]);
      CleanSegmentsMembers(segs[1..]);
      assert TrimEach(segs) == [t] + TrimEach(segs[1..]);
      if t != [] {
        assert IsTrimmed(t);
        assert CleanSegments(segs) == [t] + rest;
      }
    }
  }

  /** Enumerable.Where(t => !string.IsNullOrEmpty(t)): the non-empty strings, in order,
      each as often as it occurs. */
  function NonEmpty(xs: seq<string>): (r: seq<string>)
    ensures |r| <= |xs|
  {
    if xs == [] then [] else (if xs[0] == [] then [] else [xs[0]]) + NonEmpty(xs[1..])
  }

  /** Cleaning is the two stages of the query one after the other: trim every segment,
      then keep the non-empty results. */
  lemma {:induction false} CleanSegmentsIsTrimThenFilter(segs: seq<string>)
    ensures CleanSegments(segs) == NonEmpty(TrimEach(segs))
  {
    if segs != [] {
      CleanSegmentsIsTrimThenFilter(segs[1..]);
      assert TrimEach(segs) == [Trim(segs[0])] + TrimEach(segs[1..]);
      assert TrimEach(segs)[1..] == TrimEach(segs[1..]);
    }
  }

  /** The cleaned segments keep the order of the trimmed ones. */
  lemma {:induction false} CleanSegmentsInOrder(segs: seq<string>)
    ensures IsSubsequence(CleanSegments(segs), TrimEach(segs))
  {
    if segs != [] {
      var t := Trim(segs[0]);
      var rest := CleanSegments(segs[1..]);
      CleanSegmentsInOrder(segs[1..]);
      assert TrimEach(segs)[1..] == TrimEach(segs[1..]);
      if t == [] {
        assert CleanSegments(segs) == rest;
        assert IsSubsequence(rest, TrimEach(segs));
      } else {
        assert CleanSegments(segs)[1..] == rest;
      }
    }
  }

  lemma {:induction false} TrimKeepsOutComma(seg: string)
    requires ',' !in seg
    ensures ',' !in Trim(seg)
  {
    var t := Trim(seg);
    var lo :| TrimmedAt(seg, t, lo);
    forall j | 0 <= j < |t| ensures t[j] != ',' {
      assert t[j] == seg[lo + j];
    }
  }

  /** TagTitlePair.GetTagsArray: the comma-separated tags, each trimmed, empty ones
      dropped, in the order they are written. */
  function GetTagsArray(tag: string): (r: seq<string>)
    ensures tag == "" ==> r == []
    ensures |r| <= CountChar(tag, ',') + 1
    ensures forall k :: 0 <= k < |r| ==> r[k] != [] && IsTrimmed(r[k]) && ',' !in r[k]
    ensures tag != "" ==> forall x :: x in r <==> x != [] && x in TrimEach(Split(tag, ','))
    ensures tag != "" ==> IsSubsequence(r, TrimEach(Split(tag, ',')))
    ensures tag != "" ==> r == NonEmpty(TrimEach(Split(tag, ',')))
  {
    if tag == "" then []
    else
      var segs := Split(tag, ',');
      CleanSegmentsIsTrimThenFilter(segs);
      CleanSegmentsMembers(segs);
      CleanSegmentsInOrder(segs);
      CleanSegmentsCommaFree(segs);
      var r := CleanSegments(segs);
      assert forall k :: 0 <= k < |r| ==> r[k] in r;
      r
  }

  /** Segments without commas stay without commas once cleaned. */
  lemma CleanSegmentsCommaFree(segs: seq<string>)
    requires forall k :: 0 <= k < |segs| ==> ',' !in segs[k]
    ensures forall k :: 0 <= k < |CleanSegments(segs)| ==> ',' !in CleanSegments(segs)[k]
  {
    var r := CleanSegments(segs);
    CleanSegmentsMembers(segs);
    forall k | 0 <= k < |r| ensures ',' !in r[k] {
      assert r[k] in TrimEach(segs);
      var j :| 0 <= j < |segs| && TrimEach(segs)[j] == r[k];
      TrimKeepsOutComma(segs[j]);
    }
  }

  /** The parameterless TagTitlePair constructor. */
  function NewDefaultTagTitlePair(): (p: TagTitlePair)
    ensures p.tag == "" && p.title == DefaultName && p.matchingMode == Or
  {
    TagTitlePair("", DefaultName, Or)
  }

  /** TagTitlePair(tag, title = null, matchingMode = Or): a missing (null) title is
      replaced by the generated default title. */
  function NewTagTitlePair(tag: string, title: Option<string>, matchingMode: TagMatchingMode): (p: TagTitlePair)
    ensures p.tag == tag && p.matchingMode == matchingMode
    ensures title.Some? ==> p.title == title.value
    ensures title.None? ==> p.title == GetDefaultTitle(tag)
  {
    TagTitlePair(tag, if title.Some? then title.value else GetDefaultTitle(tag), matchingMode)
  }

  /** TitleMatchPair.GetDefaultCollectionName: the capitalised pattern placed in a
      per-type template, or "Auto Collection" for an empty pattern. */
  function GetDefaultCollectionName(matchString: string, matchType: MatchType): (r: string)
    ensures matchString == "" ==> r == DefaultName
    ensures matchString != "" ==> var x := [ToUpper(matchString[0])] + matchString[1..];
              r == match matchType
                   case Genre => x + " Collection"
                   case Studio => x + " Productions"
                   case Actor => x + "'s Filmography"
                   case Director => "Directed by " + x
                   case Title => x + " Collection"
  {
    if matchString == "" then DefaultName
    else
      var capitalizedMatch := Capitalize(matchString);
      match matchType
      case Genre => capitalizedMatch + " Collection"
      case Studio => capitalizedMatch + " Productions"
      case Actor => capitalizedMatch + "'s Filmography"
      case Director => "Directed by " + capitalizedMatch
      case Title => capitalizedMatch + " Collection"
  }

  /** The parameterless TitleMatchPair constructor. */
  function NewDefaultTitleMatchPair(): (p: TitleMatchPair)
    ensures p.titleMatch == "" && p.collectionName == DefaultName
    ensures !p.caseSensitive && p.matchType == Title
  {
    TitleMatchPair("", DefaultName, false, Title)
  }

  /** TitleMatchPair(titleMatch, collectionName = null, caseSensitive = false,
      matchType = Title): a missing (null) name is replaced by the generated one. */
  function NewTitleMatchPair(titleMatch: string, collectionName: Option<string>, caseSensitive: bool,
                             matchType: MatchType): (p: TitleMatchPair)
    ensures p.titleMatch == titleMatch && p.caseSensitive == caseSensitive && p.matchType == matchType
    ensures collectionName.Some? ==> p.collectionName == collectionName.value
    ensures collectionName.None? ==> p.collectionName == GetDefaultCollectionName(titleMatch, matchType)
  {
    TitleMatchPair(titleMatch,
                   if collectionName.Some? then collectionName.value
                   else GetDefaultCollectionName(titleMatch, matchType),
                   caseSensitive, matchType)
  }

  /** The parameterless PluginConfiguration constructor: no rules. */
  function NewConfiguration(): (c: Configuration)
    ensures c.titleMatchPairs == []
  {
    Configuration([])
  }
}
