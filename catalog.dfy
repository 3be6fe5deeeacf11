/** The media library as the collection rules query it: movie and series records
    with their names, genres, studios, tags and credits, the people known to the
    library, and the ways the rules select items from it. The library's own query
    engine is replaced by plain filters over the item sequence. */
module Catalog {
  import opened Wrappers
  import opened Text
  import opened PluginConfiguration

  datatype ItemKind = Movie | Series

  /** The person types the rules query: "Actor" and "Director". */
  datatype Role = ActorRole | DirectorRole

  datatype Credit = Credit(person: string, role: Role)

  datatype MediaItem = MediaItem(
    id: nat,
    kind: ItemKind,
    name: string,
    genres: seq<string>,
    studios: seq<string>,
    tags: seq<string>,
    credits: seq<Credit>,
    hasPrimaryImage: bool)

  datatype Person = Person(name: string, hasPrimaryImage: bool)

  datatype Library = Library(items: seq<MediaItem>, persons: seq<Person>)

  function Ids(xs: seq<MediaItem>): set<nat> {
    set x | x in xs :: x.id
  }

  predicate UniqueIds(xs: seq<MediaItem>) {
    forall i, j :: 0 <= i < j < |xs| ==> xs[i].id != xs[j].id
  }

  /** Enumerable.Where: the elements satisfying p, in their order. */
  function Filter(xs: seq<MediaItem>, p: MediaItem -> bool): (r: seq<MediaItem>)
    ensures |r| <= |xs|
    ensures forall x :: x in r <==> x in xs && p(x)
  {
    if xs == [] then [] else (if p(xs[0]) then [xs[0]] else []) + Filter(xs[1..], p)
  }

  lemma IdsConcat(a: seq<MediaItem>, b: seq<MediaItem>)
    ensures Ids(a + b) == Ids(a) + Ids(b)
  {
    forall n | n in Ids(a + b) ensures n in Ids(a) + Ids(b) {
      var x :| x in a + b && x.id == n;
    }
    forall n | n in Ids(a) + Ids(b) ensures n in Ids(a + b) {
      if n in Ids(a) {
        var x :| x in a && x.id == n;
        assert x in a + b;
      } else {
        var x :| x in b && x.id == n;
        assert x in a + b;
      }
    }
  }

  /** Distinct by id: the first item of each id, in order. */
  function Distinct(xs: seq<MediaItem>): (r: seq<MediaItem>)
    ensures forall x :: x in r ==> x in xs
    ensures Ids(r) == Ids(xs)
    ensures UniqueIds(r)
    decreases |xs|
  {
    if xs == [] then []
    else
      var init, x := xs[..|xs| - 1], xs[|xs| - 1];
      assert xs == init + [x];
      IdsConcat(init, [x]);
      var rest := Distinct(init);
      IdsConcat(rest, [x]);
      if x.id in Ids(rest) then rest else rest + [x]
  }

  /** Distinct on a sequence extended by one item. */
  lemma DistinctSnoc(xs: seq<MediaItem>, x: MediaItem)
    ensures Distinct(xs + [x]) == if x.id in Ids(Distinct(xs)) then Distinct(xs) else Distinct(xs) + [x]
  {
    assert (xs + [x])[..|xs|] == xs;
  }

  /** Enumerable.Union, read as de-duplication by id of the concatenation. */
  function Union(a: seq<MediaItem>, b: seq<MediaItem>): seq<MediaItem> {
    Distinct(a + b)
  }

  /** The items of one kind (IncludeItemTypes). */
  function OfKind(lib: Library, kind: ItemKind): seq<MediaItem> {
    Filter(lib.items, (x: MediaItem) => x.kind == kind)
  }

  /** The items of one kind carrying a tag (a Tags query). */
  function TaggedWith(lib: Library, kind: ItemKind, term: string): seq<MediaItem> {
    Filter(lib.items, (x: MediaItem) => x.kind == kind && term in x.tags)
  }

  /** The items of one kind in a genre (a Genres query). */
  function InGenre(lib: Library, kind: ItemKind, term: string): seq<MediaItem> {
    Filter(lib.items, (x: MediaItem) => x.kind == kind && term in x.genres)
  }

  /** The items of one kind crediting the named person in a role (a Person query
      with PersonTypes). */
  function WithPerson(lib: Library, kind: ItemKind, name: string, role: Role): seq<MediaItem> {
    Filter(lib.items, (x: MediaItem) => x.kind == kind && Credit(name, role) in x.credits)
  }

  /** GetMoviesFromLibrary / GetSeriesFromLibrary: without a specific person, the
      items tagged with the term or in the genre of that name; with one, the items
      crediting that person as actor or director, whatever the term. */
  function GetFromLibrary(lib: Library, kind: ItemKind, term: string, specificPerson: Option<Person>): seq<MediaItem> {
    if specificPerson.None? then Union(TaggedWith(lib, kind, term), InGenre(lib, kind, term))
    else Union(WithPerson(lib, kind, specificPerson.value.name, ActorRole),
               WithPerson(lib, kind, specificPerson.value.name, DirectorRole))
  }

  /** What one term selects, stated item by item. */
  predicate Selects(x: MediaItem, kind: ItemKind, term: string, specificPerson: Option<Person>) {
    x.kind == kind &&
    if specificPerson.None? then term in x.tags || term in x.genres
    else Credit(specificPerson.value.name, ActorRole) in x.credits || Credit(specificPerson.value.name, DirectorRole) in x.credits
  }

  lemma GetFromLibraryMembers(lib: Library, kind: ItemKind, term: string, specificPerson: Option<Person>)
    ensures forall x :: x in GetFromLibrary(lib, kind, term, specificPerson) ==> x in lib.items && Selects(x, kind, term, specificPerson)
    ensures forall x :: x in lib.items && Selects(x, kind, term, specificPerson) ==> x.id in Ids(GetFromLibrary(lib, kind, term, specificPerson))
    ensures UniqueIds(GetFromLibrary(lib, kind, term, specificPerson))
  {
    if specificPerson.None? {
      var a, b := TaggedWith(lib, kind, term), InGenre(lib, kind, term);
      forall x | x in lib.items && Selects(x, kind, term, specificPerson)
        ensures x.id in Ids(GetFromLibrary(lib, kind, term, specificPerson))
      {
        assert x in a + b;
      }
    } else {
      var n := specificPerson.value.name;
      var a, b := WithPerson(lib, kind, n, ActorRole), WithPerson(lib, kind, n, DirectorRole);
      forall x | x in lib.items && Selects(x, kind, term, specificPerson)
        ensures x.id in Ids(GetFromLibrary(lib, kind, term, specificPerson))
      {
        assert x in a + b;
      }
    }
  }

  /** The items of xs whose id is in ids, in their order. */
  function KeepIds(xs: seq<MediaItem>, ids: set<nat>): (r: seq<MediaItem>)
    ensures forall x :: x in r <==> x in xs && x.id in ids
  {
    if xs == [] then [] else (if xs[0].id in ids then [xs[0]] else []) + KeepIds(xs[1..], ids)
  }

  /** The kept items are in the order they have in xs. */
  lemma {:induction false} KeepIdsInOrder(xs: seq<MediaItem>, ids: set<nat>)
    ensures IsSubsequence(KeepIds(xs, ids), xs)
  {
    if xs != [] {
      KeepIdsInOrder(xs[1..], ids);
      var r := KeepIds(xs, ids);
      if xs[0].id in ids {
        assert r[0] == xs[0] && r[1..] == KeepIds(xs[1..], ids);
      } else {
        assert r == KeepIds(xs[1..], ids);
      }
    }
  }

  lemma {:induction false} KeepIdsUnique(xs: seq<MediaItem>, ids: set<nat>)
    requires UniqueIds(xs)
    ensures UniqueIds(KeepIds(xs, ids))
  {
    if xs != [] {
      KeepIdsUnique(xs[1..], ids);
      assert forall x :: x in KeepIds(xs[1..], ids) ==> x.id != xs[0].id by {
        forall x | x in KeepIds(xs[1..], ids) ensures x.id != xs[0].id {
          var k :| 0 <= k < |xs[1..]| && xs[1..][k] == x;
          assert xs[k + 1] == x;
        }
      }
    }
  }

  /** The result of each tag. */
  function PerTag(lib: Library, kind: ItemKind, tags: seq<string>, specificPerson: Option<Person>): (rs: seq<seq<MediaItem>>)
    ensures |rs| == |tags|
    ensures forall i :: 0 <= i < |tags| ==> rs[i] == GetFromLibrary(lib, kind, tags[i], specificPerson)
  {
    seq(|tags|, i requires 0 <= i < |tags| => GetFromLibrary(lib, kind, tags[i], specificPerson))
  }

  /** The first result narrowed by the ids of results 1 up to hi - 1. */
  function Narrowed(rs: seq<seq<MediaItem>>, hi: nat): seq<MediaItem>
    requires 1 <= hi <= |rs|
  {
    if hi == 1 then rs[0] else KeepIds(Narrowed(rs, hi - 1), Ids(rs[hi - 1]))
  }

  /** AND matching: nothing for no terms; otherwise the first term's items whose id
      every other term's result also holds. */
  function AndMatching(lib: Library, kind: ItemKind, terms: seq<string>, specificPerson: Option<Person>): seq<MediaItem> {
    if terms == [] then [] else Narrowed(PerTag(lib, kind, terms, specificPerson), |terms|)
  }

  lemma NarrowedStep(rs: seq<seq<MediaItem>>, i: nat)
    requires 1 <= i < |rs|
    ensures Narrowed(rs, i + 1) == KeepIds(Narrowed(rs, i), Ids(rs[i]))
  {
  }

  lemma {:induction false} NarrowedMembers(rs: seq<seq<MediaItem>>, hi: nat, x: MediaItem)
    requires 1 <= hi <= |rs|
    ensures x in Narrowed(rs, hi) <==> x in rs[0] && forall j :: 0 <= j < hi ==> x.id in Ids(rs[j])
  {
    if hi > 1 {
      NarrowedMembers(rs, hi - 1, x);
    }
  }

  lemma {:induction false} NarrowedUnique(rs: seq<seq<MediaItem>>, hi: nat)
    requires 1 <= hi <= |rs| && UniqueIds(rs[0])
    ensures UniqueIds(Narrowed(rs, hi))
  {
    if hi == 1 {
      assert Narrowed(rs, hi) == rs[0];
    } else {
      var prev := Narrowed(rs, hi - 1);
      NarrowedUnique(rs, hi - 1);
      KeepIdsUnique(prev, Ids(rs[hi - 1]));
      NarrowedStep(rs, hi - 1);
    }
  }

  /** Narrowing keeps the first result's order. */
  lemma {:induction false} NarrowedInOrder(rs: seq<seq<MediaItem>>, hi: nat)
    requires 1 <= hi <= |rs|
    ensures IsSubsequence(Narrowed(rs, hi), rs[0])
  {
    if hi == 1 {
      IsSubsequenceRefl(rs[0]);
    } else {
      NarrowedInOrder(rs, hi - 1);
      KeepIdsInOrder(Narrowed(rs, hi - 1), Ids(rs[hi - 1]));
      IsSubsequenceTrans(Narrowed(rs, hi), Narrowed(rs, hi - 1), rs[0]);
    }
  }

  /** Once nothing is left, later results leave nothing either: stopping early is sound. */
  lemma {:induction false} NarrowedStaysEmpty(rs: seq<seq<MediaItem>>, lo: nat, hi: nat)
    requires 1 <= lo <= hi <= |rs|
    requires Narrowed(rs, lo) == []
    ensures Narrowed(rs, hi) == []
  {
    if lo < hi {
      NarrowedStaysEmpty(rs, lo, hi - 1);
    }
  }

  /** Get{Movies,Series}FromLibraryWithAndMatching: the first term's results,
      narrowed by each further term in turn, stopping as soon as nothing is left. */
  method GetFromLibraryWithAndMatching(lib: Library, kind: ItemKind, terms: seq<string>,
                                       specificPerson: Option<Person>) returns (results: seq<MediaItem>)
    ensures results == AndMatching(lib, kind, terms, specificPerson)
    ensures |terms| > 0 ==> IsSubsequence(results, GetFromLibrary(lib, kind, terms[0], specificPerson))
  {
    if |terms| == 0 {
      return [];
    }
    AndMatchingInOrder(lib, kind, terms, specificPerson);
    ghost var rs := PerTag(lib, kind, terms, specificPerson);
    results := GetFromLibrary(lib, kind, terms[0], specificPerson);
    var i := 1;
    while i < |terms| && |results| > 0
      invariant 1 <= i <= |terms|
      invariant results == Narrowed(rs, i)
      decreases |terms| - i
    {
      var matchingItems := GetFromLibrary(lib, kind, terms[i], specificPerson);
      assert matchingItems == rs[i];
      NarrowedStep(rs, i);
      results := KeepIds(results, Ids(matchingItems));
      i := i + 1;
    }
    if i < |terms| {
      NarrowedStaysEmpty(rs, i, |terms|);
    }
  }

  /** An item is AND-matched exactly when the first term selects it and every term's
      result holds its id; no id appears twice. */
  lemma AndMatchingMembers(lib: Library, kind: ItemKind, terms: seq<string>, specificPerson: Option<Person>, x: MediaItem)
    requires |terms| > 0
    ensures UniqueIds(AndMatching(lib, kind, terms, specificPerson))
    ensures x in AndMatching(lib, kind, terms, specificPerson) <==>
              x in GetFromLibrary(lib, kind, terms[0], specificPerson) &&
              forall j :: 0 <= j < |terms| ==> x.id in Ids(GetFromLibrary(lib, kind, terms[j], specificPerson))
  {
    var rs := PerTag(lib, kind, terms, specificPerson);
    NarrowedMembers(rs, |terms|, x);
    NarrowedUnique(rs, |terms|);
  }

  /** AND matching keeps the items in the order of the first term's result. Together
      with AndMatchingMembers and the unique ids of that result, this fixes the
      sequence: the first term's items, in order, whose id every result holds. */
  lemma AndMatchingInOrder(lib: Library, kind: ItemKind, terms: seq<string>, specificPerson: Option<Person>)
    requires |terms| > 0
    ensures IsSubsequence(AndMatching(lib, kind, terms, specificPerson), GetFromLibrary(lib, kind, terms[0], specificPerson))
  {
    NarrowedInOrder(PerTag(lib, kind, terms, specificPerson), |terms|);
  }

  /** Without a specific person, an item every term selects is AND-matched. */
  lemma AndMatchingSelected(lib: Library, kind: ItemKind, terms: seq<string>, x: MediaItem)
    requires |terms| > 0 && x in lib.items
    requires forall j :: 0 <= j < |terms| ==> Selects(x, kind, terms[j], None)
    ensures x.id in Ids(AndMatching(lib, kind, terms, None))
  {
    forall j | 0 <= j < |terms|
      ensures x.id in Ids(GetFromLibrary(lib, kind, terms[j], None))
    {
      GetFromLibraryMembers(lib, kind, terms[j], None);
    }
    GetFromLibraryMembers(lib, kind, terms[0], None);
    var y :| y in GetFromLibrary(lib, kind, terms[0], None) && y.id == x.id;
    AndMatchingMembers(lib, kind, terms, None, y);
  }

  /** The sequences one after the other. */
  function Flatten(rs: seq<seq<MediaItem>>): seq<MediaItem> {
    if rs == [] then [] else Flatten(rs[..|rs| - 1]) + rs[|rs| - 1]
  }

  lemma {:induction false} FlattenMembers(rs: seq<seq<MediaItem>>, x: MediaItem)
    ensures x in Flatten(rs) <==> exists i :: 0 <= i < |rs| && x in rs[i]
  {
    if rs != [] {
      var init := rs[..|rs| - 1];
      FlattenMembers(init, x);
      assert forall i :: 0 <= i < |init| ==> init[i] == rs[i];
    }
  }

  lemma FlattenSnoc(rs: seq<seq<MediaItem>>, i: nat, r: seq<MediaItem>)
    requires i < |rs| && rs[i] == r
    ensures Flatten(rs[..i + 1]) == Flatten(rs[..i]) + r
  {
    assert rs[..i + 1][..i] == rs[..i];
  }

  /** OR matching: the per-tag results concatenated and de-duplicated by id. */
  function OrMatching(lib: Library, kind: ItemKind, tags: seq<string>, specificPerson: Option<Person>): seq<MediaItem> {
    Distinct(Flatten(PerTag(lib, kind, tags, specificPerson)))
  }

  /** An OR-matched item is selected by some tag, every item some tag selects is
      there by its id, and no id appears twice. */
  lemma OrMatchingMembers(lib: Library, kind: ItemKind, tags: seq<string>, specificPerson: Option<Person>)
    ensures UniqueIds(OrMatching(lib, kind, tags, specificPerson))
    ensures forall x :: x in OrMatching(lib, kind, tags, specificPerson) ==>
              exists i :: 0 <= i < |tags| && x in GetFromLibrary(lib, kind, tags[i], specificPerson)
    ensures forall i, x :: 0 <= i < |tags| && x in GetFromLibrary(lib, kind, tags[i], specificPerson) ==>
              x.id in Ids(OrMatching(lib, kind, tags, specificPerson))
  {
    var rs := PerTag(lib, kind, tags, specificPerson);
    forall x | x in OrMatching(lib, kind, tags, specificPerson)
      ensures exists i :: 0 <= i < |tags| && x in GetFromLibrary(lib, kind, tags[i], specificPerson)
    {
      FlattenMembers(rs, x);
    }
    forall i, x | 0 <= i < |tags| && x in GetFromLibrary(lib, kind, tags[i], specificPerson)
      ensures x.id in Ids(OrMatching(lib, kind, tags, specificPerson))
    {
      FlattenMembers(rs, x);
    }
  }

  /** The OR branch of ExecuteAutoCollectionsForTagTitlePair: one pass over the tags
      appending each tag's movies and series, then Distinct on both lists. */
  method CollectOrMatches(lib: Library, tags: seq<string>, specificPerson: Option<Person>)
    returns (movies: seq<MediaItem>, series: seq<MediaItem>)
    ensures movies == OrMatching(lib, Movie, tags, specificPerson)
    ensures series == OrMatching(lib, Series, tags, specificPerson)
  {
    ghost var ms := PerTag(lib, Movie, tags, specificPerson);
    ghost var ss := PerTag(lib, Series, tags, specificPerson);
    var allMovies: seq<MediaItem> := [];
    var allSeries: seq<MediaItem> := [];
    for i := 0 to |tags|
      invariant allMovies == Flatten(ms[..i])
      invariant allSeries == Flatten(ss[..i])
    {
      var movies := GetFromLibrary(lib, Movie, tags[i], specificPerson);
      var series := GetFromLibrary(lib, Series, tags[i], specificPerson);
      FlattenSnoc(ms, i, movies);
      FlattenSnoc(ss, i, series);
      allMovies := allMovies + movies;
      allSeries := allSeries + series;
    }
    assert ms[..|tags|] == ms;
    assert ss[..|tags|] == ss;
    movies := Distinct(allMovies);
    series := Distinct(allSeries);
  }

  /** The Title, Genre and Studio tests on a movie: a non-empty field containing the
      pattern. */
  predicate MovieFieldMatches(x: MediaItem, pattern: string, caseSensitive: bool, matchType: MatchType) {
    match matchType
    case Genre => exists g :: g in x.genres && g != "" && Contains(g, pattern, caseSensitive)
    case Studio => exists st :: st in x.studios && st != "" && Contains(st, pattern, caseSensitive)
    case _ => x.name != "" && Contains(x.name, pattern, caseSensitive)
  }

  /** The Title, Genre and Studio tests on a series: as for movies, except that
      empty values are not skipped. */
  predicate SeriesFieldMatches(x: MediaItem, pattern: string, caseSensitive: bool, matchType: MatchType) {
    match matchType
    case Genre => exists g :: g in x.genres && Contains(g, pattern, caseSensitive)
    case Studio => exists st :: st in x.studios && Contains(st, pattern, caseSensitive)
    case _ => Contains(x.name, pattern, caseSensitive)
  }

  /** The people whose name contains the pattern. */
  function PersonsMatching(persons: seq<Person>, pattern: string, caseSensitive: bool): (r: seq<Person>)
    ensures forall p :: p in r <==> p in persons && Contains(p.name, pattern, caseSensitive)
  {
    if persons == [] then []
    else (if Contains(persons[0].name, pattern, caseSensitive) then [persons[0]] else [])
         + PersonsMatching(persons[1..], pattern, caseSensitive)
  }

  /** Each person's movies in that role. */
  function PerPerson(lib: Library, persons: seq<Person>, role: Role): (rs: seq<seq<MediaItem>>)
    ensures |rs| == |persons|
    ensures forall i :: 0 <= i < |persons| ==> rs[i] == WithPerson(lib, Movie, persons[i].name, role)
  {
    seq(|persons|, i requires 0 <= i < |persons| => WithPerson(lib, Movie, persons[i].name, role))
  }

  /** GetMoviesWithPerson, specified: the movies crediting, in the role, someone whose
      name contains the pattern; each movie once, in the order first reached. */
  function MoviesWithPerson(lib: Library, pattern: string, role: Role, caseSensitive: bool): seq<MediaItem> {
    Distinct(Flatten(PerPerson(lib, PersonsMatching(lib.persons, pattern, caseSensitive), role)))
  }

  lemma MoviesWithPersonMembers(lib: Library, pattern: string, role: Role, caseSensitive: bool)
    ensures UniqueIds(MoviesWithPerson(lib, pattern, role, caseSensitive))
    ensures forall x :: x in MoviesWithPerson(lib, pattern, role, caseSensitive) ==>
              x in lib.items && x.kind == Movie &&
              exists p :: p in lib.persons && Contains(p.name, pattern, caseSensitive) && Credit(p.name, role) in x.credits
    ensures forall x, p :: (x in lib.items && x.kind == Movie && p in lib.persons &&
              Contains(p.name, pattern, caseSensitive) && Credit(p.name, role) in x.credits) ==>
              x.id in Ids(MoviesWithPerson(lib, pattern, role, caseSensitive))
  {
    var matching := PersonsMatching(lib.persons, pattern, caseSensitive);
    var rs := PerPerson(lib, matching, role);
    forall x | x in MoviesWithPerson(lib, pattern, role, caseSensitive)
      ensures x in lib.items && x.kind == Movie &&
              exists p :: p in lib.persons && Contains(p.name, pattern, caseSensitive) && Credit(p.name, role) in x.credits
    {
      FlattenMembers(rs, x);
      var i :| 0 <= i < |rs| && x in rs[i];
      assert matching[i] in matching;
    }
    forall x, p | x in lib.items && x.kind == Movie && p in lib.persons &&
                  Contains(p.name, pattern, caseSensitive) && Credit(p.name, role) in x.credits
      ensures x.id in Ids(MoviesWithPerson(lib, pattern, role, caseSensitive))
    {
      var i :| 0 <= i < |matching| && matching[i] == p;
      assert x in rs[i];
      FlattenMembers(rs, x);
    }
  }

  lemma SliceSnoc(before: seq<MediaItem>, xs: seq<MediaItem>, k: nat)
    requires k < |xs|
    ensures before + xs[..k + 1] == (before + xs[..k]) + [xs[k]]
  {
    assert xs[..k + 1] == xs[..k] + [xs[k]];
  }

  /** GetMoviesWithPerson: the matching people, then for each of them their movies in
      the role, gathered in a set of movies. */
  method GetMoviesWithPerson(lib: Library, personNameToMatch: string, role: Role, caseSensitive: bool)
    returns (result: seq<MediaItem>)
    ensures result == MoviesWithPerson(lib, personNameToMatch, role, caseSensitive)
  {
    var persons := PersonsMatching(lib.persons, personNameToMatch, caseSensitive);
    ghost var rs := PerPerson(lib, persons, role);
    if |persons| == 0 {
      return [];
    }
    result := [];
    ghost var gathered: seq<MediaItem> := [];
    for i := 0 to |persons|
      invariant gathered == Flatten(rs[..i])
      invariant result == Distinct(gathered)
    {
      var movies := WithPerson(lib, Movie, persons[i].name, role);
      FlattenSnoc(rs, i, movies);
      ghost var before := gathered;
      for k := 0 to |movies|
        invariant gathered == before + movies[..k]
        invariant result == Distinct(gathered)
      {
        var movie := movies[k];
        DistinctSnoc(gathered, movie);
        if movie.id !in Ids(result) {
          result := result + [movie];
        }
        SliceSnoc(before, movies, k);
        gathered := gathered + [movie];
      }
      assert movies[..|movies|] == movies;
    }
    assert rs[..|persons|] == rs;
  }

  /** GetMoviesFromLibraryByMatch, specified. */
  function MoviesByMatch(lib: Library, pattern: string, caseSensitive: bool, matchType: MatchType): seq<MediaItem> {
    match matchType
    case Actor => MoviesWithPerson(lib, pattern, ActorRole, caseSensitive)
    case Director => MoviesWithPerson(lib, pattern, DirectorRole, caseSensitive)
    case _ => Filter(OfKind(lib, Movie), (x: MediaItem) => MovieFieldMatches(x, pattern, caseSensitive, matchType))
  }

  /** GetMoviesFromLibraryByMatch: a substring test on the title, a genre or a studio,
      or the movies of the people whose name contains the pattern. */
  method GetMoviesFromLibraryByMatch(lib: Library, matchString: string, caseSensitive: bool, matchType: MatchType)
    returns (r: seq<MediaItem>)
    ensures r == MoviesByMatch(lib, matchString, caseSensitive, matchType)
  {
    match matchType {
      case Actor =>
        r := GetMoviesWithPerson(lib, matchString, ActorRole, caseSensitive);
      case Director =>
        r := GetMoviesWithPerson(lib, matchString, DirectorRole, caseSensitive);
      case _ =>
        r := Filter(OfKind(lib, Movie), (x: MediaItem) => MovieFieldMatches(x, matchString, caseSensitive, matchType));
    }
  }

  /** GetSeriesFromLibraryByMatch: a substring test on the title, a genre or a studio,
      or the series crediting a person of exactly the pattern's name. */
  function SeriesByMatch(lib: Library, pattern: string, caseSensitive: bool, matchType: MatchType): seq<MediaItem> {
    match matchType
    case Actor => WithPerson(lib, Series, pattern, ActorRole)
    case Director => WithPerson(lib, Series, pattern, DirectorRole)
    case _ => Filter(OfKind(lib, Series), (x: MediaItem) => SeriesFieldMatches(x, pattern, caseSensitive, matchType))
  }

  /** The Title, Genre and Studio selections, item by item. */
  lemma FieldMatchMembers(lib: Library, pattern: string, caseSensitive: bool, matchType: MatchType, x: MediaItem)
    requires matchType != Actor && matchType != Director
    ensures x in MoviesByMatch(lib, pattern, caseSensitive, matchType) <==>
              x in lib.items && x.kind == Movie && MovieFieldMatches(x, pattern, caseSensitive, matchType)
    ensures x in SeriesByMatch(lib, pattern, caseSensitive, matchType) <==>
              x in lib.items && x.kind == Series && SeriesFieldMatches(x, pattern, caseSensitive, matchType)
  {
  }

  /** A case-sensitive match is also a match when case is ignored. */
  lemma MovieMatchCaseInsensitiveWider(x: MediaItem, pattern: string, matchType: MatchType)
    requires matchType != Actor && matchType != Director
    requires MovieFieldMatches(x, pattern, true, matchType)
    ensures MovieFieldMatches(x, pattern, false, matchType)
  {
    match matchType
    case Genre =>
      var g :| g in x.genres && g != "" && Contains(g, pattern, true);
      CaseSensitiveImpliesIgnoreCase(g, pattern);
    case Studio =>
      var st :| st in x.studios && st != "" && Contains(st, pattern, true);
      CaseSensitiveImpliesIgnoreCase(st, pattern);
    case Title =>
      CaseSensitiveImpliesIgnoreCase(x.name, pattern);
  }

  /** Movies skip empty values and series do not: with the empty pattern, a series
      with an empty genre matches and a movie with only that genre does not. */
  lemma EmptyGenreDiffers(x: MediaItem)
    requires x.genres == [""]
    ensures SeriesFieldMatches(x, "", true, Genre)
    ensures !MovieFieldMatches(x, "", true, Genre)
  {
    EmptyNeedle("", true);
  }
}
