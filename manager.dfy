/** AutoCollectionsManager: the rule drivers that name, find or create, fill and
    illustrate one box set per rule, and the run over all configured rules. */
module Manager {
  import opened Wrappers
  import opened Text
  import opened PluginConfiguration
  import opened Catalog
  import opened Reconcile

  /** The name built from the first tag when a rule has no title: "<Tag> + <n> more
      tags" for AND matching over several tags, "<Tag> Auto Collection" otherwise. */
  function GeneratedName(firstTag: string, tagCount: nat, matchingMode: TagMatchingMode): string {
    var capitalizedTag := Capitalize(firstTag);
    if matchingMode == And && tagCount > 1 then capitalizedTag + " + " + NatToString(tagCount - 1) + " more tags"
    else capitalizedTag + " Auto Collection"
  }

  /** GetCollectionName: a non-blank title as given; otherwise a name built from the
      first tag, or "Auto Collection" when there are no tags. */
  function GetCollectionName(pair: TagTitlePair): string {
    if !IsNullOrWhiteSpace(pair.title) then pair.title
    else
      var tags := GetTagsArray(pair.tag);
      if |tags| == 0 then DefaultName else GeneratedName(tags[0], |tags|, pair.matchingMode)
  }

  /** A title that is not blank is used verbatim; a rule without title or tags gets
      "Auto Collection". */
  lemma CollectionNameFromTitle(pair: TagTitlePair)
    ensures !IsNullOrWhiteSpace(pair.title) ==> GetCollectionName(pair) == pair.title
    ensures IsNullOrWhiteSpace(pair.title) && GetTagsArray(pair.tag) == [] ==> GetCollectionName(pair) == DefaultName
  {
  }

  /** Upper-casing never turns a character into whitespace. */
  lemma ToUpperKeepsNonWhiteSpace(c: char)
    requires !IsWhiteSpace(c)
    ensures !IsWhiteSpace(ToUpper(c))
  {
  }

  /** A generated name starts with the capitalised tag and is never blank when the
      tag is not. */
  lemma GeneratedNameStart(firstTag: string, tagCount: nat, matchingMode: TagMatchingMode)
    requires firstTag != [] && !IsWhiteSpace(firstTag[0])
    ensures var r := GeneratedName(firstTag, tagCount, matchingMode);
            |firstTag| <= |r| && r[..|firstTag|] == Capitalize(firstTag) && !IsWhiteSpace(r[0])
  {
    var c := Capitalize(firstTag);
    ToUpperKeepsNonWhiteSpace(firstTag[0]);
    if matchingMode == And && tagCount > 1 {
      var tail := " + " + NatToString(tagCount - 1) + " more tags";
      assert (c + tail)[..|c|] == c;
      assert (c + tail)[0] == c[0];
    } else {
      assert (c + " Auto Collection")[..|c|] == c;
      assert (c + " Auto Collection")[0] == c[0];
    }
  }

  /** Every collection name is usable: it is never blank. */
  lemma CollectionNameNotBlank(pair: TagTitlePair)
    ensures !IsNullOrWhiteSpace(GetCollectionName(pair))
  {
    if IsNullOrWhiteSpace(pair.title) {
      var tags := GetTagsArray(pair.tag);
      if |tags| == 0 {
        assert DefaultName[0] == 'A';
      } else {
        GeneratedNameStart(tags[0], |tags|, pair.matchingMode);
      }
    }
  }

  /** Without a title, a rule with tags is named after its first tag: the capitalised
      tag starts the name. */
  lemma CollectionNameStartsWithFirstTag(pair: TagTitlePair)
    requires IsNullOrWhiteSpace(pair.title) && GetTagsArray(pair.tag) != []
    ensures var first := Capitalize(GetTagsArray(pair.tag)[0]);
            |first| <= |GetCollectionName(pair)| && GetCollectionName(pair)[..|first|] == first
  {
    var tags := GetTagsArray(pair.tag);
    GeneratedNameStart(tags[0], |tags|, pair.matchingMode);
  }

  /** Over several tags, AND and OR matching generate different names: the AND name
      ends in "tags", the OR name in "Collection". */
  lemma AndOrNamesDiffer(firstTag: string, tagCount: nat)
    requires tagCount > 1
    ensures GeneratedName(firstTag, tagCount, And) != GeneratedName(firstTag, tagCount, Or)
  {
    var c := Capitalize(firstTag);
    var a := c + " + " + NatToString(tagCount - 1) + " more tags";
    var o := c + " Auto Collection";
    assert a[|a| - 1] == 's';
    assert o[|o| - 1] == 'n';
  }

  /** The full generated name of a rule with a blank title and at least one tag. For
      AND matching over several tags it reads "<Tag> + <d> more tags", where d is a
      decimal numeral without leading zero whose value is the number of the other tags;
      otherwise it reads "<Tag> Auto Collection". */
  lemma CollectionNameGenerated(pair: TagTitlePair)
    requires IsNullOrWhiteSpace(pair.title) && GetTagsArray(pair.tag) != []
    ensures var tags := GetTagsArray(pair.tag);
            var c := Capitalize(tags[0]);
            var name := GetCollectionName(pair);
            (pair.matchingMode == And && |tags| > 1 ==>
               |name| > |c| + 13 &&
               var d := name[|c| + 3 .. |name| - 10];
               name == c + " + " + d + " more tags" &&
               (forall i :: 0 <= i < |d| ==> '0' <= d[i] <= '9') &&
               DigitsValue(d) == |tags| - 1 && (|d| > 1 ==> d[0] != '0')) &&
            (!(pair.matchingMode == And && |tags| > 1) ==> name == c + " Auto Collection")
  {
    var tags := GetTagsArray(pair.tag);
    var c := Capitalize(tags[0]);
    if pair.matchingMode == And && |tags| > 1 {
      var d := NatToString(|tags| - 1);
      var name := c + " + " + d + " more tags";
      assert GetCollectionName(pair) == name;
      assert name[|c| + 3 .. |name| - 10] == d;
    }
  }

  /** The person a name query picks: the first whose name equals the term when case
      is ignored and who has a primary image. */
  predicate PersonMatches(p: Person, term: string) {
    EqualsIgnoreCase(p.name, term) && p.hasPrimaryImage
  }

  function PersonNamed(persons: seq<Person>, term: string): (r: Option<Person>)
    ensures r.Some? ==> r.value in persons && PersonMatches(r.value, term)
    ensures r.None? ==> forall p :: p in persons ==> !PersonMatches(p, term)
  {
    if persons == [] then None
    else if PersonMatches(persons[0], term) then Some(persons[0])
    else PersonNamed(persons[1..], term)
  }

  /** The person of the first tag that names one. */
  function SpecificPersonFor(persons: seq<Person>, tags: seq<string>): (r: Option<Person>)
    ensures r.Some? ==> exists i :: 0 <= i < |tags| && PersonNamed(persons, tags[i]) == r &&
                          forall j :: 0 <= j < i ==> PersonNamed(persons, tags[j]).None?
    ensures r.None? ==> forall i :: 0 <= i < |tags| ==> PersonNamed(persons, tags[i]).None?
  {
    if tags == [] then None
    else if PersonNamed(persons, tags[0]).Some? then PersonNamed(persons, tags[0])
    else
      var r := SpecificPersonFor(persons, tags[1..]);
      assert forall i :: 1 <= i < |tags| ==> tags[i] == tags[1..][i - 1];
      r
  }

  /** The search for a specific person in ExecuteAutoCollectionsForTagTitlePair: the
      tags in order, stopping at the first one that names a person with an image. */
  method FindSpecificPerson(persons: seq<Person>, tags: seq<string>) returns (specificPerson: Option<Person>)
    ensures specificPerson == SpecificPersonFor(persons, tags)
  {
    specificPerson := None;
    for i := 0 to |tags|
      invariant specificPerson.None?
      invariant SpecificPersonFor(persons, tags) == SpecificPersonFor(persons, tags[i..])
    {
      assert tags[i..][0] == tags[i] && tags[i..][1..] == tags[i + 1..];
      specificPerson := PersonNamed(persons, tags[i]);
      if specificPerson.Some? {
        break;
      }
    }
    assert specificPerson.None? ==> tags[|tags|..] == [];
  }

  /** A member item has a primary image. */
  predicate HasImage(items: seq<MediaItem>, id: nat) {
    exists x :: x in items && x.id == id && x.hasPrimaryImage
  }

  function FirstChildWithImage(items: seq<MediaItem>, children: seq<nat>): (r: Option<nat>)
    ensures r.Some? ==> r.value in children && HasImage(items, r.value)
    ensures r.None? ==> forall c :: c in children ==> !HasImage(items, c)
    ensures r.Some? ==> exists k :: 0 <= k < |children| && children[k] == r.value &&
                                    forall j :: 0 <= j < k ==> !HasImage(items, children[j])
  {
    if children == [] then None
    else if HasImage(items, children[0]) then Some(children[0])
    else
      var r := FirstChildWithImage(items, children[1..]);
      assert r.Some? ==> exists k :: 0 <= k < |children| && children[k] == r.value &&
                                     forall j :: 0 <= j < k ==> !HasImage(items, children[j]) by {
        if r.Some? {
          var k :| 0 <= k < |children[1..]| && children[1..][k] == r.value &&
                   forall j :: 0 <= j < k ==> !HasImage(items, children[1..][j]);
          assert children[k + 1] == r.value;
          assert forall j :: 0 <= j < k + 1 ==> !HasImage(items, children[j]) by {
            forall j | 0 <= j < k + 1 ensures !HasImage(items, children[j]) {
              if j > 0 {
                assert children[j] == children[1..][j - 1];
              }
            }
          }
        }
      }
      r
  }

  /** SetPhotoForCollection's choice: the specific person's image; failing that, and
      only when there is no specific person, the image of a person named like the
      collection; failing that, the image of the first member item that has one. */
  function PhotoChoice(lib: Library, collectionName: string, specificPerson: Option<Person>,
                       children: seq<nat>): Option<ImageSource>
  {
    if specificPerson.Some? && specificPerson.value.hasPrimaryImage then
      Some(PersonImage(specificPerson.value.name))
    else if specificPerson.None? && PersonNamed(lib.persons, collectionName).Some? then
      Some(PersonImage(PersonNamed(lib.persons, collectionName).value.name))
    else match FirstChildWithImage(lib.items, children)
      case Some(id) => Some(ItemImage(id))
      case None => None
  }

  /** The chosen image always exists: it belongs to the specific person, to a person
      named like the collection, or to a member item. No image is chosen only when
      none of these has one. */
  lemma PhotoChoiceSound(lib: Library, collectionName: string, specificPerson: Option<Person>, children: seq<nat>)
    ensures var c := PhotoChoice(lib, collectionName, specificPerson, children);
            (c.Some? && c.value.PersonImage? ==>
               (specificPerson.Some? && specificPerson.value.hasPrimaryImage && c.value.person == specificPerson.value.name) ||
               (specificPerson.None? && exists p :: p in lib.persons && PersonMatches(p, collectionName) && c.value.person == p.name)) &&
            (c.Some? && c.value.ItemImage? ==>
               c.value.item in children && HasImage(lib.items, c.value.item) &&
               exists k :: 0 <= k < |children| && children[k] == c.value.item &&
                           forall j :: 0 <= j < k ==> !HasImage(lib.items, children[j])) &&
            (c.None? <==> (specificPerson.None? || !specificPerson.value.hasPrimaryImage) &&
                          (specificPerson.None? ==> forall p :: p in lib.persons ==> !PersonMatches(p, collectionName)) &&
                          forall id :: id in children ==> !HasImage(lib.items, id))
  {
  }

  /** A specific person with an image always wins over the member items. */
  lemma SpecificPersonFirst(lib: Library, collectionName: string, p: Person, children: seq<nat>)
    requires p.hasPrimaryImage
    ensures PhotoChoice(lib, collectionName, Some(p), children) == Some(PersonImage(p.name))
  {
  }

  /** A specific person without an image is not replaced by someone named like the
      collection: the member items decide. */
  lemma SpecificPersonWithoutImage(lib: Library, collectionName: string, p: Person, children: seq<nat>)
    requires !p.hasPrimaryImage
    ensures PhotoChoice(lib, collectionName, Some(p), children).Some? ==>
              PhotoChoice(lib, collectionName, Some(p), children).value.ItemImage?
  {
  }

  /** SetPhotoForCollection: set and store the chosen image, or leave the box set as it
      is when there is none. */
  method SetPhotoForCollection(lib: Library, collection: BoxSet, specificPerson: Option<Person>)
    modifies collection
    ensures var choice := PhotoChoice(lib, collection.Name, specificPerson, old(collection.Children));
            (choice.None? ==> collection.Image == old(collection.Image) && collection.Calls == old(collection.Calls)) &&
            (choice.Some? ==> collection.Image == choice && collection.Calls == old(collection.Calls) + [UpdateImage(choice.value)])
    ensures collection.IsLocked == old(collection.IsLocked) && collection.Children == old(collection.Children)
  {
    if specificPerson.Some? && specificPerson.value.hasPrimaryImage {
      SetImage(collection, PersonImage(specificPerson.value.name));
      return;
    }
    if specificPerson.None? {
      var person := PersonNamed(lib.persons, collection.Name);
      if person.Some? {
        SetImage(collection, PersonImage(person.value.name));
        return;
      }
    }
    var mediaItemWithImage := FirstChildWithImage(lib.items, collection.Children);
    if mediaItemWithImage.Some? {
      SetImage(collection, ItemImage(mediaItemWithImage.value));
    }
  }

  /** collection.SetImage followed by UpdateItemAsync. */
  method SetImage(collection: BoxSet, source: ImageSource)
    modifies collection
    ensures collection.Image == Some(source) && collection.Calls == old(collection.Calls) + [UpdateImage(source)]
    ensures collection.IsLocked == old(collection.IsLocked) && collection.Children == old(collection.Children)
  {
    collection.Image := Some(source);
    collection.Calls := collection.Calls + [UpdateImage(source)];
  }

  /** The first box set with the name that carries the "Autocollection" tag. */
  function FindBoxSet(boxes: seq<BoxSet>, name: string): (r: Option<BoxSet>)
    ensures r.Some? ==> r.value in boxes && r.value.Name == name && AutoCollectionTag in r.value.Tags
    ensures r.None? ==> forall b :: b in boxes ==> !(b.Name == name && AutoCollectionTag in b.Tags)
  {
    if boxes == [] then None
    else if boxes[0].Name == name && AutoCollectionTag in boxes[0].Tags then Some(boxes[0])
    else FindBoxSet(boxes[1..], name)
  }

  /** Appending a box set with another name never changes what a name finds. */
  lemma {:induction false} FindBoxSetAppendOther(boxes: seq<BoxSet>, b: BoxSet, name: string)
    requires b.Name != name
    ensures FindBoxSet(boxes + [b], name) == FindBoxSet(boxes, name)
  {
    if boxes != [] {
      FindBoxSetAppendOther(boxes[1..], b, name);
      assert (boxes + [b])[1..] == boxes[1..] + [b];
    }
  }

  /** A box set appended after a failed search is the one the name then finds. */
  lemma {:induction false} FindBoxSetAppendNew(boxes: seq<BoxSet>, b: BoxSet, name: string)
    requires FindBoxSet(boxes, name).None? && b.Name == name && AutoCollectionTag in b.Tags
    ensures FindBoxSet(boxes + [b], name) == Some(b)
  {
    if boxes != [] {
      FindBoxSetAppendNew(boxes[1..], b, name);
      assert (boxes + [b])[1..] == boxes[1..] + [b];
    }
  }

  /** The children are exactly the ids of the items. */
  ghost predicate LinksExactly(children: seq<nat>, items: seq<MediaItem>) {
    forall n :: n in children <==> n in Ids(items)
  }

  /** No rule after the k-th and before upTo, among those that run, names the same
      box set. */
  predicate LastFor(pairs: seq<TitleMatchPair>, failing: set<nat>, k: nat, upTo: nat)
    requires k < |pairs| && upTo <= |pairs|
  {
    forall j :: k < j < upTo && j !in failing ==> pairs[j].collectionName != pairs[k].collectionName
  }

  /** No rule before upTo that runs names the box set. */
  predicate Unnamed(pairs: seq<TitleMatchPair>, failing: set<nat>, upTo: nat, name: string)
    requires upTo <= |pairs|
  {
    forall j :: 0 <= j < upTo && j !in failing ==> pairs[j].collectionName != name
  }

  /** The index of the last rule before upTo that runs and names the box set, if any. */
  function LastRun(pairs: seq<TitleMatchPair>, failing: set<nat>, upTo: nat, name: string): (r: Option<nat>)
    requires upTo <= |pairs|
    ensures r.Some? ==> r.value < upTo && r.value !in failing && pairs[r.value].collectionName == name
  {
    if upTo == 0 then None
    else if upTo - 1 !in failing && pairs[upTo - 1].collectionName == name then Some(upTo - 1)
    else LastRun(pairs, failing, upTo - 1, name)
  }

  /** Every rule that runs leaves a last run under its name. */
  lemma {:induction false} LastRunExists(pairs: seq<TitleMatchPair>, failing: set<nat>, upTo: nat, k: nat)
    requires k < upTo <= |pairs| && k !in failing
    ensures LastRun(pairs, failing, upTo, pairs[k].collectionName).Some?
  {
    if k < upTo - 1 && !(upTo - 1 !in failing && pairs[upTo - 1].collectionName == pairs[k].collectionName) {
      LastRunExists(pairs, failing, upTo - 1, k);
    }
  }

  /** A rule that runs with no later running rule under its name is the last run. */
  lemma {:induction false} LastRunIsLast(pairs: seq<TitleMatchPair>, failing: set<nat>, upTo: nat, k: nat)
    requires k < upTo <= |pairs| && k !in failing && LastFor(pairs, failing, k, upTo)
    ensures LastRun(pairs, failing, upTo, pairs[k].collectionName) == Some(k)
  {
    if k < upTo - 1 {
      assert !(upTo - 1 !in failing && pairs[upTo - 1].collectionName == pairs[k].collectionName);
      assert LastFor(pairs, failing, k, upTo - 1);
      LastRunIsLast(pairs, failing, upTo - 1, k);
    }
  }

  /** The items a title-match rule wants: its movies, then its series. */
  function TitleMatchMedia(lib: Library, pair: TitleMatchPair): seq<MediaItem> {
    MoviesByMatch(lib, pair.titleMatch, pair.caseSensitive, pair.matchType) +
    SeriesByMatch(lib, pair.titleMatch, pair.caseSensitive, pair.matchType)
  }

  /** The items a tag rule wants: AND or OR matching of its tags, movies then series,
      with the person of the first tag that names one. */
  function TagMedia(lib: Library, pair: TagTitlePair): seq<MediaItem> {
    var tags := GetTagsArray(pair.tag);
    var specificPerson := SpecificPersonFor(lib.persons, tags);
    if pair.matchingMode == And then
      AndMatching(lib, Movie, tags, specificPerson) + AndMatching(lib, Series, tags, specificPerson)
    else OrMatching(lib, Movie, tags, specificPerson) + OrMatching(lib, Series, tags, specificPerson)
  }

  class AutoCollectionsManager {
    const library: Library
    var configuration: Configuration
    var collections: seq<BoxSet>

    constructor (library: Library, configuration: Configuration, collections: seq<BoxSet>)
      ensures this.library == library && this.configuration == configuration && this.collections == collections
    {
      this.library := library;
      this.configuration := configuration;
      this.collections := collections;
    }

    /** GetBoxSetByName. */
    function GetBoxSetByName(name: string): Option<BoxSet>
      reads this
    {
      FindBoxSet(collections, name)
    }

    /** The box set a driver for that name may change: the one found by name, if any. */
    function Existing(name: string): set<BoxSet>
      reads this
    {
      match GetBoxSetByName(name)
      case Some(b) => {b}
      case None => {}
    }

    /** Some box set with the name carries the "Autocollection" tag. */
    predicate HasAutoCollection(name: string)
      reads this
    {
      exists b :: b in collections && b.Name == name && AutoCollectionTag in b.Tags
    }

    /** The shared start of both drivers: the box set found by name, or a new locked
        one tagged "Autocollection" and added to the library. */
    method GetOrCreateCollection(name: string) returns (collection: BoxSet, isNewCollection: bool)
      modifies this
      ensures collection.Name == name && AutoCollectionTag in collection.Tags
      ensures !isNewCollection ==> old(GetBoxSetByName(name)) == Some(collection) && collections == old(collections)
      ensures isNewCollection ==> old(GetBoxSetByName(name)).None? && fresh(collection) &&
                                  collections == old(collections) + [collection] &&
                                  collection.IsLocked && collection.Tags == [AutoCollectionTag] &&
                                  collection.Children == [] && collection.Image == None && collection.Calls == []
      ensures configuration == old(configuration)
    {
      var found := GetBoxSetByName(name);
      if found.Some? {
        return found.value, false;
      }
      collection := new BoxSet(name, [AutoCollectionTag]);
      collections := collections + [collection];
      isNewCollection := true;
    }

    /** ExecuteAutoCollectionsForTitleMatchPair: the box set named by the rule links
        exactly the matching movies and series; a new box set gets an image when it
        has members, an existing one keeps its image. */
    method ExecuteAutoCollectionsForTitleMatchPair(pair: TitleMatchPair) returns (ghost collection: BoxSet)
      modifies this, Existing(pair.collectionName)
      ensures collection in collections && collection.Name == pair.collectionName && AutoCollectionTag in collection.Tags
      ensures GetBoxSetByName(pair.collectionName) == Some(collection)
      ensures forall name :: name != pair.collectionName ==> GetBoxSetByName(name) == old(GetBoxSetByName(name))
      ensures forall b :: b in old(collections) && b.Name != pair.collectionName ==> b.Children == old(b.Children)
      ensures forall n :: n in collection.Children <==> n in Ids(TitleMatchMedia(library, pair))
      ensures old(GetBoxSetByName(pair.collectionName)).Some? ==>
                old(GetBoxSetByName(pair.collectionName)) == Some(collection) && collections == old(collections) &&
                collection.IsLocked == old(collection.IsLocked) &&
                collection.Image == old(collection.Image) &&
                collection.Children == Reconciled(old(collection.Children), TitleMatchMedia(library, pair)) &&
                collection.Calls == old(collection.Calls) + ReconcileCalls(old(collection.Children), TitleMatchMedia(library, pair))
      ensures old(GetBoxSetByName(pair.collectionName)).None? ==>
                fresh(collection) && collections == old(collections) + [collection] &&
                collection.IsLocked && collection.Tags == [AutoCollectionTag] &&
                collection.Image == (if |TitleMatchMedia(library, pair)| > 0
                                     then PhotoChoice(library, pair.collectionName, None, collection.Children)
                                     else None)
      ensures configuration == old(configuration)
    {
      var collectionName := pair.collectionName;
      var box, isNewCollection := GetOrCreateCollection(collectionName);
      collection := box;
      forall name | name != collectionName
        ensures GetBoxSetByName(name) == old(GetBoxSetByName(name))
      {
        if isNewCollection {
          FindBoxSetAppendOther(old(collections), box, name);
        }
      }
      var allMovies := GetMoviesFromLibraryByMatch(library, pair.titleMatch, pair.caseSensitive, pair.matchType);
      var allSeries := SeriesByMatch(library, pair.titleMatch, pair.caseSensitive, pair.matchType);
      var mediaItems := allMovies + allSeries;
      ReconcileMediaItems(box, mediaItems);
      if isNewCollection && |mediaItems| > 0 {
        SetPhotoForCollection(library, box, None);
      }
      if isNewCollection {
        FindBoxSetAppendNew(old(collections), box, collectionName);
      }
    }

    /** ExecuteAutoCollectionsForTagTitlePair: the box set named after the rule links
        exactly the items its tags select; a rule without tags still finds or creates
        its box set and changes nothing else. A new box set gets an image. */
    method ExecuteAutoCollectionsForTagTitlePair(pair: TagTitlePair) returns (ghost collection: BoxSet)
      modifies this, Existing(GetCollectionName(pair))
      ensures collection in collections && collection.Name == GetCollectionName(pair) && AutoCollectionTag in collection.Tags
      ensures GetBoxSetByName(GetCollectionName(pair)) == Some(collection)
      ensures forall name :: name != GetCollectionName(pair) ==> GetBoxSetByName(name) == old(GetBoxSetByName(name))
      ensures GetTagsArray(pair.tag) != [] ==> forall n :: n in collection.Children <==> n in Ids(TagMedia(library, pair))
      ensures old(GetBoxSetByName(GetCollectionName(pair))).Some? ==>
                old(GetBoxSetByName(GetCollectionName(pair))) == Some(collection) && collections == old(collections) &&
                collection.Image == old(collection.Image) && collection.IsLocked == old(collection.IsLocked) &&
                (GetTagsArray(pair.tag) == [] ==> collection.Children == old(collection.Children) &&
                                                  collection.Calls == old(collection.Calls)) &&
                (GetTagsArray(pair.tag) != [] ==>
                   collection.Children == Reconciled(old(collection.Children), TagMedia(library, pair)) &&
                   collection.Calls == old(collection.Calls) + ReconcileCalls(old(collection.Children), TagMedia(library, pair)))
      ensures old(GetBoxSetByName(GetCollectionName(pair))).None? ==>
                fresh(collection) && collections == old(collections) + [collection] &&
                collection.IsLocked && collection.Tags == [AutoCollectionTag] &&
                (GetTagsArray(pair.tag) == [] ==> collection.Children == []) &&
                collection.Image == (if GetTagsArray(pair.tag) == [] then None
                                     else PhotoChoice(library, GetCollectionName(pair),
                                                      SpecificPersonFor(library.persons, GetTagsArray(pair.tag)),
                                                      collection.Children))
      ensures configuration == old(configuration)
    {
      var collectionName := GetCollectionName(pair);
      var box, isNewCollection := GetOrCreateCollection(collectionName);
      collection := box;
      forall name | name != collectionName
        ensures GetBoxSetByName(name) == old(GetBoxSetByName(name))
      {
        if isNewCollection {
          FindBoxSetAppendOther(old(collections), box, name);
        }
      }
      if isNewCollection {
        FindBoxSetAppendNew(old(collections), box, collectionName);
      }
      var tags := GetTagsArray(pair.tag);
      if |tags| == 0 {
        return;
      }
      var specificPerson := FindSpecificPerson(library.persons, tags);
      var allMovies, allSeries;
      if pair.matchingMode == And {
        allMovies := GetFromLibraryWithAndMatching(library, Movie, tags, specificPerson);
        allSeries := GetFromLibraryWithAndMatching(library, Series, tags, specificPerson);
      } else {
        allMovies, allSeries := CollectOrMatches(library, tags, specificPerson);
      }
      var mediaItems := allMovies + allSeries;
      ReconcileMediaItems(box, mediaItems);
      if isNewCollection {
        SetPhotoForCollection(library, box, specificPerson);
      }
    }

    /** One turn of the run's loop: ExecuteAutoCollectionsForTitleMatchPair on a rule,
        seen from the other box sets. The rule's box set is then found by its name
        and links exactly what the rule matches; every box set that existed keeps its
        image and lock, and one under another name also keeps its children and calls. */
    method RunTitleMatchRule(pair: TitleMatchPair)
      modifies this, Existing(pair.collectionName)
      ensures configuration == old(configuration)
      ensures |old(collections)| <= |collections| && collections[..|old(collections)|] == old(collections)
      ensures forall b :: b in collections ==> b in old(collections) || fresh(b)
      ensures GetBoxSetByName(pair.collectionName).Some? &&
              LinksExactly(GetBoxSetByName(pair.collectionName).value.Children, TitleMatchMedia(library, pair))
      ensures forall name :: name != pair.collectionName ==> GetBoxSetByName(name) == old(GetBoxSetByName(name))
      ensures forall b :: b in old(collections) ==> b.Image == old(b.Image) && b.IsLocked == old(b.IsLocked)
      ensures forall b :: b in old(collections) && b.Name != pair.collectionName ==>
                b.Children == old(b.Children) && b.Calls == old(b.Calls)
    {
      ghost var c := ExecuteAutoCollectionsForTitleMatchPair(pair);
      forall b | b in old(collections) && b != c
        ensures b.Image == old(b.Image) && b.IsLocked == old(b.IsLocked)
        ensures b.Children == old(b.Children) && b.Calls == old(b.Calls)
      {
        assert b !in old(Existing(pair.collectionName));
      }
    }

    /** ExecuteAutoCollectionsNoProgress: every configured title-match rule in order. A
        rule whose processing fails (the indices in failing) is skipped and the run
        goes on; every other rule's box set exists afterwards, and for the last rule
        that runs under each name it links exactly what that rule matches. Box sets
        that existed keep their image and lock, and those whose name no running rule
        uses also keep their children and calls. */
    method ExecuteAutoCollectionsNoProgress(failing: set<nat>)
      modifies this, collections
      ensures |old(collections)| <= |collections| && collections[..|old(collections)|] == old(collections)
      ensures forall i :: 0 <= i < |configuration.titleMatchPairs| && i !in failing ==>
                HasAutoCollection(configuration.titleMatchPairs[i].collectionName)
      ensures forall i :: 0 <= i < |configuration.titleMatchPairs| && i !in failing &&
                          LastFor(configuration.titleMatchPairs, failing, i, |configuration.titleMatchPairs|) ==>
                GetBoxSetByName(configuration.titleMatchPairs[i].collectionName).Some? &&
                LinksExactly(GetBoxSetByName(configuration.titleMatchPairs[i].collectionName).value.Children,
                             TitleMatchMedia(library, configuration.titleMatchPairs[i]))
      ensures forall b :: b in old(collections) ==> b.Image == old(b.Image) && b.IsLocked == old(b.IsLocked)
      ensures forall b :: b in old(collections) &&
                          Unnamed(configuration.titleMatchPairs, failing, |configuration.titleMatchPairs|, b.Name) ==>
                b.Children == old(b.Children) && b.Calls == old(b.Calls)
      ensures configuration == old(configuration)
    {
      var titleMatchPairs := configuration.titleMatchPairs;
      ghost var start := collections;
      for i := 0 to |titleMatchPairs|
        invariant configuration == old(configuration)
        invariant |start| <= |collections| && collections[..|start|] == start
        invariant forall b :: b in collections ==> b in start || fresh(b)
        invariant forall b :: b in start ==> b.Image == old(b.Image) && b.IsLocked == old(b.IsLocked)
        invariant forall b :: b in start && Unnamed(titleMatchPairs, failing, i, b.Name) ==>
                    b.Children == old(b.Children) && b.Calls == old(b.Calls)
        invariant forall name :: LastRun(titleMatchPairs, failing, i, name).Some? ==>
                    GetBoxSetByName(name).Some? &&
                    LinksExactly(GetBoxSetByName(name).value.Children, TitleMatchMedia(library, titleMatchPairs[LastRun(titleMatchPairs, failing, i, name).value]))
      {
        if i in failing {
          forall name | LastRun(titleMatchPairs, failing, i + 1, name).Some?
            ensures LastRun(titleMatchPairs, failing, i + 1, name) == LastRun(titleMatchPairs, failing, i, name)
          {
          }
          forall b | b in start && Unnamed(titleMatchPairs, failing, i + 1, b.Name)
            ensures Unnamed(titleMatchPairs, failing, i, b.Name)
          {
          }
          continue;
        }
        label Before:
        RunTitleMatchRule(titleMatchPairs[i]);
        forall name | LastRun(titleMatchPairs, failing, i + 1, name).Some?
          ensures GetBoxSetByName(name).Some? &&
                    LinksExactly(GetBoxSetByName(name).value.Children, TitleMatchMedia(library, titleMatchPairs[LastRun(titleMatchPairs, failing, i + 1, name).value]))
        {
          if name != titleMatchPairs[i].collectionName {
            assert old@Before(GetBoxSetByName(name)).value in old@Before(collections);
          }
        }
        forall b | b in start && Unnamed(titleMatchPairs, failing, i + 1, b.Name)
          ensures b.Children == old(b.Children) && b.Calls == old(b.Calls)
        {
          assert Unnamed(titleMatchPairs, failing, i, b.Name);
        }
      }
      forall k | 0 <= k < |titleMatchPairs| && k !in failing
        ensures HasAutoCollection(titleMatchPairs[k].collectionName)
      {
        LastRunExists(titleMatchPairs, failing, |titleMatchPairs|, k);
        assert GetBoxSetByName(titleMatchPairs[k].collectionName).value in collections;
      }
      forall k | 0 <= k < |titleMatchPairs| && k !in failing && LastFor(titleMatchPairs, failing, k, |titleMatchPairs|)
        ensures GetBoxSetByName(titleMatchPairs[k].collectionName).Some? &&
                LinksExactly(GetBoxSetByName(titleMatchPairs[k].collectionName).value.Children,
                             TitleMatchMedia(library, titleMatchPairs[k]))
      {
        LastRunIsLast(titleMatchPairs, failing, |titleMatchPairs|, k);
      }
    }
  }
}
