/** Bringing a box set's linked children in line with the items a rule wants: the
    ids to remove, the ids to add, and the box set those calls act on. */
module Reconcile {
  import opened Wrappers
  import opened Catalog

  /** Where a collection's primary image is taken from. */
  datatype ImageSource = PersonImage(person: string) | ItemImage(item: nat)

  /** A call issued to the collection manager or to the library on a box set. */
  datatype Mutation =
    | RemoveFromCollection(removed: seq<nat>)
    | AddToCollection(added: seq<nat>)
    | UpdateImage(source: ImageSource)

  const AutoCollectionTag: string := "Autocollection"

  /** A box set of the library: its name and tags (which the plugin never changes
      once the box set exists), lock flag, the ids of its linked children in order,
      its primary image and the calls issued on it. */
  class BoxSet {
    const Name: string
    const Tags: seq<string>
    var IsLocked: bool
    var Children: seq<nat>
    var Image: Option<ImageSource>
    var Calls: seq<Mutation>

    /** CreateCollectionAsync with a name and IsLocked set, followed by the assignment
        of the tags: an empty, locked box set. */
    constructor (name: string, tags: seq<string>)
      ensures Name == name && Tags == tags && IsLocked && Children == []
      ensures Image == None && Calls == []
    {
      Name := name;
      Tags := tags;
      IsLocked := true;
      Children := [];
      Image := None;
      Calls := [];
    }
  }

  /** The children whose id is not wanted, in their order. */
  function ToRemove(children: seq<nat>, wanted: set<nat>): (r: seq<nat>)
    ensures forall n :: n in r <==> n in children && n !in wanted
    ensures |r| <= |children|
    ensures (forall n :: n in children ==> n in wanted) ==> r == []
  {
    if children == [] then []
    else (if children[0] in wanted then [] else [children[0]]) + ToRemove(children[1..], wanted)
  }

  /** The ids of the wanted items not already among the children, in the items' order. */
  function ToAdd(children: seq<nat>, wanted: seq<MediaItem>): (r: seq<nat>)
    ensures forall n :: n in r <==> n in Ids(wanted) && n !in children
    ensures |r| <= |wanted|
    ensures (forall n :: n in Ids(wanted) ==> n in children) ==> r == []
  {
    if wanted == [] then []
    else
      assert forall n :: n in Ids(wanted) <==> n == wanted[0].id || n in Ids(wanted[1..]) by {
        assert wanted == [wanted[0]] + wanted[1..];
        IdsConcat([wanted[0]], wanted[1..]);
      }
      (if wanted[0].id in children then [] else [wanted[0].id]) + ToAdd(children, wanted[1..])
  }

  /** RemoveFromCollectionAsync's effect: the children not listed, in their order. */
  function Without(children: seq<nat>, removed: seq<nat>): (r: seq<nat>)
    ensures forall n :: n in r <==> n in children && n !in removed
  {
    if children == [] then []
    else (if children[0] in removed then [] else [children[0]]) + Without(children[1..], removed)
  }

  /** The children whose id is wanted, in their order. */
  function Kept(children: seq<nat>, wanted: set<nat>): (r: seq<nat>)
    ensures forall n :: n in r <==> n in children && n in wanted
  {
    if children == [] then []
    else (if children[0] in wanted then [children[0]] else []) + Kept(children[1..], wanted)
  }

  lemma {:induction false} WithoutComplement(children: seq<nat>, removed: seq<nat>, wanted: set<nat>)
    requires forall n :: n in children ==> (n in removed <==> n !in wanted)
    ensures Without(children, removed) == Kept(children, wanted)
  {
    if children != [] {
      WithoutComplement(children[1..], removed, wanted);
    }
  }

  /** Removing ToRemove keeps exactly the wanted children, in their order. */
  lemma RemovalKeepsWanted(children: seq<nat>, wanted: set<nat>)
    ensures Without(children, ToRemove(children, wanted)) == Kept(children, wanted)
  {
    WithoutComplement(children, ToRemove(children, wanted), wanted);
  }

  /** The two passes never touch the same id: what is removed is unwanted, what is
      added is wanted. */
  lemma RemoveAndAddDisjoint(children: seq<nat>, wanted: seq<MediaItem>)
    ensures forall n :: n in ToRemove(children, Ids(wanted)) ==> n !in ToAdd(Kept(children, Ids(wanted)), wanted)
  {
  }

  /** After removing and then adding, the children are exactly the wanted ids, and the
      children that were already wanted stay at the front in their old order. */
  lemma Converges(children: seq<nat>, wanted: seq<MediaItem>)
    ensures var after := Kept(children, Ids(wanted)) + ToAdd(Kept(children, Ids(wanted)), wanted);
            (forall n :: n in after <==> n in Ids(wanted)) &&
            after[..|Kept(children, Ids(wanted))|] == Kept(children, Ids(wanted))
  {
    var kept := Kept(children, Ids(wanted));
    var after := kept + ToAdd(kept, wanted);
    assert after[..|kept|] == kept;
  }

  /** The children after the removal pass and then the addition pass. */
  function Reconciled(children: seq<nat>, wanted: seq<MediaItem>): seq<nat> {
    Kept(children, Ids(wanted)) + ToAdd(Kept(children, Ids(wanted)), wanted)
  }

  /** The calls the two passes issue, in order: at most one removal, then at most one
      addition. */
  function ReconcileCalls(children: seq<nat>, wanted: seq<MediaItem>): seq<Mutation> {
    var r := ToRemove(children, Ids(wanted));
    var a := ToAdd(Kept(children, Ids(wanted)), wanted);
    (if r == [] then [] else [RemoveFromCollection(r)]) + (if a == [] then [] else [AddToCollection(a)])
  }

  lemma {:induction false} KeptAll(children: seq<nat>, wanted: set<nat>)
    requires forall n :: n in children ==> n in wanted
    ensures Kept(children, wanted) == children
  {
    if children != [] {
      KeptAll(children[1..], wanted);
      assert children == [children[0]] + children[1..];
    }
  }

  /** When the children already are the wanted ids, neither pass issues a call and
      the children stay as they are: a second run over an unchanged library leaves
      the box set alone. */
  lemma SecondRunQuiet(children: seq<nat>, wanted: seq<MediaItem>)
    requires forall n :: n in children <==> n in Ids(wanted)
    ensures ToRemove(children, Ids(wanted)) == []
    ensures ToAdd(Kept(children, Ids(wanted)), wanted) == []
    ensures ReconcileCalls(children, wanted) == []
    ensures Reconciled(children, wanted) == children
  {
    KeptAll(children, Ids(wanted));
  }

  /** RemoveUnwantedMediaItems: the children whose id no wanted item has are removed,
      by one call, issued only when there is something to remove. */
  method RemoveUnwantedMediaItems(collection: BoxSet, wantedMediaItems: seq<MediaItem>)
    modifies collection
    ensures collection.Children == Kept(old(collection.Children), Ids(wantedMediaItems))
    ensures var r := ToRemove(old(collection.Children), Ids(wantedMediaItems));
            collection.Calls == old(collection.Calls) + (if r == [] then [] else [RemoveFromCollection(r)])
    ensures collection.IsLocked == old(collection.IsLocked) && collection.Image == old(collection.Image)
  {
    var wantedItemIds := Ids(wantedMediaItems);
    var childrenToRemove := ToRemove(collection.Children, wantedItemIds);
    RemovalKeepsWanted(collection.Children, wantedItemIds);
    if |childrenToRemove| > 0 {
      collection.Calls := collection.Calls + [RemoveFromCollection(childrenToRemove)];
      collection.Children := Without(collection.Children, childrenToRemove);
    } else {
      NothingWithout(collection.Children);
    }
  }

  lemma {:induction false} NothingWithout(children: seq<nat>)
    ensures Without(children, []) == children
  {
    if children != [] {
      NothingWithout(children[1..]);
    }
  }

  /** AddWantedMediaItems: the wanted items not yet linked are appended, by one call,
      issued only when there is something to add. */
  method AddWantedMediaItems(collection: BoxSet, wantedMediaItems: seq<MediaItem>)
    modifies collection
    ensures var a := ToAdd(old(collection.Children), wantedMediaItems);
            collection.Children == old(collection.Children) + a &&
            collection.Calls == old(collection.Calls) + (if a == [] then [] else [AddToCollection(a)])
    ensures collection.IsLocked == old(collection.IsLocked) && collection.Image == old(collection.Image)
  {
    var childrenToAdd := ToAdd(collection.Children, wantedMediaItems);
    if |childrenToAdd| > 0 {
      collection.Calls := collection.Calls + [AddToCollection(childrenToAdd)];
      collection.Children := collection.Children + childrenToAdd;
    }
  }

  /** The removal pass followed by the addition pass, as both rule drivers run them:
      the children become exactly the wanted ids, by the calls ReconcileCalls names. */
  method ReconcileMediaItems(collection: BoxSet, wantedMediaItems: seq<MediaItem>)
    modifies collection
    ensures collection.Children == Reconciled(old(collection.Children), wantedMediaItems)
    ensures collection.Calls == old(collection.Calls) + ReconcileCalls(old(collection.Children), wantedMediaItems)
    ensures forall n :: n in collection.Children <==> n in Ids(wantedMediaItems)
    ensures collection.IsLocked == old(collection.IsLocked) && collection.Image == old(collection.Image)
  {
    ghost var children, calls := collection.Children, collection.Calls;
    ghost var r := ToRemove(children, Ids(wantedMediaItems));
    ghost var a := ToAdd(Kept(children, Ids(wantedMediaItems)), wantedMediaItems);
    ghost var removal: seq<Mutation> := if r == [] then [] else [RemoveFromCollection(r)];
    ghost var addition: seq<Mutation> := if a == [] then [] else [AddToCollection(a)];
    RemoveUnwantedMediaItems(collection, wantedMediaItems);
    assert collection.Calls == calls + removal;
    AddWantedMediaItems(collection, wantedMediaItems);
    assert collection.Calls == (calls + removal) + addition;
    Converges(children, wantedMediaItems);
    assert ReconcileCalls(children, wantedMediaItems) == removal + addition;
    ConcatAssociative(calls, removal, addition);
  }

  lemma ConcatAssociative<T>(a: seq<T>, b: seq<T>, c: seq<T>)
    ensures (a + b) + c == a + (b + c)
  {
  }
}
