/** The order of a lesson listing (memory/jsonl.go): by creation time, then ID. */
module Listing {
  import opened Prelude

  datatype Context = Context(tool: string, intent: string)
  datatype Pattern = Pattern(bad: string, good: string)
  datatype Citation = Citation(file: string, line: Option<int>, commit: Option<string>)

  /** A memory item; a nil slice is None. */
  datatype Item = Item(
    id: string, itemType: string, trigger: string, insight: string, tags: Option<seq<string>>, source: string,
    context: Context, created: string, confirmed: bool, supersedes: Option<seq<string>>, related: Option<seq<string>>,
    evidence: Option<string>, severity: Option<string>, deleted: Option<bool>, deletedAt: Option<string>,
    retrievalCount: Option<int>, lastRetrieved: Option<string>, invalidatedAt: Option<string>,
    invalidationReason: Option<string>, compactionLevel: Option<int>, compactedAt: Option<string>,
    citation: Option<Citation>, pattern: Option<Pattern>)

  /** String order. */
  predicate Less(a: string, b: string) {
    b != "" && (a == "" || a[0] < b[0] || (a[0] == b[0] && Less(a[1..], b[1..])))
  }

  lemma {:induction false} LessIsTotal(a: string, b: string)
    ensures a == b || Less(a, b) || Less(b, a)
  {
    if a != "" && b != "" && a[0] == b[0] {
      LessIsTotal(a[1..], b[1..]);
      assert a == [a[0]] + a[1..] && b == [b[0]] + b[1..];
    }
  }

  lemma {:induction false} LessIsStrict(a: string, b: string)
    ensures !(Less(a, b) && Less(b, a))
  {
    if a != "" && b != "" {
      LessIsStrict(a[1..], b[1..]);
    }
  }

  lemma {:induction false} LessIsTransitive(a: string, b: string, c: string)
    requires Less(a, b) && Less(b, c)
    ensures Less(a, c)
  {
    if a != "" && a[0] == b[0] == c[0] {
      LessIsTransitive(a[1..], b[1..], c[1..]);
    }
  }

  /** Go's string order: at the first difference the smaller character decides, and a proper prefix is smaller. */
  lemma {:induction false} FirstDifferenceDecides(a: string, c: char, b: string, d: char, e: string)
    ensures c != d ==> (Less(a + [c] + b, a + [d] + e) <==> c < d)
    ensures Less(a, a + [c] + b) && !Less(a + [c] + b, a)
  {
    var (x, y) := (a + [c] + b, a + [d] + e);
    if a != "" {
      FirstDifferenceDecides(a[1..], c, b, d, e);
      assert x[1..] == a[1..] + [c] + b && y[1..] == a[1..] + [d] + e;
    }
  }

  predicate Before(x: Item, y: Item) {
    if x.created != y.created then Less(x.created, y.created) else Less(x.id, y.id)
  }

  lemma {:induction false} BeforeIsTotal(x: Item, y: Item)
    requires x.id != y.id
    ensures Before(x, y) || Before(y, x)
  {
    LessIsTotal(x.created, y.created);
    LessIsTotal(x.id, y.id);
  }

  lemma {:induction false} BeforeIsStrict(x: Item, y: Item)
    ensures !(Before(x, y) && Before(y, x))
  {
    LessIsStrict(x.created, y.created);
    LessIsStrict(x.id, y.id);
  }

  lemma {:induction false} BeforeIsTransitive(x: Item, y: Item, z: Item)
    requires Before(x, y) && Before(y, z)
    ensures Before(x, z)
  {
    hide Less;
    if x.created == y.created == z.created {
      LessIsTransitive(x.id, y.id, z.id);
    } else if x.created != y.created && y.created != z.created {
      LessIsTransitive(x.created, y.created, z.created);
      LessIsStrict(x.created, y.created);
    }
  }

  ghost predicate Ascending(items: seq<Item>) {
    forall i, j :: 0 <= i < j < |items| ==> Before(items[i], items[j])
  }

  /** The items of the map, each once, in order. */
  ghost predicate IsListing(items: map<string, Item>, listing: seq<Item>) {
    Ascending(listing) && forall x: Item :: x in listing <==> x.id in items && items[x.id] == x
  }

  /** A listing goes from the earliest creation time to the latest, and by ID among equals. */
  lemma {:induction false} ListedByTimeThenId(items: map<string, Item>, listing: seq<Item>, i: nat, j: nat)
    requires IsListing(items, listing) && i < j < |listing|
    ensures Less(listing[i].created, listing[j].created)
      || (listing[i].created == listing[j].created && Less(listing[i].id, listing[j].id))
  { }

  /** There is one listing: the order in which a Go map is ranged over does not show. */
  lemma {:induction false} ListingIsUnique(s: seq<Item>, t: seq<Item>)
    requires Ascending(s) && Ascending(t) && forall x: Item :: x in s <==> x in t
    ensures s == t
  {
    hide Before;
    if s == [] || t == [] {
      if t != [] {
        var _ := SomeMember(t);
      }
      if s != [] {
        var _ := SomeMember(s);
      }
    } else {
      assert s[0] in t && t[0] in s;
      FirstsAgree(s, t);
      forall x: Item ensures x in s[1..] <==> x in t[1..] {
        InTail(s, x);
        InTail(t, x);
      }
      ListingIsUnique(s[1..], t[1..]);
      assert s == [s[0]] + s[1..] && t == [t[0]] + t[1..];
    }
  }

  lemma {:induction false} SomeMember(s: seq<Item>) returns (x: Item)
    requires s != []
    ensures x in s
  {
    x := s[0];
  }

  lemma {:induction false} FirstsAgree(s: seq<Item>, t: seq<Item>)
    requires Ascending(s) && Ascending(t) && s != [] && t != [] && s[0] in t && t[0] in s
    ensures s[0] == t[0]
  {
    hide Before;
    var i :| 0 <= i < |t| && t[i] == s[0];
    var j :| 0 <= j < |s| && s[j] == t[0];
    BeforeIsStrict(s[0], t[0]);
  }

  lemma {:induction false} InTail(s: seq<Item>, x: Item)
    requires Ascending(s) && s != []
    ensures x in s[1..] <==> x in s && x != s[0]
  {
    hide Before;
    forall k | 0 < k < |s| ensures s[k] != s[0] {
      BeforeIsStrict(s[0], s[k]);
    }
    assert forall k :: 0 < k < |s| ==> s[1..][k - 1] == s[k];
  }

  /** sort.Slice, one item at a time. */
  function Inserted(items: seq<Item>, x: Item): seq<Item> {
    if items == [] || Before(x, items[0]) then [x] + items else [items[0]] + Inserted(items[1..], x)
  }

  lemma {:induction false} InsertedMembers(items: seq<Item>, x: Item)
    ensures forall y: Item :: y in Inserted(items, x) <==> y in items || y == x
  {
    hide Before;
    if items != [] && !Before(x, items[0]) {
      InsertedMembers(items[1..], x);
      assert items == [items[0]] + items[1..];
    }
  }

  lemma {:induction false} InsertedAscends(items: seq<Item>, x: Item)
    requires Ascending(items) && forall y :: y in items ==> y.id != x.id
    ensures Ascending(Inserted(items, x))
  {
    hide Before;
    if items == [] {
    } else if Before(x, items[0]) {
      forall y | y in items ensures Before(x, y) {
        var k :| 0 <= k < |items| && items[k] == y;
        if k > 0 {
          BeforeIsTransitive(x, items[0], y);
        }
      }
    } else {
      var tail := Inserted(items[1..], x);
      InsertedAscends(items[1..], x);
      InsertedMembers(items[1..], x);
      BeforeIsTotal(x, items[0]);
      forall y | y in tail ensures Before(items[0], y) { }
    }
  }

  ghost predicate KeyedById(items: map<string, Item>) {
    forall id :: id in items ==> items[id].id == id
  }

  /** The listing of a map of items. */
  ghost function SortedItems(items: map<string, Item>): seq<Item> {
    if items == map[] then []
    else var id :| id in items; Inserted(SortedItems(items - {id}), items[id])
  }

  lemma {:induction false} SortedItemsAreListing(items: map<string, Item>)
    requires KeyedById(items)
    ensures IsListing(items, SortedItems(items))
  {
    hide Before, Inserted;
    if items != map[] {
      var id :| id in items && SortedItems(items) == Inserted(SortedItems(items - {id}), items[id]);
      SortedItemsAreListing(items - {id});
      InsertedMembers(SortedItems(items - {id}), items[id]);
      InsertedAscends(SortedItems(items - {id}), items[id]);
    }
  }

  lemma {:induction false} ListingIsSorted(items: map<string, Item>, listing: seq<Item>)
    requires KeyedById(items) && IsListing(items, listing)
    ensures listing == SortedItems(items)
  {
    hide Before, Ascending, SortedItems;
    SortedItemsAreListing(items);
    ListingIsUnique(listing, SortedItems(items));
  }

  /** deduplicateAndSort: the listing does not depend on the order in which the map is ranged over. */
  method DeduplicateAndSort(items: map<string, Item>) returns (sorted: seq<Item>)
    requires KeyedById(items)
    ensures sorted == SortedItems(items)
  {
    hide Before, Inserted;
    sorted := [];
    var rest := items.Keys;
    while rest != {}
      invariant rest <= items.Keys && Ascending(sorted)
      invariant forall x: Item :: x in sorted <==> x.id in items && x.id !in rest && items[x.id] == x
    {
      var id :| id in rest;
      InsertedMembers(sorted, items[id]);
      InsertedAscends(sorted, items[id]);
      sorted := Inserted(sorted, items[id]);
      rest := rest - {id};
    }
    ListingIsSorted(items, sorted);
  }
}
