/** The records of the tier list: items, tiers, the dragged-item record and collection names. */
module Types {
  import opened Wrappers

  /**
   * An item card. `isPlaceholder` and `hasError` are optional in the source; an absent
   * flag reads as false, which is how every consumer treats it.
   */
  datatype Item = Item(id: string, name: string, imageUrl: Option<string>, isPlaceholder: bool, hasError: bool)

  /** A tier row; `textColor` is meant to be the contrast colour of `color`. */
  datatype Tier = Tier(id: string, name: string, color: string, textColor: string, items: seq<Item>)

  /** Which ordered sequence is meant: the unranked pool or the tier with that id. */
  datatype CollectionId = Unranked | TierId(id: string)

  /** The drag in progress: the item, where it came from and its index there. */
  datatype DraggedItemInfo = DraggedItemInfo(item: Item, source: CollectionId, sourceIndex: int)

  /** The fields a tier update may carry: a new name, a new colour, or both. */
  datatype TierPatch = TierPatch(name: Option<string>, color: Option<string>)

  /** What the item form saves: the fields of an item other than its id. */
  datatype ItemData = ItemData(name: string, imageUrl: Option<string>)

  /** Number of entries of `items` with this id. */
  function Count(items: seq<Item>, id: string): (n: nat)
    ensures n <= |items|
    ensures n == 0 <==> forall i :: 0 <= i < |items| ==> items[i].id != id
  {
    if items == [] then 0
    else (if items[0].id == id then 1 else 0) + Count(items[1..], id)
  }

  lemma {:induction false} CountAppend(a: seq<Item>, b: seq<Item>, id: string)
    ensures Count(a + b, id) == Count(a, id) + Count(b, id)
  {
    if a == [] {
      assert a + b == b;
    } else {
      assert (a + b)[1..] == a[1..] + b;
      CountAppend(a[1..], b, id);
    }
  }

  /** The items without every entry that has the id, in order. */
  function WithoutId(items: seq<Item>, id: string): (r: seq<Item>)
    ensures Count(r, id) == 0
    ensures |r| == |items| - Count(items, id)
    ensures forall other :: other != id ==> Count(r, other) == Count(items, other)
    ensures forall j :: 0 <= j < |r| ==> r[j] in items
  {
    if items == [] then []
    else if items[0].id == id then WithoutId(items[1..], id)
    else [items[0]] + WithoutId(items[1..], id)
  }

  /** Filtering out an id that does not occur changes nothing. */
  lemma {:induction false} WithoutAbsentId(items: seq<Item>, id: string)
    requires Count(items, id) == 0
    ensures WithoutId(items, id) == items
  {
    if items != [] {
      WithoutAbsentId(items[1..], id);
    }
  }

  /** Filtering distributes over concatenation. */
  lemma {:induction false} WithoutIdAppend(a: seq<Item>, b: seq<Item>, id: string)
    ensures WithoutId(a + b, id) == WithoutId(a, id) + WithoutId(b, id)
  {
    if a == [] {
      assert a + b == b;
    } else {
      assert (a + b)[1..] == a[1..] + b;
      WithoutIdAppend(a[1..], b, id);
    }
  }

  /** The items with `f` applied to every entry that has the id. */
  function MapWhere(items: seq<Item>, id: string, f: Item -> Item): (r: seq<Item>)
    ensures |r| == |items|
    ensures forall i :: 0 <= i < |items| ==> r[i] == if items[i].id == id then f(items[i]) else items[i]
  {
    if items == [] then []
    else [if items[0].id == id then f(items[0]) else items[0]] + MapWhere(items[1..], id, f)
  }

  /** Rewriting the entries with one id position by position distributes over concatenation. */
  lemma MapWhereAppend(a: seq<Item>, b: seq<Item>, id: string, f: Item -> Item)
    ensures MapWhere(a + b, id, f) == MapWhere(a, id, f) + MapWhere(b, id, f)
  {
  }

  /** Rewriting an id that does not occur changes nothing. */
  lemma MapWhereAbsent(items: seq<Item>, id: string, f: Item -> Item)
    requires Count(items, id) == 0
    ensures MapWhere(items, id, f) == items
  {
  }

  /** The items with their error flags cleared. */
  function ClearErrors(items: seq<Item>): (r: seq<Item>)
    ensures |r| == |items|
    ensures forall i :: 0 <= i < |items| ==> r[i] == items[i].(hasError := false)
  {
    if items == [] then [] else [items[0].(hasError := false)] + ClearErrors(items[1..])
  }

  /** Clearing the error flags keeps every id's count. */
  lemma {:induction false} ClearErrorsCount(items: seq<Item>, x: string)
    ensures Count(ClearErrors(items), x) == Count(items, x)
  {
    if items != [] {
      assert ClearErrors(items)[1..] == ClearErrors(items[1..]);
      ClearErrorsCount(items[1..], x);
    }
  }

  /** `findIndex` by id: the first position with that id, or -1. */
  function FindIndex(items: seq<Item>, id: string): (k: int)
    ensures -1 <= k < |items|
    ensures k == -1 <==> Count(items, id) == 0
    ensures k >= 0 ==> items[k].id == id && forall j :: 0 <= j < k ==> items[j].id != id
  {
    if items == [] then -1
    else if items[0].id == id then 0
    else var k := FindIndex(items[1..], id); if k == -1 then -1 else k + 1
  }
}
