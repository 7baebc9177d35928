/**
 * The tier list of app/page.tsx as a value: the ordered tiers and the unranked pool, and
 * every change the App's handlers make to them, each as a function of the old board.
 */
module TierList {
  import opened Wrappers
  import opened Types
  import opened JsString
  import opened JsArray
  import Contrast

  /** The two state fields of the App that hold items. */
  datatype Board = Board(tiers: seq<Tier>, unranked: seq<Item>)

  /** The first tier with the id, if any. */
  function FindTier(ts: seq<Tier>, id: string): (r: Option<Tier>)
    ensures r.None? <==> forall i :: 0 <= i < |ts| ==> ts[i].id != id
    ensures r.Some? ==> r.value in ts && r.value.id == id
  {
    if ts == [] then None
    else if ts[0].id == id then Some(ts[0])
    else FindTier(ts[1..], id)
  }

  /** No two tiers share an id (every id comes from a fresh `generateId()`). */
  predicate UniqueTierIds(ts: seq<Tier>) {
    forall i, j :: 0 <= i < j < |ts| ==> ts[i].id != ts[j].id
  }

  /** Does the collection exist? The pool always does, a tier when some tier has that id. */
  predicate Exists(b: Board, c: CollectionId) {
    c.Unranked? || FindTier(b.tiers, c.id).Some?
  }

  /** The items of a collection, `[]` for a tier id no tier has. */
  function Items(b: Board, c: CollectionId): seq<Item> {
    match c
    case Unranked => b.unranked
    case TierId(id) => var t := FindTier(b.tiers, id); if t.Some? then t.value.items else []
  }

  /** Every item on the board: the tiers' items in tier order, then the pool. */
  function AllItems(b: Board): seq<Item> {
    Flatten(b.tiers) + b.unranked
  }

  function Flatten(ts: seq<Tier>): seq<Item> {
    if ts == [] then [] else ts[0].items + Flatten(ts[1..])
  }

  /** Rewrites the items of every tier with the id by `f`; other tiers are kept. */
  function MapTier(ts: seq<Tier>, id: string, f: seq<Item> -> seq<Item>): (r: seq<Tier>)
    ensures |r| == |ts|
    ensures forall i :: 0 <= i < |ts| ==>
      r[i] == if ts[i].id == id then ts[i].(items := f(ts[i].items)) else ts[i]
  {
    if ts == [] then []
    else [if ts[0].id == id then ts[0].(items := f(ts[0].items)) else ts[0]] + MapTier(ts[1..], id, f)
  }

  /** Rewrites the items of every tier by `f`. */
  function MapAll(ts: seq<Tier>, f: seq<Item> -> seq<Item>): (r: seq<Tier>)
    ensures |r| == |ts|
    ensures forall i :: 0 <= i < |ts| ==> r[i] == ts[i].(items := f(ts[i].items))
  {
    if ts == [] then [] else [ts[0].(items := f(ts[0].items))] + MapAll(ts[1..], f)
  }

  /** The item-list rewrite that drops every entry with the id. */
  function Without(id: string): seq<Item> -> seq<Item> {
    items => WithoutId(items, id)
  }

  /** The item-list rewrite that splices `x` in at `index`. */
  function InsertAt(index: int, x: Item): seq<Item> -> seq<Item> {
    items => Insert(items, index, x)
  }

  // ---------------------------------------------------------------- drop commit

  /** The source half of `onDropItem`: every entry with the id leaves the source collection. */
  function RemoveFrom(b: Board, source: CollectionId, id: string): Board {
    match source
    case Unranked => b.(unranked := WithoutId(b.unranked, id))
    case TierId(s) => b.(tiers := MapTier(b.tiers, s, Without(id)))
  }

  /** The target half of `onDropItem`: `x` is spliced into the target collection. */
  function InsertInto(b: Board, target: CollectionId, index: int, x: Item): Board {
    match target
    case Unranked => b.(unranked := Insert(b.unranked, index, x))
    case TierId(s) => b.(tiers := MapTier(b.tiers, s, InsertAt(index, x)))
  }

  /** The index `onDropItem` uses: the one given, else the target's length before the removal. */
  function TargetIndex(b: Board, target: CollectionId, indexInput: Option<int>): int {
    indexInput.GetOr(|Items(b, target)|)
  }

  /** The record that is inserted: the dragged item with its error flag cleared. */
  function Moved(d: DraggedItemInfo): Item {
    d.item.(hasError := false)
  }

  /** `onDropItem(target, indexInput)` once its guard has passed: remove, then insert. */
  function Commit(b: Board, d: DraggedItemInfo, target: CollectionId, indexInput: Option<int>): Board {
    InsertInto(RemoveFrom(b, d.source, d.item.id), target, TargetIndex(b, target, indexInput), Moved(d))
  }

  /** What a tier lookup sees after one tier's items were rewritten. */
  lemma {:induction false} FindTierAfterMap(ts: seq<Tier>, s: string, f: seq<Item> -> seq<Item>, t: string)
    ensures FindTier(MapTier(ts, s, f), t) ==
      (var o := FindTier(ts, t);
       if o.None? then None else if t == s then Some(o.value.(items := f(o.value.items))) else o)
  {
    if ts != [] {
      assert MapTier(ts, s, f)[1..] == MapTier(ts[1..], s, f);
      FindTierAfterMap(ts[1..], s, f, t);
    }
  }

  /** The items of every collection after a commit, in terms of the items before it. */
  lemma CommitItems(b: Board, d: DraggedItemInfo, target: CollectionId, indexInput: Option<int>, c: CollectionId)
    ensures var r := Commit(b, d, target, indexInput);
      var removed := if c == d.source then WithoutId(Items(b, c), d.item.id) else Items(b, c);
      Items(r, c) == if c == target && Exists(b, c) then
        Insert(removed, TargetIndex(b, target, indexInput), Moved(d)) else removed
  {
    var id, idx, x := d.item.id, TargetIndex(b, target, indexInput), Moved(d);
    var mid := RemoveFrom(b, d.source, id);
    if c.TierId? {
      if d.source.TierId? {
        FindTierAfterMap(b.tiers, d.source.id, Without(id), c.id);
      }
      if target.TierId? {
        FindTierAfterMap(mid.tiers, target.id, InsertAt(idx, x), c.id);
      }
      assert FindTier(mid.tiers, c.id).None? <==> FindTier(b.tiers, c.id).None?;
    }
  }

  /**
   * Moving within one collection: the index counts positions of the sequence from which
   * the item was already removed.
   */
  lemma SameMove(b: Board, d: DraggedItemInfo, indexInput: Option<int>)
    requires Exists(b, d.source)
    ensures Items(Commit(b, d, d.source, indexInput), d.source) ==
      Insert(WithoutId(Items(b, d.source), d.item.id), TargetIndex(b, d.source, indexInput), Moved(d))
  {
    CommitItems(b, d, d.source, indexInput, d.source);
  }

  /**
   * The sequence `[A, B, C, D]` with B dropped at index 3, an index measured while B was
   * still in the list, becomes `[A, C, D, B]`, not `[A, C, B, D]`: the splice runs after
   * B's removal.
   */
  lemma SameTierMoveExample(b: Board, t: Tier, a: Item, x: Item, c: Item, e: Item)
    requires FindTier(b.tiers, t.id) == Some(t) && t.items == [a, x, c, e]
    requires a.id != x.id && c.id != x.id && e.id != x.id
    ensures Items(Commit(b, DraggedItemInfo(x, TierId(t.id), 1), TierId(t.id), Some(3)), TierId(t.id)) ==
      [a, c, e, x.(hasError := false)]
  {
    SameMove(b, DraggedItemInfo(x, TierId(t.id), 1), Some(3));
    MoveSecondToEnd(a, x, c, e);
  }

  lemma MoveSecondToEnd(a: Item, x: Item, c: Item, e: Item)
    requires a.id != x.id && c.id != x.id && e.id != x.id
    ensures Insert(WithoutId([a, x, c, e], x.id), 3, x.(hasError := false)) == [a, c, e, x.(hasError := false)]
  {
    DropSecond(a, x, c, e);
    InsertPastEnd([a, c, e], 3, x.(hasError := false));
  }

  lemma DropSecond(a: Item, x: Item, c: Item, e: Item)
    requires a.id != x.id && c.id != x.id && e.id != x.id
    ensures WithoutId([a, x, c, e], x.id) == [a, c, e]
  {
    assert [e][1..] == [];
    assert WithoutId([e], x.id) == [e];
    assert [c, e][1..] == [e];
    assert WithoutId([c, e], x.id) == [c, e];
    assert [x, c, e][1..] == [c, e];
    assert WithoutId([x, c, e], x.id) == [c, e];
    assert [a, x, c, e][1..] == [x, c, e];
    assert [a] + [c, e] == [a, c, e];
  }

  /**
   * Moving between collections: the source loses every entry with the id, the target gets the
   * item at the clamped index of its unchanged sequence, and every other collection is as it was.
   */
  lemma CrossMove(b: Board, d: DraggedItemInfo, target: CollectionId, indexInput: Option<int>)
    requires d.source != target && Exists(b, target)
    ensures var r := Commit(b, d, target, indexInput);
      Items(r, d.source) == WithoutId(Items(b, d.source), d.item.id) &&
      Items(r, target) == Insert(Items(b, target), TargetIndex(b, target, indexInput), Moved(d)) &&
      forall c :: c != d.source && c != target ==> Items(r, c) == Items(b, c)
  {
    CommitItems(b, d, target, indexInput, d.source);
    CommitItems(b, d, target, indexInput, target);
    forall c | c != d.source && c != target
      ensures Items(Commit(b, d, target, indexInput), c) == Items(b, c)
    {
      CommitItems(b, d, target, indexInput, c);
    }
  }

  /** Without an index the item goes last, also when it is moved within its own collection. */
  lemma DefaultIndexAppends(b: Board, d: DraggedItemInfo, target: CollectionId)
    requires Exists(b, target)
    ensures var r := Commit(b, d, target, None);
      var removed := if target == d.source then WithoutId(Items(b, target), d.item.id) else Items(b, target);
      Items(r, target) == removed + [Moved(d)]
  {
    CommitItems(b, d, target, None, target);
    var removed := if target == d.source then WithoutId(Items(b, target), d.item.id) else Items(b, target);
    InsertPastEnd(removed, |Items(b, target)|, Moved(d));
  }

  /** An index past the end is clamped: the item goes last. */
  lemma LargeIndexAppends(b: Board, d: DraggedItemInfo, target: CollectionId, index: int)
    requires Exists(b, target) && index >= |Items(b, target)|
    ensures var r := Commit(b, d, target, Some(index));
      var removed := if target == d.source then WithoutId(Items(b, target), d.item.id) else Items(b, target);
      Items(r, target) == removed + [Moved(d)]
  {
    CommitItems(b, d, target, Some(index), target);
    var removed := if target == d.source then WithoutId(Items(b, target), d.item.id) else Items(b, target);
    InsertPastEnd(removed, index, Moved(d));
  }

  /** A commit rewrites item sequences only: the tiers keep their order, ids, names and colours. */
  lemma CommitKeepsTierFields(b: Board, d: DraggedItemInfo, target: CollectionId, indexInput: Option<int>)
    ensures var r := Commit(b, d, target, indexInput);
      |r.tiers| == |b.tiers| &&
      forall i :: 0 <= i < |b.tiers| ==> r.tiers[i] == b.tiers[i].(items := r.tiers[i].items)
    ensures var r := Commit(b, d, target, indexInput);
      forall i :: (0 <= i < |b.tiers| && TierId(b.tiers[i].id) != d.source &&
        TierId(b.tiers[i].id) != target) ==> r.tiers[i] == b.tiers[i]
  {
    var mid := RemoveFrom(b, d.source, d.item.id);
    RemoveFromTouches(b, d.source, d.item.id);
    InsertIntoTouches(mid, target, TargetIndex(b, target, indexInput), Moved(d));
  }

  /** `b` is `a` with at most the item sequences changed. */
  predicate SameTierFields(a: seq<Tier>, b: seq<Tier>) {
    |b| == |a| && forall i :: 0 <= i < |a| ==> b[i] == a[i].(items := b[i].items)
  }

  /** `b2` differs from `b1` only in the items of tiers, and only in the tiers named by `c`. */
  predicate TouchesOnly(b1: Board, b2: Board, c: CollectionId) {
    SameTierFields(b1.tiers, b2.tiers) &&
    forall i :: 0 <= i < |b1.tiers| ==> (TierId(b1.tiers[i].id) != c ==> b2.tiers[i] == b1.tiers[i])
  }

  /** Changing items only keeps tier ids unique and text colours derived. */
  lemma SameTierFieldsKeep(a: seq<Tier>, b: seq<Tier>)
    requires SameTierFields(a, b)
    ensures UniqueTierIds(a) ==> UniqueTierIds(b)
    ensures TextColorsDerived(a) ==> TextColorsDerived(b)
  {
  }

  lemma RemoveFromTouches(b: Board, c: CollectionId, id: string)
    ensures TouchesOnly(b, RemoveFrom(b, c, id), c)
  {
  }

  lemma InsertIntoTouches(b: Board, c: CollectionId, index: int, x: Item)
    ensures TouchesOnly(b, InsertInto(b, c, index, x), c)
  {
  }

  // ------------------------------------------------------------ counting items

  /** Count of an id over all tiers. */
  lemma {:induction false} FlattenAppendCount(ts: seq<Tier>, id: string)
    ensures ts != [] ==> Count(Flatten(ts), id) == Count(ts[0].items, id) + Count(Flatten(ts[1..]), id)
  {
    if ts != [] {
      CountAppend(ts[0].items, Flatten(ts[1..]), id);
    }
  }

  /** Rewriting a tier id no tier has changes nothing. */
  lemma {:induction false} MapTierAbsent(ts: seq<Tier>, s: string, f: seq<Item> -> seq<Item>)
    requires forall i :: 0 <= i < |ts| ==> ts[i].id != s
    ensures MapTier(ts, s, f) == ts
  {
  }

  /**
   * With unique tier ids, rewriting the items of tier `s` changes the count of an id by what
   * the rewrite changed in that one tier.
   */
  lemma {:induction false} MapTierCount(ts: seq<Tier>, s: string, f: seq<Item> -> seq<Item>, x: string)
    requires UniqueTierIds(ts)
    ensures var t := FindTier(ts, s);
      Count(Flatten(MapTier(ts, s, f)), x) ==
        Count(Flatten(ts), x) + (if t.None? then 0 else Count(f(t.value.items), x) - Count(t.value.items, x))
  {
    if ts != [] {
      var r := MapTier(ts, s, f);
      assert r[1..] == MapTier(ts[1..], s, f);
      FlattenAppendCount(ts, x);
      FlattenAppendCount(r, x);
      if ts[0].id == s {
        MapTierAbsent(ts[1..], s, f);
      } else {
        MapTierCount(ts[1..], s, f, x);
      }
    }
  }

  /** How many entries with id `x` the board holds. */
  function Occurrences(b: Board, x: string): nat {
    Count(AllItems(b), x)
  }

  lemma OccurrencesSplit(b: Board, x: string)
    ensures Occurrences(b, x) == Count(Flatten(b.tiers), x) + Count(b.unranked, x)
  {
    CountAppend(Flatten(b.tiers), b.unranked, x);
  }

  lemma RemoveFromCount(b: Board, source: CollectionId, id: string, x: string)
    requires UniqueTierIds(b.tiers)
    ensures Occurrences(RemoveFrom(b, source, id), x) ==
      Occurrences(b, x) - (if x == id then Count(Items(b, source), x) else 0)
  {
    var r := RemoveFrom(b, source, id);
    OccurrencesSplit(b, x);
    OccurrencesSplit(r, x);
    if source.TierId? {
      MapTierCount(b.tiers, source.id, Without(id), x);
    }
  }

  lemma InsertIntoCount(b: Board, target: CollectionId, index: int, y: Item, x: string)
    requires UniqueTierIds(b.tiers)
    ensures Occurrences(InsertInto(b, target, index, y), x) ==
      Occurrences(b, x) + (if x == y.id && Exists(b, target) then 1 else 0)
  {
    var r := InsertInto(b, target, index, y);
    OccurrencesSplit(b, x);
    OccurrencesSplit(r, x);
    if target.TierId? {
      MapTierCount(b.tiers, target.id, InsertAt(index, y), x);
      var t := FindTier(b.tiers, target.id);
      if t.Some? {
        InsertCount(t.value.items, index, y, x);
      }
    } else {
      InsertCount(b.unranked, index, y, x);
    }
  }

  lemma InsertCount(s: seq<Item>, index: int, y: Item, x: string)
    ensures Count(Insert(s, index, y), x) == Count(s, x) + (if x == y.id then 1 else 0)
  {
    var k := SpliceStart(index, |s|);
    assert s == s[..k] + s[k..];
    CountAppend(s[..k], s[k..], x);
    assert Insert(s, index, y) == s[..k] + ([y] + s[k..]);
    CountAppend(s[..k], [y] + s[k..], x);
    CountAppend([y], s[k..], x);
  }

  lemma {:induction false} MapTierKeepsUnique(ts: seq<Tier>, s: string, f: seq<Item> -> seq<Item>)
    requires UniqueTierIds(ts)
    ensures UniqueTierIds(MapTier(ts, s, f))
  {
  }

  /**
   * What a commit does to the count of every id: other ids keep their count; the moved id
   * loses its entries in the source and gains one entry in an existing target.
   */
  lemma CommitCounts(b: Board, d: DraggedItemInfo, target: CollectionId, indexInput: Option<int>, x: string)
    requires UniqueTierIds(b.tiers)
    ensures Occurrences(Commit(b, d, target, indexInput), x) ==
      if x != d.item.id then Occurrences(b, x)
      else Occurrences(b, x) - Count(Items(b, d.source), x) + (if Exists(b, target) then 1 else 0)
  {
    var mid := RemoveFrom(b, d.source, d.item.id);
    RemoveFromCount(b, d.source, d.item.id, x);
    MapTierKeepsUnique(b.tiers, if d.source.TierId? then d.source.id else "", Without(d.item.id));
    InsertIntoCount(mid, target, TargetIndex(b, target, indexInput), Moved(d), x);
    assert Exists(mid, target) <==> Exists(b, target) by {
      if target.TierId? && d.source.TierId? {
        FindTierAfterMap(b.tiers, d.source.id, Without(d.item.id), target.id);
      }
    }
  }

  /** Every id occurs at most once on the board. */
  ghost predicate SingleOwnership(b: Board) {
    forall x :: Occurrences(b, x) <= 1
  }

  /**
   * A drop of an item that sits in its source into an existing target keeps every id on at
   * most one place and keeps the number of items.
   */
  lemma CommitKeepsOwnership(b: Board, d: DraggedItemInfo, target: CollectionId, indexInput: Option<int>)
    requires UniqueTierIds(b.tiers) && SingleOwnership(b)
    requires Count(Items(b, d.source), d.item.id) == 1 && Exists(b, target)
    ensures SingleOwnership(Commit(b, d, target, indexInput))
    ensures |AllItems(Commit(b, d, target, indexInput))| == |AllItems(b)|
  {
    var r := Commit(b, d, target, indexInput);
    forall x ensures Occurrences(r, x) <= 1 {
      CommitCounts(b, d, target, indexInput, x);
    }
    CommitSize(b, d, target, indexInput);
  }

  /** The item count after a commit. */
  lemma CommitSize(b: Board, d: DraggedItemInfo, target: CollectionId, indexInput: Option<int>)
    requires UniqueTierIds(b.tiers)
    ensures |AllItems(Commit(b, d, target, indexInput))| ==
      |AllItems(b)| - Count(Items(b, d.source), d.item.id) + (if Exists(b, target) then 1 else 0)
  {
    var id := d.item.id;
    var mid := RemoveFrom(b, d.source, id);
    RemoveFromSize(b, d.source, id);
    MapTierKeepsUnique(b.tiers, if d.source.TierId? then d.source.id else "", Without(id));
    InsertIntoSize(mid, target, TargetIndex(b, target, indexInput), Moved(d));
    assert Exists(mid, target) <==> Exists(b, target) by {
      if target.TierId? && d.source.TierId? {
        FindTierAfterMap(b.tiers, d.source.id, Without(id), target.id);
      }
    }
  }

  /** Sizes of the flattened tiers after one tier's items are rewritten. */
  lemma {:induction false} MapTierSize(ts: seq<Tier>, s: string, f: seq<Item> -> seq<Item>)
    requires UniqueTierIds(ts)
    ensures var t := FindTier(ts, s);
      |Flatten(MapTier(ts, s, f))| ==
        |Flatten(ts)| + (if t.None? then 0 else |f(t.value.items)| - |t.value.items|)
  {
    if ts != [] {
      var r := MapTier(ts, s, f);
      assert r[1..] == MapTier(ts[1..], s, f);
      if ts[0].id == s {
        MapTierAbsent(ts[1..], s, f);
      } else {
        MapTierSize(ts[1..], s, f);
      }
    }
  }

  lemma RemoveFromSize(b: Board, source: CollectionId, id: string)
    requires UniqueTierIds(b.tiers)
    ensures |AllItems(RemoveFrom(b, source, id))| == |AllItems(b)| - Count(Items(b, source), id)
  {
    if source.TierId? {
      MapTierSize(b.tiers, source.id, Without(id));
    }
  }

  lemma InsertIntoSize(b: Board, target: CollectionId, index: int, y: Item)
    requires UniqueTierIds(b.tiers)
    ensures |AllItems(InsertInto(b, target, index, y))| == |AllItems(b)| + (if Exists(b, target) then 1 else 0)
  {
    if target.TierId? {
      MapTierSize(b.tiers, target.id, InsertAt(index, y));
    }
  }

  /**
   * A drop whose item is no longer in its source (deleted while dragged, or dropped twice)
   * still inserts it: the item comes back and the board grows by one.
   */
  lemma StaleDropResurrects(b: Board, d: DraggedItemInfo, target: CollectionId, indexInput: Option<int>)
    requires UniqueTierIds(b.tiers) && Occurrences(b, d.item.id) == 0 && Exists(b, target)
    ensures Occurrences(Commit(b, d, target, indexInput), d.item.id) == 1
    ensures |AllItems(Commit(b, d, target, indexInput))| == |AllItems(b)| + 1
  {
    CommitCounts(b, d, target, indexInput, d.item.id);
    CommitSize(b, d, target, indexInput);
    assert Count(Items(b, d.source), d.item.id) == 0 by {
      ItemsCountBound(b, d.source, d.item.id);
    }
  }

  /** A collection never holds more entries of an id than the whole board. */
  lemma ItemsCountBound(b: Board, c: CollectionId, x: string)
    ensures Count(Items(b, c), x) <= Occurrences(b, x)
  {
    OccurrencesSplit(b, x);
    if c.TierId? && FindTier(b.tiers, c.id).Some? {
      TierCountBound(b.tiers, c.id, x);
    }
  }

  lemma {:induction false} TierCountBound(ts: seq<Tier>, s: string, x: string)
    requires FindTier(ts, s).Some?
    ensures Count(FindTier(ts, s).value.items, x) <= Count(Flatten(ts), x)
  {
    FlattenAppendCount(ts, x);
    if ts[0].id != s {
      TierCountBound(ts[1..], s, x);
    }
  }

  // ------------------------------------------------------------ rewriting items

  /** Flattening after rewriting every tier's items equals rewriting the flat list, for a rewrite that splits over `+`. */
  lemma {:induction false} FlattenMapAll(ts: seq<Tier>, f: seq<Item> -> seq<Item>)
    requires f([]) == []
    requires forall a, b :: f(a + b) == f(a) + f(b)
    ensures Flatten(MapAll(ts, f)) == f(Flatten(ts))
  {
    if ts != [] {
      assert MapAll(ts, f)[1..] == MapAll(ts[1..], f);
      FlattenMapAll(ts[1..], f);
    }
  }

  /** `updateItemError`: the entries with the id get the flag. */
  function SetErrorOf(isError: bool): Item -> Item {
    (item: Item) => item.(hasError := isError)
  }

  /** `updateLogic`: the new name and image, the error flag cleared, id and placeholder flag kept. */
  function UpdateOf(data: ItemData): Item -> Item {
    (item: Item) => item.(name := data.name, imageUrl := data.imageUrl, hasError := false)
  }

  /** The item-list rewrite that applies `g` to the entries with the id. */
  function Where(id: string, g: Item -> Item): seq<Item> -> seq<Item> {
    items => MapWhere(items, id, g)
  }

  /** Applies `Where(id, g)` to every tier and to the pool. */
  function RewriteItems(b: Board, id: string, g: Item -> Item): Board {
    Board(MapAll(b.tiers, Where(id, g)), MapWhere(b.unranked, id, g))
  }

  /** The rewrite touches the entries with the id and nothing else, wherever they are. */
  lemma RewriteAllItems(b: Board, id: string, g: Item -> Item)
    ensures AllItems(RewriteItems(b, id, g)) == MapWhere(AllItems(b), id, g)
  {
    forall a, c ensures Where(id, g)(a + c) == Where(id, g)(a) + Where(id, g)(c) {
      MapWhereAppend(a, c, id, g);
    }
    FlattenMapAll(b.tiers, Where(id, g));
    MapWhereAppend(Flatten(b.tiers), b.unranked, id, g);
  }

  /** `handleItemError(itemId, isError)`. */
  function FlagItemError(b: Board, id: string, isError: bool): Board {
    RewriteItems(b, id, SetErrorOf(isError))
  }

  /**
   * After `handleItemError` exactly the entries with the id carry the new flag; every entry
   * keeps its position, and the tiers keep their ids, names and colours.
   */
  lemma FlagItemErrorEffect(b: Board, id: string, isError: bool)
    ensures var r := FlagItemError(b, id, isError);
      |AllItems(r)| == |AllItems(b)| &&
      forall i :: 0 <= i < |AllItems(b)| ==>
        AllItems(r)[i] == if AllItems(b)[i].id == id then AllItems(b)[i].(hasError := isError) else AllItems(b)[i]
    ensures var r := FlagItemError(b, id, isError);
      |r.tiers| == |b.tiers| && forall i :: 0 <= i < |b.tiers| ==> r.tiers[i] == b.tiers[i].(items := r.tiers[i].items)
  {
    RewriteAllItems(b, id, SetErrorOf(isError));
  }

  /** `handleUpdateItemSubmit(itemId, data)`: every entry with the id, in the tiers and in the pool. */
  function UpdateItem(b: Board, id: string, data: ItemData): Board {
    RewriteItems(b, id, UpdateOf(data))
  }

  /**
   * After an update the entries with the id have the new name and image and no error flag, and
   * keep their id, placeholder flag and position; every other entry is as it was.
   */
  lemma UpdateItemEffect(b: Board, id: string, data: ItemData)
    ensures var r := UpdateItem(b, id, data);
      |AllItems(r)| == |AllItems(b)| &&
      forall i :: 0 <= i < |AllItems(b)| ==>
        (AllItems(b)[i].id != id ==> AllItems(r)[i] == AllItems(b)[i]) &&
        (AllItems(b)[i].id == id ==>
          AllItems(r)[i] == Item(id, data.name, data.imageUrl, AllItems(b)[i].isPlaceholder, false))
  {
    RewriteAllItems(b, id, UpdateOf(data));
  }

  /** `deleteItem(itemId)`: every entry with the id goes, in the tiers and in the pool. */
  function DeleteItem(b: Board, id: string): Board {
    Board(MapAll(b.tiers, Without(id)), WithoutId(b.unranked, id))
  }

  /** Deleting from every collection is filtering the whole board. */
  lemma DeleteItemEffect(b: Board, id: string)
    ensures AllItems(DeleteItem(b, id)) == WithoutId(AllItems(b), id)
    ensures Occurrences(DeleteItem(b, id), id) == 0
    ensures forall x :: x != id ==> Occurrences(DeleteItem(b, id), x) == Occurrences(b, x)
  {
    forall a, c ensures Without(id)(a + c) == Without(id)(a) + Without(id)(c) {
      WithoutIdAppend(a, c, id);
    }
    FlattenMapAll(b.tiers, Without(id));
    WithoutIdAppend(Flatten(b.tiers), b.unranked, id);
  }

  /** The record `handleAddItemSubmit` builds from the form data and a fresh id. */
  function NewItem(id: string, data: ItemData): Item {
    Item(id, data.name, data.imageUrl, false, false)
  }

  /** `handleAddItemSubmit(data)`: the new item goes last in the pool. */
  function AddItem(b: Board, newId: string, data: ItemData): Board {
    b.(unranked := b.unranked + [NewItem(newId, data)])
  }

  /** Adding appends one entry to the board; with a fresh id every id still has one place. */
  lemma AddItemEffect(b: Board, newId: string, data: ItemData)
    ensures AllItems(AddItem(b, newId, data)) == AllItems(b) + [NewItem(newId, data)]
    ensures SingleOwnership(b) && Occurrences(b, newId) == 0 ==> SingleOwnership(AddItem(b, newId, data))
  {
    var r := AddItem(b, newId, data);
    assert AllItems(r) == AllItems(b) + [NewItem(newId, data)];
    forall x ensures Occurrences(r, x) == Occurrences(b, x) + (if x == newId then 1 else 0) {
      CountAppend(AllItems(b), [NewItem(newId, data)], x);
    }
  }

  // ------------------------------------------------------------------- tiers

  /** Every tier's text colour is the contrast colour of its background. */
  predicate TextColorsDerived(ts: seq<Tier>) {
    forall i :: 0 <= i < |ts| ==> ts[i].textColor == Contrast.LengthOnly(Some(ts[i].color))
  }

  /** The colour of a new tier. */
  const NewTierColor: string := "#cccccc"

  /** `addTier()` with `newId` from `generateId()`. */
  function AddTier(b: Board, newId: string): Board {
    var t := Tier(newId, "New Tier " + NatToString(|b.tiers| + 1), NewTierColor,
                  Contrast.LengthOnly(Some(NewTierColor)), []);
    b.(tiers := b.tiers + [t])
  }

  /** `addTier` appends an empty tier with the fresh id and leaves every item in place. */
  lemma AddTierEffect(b: Board, newId: string)
    ensures var r := AddTier(b, newId);
      |r.tiers| == |b.tiers| + 1 && r.tiers[..|b.tiers|] == b.tiers &&
      r.tiers[|b.tiers|].id == newId && r.tiers[|b.tiers|].items == [] && AllItems(r) == AllItems(b)
  {
    var r := AddTier(b, newId);
    FlattenAppend(b.tiers, [r.tiers[|b.tiers|]]);
    assert r.tiers == b.tiers + [r.tiers[|b.tiers|]];
  }

  /**
   * The tier `addTier` appends is named "New Tier n", where the digits n spell the new tier
   * count, and it is grey with black text.
   */
  lemma AddTierNewTier(b: Board, newId: string)
    ensures var t := AddTier(b, newId).tiers[|b.tiers|];
      t.name[..9] == "New Tier " && AllDigits(t.name[9..]) && DecValue(t.name[9..]) == |b.tiers| + 1 &&
      t.color == "#cccccc" && t.textColor == Contrast.Black
  {
    var name := AddTier(b, newId).tiers[|b.tiers|].name;
    assert name[..9] == "New Tier " && name[9..] == NatToString(|b.tiers| + 1);
    NewTierTextIsBlack();
  }

  /** `addTier` keeps text colours derived. */
  lemma AddTierKeepsTextColors(b: Board, newId: string)
    requires TextColorsDerived(b.tiers)
    ensures TextColorsDerived(AddTier(b, newId).tiers)
  {
  }

  /** `addTier` with an id no tier has keeps tier ids unique. */
  lemma AddTierKeepsUniqueIds(b: Board, newId: string)
    requires UniqueTierIds(b.tiers) && FindTier(b.tiers, newId).None?
    ensures UniqueTierIds(AddTier(b, newId).tiers)
  {
  }

  lemma {:induction false} FlattenAppend(a: seq<Tier>, c: seq<Tier>)
    ensures Flatten(a + c) == Flatten(a) + Flatten(c)
  {
    if a == [] {
      assert a + c == c;
    } else {
      assert (a + c)[1..] == a[1..] + c;
      FlattenAppend(a[1..], c);
    }
  }

  /** A new tier is grey and gets black text: 0xcc weighted by the luma weights is 204000 > 127500. */
  lemma NewTierTextIsBlack()
    ensures Contrast.LengthOnly(Some(NewTierColor)) == Contrast.Black
  {
    assert NewTierColor == "#" + "cccccc";
    Contrast.LongForm("cccccc");
  }

  /** A patched tier: the given name and colour replace the old ones, and the text colour follows the colour. */
  function PatchTier(t: Tier, p: TierPatch): Tier {
    var color := p.color.GetOr(t.color);
    t.(name := p.name.GetOr(t.name), color := color, textColor := Contrast.LengthOnly(Some(color)))
  }

  /** `updateTier(tierId, updatedProps)`: every tier with the id is patched. */
  function UpdateTier(b: Board, id: string, p: TierPatch): (r: Board)
    ensures |r.tiers| == |b.tiers| && r.unranked == b.unranked
    ensures forall i :: 0 <= i < |b.tiers| ==>
      r.tiers[i] == if b.tiers[i].id == id then PatchTier(b.tiers[i], p) else b.tiers[i]
  {
    b.(tiers := PatchTiers(b.tiers, id, p))
  }

  function PatchTiers(ts: seq<Tier>, id: string, p: TierPatch): (r: seq<Tier>)
    ensures |r| == |ts|
    ensures forall i :: 0 <= i < |ts| ==> r[i] == if ts[i].id == id then PatchTier(ts[i], p) else ts[i]
  {
    if ts == [] then []
    else [if ts[0].id == id then PatchTier(ts[0], p) else ts[0]] + PatchTiers(ts[1..], id, p)
  }

  /**
   * An update keeps ids, items and derived text colours; the patched tier takes the given
   * name and colour and keeps the others.
   */
  lemma UpdateTierEffect(b: Board, id: string, p: TierPatch)
    ensures var r := UpdateTier(b, id, p);
      AllItems(r) == AllItems(b) && forall i :: 0 <= i < |b.tiers| ==> r.tiers[i].id == b.tiers[i].id
    ensures TextColorsDerived(UpdateTier(b, id, p).tiers)  <== TextColorsDerived(b.tiers)
    ensures UniqueTierIds(b.tiers) ==> UniqueTierIds(UpdateTier(b, id, p).tiers)
    ensures var r := UpdateTier(b, id, p);
      forall i :: 0 <= i < |b.tiers| && b.tiers[i].id == id ==>
        r.tiers[i].name == p.name.GetOr(b.tiers[i].name) && r.tiers[i].color == p.color.GetOr(b.tiers[i].color)
  {
    SameItemsFlatten(b.tiers, UpdateTier(b, id, p).tiers);
  }

  /** Tier sequences with the same items in the same places flatten to the same items. */
  lemma {:induction false} SameItemsFlatten(a: seq<Tier>, c: seq<Tier>)
    requires |a| == |c| && forall i :: 0 <= i < |a| ==> a[i].items == c[i].items
    ensures Flatten(a) == Flatten(c)
  {
    if a != [] {
      SameItemsFlatten(a[1..], c[1..]);
    }
  }

  /**
   * The tiers without every tier that has the id: no tier with the id is left, every other
   * tier stays, and nothing new appears. `DropTierAppend` gives the order.
   */
  function DropTier(ts: seq<Tier>, id: string): (r: seq<Tier>)
    ensures forall i :: 0 <= i < |r| ==> r[i].id != id && r[i] in ts
    ensures forall i :: 0 <= i < |ts| && ts[i].id != id ==> ts[i] in r
    ensures |r| <= |ts|
  {
    if ts == [] then []
    else if ts[0].id == id then DropTier(ts[1..], id)
    else [ts[0]] + DropTier(ts[1..], id)
  }

  /**
   * `deleteTier(tierId)`: the first tier with the id hands its items, error flags cleared,
   * to the end of the pool; then every tier with the id goes.
   */
  function DeleteTier(b: Board, id: string): Board {
    var t := FindTier(b.tiers, id);
    var pool := if t.Some? && |t.value.items| > 0 then b.unranked + ClearErrors(t.value.items) else b.unranked;
    Board(DropTier(b.tiers, id), pool)
  }

  /** With unique tier ids, dropping a tier removes exactly its items from the flattened tiers. */
  lemma {:induction false} DropTierCount(ts: seq<Tier>, id: string, x: string)
    requires UniqueTierIds(ts)
    ensures var t := FindTier(ts, id);
      Count(Flatten(DropTier(ts, id)), x) == Count(Flatten(ts), x) - (if t.None? then 0 else Count(t.value.items, x))
    ensures UniqueTierIds(DropTier(ts, id))
  {
    if ts != [] {
      FlattenAppendCount(ts, x);
      DropTierCount(ts[1..], id, x);
      if ts[0].id == id {
        assert FindTier(ts[1..], id).None?;
        assert DropTier(ts[1..], id) == ts[1..] by {
          DropTierAbsent(ts[1..], id);
        }
      } else {
        var r := DropTier(ts, id);
        assert r[1..] == DropTier(ts[1..], id);
        FlattenAppendCount(r, x);
      }
    }
  }

  /**
   * Dropping is a filter: it works piece by piece (here), and a single tier is kept exactly
   * when its id differs (`DropTierSingle`), so the remaining tiers keep their order.
   */
  lemma {:induction false} DropTierAppend(a: seq<Tier>, c: seq<Tier>, id: string)
    ensures DropTier(a + c, id) == DropTier(a, id) + DropTier(c, id)
  {
    if a == [] {
      assert a + c == c;
    } else {
      assert (a + c)[1..] == a[1..] + c;
      DropTierAppend(a[1..], c, id);
    }
  }

  lemma DropTierSingle(t: Tier, id: string)
    ensures DropTier([t], id) == if t.id == id then [] else [t]
  {
    assert [t][1..] == [];
  }

  lemma {:induction false} DropTierAbsent(ts: seq<Tier>, id: string)
    requires forall i :: 0 <= i < |ts| ==> ts[i].id != id
    ensures DropTier(ts, id) == ts
  {
    if ts != [] {
      DropTierAbsent(ts[1..], id);
    }
  }

  /**
   * Where `deleteTier` puts things: the first tier with the id hands its items, error flags
   * cleared, to the end of the pool in order, and every tier with another id stays.
   */
  lemma DeleteTierContents(b: Board, id: string)
    ensures var r := DeleteTier(b, id); var t := FindTier(b.tiers, id);
      r.unranked == b.unranked + (if t.Some? then ClearErrors(t.value.items) else [])
    ensures var r := DeleteTier(b, id);
      forall i :: 0 <= i < |b.tiers| && b.tiers[i].id != id ==> b.tiers[i] in r.tiers
  {
    var t := FindTier(b.tiers, id);
    if t.Some? && |t.value.items| == 0 {
      assert b.unranked + ClearErrors(t.value.items) == b.unranked;
    }
  }

  /**
   * Deleting a tier loses no item: every id keeps its count on the board, the tier is gone,
   * and derived text colours and unique ids survive.
   */
  lemma DeleteTierEffect(b: Board, id: string)
    requires UniqueTierIds(b.tiers)
    ensures var r := DeleteTier(b, id);
      !Exists(r, TierId(id)) && UniqueTierIds(r.tiers) && forall x :: Occurrences(r, x) == Occurrences(b, x)
    ensures TextColorsDerived(b.tiers) ==> TextColorsDerived(DeleteTier(b, id).tiers)
  {
    var r := DeleteTier(b, id);
    var t := FindTier(b.tiers, id);
    forall x ensures Occurrences(r, x) == Occurrences(b, x) {
      OccurrencesSplit(b, x);
      OccurrencesSplit(r, x);
      DropTierCount(b.tiers, id, x);
      if t.Some? && |t.value.items| > 0 {
        CountAppend(b.unranked, ClearErrors(t.value.items), x);
        ClearErrorsCount(t.value.items, x);
      } else if t.Some? {
        assert Count(t.value.items, x) == 0;
      }
    }
    DropTierCount(b.tiers, id, "");
  }

  // --------------------------------------------------------------- start state

  /**
   * `initialTiersData`: S, A and B, pastel red, orange and yellow, each with the text
   * colour `getContrastingTextColor` gives its background, written out.
   */
  function InitialTiers(): seq<Tier> {
    [Tier("tier-s-initial", "S Tier", "#ff7f7f", Contrast.Black, []),
     Tier("tier-a-initial", "A Tier", "#ffbf7f", Contrast.Black, []),
     Tier("tier-b-initial", "B Tier", "#ffff7f", Contrast.Black, [])]
  }

  /** The three start colours are light: the tiers start with black text. */
  lemma LightColor(color: string, h: string)
    requires color == "#" + h
    requires h == "ff7f7f" || h == "ffbf7f" || h == "ffff7f"
    ensures Contrast.LengthOnly(Some(color)) == Contrast.Black
  {
    Contrast.LongForm(h);
  }

  /** The start tiers are three empty tiers with unique ids and derived text colours. */
  lemma InitialTiersValid()
    ensures var ts := InitialTiers();
      |ts| == 3 && UniqueTierIds(ts) && TextColorsDerived(ts) && Flatten(ts) == []
  {
    InitialTierIdsDistinct();
    InitialTextColors();
    InitialTiersEmpty();
  }

  lemma InitialTiersEmpty()
    ensures Flatten(InitialTiers()) == []
  {
    var ts := InitialTiers();
    assert ts[1..][1..][1..] == [];
  }

  lemma InitialTierIdsDistinct()
    ensures UniqueTierIds(InitialTiers())
  {
    var ts := InitialTiers();
    assert ts[0].id[5] == 's' && ts[1].id[5] == 'a' && ts[2].id[5] == 'b';
  }

  lemma InitialTextColors()
    ensures TextColorsDerived(InitialTiers())
  {
    var ts := InitialTiers();
    forall i | 0 <= i < |ts|
      ensures ts[i].textColor == Contrast.LengthOnly(Some(ts[i].color))
    {
      LightTier(ts[i]);
    }
  }

  /** A tier in one of the start colours with black text has the text colour of its background. */
  lemma LightTier(t: Tier)
    requires t.color == "#ff7f7f" || t.color == "#ffbf7f" || t.color == "#ffff7f"
    requires t.textColor == Contrast.Black
    ensures t.textColor == Contrast.LengthOnly(Some(t.color))
  {
    LightColor(t.color, t.color[1..]);
  }

  /** `initialUnrankedItemsData`: two items with placeholder images. */
  function InitialUnranked(): seq<Item> {
    [Item("item-alpha-initial", "Item Alpha", Some("https://placehold.co/200x200/7F7F7F/FFFFFF?text=Alpha"), false, false),
     Item("item-beta-initial", "Item Beta", Some("https://placehold.co/200x200/6A6A6A/FFFFFF?text=Beta"), false, false)]
  }

  /** The board `resetAll` restores once confirmed. */
  function ResetBoard(): Board {
    Board(InitialTiers(), ClearErrors(InitialUnranked()))
  }

  /** The reset board has empty tiers, two pool items, and every id in one place. */
  lemma ResetBoardValid()
    ensures var r := ResetBoard();
      UniqueTierIds(r.tiers) && TextColorsDerived(r.tiers) && SingleOwnership(r) && |AllItems(r)| == 2
  {
    var r := ResetBoard();
    InitialTiersValid();
    assert AllItems(r) == r.unranked;
    forall x ensures Occurrences(r, x) <= 1 {
      InitialPoolIdsDistinct(x);
      ClearErrorsCount(InitialUnranked(), x);
    }
  }

  lemma InitialPoolIdsDistinct(x: string)
    ensures Count(InitialUnranked(), x) <= 1
  {
    var u := InitialUnranked();
    assert u[0].id != u[1].id by {
      assert u[0].id[5] == 'a' && u[1].id[5] == 'b';
    }
    assert u == [u[0]] + [u[1]];
    CountAppend([u[0]], [u[1]], x);
  }

  // ------------------------------------------------- the flags of the source

  /**
   * `handleUpdateItemSubmit` as written: the tiers are updated, and the pool only when
   * the tier updater did not set `found`, that is when no tier held the id.
   */
  function UpdateItemFlagged(b: Board, id: string, data: ItemData): Board {
    var found := Count(Flatten(b.tiers), id) > 0;
    Board(MapAll(b.tiers, Where(id, UpdateOf(data))),
          if found then b.unranked else MapWhere(b.unranked, id, UpdateOf(data)))
  }

  /** `deleteItem` as written: the pool is filtered only when no tier lost an entry (`deletedInTiers`). */
  function DeleteItemFlagged(b: Board, id: string): Board {
    var deletedInTiers := Count(Flatten(b.tiers), id) > 0;
    Board(MapAll(b.tiers, Without(id)), if deletedInTiers then b.unranked else WithoutId(b.unranked, id))
  }

  /** While an id has at most one place, an entry found in a tier is not also in the pool. */
  lemma FoundInTiersNotInPool(b: Board, id: string)
    requires Occurrences(b, id) <= 1 && Count(Flatten(b.tiers), id) > 0
    ensures Count(b.unranked, id) == 0
  {
    OccurrencesSplit(b, id);
  }

  /**
   * Whether the flag is read before or after React runs the tier updater makes no
   * difference while the id has at most one place: both give the update everywhere.
   */
  lemma UpdateItemFlagIrrelevant(b: Board, id: string, data: ItemData)
    requires Occurrences(b, id) <= 1
    ensures UpdateItemFlagged(b, id, data) == UpdateItem(b, id, data)
  {
    if Count(Flatten(b.tiers), id) > 0 {
      FoundInTiersNotInPool(b, id);
      MapWhereAbsent(b.unranked, id, UpdateOf(data));
    }
  }

  lemma DeleteItemFlagIrrelevant(b: Board, id: string)
    requires Occurrences(b, id) <= 1
    ensures DeleteItemFlagged(b, id) == DeleteItem(b, id)
  {
    if Count(Flatten(b.tiers), id) > 0 {
      FoundInTiersNotInPool(b, id);
      WithoutAbsentId(b.unranked, id);
    }
  }

  // ------------------------------------------------------- tier invariants

  /** The invariant of the tier list: unique tier ids and derived text colours. */
  predicate TiersValid(ts: seq<Tier>) {
    UniqueTierIds(ts) && TextColorsDerived(ts)
  }

  /** A drop keeps the invariant: it changes items only. */
  lemma CommitKeepsTiersValid(b: Board, d: DraggedItemInfo, target: CollectionId, indexInput: Option<int>)
    requires TiersValid(b.tiers)
    ensures TiersValid(Commit(b, d, target, indexInput).tiers)
  {
    CommitKeepsTierFields(b, d, target, indexInput);
    SameTierFieldsKeep(b.tiers, Commit(b, d, target, indexInput).tiers);
  }

  /** Flagging, updating and deleting items keep the invariant: they change items only. */
  lemma FlagItemErrorKeepsTiersValid(b: Board, id: string, isError: bool)
    requires TiersValid(b.tiers)
    ensures TiersValid(FlagItemError(b, id, isError).tiers)
  {
    SameTierFieldsKeep(b.tiers, FlagItemError(b, id, isError).tiers);
  }

  lemma UpdateItemKeepsTiersValid(b: Board, id: string, data: ItemData)
    requires TiersValid(b.tiers)
    ensures TiersValid(UpdateItemFlagged(b, id, data).tiers)
  {
    SameTierFieldsKeep(b.tiers, UpdateItemFlagged(b, id, data).tiers);
  }

  lemma DeleteItemKeepsTiersValid(b: Board, id: string)
    requires TiersValid(b.tiers)
    ensures TiersValid(DeleteItemFlagged(b, id).tiers)
  {
    SameTierFieldsKeep(b.tiers, DeleteItemFlagged(b, id).tiers);
  }
}
