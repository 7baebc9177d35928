/**
 * The drop containers: a tier row (app/components/TierRow.tsx and its copy in app/page.tsx)
 * and the unranked pool (app/components/UnrankedItemsContainer.tsx and its copy in
 * app/page.tsx). Both revisions share this code line for line: the preview list with a
 * placeholder spliced in, the drop-index choice, the two drag-over handlers and the
 * arguments a card passes when a drag starts on it or something is dropped on it.
 */
module Container {
  import opened Wrappers
  import opened Types
  import opened JsArray
  import opened Geometry

  /** Which container: the row of the tier with this id, or the unranked pool. */
  datatype Container = Row(tierId: string) | Pool

  /** The collection the container shows and reports to the app. */
  function Name(c: Container): (n: CollectionId)
    ensures c.Pool? <==> n.Unranked?
  {
    match c
    case Row(id) => TierId(id)
    case Pool => Unranked
  }

  const RowPlaceholderId: string := "drop-preview-placeholder"
  const PoolPlaceholderId: string := "drop-preview-placeholder-unranked"

  function PlaceholderId(c: Container): string {
    if c.Row? then RowPlaceholderId else PoolPlaceholderId
  }

  /** The placeholder record: flagged as a placeholder, showing the dragged item's image. */
  function Placeholder(c: Container, dragged: Item): (p: Item)
    ensures p.id == PlaceholderId(c) && p.isPlaceholder && !p.hasError
    ensures p.imageUrl == dragged.imageUrl
  {
    Item(PlaceholderId(c), if c.Row? then "PREVIEW" else "PREVIEW_U", dragged.imageUrl, true, false)
  }

  /** The drag-related props a container renders from. */
  datatype DragView = DragView(isEditMode: bool, isDraggingGlobal: bool,
                               draggedItem: Option<DraggedItemInfo>,
                               draggedOverTierId: Option<CollectionId>,
                               dropPreviewIndex: Option<int>)

  predicate IsCurrentDropTarget(c: Container, v: DragView) {
    v.draggedOverTierId == Some(Name(c))
  }

  /** The four-part guard of the splice. */
  predicate ShowsPreview(c: Container, v: DragView) {
    IsCurrentDropTarget(c, v) && v.dropPreviewIndex.Some? && !v.isEditMode &&
    v.draggedItem.Some? && v.draggedItem.value.item.id != PlaceholderId(c)
  }

  /** The list the container renders: the items, with the placeholder spliced in when the guard holds. */
  function Preview(c: Container, items: seq<Item>, v: DragView): (list: seq<Item>)
    ensures ShowsPreview(c, v) ==> (
      var k := SpliceStart(v.dropPreviewIndex.value, |items|);
      |list| == |items| + 1 && list[k] == Placeholder(c, v.draggedItem.value.item) &&
      list[..k] == items[..k] && list[k + 1..] == items[k..])
    ensures !ShowsPreview(c, v) ==> list == items
  {
    if ShowsPreview(c, v) then
      Insert(items, v.dropPreviewIndex.value, Placeholder(c, v.draggedItem.value.item))
    else items
  }

  /** The list is built as the source builds it: a copy of the items, then a splice when the guard holds. */
  method ItemsWithPreview(c: Container, items: seq<Item>, v: DragView) returns (list: seq<Item>)
    ensures list == Preview(c, items, v)
  {
    list := items;
    if ShowsPreview(c, v) {
      list := Insert(list, v.dropPreviewIndex.value, Placeholder(c, v.draggedItem.value.item));
    }
  }

  /** Taking the placeholder back out of the preview gives exactly the container's items. */
  lemma PreviewWithoutPlaceholder(c: Container, items: seq<Item>, v: DragView)
    requires Count(items, PlaceholderId(c)) == 0
    ensures WithoutId(Preview(c, items, v), PlaceholderId(c)) == items
  {
    if ShowsPreview(c, v) {
      WithoutInserted(items, v.dropPreviewIndex.value, Placeholder(c, v.draggedItem.value.item));
    } else {
      WithoutAbsentId(items, PlaceholderId(c));
    }
  }

  /** Filtering out the id of an inserted record that was not there before undoes the insertion. */
  lemma WithoutInserted(s: seq<Item>, start: int, x: Item)
    requires Count(s, x.id) == 0
    ensures WithoutId(Insert(s, start, x), x.id) == s
  {
    var k := SpliceStart(start, |s|);
    var a, b := s[..k], s[k..];
    InsertSplit(s, start, x);
    CountAppend(a, b, x.id);
    WithoutAbsentId(a, x.id);
    WithoutLeading(x, b);
    WithoutIdAppend(a, [x] + b, x.id);
  }

  /** Filtering out the id of a leading record drops that record when the rest lacks the id. */
  lemma WithoutLeading(x: Item, b: seq<Item>)
    requires Count(b, x.id) == 0
    ensures WithoutId([x] + b, x.id) == b
  {
    assert ([x] + b)[1..] == b;
    WithoutAbsentId(b, x.id);
  }

  /** A preview index at or past the end shows the placeholder last. */
  lemma PreviewPastEnd(c: Container, items: seq<Item>, v: DragView)
    requires ShowsPreview(c, v) && v.dropPreviewIndex.value >= |items|
    ensures Preview(c, items, v) == items + [Placeholder(c, v.draggedItem.value.item)]
  {
  }

  /** The drop index: the preview index when this container is hovered with one recorded, else the item count. */
  function DropIndex(c: Container, v: DragView, items: seq<Item>): int {
    if IsCurrentDropTarget(c, v) && v.dropPreviewIndex.Some? then v.dropPreviewIndex.value
    else |items|
  }

  /**
   * The index a drop hands to `onDropItem` is the position where the preview showed the
   * placeholder, and with no preview it is the end of the list. Where the item finally lands
   * is decided by `onDropItem` (see `TierList.TargetIndex`).
   */
  lemma DropIndexMatchesPreview(c: Container, v: DragView, items: seq<Item>)
    ensures ShowsPreview(c, v) ==>
      var k := SpliceStart(DropIndex(c, v, items), |items|);
      Preview(c, items, v)[k] == Placeholder(c, v.draggedItem.value.item)
    ensures !IsCurrentDropTarget(c, v) || v.dropPreviewIndex.None? ==>
      SpliceStart(DropIndex(c, v, items), |items|) == |items|
  {
  }

  /** The `onDrop` handler of the container and of its inner box: the index passed to `onDropItem`. */
  function OnDrop(c: Container, v: DragView, items: seq<Item>): (call: Option<int>)
    ensures call.None? <==> v.isEditMode || !v.isDraggingGlobal
    ensures call.Some? ==> call.value == DropIndex(c, v, items)
  {
    if v.isEditMode || !v.isDraggingGlobal then None else Some(DropIndex(c, v, items))
  }

  /** The outer `onDragOver`: the collection and its length go to `handleDragOverTier`. */
  function OuterDragOver(c: Container, v: DragView, items: seq<Item>): (call: Option<(CollectionId, int)>)
    ensures call.None? <==> v.isEditMode || !v.isDraggingGlobal
    ensures call.Some? ==> call.value == (Name(c), |items|)
  {
    if v.isEditMode || !v.isDraggingGlobal then None else Some((Name(c), |items|))
  }

  /** What an element child of the inner box is: a hint text, an item card or a placeholder box. */
  datatype ChildKind = Hint | Card | PlaceholderBox

  /** A child element of the inner box and its box on screen. */
  datatype Child = Child(kind: ChildKind, rect: Rect)

  /**
   * The boxes of the children that are not placeholder boxes: every such child's box is
   * scanned. `ScannedAppend` gives the order and that placeholder boxes add nothing.
   */
  function Scanned(children: seq<Child>): (r: seq<Rect>)
    ensures |r| <= |children|
    ensures forall j :: 0 <= j < |children| && children[j].kind != PlaceholderBox ==> children[j].rect in r
  {
    if children == [] then []
    else if children[0].kind == PlaceholderBox then Scanned(children[1..])
    else [children[0].rect] + Scanned(children[1..])
  }

  /** The inner `onDragOver`: the midpoint scan over the children other than placeholder boxes. */
  method InnerDragOver(c: Container, v: DragView, children: seq<Child>, clientX: real)
    returns (call: Option<(CollectionId, nat)>)
    ensures call.None? <==> v.isEditMode || !v.isDraggingGlobal
    ensures call.Some? ==> (
      call.value.0 == Name(c) &&
      call.value.1 == FirstRightOf(Scanned(children), clientX) &&
      call.value.1 <= |Scanned(children)|)
  {
    if v.isEditMode || !v.isDraggingGlobal {
      return None;
    }
    var items := Scanned(children);
    var newIdx := MidpointScan(items, clientX);
    call := Some((Name(c), newIdx));
  }

  /** The kinds of the children the inner box renders for the list `list`. */
  function Rendered(c: Container, list: seq<Item>, v: DragView): (kinds: seq<ChildKind>)
    ensures |kinds| >= |list|
  {
    Hints(c, list, v) + Cards(list)
  }

  /**
   * The hint texts shown for an empty list. A row shows one unless a drag is in progress
   * outside edit mode; the pool has a third text ("Drop item here to unrank it.") for
   * exactly that case, so it always shows one.
   */
  function Hints(c: Container, list: seq<Item>, v: DragView): seq<ChildKind> {
    var idle := if |list| == 0 && !v.isDraggingGlobal && !v.isEditMode then [Hint] else [];
    var editing := if |list| == 0 && v.isEditMode then [Hint] else [];
    var dropping := if c.Pool? && |list| == 0 && v.isDraggingGlobal && !v.isEditMode then [Hint] else [];
    idle + editing + dropping
  }

  /** One card per item, a placeholder box for a placeholder record. */
  function Cards(list: seq<Item>): (kinds: seq<ChildKind>)
    ensures |kinds| == |list|
    ensures forall j :: 0 <= j < |list| ==> (kinds[j] == PlaceholderBox <==> list[j].isPlaceholder)
    ensures forall j :: 0 <= j < |list| ==> kinds[j] != Hint
  {
    if list == [] then [] else [if list[0].isPlaceholder then PlaceholderBox else Card] + Cards(list[1..])
  }

  function Kinds(children: seq<Child>): (kinds: seq<ChildKind>)
    ensures |kinds| == |children| && forall j :: 0 <= j < |children| ==> kinds[j] == children[j].kind
  {
    if children == [] then [] else [children[0].kind] + Kinds(children[1..])
  }

  /**
   * An empty pool during a drag still has the hint text among its children, and the scan
   * counts it: a pointer at or right of the hint's midpoint yields index 1 although the
   * pool holds no item.
   */
  lemma EmptyPoolScanCanBeOne(v: DragView, children: seq<Child>, clientX: real)
    requires v.isDraggingGlobal && !v.isEditMode && !ShowsPreview(Pool, v)
    requires Kinds(children) == Rendered(Pool, Preview(Pool, [], v), v)
    requires clientX >= children[0].rect.CenterX()
    ensures |children| == 1
    ensures FirstRightOf(Scanned(children), clientX) == 1
  {
    assert Kinds(children) == [Hint];
    assert children[0].kind == Hint;
    assert Scanned(children) == [children[0].rect] by {
      assert children[1..] == [];
    }
  }

  /** A row has no hint during a drag, so its scan index never exceeds the row's item count. */
  lemma RowScanBounded(tierId: string, items: seq<Item>, v: DragView, children: seq<Child>, clientX: real)
    requires v.isDraggingGlobal && !v.isEditMode
    requires CountPlaceholders(items) == 0
    requires Kinds(children) == Rendered(Row(tierId), Preview(Row(tierId), items, v), v)
    ensures FirstRightOf(Scanned(children), clientX) <= |items|
  {
    var c := Row(tierId);
    var list := Preview(c, items, v);
    assert Hints(c, list, v) == [];
    assert Kinds(children) == Cards(list);
    ScannedCountsCards(children, list);
    if ShowsPreview(c, v) {
      InsertedPlaceholders(items, v.dropPreviewIndex.value, Placeholder(c, v.draggedItem.value.item));
    }
  }

  /** Splicing in one placeholder record adds one placeholder. */
  lemma InsertedPlaceholders(items: seq<Item>, start: int, p: Item)
    requires p.isPlaceholder
    ensures CountPlaceholders(Insert(items, start, p)) == CountPlaceholders(items) + 1
  {
    var k := SpliceStart(start, |items|);
    var a, b := items[..k], items[k..];
    assert items == a + b;
    CountPlaceholdersAppend(a, b);
    assert Insert(items, start, p) == a + ([p] + b);
    CountPlaceholdersAppend(a, [p] + b);
    assert ([p] + b)[1..] == b;
  }

  /**
   * The scan is a filter over the children: it works piece by piece (here), with one box
   * per child that is not a placeholder box (`ScannedSingle`).
   */
  lemma {:induction false} ScannedAppend(a: seq<Child>, b: seq<Child>)
    ensures Scanned(a + b) == Scanned(a) + Scanned(b)
  {
    if a == [] {
      assert a + b == b;
    } else {
      assert (a + b)[1..] == a[1..] + b;
      ScannedAppend(a[1..], b);
    }
  }

  lemma ScannedSingle(ch: Child)
    ensures Scanned([ch]) == if ch.kind == PlaceholderBox then [] else [ch.rect]
  {
    assert [ch][1..] == [];
  }

  /** Children rendered from `list` alone: one scanned box per non-placeholder record. */
  lemma {:induction false} ScannedCountsCards(children: seq<Child>, list: seq<Item>)
    requires Kinds(children) == Cards(list)
    ensures |Scanned(children)| == |list| - CountPlaceholders(list)
  {
    if children != [] {
      assert Kinds(children[1..]) == Kinds(children)[1..];
      assert Cards(list[1..]) == Cards(list)[1..];
      ScannedCountsCards(children[1..], list[1..]);
    }
  }

  /** The number of placeholder records: none exactly when no record is a placeholder. */
  function CountPlaceholders(list: seq<Item>): (n: nat)
    ensures n <= |list|
    ensures n == 0 <==> forall j :: 0 <= j < |list| ==> !list[j].isPlaceholder
  {
    if list == [] then 0 else (if list[0].isPlaceholder then 1 else 0) + CountPlaceholders(list[1..])
  }

  lemma {:induction false} CountPlaceholdersAppend(a: seq<Item>, b: seq<Item>)
    ensures CountPlaceholders(a + b) == CountPlaceholders(a) + CountPlaceholders(b)
  {
    if a == [] {
      assert a + b == b;
    } else {
      assert (a + b)[1..] == a[1..] + b;
      CountPlaceholdersAppend(a[1..], b);
    }
  }

  /** `onDragStart` of a card: the item, the container's collection and the item's index there. */
  function DragStartArgs(c: Container, items: seq<Item>, item: Item): (d: DraggedItemInfo)
    ensures d.item == item && d.source == Name(c)
    ensures d.sourceIndex == -1 <==> Count(items, item.id) == 0
    ensures d.sourceIndex >= 0 ==> d.sourceIndex < |items| && items[d.sourceIndex].id == item.id
  {
    DraggedItemInfo(item, Name(c), FindIndex(items, item.id))
  }

  /**
   * `onDrop` of a card in app/page.tsx: installed only outside edit mode, it drops at the
   * card's own index in the container.
   */
  function CardDrop(isEditMode: bool, items: seq<Item>, item: Item): (call: Option<int>)
    ensures call.None? <==> isEditMode
    ensures call.Some? && item in items ==> 0 <= call.value < |items| && items[call.value].id == item.id
  {
    if isEditMode then None else Some(FindIndex(items, item.id))
  }
}
