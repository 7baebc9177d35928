/**
 * The item card of app/components/ItemCard.tsx: when a drag may be set up, the hit test run
 * on every drag frame, and the report sent when the card's image fails to load.
 */
module ItemCard {
  import opened Wrappers
  import opened Types
  import opened Geometry

  /** A `.draggable-item` element of a drop region; `key` stands for the element's identity. */
  datatype Element = Element(key: nat, rect: Rect)

  /** A `.droppable-area` element: its `data-tier-id`, its box and its item elements in order. */
  datatype Droppable = Droppable(tierId: string, rect: Rect, items: seq<Element>)

  /**
   * What one `onDrag` call sees: the dragged element and its box, and the pointer fields of
   * the gsap `Draggable` (`pointerX`, `x`, `startPointerX`), each possibly undefined.
   */
  datatype DragFrame = DragFrame(target: nat, dragRect: Rect, pointerX: Option<real>,
                                 x: Option<real>, startPointerX: Option<real>)

  /** The argument of `handleDrag` when a region was hit. */
  datatype HitTestResult = HitTestResult(tierId: string, index: nat)

  /** A card is draggable outside edit mode, and the layout effect sets gsap up only for a mounted draggable card. */
  function SetsUpDraggable(isEditMode: bool, mounted: bool): (installed: bool)
    ensures installed ==> !isEditMode
    ensures !isEditMode && mounted ==> installed
  {
    !isEditMode && mounted
  }

  /** `onImageError`: the card reports its own id with the error flag set. */
  function ImageErrorReport(item: Item): (report: (string, bool))
    ensures report.0 == item.id && report.1
  {
    (item.id, true)
  }

  /** The pointer x the hit test uses: gsap's `pointerX`, else the drag offset plus the start pointer, missing parts read as 0. */
  function EffectivePointerX(f: DragFrame): (px: real)
    ensures f.pointerX.Some? ==> px == f.pointerX.value
    ensures f.pointerX.None? ==> px == f.x.GetOr(0.0) + f.startPointerX.GetOr(0.0)
    ensures f.pointerX.None? && f.x.None? && f.startPointerX.None? ==> px == 0.0
  {
    f.pointerX.GetOr(f.x.GetOr(0.0) + f.startPointerX.GetOr(0.0))
  }

  /** `droppables.find(…)`: the position of the first region whose box holds the point, or `|ds|`. */
  function FirstContaining(ds: seq<Droppable>, cx: real, cy: real): (k: nat)
    ensures k <= |ds|
    ensures forall j :: 0 <= j < k ==> !ds[j].rect.Contains(cx, cy)
    ensures k < |ds| ==> ds[k].rect.Contains(cx, cy)
  {
    if ds == [] then 0
    else if ds[0].rect.Contains(cx, cy) then 0
    else 1 + FirstContaining(ds[1..], cx, cy)
  }

  /**
   * The region's items without the dragged element itself: every other item stays and
   * nothing else appears. `OthersAppend` gives the order.
   */
  function Others(items: seq<Element>, target: nat): (r: seq<Element>)
    ensures |r| <= |items|
    ensures forall j :: 0 <= j < |r| ==> r[j].key != target && r[j] in items
    ensures forall j :: 0 <= j < |items| && items[j].key != target ==> items[j] in r
    ensures (forall j :: 0 <= j < |items| ==> items[j].key != target) ==> r == items
  {
    if items == [] then []
    else if items[0].key == target then Others(items[1..], target)
    else [items[0]] + Others(items[1..], target)
  }

  /** The boxes of a sequence of elements. */
  function Rects(items: seq<Element>): (r: seq<Rect>)
    ensures |r| == |items| && forall j :: 0 <= j < |items| ==> r[j] == items[j].rect
  {
    if items == [] then [] else [items[0].rect] + Rects(items[1..])
  }

  /**
   * The `onDrag` callback: the region is chosen from the centre of the dragged card, the
   * index from the pointer's x among the region's other items.
   */
  method OnDrag(droppables: seq<Droppable>, frame: DragFrame) returns (r: Option<HitTestResult>)
    ensures r.None? <==>
      forall j :: 0 <= j < |droppables| ==>
        !droppables[j].rect.Contains(frame.dragRect.CenterX(), frame.dragRect.CenterY())
    ensures r.Some? ==>
      var k := FirstContaining(droppables, frame.dragRect.CenterX(), frame.dragRect.CenterY());
      var others := Others(droppables[k].items, frame.target);
      k < |droppables| && r.value.tierId == droppables[k].tierId &&
      r.value.index == FirstRightOf(Rects(others), EffectivePointerX(frame)) &&
      r.value.index <= |others|
  {
    var centerX := frame.dragRect.CenterX();
    var centerY := frame.dragRect.CenterY();
    var pointerX := EffectivePointerX(frame);
    var k := FirstContaining(droppables, centerX, centerY);
    if k == |droppables| {
      return None;
    }
    var bestDrop := droppables[k];
    var items := Others(bestDrop.items, frame.target);
    var index := MidpointScan(Rects(items), pointerX);
    r := Some(HitTestResult(bestDrop.tierId, index));
  }

  /**
   * The dragged card never counts itself: when it sits in the region, the index stays below
   * the region's item count.
   */
  lemma HitIndexExcludesDragged(items: seq<Element>, target: nat, x: real)
    requires exists j :: 0 <= j < |items| && items[j].key == target
    ensures FirstRightOf(Rects(Others(items, target)), x) <= |items| - 1
  {
    OthersShorter(items, target);
  }

  /**
   * `Others` is a filter: it works piece by piece (here) and keeps a single item exactly
   * when its key differs (`OthersSingle`).
   */
  lemma {:induction false} OthersAppend(a: seq<Element>, b: seq<Element>, target: nat)
    ensures Others(a + b, target) == Others(a, target) + Others(b, target)
  {
    if a == [] {
      assert a + b == b;
    } else {
      assert (a + b)[1..] == a[1..] + b;
      OthersAppend(a[1..], b, target);
    }
  }

  lemma OthersSingle(e: Element, target: nat)
    ensures Others([e], target) == if e.key == target then [] else [e]
  {
    assert [e][1..] == [];
  }

  lemma {:induction false} OthersShorter(items: seq<Element>, target: nat)
    requires exists j :: 0 <= j < |items| && items[j].key == target
    ensures |Others(items, target)| < |items|
  {
    if items[0].key != target {
      var j :| 0 <= j < |items| && items[j].key == target;
      assert items[1..][j - 1].key == target;
      OthersShorter(items[1..], target);
    }
  }
}
