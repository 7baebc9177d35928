/**
 * A snapshot of the layout the drag handlers read through `getBoundingClientRect`, and the
 * midpoint scan they all share: the insertion index is the first box whose horizontal
 * midpoint lies to the right of the pointer, or the number of boxes.
 */
module Geometry {

  /** A `DOMRect`: left and top edge, width and height. */
  datatype Rect = Rect(left: real, top: real, width: real, height: real) {
    function Right(): real { left + width }
    function Bottom(): real { top + height }
    /** `r.left + r.width / 2`: the horizontal midpoint. */
    function CenterX(): real { left + width / 2.0 }
    function CenterY(): real { top + height / 2.0 }

    /** The point lies inside the box or on its border. */
    predicate Contains(x: real, y: real) {
      left <= x <= Right() && top <= y <= Bottom()
    }
  }

  /**
   * The insertion index for a pointer at `x`: the first box whose midpoint is strictly
   * right of `x` (a pointer exactly on a midpoint goes after that box), else `|rects|`.
   */
  function FirstRightOf(rects: seq<Rect>, x: real): (k: nat)
    ensures k <= |rects|
    ensures forall j :: 0 <= j < k ==> rects[j].CenterX() <= x
    ensures k < |rects| ==> x < rects[k].CenterX()
  {
    if rects == [] then 0
    else if x < rects[0].CenterX() then 0
    else 1 + FirstRightOf(rects[1..], x)
  }

  /** The two properties in the contract of `FirstRightOf` pin the index down. */
  lemma {:induction false} FirstRightOfUnique(rects: seq<Rect>, x: real, k: nat)
    requires k <= |rects|
    requires forall j :: 0 <= j < k ==> rects[j].CenterX() <= x
    requires k < |rects| ==> x < rects[k].CenterX()
    ensures k == FirstRightOf(rects, x)
  {
    if rects != [] && k > 0 {
      assert rects[0].CenterX() <= x;
      assert forall j :: 0 <= j < k - 1 ==> rects[1..][j] == rects[j + 1];
      FirstRightOfUnique(rects[1..], x, k - 1);
    }
  }

  /** Moving the pointer to the right never moves the insertion index to the left. */
  lemma FirstRightOfMonotone(rects: seq<Rect>, x: real, y: real)
    requires x <= y
    ensures FirstRightOf(rects, x) <= FirstRightOf(rects, y)
  {
  }

  /**
   * The loop of the drag handlers: `let index = rects.length; for (j …) if (x < mid_j)
   * { index = j; break; }`.
   */
  method MidpointScan(rects: seq<Rect>, x: real) returns (index: nat)
    ensures index == FirstRightOf(rects, x)
  {
    index := |rects|;
    var j := 0;
    while j < |rects|
      invariant j <= |rects|
      invariant index == |rects|
      invariant forall i :: 0 <= i < j ==> rects[i].CenterX() <= x
    {
      if x < rects[j].CenterX() {
        index := j;
        break;
      }
      j := j + 1;
    }
    FirstRightOfUnique(rects, x, index);
  }
}
