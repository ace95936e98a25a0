/** Laying a tree out: every cell of the bounds goes to exactly one pane. */
module Tiling {
  import opened Basics
  import opened Geometry
  import opened Layout
  import opened Products

  /** Rounds a non-negative number to the nearest integer, halves upwards. */
  function Round(v: real): int {
    (v + 0.5).Floor
  }

  function Share(total: U16, ratio: Ratio): real {
    Product(total as real, ratio)
  }

  /** The cells side `a` gets of `total`: neither side vanishes from 2 cells on. */
  function SplitExtent(total: U16, ratio: Ratio): (a: U16)
    ensures a <= total && (total >= 1 ==> a >= 1) && (total >= 2 ==> a < total)
  {
    if total <= 1 then total else Min(Max(Round(Share(total, ratio)), 1), total - 1)
  }

  function SplitRect(bounds: Rect, o: Orientation, ratio: Ratio): (Rect, Rect) {
    match o
    case Horizontal =>
      var h := SplitExtent(bounds.h, ratio);
      (Rect(bounds.x, bounds.y, bounds.w, h), Rect(bounds.x, Add16(bounds.y, h), bounds.w, bounds.h - h))
    case Vertical =>
      var w := SplitExtent(bounds.w, ratio);
      (Rect(bounds.x, bounds.y, w, bounds.h), Rect(Add16(bounds.x, w), bounds.y, bounds.w - w, bounds.h))
  }

  type Placement = (Id, Rect)

  /** The rectangle of every pane, in display order. */
  function Rects(t: LayoutNode, bounds: Rect): (rects: seq<Placement>)
    ensures |rects| == |Panes(t)|
  {
    match t
    case Leaf(pane) => [(pane, bounds)]
    case Split(o, ratio, a, b) =>
      var (ra, rb) := SplitRect(bounds, o, ratio);
      Rects(a, ra) + Rects(b, rb)
  }

  /** The renderer: pushes one rectangle a leaf. */
  method ComputeRects(t: LayoutNode, bounds: Rect) returns (out: seq<Placement>)
    ensures out == Rects(t, bounds)
  {
    out := LayOut(t, bounds, []);
  }

  method LayOut(t: LayoutNode, bounds: Rect, out: seq<Placement>) returns (out': seq<Placement>)
    ensures out' == out + Rects(t, bounds)
  {
    match t
    case Leaf(pane) => return out + [(pane, bounds)];
    case Split(o, ratio, a, b) =>
      var (ra, rb) := SplitRect(bounds, o, ratio);
      out' := LayOut(a, ra, out);
      out' := LayOut(b, rb, out');
  }

  // ----- one split

  /** `a` of `total` cells is the whole number nearest to `total * ratio`, halves upwards,
      but that neither side is left without a cell. */
  predicate NearestCells(a: int, total: int, ratio: real) {
    && 1 <= a <= total - 1
    && (a > 1 ==> a as real - 0.5 <= total as real * ratio)
    && (a < total - 1 ==> total as real * ratio < a as real + 0.5)
  }

  /** What a ratio is worth in cells, from two cells on; nothing else is as near. */
  lemma ExtentIsNearest(total: U16, ratio: Ratio, other: int)
    requires total >= 2
    ensures NearestCells(SplitExtent(total, ratio), total, ratio)
    ensures NearestCells(other, total, ratio) ==> other == SplitExtent(total, ratio)
  {
    var exact := total as real * ratio;
    assert Share(total, ratio) == exact;
    var n := Round(exact);
    assert n as real - 0.5 <= exact < n as real + 0.5;
  }

  /** A split is laid out as its two sides in two rectangles that divide the bounds: side
      `a` starts where they do and is as long as the ratio says, side `b` takes the rest. */
  lemma SplitLaysOut(t: LayoutNode, bounds: Rect) returns (ra: Rect, rb: Rect)
    requires bounds.Fits() && t.Split?
    ensures Rects(t, bounds) == Rects(t.a, ra) + Rects(t.b, rb)
    ensures var o := t.orientation;
            && ra.Start(o) == bounds.Start(o) && rb.Start(o) == ra.End(o) && rb.End(o) == bounds.End(o)
            && ra.Start(Across(o)) == rb.Start(Across(o)) == bounds.Start(Across(o))
            && ra.Extent(Across(o)) == rb.Extent(Across(o)) == bounds.Extent(Across(o))
            && (bounds.Extent(o) >= 2 ==> NearestCells(ra.Extent(o), bounds.Extent(o), t.ratio))
            && (bounds.Extent(o) < 2 ==> rb.Extent(o) == 0)
  {
    hide SplitExtent, NearestCells;
    var sides := SplitRect(bounds, t.orientation, t.ratio);
    ra, rb := sides.0, sides.1;
    SidesAdjoin(bounds, t.orientation, t.ratio);
    if bounds.Extent(t.orientation) >= 2 {
      ExtentIsNearest(bounds.Extent(t.orientation), t.ratio, 0);
    }
  }

  /** The two sides share the bounds: same extent across the split, adjoining
      along it, nothing left over, and no coordinate wrapped. */
  lemma SidesAdjoin(bounds: Rect, o: Orientation, ratio: Ratio)
    requires bounds.Fits()
    ensures var (ra, rb) := SplitRect(bounds, o, ratio);
            && ra.Fits() && rb.Fits() && ra.Within(bounds) && rb.Within(bounds)
            && ra.Start(o) == bounds.Start(o) && ra.End(o) == rb.Start(o) && rb.End(o) == bounds.End(o)
            && ra.Start(Across(o)) == bounds.Start(Across(o)) && ra.Extent(Across(o)) == bounds.Extent(Across(o))
            && rb.Start(Across(o)) == bounds.Start(Across(o)) && rb.Extent(Across(o)) == bounds.Extent(Across(o))
            && (bounds.Extent(o) >= 2 ==> ra.Extent(o) >= 1 && rb.Extent(o) >= 1)
            && (bounds.Extent(o) <= 1 ==> ra.Extent(o) == bounds.Extent(o) && rb.Extent(o) == 0)
  {
    hide Add16, SplitExtent;
    if o.Vertical? {
      AddFits(bounds.x, SplitExtent(bounds.w, ratio));
    } else {
      AddFits(bounds.y, SplitExtent(bounds.h, ratio));
    }
  }

  lemma AddFits(a: U16, b: U16)
    requires a + b < U16_LIMIT
    ensures Add16(a, b) == a + b
  {
  }

  // ----- the partition

  /** How many of the rectangles hold a cell. */
  function Covering(rects: seq<Placement>, px: int, py: int): nat {
    if rects == [] then 0
    else (if rects[0].1.Contains(px, py) then 1 else 0) + Covering(rects[1..], px, py)
  }

  function AreaOf(rects: seq<Placement>): int {
    if rects == [] then 0 else rects[0].1.Area() + AreaOf(rects[1..])
  }

  lemma {:induction false} CoveringSplit(left: seq<Placement>, right: seq<Placement>, px: int, py: int)
    ensures Covering(left + right, px, py) == Covering(left, px, py) + Covering(right, px, py)
    ensures AreaOf(left + right) == AreaOf(left) + AreaOf(right)
  {
    if left == [] {
      assert [] + right == right;
    } else {
      assert (left + right)[1..] == left[1..] + right;
      CoveringSplit(left[1..], right, px, py);
    }
  }

  /** Every cell of the bounds lies in exactly one rectangle, every other in none. */
  lemma {:induction false} ExactPartition(t: LayoutNode, bounds: Rect, px: int, py: int)
    requires bounds.Fits()
    ensures Covering(Rects(t, bounds), px, py) == if bounds.Contains(px, py) then 1 else 0
    ensures AreaOf(Rects(t, bounds)) == bounds.Area()
  {
    match t
    case Leaf(_) =>
      assert Rects(t, bounds)[1..] == [];
    case Split(o, ratio, a, b) =>
      var (ra, rb) := SplitRect(bounds, o, ratio);
      SidesAdjoin(bounds, o, ratio);
      ExactPartition(a, ra, px, py);
      ExactPartition(b, rb, px, py);
      CoveringSplit(Rects(a, ra), Rects(b, rb), px, py);
      AreaSplit(bounds, o, ratio);
  }

  lemma AreaSplit(bounds: Rect, o: Orientation, ratio: Ratio)
    ensures var (ra, rb) := SplitRect(bounds, o, ratio); ra.Area() + rb.Area() == bounds.Area()
  {
    var (ra, rb) := SplitRect(bounds, o, ratio);
    if o.Vertical? {
      assert ra.w * bounds.h + (bounds.w - ra.w) * bounds.h == bounds.w * bounds.h;
    } else {
      assert bounds.w * ra.h + bounds.w * (bounds.h - ra.h) == bounds.w * bounds.h;
    }
  }

  /** One rectangle a pane, in display order, all within the bounds and their coordinates. */
  lemma {:induction false} OneRectAPane(t: LayoutNode, bounds: Rect, i: nat)
    requires bounds.Fits() && i < |Panes(t)|
    ensures var (pane, r) := Rects(t, bounds)[i]; pane == Panes(t)[i] && r.Fits() && r.Within(bounds)
  {
    if t.Split? {
      var (ra, rb) := SplitRect(bounds, t.orientation, t.ratio);
      SidesAdjoin(bounds, t.orientation, t.ratio);
      if i < |Panes(t.a)| {
        OneRectAPane(t.a, ra, i);
      } else {
        OneRectAPane(t.b, rb, i - |Panes(t.a)|);
      }
    }
  }

  lemma {:induction false} CoveringCounts(rects: seq<Placement>, px: int, py: int)
    ensures Covering(rects, px, py) > 0 <==> exists i :: 0 <= i < |rects| && rects[i].1.Contains(px, py)
  {
    if rects != [] {
      CoveringCounts(rects[1..], px, py);
      if Covering(rects[1..], px, py) > 0 {
        var i :| 0 <= i < |rects[1..]| && rects[1..][i].1.Contains(px, py);
        assert rects[i + 1].1.Contains(px, py);
      }
      if i :| 0 <= i < |rects| && rects[i].1.Contains(px, py) && i > 0 {
        assert rects[1..][i - 1].1.Contains(px, py);
      }
    }
  }

  /** One rectangle lies above the other or to its left. */
  predicate Precedes(r: Rect, s: Rect) {
    r.End(Vertical) <= s.Start(Vertical) || r.End(Horizontal) <= s.Start(Horizontal)
  }

  lemma SidesPrecede(bounds: Rect, o: Orientation, ratio: Ratio, r: Rect, s: Rect)
    requires bounds.Fits() && r.Within(SplitRect(bounds, o, ratio).0) && s.Within(SplitRect(bounds, o, ratio).1)
    ensures Precedes(r, s)
  {
    SidesAdjoin(bounds, o, ratio);
  }

  /** A pane displayed before another lies above it or to its left. */
  lemma {:induction false} DisplayOrder(t: LayoutNode, bounds: Rect, i: nat, j: nat)
    requires bounds.Fits() && i < j < |Panes(t)|
    ensures Precedes(Rects(t, bounds)[i].1, Rects(t, bounds)[j].1)
  {
    hide Precedes, SplitRect;
    var (ra, rb) := SplitRect(bounds, t.orientation, t.ratio);
    var n := |Panes(t.a)|;
    SidesAdjoin(bounds, t.orientation, t.ratio);
    if j < n {
      DisplayOrder(t.a, ra, i, j);
    } else if n <= i {
      DisplayOrder(t.b, rb, i - n, j - n);
    } else {
      OneRectAPane(t.a, ra, i);
      OneRectAPane(t.b, rb, j - n);
      SidesPrecede(bounds, t.orientation, t.ratio, Rects(t, bounds)[i].1, Rects(t, bounds)[j].1);
    }
  }

  /** The pane that holds a cell of the bounds. */
  lemma OwnerOf(t: LayoutNode, bounds: Rect, px: int, py: int) returns (i: nat)
    requires bounds.Fits() && bounds.Contains(px, py)
    ensures i < |Panes(t)| && Rects(t, bounds)[i].1.Contains(px, py)
    ensures forall j :: 0 <= j < |Panes(t)| && Rects(t, bounds)[j].1.Contains(px, py) ==> j == i
  {
    ExactPartition(t, bounds, px, py);
    CoveringCounts(Rects(t, bounds), px, py);
    i :| 0 <= i < |Rects(t, bounds)| && Rects(t, bounds)[i].1.Contains(px, py);
    forall j | 0 <= j < |Panes(t)| && Rects(t, bounds)[j].1.Contains(px, py) ensures j == i {
      if i < j {
        DisplayOrder(t, bounds, i, j);
      } else if j < i {
        DisplayOrder(t, bounds, j, i);
      }
    }
  }
}
