/** Sliding a divider: which split governs a pane's edge, and what moving it does
    to every rectangle. */
module Resize {
  import opened Basics
  import opened Geometry
  import opened Layout
  import opened Tiling
  import opened Navigation
  import opened Products

  /** A way down the tree: `true` is into side `a`. */
  type Path = seq<bool>

  /** The deepest split of orientation `want` that has `target` on the needed side. */
  function Governing(t: LayoutNode, target: Id, want: Orientation, needA: bool): Option<Path> {
    if t.Leaf? then None
    else
      var inA := ContainsPane(t.a, target);
      var deeper := if inA then Governing(t.a, target, want, needA)
                    else if ContainsPane(t.b, target) then Governing(t.b, target, want, needA)
                    else None;
      if deeper.Some? then Some([inA] + deeper.value)
      else if t.orientation == want && ((inA && needA) || (ContainsPane(t.b, target) && !needA)) then Some([])
      else None
  }

  predicate OnSplit(t: LayoutNode, path: Path) {
    t.Split? && (path != [] ==> OnSplit(if path[0] then t.a else t.b, path[1..]))
  }

  function SplitAt(t: LayoutNode, path: Path): (s: LayoutNode)
    requires OnSplit(t, path)
    ensures s.Split?
  {
    if path == [] then t else SplitAt(if path[0] then t.a else t.b, path[1..])
  }

  function WithRatio(t: LayoutNode, path: Path, ratio: Ratio): (r: LayoutNode)
    requires OnSplit(t, path)
    ensures Panes(r) == Panes(t) && OnSplit(r, path)
  {
    if path == [] then t.(ratio := ratio)
    else if path[0] then t.(a := WithRatio(t.a, path[1..], ratio))
    else t.(b := WithRatio(t.b, path[1..], ratio))
  }

  lemma {:induction false} GoverningIsSplit(t: LayoutNode, target: Id, want: Orientation, needA: bool)
    requires Governing(t, target, want, needA).Some?
    ensures OnSplit(t, Governing(t, target, want, needA).value)
    ensures SplitAt(t, Governing(t, target, want, needA).value).orientation == want
  {
    if ContainsPane(t.a, target) {
      if Governing(t.a, target, want, needA).Some? {
        GoverningIsSplit(t.a, target, want, needA);
      }
    } else if Governing(t.b, target, want, needA).Some? {
      GoverningIsSplit(t.b, target, want, needA);
    }
  }

  /** The walk of the source: a stack of steps, and the deepest match so far. */
  method WalkGoverning(t: LayoutNode, target: Id, want: Orientation, needA: bool, path: Path, best: Option<Path>)
    returns (best': Option<Path>)
    ensures var found := Governing(t, target, want, needA); best' == if found.Some? then Some(path + found.value) else best
  {
    best' := best;
    if t.Split? {
      var inA := ContainsPane(t.a, target);
      var inB := ContainsPane(t.b, target);
      if t.orientation == want && ((inA && needA) || (inB && !needA)) {
        best' := Some(path);
      }
      assert path + [] == path;
      if inA {
        best' := WalkGoverning(t.a, target, want, needA, path + [true], best');
        assert forall deeper: Path :: path + [true] + deeper == path + ([true] + deeper);
      } else if inB {
        best' := WalkGoverning(t.b, target, want, needA, path + [false], best');
        assert forall deeper: Path :: path + [false] + deeper == path + ([false] + deeper);
      }
    }
  }

  /** How the machine adds, by whatever rounding; `None` is a sum that is not finite. */
  type Addition = (real, real) -> Option<real>

  const EXACT: Addition := (x, y) => Some(x + y)

  /** Where a move by `d` puts a divider: a sum that is not finite leaves it where it is. */
  function Moved(ratio: Ratio, d: real, add: Addition): Ratio {
    var next := add(ratio, d);
    if next.Some? then ToRatio(next.value) else ratio
  }

  /** Raising the ratio moves the divider towards side `b`. */
  function Signed(direction: Direction, delta: real): real {
    if direction.TowardB() then delta else -delta
  }

  /** The tree after a resize of `target` towards `direction`, and whether there was a divider to move. */
  function Resized(t: LayoutNode, target: Id, direction: Direction, delta: real, add: Addition): (LayoutNode, bool) {
    var path := Governing(t, target, direction.Orientation(), direction.TowardB());
    if path == None then (t, false)
    else
      GoverningIsSplit(t, target, direction.Orientation(), direction.TowardB());
      (WithRatio(t, path.value, Moved(SplitAt(t, path.value).ratio, Signed(direction, delta), add)), true)
  }

  // ----- when there is a divider

  /** Without a governing split the pane keeps its edge on the border. */
  lemma {:induction false} UngovernedAtEdge(t: LayoutNode, bounds: Rect, target: Id, m: nat, direction: Direction)
    requires Sane(t) && bounds.Fits() && m < |Panes(t)| && Panes(t)[m] == target
    requires Governing(t, target, direction.Orientation(), direction.TowardB()) == None
    ensures AtEdge(Rects(t, bounds)[m].1, bounds, direction)
  {
    hide SplitRect, Sane, Rect.Fits;
    if t.Split? {
      var (ra, rb) := SplitRect(bounds, t.orientation, t.ratio);
      var n := |Panes(t.a)|;
      SaneSides(t);
      SidesAdjoin(bounds, t.orientation, t.ratio);
      if m < n {
        UngovernedAtEdge(t.a, ra, target, m, direction);
      } else {
        UngovernedAtEdge(t.b, rb, target, m - n, direction);
      }
    }
  }

  /** In bounds without cells along `o` some pane still spans every level across. */
  lemma {:induction false} StripHasPane(t: LayoutNode, bounds: Rect, o: Orientation, level: int) returns (k: nat)
    requires bounds.Fits() && bounds.Extent(o) == 0
    requires bounds.Start(Across(o)) <= level < bounds.End(Across(o))
    ensures k < |Panes(t)|
    ensures var r := Rects(t, bounds)[k].1;
            r.Extent(o) == 0 && r.Start(o) == bounds.Start(o) && r.Start(Across(o)) <= level < r.End(Across(o))
  {
    hide SplitRect;
    if t.Leaf? {
      return 0;
    }
    var (ra, rb) := SplitRect(bounds, t.orientation, t.ratio);
    SidesAdjoin(bounds, t.orientation, t.ratio);
    if ra.Start(Across(o)) <= level < ra.End(Across(o)) {
      k := StripHasPane(t.a, ra, o, level);
    } else {
      k := StripHasPane(t.b, rb, o, level);
      k := |Panes(t.a)| + k;
    }
  }

  /** The same for a pane of side `a` whose far edge is on the border: side `b` has no cells left. */
  lemma FarSideSqueezed(t: LayoutNode, bounds: Rect, m: nat, direction: Direction) returns (k: nat)
    requires bounds.Fits() && t.Split? && t.orientation == direction.Orientation() && direction.TowardB()
    requires m < |Panes(t.a)| && !Rects(t, bounds)[m].1.IsEmpty() && AtEdge(Rects(t, bounds)[m].1, bounds, direction)
    ensures k < |Panes(t)| && SqueezedPast(Rects(t, bounds)[k], Rects(t, bounds)[m].1, bounds, direction)
  {
    hide ScoreOf, SplitRect, Rect.Fits;
    var o := direction.Orientation();
    var me := Rects(t, bounds)[m].1;
    var (ra, rb) := SplitRect(bounds, o, t.ratio);
    SidesAdjoin(bounds, o, t.ratio);
    OneRectAPane(t.a, ra, m);
    var level := me.Start(Across(o));
    var inB := StripHasPane(t.b, rb, o, level);
    k := |Panes(t.a)| + inB;
    var r := Rects(t, bounds)[k].1;
    assert r == Rects(t.b, rb)[inB].1;
    ScoreByAxis(r, me, direction);
    assert InBoth(r.Start(Across(o)), r.End(Across(o)), me.Start(Across(o)), me.End(Across(o)), level);
  }

  /** A governed pane whose edge is on the border hides a squeezed-out one. */
  lemma {:induction false} GovernedAtEdge(t: LayoutNode, bounds: Rect, target: Id, m: nat, direction: Direction) returns (k: nat)
    requires Laid(t, bounds, target, m) && AtEdge(Rects(t, bounds)[m].1, bounds, direction)
    requires Governing(t, target, direction.Orientation(), direction.TowardB()).Some?
    ensures direction.TowardB() && k < |Panes(t)|
    ensures SqueezedPast(Rects(t, bounds)[k], Rects(t, bounds)[m].1, bounds, direction)
  {
    hide ScoreOf, SplitRect, Sane, Rect.Fits;
    var o := direction.Orientation();
    var (ra, rb) := SplitRect(bounds, t.orientation, t.ratio);
    var n := |Panes(t.a)|;
    SaneSides(t);
    SidesAdjoin(bounds, t.orientation, t.ratio);
    if m < n {
      OneRectAPane(t.a, ra, m);
      if t.orientation == o && direction.TowardB() {
        k := FarSideSqueezed(t, bounds, m, direction);
      } else {
        k := GovernedAtEdge(t.a, ra, target, m, direction);
      }
    } else {
      OneRectAPane(t.b, rb, m - n);
      k := GovernedAtEdge(t.b, rb, target, m - n, direction);
      k := n + k;
    }
  }

  /** A pane on the far side of a split across the axis, or on the wrong side of one
      along it, is no candidate. */
  lemma OffSideNoCandidate(bounds: Rect, o: Orientation, ratio: Ratio, inA: Rect, inB: Rect, direction: Direction)
    requires bounds.Fits() && inA.Within(SplitRect(bounds, o, ratio).0) && inB.Within(SplitRect(bounds, o, ratio).1)
    ensures o != direction.Orientation() ==>
              !Eligible(ScoreOf(inA, inB, direction)) && !Eligible(ScoreOf(inB, inA, direction))
    ensures direction.TowardB() && !inB.IsEmpty() ==> !Eligible(ScoreOf(inA, inB, direction))
    ensures !direction.TowardB() && !inA.IsEmpty() ==> !Eligible(ScoreOf(inB, inA, direction))
  {
    SidesAdjoin(bounds, o, ratio);
    ScoreByAxis(inA, inB, direction);
    ScoreByAxis(inB, inA, direction);
  }

  lemma InItsSide(t: LayoutNode, bounds: Rect, i: nat)
    requires t.Split? && bounds.Fits() && i < |Panes(t)|
    ensures var (ra, rb) := SplitRect(bounds, t.orientation, t.ratio);
            Rects(t, bounds)[i].1.Within(if i < |Panes(t.a)| then ra else rb)
  {
    hide SplitRect;
    var (ra, rb) := SplitRect(bounds, t.orientation, t.ratio);
    SidesAdjoin(bounds, t.orientation, t.ratio);
    if i < |Panes(t.a)| {
      OneRectAPane(t.a, ra, i);
    } else {
      OneRectAPane(t.b, rb, i - |Panes(t.a)|);
    }
  }

  /** A target and a candidate that part at the root of `t`: its split governs. */
  lemma PartedAtRoot(t: LayoutNode, bounds: Rect, m: nat, direction: Direction, k: nat)
    requires t.Split? && bounds.Fits() && m < |Panes(t)| && k < |Panes(t)| && (m < |Panes(t.a)|) != (k < |Panes(t.a)|)
    requires !Rects(t, bounds)[m].1.IsEmpty() && Eligible(ScoreOf(Rects(t, bounds)[k].1, Rects(t, bounds)[m].1, direction))
    ensures t.orientation == direction.Orientation() && (direction.TowardB() <==> m < |Panes(t.a)|)
  {
    hide ScoreOf, SplitRect, Eligible;
    var n := |Panes(t.a)|;
    InItsSide(t, bounds, m);
    InItsSide(t, bounds, k);
    if m < n {
      OffSideNoCandidate(bounds, t.orientation, t.ratio, Rects(t, bounds)[m].1, Rects(t, bounds)[k].1, direction);
    } else {
      OffSideNoCandidate(bounds, t.orientation, t.ratio, Rects(t, bounds)[k].1, Rects(t, bounds)[m].1, direction);
    }
  }

  /** A pane with a candidate that way has a governing split: where the two part. */
  lemma {:induction false} CandidateGoverned(t: LayoutNode, bounds: Rect, target: Id, m: nat, direction: Direction, k: nat)
    requires Laid(t, bounds, target, m) && k < |Panes(t)|
    requires Candidate(Rects(t, bounds)[k], target, Rects(t, bounds)[m].1, direction)
    ensures Governing(t, target, direction.Orientation(), direction.TowardB()).Some?
  {
    hide ScoreOf, SplitRect, Eligible, Rect.Fits;
    if t.Leaf? {
      return;
    }
    var (ra, rb) := SplitRect(bounds, t.orientation, t.ratio);
    var n := |Panes(t.a)|;
    SaneSides(t);
    SidesAdjoin(bounds, t.orientation, t.ratio);
    if m < n && k < n {
      CandidateGoverned(t.a, ra, target, m, direction, k);
    } else if m >= n && k >= n {
      CandidateGoverned(t.b, rb, target, m - n, direction, k - n);
    } else {
      PartedAtRoot(t, bounds, m, direction, k);
    }
  }

  /** A pane can be resized towards a side exactly when it has a neighbour there. */
  lemma ResizesIffNeighbor(t: LayoutNode, bounds: Rect, target: Id, m: nat, direction: Direction, delta: real, add: Addition, result: Option<Id>)
    requires Laid(t, bounds, target, m) && Answers(Rects(t, bounds), target, Rects(t, bounds)[m].1, direction, result)
    ensures Resized(t, target, direction, delta, add).1 <==> result.Some?
  {
    hide ScoreOf, SplitRect, Rects;
    var rects := Rects(t, bounds);
    var me := rects[m].1;
    if Governing(t, target, direction.Orientation(), direction.TowardB()).Some? {
      if AtEdge(me, bounds, direction) {
        var k := GovernedAtEdge(t, bounds, target, m, direction);
        AtEdgeCandidate(t, bounds, target, m, direction, k);
      } else {
        var k := NextDoor(t, bounds, target, m, direction);
      }
    } else if result.Some? {
      var k: nat :| IsBest(rects, target, me, direction, k) && rects[k].0 == result.value;
      CandidateGoverned(t, bounds, target, m, direction, k);
    }
  }

  /** Hence a resize fails at the window's border and nowhere else, but for the one
      case the border test gets wrong. */
  lemma FailsIffAtEdge(t: LayoutNode, bounds: Rect, target: Id, m: nat, direction: Direction, delta: real, add: Addition)
    requires Laid(t, bounds, target, m)
    ensures (!Resized(t, target, direction, delta, add).1 <==> AtEdge(Rects(t, bounds)[m].1, bounds, direction))
            <==> !HidesSqueezed(t, bounds, m, direction)
  {
    hide ScoreOf, SplitRect, Rects;
    var rects := Rects(t, bounds);
    var me := rects[m].1;
    if AtEdge(me, bounds, direction) {
      if Resized(t, target, direction, delta, add).1 {
        var k := GovernedAtEdge(t, bounds, target, m, direction);
      } else if k :| 0 <= k < |Panes(t)| && direction.TowardB() && SqueezedPast(rects[k], me, bounds, direction) {
        AtEdgeCandidate(t, bounds, target, m, direction, k);
        CandidateGoverned(t, bounds, target, m, direction, k);
      }
    } else {
      var k := NextDoor(t, bounds, target, m, direction);
      CandidateGoverned(t, bounds, target, m, direction, k);
    }
  }

  // ----- the divider that moves

  /** The rectangle of the split at `path`. */
  function SplitBounds(t: LayoutNode, path: Path, bounds: Rect): Rect
    requires OnSplit(t, path)
  {
    if path == [] then bounds
    else
      var (ra, rb) := SplitRect(bounds, t.orientation, t.ratio);
      if path[0] then SplitBounds(t.a, path[1..], ra) else SplitBounds(t.b, path[1..], rb)
  }

  /** How many panes are displayed before those of the split at `path`. */
  function Before(t: LayoutNode, path: Path): (n: nat)
    requires OnSplit(t, path)
    ensures n + |Panes(SplitAt(t, path))| <= |Panes(t)|
  {
    if path == [] then 0
    else if path[0] then Before(t.a, path[1..])
    else |Panes(t.a)| + Before(t.b, path[1..])
  }

  /** Pane `i` is on side `a` of the split at `path`. */
  predicate OnSideA(t: LayoutNode, path: Path, i: int)
    requires OnSplit(t, path)
  {
    Before(t, path) <= i < Before(t, path) + |Panes(SplitAt(t, path).a)|
  }

  predicate OnSideB(t: LayoutNode, path: Path, i: int)
    requires OnSplit(t, path)
  {
    Before(t, path) + |Panes(SplitAt(t, path).a)| <= i < Before(t, path) + |Panes(SplitAt(t, path))|
  }

  /** The divider of the split at `path` is pane `m`'s own edge towards `direction`. */
  predicate DividerIsEdge(t: LayoutNode, bounds: Rect, path: Path, m: nat, direction: Direction)
    requires m < |Panes(t)|
  {
    var o := direction.Orientation();
    && OnSplit(t, path) && SplitAt(t, path).orientation == o
    && var (ra, rb) := SplitRect(SplitBounds(t, path, bounds), o, SplitAt(t, path).ratio);
    var me := Rects(t, bounds)[m].1;
    if direction.TowardB() then OnSideA(t, path, m) && me.End(o) == ra.End(o)
    else OnSideB(t, path, m) && me.Start(o) == rb.Start(o)
  }

  /** What a path into one side leads to. */
  lemma SameSplitDeeper(t: LayoutNode, bounds: Rect, inA: bool, path: Path)
    requires t.Split? && OnSplit(if inA then t.a else t.b, path)
    ensures var (ra, rb) := SplitRect(bounds, t.orientation, t.ratio);
            var side := if inA then t.a else t.b;
            && OnSplit(t, [inA] + path) && SplitAt(t, [inA] + path) == SplitAt(side, path)
            && SplitBounds(t, [inA] + path, bounds) == SplitBounds(side, path, if inA then ra else rb)
            && Before(t, [inA] + path) == Before(side, path) + if inA then 0 else |Panes(t.a)|
  {
    hide SplitRect;
    assert ([inA] + path)[1..] == path;
  }

  lemma DividerDeeper(t: LayoutNode, bounds: Rect, path: Path, m: nat, direction: Direction)
    requires t.Split? && m < |Panes(t)|
    requires var (ra, rb) := SplitRect(bounds, t.orientation, t.ratio);
             var n := |Panes(t.a)|;
             if m < n then DividerIsEdge(t.a, ra, path, m, direction) else DividerIsEdge(t.b, rb, path, m - n, direction)
    ensures DividerIsEdge(t, bounds, [m < |Panes(t.a)|] + path, m, direction)
  {
    hide SplitRect, SplitAt, SplitBounds, Before, OnSplit, Rects, Panes;
    SameSplitDeeper(t, bounds, m < |Panes(t.a)|, path);
    RectOfSide(t, bounds, m);
  }

  lemma DividerHere(t: LayoutNode, bounds: Rect, m: nat, direction: Direction)
    requires t.Split? && bounds.Fits() && m < |Panes(t)| && t.orientation == direction.Orientation()
    requires direction.TowardB() <==> m < |Panes(t.a)|
    requires var (ra, rb) := SplitRect(bounds, t.orientation, t.ratio);
             AtEdge(Rects(t, bounds)[m].1, if m < |Panes(t.a)| then ra else rb, direction)
    ensures DividerIsEdge(t, bounds, [], m, direction)
  {
    hide SplitRect;
  }

  /** The governing split's divider is the target's own edge on that side. */
  lemma {:induction false} DividerAtEdge(t: LayoutNode, bounds: Rect, target: Id, m: nat, direction: Direction)
    requires Sane(t) && bounds.Fits() && m < |Panes(t)| && Panes(t)[m] == target
    requires Governing(t, target, direction.Orientation(), direction.TowardB()).Some?
    ensures DividerIsEdge(t, bounds, Governing(t, target, direction.Orientation(), direction.TowardB()).value, m, direction)
  {
    hide SplitRect, Sane, Rect.Fits, DividerIsEdge, AtEdge;
    var o := direction.Orientation();
    var needA := direction.TowardB();
    var (ra, rb) := SplitRect(bounds, t.orientation, t.ratio);
    var n := |Panes(t.a)|;
    SaneSides(t);
    SidesAdjoin(bounds, t.orientation, t.ratio);
    var (side, within, k) := if m < n then (t.a, ra, m) else (t.b, rb, m - n);
    var deeper := Governing(side, target, o, needA);
    if deeper.Some? {
      DividerAtEdge(side, within, target, k, direction);
      DividerDeeper(t, bounds, deeper.value, m, direction);
    } else {
      UngovernedAtEdge(side, within, target, k, direction);
      DividerHere(t, bounds, m, direction);
    }
  }

  // ----- monotone layout

  lemma RoundIsMonotone(x: real, y: real, d: int)
    requires x <= y <= x + d as real
    ensures Round(x) <= Round(y) <= Round(x) + d
  {
    var p, q := x + 0.5, y + 0.5;
    assert p.Floor as real <= p < p.Floor as real + 1.0;
    assert q.Floor as real <= q < q.Floor as real + 1.0;
    assert (p.Floor + d) as real == p.Floor as real + d as real;
  }

  lemma ShareOfTotal(total: U16, more: U16, ratio: Ratio)
    requires total <= more
    ensures Share(total, ratio) <= Share(more, ratio) <= Share(total, ratio) + (more - total) as real
  {
    hide Product;
    var t, m: real := total as real, more as real;
    PartOf(m - t, ratio);
    Commutes(m - t, ratio);
    Apart(ratio, m, t);
    Commutes(ratio, m);
    Commutes(ratio, t);
  }

  lemma ShareOfRatio(total: U16, ratio: Ratio, higher: Ratio)
    requires ratio <= higher
    ensures Share(total, ratio) <= Share(total, higher) <= Share(total, ratio) + total as real
  {
    hide Product;
    PartOf(total as real, higher - ratio);
    Apart(total as real, higher, ratio);
  }

  /** More cells to divide never leave either side with fewer. */
  lemma ExtentGrowsWithTotal(total: U16, more: U16, ratio: Ratio)
    requires total <= more
    ensures SplitExtent(total, ratio) <= SplitExtent(more, ratio)
    ensures total - SplitExtent(total, ratio) <= more - SplitExtent(more, ratio)
  {
    hide Share;
    ShareOfTotal(total, more, ratio);
    RoundIsMonotone(Share(total, ratio), Share(more, ratio), more - total);
  }

  lemma ExtentGrowsWithRatio(total: U16, ratio: Ratio, higher: Ratio)
    requires ratio <= higher
    ensures SplitExtent(total, ratio) <= SplitExtent(total, higher)
  {
    hide Share;
    ShareOfRatio(total, ratio, higher);
    RoundIsMonotone(Share(total, ratio), Share(total, higher), total);
  }

  /** `r` and `s` are the same across `o`, and `s` is at least as long along it. */
  predicate Stretches(r: Rect, s: Rect, o: Orientation) {
    && r.Start(Across(o)) == s.Start(Across(o)) && r.Extent(Across(o)) == s.Extent(Across(o))
    && r.Extent(o) <= s.Extent(o)
  }

  lemma SidesStretch(bounds: Rect, wider: Rect, o: Orientation, split: Orientation, ratio: Ratio)
    requires bounds.Fits() && wider.Fits() && Stretches(bounds, wider, o)
    ensures var (ra, rb) := SplitRect(bounds, split, ratio);
            var (sa, sb) := SplitRect(wider, split, ratio);
            Stretches(ra, sa, o) && Stretches(rb, sb, o)
  {
    if split == o {
      ExtentGrowsWithTotal(bounds.Extent(o), wider.Extent(o), ratio);
    }
  }

  /** A longer window leaves no pane shorter, and none different across. */
  lemma {:induction false} MonotoneLayout(t: LayoutNode, bounds: Rect, wider: Rect, o: Orientation, i: nat)
    requires bounds.Fits() && wider.Fits() && Stretches(bounds, wider, o) && i < |Panes(t)|
    ensures Stretches(Rects(t, bounds)[i].1, Rects(t, wider)[i].1, o)
  {
    hide SplitRect, Stretches;
    if t.Split? {
      var (ra, rb) := SplitRect(bounds, t.orientation, t.ratio);
      var (sa, sb) := SplitRect(wider, t.orientation, t.ratio);
      SidesAdjoin(bounds, t.orientation, t.ratio);
      SidesAdjoin(wider, t.orientation, t.ratio);
      SidesStretch(bounds, wider, o, t.orientation, t.ratio);
      if i < |Panes(t.a)| {
        MonotoneLayout(t.a, ra, sa, o, i);
      } else {
        MonotoneLayout(t.b, rb, sb, o, i - |Panes(t.a)|);
      }
    }
  }

  // ----- what a moved divider does

  /** What raising the ratio of the split at `path` does to pane `i`. */
  predicate Raised(t: LayoutNode, path: Path, i: int, r: Rect, r': Rect)
    requires OnSplit(t, path)
  {
    var o := SplitAt(t, path).orientation;
    && (OnSideA(t, path, i) ==> Stretches(r, r', o))
    && (OnSideB(t, path, i) ==> Stretches(r', r, o))
    && (!OnSideA(t, path, i) && !OnSideB(t, path, i) ==> r' == r)
  }

  lemma RaiseSplit(t: LayoutNode, bounds: Rect, ratio: Ratio, i: nat)
    requires t.Split? && bounds.Fits() && i < |Panes(t)| && t.ratio <= ratio
    ensures Raised(t, [], i, Rects(t, bounds)[i].1, Rects(t.(ratio := ratio), bounds)[i].1)
  {
    var o := t.orientation;
    var (ra, rb) := SplitRect(bounds, o, t.ratio);
    var (sa, sb) := SplitRect(bounds, o, ratio);
    SidesAdjoin(bounds, o, t.ratio);
    SidesAdjoin(bounds, o, ratio);
    ExtentGrowsWithRatio(bounds.Extent(o), t.ratio, ratio);
    if i < |Panes(t.a)| {
      MonotoneLayout(t.a, ra, sa, o, i);
    } else {
      MonotoneLayout(t.b, sb, rb, o, i - |Panes(t.a)|);
    }
  }

  lemma {:induction false} RatioRaised(t: LayoutNode, bounds: Rect, path: Path, ratio: Ratio, i: nat)
    requires bounds.Fits() && OnSplit(t, path) && i < |Panes(t)| && SplitAt(t, path).ratio <= ratio
    ensures Raised(t, path, i, Rects(t, bounds)[i].1, Rects(WithRatio(t, path, ratio), bounds)[i].1)
  {
    hide SplitRect, Stretches, Rect.Fits;
    var (ra, rb) := SplitRect(bounds, t.orientation, t.ratio);
    var n := |Panes(t.a)|;
    if path == [] {
      RaiseSplit(t, bounds, ratio, i);
    } else {
      SidesAdjoin(bounds, t.orientation, t.ratio);
      if path[0] && i < n {
        RatioRaised(t.a, ra, path[1..], ratio, i);
      } else if !path[0] && i >= n {
        RatioRaised(t.b, rb, path[1..], ratio, i - n);
      }
    }
  }

  lemma {:induction false} WithRatioBack(t: LayoutNode, path: Path, ratio: Ratio)
    requires OnSplit(t, path)
    ensures var u := WithRatio(t, path, ratio);
            && WithRatio(u, path, SplitAt(t, path).ratio) == t
            && SplitAt(u, path) == SplitAt(t, path).(ratio := ratio) && Before(u, path) == Before(t, path)
  {
    if path != [] {
      WithRatioBack(if path[0] then t.a else t.b, path[1..], ratio);
    }
  }

  /** From `ratio` the addition never goes the wrong way, as none does that rounds to the
      nearest and has `ratio` among its numbers. */
  ghost predicate Steady(add: Addition, ratio: Ratio) {
    forall d :: add(ratio, d).Some? ==>
      (d >= 0.0 ==> add(ratio, d).value >= ratio) && (d <= 0.0 ==> add(ratio, d).value <= ratio)
  }

  /** What a resize that sends the divider at `path` towards `b`, or back, does to pane `i`. */
  ghost predicate MovedAside(t: LayoutNode, t': LayoutNode, bounds: Rect, path: Path, towardB: bool, o: Orientation, i: nat)
    requires OnSplit(t, path) && Panes(t') == Panes(t) && i < |Panes(t)|
  {
    var r, r' := Rects(t, bounds)[i].1, Rects(t', bounds)[i].1;
    && (OnSideA(t, path, i) ==> if towardB then Stretches(r, r', o) else Stretches(r', r, o))
    && (OnSideB(t, path, i) ==> if towardB then Stretches(r', r, o) else Stretches(r, r', o))
    && (!OnSideA(t, path, i) && !OnSideB(t, path, i) ==> r' == r)
  }

  /** A resize by a non-negative amount: no pane of the target's side of the divider
      gets shorter along the axis, none of the other side longer, none changes
      across, and outside the governing split every rectangle stays. */
  lemma ResizeMonotone(t: LayoutNode, bounds: Rect, target: Id, m: nat, direction: Direction, delta: real, add: Addition, i: nat)
    requires Sane(t) && bounds.Fits() && m < |Panes(t)| && Panes(t)[m] == target && i < |Panes(t)| && delta >= 0.0
    requires Resized(t, target, direction, delta, add).1
    ensures var o := direction.Orientation();
            var path := Governing(t, target, o, direction.TowardB()).value;
            var t' := Resized(t, target, direction, delta, add).0;
            && OnSplit(t, path) && Panes(t') == Panes(t)
            && (if direction.TowardB() then OnSideA(t, path, m) else OnSideB(t, path, m))
            && (Steady(add, SplitAt(t, path).ratio) ==> MovedAside(t, t', bounds, path, direction.TowardB(), o, i))
  {
    hide SplitRect, Stretches, Rects, SplitBounds, Steady, Moved;
    var path := Governing(t, target, direction.Orientation(), direction.TowardB()).value;
    var t' := Resized(t, target, direction, delta, add).0;
    DividerAtEdge(t, bounds, target, m, direction);
    var ratio := SplitAt(t, path).ratio;
    var ratio' := Moved(ratio, Signed(direction, delta), add);
    if Steady(add, ratio) {
      MovesThatWay(ratio, Signed(direction, delta), add);
      if direction.TowardB() {
        RatioRaised(t, bounds, path, ratio', i);
      } else {
        WithRatioBack(t, path, ratio');
        RatioRaised(t', bounds, path, ratio, i);
      }
    }
  }

  lemma MovesThatWay(ratio: Ratio, d: real, add: Addition)
    requires Steady(add, ratio)
    ensures (d >= 0.0 ==> ratio <= Moved(ratio, d, add)) && (d <= 0.0 ==> Moved(ratio, d, add) <= ratio)
  {
  }

  lemma {:induction false} SameGoverning(t: LayoutNode, path: Path, ratio: Ratio, target: Id, want: Orientation, needA: bool)
    requires OnSplit(t, path)
    ensures Governing(WithRatio(t, path, ratio), target, want, needA) == Governing(t, target, want, needA)
  {
    if path != [] {
      SameGoverning(if path[0] then t.a else t.b, path[1..], ratio, target, want, needA);
      SamePlaces(if path[0] then t.a else t.b, path[1..], ratio);
    }
  }

  lemma SamePlaces(t: LayoutNode, path: Path, ratio: Ratio)
    requires OnSplit(t, path)
    ensures forall p :: ContainsPane(WithRatio(t, path, ratio), p) == ContainsPane(t, p)
  {
    assert Panes(WithRatio(t, path, ratio)) == Panes(t);
  }

  /** A resize moves the governing divider to the sum, as far as a ratio can go, and no
      other divider: giving it its old ratio back gives the old tree. */
  lemma ResizeMovesOneDivider(t: LayoutNode, target: Id, direction: Direction, delta: real, add: Addition)
    requires Resized(t, target, direction, delta, add).1
    ensures var path := Governing(t, target, direction.Orientation(), direction.TowardB()).value;
            var t' := Resized(t, target, direction, delta, add).0;
            && OnSplit(t, path) && OnSplit(t', path)
            && var before, after := SplitAt(t, path), SplitAt(t', path);
            && (match add(before.ratio, if direction.TowardB() then delta else -delta)
                case None => after.ratio == before.ratio
                case Some(sum) =>
                  && (sum < MIN_RATIO ==> after.ratio == MIN_RATIO) && (sum > 1.0 - MIN_RATIO ==> after.ratio == 1.0 - MIN_RATIO)
                  && (MIN_RATIO <= sum <= 1.0 - MIN_RATIO ==> after.ratio == sum))
            && WithRatio(t', path, before.ratio) == t
  {
    hide ToRatio, Governing, WithRatio, SplitAt, OnSplit;
    var path := Governing(t, target, direction.Orientation(), direction.TowardB()).value;
    GoverningIsSplit(t, target, direction.Orientation(), direction.TowardB());
    WithRatioBack(t, path, Moved(SplitAt(t, path).ratio, Signed(direction, delta), add));
  }

  lemma {:induction false} WithRatioTwice(t: LayoutNode, path: Path, first: Ratio, then': Ratio)
    requires OnSplit(t, path)
    ensures WithRatio(WithRatio(t, path, first), path, then') == WithRatio(t, path, then')
    ensures WithRatio(t, path, then') == t <==> then' == SplitAt(t, path).ratio
  {
    if path != [] {
      WithRatioTwice(if path[0] then t.a else t.b, path[1..], first, then');
    }
  }

  // ----- a resize and its opposite

  function MovedBack(ratio: Ratio, d: real, add: Addition): Ratio {
    Moved(Moved(ratio, d, add), -d, add)
  }

  /** However the machine adds, a resize followed by the opposite one leaves the tree as it
      was but for the governing ratio; it is undone iff the two moves bring that one back. */
  lemma ResizeUndone(t: LayoutNode, target: Id, direction: Direction, delta: real, add: Addition)
    requires Resized(t, target, direction, delta, add).1
    ensures var path := Governing(t, target, direction.Orientation(), direction.TowardB()).value;
            OnSplit(t, path)
            && var ratio := SplitAt(t, path).ratio;
               var back := MovedBack(ratio, Signed(direction, delta), add);
            && Resized(Resized(t, target, direction, delta, add).0, target, direction, -delta, add) == (WithRatio(t, path, back), true)
            && (WithRatio(t, path, back) == t <==> back == ratio)
  {
    hide Moved, Governing, WithRatio, SplitAt, OnSplit;
    var o, needA := direction.Orientation(), direction.TowardB();
    var path := Governing(t, target, o, needA).value;
    GoverningIsSplit(t, target, o, needA);
    var ratio, d := SplitAt(t, path).ratio, Signed(direction, delta);
    var moved := Moved(ratio, d, add);
    WithRatioBack(t, path, moved);
    SameGoverning(t, path, moved, target, o, needA);
    WithRatioTwice(t, path, moved, Moved(moved, -d, add));
    var t' := Resized(t, target, direction, delta, add).0;
    assert t' == WithRatio(t, path, moved);
    assert Signed(direction, -delta) == -d;
    assert Resized(t', target, direction, -delta, add) == (WithRatio(t', path, Moved(moved, -d, add)), true);
  }

  /** A move by `d` and back again ends where it began, but for rounding. */
  predicate ComesBack(ratio: Ratio, d: real) {
    || MIN_RATIO <= ratio + d <= 1.0 - MIN_RATIO
    || (ratio == MIN_RATIO && d > 1.0 - 2.0 * MIN_RATIO)
    || (ratio == 1.0 - MIN_RATIO && d < 2.0 * MIN_RATIO - 1.0)
  }

  /** Over exact sums the divider comes back iff it did not run into the smallest share - or
      came from one end of its range and was sent past the other. */
  lemma BackOverExactSums(ratio: Ratio, d: real)
    ensures MovedBack(ratio, d, EXACT) == ratio <==> ComesBack(ratio, d)
  {
  }

  predicate RoundsWithin(add: Addition, x: real, y: real, slack: real) {
    add(x, y).Some? && x + y - slack <= add(x, y).value <= x + y + slack
  }

  lemma Clamped(v: real, w: real, slack: real)
    requires v - slack <= w <= v + slack
    ensures ToRatio(v) - slack <= ToRatio(w) <= ToRatio(v) + slack
  {
  }

  /** With rounding, a divider that would come back over exact sums ends at most two
      roundings off: no clamp makes it worse. */
  lemma BackWithin(ratio: Ratio, d: real, add: Addition, slack: real)
    requires RoundsWithin(add, ratio, d, slack) && RoundsWithin(add, Moved(ratio, d, add), -d, slack)
    ensures MovedBack(ratio, d, EXACT) - 2.0 * slack <= MovedBack(ratio, d, add) <= MovedBack(ratio, d, EXACT) + 2.0 * slack
    ensures ComesBack(ratio, d) ==> ratio - 2.0 * slack <= MovedBack(ratio, d, add) <= ratio + 2.0 * slack
  {
    hide ToRatio, ComesBack;
    BackOverExactSums(ratio, d);
    var moved, exact := Moved(ratio, d, add), Moved(ratio, d, EXACT);
    Clamped(ratio + d, add(ratio, d).value, slack);
    Clamped(exact - d, add(moved, -d).value, 2.0 * slack);
  }

  // ----- single precision

  /** Distance between neighbouring single-precision numbers about `s`. */
  function Step(s: real): (step: real)
    requires 0.03125 <= s < 1.0
    ensures step > 0.0
  {
    if s < 0.0625 then 1.0 / 268435456.0
    else if s < 0.125 then 1.0 / 134217728.0
    else if s < 0.25 then 1.0 / 67108864.0
    else if s < 0.5 then 1.0 / 33554432.0
    else 1.0 / 16777216.0
  }

  /** The even one if two are equally near. */
  function NearestInteger(q: real): int
  {
    var n := q.Floor;
    var part := q - n as real;
    if part < 0.5 || (part == 0.5 && n % 2 == 0) then n else n + 1
  }

  /** The nearest multiple of `step`. */
  function Nearest(x: real, step: real): real
    requires step > 0.0
  {
    NearestInteger(x / step) as real * step
  }

  /** 2^128 - 2^103: from here on a sum rounds to infinity. */
  const OVERFLOW: real := 340282356779733661637539395458142568448.0

  /** Single-precision addition as a divider feels it: sums below 1/32 or from 1 on end at
      a bound of the range, however they are rounded. */
  function SingleSum(x: real, y: real): Option<real> {
    var s := x + y;
    if s <= -OVERFLOW || s >= OVERFLOW then None
    else if s < 0.03125 || s >= 1.0 then Some(s)
    else Some(Nearest(s, Step(s)))
  }

  /** 0.06 and 0.1, as single-precision numbers. */
  const ABOUT_006: Ratio := 16106127.0 / 268435456.0
  const ABOUT_01: real := 13421773.0 / 134217728.0

  /** Rounding alone can spoil the return: no bound is reached, and the ratio comes back
      one step short of where it was. */
  lemma NotUndoneInSinglePrecision()
    ensures var t := Split(Vertical, ABOUT_006, Leaf(1), Leaf(2));
            var there := Resized(t, 1, Direction.Right, ABOUT_01, SingleSum);
            && ComesBack(ABOUT_006, ABOUT_01) && there.1
            && Resized(there.0, 1, Direction.Right, -ABOUT_01, SingleSum)
               == (Split(Vertical, ABOUT_006 - Step(ABOUT_006), Leaf(1), Leaf(2)), true)
  {
    var t := Split(Vertical, ABOUT_006, Leaf(1), Leaf(2));
    var there: Ratio := 10737418.0 / 67108864.0;
    assert (ABOUT_006 + ABOUT_01) / Step(ABOUT_006 + ABOUT_01) == 10737418.25;
    assert SingleSum(ABOUT_006, ABOUT_01) == Some(there);
    assert (there - ABOUT_01) / Step(there - ABOUT_01) == 16106126.0;
    assert SingleSum(there, -ABOUT_01) == Some(ABOUT_006 - Step(ABOUT_006));
    assert Governing(t, 1, Vertical, true) == Some([]);
    assert Resized(t, 1, Direction.Right, ABOUT_01, SingleSum) == (Split(Vertical, there, Leaf(1), Leaf(2)), true);
  }

  predicate IsSingle(ratio: Ratio) {
    ratio == (ratio / Step(ratio)).Floor as real * Step(ratio)
  }

  lemma Scales(x: real, y: real, step: real)
    requires step > 0.0 && x <= y
    ensures x * step <= y * step
  {
    assert (y - x) * step >= 0.0;
  }

  lemma ScalesBack(x: real, y: real, step: real)
    requires step > 0.0 && x * step <= y * step
    ensures x <= y
  {
    assert x > y ==> (x - y) * step > 0.0;
  }

  lemma InSteps(s: real, step: real) returns (q: real)
    requires step > 0.0
    ensures q == s / step && q * step == s
  {
    q := s / step;
  }

  lemma NoIntegerBetween(q: real, n: int)
    ensures n as real <= q ==> n <= NearestInteger(q)
    ensures q <= n as real ==> NearestInteger(q) <= n
  {
  }

  lemma NearestAbove(n: int, s: real, step: real)
    requires step > 0.0 && n as real * step <= s
    ensures n as real * step <= Nearest(s, step)
  {
    hide NearestInteger;
    var q := InSteps(s, step);
    NoIntegerBetween(q, n);
    ScalesBack(n as real, q, step);
    Scales(n as real, NearestInteger(q) as real, step);
  }

  lemma NearestBelow(n: int, s: real, step: real)
    requires step > 0.0 && s <= n as real * step
    ensures Nearest(s, step) <= n as real * step
  {
    hide NearestInteger;
    var q := InSteps(s, step);
    NoIntegerBetween(q, n);
    ScalesBack(q, n as real, step);
    Scales(NearestInteger(q) as real, n as real, step);
  }

  /** Single-precision addition is steady: what `ResizeMonotone` says holds of it. */
  lemma SingleIsSteady(ratio: Ratio)
    requires IsSingle(ratio)
    ensures Steady(SingleSum, ratio)
  {
    hide Nearest;
    var n := (ratio / Step(ratio)).Floor;
    forall d | SingleSum(ratio, d).Some?
      ensures (d >= 0.0 ==> SingleSum(ratio, d).value >= ratio) && (d <= 0.0 ==> SingleSum(ratio, d).value <= ratio)
    {
      var s := ratio + d;
      if 0.03125 <= s < 1.0 {
        SinglesBetween(ratio, n, s);
      }
    }
  }

  /** A single-precision ratio is a multiple of the finer steps below it, and the bounds
      between the steps are multiples of either. */
  lemma SinglesBetween(ratio: Ratio, n: int, s: real)
    requires ratio == n as real * Step(ratio) && 0.03125 <= s < 1.0
    ensures s >= ratio ==> Nearest(s, Step(s)) >= ratio
    ensures s <= ratio ==> Nearest(s, Step(s)) <= ratio
  {
    hide Nearest;
    if s >= ratio {
      if Step(s) == Step(ratio) {
        NearestAbove(n, s, Step(s));
      } else {
        NearestAbove(8388608, s, Step(s));
      }
    }
    if s <= ratio {
      if Step(s) == Step(ratio) {
        NearestBelow(n, s, Step(s));
      } else {
        NearestBelow(16777216, s, Step(s));
      }
    }
  }

  /** Slides the divider next to `target` on the side of `direction`. A delta (`None`) or a
      sum that is not finite finds the divider and leaves it where it is. */
  method ResizeLeaf(w: WindowLayout, target: Id, direction: Direction, delta: Option<real>, add: Addition) returns (moved: bool)
    modifies w
    ensures moved == Resized(old(w.root), target, direction, 0.0, add).1
    ensures delta.None? ==> w.root == old(w.root)
    ensures delta.Some? ==> (w.root, moved) == Resized(old(w.root), target, direction, delta.value, add)
  {
    var want, towardB := direction.Orientation(), direction.TowardB();
    var path := WalkGoverning(w.root, target, want, towardB, [], None);
    if path == None {
      return false;
    }
    assert [] + Governing(w.root, target, want, towardB).value == Governing(w.root, target, want, towardB).value;
    GoverningIsSplit(w.root, target, want, towardB);
    var ratio := SplitAt(w.root, path.value).ratio;
    WithRatioTwice(w.root, path.value, ratio, ratio);
    var sign := if towardB then 1.0 else -1.0;
    var next := if delta.Some? then add(ratio, sign * delta.value) else None;
    if next.Some? {
      w.root := WithRatio(w.root, path.value, ToRatio(next.value));
    }
    return true;
  }
}
