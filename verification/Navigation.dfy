/** Moving the focus to the pane next door, found on the laid-out rectangles. */
module Navigation {
  import opened Basics
  import opened Geometry
  import opened Layout
  import opened Tiling

  /** How a pane stands to the target: on the right side of it, how far off, and
      how much edge they share. */
  datatype Score = Score(onSide: bool, gap: int, overlap: int)

  function ScoreOf(r: Rect, me: Rect, direction: Direction): Score {
    match direction
    case Left => Score(r.Right() <= me.x, Max(me.x - r.Right(), 0), SpanOverlap(r.y, r.Bottom(), me.y, me.Bottom()))
    case Right => Score(r.x >= me.Right(), Max(r.x - me.Right(), 0), SpanOverlap(r.y, r.Bottom(), me.y, me.Bottom()))
    case Above => Score(r.Bottom() <= me.y, Max(me.y - r.Bottom(), 0), SpanOverlap(r.x, r.Right(), me.x, me.Right()))
    case Below => Score(r.y >= me.Bottom(), Max(r.y - me.Bottom(), 0), SpanOverlap(r.x, r.Right(), me.x, me.Right()))
  }

  predicate Eligible(s: Score) {
    s.onSide && s.overlap > 0
  }

  predicate Better(s: Score, than: Score) {
    s.gap < than.gap || (s.gap == than.gap && s.overlap > than.overlap)
  }

  /** `r` is what `target` could move to: another pane, on that side, sharing edge. */
  predicate Candidate(p: Placement, target: Id, me: Rect, direction: Direction) {
    p.0 != target && Eligible(ScoreOf(p.1, me, direction))
  }

  /** Placement `k` is a candidate no other beats, and the first such. */
  ghost predicate IsBest(rects: seq<Placement>, target: Id, me: Rect, direction: Direction, k: nat) {
    && k < |rects| && Candidate(rects[k], target, me, direction)
    && (forall j :: 0 <= j < |rects| && Candidate(rects[j], target, me, direction) ==>
          !Better(ScoreOf(rects[j].1, me, direction), ScoreOf(rects[k].1, me, direction)))
    && (forall j :: 0 <= j < k && Candidate(rects[j], target, me, direction) ==>
          Better(ScoreOf(rects[k].1, me, direction), ScoreOf(rects[j].1, me, direction)))
  }

  /** The answer for a target laid out as `me`. */
  ghost predicate Answers(rects: seq<Placement>, target: Id, me: Rect, direction: Direction, result: Option<Id>) {
    match result
    case None => forall j :: 0 <= j < |rects| ==> !Candidate(rects[j], target, me, direction)
    case Some(pane) => exists k: nat :: IsBest(rects, target, me, direction, k) && rects[k].0 == pane
  }

  method Neighbor(t: LayoutNode, target: Id, direction: Direction, bounds: Rect) returns (result: Option<Id>)
    ensures target !in Panes(t) ==> result == None
    ensures target in Panes(t) ==> exists m :: 0 <= m < |Panes(t)| && target !in Panes(t)[..m] && Panes(t)[m] == target
                                     && Answers(Rects(t, bounds), target, Rects(t, bounds)[m].1, direction, result)
  {
    var rects := ComputeRects(t, bounds);
    RectsNamePanes(t, bounds);
    var m := 0;
    while m < |rects| && rects[m].0 != target
      invariant 0 <= m <= |rects| && forall i :: 0 <= i < m ==> rects[i].0 != target
    {
      m := m + 1;
    }
    if m == |rects| {
      return None;
    }
    result := Nearest(rects, target, rects[m].1, direction);
  }

  /** Scans the rectangles for the nearest candidate that shares the most edge. */
  method Nearest(rects: seq<Placement>, target: Id, me: Rect, direction: Direction) returns (result: Option<Id>)
    ensures Answers(rects, target, me, direction, result)
  {
    hide ScoreOf;
    var best: Option<(Id, int, int)> := None;
    ghost var k: nat := 0;
    for i := 0 to |rects|
      invariant best == None ==> forall j :: 0 <= j < i ==> !Candidate(rects[j], target, me, direction)
      invariant best.Some? ==> k < i && IsBest(rects[..i], target, me, direction, k)
      invariant best.Some? ==> var s := ScoreOf(rects[k].1, me, direction); best.value == (rects[k].0, s.gap, s.overlap)
    {
      var (pane, r) := rects[i];
      var s := ScoreOf(r, me, direction);
      assert rects[..i + 1] == rects[..i] + [rects[i]];
      if pane != target && s.onSide && s.overlap > 0 {
        if best == None || s.gap < best.value.1 || (s.gap == best.value.1 && s.overlap > best.value.2) {
          best := Some((pane, s.gap, s.overlap));
          k := i;
        }
      }
    }
    assert rects[..|rects|] == rects;
    return if best.Some? then Some(best.value.0) else None;
  }

  lemma {:induction false} RectsNamePanes(t: LayoutNode, bounds: Rect)
    ensures forall i :: 0 <= i < |Panes(t)| ==> Rects(t, bounds)[i].0 == Panes(t)[i]
  {
    if t.Split? {
      var (ra, rb) := SplitRect(bounds, t.orientation, t.ratio);
      RectsNamePanes(t.a, ra);
      RectsNamePanes(t.b, rb);
    }
  }

  // ----- the score by axis

  /** Distance from `me` to `r` towards `direction`: negative unless `r` is on that side. */
  function Clearance(r: Rect, me: Rect, direction: Direction): int {
    var o := direction.Orientation();
    if direction.TowardB() then r.Start(o) - me.End(o) else me.Start(o) - r.End(o)
  }

  lemma ScoreByAxis(r: Rect, me: Rect, direction: Direction)
    ensures var s := ScoreOf(r, me, direction);
            var across := Across(direction.Orientation());
            && (s.onSide <==> Clearance(r, me, direction) >= 0)
            && s.gap == Max(Clearance(r, me, direction), 0)
            && s.overlap == SpanOverlap(r.Start(across), r.End(across), me.Start(across), me.End(across))
  {
  }

  /** `me` has its edge on the window's border that way. */
  predicate AtEdge(me: Rect, bounds: Rect, direction: Direction) {
    var o := direction.Orientation();
    if direction.TowardB() then me.End(o) == bounds.End(o) else me.Start(o) == bounds.Start(o)
  }

  /** A target and where it is laid out: what the navigation theorems are about. */
  ghost predicate Laid(t: LayoutNode, bounds: Rect, target: Id, m: nat) {
    && Sane(t) && bounds.Fits() && m < |Panes(t)| && Panes(t)[m] == target
    && !Rects(t, bounds)[m].1.IsEmpty()
  }

  /** A pane with no cells along the axis, stuck past the window's far border beside `me`. */
  predicate SqueezedPast(p: Placement, me: Rect, bounds: Rect, direction: Direction) {
    var o := direction.Orientation();
    && p.1.Extent(o) == 0 && p.1.Start(o) == bounds.End(o)
    && ScoreOf(p.1, me, direction).overlap > 0
  }

  /** The only case the edge test gets wrong: the target ends at the far border
      and a squeezed-out pane lies past it. */
  ghost predicate HidesSqueezed(t: LayoutNode, bounds: Rect, m: nat, direction: Direction)
    requires m < |Panes(t)|
  {
    var me := Rects(t, bounds)[m].1;
    && direction.TowardB() && AtEdge(me, bounds, direction)
    && exists k :: 0 <= k < |Panes(t)| && SqueezedPast(Rects(t, bounds)[k], me, bounds, direction)
  }

  /** Away from the border the cell past the target's edge has an owner: a candidate at gap 0. */
  lemma NextDoor(t: LayoutNode, bounds: Rect, target: Id, m: nat, direction: Direction) returns (k: nat)
    requires Laid(t, bounds, target, m) && !AtEdge(Rects(t, bounds)[m].1, bounds, direction)
    ensures k < |Panes(t)| && Candidate(Rects(t, bounds)[k], target, Rects(t, bounds)[m].1, direction)
    ensures Clearance(Rects(t, bounds)[k].1, Rects(t, bounds)[m].1, direction) == 0
    ensures !Rects(t, bounds)[k].1.IsEmpty()
  {
    var me := Rects(t, bounds)[m].1;
    var o := direction.Orientation();
    var inner := if direction.TowardB() then me.End(o) - 1 else me.Start(o);
    var outer := if direction.TowardB() then me.End(o) else me.Start(o) - 1;
    var level := me.Start(Across(o));
    OneRectAPane(t, bounds, m);
    k := OwnerOf(t, bounds, if o.Vertical? then outer else level, if o.Vertical? then level else outer);
    var i := OwnerOf(t, bounds, if o.Vertical? then inner else level, if o.Vertical? then level else inner);
    var r := Rects(t, bounds)[k].1;
    assert i == m && k != m;
    ScoreByAxis(r, me, direction);
    RectsNamePanes(t, bounds);
    assert InBoth(r.Start(Across(o)), r.End(Across(o)), me.Start(Across(o)), me.End(Across(o)), level);
  }

  /** Nothing is squeezed at the near border: a split's first side keeps a cell. */
  lemma {:induction false} NothingSqueezedAtStart(t: LayoutNode, bounds: Rect, o: Orientation, k: nat)
    requires bounds.Fits() && bounds.Extent(o) >= 1 && k < |Panes(t)|
    ensures Rects(t, bounds)[k].1.Extent(o) == 0 ==> Rects(t, bounds)[k].1.Start(o) > bounds.Start(o)
  {
    if t.Split? {
      var (ra, rb) := SplitRect(bounds, t.orientation, t.ratio);
      var n := |Panes(t.a)|;
      SidesAdjoin(bounds, t.orientation, t.ratio);
      if k < n {
        NothingSqueezedAtStart(t.a, ra, o, k);
      } else if rb.Extent(o) >= 1 {
        NothingSqueezedAtStart(t.b, rb, o, k - n);
      } else {
        OneRectAPane(t.b, rb, k - n);
      }
    }
  }

  /** At the border only a squeezed-out pane is a candidate, and only at the far one. */
  lemma AtEdgeCandidate(t: LayoutNode, bounds: Rect, target: Id, m: nat, direction: Direction, k: nat)
    requires Laid(t, bounds, target, m) && AtEdge(Rects(t, bounds)[m].1, bounds, direction) && k < |Panes(t)|
    ensures Candidate(Rects(t, bounds)[k], target, Rects(t, bounds)[m].1, direction)
            <==> direction.TowardB() && SqueezedPast(Rects(t, bounds)[k], Rects(t, bounds)[m].1, bounds, direction)
    ensures Candidate(Rects(t, bounds)[k], target, Rects(t, bounds)[m].1, direction) ==>
              Clearance(Rects(t, bounds)[k].1, Rects(t, bounds)[m].1, direction) == 0
  {
    var me, r := Rects(t, bounds)[m].1, Rects(t, bounds)[k].1;
    OneRectAPane(t, bounds, m);
    OneRectAPane(t, bounds, k);
    ScoreByAxis(r, me, direction);
    NothingSqueezedAtStart(t, bounds, direction.Orientation(), k);
  }

  /** The answer is `None` exactly when the target has its edge on the border -
      unless a squeezed-out pane hides behind it, and then it never is. */
  lemma NoneIffAtEdge(t: LayoutNode, bounds: Rect, target: Id, m: nat, direction: Direction, result: Option<Id>)
    requires Laid(t, bounds, target, m) && Answers(Rects(t, bounds), target, Rects(t, bounds)[m].1, direction, result)
    ensures (result == None <==> AtEdge(Rects(t, bounds)[m].1, bounds, direction)) <==> !HidesSqueezed(t, bounds, m, direction)
    ensures result == None ==> AtEdge(Rects(t, bounds)[m].1, bounds, direction)
  {
    var rects := Rects(t, bounds);
    var me := rects[m].1;
    if AtEdge(me, bounds, direction) {
      forall k | 0 <= k < |rects|
        ensures Candidate(rects[k], target, me, direction) <==> direction.TowardB() && SqueezedPast(rects[k], me, bounds, direction)
      {
        AtEdgeCandidate(t, bounds, target, m, direction, k);
      }
    } else {
      var k := NextDoor(t, bounds, target, m, direction);
    }
    if result.Some? {
      var k: nat :| IsBest(rects, target, me, direction, k) && rects[k].0 == result.value;
      assert Candidate(rects[k], target, me, direction);
    }
  }

  /** No candidate at no gap shares more edge than the best. */
  lemma BestIsNextDoor(t: LayoutNode, bounds: Rect, target: Id, m: nat, direction: Direction, k: nat)
    requires Laid(t, bounds, target, m) && IsBest(Rects(t, bounds), target, Rects(t, bounds)[m].1, direction, k)
    ensures var rects := Rects(t, bounds);
            var me := rects[m].1;
            && Clearance(rects[k].1, me, direction) == 0
            && forall j :: 0 <= j < |rects| && Candidate(rects[j], target, me, direction) && Clearance(rects[j].1, me, direction) == 0 ==>
                 ScoreOf(rects[j].1, me, direction).overlap <= ScoreOf(rects[k].1, me, direction).overlap
  {
    var rects := Rects(t, bounds);
    var me := rects[m].1;
    ScoreByAxis(rects[k].1, me, direction);
    if AtEdge(me, bounds, direction) {
      AtEdgeCandidate(t, bounds, target, m, direction, k);
    } else {
      var j := NextDoor(t, bounds, target, m, direction);
      ScoreByAxis(rects[j].1, me, direction);
    }
    forall j | 0 <= j < |rects| && Candidate(rects[j], target, me, direction) && Clearance(rects[j].1, me, direction) == 0
      ensures ScoreOf(rects[j].1, me, direction).overlap <= ScoreOf(rects[k].1, me, direction).overlap
    {
      ScoreByAxis(rects[j].1, me, direction);
    }
  }

  /** The cells along which two panes next to each other that way border. */
  function BorderCells(r: Rect, me: Rect, direction: Direction): set<int> {
    var o := Across(direction.Orientation());
    Shared(r.Start(o), r.End(o), me.Start(o), me.End(o))
  }

  lemma BorderCounts(r: Rect, me: Rect, direction: Direction)
    ensures |BorderCells(r, me, direction)| == ScoreOf(r, me, direction).overlap
  {
    ScoreByAxis(r, me, direction);
    var o := Across(direction.Orientation());
    OverlapCounts(r.Start(o), r.End(o), me.Start(o), me.End(o));
  }

  /** A found neighbour is next door: no gap, a border of at least one cell, and of all other
      panes at no gap none borders the target along more cells, none before it in display
      order along as many. */
  lemma NeighborIsNextDoor(t: LayoutNode, bounds: Rect, target: Id, m: nat, direction: Direction, k: nat)
    requires Laid(t, bounds, target, m) && IsBest(Rects(t, bounds), target, Rects(t, bounds)[m].1, direction, k)
    ensures var rects := Rects(t, bounds);
            var me := rects[m].1;
            && rects[k].0 != target && Clearance(rects[k].1, me, direction) == 0 && BorderCells(rects[k].1, me, direction) != {}
            && forall j :: 0 <= j < |rects| && rects[j].0 != target && Clearance(rects[j].1, me, direction) == 0 ==>
                 && |BorderCells(rects[j].1, me, direction)| <= |BorderCells(rects[k].1, me, direction)|
                 && (j < k ==> |BorderCells(rects[j].1, me, direction)| < |BorderCells(rects[k].1, me, direction)|)
  {
    hide BorderCells, ScoreOf, Clearance, Rects;
    var rects := Rects(t, bounds);
    var me := rects[m].1;
    BestIsNextDoor(t, bounds, target, m, direction, k);
    BorderCounts(rects[k].1, me, direction);
    ScoreByAxis(rects[k].1, me, direction);
    forall j | 0 <= j < |rects| && rects[j].0 != target && Clearance(rects[j].1, me, direction) == 0
      ensures |BorderCells(rects[j].1, me, direction)| <= |BorderCells(rects[k].1, me, direction)|
      ensures j < k ==> |BorderCells(rects[j].1, me, direction)| < |BorderCells(rects[k].1, me, direction)|
    {
      BorderCounts(rects[j].1, me, direction);
      ScoreByAxis(rects[j].1, me, direction);
    }
  }

  /** A one-cell window: the split's right side has no cells, yet moving right finds it. */
  lemma OneCellWindow()
    ensures var t := Split(Vertical, BALANCED, Leaf(1), Leaf(2));
            var bounds := Rect(0, 0, 1, 1);
            && Laid(t, bounds, 1, 0) && AtEdge(Rects(t, bounds)[0].1, bounds, Direction.Right)
            && IsBest(Rects(t, bounds), 1, Rects(t, bounds)[0].1, Direction.Right, 1)
  {
    assert Rects(Split(Vertical, BALANCED, Leaf(1), Leaf(2)), Rect(0, 0, 1, 1))
        == [(1, Rect(0, 0, 1, 1)), (2, Rect(1, 0, 0, 1))];
  }

  /** Splitting towards a side opens the new pane next door that way, as long across; the
      two share the old pane's cells, of which the old pane keeps the part it was to keep. */
  lemma SplitOpensThatWay(target: Id, newPane: Id, direction: Direction, keep: Ratio, bounds: Rect)
    requires bounds.Fits()
    ensures var rects := Rects(SplitOf(target, newPane, direction, keep), bounds);
            var (old', new') := if direction.TowardB() then (rects[0], rects[1]) else (rects[1], rects[0]);
            var o := direction.Orientation();
            && |rects| == 2 && old'.0 == target && new'.0 == newPane
            && Clearance(new'.1, old'.1, direction) == 0
            && new'.1.Start(Across(o)) == old'.1.Start(Across(o)) == bounds.Start(Across(o))
            && new'.1.Extent(Across(o)) == old'.1.Extent(Across(o)) == bounds.Extent(Across(o))
            && old'.1.Extent(o) + new'.1.Extent(o) == bounds.Extent(o)
            && (bounds.Extent(o) >= 2 ==>
                  // Side `a` is rounded, which the old pane is on only if the new one opens towards `b`.
                  if direction.TowardB() then NearestCells(old'.1.Extent(o), bounds.Extent(o), keep)
                  else NearestCells(new'.1.Extent(o), bounds.Extent(o), 1.0 - keep))
  {
    hide SplitRect, NearestCells;
    var t := SplitOf(target, newPane, direction, keep);
    var ra, rb := SplitLaysOut(t, bounds);
    assert Rects(t, bounds) == [(t.a.pane, ra), (t.b.pane, rb)];
  }

  // ----- the answer is a matter of rectangles, not of trees

  ghost predicate AllVisible(t: LayoutNode, bounds: Rect) {
    forall k :: 0 <= k < |Panes(t)| ==> !Rects(t, bounds)[k].1.IsEmpty()
  }

  /** With every pane visible, `None` means the border and nothing else. */
  lemma NoneIffAtEdgeWhenVisible(t: LayoutNode, bounds: Rect, target: Id, m: nat, direction: Direction, result: Option<Id>)
    requires Laid(t, bounds, target, m) && AllVisible(t, bounds)
    requires Answers(Rects(t, bounds), target, Rects(t, bounds)[m].1, direction, result)
    ensures result == None <==> AtEdge(Rects(t, bounds)[m].1, bounds, direction)
  {
    NoneIffAtEdge(t, bounds, target, m, direction, result);
  }

  /** `p` wins over `q`: nearer, or more edge, or as much edge but further up or left. */
  predicate Beats(p: Rect, q: Rect, me: Rect, direction: Direction) {
    var s, than := ScoreOf(p, me, direction), ScoreOf(q, me, direction);
    || Better(s, than)
    || (s.gap == than.gap && s.overlap == than.overlap
        && p.Start(Across(direction.Orientation())) < q.Start(Across(direction.Orientation())))
  }

  /** The best candidate beats every other one if both are visible, by a rule that asks
      nothing of the tree. */
  lemma BestBeats(t: LayoutNode, bounds: Rect, target: Id, m: nat, direction: Direction, k: nat, j: nat)
    requires Laid(t, bounds, target, m) && IsBest(Rects(t, bounds), target, Rects(t, bounds)[m].1, direction, k)
    requires j < |Panes(t)| && j != k && Candidate(Rects(t, bounds)[j], target, Rects(t, bounds)[m].1, direction)
    requires !Rects(t, bounds)[k].1.IsEmpty() && !Rects(t, bounds)[j].1.IsEmpty()
    ensures Beats(Rects(t, bounds)[k].1, Rects(t, bounds)[j].1, Rects(t, bounds)[m].1, direction)
  {
    var rects := Rects(t, bounds);
    var me := rects[m].1;
    BestIsNextDoor(t, bounds, target, m, direction, k);
    ScoreByAxis(rects[k].1, me, direction);
    ScoreByAxis(rects[j].1, me, direction);
    if k < j {
      DisplayOrder(t, bounds, k, j);
    }
  }

  lemma BeatsOneWay(p: Rect, q: Rect, me: Rect, direction: Direction)
    ensures !(Beats(p, q, me, direction) && Beats(q, p, me, direction))
  {
  }

  /** `r` starts where `me` ends along `o`, and the two have a level in common. */
  predicate Abuts(r: Rect, me: Rect, o: Orientation) {
    && r.Start(o) == me.End(o)
    && SpanOverlap(r.Start(Across(o)), r.End(Across(o)), me.Start(Across(o)), me.End(Across(o))) > 0
  }

  /** Of the panes next door past a target's far edge, the squeezed-out ones come first in
      display order: they end the column the target is in. */
  lemma {:induction false} SqueezedFirst(t: LayoutNode, bounds: Rect, o: Orientation, m: nat, k: nat, j: nat)
    requires bounds.Fits() && m < |Panes(t)| && k < |Panes(t)| && j < |Panes(t)| && !Rects(t, bounds)[m].1.IsEmpty()
    requires Abuts(Rects(t, bounds)[k].1, Rects(t, bounds)[m].1, o) && Rects(t, bounds)[k].1.Extent(o) == 0
    requires Abuts(Rects(t, bounds)[j].1, Rects(t, bounds)[m].1, o) && Rects(t, bounds)[j].1.Extent(o) > 0
    ensures k < j
  {
    hide SplitRect, Abuts, Rects, Rect.Fits, Rect.IsEmpty;
    if k == j {
      assert false;
    } else if t.Split? {
      var (ra, rb) := SplitRect(bounds, t.orientation, t.ratio);
      var n := |Panes(t.a)|;
      SidesAdjoin(bounds, t.orientation, t.ratio);
      SideRects(t, bounds, m);
      SideRects(t, bounds, k);
      SideRects(t, bounds, j);
      if m < n && k < n && j < n {
        SqueezedFirst(t.a, ra, o, m, k, j);
      } else if m >= n && k >= n && j >= n {
        SqueezedFirst(t.b, rb, o, m - n, k - n, j - n);
      } else {
        if k >= n && rb.Extent(o) >= 1 {
          NothingSqueezedAtStart(t.b, rb, o, k - n);
        }
        SqueezedBetween(ra, rb, t.orientation, o, Rects(t, bounds)[m].1, Rects(t, bounds)[k].1, Rects(t, bounds)[j].1, m < n, k < n, j < n);
      }
    }
  }

  /** The three panes not all on one side of a split: the squeezed-out one is on side `a`,
      the visible one on side `b`. */
  lemma SqueezedBetween(ra: Rect, rb: Rect, split: Orientation, o: Orientation, me: Rect, r: Rect, q: Rect, meA: bool, rA: bool, qA: bool)
    requires !me.IsEmpty() && Abuts(r, me, o) && r.Extent(o) == 0 && Abuts(q, me, o) && q.Extent(o) > 0
    requires ra.End(split) == rb.Start(split) && !(meA == rA == qA)
    requires me.Within(if meA then ra else rb) && r.Within(if rA then ra else rb) && q.Within(if qA then ra else rb)
    requires !rA && rb.Extent(o) >= 1 ==> r.Start(o) > rb.Start(o)
    ensures rA && !qA
  {
    if split != o {
      SharedLevel(me, r, ra, rb, split, meA, rA);
      SharedLevel(me, q, ra, rb, split, meA, qA);
    }
  }

  /** Panes on either side of a split have no level in common along its axis. */
  lemma SharedLevel(me: Rect, r: Rect, ra: Rect, rb: Rect, split: Orientation, meA: bool, rA: bool)
    requires SpanOverlap(r.Start(split), r.End(split), me.Start(split), me.End(split)) > 0
    requires ra.End(split) == rb.Start(split) && me.Within(if meA then ra else rb) && r.Within(if rA then ra else rb)
    ensures meA == rA
  {
  }

  lemma RectOfSide(t: LayoutNode, bounds: Rect, i: nat)
    requires t.Split? && i < |Panes(t)|
    ensures var (ra, rb) := SplitRect(bounds, t.orientation, t.ratio);
            var n := |Panes(t.a)|;
            i < n + |Panes(t.b)| && Rects(t, bounds)[i] == if i < n then Rects(t.a, ra)[i] else Rects(t.b, rb)[i - n]
  {
    hide SplitRect;
  }

  /** A pane lies within the side it is on. */
  lemma SideRects(t: LayoutNode, bounds: Rect, i: nat)
    requires bounds.Fits() && t.Split? && i < |Panes(t)|
    ensures var (ra, rb) := SplitRect(bounds, t.orientation, t.ratio);
            var n := |Panes(t.a)|;
            && i < n + |Panes(t.b)| && Rects(t, bounds)[i] == (if i < n then Rects(t.a, ra)[i] else Rects(t.b, rb)[i - n])
            && Rects(t, bounds)[i].1.Within(if i < n then ra else rb)
  {
    hide SplitRect, Rects, Panes, Rect.Fits, Rect.Within;
    var (ra, rb) := SplitRect(bounds, t.orientation, t.ratio);
    SidesAdjoin(bounds, t.orientation, t.ratio);
    RectOfSide(t, bounds, i);
    if i < |Panes(t.a)| {
      OneRectAPane(t.a, ra, i);
    } else {
      OneRectAPane(t.b, rb, i - |Panes(t.a)|);
    }
  }

  /** Past a far edge, a visible best pane is better than any squeezed-out candidate. */
  lemma BetterThanSqueezed(t: LayoutNode, bounds: Rect, target: Id, m: nat, direction: Direction, k: nat, j: nat)
    requires Laid(t, bounds, target, m) && IsBest(Rects(t, bounds), target, Rects(t, bounds)[m].1, direction, k)
    requires j < |Panes(t)| && Candidate(Rects(t, bounds)[j], target, Rects(t, bounds)[m].1, direction)
    requires direction.TowardB() && !Rects(t, bounds)[k].1.IsEmpty() && Rects(t, bounds)[j].1.IsEmpty()
    ensures Better(ScoreOf(Rects(t, bounds)[k].1, Rects(t, bounds)[m].1, direction), ScoreOf(Rects(t, bounds)[j].1, Rects(t, bounds)[m].1, direction))
  {
    hide ScoreOf, Rects;
    var rects := Rects(t, bounds);
    var me := rects[m].1;
    BestIsNextDoor(t, bounds, target, m, direction, k);
    ScoreByAxis(rects[k].1, me, direction);
    ScoreByAxis(rects[j].1, me, direction);
    OneRectAPane(t, bounds, j);
    OneRectAPane(t, bounds, k);
    if Clearance(rects[j].1, me, direction) == 0 {
      SqueezedFirst(t, bounds, direction.Orientation(), m, j, k);
    }
  }

  ghost predicate SameRects(t: LayoutNode, u: LayoutNode, bounds: Rect) {
    forall p :: p in Rects(t, bounds) <==> p in Rects(u, bounds)
  }

  /** Where two trees of the same rectangles may disagree: squeezed-out panes next door, one
      of the two answers to the left or above, both to the right or below. */
  predicate MayDiffer(p: Rect, q: Rect, direction: Direction) {
    if direction.TowardB() then p.IsEmpty() && q.IsEmpty() else p.IsEmpty() || q.IsEmpty()
  }

  lemma SameBest(t: LayoutNode, u: LayoutNode, bounds: Rect, target: Id, m: nat, n: nat, direction: Direction, k: nat, l: nat)
    requires Laid(t, bounds, target, m) && Laid(u, bounds, target, n) && Rects(t, bounds)[m] == Rects(u, bounds)[n]
    requires IsBest(Rects(t, bounds), target, Rects(t, bounds)[m].1, direction, k) && Rects(t, bounds)[k] in Rects(u, bounds)
    requires IsBest(Rects(u, bounds), target, Rects(u, bounds)[n].1, direction, l) && Rects(u, bounds)[l] in Rects(t, bounds)
    ensures Rects(t, bounds)[k] == Rects(u, bounds)[l] || MayDiffer(Rects(t, bounds)[k].1, Rects(u, bounds)[l].1, direction)
  {
    hide ScoreOf, Beats, Better, Rects, Rect.IsEmpty;
    var rt, ru := Rects(t, bounds), Rects(u, bounds);
    var inU: nat :| inU < |ru| && ru[inU] == rt[k];
    var inT: nat :| inT < |rt| && rt[inT] == ru[l];
    BeatsOneWay(rt[k].1, ru[l].1, rt[m].1, direction);
    if rt[k] != ru[l] {
      if !rt[k].1.IsEmpty() && !ru[l].1.IsEmpty() {
        BestBeats(t, bounds, target, m, direction, k, inT);
        BestBeats(u, bounds, target, n, direction, l, inU);
      } else if direction.TowardB() && !ru[l].1.IsEmpty() {
        BetterThanSqueezed(u, bounds, target, n, direction, l, inU);
      } else if direction.TowardB() && !rt[k].1.IsEmpty() {
        BetterThanSqueezed(t, bounds, target, m, direction, k, inT);
      }
    }
  }

  /** Two duplicate-free trees that lay the same panes out in the same rectangles answer
      alike, but where the answers are squeezed-out panes. */
  lemma SameRectsSameAnswer(t: LayoutNode, u: LayoutNode, bounds: Rect, target: Id, m: nat, n: nat, direction: Direction,
                            forT: Option<Id>, forU: Option<Id>)
    requires Laid(t, bounds, target, m) && Laid(u, bounds, target, n) && SameRects(t, u, bounds)
    requires Answers(Rects(t, bounds), target, Rects(t, bounds)[m].1, direction, forT)
    requires Answers(Rects(u, bounds), target, Rects(u, bounds)[n].1, direction, forU)
    ensures forT == None <==> forU == None
    ensures forT != forU ==> exists p, q :: p in Rects(t, bounds) && q in Rects(u, bounds)
                               && forT == Some(p.0) && forU == Some(q.0) && MayDiffer(p.1, q.1, direction)
  {
    hide ScoreOf, Rects, MayDiffer;
    var rt, ru := Rects(t, bounds), Rects(u, bounds);
    SameMe(t, u, bounds, target, m, n);
    if forU.Some? {
      CandidateInBoth(ru, rt, target, rt[m].1, direction, forU);
    }
    if forT.Some? {
      CandidateInBoth(rt, ru, target, rt[m].1, direction, forT);
      var k: nat :| IsBest(rt, target, rt[m].1, direction, k) && rt[k].0 == forT.value;
      assert rt[k] in ru;
      if forU.Some? {
        var l: nat :| IsBest(ru, target, ru[n].1, direction, l) && ru[l].0 == forU.value;
        assert ru[l] in rt;
        SameBest(t, u, bounds, target, m, n, direction, k, l);
      }
    }
  }

  /** With every pane visible they always answer alike. */
  lemma SameAnswerWhenVisible(t: LayoutNode, u: LayoutNode, bounds: Rect, target: Id, m: nat, n: nat, direction: Direction,
                              forT: Option<Id>, forU: Option<Id>)
    requires Laid(t, bounds, target, m) && Laid(u, bounds, target, n) && SameRects(t, u, bounds) && AllVisible(t, bounds)
    requires Answers(Rects(t, bounds), target, Rects(t, bounds)[m].1, direction, forT)
    requires Answers(Rects(u, bounds), target, Rects(u, bounds)[n].1, direction, forU)
    ensures forT == forU
  {
    hide Answers, Rects, Laid;
    SameRectsSameAnswer(t, u, bounds, target, m, n, direction, forT, forU);
  }

  function Other(pane: Id, p: Id, q: Id): Id {
    if pane == p then q else if pane == q then p else pane
  }

  /** The tree with two panes in each other's place. */
  function Exchanged(t: LayoutNode, p: Id, q: Id): LayoutNode {
    match t
    case Leaf(pane) => Leaf(Other(pane, p, q))
    case Split(o, ratio, a, b) => Split(o, ratio, Exchanged(a, p, q), Exchanged(b, p, q))
  }

  lemma {:induction false} ExchangedRects(t: LayoutNode, bounds: Rect, p: Id, q: Id)
    ensures var u := Exchanged(t, p, q);
            && |Panes(u)| == |Panes(t)|
            && forall i :: 0 <= i < |Panes(t)| ==>
                 Panes(u)[i] == Other(Panes(t)[i], p, q) && Rects(u, bounds)[i] == (Other(Rects(t, bounds)[i].0, p, q), Rects(t, bounds)[i].1)
  {
    hide SplitRect, Other;
    if t.Split? {
      var (ra, rb) := SplitRect(bounds, t.orientation, t.ratio);
      ExchangedRects(t.a, ra, p, q);
      ExchangedRects(t.b, rb, p, q);
    }
  }

  /** Exchanging two panes of the same rectangle moves no pane. */
  lemma TwinsExchanged(t: LayoutNode, bounds: Rect, k: nat, j: nat)
    requires Sane(t) && k < |Panes(t)| && j < |Panes(t)| && k != j && Rects(t, bounds)[k].1 == Rects(t, bounds)[j].1
    ensures var u := Exchanged(t, Panes(t)[k], Panes(t)[j]);
            && Sane(u) && SameRects(t, u, bounds) && |Panes(u)| == |Panes(t)|
            && Rects(u, bounds) == Rects(t, bounds)[k := Rects(t, bounds)[j]][j := Rects(t, bounds)[k]]
            && Panes(u) == Panes(t)[k := Panes(t)[j]][j := Panes(t)[k]]
  {
    hide Rects, Panes;
    var p, q := Panes(t)[k], Panes(t)[j];
    RectsNamePanes(t, bounds);
    ExchangedRects(t, bounds, p, q);
    var rt, ru := Rects(t, bounds), Rects(Exchanged(t, p, q), bounds);
    assert ru == rt[k := rt[j]][j := rt[k]];
    assert forall i :: 0 <= i < |rt| ==> rt[i] == ru[if i == k then j else if i == j then k else i];
    assert forall i :: 0 <= i < |ru| ==> ru[i] == rt[if i == k then j else if i == j then k else i];
  }

  /** If another pane has the very rectangle of the answer - then both are squeezed out - it
      is the answer of the tree with the two exchanged. */
  lemma TwinsDisagree(t: LayoutNode, bounds: Rect, target: Id, m: nat, direction: Direction, k: nat, j: nat)
    requires Laid(t, bounds, target, m) && IsBest(Rects(t, bounds), target, Rects(t, bounds)[m].1, direction, k)
    requires j < |Panes(t)| && j != k && Rects(t, bounds)[j].1 == Rects(t, bounds)[k].1
    ensures var u := Exchanged(t, Panes(t)[k], Panes(t)[j]);
            && Laid(u, bounds, target, m) && SameRects(t, u, bounds) && Rects(u, bounds)[m] == Rects(t, bounds)[m]
            && Answers(Rects(u, bounds), target, Rects(t, bounds)[m].1, direction, Some(Panes(t)[j]))
            && Panes(t)[j] != Panes(t)[k]
  {
    hide Rects, Panes, SameRects, ScoreOf;
    var rects := Rects(t, bounds);
    RectsNamePanes(t, bounds);
    TwinsExchanged(t, bounds, k, j);
    NotItsOwnTwin(rects[k].1, rects[m].1, direction);
    assert j != m && k != m;
    var ru := Rects(Exchanged(t, Panes(t)[k], Panes(t)[j]), bounds);
    assert IsBest(ru, target, rects[m].1, direction, k);
  }

  lemma NotItsOwnTwin(r: Rect, me: Rect, direction: Direction)
    requires Eligible(ScoreOf(r, me, direction)) && !me.IsEmpty()
    ensures r != me
  {
  }

  /** Pane 1 in the only cell of a window, `p` and `q` squeezed out beside it. */
  function InOneCell(p: Id, q: Id): LayoutNode {
    Split(Vertical, BALANCED, Leaf(1), Split(Vertical, BALANCED, Leaf(p), Leaf(q)))
  }

  predicate IsCell(cell: Rect) {
    cell.x == 0 && cell.y == 0 && cell.w == 1 && cell.h == 1
  }

  /** The cell's far border, as tall as the cell. */
  predicate IsPast(past: Rect) {
    past.x == 1 && past.y == 0 && past.w == 0 && past.h == 1
  }

  lemma CellSplits(cell: Rect, past: Rect, ratio: Ratio)
    requires IsCell(cell) && IsPast(past)
    ensures SplitRect(cell, Vertical, ratio) == (cell, past)
  {
    hide Share, Round;
  }

  lemma PastSplits(past: Rect, ratio: Ratio)
    requires IsPast(past)
    ensures SplitRect(past, Vertical, ratio) == (past, past)
  {
    hide Share, Round;
  }

  lemma RectsInOneCell(p: Id, q: Id, cell: Rect, past: Rect)
    requires IsCell(cell) && IsPast(past)
    ensures Rects(InOneCell(p, q), cell) == [(1, cell), (p, past), (q, past)] && Panes(InOneCell(p, q)) == [1, p, q]
  {
    hide SplitRect;
    CellSplits(cell, past, BALANCED);
    PastSplits(past, BALANCED);
    var t := InOneCell(p, q);
    assert Rects(t.b, past) == [(p, past), (q, past)] && Panes(t.b) == [p, q];
    assert Rects(t, cell) == Rects(t.a, cell) + Rects(t.b, past);
  }

  lemma ScoresInOneCell(cell: Rect, past: Rect)
    requires IsCell(cell) && IsPast(past)
    ensures ScoreOf(past, cell, Direction.Right) == Score(true, 0, 1)
  {
  }

  lemma CellFits(cell: Rect)
    requires IsCell(cell)
    ensures cell.Fits() && !cell.IsEmpty()
  {
  }

  lemma BestInOneCell(p: Id, q: Id, cell: Rect, past: Rect)
    requires p != q && p != 1 && q != 1 && IsCell(cell) && IsPast(past)
    ensures IsBest([(1, cell), (p, past), (q, past)], 1, cell, Direction.Right, 1)
  {
    hide ScoreOf;
    ScoresInOneCell(cell, past);
  }

  lemma AnswerInOneCell(p: Id, q: Id, cell: Rect, past: Rect)
    requires p != q && p != 1 && q != 1 && IsCell(cell) && IsPast(past)
    ensures Answers([(1, cell), (p, past), (q, past)], 1, cell, Direction.Right, Some(p))
  {
    hide IsBest;
    BestInOneCell(p, q, cell, past);
    assert [(1, cell), (p, past), (q, past)][1].0 == p;
  }

  lemma FirstSqueezedWins(p: Id, q: Id, cell: Rect, past: Rect)
    requires p != q && p != 1 && q != 1 && IsCell(cell) && IsPast(past)
    ensures Laid(InOneCell(p, q), cell, 1, 0) && Answers(Rects(InOneCell(p, q), cell), 1, cell, Direction.Right, Some(p))
  {
    hide Rects, Panes, InOneCell, Answers, Rect.Fits, Rect.IsEmpty;
    RectsInOneCell(p, q, cell, past);
    AnswerInOneCell(p, q, cell, past);
    CellFits(cell);
  }

  /** Two trees, the same two panes past the border in the same rectangle, and each tree
      finds its own first. */
  lemma TreesDisagree(cell: Rect)
    requires IsCell(cell)
    ensures var t, u := InOneCell(2, 3), InOneCell(3, 2);
            && Laid(t, cell, 1, 0) && Laid(u, cell, 1, 0) && SameRects(t, u, cell)
            && Answers(Rects(t, cell), 1, Rects(t, cell)[0].1, Direction.Right, Some(2))
            && Answers(Rects(u, cell), 1, Rects(u, cell)[0].1, Direction.Right, Some(3))
  {
    hide Laid, Answers, Rects, InOneCell;
    var past := Rect(1, 0, 0, 1);
    RectsInOneCell(2, 3, cell, past);
    RectsInOneCell(3, 2, cell, past);
    FirstSqueezedWins(2, 3, cell, past);
    FirstSqueezedWins(3, 2, cell, past);
  }

  // ----- the order of traversal

  /** Another pane scores as well as placement `k`. */
  ghost predicate Tied(rects: seq<Placement>, target: Id, me: Rect, direction: Direction, k: nat)
    requires k < |rects|
  {
    exists j :: 0 <= j < |rects| && Candidate(rects[j], target, me, direction)
                && rects[j].0 != rects[k].0 && ScoreOf(rects[j].1, me, direction) == ScoreOf(rects[k].1, me, direction)
  }

  /** The answer depends on the order in which the rectangles are scanned iff two panes tie
      for best. */
  lemma OrderMattersIffTied(rects: seq<Placement>, target: Id, me: Rect, direction: Direction, k: nat)
    requires IsBest(rects, target, me, direction, k)
    ensures (exists other: seq<Placement>, l: nat :: multiset(other) == multiset(rects) && IsBest(other, target, me, direction, l) && other[l].0 != rects[k].0)
            <==> Tied(rects, target, me, direction, k)
  {
    hide ScoreOf;
    if Tied(rects, target, me, direction, k) {
      var j :| 0 <= j < |rects| && Candidate(rects[j], target, me, direction)
               && rects[j].0 != rects[k].0 && ScoreOf(rects[j].1, me, direction) == ScoreOf(rects[k].1, me, direction);
      var other := ScannedFirst(rects, target, me, direction, k, j);
    }
    if other: seq<Placement>, l: nat :| multiset(other) == multiset(rects) && IsBest(other, target, me, direction, l) && other[l].0 != rects[k].0 {
      BestInAnyOrder(rects, other, target, me, direction, k, l);
    }
  }

  lemma ScannedFirst(rects: seq<Placement>, target: Id, me: Rect, direction: Direction, k: nat, j: nat) returns (other: seq<Placement>)
    requires IsBest(rects, target, me, direction, k) && j < |rects| && Candidate(rects[j], target, me, direction)
    requires ScoreOf(rects[j].1, me, direction) == ScoreOf(rects[k].1, me, direction)
    ensures multiset(other) == multiset(rects) && IsBest(other, target, me, direction, 0) && other[0] == rects[j]
  {
    hide ScoreOf;
    other := [rects[j]] + rects[..j] + rects[j + 1..];
    assert rects == rects[..j] + [rects[j]] + rects[j + 1..];
    assert forall i :: 0 <= i < |other| ==> other[i] in rects;
  }

  lemma BestInAnyOrder(rects: seq<Placement>, other: seq<Placement>, target: Id, me: Rect, direction: Direction, k: nat, l: nat)
    requires multiset(other) == multiset(rects) && IsBest(rects, target, me, direction, k) && IsBest(other, target, me, direction, l)
    ensures other[l] in rects && ScoreOf(other[l].1, me, direction) == ScoreOf(rects[k].1, me, direction)
  {
    hide ScoreOf;
    assert other[l] in multiset(other) && rects[k] in multiset(rects);
    assert other[l] in rects && rects[k] in other;
  }

  lemma CandidateInBoth(rects: seq<Placement>, others: seq<Placement>, target: Id, me: Rect, direction: Direction, result: Option<Id>)
    requires Answers(rects, target, me, direction, result) && result.Some? && forall p :: p in rects ==> p in others
    ensures exists j :: 0 <= j < |others| && Candidate(others[j], target, me, direction)
  {
    var k: nat :| IsBest(rects, target, me, direction, k) && rects[k].0 == result.value;
    assert rects[k] in others;
  }

  lemma SameMe(t: LayoutNode, u: LayoutNode, bounds: Rect, target: Id, m: nat, n: nat)
    requires Laid(t, bounds, target, m) && Laid(u, bounds, target, n) && SameRects(t, u, bounds)
    ensures Rects(t, bounds)[m] == Rects(u, bounds)[n]
  {
    var rt, ru := Rects(t, bounds), Rects(u, bounds);
    RectsNamePanes(t, bounds);
    RectsNamePanes(u, bounds);
    assert ru[n] in rt;
    var at: nat :| at < |rt| && rt[at] == ru[n];
  }
}
