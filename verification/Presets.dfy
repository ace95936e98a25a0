/** The named arrangements: which tree each makes, and how evenly it divides. */
module Presets {
  import opened Basics
  import opened Geometry
  import opened Layout
  import opened Tiling
  import opened Products

  datatype LayoutKind = EvenHorizontal | EvenVertical | MainHorizontal | MainVertical | Tiled | Custom

  function Leaves(panes: seq<Id>): (nodes: seq<LayoutNode>)
    ensures |nodes| == |panes|
  {
    if panes == [] then [] else [Leaf(panes[0])] + Leaves(panes[1..])
  }

  /** Subtrees in a row along `o`: the first gets `1/n`, the rest share what is left. */
  function EvenChain(o: Orientation, nodes: seq<LayoutNode>): (chain: Option<LayoutNode>)
    ensures chain == None <==> nodes == []
  {
    if nodes == [] then None
    else if |nodes| == 1 then Some(nodes[0])
    else Some(Split(o, ToRatio(1.0 / |nodes| as real), nodes[0], EvenChain(o, nodes[1..]).value))
  }

  /** The panes of several trees, one tree after the other. */
  function PanesOfAll(nodes: seq<LayoutNode>): seq<Id> {
    if nodes == [] then [] else Panes(nodes[0]) + PanesOfAll(nodes[1..])
  }

  lemma {:induction false} ChainPanes(o: Orientation, nodes: seq<LayoutNode>)
    requires nodes != []
    ensures Panes(EvenChain(o, nodes).value) == PanesOfAll(nodes)
  {
    if |nodes| > 1 {
      ChainPanes(o, nodes[1..]);
    } else {
      assert PanesOfAll(nodes[1..]) == [];
    }
  }

  lemma {:induction false} LeavesPanes(panes: seq<Id>)
    ensures PanesOfAll(Leaves(panes)) == panes
  {
    if panes != [] {
      LeavesPanes(panes[1..]);
    }
  }

  lemma {:induction false} PanesOfAllAppend(nodes: seq<LayoutNode>, last: LayoutNode)
    ensures PanesOfAll(nodes + [last]) == PanesOfAll(nodes) + Panes(last)
  {
    if nodes == [] {
      assert [] + [last] == [last] && [last][1..] == [];
    } else {
      assert (nodes + [last])[1..] == nodes[1..] + [last];
      PanesOfAllAppend(nodes[1..], last);
    }
  }

  /** A row or column of panes. */
  function Even(o: Orientation, panes: seq<Id>): (chain: Option<LayoutNode>)
    ensures chain == None <==> panes == []
    ensures chain.Some? ==> Panes(chain.value) == panes
  {
    if panes != [] then ChainPanes(o, Leaves(panes)); LeavesPanes(panes); EvenChain(o, Leaves(panes))
    else EvenChain(o, Leaves(panes))
  }

  /** `rows` is the square root of `n`, rounded up. */
  predicate IsCeilSqrt(rows: nat, n: nat) {
    n <= rows * rows && (rows > 0 ==> (rows - 1) * (rows - 1) < n)
  }

  method CeilSqrt(n: nat) returns (rows: nat)
    ensures IsCeilSqrt(rows, n)
  {
    rows := 0;
    while rows * rows < n
      invariant rows > 0 ==> (rows - 1) * (rows - 1) < n
      decreases n - rows * rows
    {
      rows := rows + 1;
    }
  }

  /** `trees` are even rows that hold `panes` in order, the longer rows first,
      no two of them further than one pane apart. */
  ghost predicate RowsOf(trees: seq<LayoutNode>, panes: seq<Id>, per: nat, extra: nat) {
    && PanesOfAll(trees) == panes
    && forall r :: 0 <= r < |trees| ==>
         && |Panes(trees[r])| == per + (if r < extra then 1 else 0)
         && Some(trees[r]) == Even(Vertical, Panes(trees[r]))
  }

  /** A grid of even rows, as many as the square root of the number of panes. */
  ghost predicate IsGrid(t: LayoutNode, panes: seq<Id>) {
    exists trees: seq<LayoutNode> :: GridOf(trees, panes) && Some(t) == EvenChain(Horizontal, trees)
  }

  ghost predicate GridOf(trees: seq<LayoutNode>, panes: seq<Id>) {
    && IsCeilSqrt(|trees|, |panes|) && |trees| > 0
    && RowsOf(trees, panes, |panes| / |trees|, |panes| % |trees|)
  }

  /** How many panes come before row `r` of `rows`. */
  function RowStart(n: nat, rows: nat, r: nat): nat
    requires rows > 0
  {
    r * (n / rows) + Min(r, n % rows)
  }

  method TiledGrid(panes: seq<Id>) returns (tree: Option<LayoutNode>)
    ensures tree == None <==> panes == []
    ensures tree.Some? ==> IsGrid(tree.value, panes) && Panes(tree.value) == panes
  {
    hide RowsOf, PanesOfAll, EvenChain, Even, Panes, IsCeilSqrt, IsGrid, RowStart;
    var n := |panes|;
    if n == 0 {
      return None;
    }
    var rows := CeilSqrt(n);
    SquareCovers(n, rows);
    var per, extra := n / rows, n % rows;
    var rowTrees: seq<LayoutNode> := [];
    NoRows(panes, per, extra);
    RowsFit(n, rows);
    var i := 0;
    for r := 0 to rows
      invariant i == RowStart(n, rows, r) <= n
      invariant |rowTrees| == r && RowsOf(rowTrees, panes[..i], per, extra)
    {
      var cnt := per + if r < extra then 1 else 0;
      RowFits(n, rows, r);
      var row := Even(Vertical, panes[i..i + cnt]);
      AddRow(rowTrees, row.value, panes, per, extra, i);
      rowTrees := rowTrees + [row.value];
      i := i + cnt;
    }
    assert panes[..n] == panes;
    AllRows(rowTrees, panes);
    tree := EvenChain(Horizontal, rowTrees);
  }

  lemma AddRow(trees: seq<LayoutNode>, row: LayoutNode, panes: seq<Id>, per: nat, extra: nat, i: nat)
    requires i + |Panes(row)| <= |panes| && RowsOf(trees, panes[..i], per, extra)
    requires |Panes(row)| == per + if |trees| < extra then 1 else 0
    requires Panes(row) == panes[i..i + |Panes(row)|] && Some(row) == Even(Vertical, Panes(row))
    ensures RowsOf(trees + [row], panes[..i + |Panes(row)|], per, extra)
  {
    hide Even, Panes;
    PanesOfAllAppend(trees, row);
    assert panes[..i + |Panes(row)|] == panes[..i] + Panes(row);
  }

  lemma NoRows(panes: seq<Id>, per: nat, extra: nat)
    ensures RowsOf([], panes[..0], per, extra)
  {
  }

  lemma AllRows(trees: seq<LayoutNode>, panes: seq<Id>)
    requires GridOf(trees, panes)
    ensures var t := EvenChain(Horizontal, trees).value; IsGrid(t, panes) && Panes(t) == panes
  {
    hide EvenChain, Even, IsCeilSqrt;
    ChainPanes(Horizontal, trees);
  }

  lemma SquareCovers(n: nat, rows: nat)
    requires n > 0 && IsCeilSqrt(rows, n)
    ensures 0 < rows <= n && n / rows >= 1
  {
    assert rows > 0 && (rows - 1) * (rows - 1) >= rows - 1;
    Divides(n, rows);
    Cancels(0, n / rows, rows) by { assert rows * (n / rows) == (n / rows) * rows; }
  }

  lemma RowsFit(n: nat, rows: nat)
    requires 0 < rows
    ensures RowStart(n, rows, 0) == 0 && RowStart(n, rows, rows) == n
  {
    Divides(n, rows);
  }

  lemma RowFits(n: nat, rows: nat, r: nat)
    requires r < rows
    ensures RowStart(n, rows, r + 1) == RowStart(n, rows, r) + n / rows + (if r < n % rows then 1 else 0) <= n
  {
    Divides(n, rows);
    RowFitsIn(n, rows, r, n / rows, n % rows);
  }

  lemma RowFitsIn(n: nat, rows: nat, r: nat, per: nat, extra: nat)
    requires r < rows && extra < rows && n == rows * per + extra
    ensures (r + 1) * per == r * per + per
    ensures (r + 1) * per + Min(r + 1, extra) <= n
  {
    var left: nat := rows - (r + 1);
    assert rows * per == (r + 1) * per + left * per;
    assert left * per >= 0;
  }

  /** A preset over an ordered list of panes. */
  method FromKind(kind: LayoutKind, panes: seq<Id>) returns (tree: Option<LayoutNode>)
    ensures tree == None <==> panes == [] || (kind.Custom? && |panes| > 1)
    // Whatever the kind, the panes appear in the order given.
    ensures tree.Some? ==> Panes(tree.value) == panes
    ensures tree.Some? && |panes| > 1 ==>
              match kind
              case EvenHorizontal => tree == Even(Vertical, panes)
              case EvenVertical => tree == Even(Horizontal, panes)
              case MainHorizontal => tree.value == Split(Horizontal, BALANCED, Leaf(panes[0]), Even(Vertical, panes[1..]).value)
              case MainVertical => tree.value == Split(Vertical, BALANCED, Leaf(panes[0]), Even(Horizontal, panes[1..]).value)
              case Tiled => IsGrid(tree.value, panes)
              case Custom => false
  {
    if panes == [] {
      return None;
    }
    if |panes| == 1 {
      return Some(Leaf(panes[0]));
    }
    match kind {
      case EvenHorizontal => tree := Even(Vertical, panes);
      case EvenVertical => tree := Even(Horizontal, panes);
      case MainHorizontal =>
        var bottom := Even(Vertical, panes[1..]);
        tree := Some(Split(Horizontal, BALANCED, Leaf(panes[0]), bottom.value));
      case MainVertical =>
        var right := Even(Horizontal, panes[1..]);
        tree := Some(Split(Vertical, BALANCED, Leaf(panes[0]), right.value));
      case Tiled => tree := TiledGrid(panes);
      case Custom => tree := None;
    }
  }

  // ----- how even an even row is

  /** `share` is `total / n`, rounded down or up. */
  predicate EvenShare(share: int, total: nat, n: nat) {
    n > 0 && total / n <= share <= (total + n - 1) / n
  }

  /** Rounding `total / n` to the nearest, as a statement about integers. */
  lemma RoundOfShare(total: U16, n: nat)
    requires 2 <= n <= 20
    ensures var r := Round(Share(total, ToRatio(1.0 / n as real)));
            2 * (r * n) <= 2 * total + n < 2 * (r * n) + 2 * n
  {
    hide Product, Round;
    var d := n as real;
    var ratio := 1.0 / d;
    Inverse(d);
    InRange(ratio, d);
    Associates(total as real, ratio, d);
    One(total as real);
    RoundTimes(Share(total, ratio), n, total);
  }

  lemma Inverse(d: real)
    requires d > 0.0
    ensures Product(1.0 / d, d) == 1.0
  {
  }

  lemma InRange(ratio: real, d: real)
    requires 2.0 <= d <= 20.0 && Product(ratio, d) == 1.0
    ensures MIN_RATIO <= ratio <= 1.0 - MIN_RATIO
  {
    assert (ratio - MIN_RATIO) * d == 1.0 - MIN_RATIO * d;
    Factor(ratio - MIN_RATIO, d);
    assert (1.0 - MIN_RATIO - ratio) * d == (1.0 - MIN_RATIO) * d - 1.0;
    Factor(1.0 - MIN_RATIO - ratio, d);
  }

  lemma Factor(x: real, d: real)
    requires d > 0.0 && x * d >= 0.0
    ensures x >= 0.0
  {
  }

  /** `r` is `x` rounded, so `r * d` is `x * d` give or take half of `d`. */
  lemma Sandwich(x: real, r: real, d: real)
    requires d > 0.0 && r <= x + 0.5 < r + 1.0
    ensures Product(r, d) <= Product(x, d) + 0.5 * d && Product(x, d) < Product(r, d) + 0.5 * d
  {
    hide Product;
    NonNegative(d, x + 0.5 - r);
    Positive(d, r + 0.5 - x);
    Apart(d, x + 0.5, r);
    Apart(d, r + 0.5, x);
    Apart(d, x, -0.5);
    Apart(d, r, -0.5);
    Half(d);
    Commutes(d, x);
    Commutes(d, r);
    assert x - (-0.5) == x + 0.5 && r - (-0.5) == r + 0.5;
  }

  lemma Half(d: real)
    ensures Product(d, -0.5) == -0.5 * d
  {
  }

  lemma RoundTimes(x: real, n: nat, total: nat)
    requires Product(x, n as real) == total as real && n > 0
    ensures 2 * (Round(x) * n) <= 2 * total + n < 2 * (Round(x) * n) + 2 * n
  {
    hide Product;
    Sandwich(x, Round(x) as real, n as real);
    OfIntegers(Round(x), n);
  }

  lemma NearestWithin(total: nat, n: nat, lo: nat, hi: nat, r: int)
    requires 2 <= n && 1 <= lo <= hi <= lo + 1 && lo * n <= total <= hi * n
    requires 2 * (r * n) <= 2 * total + n < 2 * (r * n) + 2 * n
    ensures lo <= r <= hi
  {
    CancelsBy(r, hi + 1, n);
    CancelsBy(lo, r + 1, n);
  }

  /** The same in linear terms: `lon`, `hin` and `rn` are `lo`, `hi` and `r` times `n`. */
  lemma LinearShare(total: nat, n: nat, lo: nat, hi: nat, r: int, lon: nat, hin: nat, rn: int)
    requires 2 <= n && 1 <= lo <= r <= hi <= lo + 1 && lon <= total <= hin && 2 * lo <= lon
    requires hin == (if hi == lo then lon else lon + n) && rn == (if r == lo then lon else hin)
    requires 2 * rn <= 2 * total + n < 2 * rn + 2 * n
    ensures 1 <= r <= total - 1 && lon - lo <= total - r <= hin - hi
  {
  }

  lemma NearestShare(total: nat, n: nat, lo: nat, hi: nat, r: int)
    requires 2 <= n && 1 <= lo <= hi <= lo + 1 && lo * n <= total <= hi * n
    requires 2 * (r * n) <= 2 * total + n < 2 * (r * n) + 2 * n
    ensures lo <= r <= hi && 1 <= r <= total - 1
    ensures lo * (n - 1) <= total - r <= hi * (n - 1)
  {
    NearestWithin(total, n, lo, hi, r);
    Rest(lo, n);
    Rest(hi, n);
    assert hi * n == (if hi == lo then lo * n else lo * n + n);
    assert r * n == (if r == lo then lo * n else hi * n);
    LinearShare(total, n, lo, hi, r, lo * n, hi * n, r * n);
  }

  lemma Rest(k: nat, n: nat)
    requires 2 <= n
    ensures k * (n - 1) == k * n - k && k * n >= 2 * k
  {
    assert k * n == k * (n - 2) + 2 * k;
    assert k * (n - 2) >= 0;
  }

  /** The first of `n` gets a share between `lo` and `hi`, and leaves the others as much. */
  lemma FirstShare(total: U16, n: nat, lo: nat, hi: nat)
    requires 2 <= n <= 20 && 1 <= lo <= hi <= lo + 1 && lo * n <= total <= hi * n
    ensures var share := SplitExtent(total, ToRatio(1.0 / n as real));
            lo <= share <= hi && lo * (n - 1) <= total - share <= hi * (n - 1)
  {
    hide Round, Share, ToRatio;
    RoundOfShare(total, n);
    NearestShare(total, n, lo, hi, Round(Share(total, ToRatio(1.0 / n as real))));
  }

  /** Each of a chain's subtrees is laid out in a rectangle of its own, an even share of the
      bounds along the chain and all of them across. */
  lemma {:induction false} ChainShares(o: Orientation, nodes: seq<LayoutNode>, bounds: Rect, lo: nat, hi: nat, i: nat) returns (r: Rect)
    requires bounds.Fits() && i < |nodes| <= 20
    requires 1 <= lo <= hi <= lo + 1 && lo * |nodes| <= bounds.Extent(o) <= hi * |nodes|
    ensures r.Fits() && lo <= r.Extent(o) <= hi
    ensures r.Start(Across(o)) == bounds.Start(Across(o)) && r.Extent(Across(o)) == bounds.Extent(Across(o))
    ensures LaidAt(EvenChain(o, nodes).value, bounds, |PanesOfAll(nodes[..i])|, nodes[i], r)
  {
    hide Round, Share, ToRatio, SplitExtent, Add16, LaidAt;
    var n := |nodes|;
    if n == 1 {
      assert nodes[..0] == [];
      LaidWhole(nodes[0], bounds);
      return bounds;
    }
    var t := EvenChain(o, nodes).value;
    var (ra, rb) := SplitRect(bounds, o, t.ratio);
    SidesAdjoin(bounds, o, t.ratio);
    FirstShare(bounds.Extent(o), n, lo, hi);
    if i == 0 {
      assert nodes[..0] == [];
      LaidOnA(t, bounds);
      return ra;
    }
    r := ChainShares(o, nodes[1..], rb, lo, hi, i - 1);
    assert nodes[..i][1..] == nodes[1..][..i - 1] && nodes[1..][i - 1] == nodes[i];
    LaidOnB(t, bounds, |PanesOfAll(nodes[1..][..i - 1])|, nodes[i], r);
  }

  /** From place `from` on, the panes of `t` within `bounds` are those of `sub` within `r`. */
  ghost predicate LaidAt(t: LayoutNode, bounds: Rect, from: nat, sub: LayoutNode, r: Rect) {
    && from + |Panes(sub)| <= |Panes(t)|
    && forall k :: 0 <= k < |Panes(sub)| ==> Rects(t, bounds)[from + k] == Rects(sub, r)[k]
  }

  lemma LaidWhole(t: LayoutNode, bounds: Rect)
    ensures LaidAt(t, bounds, 0, t, bounds)
  {
  }

  lemma LaidOnA(t: LayoutNode, bounds: Rect)
    requires t.Split?
    ensures LaidAt(t, bounds, 0, t.a, SplitRect(bounds, t.orientation, t.ratio).0)
  {
    hide SplitRect;
  }

  lemma LaidOnB(t: LayoutNode, bounds: Rect, from: nat, sub: LayoutNode, r: Rect)
    requires t.Split? && LaidAt(t.b, SplitRect(bounds, t.orientation, t.ratio).1, from, sub, r)
    ensures LaidAt(t, bounds, |Panes(t.a)| + from, sub, r)
  {
    hide SplitRect;
  }

  /** The panes of a row or column are its places. */
  lemma {:induction false} LeafAt(panes: seq<Id>, i: nat)
    requires i < |panes|
    ensures Leaves(panes)[i] == Leaf(panes[i]) && |PanesOfAll(Leaves(panes)[..i])| == i
  {
    LeavesPanes(panes[..i]);
    LeavesCut(panes, i);
  }

  lemma {:induction false} LeavesCut(panes: seq<Id>, i: nat)
    requires i < |panes|
    ensures Leaves(panes)[i] == Leaf(panes[i]) && Leaves(panes)[..i] == Leaves(panes[..i])
  {
    if i > 0 {
      LeavesCut(panes[1..], i - 1);
      assert panes[..i][1..] == panes[1..][..i - 1];
      assert Leaves(panes)[..i] == [Leaf(panes[0])] + Leaves(panes[1..])[..i - 1];
    }
  }

  lemma PaneShare(o: Orientation, panes: seq<Id>, bounds: Rect, lo: nat, hi: nat, i: nat)
    requires bounds.Fits() && i < |panes| <= 20
    requires 1 <= lo <= hi <= lo + 1 && lo * |panes| <= bounds.Extent(o) <= hi * |panes|
    ensures var r := Rects(Even(o, panes).value, bounds)[i].1;
            && lo <= r.Extent(o) <= hi
            && r.Start(Across(o)) == bounds.Start(Across(o)) && r.Extent(Across(o)) == bounds.Extent(Across(o))
  {
    hide PanesOfAll, EvenChain;
    LeafAt(panes, i);
    var r := ChainShares(o, Leaves(panes), bounds, lo, hi, i);
    assert Rects(Leaf(panes[i]), r) == [(panes[i], r)];
    assert Rects(Even(o, panes).value, bounds)[i + 0] == Rects(Leaf(panes[i]), r)[0];
  }

  /** The grid of up to 400 panes: every row has an even share of the height, and every pane
      an even share of its row's width. Pane `i` is the one `k` along in row `row`. */
  lemma GridShares(trees: seq<LayoutNode>, panes: seq<Id>, bounds: Rect, row: nat, k: nat) returns (i: nat)
    requires GridOf(trees, panes) && row < |trees| && k < |Panes(trees[row])| && |panes| <= 400
    requires bounds.Fits() && |trees| <= bounds.h && |Panes(trees[row])| <= bounds.w
    ensures i == |PanesOfAll(trees[..row])| + k < |panes| && panes[i] == Panes(trees[row])[k]
    ensures var rects := Rects(EvenChain(Horizontal, trees).value, bounds);
            i < |rects| && rects[i].0 == panes[i]
            && EvenShare(rects[i].1.h, bounds.h, |trees|) && EvenShare(rects[i].1.w, bounds.w, |Panes(trees[row])|)
  {
    hide EvenChain, Even, EvenShare, IsCeilSqrt, Rects, Panes, PanesOfAll, GridOf;
    RowOfGrid(trees, panes, row);
    var r := RowShare(trees, bounds, row);
    ShareInRow(trees[row], r, k);
    ChainPanes(Horizontal, trees);
    i := |PanesOfAll(trees[..row])| + k;
    OneRectAPane(EvenChain(Horizontal, trees).value, bounds, i);
    OneRectAPane(trees[row], r, k);
  }

  lemma RowOfGrid(trees: seq<LayoutNode>, panes: seq<Id>, row: nat)
    requires GridOf(trees, panes) && row < |trees| && |panes| <= 400
    ensures |trees| <= 20 && |Panes(trees[row])| <= 20 && PanesOfAll(trees) == panes
    ensures Some(trees[row]) == Even(Vertical, Panes(trees[row]))
  {
    hide Even, IsCeilSqrt;
    FewRows(|panes|, |trees|);
  }

  /** A row of a grid has its share of the height, and all the width. */
  lemma RowShare(trees: seq<LayoutNode>, bounds: Rect, row: nat) returns (r: Rect)
    requires bounds.Fits() && row < |trees| <= 20 && |trees| <= bounds.h
    ensures r.Fits() && EvenShare(r.h, bounds.h, |trees|) && r.w == bounds.w
    ensures LaidAt(EvenChain(Horizontal, trees).value, bounds, |PanesOfAll(trees[..row])|, trees[row], r)
  {
    hide EvenChain, PanesOfAll, LaidAt;
    ShareBounds(bounds.h, |trees|);
    r := ChainShares(Horizontal, trees, bounds, bounds.h / |trees|, (bounds.h + |trees| - 1) / |trees|, row);
  }

  /** A pane of a row has its share of the width, and all the height. */
  lemma ShareInRow(row: LayoutNode, bounds: Rect, k: nat)
    requires Some(row) == Even(Vertical, Panes(row)) && bounds.Fits() && k < |Panes(row)| <= 20 && |Panes(row)| <= bounds.w
    ensures var r := Rects(row, bounds)[k].1; EvenShare(r.w, bounds.w, |Panes(row)|) && r.h == bounds.h
  {
    hide Even, Rects, Panes;
    var n := |Panes(row)|;
    ShareBounds(bounds.w, n);
    PaneShare(Vertical, Panes(row), bounds, bounds.w / n, (bounds.w + n - 1) / n, k);
  }

  /** Four hundred panes make at most twenty rows of at most twenty. */
  lemma FewRows(n: nat, rows: nat)
    requires 0 < rows && IsCeilSqrt(rows, n) && n <= 400
    ensures rows <= 20 && n / rows + (if n % rows > 0 then 1 else 0) <= 20
  {
    MoreRows(rows);
    Divides(n, rows);
    AtMostRows(n, rows, n / rows, n % rows);
  }

  lemma MoreRows(rows: nat)
    ensures rows > 20 ==> (rows - 1) * (rows - 1) >= 400
  {
    if rows > 20 {
      assert (rows - 1) * (rows - 1) >= (rows - 1) * 20;
    }
  }

  lemma AtMostRows(n: nat, rows: nat, per: nat, extra: nat)
    requires 0 < rows && n == rows * per + extra && n <= rows * rows
    ensures per + (if extra > 0 then 1 else 0) <= rows
  {
    Swapped(rows, per);
    Cancels(per, rows + 1, rows);
    if extra > 0 {
      Cancels(per, rows, rows);
    }
  }

  lemma Swapped(rows: nat, per: nat)
    ensures per * rows == rows * per && (rows + 1) * rows == rows * rows + rows
  {
  }

  /** Every pane of a row of `panes` has its even share, over any extent that gives each a cell. */
  ghost predicate DividesEvenly(o: Orientation, panes: seq<Id>)
    requires panes != []
  {
    forall bounds: Rect, i: nat :: bounds.Fits() && bounds.Extent(o) >= |panes| && i < |panes| ==>
      EvenShare(Rects(Even(o, panes).value, bounds)[i].1.Extent(o), bounds.Extent(o), |panes|)
  }

  /** Twenty panes are as many as the smallest ratio a split can have divides evenly. */
  lemma EvenUpToTwenty(o: Orientation, panes: seq<Id>)
    requires 1 <= |panes| < U16_LIMIT
    ensures DividesEvenly(o, panes) <==> |panes| <= 20
  {
    var n := |panes|;
    if n <= 20 {
      forall bounds: Rect, i: nat | bounds.Fits() && bounds.Extent(o) >= n && i < n
        ensures EvenShare(Rects(Even(o, panes).value, bounds)[i].1.Extent(o), bounds.Extent(o), n)
      {
        var total := bounds.Extent(o);
        var lo, hi := total / n, (total + n - 1) / n;
        ShareBounds(total, n);
        PaneShare(o, panes, bounds, lo, hi, i);
      }
    } else {
      var bounds := if o.Vertical? then Rect(0, 0, U16_LIMIT - 1, 1) else Rect(0, 0, 1, U16_LIMIT - 1);
      FirstTakesTwentieth(o, panes, bounds);
    }
  }

  lemma ShareBounds(total: nat, n: nat)
    requires 1 <= n <= total
    ensures var lo, hi := total / n, (total + n - 1) / n;
            1 <= lo <= hi <= lo + 1 && lo * n <= total <= hi * n
  {
    Divides(total, n);
    Divides(total + n - 1, n);
    Quotients(total, n, total / n, total % n, (total + n - 1) / n, (total + n - 1) % n);
  }

  lemma Quotients(total: nat, n: nat, lo: nat, r: nat, hi: nat, s: nat)
    requires 1 <= n <= total && total == n * lo + r && r < n && total + n - 1 == n * hi + s && s < n
    ensures 1 <= lo <= hi <= lo + 1 && lo * n <= total <= hi * n
  {
    assert lo * n == n * lo && hi * n == n * hi;
    CancelsBy(lo, hi + 1, n);
    CancelsBy(hi, lo + 2, n);
    CancelsBy(1, lo + 1, n);
  }

  /** `a < b` once `a * d` is less than `(b - 1) * d + d`. */
  lemma CancelsBy(a: int, b: int, d: nat)
    requires a * d < (b - 1) * d + d
    ensures a < b
  {
    assert (b - 1) * d + d == b * d;
    Cancels(a, b, d);
  }

  lemma SmallFactor(q: real, d: real)
    requires d > 20.0 && q * d == 1.0
    ensures q < MIN_RATIO
  {
    assert (q - MIN_RATIO) * d == 1.0 - MIN_RATIO * d;
  }

  lemma SmallestRatio(n: nat)
    requires n > 20
    ensures ToRatio(1.0 / n as real) == MIN_RATIO
  {
    SmallFactor(1.0 / n as real, n as real);
  }

  lemma FirstTakesTwentieth(o: Orientation, panes: seq<Id>, bounds: Rect)
    requires 20 < |panes| < U16_LIMIT && bounds.Fits() && bounds.Extent(o) == U16_LIMIT - 1
    ensures !EvenShare(Rects(Even(o, panes).value, bounds)[0].1.Extent(o), bounds.Extent(o), |panes|)
  {
    var n := |panes|;
    SmallestRatio(n);
    assert SplitExtent(U16_LIMIT - 1, MIN_RATIO) == 3277;
    TwentiethIsMore(n);
  }

  lemma TwentiethIsMore(n: nat)
    requires n > 20
    ensures (U16_LIMIT - 1 + n - 1) / n < 3277
  {
    var most := (U16_LIMIT - 1 + n - 1) / n;
    Divides(U16_LIMIT - 1 + n - 1, n);
    Cancels(most, 3277, n) by { assert most * n == n * most; }
  }
}
