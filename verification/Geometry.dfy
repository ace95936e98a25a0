/** Rectangles of a 16-bit cell grid. */
module Geometry {
  import opened Basics

  const U16_LIMIT: int := 0x1_0000

  type U16 = n: int | 0 <= n < U16_LIMIT

  datatype Orientation = Horizontal | Vertical

  datatype Direction = Above | Below | Left | Right {
    function Orientation(): Orientation {
      if Above? || Below? then Horizontal else Vertical
    }

    /** Right and Below point at side `b` of a split, Left and Above at side `a`. */
    predicate TowardB() {
      Right? || Below?
    }
  }

  /** 16-bit addition, wrapping as the machine's does. */
  function Add16(a: U16, b: U16): U16 {
    (a + b) % U16_LIMIT
  }

  datatype Rect = Rect(x: U16, y: U16, w: U16, h: U16) {
    function Right(): int { x + w }

    function Bottom(): int { y + h }

    function Area(): int { w * h }

    predicate IsEmpty() { w == 0 || h == 0 }

    predicate Contains(px: int, py: int) {
      x <= px < Right() && y <= py < Bottom()
    }

    /** Where the rectangle starts, ends and how far it extends along the axis a
        split of orientation `o` divides. */
    function Start(o: Orientation): int { if o.Vertical? then x else y }

    function End(o: Orientation): int { if o.Vertical? then Right() else Bottom() }

    function Extent(o: Orientation): int { if o.Vertical? then w else h }

    /** No edge lies past the last 16-bit coordinate. */
    predicate Fits() {
      Right() < U16_LIMIT && Bottom() < U16_LIMIT
    }

    predicate Within(outer: Rect) {
      outer.x <= x && Right() <= outer.Right() && outer.y <= y && Bottom() <= outer.Bottom()
    }
  }

  /** Length of the overlap of `[a0, a1)` and `[b0, b1)`. */
  function SpanOverlap(a0: int, a1: int, b0: int, b1: int): (n: int)
    ensures n >= 0 && (n > 0 <==> exists c :: InBoth(a0, a1, b0, b1, c))
  {
    var lo := Max(a0, b0);
    var hi := Min(a1, b1);
    assert hi > lo ==> InBoth(a0, a1, b0, b1, lo);
    if hi > lo then hi - lo else 0
  }

  predicate InBoth(a0: int, a1: int, b0: int, b1: int, c: int) {
    a0 <= c < a1 && b0 <= c < b1
  }

  /** The cells of both spans. */
  function Shared(a0: int, a1: int, b0: int, b1: int): (cells: set<int>)
    ensures forall c :: c in cells <==> InBoth(a0, a1, b0, b1, c)
  {
    set c | a0 <= c < a1 && InBoth(a0, a1, b0, b1, c)
  }

  lemma {:induction false} CellsOfSpan(lo: int, hi: int, cells: set<int>)
    requires forall c :: c in cells <==> lo <= c < hi
    ensures |cells| == if lo < hi then hi - lo else 0
    decreases hi - lo
  {
    if lo < hi {
      CellsOfSpan(lo, hi - 1, cells - {hi - 1});
    } else {
      assert cells == {};
    }
  }

  /** The overlap of two spans is how many cells they share. */
  lemma OverlapCounts(a0: int, a1: int, b0: int, b1: int)
    ensures SpanOverlap(a0, a1, b0, b1) == |Shared(a0, a1, b0, b1)|
  {
    CellsOfSpan(Max(a0, b0), Min(a1, b1), Shared(a0, a1, b0, b1));
  }

  function Across(o: Orientation): Orientation {
    if o.Vertical? then Horizontal else Vertical
  }
}
