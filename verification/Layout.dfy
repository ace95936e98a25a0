/**
 The split tree: a leaf is a pane, a split gives side `a` a fraction of its area
 and side `b` the rest. Split and remove edit one window's tree in place.
 */
module Layout {
  import opened Basics
  import opened Geometry

  /** A leaf's identity. The algebra copies ids and compares them, nothing more. */
  type Id = nat

  const MIN_RATIO: real := 0.05

  /** A split's fraction for side `a`: no value outside the open interval exists. */
  type Ratio = r: real | MIN_RATIO <= r <= 1.0 - MIN_RATIO witness 0.5

  const BALANCED: Ratio := 0.5

  /** Refines any number into the legal range. */
  function ToRatio(v: real): (r: Ratio)
    ensures MIN_RATIO <= v <= 1.0 - MIN_RATIO ==> r == v
    ensures (v < MIN_RATIO ==> r == MIN_RATIO) && (v > 1.0 - MIN_RATIO ==> r == 1.0 - MIN_RATIO)
  {
    if v < MIN_RATIO then MIN_RATIO else if v > 1.0 - MIN_RATIO then 1.0 - MIN_RATIO else v
  }

  datatype LayoutNode =
    | Leaf(pane: Id)
    | Split(orientation: Orientation, ratio: Ratio, a: LayoutNode, b: LayoutNode)

  /** The panes in display order. */
  function Panes(t: LayoutNode): (panes: seq<Id>)
    ensures panes != []
  {
    match t
    case Leaf(pane) => [pane]
    case Split(_, _, a, b) => Panes(a) + Panes(b)
  }

  predicate ContainsPane(t: LayoutNode, pane: Id)
    ensures ContainsPane(t, pane) <==> pane in Panes(t)
  {
    match t
    case Leaf(p) => p == pane
    case Split(_, _, a, b) => ContainsPane(a, pane) || ContainsPane(b, pane)
  }

  predicate NoDuplicates(ids: seq<Id>) {
    forall i, j :: 0 <= i < j < |ids| ==> ids[i] != ids[j]
  }

  lemma NoDuplicatesCons(id: Id, ids: seq<Id>)
    ensures NoDuplicates([id] + ids) <==> id !in ids && NoDuplicates(ids)
  {
    var all := [id] + ids;
    if NoDuplicates(all) {
      forall i, j | 0 <= i < j < |ids| ensures ids[i] != ids[j] {
        assert all[i + 1] == ids[i] && all[j + 1] == ids[j];
      }
      forall k | 0 <= k < |ids| ensures ids[k] != id {
        assert all[k + 1] == ids[k] && all[0] == id;
      }
    }
  }

  predicate Sane(t: LayoutNode) {
    NoDuplicates(Panes(t))
  }

  lemma SaneSides(t: LayoutNode)
    requires Sane(t) && t.Split?
    ensures Sane(t.a) && Sane(t.b) && forall p :: !(p in Panes(t.a) && p in Panes(t.b))
  {
    var a, b := Panes(t.a), Panes(t.b);
    assert forall i :: 0 <= i < |a| ==> Panes(t)[i] == a[i];
    assert forall i :: 0 <= i < |b| ==> Panes(t)[|a| + i] == b[i];
  }

  // ----- split

  /** The split that puts a new leaf beside `target`'s on the side `direction` says. */
  function SplitOf(target: Id, newPane: Id, direction: Direction, keep: Ratio): LayoutNode {
    if direction.TowardB() then Split(direction.Orientation(), keep, Leaf(target), Leaf(newPane))
    else Split(direction.Orientation(), ToRatio(1.0 - keep), Leaf(newPane), Leaf(target))
  }

  /** `t` with the first leaf of `target` replaced by `sub`. */
  function Replaced(t: LayoutNode, target: Id, sub: LayoutNode): (r: LayoutNode)
    ensures !ContainsPane(t, target) ==> r == t
  {
    match t
    case Leaf(pane) => if pane == target then sub else t
    case Split(o, ratio, a, b) =>
      if ContainsPane(a, target) then Split(o, ratio, Replaced(a, target, sub), b)
      else Split(o, ratio, a, Replaced(b, target, sub))
  }

  /** `ids` with the first occurrence of `target` replaced by `subs`. */
  function Spliced(ids: seq<Id>, target: Id, subs: seq<Id>): seq<Id> {
    if ids == [] then []
    else if ids[0] == target then subs + ids[1..]
    else [ids[0]] + Spliced(ids[1..], target, subs)
  }

  lemma {:induction false} SplicedAt(before: seq<Id>, target: Id, after: seq<Id>, subs: seq<Id>)
    ensures target in before ==> Spliced(before + after, target, subs) == Spliced(before, target, subs) + after
    ensures target !in before ==> Spliced(before + after, target, subs) == before + Spliced(after, target, subs)
  {
    if before == [] {
      assert [] + after == after;
    } else {
      assert (before + after)[1..] == before[1..] + after;
      SplicedAt(before[1..], target, after, subs);
      assert target in before <==> before[0] == target || target in before[1..];
    }
  }

  /** Only the matched leaf changes: every other pane keeps its place in order. */
  lemma {:induction false} ReplacedPanes(t: LayoutNode, target: Id, sub: LayoutNode)
    ensures Panes(Replaced(t, target, sub)) == Spliced(Panes(t), target, Panes(sub))
  {
    match t
    case Leaf(_) => assert Panes(sub) + [] == Panes(sub);
    case Split(_, _, a, b) =>
      SplicedAt(Panes(a), target, Panes(b), Panes(sub));
      ReplacedPanes(a, target, sub);
      ReplacedPanes(b, target, sub);
      SplicedAbsent(Panes(t), target, Panes(sub));
  }

  lemma {:induction false} SplicedAbsent(ids: seq<Id>, target: Id, subs: seq<Id>)
    ensures target !in ids ==> Spliced(ids, target, subs) == ids
    ensures forall p :: p in Spliced(ids, target, subs) ==> p in ids || p in subs
  {
    if ids != [] {
      SplicedAbsent(ids[1..], target, subs);
    }
  }

  // ----- remove

  datatype LeafRemoval = Removed | WasRoot | NotFound

  predicate IsLeafOf(t: LayoutNode, pane: Id) {
    t.Leaf? && t.pane == pane
  }

  /** `t` without the leaf of `target`, its parent split collapsed into the sibling. */
  function Pruned(t: LayoutNode, target: Id): (LayoutNode, LeafRemoval) {
    match t
    case Leaf(pane) => (t, if pane == target then WasRoot else NotFound)
    case Split(o, ratio, a, b) =>
      if IsLeafOf(a, target) then (b, Removed)
      else if IsLeafOf(b, target) then (a, Removed)
      else
        var (a', inA) := Pruned(a, target);
        if inA != NotFound then (Split(o, ratio, a', b), inA)
        else
          var (b', inB) := Pruned(b, target);
          (Split(o, ratio, a, b'), inB)
  }

  /** Which of the three outcomes, for every tree: `WasRoot` is the lone leaf and
      never surfaces from below. */
  lemma {:induction false} PrunedOutcome(t: LayoutNode, target: Id)
    ensures Pruned(t, target).1 == WasRoot <==> t == Leaf(target)
    ensures Pruned(t, target).1 == Removed <==> ContainsPane(t, target) && t.Split?
    ensures Pruned(t, target).1 == NotFound <==> !ContainsPane(t, target)
    ensures Pruned(t, target).1 != Removed ==> Pruned(t, target).0 == t
  {
    if t.Split? {
      PrunedOutcome(t.a, target);
      PrunedOutcome(t.b, target);
    }
  }

  lemma {:induction false} PrunedPanes(t: LayoutNode, target: Id)
    requires Sane(t) && t.Split?
    ensures Panes(Pruned(t, target).0) == Spliced(Panes(t), target, [])
    ensures Sane(Pruned(t, target).0)
  {
    SaneSides(t);
    var a, b := Panes(t.a), Panes(t.b);
    SplicedAt(a, target, b, []);
    PrunedOutcome(t.a, target);
    PrunedOutcome(t.b, target);
    SplicedAbsent(a, target, []);
    SplicedAbsent(b, target, []);
    if IsLeafOf(t.a, target) {
      assert [] + b == b;
    } else if IsLeafOf(t.b, target) {
      assert Spliced(b, target, []) == [] && a + [] == a;
    } else {
      if t.a.Split? {
        PrunedPanes(t.a, target);
      }
      if t.b.Split? {
        PrunedPanes(t.b, target);
      }
    }
    SplicedUnique(Panes(t), target);
  }

  lemma {:induction false} SplicedUnique(ids: seq<Id>, target: Id)
    requires NoDuplicates(ids)
    ensures NoDuplicates(Spliced(ids, target, []))
    ensures forall p :: p in Spliced(ids, target, []) <==> p in ids && p != target
  {
    if ids != [] {
      SplicedUnique(ids[1..], target);
      assert [] + ids[1..] == ids[1..];
      assert ids == [ids[0]] + ids[1..];
      NoDuplicatesCons(ids[0], ids[1..]);
      NoDuplicatesCons(ids[0], Spliced(ids[1..], target, []));
      assert forall p :: p in ids <==> p == ids[0] || p in ids[1..];
    }
  }

  /** Splitting and then removing the new leaf gives the very same tree back,
      ratios included, whatever the tree. */
  lemma {:induction false} SplitThenRemove(t: LayoutNode, target: Id, newPane: Id, direction: Direction, keep: Ratio)
    requires ContainsPane(t, target) && !ContainsPane(t, newPane)
    ensures Pruned(Replaced(t, target, SplitOf(target, newPane, direction, keep)), newPane) == (t, Removed)
  {
    if t.Split? {
      var side := if ContainsPane(t.a, target) then t.a else t.b;
      SplitThenRemove(side, target, newPane, direction, keep);
      PrunedOutcome(t.a, newPane);
    }
  }

  /** The split of a leaf and a subtree, the leaf on side `a` or on side `b`. */
  function Beside(o: Orientation, ratio: Ratio, leaf: Id, sub: LayoutNode, onA: bool): LayoutNode {
    if onA then Split(o, ratio, Leaf(leaf), sub) else Split(o, ratio, sub, Leaf(leaf))
  }

  /** Removing a leaf puts its sibling, whatever subtree that is, in the place of the split
      of the two, and leaves the rest of the tree as it was. */
  lemma {:induction false} SiblingSurvives(host: LayoutNode, place: Id, o: Orientation, ratio: Ratio, leaf: Id, sub: LayoutNode, onA: bool)
    requires ContainsPane(host, place) && !ContainsPane(host, leaf) && !ContainsPane(sub, leaf)
    ensures Pruned(Replaced(host, place, Beside(o, ratio, leaf, sub, onA)), leaf) == (Replaced(host, place, sub), Removed)
  {
    if host.Split? {
      var side := if ContainsPane(host.a, place) then host.a else host.b;
      SiblingSurvives(side, place, o, ratio, leaf, sub, onA);
      PrunedOutcome(host.a, leaf);
    }
  }

  /** And every leaf of every tree but a lone one is so beside a sibling: `place` is any id
      to mark the spot with. */
  lemma {:induction false} HasSibling(t: LayoutNode, leaf: Id, place: Id)
    returns (host: LayoutNode, o: Orientation, ratio: Ratio, sub: LayoutNode, onA: bool)
    requires Sane(t) && t.Split? && ContainsPane(t, leaf) && !ContainsPane(t, place)
    ensures ContainsPane(host, place) && !ContainsPane(host, leaf) && !ContainsPane(sub, leaf)
    ensures t == Replaced(host, place, Beside(o, ratio, leaf, sub, onA))
  {
    SaneSides(t);
    if IsLeafOf(t.a, leaf) {
      return Leaf(place), t.orientation, t.ratio, t.b, true;
    }
    if IsLeafOf(t.b, leaf) {
      return Leaf(place), t.orientation, t.ratio, t.a, false;
    }
    if ContainsPane(t.a, leaf) {
      host, o, ratio, sub, onA := HasSibling(t.a, leaf, place);
      host := Split(t.orientation, t.ratio, host, t.b);
    } else {
      host, o, ratio, sub, onA := HasSibling(t.b, leaf, place);
      host := Split(t.orientation, t.ratio, t.a, host);
    }
  }

  /** A split keeps a duplicate-free tree duplicate-free exactly when the new id is fresh. */
  lemma SplitStaysSane(t: LayoutNode, target: Id, newPane: Id, direction: Direction, keep: Ratio)
    requires Sane(t) && ContainsPane(t, target)
    ensures Sane(Replaced(t, target, SplitOf(target, newPane, direction, keep))) <==> !ContainsPane(t, newPane)
  {
    var pair := Panes(SplitOf(target, newPane, direction, keep));
    ReplacedPanes(t, target, SplitOf(target, newPane, direction, keep));
    SplicedPair(Panes(t), target, newPane, pair);
  }

  lemma {:induction false} SplicedPair(ids: seq<Id>, target: Id, newPane: Id, pair: seq<Id>)
    requires NoDuplicates(ids) && target in ids && (pair == [target, newPane] || pair == [newPane, target])
    ensures NoDuplicates(Spliced(ids, target, pair)) <==> newPane !in ids
    ensures forall p :: p in Spliced(ids, target, pair) <==> p in ids || p == newPane
  {
    var rest := ids[1..];
    assert ids == [ids[0]] + rest;
    NoDuplicatesCons(ids[0], rest);
    if ids[0] == target {
      assert pair + rest == [pair[0]] + ([pair[1]] + rest);
      NoDuplicatesCons(pair[1], rest);
      NoDuplicatesCons(pair[0], [pair[1]] + rest);
    } else {
      SplicedPair(rest, target, newPane, pair);
      NoDuplicatesCons(ids[0], Spliced(rest, target, pair));
    }
  }

  // ----- a window's tree, edited in place

  /** `pane` is the first of `ids` that repeats an earlier one. */
  ghost predicate FirstRepeat(ids: seq<Id>, pane: Id) {
    exists k :: 0 <= k < |ids| && ids[k] == pane && pane in ids[..k] && NoDuplicates(ids[..k])
  }

  class WindowLayout {
    var root: LayoutNode

    constructor (pane: Id)
      ensures root == Leaf(pane)
    {
      root := Leaf(pane);
    }

    /** Splits the leaf of `target`, which keeps `originRatio` of its area. */
    method SplitLeaf(target: Id, newPane: Id, direction: Direction, originRatio: real) returns (found: bool)
      modifies this
      ensures found <==> target in Panes(old(root))
      ensures root == if found then Replaced(old(root), target, SplitOf(target, newPane, direction, ToRatio(originRatio)))
                      else old(root)
    {
      root, found := SplitIn(root, target, newPane, direction, originRatio);
    }

    static method SplitIn(t: LayoutNode, target: Id, newPane: Id, direction: Direction, originRatio: real)
      returns (t': LayoutNode, found: bool)
      ensures found <==> ContainsPane(t, target)
      ensures t' == if found then Replaced(t, target, SplitOf(target, newPane, direction, ToRatio(originRatio))) else t
    {
      match t
      case Leaf(pane) =>
        if pane != target {
          return t, false;
        }
        var keep := ToRatio(originRatio);
        var orientation := direction.Orientation();
        match direction {
          case Right | Below => return Split(orientation, keep, Leaf(pane), Leaf(newPane)), true;
          case Left | Above => return Split(orientation, ToRatio(1.0 - keep), Leaf(newPane), Leaf(pane)), true;
        }
      case Split(o, ratio, a, b) =>
        var side;
        side, found := SplitIn(a, target, newPane, direction, originRatio);
        if found {
          return Split(o, ratio, side, b), true;
        }
        side, found := SplitIn(b, target, newPane, direction, originRatio);
        return Split(o, ratio, a, side), found;
    }

    /** Removes the leaf of `target` unless it is the whole tree. */
    method RemoveLeaf(target: Id) returns (removal: LeafRemoval)
      modifies this
      ensures (root, removal) == Pruned(old(root), target)
    {
      root, removal := RemoveIn(root, target);
    }

    static method RemoveIn(t: LayoutNode, target: Id) returns (t': LayoutNode, removal: LeafRemoval)
      ensures (t', removal) == Pruned(t, target)
    {
      match t
      case Leaf(pane) =>
        return t, if pane == target then WasRoot else NotFound;
      case Split(o, ratio, a, b) =>
        if IsLeafOf(a, target) {
          return b, Removed;
        }
        if IsLeafOf(b, target) {
          return a, Removed;
        }
        var side;
        side, removal := RemoveIn(a, target);
        if removal != NotFound {
          return Split(o, ratio, side, b), removal;
        }
        side, removal := RemoveIn(b, target);
        return Split(o, ratio, a, side), removal;
    }

    /** Finds the first pane that occurs twice, if any. */
    method Validate() returns (duplicate: Option<Id>)
      ensures duplicate == None <==> Sane(root)
      ensures duplicate.Some? ==> FirstRepeat(Panes(root), duplicate.value)
    {
      var seen: seq<Id>;
      seen, duplicate := ValidateInto(root, []);
      assert [] + Panes(root) == Panes(root);
    }

    static method ValidateInto(t: LayoutNode, seen: seq<Id>) returns (seen': seq<Id>, duplicate: Option<Id>)
      requires NoDuplicates(seen)
      ensures duplicate == None ==> seen' == seen + Panes(t) && NoDuplicates(seen')
      ensures duplicate.Some? ==> FirstRepeat(seen + Panes(t), duplicate.value) && !NoDuplicates(seen + Panes(t))
    {
      match t
      case Leaf(pane) =>
        if pane in seen {
          assert (seen + [pane])[|seen|] == pane && (seen + [pane])[..|seen|] == seen;
          return seen, Some(pane);
        }
        return seen + [pane], None;
      case Split(_, _, a, b) =>
        seen', duplicate := ValidateInto(a, seen);
        assert seen + Panes(t) == seen + Panes(a) + Panes(b);
        if duplicate.Some? {
          RepeatStays(seen + Panes(a), Panes(b), duplicate.value);
          return seen', duplicate;
        }
        seen', duplicate := ValidateInto(b, seen');
    }
  }

  lemma RepeatStays(ids: seq<Id>, more: seq<Id>, pane: Id)
    requires FirstRepeat(ids, pane)
    ensures FirstRepeat(ids + more, pane) && !NoDuplicates(ids + more)
  {
    var k :| 0 <= k < |ids| && ids[k] == pane && pane in ids[..k] && NoDuplicates(ids[..k]);
    assert (ids + more)[..k] == ids[..k] && (ids + more)[k] == pane;
    var j :| 0 <= j < k && ids[j] == pane;
    assert (ids + more)[j] == (ids + more)[k];
  }
}
