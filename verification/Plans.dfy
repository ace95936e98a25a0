/** Layout plans over slots, and the tree of panes a plan compiles to. */
module Plans {
  import opened Basics
  import opened Geometry
  import opened Layout

  type Slot = nat

  datatype SpawnSpec = SpawnSpec(shell: string, args: seq<string>)

  datatype LayoutPlan =
    | Leaf(slot: Slot)
    | Split(orientation: Orientation, ratio: Ratio, a: LayoutPlan, b: LayoutPlan)

  datatype WindowPlan = WindowPlan(name: string, layout: LayoutPlan, activeSlot: Slot)

  function Slots(plan: LayoutPlan): (slots: seq<Slot>)
    ensures slots != []
  {
    match plan
    case Leaf(slot) => [slot]
    case Split(_, _, a, b) => Slots(a) + Slots(b)
  }

  function LeftmostSlot(plan: LayoutPlan): (slot: Slot)
    ensures slot == Slots(plan)[0]
  {
    match plan
    case Leaf(slot) => slot
    case Split(_, _, a, _) => LeftmostSlot(a)
  }

  /** Finds the first slot used twice, as the source does: one list of slots seen. */
  method ValidateInto(plan: LayoutPlan, seen: seq<Slot>) returns (seen': seq<Slot>, duplicate: Option<Slot>)
    requires NoDuplicates(seen)
    ensures duplicate == None ==> seen' == seen + Slots(plan) && NoDuplicates(seen')
    ensures duplicate.Some? ==> FirstRepeat(seen + Slots(plan), duplicate.value) && !NoDuplicates(seen + Slots(plan))
  {
    match plan
    case Leaf(slot) =>
      if slot in seen {
        assert (seen + [slot])[|seen|] == slot && (seen + [slot])[..|seen|] == seen;
        return seen, Some(slot);
      }
      return seen + [slot], None;
    case Split(_, _, a, b) =>
      seen', duplicate := ValidateInto(a, seen);
      assert seen + Slots(plan) == seen + Slots(a) + Slots(b);
      if duplicate.Some? {
        RepeatStays(seen + Slots(a), Slots(b), duplicate.value);
        return seen', duplicate;
      }
      seen', duplicate := ValidateInto(b, seen');
  }

  // ----- what a plan compiles to

  /** The tree a plan becomes when `occupant` holds its place and new panes take the
      ids from `next` on, and the next id after that. */
  function Build(plan: LayoutPlan, occupant: Id, next: Id): (LayoutNode, Id) {
    match plan
    case Leaf(_) => (LayoutNode.Leaf(occupant), next)
    case Split(o, _, a, b) =>
      var (ta, n) := Build(a, occupant, next + 1);
      var (tb, n') := Build(b, next, n);
      (LayoutNode.Split(o, BALANCED, ta, tb), n')
  }

  /** `t` has the plan's shape and orientations, every split balanced. */
  predicate Shaped(plan: LayoutPlan, t: LayoutNode) {
    match plan
    case Leaf(_) => t.Leaf?
    case Split(o, _, a, b) => t.Split? && t.orientation == o && t.ratio == BALANCED && Shaped(a, t.a) && Shaped(b, t.b)
  }

  /** The compiled tree has the plan's shape, starts with the occupant, and all its
      other panes are new and different. */
  lemma {:induction false} BuildShape(plan: LayoutPlan, occupant: Id, next: Id)
    requires occupant < next
    ensures var (t, next') := Build(plan, occupant, next);
            && Shaped(plan, t) && |Panes(t)| == |Slots(plan)| && Panes(t)[0] == occupant && next <= next'
            && (forall i :: 0 < i < |Panes(t)| ==> next <= Panes(t)[i] < next')
            && Sane(t)
  {
    match plan
    case Leaf(_) =>
    case Split(o, _, a, b) =>
      BuildShape(a, occupant, next + 1);
      var (ta, n) := Build(a, occupant, next + 1);
      BuildShape(b, next, n);
  }

  /** A place inside a substitute is a place in the whole. */
  lemma {:induction false} ReplacedInside(t: LayoutNode, target: Id, sub: LayoutNode, inner: Id, filler: LayoutNode)
    requires ContainsPane(t, target) && ContainsPane(sub, inner) && (inner == target || !ContainsPane(t, inner))
    ensures Replaced(Replaced(t, target, sub), inner, filler) == Replaced(t, target, Replaced(sub, inner, filler))
  {
    if t.Split? {
      if ContainsPane(t.a, target) {
        ReplacedInside(t.a, target, sub, inner, filler);
        ReplacedContains(t.a, target, sub);
      } else {
        ReplacedInside(t.b, target, sub, inner, filler);
      }
    }
  }

  lemma {:induction false} ReplacedContains(t: LayoutNode, target: Id, sub: LayoutNode)
    requires ContainsPane(t, target)
    ensures forall p :: ContainsPane(sub, p) ==> ContainsPane(Replaced(t, target, sub), p)
    ensures forall p :: ContainsPane(Replaced(t, target, sub), p) ==> ContainsPane(t, p) || ContainsPane(sub, p)
    ensures forall p :: ContainsPane(t, p) && p != target ==> ContainsPane(Replaced(t, target, sub), p)
  {
    if t.Split? {
      ReplacedContains(if ContainsPane(t.a, target) then t.a else t.b, target, sub);
    }
  }

  /** Splitting the occupant and building both halves in place builds the whole plan in place. */
  lemma SplitThenBuild(t: LayoutNode, plan: LayoutPlan, occupant: Id, next: Id)
    requires plan.Split? && ContainsPane(t, occupant) && occupant < next && !ContainsPane(t, next)
    ensures var direction := SplitDirection(plan.orientation);
            var split := Replaced(t, occupant, SplitOf(occupant, next, direction, BALANCED));
            var (ta, n) := Build(plan.a, occupant, next + 1);
            var halfway := Replaced(split, occupant, ta);
            && ContainsPane(split, occupant) && ContainsPane(halfway, next)
            && Replaced(halfway, next, Build(plan.b, next, n).0) == Replaced(t, occupant, Build(plan, occupant, next).0)
  {
    hide Shaped, Sane, Slots;
    var pair := SplitOf(occupant, next, SplitDirection(plan.orientation), BALANCED);
    var (ta, n) := Build(plan.a, occupant, next + 1);
    var tb := Build(plan.b, next, n).0;
    var half := LayoutNode.Split(plan.orientation, BALANCED, ta, LayoutNode.Leaf(next));
    BuildShape(plan.a, occupant, next + 1);
    ReplacedContains(t, occupant, pair);
    ReplacedContains(t, occupant, half);
    ReplacedInside(t, occupant, pair, occupant, ta);
    assert Replaced(pair, occupant, ta) == half;
    assert !ContainsPane(ta, next);
    ReplacedInside(t, occupant, half, next, tb);
  }

  /** The side a split's new pane goes to. */
  function SplitDirection(o: Orientation): (direction: Direction)
    ensures direction.TowardB() && direction.Orientation() == o
  {
    match o
    case Vertical => Direction.Right
    case Horizontal => Direction.Below
  }
}
