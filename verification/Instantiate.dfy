/** The plan interpreter: it makes a live session out of a definition. */
module Instantiate {
  import opened Basics
  import opened Geometry
  import opened Layout
  import opened Plans
  import opened Backends

  type Specs = map<Slot, SpawnSpec>

  predicate HasSpecs(plan: LayoutPlan, specs: Specs) {
    forall s :: s in Slots(plan) ==> s in specs
  }

  // ----- one window

  predicate Runs(panes: map<Id, Pane>, pane: Id, session: Id, specs: Specs, slot: Slot) {
    slot in specs && pane in panes && panes[pane] == Pane(session, specs[slot].shell, specs[slot].args)
  }

  /** From place `from` on, each pane runs the program of the slot in its place. */
  ghost predicate Spawned(slots: seq<Slot>, ids: seq<Id>, specs: Specs, panes: map<Id, Pane>, session: Id, from: nat) {
    |slots| == |ids| && forall i :: from <= i < |slots| ==> Runs(panes, ids[i], session, specs, slots[i])
  }

  /** `out` sends each slot to the pane in the same place. */
  ghost predicate Corresponds(slots: seq<Slot>, ids: seq<Id>, out: map<Slot, Id>) {
    |slots| == |ids| && forall i :: 0 <= i < |slots| ==> slots[i] in out && out[slots[i]] == ids[i]
  }

  ghost predicate SameElsewhere(slots: seq<Slot>, out: map<Slot, Id>, out': map<Slot, Id>) {
    forall s :: s !in slots ==> (s in out' <==> s in out) && (s in out ==> out'[s] == out[s])
  }

  /** The plan stands in `occupant`'s place in window `wid`, every further pane runs
      its own slot's program, and nothing else changed. */
  ghost predicate Realized(st: State, st': State, wid: Id, plan: LayoutPlan, occupant: Id, specs: Specs) {
    var (t, next') := Build(plan, occupant, st.next);
    && Grown(st, st', wid) && wid in st.windows
    && st'.sessions == st.sessions && st'.failNextSplit == st.failNextSplit && st'.next == next'
    && st'.windows[wid].layout == Replaced(st.windows[wid].layout, occupant, t)
    && Spawned(Slots(plan), Panes(t), specs, st'.panes, st.windows[wid].session, 1)
  }

  function FirstSplit(st: State, wid: Id, plan: LayoutPlan, occupant: Id, specs: Specs): State
    requires plan.Split? && HasSpecs(plan, specs) && wid in st.windows
  {
    var spec := specs[LeftmostSlot(plan.b)];
    AfterSplit(st, wid, occupant, SplitDirection(plan.orientation), spec.shell, spec.args)
  }

  lemma GrownOnwards(st: State, mid: State, st': State, wid: Id)
    requires Grown(st, mid, wid) && Grown(mid, st', wid) && wid in st.windows
    ensures Grown(st, st', wid)
  {
  }

  lemma SpawnedStays(slots: seq<Slot>, ids: seq<Id>, specs: Specs, st: State, st': State, wid: Id, session: Id, from: nat)
    requires Spawned(slots, ids, specs, st.panes, session, from) && Grown(st, st', wid)
    ensures Spawned(slots, ids, specs, st'.panes, session, from)
  {
  }

  /** The two halves' panes make the whole plan's, the second half's first pane included. */
  lemma SpawnedBoth(a: seq<Slot>, inA: seq<Id>, b: seq<Slot>, inB: seq<Id>, specs: Specs, panes: map<Id, Pane>, session: Id)
    requires Spawned(a, inA, specs, panes, session, 1) && Spawned(b, inB, specs, panes, session, 1)
    requires b != [] && Runs(panes, inB[0], session, specs, b[0])
    ensures Spawned(a + b, inA + inB, specs, panes, session, 1)
  {
  }

  lemma RunsStays(st: State, st': State, wid: Id, pane: Id, session: Id, specs: Specs, slot: Slot)
    requires Runs(st.panes, pane, session, specs, slot) && Grown(st, st', wid)
    ensures Runs(st'.panes, pane, session, specs, slot)
  {
  }

  lemma HalvesSpawned(split: State, mid: State, st': State, wid: Id, plan: LayoutPlan, occupant: Id, next: Id, specs: Specs, session: Id)
    requires plan.Split? && occupant < next
    requires Grown(split, mid, wid) && Grown(mid, st', wid) && wid in split.windows
    requires Runs(split.panes, next, session, specs, Slots(plan.b)[0])
    requires Spawned(Slots(plan.a), Panes(Build(plan.a, occupant, next + 1).0), specs, mid.panes, session, 1)
    requires Spawned(Slots(plan.b), Panes(Build(plan.b, next, Build(plan.a, occupant, next + 1).1).0), specs, st'.panes, session, 1)
    ensures Spawned(Slots(plan), Panes(Build(plan, occupant, next).0), specs, st'.panes, session, 1)
  {
    hide Grown, Spawned, Runs;
    var (ta, n) := Build(plan.a, occupant, next + 1);
    var tb := Build(plan.b, next, n).0;
    SpawnedStays(Slots(plan.a), Panes(ta), specs, mid, st', wid, session, 1);
    RunsStays(split, mid, wid, next, session, specs, Slots(plan.b)[0]);
    RunsStays(mid, st', wid, next, session, specs, Slots(plan.b)[0]);
    BuildShape(plan.a, occupant, next + 1);
    BuildShape(plan.b, next, n);
    SpawnedBoth(Slots(plan.a), Panes(ta), Slots(plan.b), Panes(tb), specs, st'.panes, session);
  }

  lemma GrownSession(st: State, st': State, wid: Id)
    requires Grown(st, st', wid) && wid in st.windows
    ensures wid in st'.windows && st'.windows[wid].session == st.windows[wid].session && st'.windows[wid].name == st.windows[wid].name
  {
  }

  /** A split and both halves realized is the plan realized. */
  lemma RealizedHalves(st: State, mid: State, st': State, wid: Id, plan: LayoutPlan, occupant: Id, specs: Specs)
    requires Consistent(st) && Shows(st, wid, occupant) && plan.Split? && HasSpecs(plan, specs)
    requires Realized(FirstSplit(st, wid, plan, occupant, specs), mid, wid, plan.a, occupant, specs)
    requires Realized(mid, st', wid, plan.b, st.next, specs)
    ensures Realized(st, st', wid, plan, occupant, specs)
  {
    hide Consistent, Grown, Replaced, Spawned, SplitOf, HasSpecs, Runs, Panes, Slots;
    var split := FirstSplit(st, wid, plan, occupant, specs);
    SplitHolds(st, wid, plan, occupant, specs);
    GrownSession(st, split, wid);
    GrownSession(split, mid, wid);
    GrownOnwards(st, split, mid, wid);
    GrownOnwards(st, mid, st', wid);
    SplitThenBuild(st.windows[wid].layout, plan, occupant, st.next);
    HalvesSpawned(split, mid, st', wid, plan, occupant, st.next, specs, st.windows[wid].session);
  }

  lemma SplitHolds(st: State, wid: Id, plan: LayoutPlan, occupant: Id, specs: Specs)
    requires Consistent(st) && Shows(st, wid, occupant) && plan.Split? && HasSpecs(plan, specs)
    ensures var split := FirstSplit(st, wid, plan, occupant, specs);
            && wid in st.windows && Grown(st, split, wid) && Shows(split, wid, occupant) && occupant < st.next && !ContainsPane(st.windows[wid].layout, st.next)
            && Runs(split.panes, st.next, st.windows[wid].session, specs, Slots(plan.b)[0])
  {
    OneHome(st, wid, occupant);
    var spec := specs[LeftmostSlot(plan.b)];
    SplitKeeps(st, wid, occupant, SplitDirection(plan.orientation), spec.shell, spec.args);
    assert !Shows(st, wid, st.next);
  }

  /** The second half's place is there once the first is built. */
  lemma SecondPlace(st: State, mid: State, wid: Id, plan: LayoutPlan, occupant: Id, specs: Specs)
    requires Consistent(st) && Shows(st, wid, occupant) && plan.Split? && HasSpecs(plan, specs)
    requires Realized(FirstSplit(st, wid, plan, occupant, specs), mid, wid, plan.a, occupant, specs)
    ensures Shows(mid, wid, st.next)
  {
    hide Consistent, Grown, Replaced, Spawned, SplitOf, HasSpecs, Runs, Panes, Slots;
    SplitHolds(st, wid, plan, occupant, specs);
    GrownSession(FirstSplit(st, wid, plan, occupant, specs), mid, wid);
    SplitThenBuild(st.windows[wid].layout, plan, occupant, st.next);
  }

  lemma HalvesOf(plan: LayoutPlan)
    requires plan.Split? && NoDuplicates(Slots(plan))
    ensures NoDuplicates(Slots(plan.a)) && NoDuplicates(Slots(plan.b))
    ensures forall s :: !(s in Slots(plan.a) && s in Slots(plan.b))
    ensures forall specs :: HasSpecs(plan, specs) ==> HasSpecs(plan.a, specs) && HasSpecs(plan.b, specs)
  {
    var a, b := Slots(plan.a), Slots(plan.b);
    assert forall i :: 0 <= i < |a| ==> Slots(plan)[i] == a[i];
    assert forall i :: 0 <= i < |b| ==> Slots(plan)[|a| + i] == b[i];
  }

  lemma CorrespondsBoth(a: seq<Slot>, inA: seq<Id>, b: seq<Slot>, inB: seq<Id>, out: map<Slot, Id>, out': map<Slot, Id>)
    requires Corresponds(a, inA, out) && Corresponds(b, inB, out') && SameElsewhere(b, out, out')
    requires forall s :: !(s in a && s in b)
    ensures Corresponds(a + b, inA + inB, out')
  {
  }

  lemma SameElsewhereBoth(a: seq<Slot>, b: seq<Slot>, out: map<Slot, Id>, mid: map<Slot, Id>, out': map<Slot, Id>)
    requires SameElsewhere(a, out, mid) && SameElsewhere(b, mid, out')
    ensures SameElsewhere(a + b, out, out')
  {
  }

  /** Reshapes `occupant`'s place in the window that shows it into the plan, and records
      which pane each slot got. */
  method RealizeInto(plan: LayoutPlan, occupant: Id, specs: Specs, b: MockBackend, out: map<Slot, Id>, ghost wid: Id)
    returns (out': map<Slot, Id>, ok: bool)
    requires b.Valid() && NoDuplicates(Slots(plan)) && HasSpecs(plan, specs) && Shows(b.st, wid, occupant)
    modifies b
    ensures b.Valid()
    // Only a failing backend stops it, and then at the very first split.
    ensures ok <==> !old(b.st.failNextSplit) || plan.Leaf?
    ensures !ok ==> b.st == old(b.st).(failNextSplit := false, next := b.st.next)
    ensures ok ==> Realized(old(b.st), b.st, wid, plan, occupant, specs)
    ensures ok ==> Corresponds(Slots(plan), Panes(Build(plan, occupant, old(b.st.next)).0), out') && SameElsewhere(Slots(plan), out, out')
    decreases plan
  {
    hide Consistent, Grown, Replaced, Spawned, SplitOf, HasSpecs, Runs, NoDuplicates, Shows, Corresponds, SameElsewhere;
    match plan
    case Leaf(slot) =>
      PlanLeaf(b.st, wid, plan, occupant, specs, out);
      return out[slot := occupant], true;
    case Split(o, _, a, c) =>
      ghost var before := b.st;
      SpecOf(plan, specs, LeftmostSlot(c));
      var spec := specs[LeftmostSlot(c)];
      var newPane := b.SplitPane(occupant, SplitDirection(o), spec.shell, spec.args);
      if newPane == None {
        return out, false;
      }
      ghost var ta := Build(a, occupant, before.next + 1).0;
      ghost var tc := Build(c, before.next, Build(a, occupant, before.next + 1).1).0;
      HalvesOf(plan);
      SplitHolds(before, wid, plan, occupant, specs);
      assert b.st == FirstSplit(before, wid, plan, occupant, specs);
      out', ok := RealizeInto(a, occupant, specs, b, out, wid);
      ghost var mid, outA := b.st, out';
      SecondPlace(before, mid, wid, plan, occupant, specs);
      out', ok := RealizeInto(c, newPane.value, specs, b, out', wid);
      RealizedHalves(before, mid, b.st, wid, plan, occupant, specs);
      CorrespondsBoth(Slots(a), Panes(ta), Slots(c), Panes(tc), outA, out');
      SameElsewhereBoth(Slots(a), Slots(c), out, outA, out');
      return out', true;
  }

  lemma SpecOf(plan: LayoutPlan, specs: Specs, slot: Slot)
    requires HasSpecs(plan, specs) && slot in Slots(plan)
    ensures slot in specs
  {
  }

  lemma PlanLeaf(st: State, wid: Id, plan: LayoutPlan, occupant: Id, specs: Specs, out: map<Slot, Id>)
    requires Consistent(st) && Shows(st, wid, occupant) && plan.Leaf?
    ensures Realized(st, st, wid, plan, occupant, specs)
    ensures Corresponds(Slots(plan), Panes(Build(plan, occupant, st.next).0), out[plan.slot := occupant])
    ensures SameElsewhere(Slots(plan), out, out[plan.slot := occupant])
  {
    ReplacedSame(st.windows[wid].layout, occupant);
  }

  lemma {:induction false} ReplacedSame(t: LayoutNode, p: Id)
    ensures Replaced(t, p, LayoutNode.Leaf(p)) == t
  {
    if t.Split? {
      ReplacedSame(t.a, p);
      ReplacedSame(t.b, p);
    }
  }

  /** Window `wid` is what its plan says: the plan's shape, every pane running its own
      slot's program, and the pane of the active slot focused. */
  ghost predicate Made(plan: WindowPlan, specs: Specs, st: State, wid: Id) {
    && wid in st.windows
    && var w := st.windows[wid];
    && Shaped(plan.layout, w.layout) && Sane(w.layout)
    && Spawned(Slots(plan.layout), Panes(w.layout), specs, st.panes, w.session, 0)
    && exists i :: 0 <= i < |Slots(plan.layout)| && Slots(plan.layout)[i] == plan.activeSlot && w.active == Panes(w.layout)[i]
  }

  /** A window as the backend opens it: one pane, which runs the leftmost slot's program. */
  ghost predicate JustOpened(plan: WindowPlan, specs: Specs, st: State, wid: Id) {
    && wid in st.windows
    && var w := st.windows[wid];
    && w.layout == LayoutNode.Leaf(w.active)
    && Runs(st.panes, w.active, w.session, specs, LeftmostSlot(plan.layout))
  }

  ghost predicate ValidWindow(plan: WindowPlan, specs: Specs) {
    NoDuplicates(Slots(plan.layout)) && HasSpecs(plan.layout, specs) && plan.activeSlot in Slots(plan.layout)
  }

  /** Realizes a plan in a window just opened, and focuses its active slot. */
  method RealizeWindow(window: WindowPlan, wid: Id, specs: Specs, b: MockBackend) returns (ok: bool)
    requires b.Valid() && ValidWindow(window, specs) && JustOpened(window, specs, b.st, wid)
    modifies b
    ensures b.Valid() && (ok <==> !old(b.st.failNextSplit) || window.layout.Leaf?)
    ensures !ok ==> b.st == old(b.st).(failNextSplit := false, next := b.st.next)
    ensures ok ==> Made(window, specs, b.st, wid) && Grown(old(b.st), b.st, wid)
                   && b.st.sessions == old(b.st.sessions) && b.st.failNextSplit == old(b.st.failNextSplit)
  {
    hide Consistent, Grown, Spawned, Runs, HasSpecs, Corresponds, NoDuplicates, Made;
    var firstPane := b.st.windows[wid].active;
    var slotToPane;
    ghost var before := b.st;
    assert Shows(b.st, wid, firstPane);
    slotToPane, ok := RealizeInto(window.layout, firstPane, specs, b, map[], wid);
    if !ok {
      return;
    }
    ghost var built := b.st;
    PlanInPlace(before, built, wid, window, firstPane, specs);
    ghost var at := ActivePlace(window, built.windows[wid].layout, slotToPane);
    var active := slotToPane[window.activeSlot];
    SelectOnly(built, wid, active);
    var selected := b.SelectPane(active);
    FocusMakes(before, built, wid, window, specs, at);
  }

  lemma PlanInPlace(before: State, built: State, wid: Id, window: WindowPlan, firstPane: Id, specs: Specs)
    requires Consistent(before) && JustOpened(window, specs, before, wid) && firstPane == before.windows[wid].active
    requires Realized(before, built, wid, window.layout, firstPane, specs)
    ensures var t := Build(window.layout, firstPane, before.next).0;
            && wid in built.windows && built.windows[wid].layout == t
            && built.windows[wid].session == before.windows[wid].session
            && Shaped(window.layout, t) && Sane(t)
            && Spawned(Slots(window.layout), Panes(t), specs, built.panes, before.windows[wid].session, 0)
  {
    OneHome(before, wid, firstPane) by { assert Shows(before, wid, firstPane); }
    BuildShape(window.layout, firstPane, before.next);
    RunsStays(before, built, wid, firstPane, before.windows[wid].session, specs, LeftmostSlot(window.layout));
  }

  lemma ActivePlace(window: WindowPlan, t: LayoutNode, out: map<Slot, Id>) returns (i: nat)
    requires window.activeSlot in Slots(window.layout) && Corresponds(Slots(window.layout), Panes(t), out)
    ensures i < |Slots(window.layout)| == |Panes(t)| && Slots(window.layout)[i] == window.activeSlot
    ensures window.activeSlot in out && out[window.activeSlot] == Panes(t)[i]
  {
    i :| 0 <= i < |Slots(window.layout)| && Slots(window.layout)[i] == window.activeSlot;
  }

  /** Focusing a pane touches only the window that shows it. */
  lemma SelectOnly(st: State, wid: Id, p: Id)
    requires Consistent(st) && Shows(st, wid, p)
    ensures p in st.panes && AfterSelect(st, p) == st.(windows := st.windows[wid := st.windows[wid].(active := p)])
  {
    OneHome(st, wid, p);
    forall w | w in st.windows && w != wid ensures p !in Panes(st.windows[w].layout) {
      assert !Shows(st, w, p);
    }
  }

  lemma FocusMakes(before: State, built: State, wid: Id, window: WindowPlan, specs: Specs, at: nat)
    requires Grown(before, built, wid) && wid in before.windows && wid in built.windows
    requires at < |Slots(window.layout)| == |Panes(built.windows[wid].layout)| && Slots(window.layout)[at] == window.activeSlot
    requires Shaped(window.layout, built.windows[wid].layout) && Sane(built.windows[wid].layout)
    requires Spawned(Slots(window.layout), Panes(built.windows[wid].layout), specs, built.panes, built.windows[wid].session, 0)
    ensures var w := built.windows[wid].(active := Panes(built.windows[wid].layout)[at]);
            var after := built.(windows := built.windows[wid := w]);
            Made(window, specs, after, wid) && Grown(before, after, wid)
  {
  }

  // ----- a whole definition

  datatype Definition = Definition(displayName: string, windows: seq<WindowPlan>, specs: Specs)

  datatype DefinitionError = NoWindows | DuplicateSlot(slot: Slot) | MissingSpec(slot: Slot) | ActiveSlotNotInWindow(slot: Slot)

  ghost predicate ValidDefinition(def: Definition) {
    def.windows != [] && forall k :: 0 <= k < |def.windows| ==> ValidWindow(def.windows[k], def.specs)
  }

  /** What is wrong with a window, the first complaint in the order they are looked for. */
  ghost predicate Complaint(plan: WindowPlan, specs: Specs, error: DefinitionError) {
    var slots := Slots(plan.layout);
    match error
    case NoWindows => false
    case DuplicateSlot(slot) => FirstRepeat(slots, slot) && !NoDuplicates(slots)
    case MissingSpec(slot) =>
      NoDuplicates(slots) && exists k :: 0 <= k < |slots| && slots[k] == slot && slot !in specs && forall j :: 0 <= j < k ==> slots[j] in specs
    case ActiveSlotNotInWindow(slot) =>
      NoDuplicates(slots) && HasSpecs(plan.layout, specs) && slot == plan.activeSlot && slot !in slots
  }

  method FirstMissing(slots: seq<Slot>, specs: Specs) returns (k: nat)
    ensures k <= |slots| && (k < |slots| ==> slots[k] !in specs) && forall j :: 0 <= j < k ==> slots[j] in specs
  {
    k := 0;
    while k < |slots| && slots[k] in specs
      invariant k <= |slots| && forall j :: 0 <= j < k ==> slots[j] in specs
    {
      k := k + 1;
    }
  }

  method ValidateWindow(plan: WindowPlan, specs: Specs) returns (error: Option<DefinitionError>)
    ensures error == None ==> ValidWindow(plan, specs)
    ensures error.Some? ==> Complaint(plan, specs, error.value) && !ValidWindow(plan, specs)
  {
    hide NoDuplicates, FirstRepeat, Slots;
    NothingRepeats();
    var slots, duplicate := Plans.ValidateInto(plan.layout, []);
    assert [] + Slots(plan.layout) == Slots(plan.layout);
    if duplicate.Some? {
      return Some(DuplicateSlot(duplicate.value));
    }
    var k := FirstMissing(slots, specs);
    if k < |slots| {
      return Some(MissingSpec(slots[k]));
    }
    return if plan.activeSlot in slots then None else Some(ActiveSlotNotInWindow(plan.activeSlot));
  }

  lemma NothingRepeats()
    ensures NoDuplicates([])
  {
  }

  /** Accepts exactly the definitions that can be instantiated; otherwise the complaint is
      about the first window there is one about. */
  method Validate(def: Definition) returns (error: Option<DefinitionError>)
    ensures error == None <==> ValidDefinition(def)
    ensures error == Some(NoWindows) <==> def.windows == []
    ensures error.Some? && def.windows != [] ==>
              exists k :: 0 <= k < |def.windows| && Complaint(def.windows[k], def.specs, error.value)
                          && forall j :: 0 <= j < k ==> ValidWindow(def.windows[j], def.specs)
  {
    hide ValidWindow;
    if def.windows == [] {
      return Some(NoWindows);
    }
    for k := 0 to |def.windows|
      invariant forall j :: 0 <= j < k ==> ValidWindow(def.windows[j], def.specs)
    {
      error := ValidateWindow(def.windows[k], def.specs);
      if error.Some? {
        return;
      }
    }
    return None;
  }

  datatype Outcome = Live(session: Id) | Invalid(error: DefinitionError) | Control

  /** All that was there is there as it was. */
  ghost predicate Preserves(st: State, st': State) {
    && (forall s :: s in st.sessions ==> s in st'.sessions && st'.sessions[s] == st.sessions[s])
    && (forall w :: w in st.windows ==> w in st'.windows && st'.windows[w] == st.windows[w])
    && (forall p :: p in st.panes ==> p in st'.panes && st'.panes[p] == st.panes[p])
  }

  /** The first `n` windows of the definition, made in session `sid` and in order. */
  ghost predicate MadeUpTo(def: Definition, st: State, sid: Id, wids: seq<Id>, n: nat) {
    && n <= |def.windows| && |wids| == n
    && (forall i :: 0 <= i < n ==> Made(def.windows[i], def.specs, st, wids[i]))
    && (forall i :: 0 <= i < n ==> wids[i] in st.windows && st.windows[wids[i]].session == sid
                                   && st.windows[wids[i]].name == if i == 0 then def.displayName else def.windows[i].name)
    && (forall i, j :: 0 <= i < j < n ==> wids[i] < wids[j])
  }

  ghost predicate IsSplitWindow(def: Definition, k: int)
    requires 0 <= k < |def.windows|
  {
    def.windows[k].layout.Split?
  }

  /** The session so far: its first `n` windows, and nothing else new. */
  ghost predicate FaithfulUpTo(def: Definition, st: State, st': State, sid: Id, wids: seq<Id>, n: nat) {
    && n > 0 && MadeUpTo(def, st', sid, wids, n)
    && sid !in st.sessions && sid in st'.sessions && st'.sessions[sid] == Session(def.displayName, wids[0])
    && (forall w :: w in st'.windows <==> w in st.windows || w in wids)
    && (forall w :: w in wids ==> w !in st.windows)
    && Preserves(st, st')
  }

  /** A live session that is what its definition says, opened on its first window. */
  ghost predicate Faithful(def: Definition, st: State, st': State, sid: Id, wids: seq<Id>) {
    FaithfulUpTo(def, st, st', sid, wids, |def.windows|)
  }

  /** One more window, made in a fresh place. */
  ghost predicate Added(st: State, st': State, sid: Id, name: string, plan: WindowPlan, specs: Specs, wid: Id) {
    && Grown(st, st', wid) && wid !in st.windows && st.next <= wid && wid in st'.windows
    && Made(plan, specs, st', wid) && st'.windows[wid].session == sid && st'.windows[wid].name == name
  }

  lemma PreservesSame(st: State, next: Id, fail: bool)
    ensures Preserves(st, st.(next := next, failNextSplit := fail))
  {
  }

  lemma GrownPreserves(st: State, st': State, wid: Id)
    requires Grown(st, st', wid) && wid !in st.windows
    requires forall s :: s in st.sessions ==> s in st'.sessions && st'.sessions[s] == st.sessions[s]
    ensures Preserves(st, st')
  {
  }

  lemma PreservesOn(st: State, mid: State, st': State)
    requires Preserves(st, mid) && Preserves(mid, st')
    ensures Preserves(st, st')
  {
  }

  lemma GrownTwice(st: State, mid: State, st': State, wid: Id)
    requires Grown(st, mid, wid) && Grown(mid, st', wid) && wid !in st.windows
    ensures Grown(st, st', wid) && st'.windows[wid].session == mid.windows[wid].session && st'.windows[wid].name == mid.windows[wid].name
  {
  }

  /** A window made stays made while others are. */
  lemma MadeStays(plan: WindowPlan, specs: Specs, st: State, st': State, wid: Id, other: Id)
    requires Made(plan, specs, st, wid) && Grown(st, st', other) && wid != other
    ensures Made(plan, specs, st', wid) && st'.windows[wid] == st.windows[wid]
  {
  }

  lemma OneMore(def: Definition, st: State, st': State, sid: Id, wids: seq<Id>, n: nat, wid: Id)
    requires Consistent(st) && n < |def.windows| && MadeUpTo(def, st, sid, wids, n)
    requires Added(st, st', sid, if n == 0 then def.displayName else def.windows[n].name, def.windows[n], def.specs, wid)
    ensures MadeUpTo(def, st', sid, wids + [wid], n + 1)
  {
    hide Made, Grown, AtHome;
    MadeWindow(def.windows[n], def.specs, st', wid);
    forall i | 0 <= i < n
      ensures Made(def.windows[i], def.specs, st', wids[i]) && wids[i] in st.windows && wids[i] in st'.windows
              && st'.windows[wids[i]] == st.windows[wids[i]] && wids[i] < wid
    {
      MadeWindow(def.windows[i], def.specs, st, wids[i]);
      MadeStays(def.windows[i], def.specs, st, st', wids[i], wid);
    }
  }

  lemma MadeWindow(plan: WindowPlan, specs: Specs, st: State, wid: Id)
    requires Made(plan, specs, st, wid)
    ensures wid in st.windows && (Consistent(st) ==> wid < st.next)
  {
  }

  lemma FirstWindow(def: Definition, st: State, st': State, sid: Id, wid: Id)
    requires def.windows != [] && Added(st, st', sid, def.displayName, def.windows[0], def.specs, wid)
    requires sid !in st.sessions && st'.sessions == st.sessions[sid := Session(def.displayName, wid)]
    ensures FaithfulUpTo(def, st, st', sid, [wid], 1)
  {
    hide Made;
  }

  lemma NextWindow(def: Definition, st0: State, st: State, st': State, sid: Id, wids: seq<Id>, n: nat, wid: Id)
    requires Consistent(st) && n < |def.windows| && FaithfulUpTo(def, st0, st, sid, wids, n)
    requires Added(st, st', sid, def.windows[n].name, def.windows[n], def.specs, wid) && st'.sessions == st.sessions
    ensures FaithfulUpTo(def, st0, st', sid, wids + [wid], n + 1)
  {
    hide Made, Consistent, MadeUpTo;
    OneMore(def, st, st', sid, wids, n, wid);
    WindowsNamed(def, st, sid, wids, n);
    assert Grown(st, st', wid);
    assert forall w :: w in wids + [wid] <==> w in wids || w == wid;
  }

  /** The session is open on its first window already. */
  lemma OpensOnFirst(def: Definition, st0: State, st: State, sid: Id, wids: seq<Id>, n: nat)
    requires FaithfulUpTo(def, st0, st, sid, wids, n)
    ensures wids != [] && wids[0] in st.windows && st.windows[wids[0]].session == sid
    ensures sid in st.sessions && st.sessions[sid].activeWindow == wids[0]
  {
  }

  lemma WindowsNamed(def: Definition, st: State, sid: Id, wids: seq<Id>, n: nat)
    requires MadeUpTo(def, st, sid, wids, n)
    ensures |wids| == n && forall w :: w in wids ==> w in st.windows
  {
  }

  /** Opens a window of session `sid` and makes it what `plan` says. */
  method AddWindow(plan: WindowPlan, sid: Id, specs: Specs, b: MockBackend) returns (wid: Id, ok: bool)
    requires b.Valid() && ValidWindow(plan, specs) && sid in b.st.sessions
    modifies b
    ensures b.Valid() && (ok <==> !old(b.st.failNextSplit) || plan.layout.Leaf?)
    ensures ok ==> Added(old(b.st), b.st, sid, plan.name, plan, specs, wid)
                   && b.st.sessions == old(b.st.sessions) && b.st.failNextSplit == old(b.st.failNextSplit)
    ensures Preserves(old(b.st), b.st)
  {
    hide Consistent, Grown, Made, Preserves;
    ghost var before := b.st;
    var leftmost := LeftmostSlot(plan.layout);
    var first := specs[leftmost];
    NewWindowKeeps(b.st, sid, plan.name, first.shell, first.args);
    var window := b.NewWindow(sid, plan.name, first.shell, first.args);
    wid := window.value;
    ghost var mid := b.st;
    NextUnused(before);
    ok := RealizeWindow(plan, wid, specs, b);
    if ok {
      GrownTwice(before, mid, b.st, wid);
      GrownPreserves(before, b.st, wid);
    } else {
      GrownPreserves(before, mid, wid);
      PreservesSame(mid, b.st.next, b.st.failNextSplit);
      PreservesOn(before, mid, b.st);
    }
  }

  lemma NextUnused(st: State)
    requires Consistent(st)
    ensures forall k :: st.next <= k ==> k !in st.windows && k !in st.sessions && k !in st.panes
  {
  }

  /** Opens a session, whose first window is made what `plan` says. */
  method OpenSession(plan: WindowPlan, name: string, specs: Specs, b: MockBackend) returns (sid: Id, wid: Id, ok: bool)
    requires b.Valid() && ValidWindow(plan, specs)
    modifies b
    ensures b.Valid() && (ok <==> !old(b.st.failNextSplit) || plan.layout.Leaf?)
    ensures ok ==> Added(old(b.st), b.st, sid, name, plan, specs, wid)
                   && sid !in old(b.st.sessions) && b.st.sessions == old(b.st.sessions)[sid := Session(name, wid)]
                   && b.st.failNextSplit == old(b.st.failNextSplit)
    ensures Preserves(old(b.st), b.st)
  {
    hide Consistent, Grown, Made, Preserves;
    ghost var before := b.st;
    var leftmost := LeftmostSlot(plan.layout);
    var first := specs[leftmost];
    NewSessionKeeps(b.st, name, first.shell, first.args);
    sid := b.NewSession(name, first.shell, first.args);
    wid := b.st.sessions[sid].activeWindow;
    ghost var mid := b.st;
    NextUnused(before);
    ok := RealizeWindow(plan, wid, specs, b);
    if ok {
      GrownTwice(before, mid, b.st, wid);
      GrownPreserves(before, b.st, wid);
    } else {
      GrownPreserves(before, mid, wid);
      PreservesSame(mid, b.st.next, b.st.failNextSplit);
      PreservesOn(before, mid, b.st);
    }
  }

  /** Makes a live session of a definition. */
  method Instantiate(def: Definition, b: MockBackend) returns (outcome: Outcome, ghost wids: seq<Id>)
    requires b.Valid()
    modifies b
    ensures b.Valid()
    // An invalid definition is refused before anything is spawned.
    ensures outcome.Invalid? <==> !ValidDefinition(def)
    ensures outcome.Invalid? ==> b.st == old(b.st)
    // A valid one fails only if the backend does.
    ensures outcome.Control? <==> ValidDefinition(def) && old(b.st.failNextSplit) && exists k :: 0 <= k < |def.windows| && IsSplitWindow(def, k)
    ensures outcome.Live? ==> Faithful(def, old(b.st), b.st, outcome.session, wids)
    // However it ends, nothing that was there is touched.
    ensures Preserves(old(b.st), b.st)
  {
    hide Consistent, Grown, Made, ValidWindow, Added, FaithfulUpTo, Preserves;
    PreservesSame(b.st, b.st.next, b.st.failNextSplit);
    wids := [];
    ghost var before := b.st;
    var error := Validate(def);
    if error.Some? {
      return Invalid(error.value), [];
    }
    var sid, firstWindow, ok := OpenSession(def.windows[0], def.displayName, def.specs, b);
    if !ok {
      assert IsSplitWindow(def, 0);
      return Control, [];
    }
    wids := [firstWindow];
    FirstWindow(def, before, b.st, sid, firstWindow);
    for i := 1 to |def.windows|
      invariant b.Valid() && b.st.failNextSplit == before.failNextSplit
      invariant before.failNextSplit ==> forall k :: 0 <= k < i ==> !IsSplitWindow(def, k)
      invariant Preserves(before, b.st) && FaithfulUpTo(def, before, b.st, sid, wids, i) && wids != [] && wids[0] == firstWindow
    {
      ghost var st := b.st;
      OpensOnFirst(def, before, st, sid, wids, i);
      var wid;
      wid, ok := AddWindow(def.windows[i], sid, def.specs, b);
      PreservesOn(before, st, b.st);
      if !ok {
        assert IsSplitWindow(def, i);
        return Control, wids;
      }
      NextWindow(def, before, st, b.st, sid, wids, i, wid);
      wids := wids + [wid];
    }
    ghost var done := b.st;
    OpensOnFirst(def, before, done, sid, wids, |def.windows|);
    ok := b.SelectWindow(firstWindow);
    assert b.st.sessions == done.sessions;
    assert b.st == done;
    return Live(sid), wids;
  }
}
