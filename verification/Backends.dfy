/**
 The backend the plan interpreter drives, as the recording double keeps it: windows
 and panes by id, an id counter, and a one-shot failure of the next split.
 */
module Backends {
  import opened Basics
  import opened Geometry
  import opened Layout
  import opened Plans

  datatype Window = Window(session: Id, name: string, layout: LayoutNode, active: Id)

  datatype Pane = Pane(session: Id, shell: string, args: seq<string>)

  datatype Session = Session(name: string, activeWindow: Id)

  datatype State = State(sessions: map<Id, Session>, windows: map<Id, Window>, panes: map<Id, Pane>,
                         next: Id, failNextSplit: bool)

  /** Ids from `next` on are unused. */
  ghost predicate IdsBelow(st: State) {
    && (forall s :: s in st.sessions ==> s < st.next)
    && (forall w :: w in st.windows ==> w < st.next && st.windows[w].session in st.sessions)
    && (forall p :: p in st.panes ==> p < st.next)
  }

  predicate Shows(st: State, w: Id, p: Id) {
    w in st.windows && p in Panes(st.windows[w].layout)
  }

  /** Every pane shown exists, in its window's session, and is shown by no other window. */
  ghost predicate AtHome(st: State) {
    && (forall w, p :: Shows(st, w, p) ==> p in st.panes && st.panes[p].session == st.windows[w].session)
    && (forall v, w, p :: Shows(st, v, p) && Shows(st, w, p) ==> v == w)
  }

  ghost predicate Consistent(st: State) {
    IdsBelow(st) && AtHome(st)
  }

  /** Only window `wid` differs, by fresh panes; nothing else is lost or changed. */
  ghost predicate Grown(st: State, st': State, wid: Id) {
    && st.next <= st'.next && wid < st'.next
    && st'.windows.Keys == st.windows.Keys + {wid}
    && (forall w :: w in st.windows && w != wid ==> st'.windows[w] == st.windows[w])
    && (wid in st.windows ==> st'.windows[wid].session == st.windows[wid].session && st'.windows[wid].name == st.windows[wid].name)
    && (forall p :: p in st.panes ==> p in st'.panes && st'.panes[p] == st.panes[p])
    && (forall p :: p in st'.panes && p !in st.panes ==> st.next <= p < st'.next)
  }

  lemma GrownKeeps(st: State, st': State, wid: Id)
    requires Consistent(st) && Grown(st, st', wid)
    requires forall s :: s in st.sessions ==> s in st'.sessions
    requires forall s :: s in st'.sessions ==> s < st'.next
    requires st'.windows[wid].session in st'.sessions
    requires forall p :: Shows(st', wid, p) ==>
               Shows(st, wid, p) || (st.next <= p && p in st'.panes && st'.panes[p].session == st'.windows[wid].session)
    ensures Consistent(st')
  {
    assert IdsBelow(st');
    forall w, p | Shows(st', w, p) ensures p in st'.panes && st'.panes[p].session == st'.windows[w].session {
      if w != wid {
        assert Shows(st, w, p);
      }
    }
    forall v, w, p | Shows(st', v, p) && Shows(st', w, p) ensures v == w {
      if v != wid {
        assert Shows(st, v, p);
      }
      if w != wid {
        assert Shows(st, w, p);
      }
    }
  }

  function AfterNewSession(st: State, name: string, shell: string, args: seq<string>): State {
    var sid := st.next;
    st.(sessions := st.sessions[sid := Session(name, sid + 1)],
        windows := st.windows[sid + 1 := Window(sid, name, LayoutNode.Leaf(sid + 2), sid + 2)],
        panes := st.panes[sid + 2 := Pane(sid, shell, args)],
        next := sid + 3)
  }

  function AfterNewWindow(st: State, session: Id, name: string, shell: string, args: seq<string>): State {
    var wid := st.next;
    st.(windows := st.windows[wid := Window(session, name, LayoutNode.Leaf(wid + 1), wid + 1)],
        panes := st.panes[wid + 1 := Pane(session, shell, args)],
        next := wid + 2)
  }

  function AfterSplit(st: State, wid: Id, origin: Id, direction: Direction, shell: string, args: seq<string>): State
    requires wid in st.windows
  {
    var w := st.windows[wid];
    var layout := Replaced(w.layout, origin, SplitOf(origin, st.next, direction, BALANCED));
    st.(windows := st.windows[wid := w.(layout := layout, active := st.next)],
        panes := st.panes[st.next := Pane(w.session, shell, args)],
        next := st.next + 1)
  }

  function AfterSelect(st: State, id: Id): State
    requires id in st.panes
  {
    st.(windows := map w | w in st.windows ::
          if st.windows[w].session == st.panes[id].session && id in Panes(st.windows[w].layout) then st.windows[w].(active := id)
          else st.windows[w])
  }

  lemma NewSessionKeeps(st: State, name: string, shell: string, args: seq<string>)
    requires Consistent(st)
    ensures var st' := AfterNewSession(st, name, shell, args); Consistent(st') && Grown(st, st', st.next + 1)
  {
    GrownKeeps(st, AfterNewSession(st, name, shell, args), st.next + 1);
  }

  lemma NewWindowKeeps(st: State, session: Id, name: string, shell: string, args: seq<string>)
    requires Consistent(st) && session in st.sessions
    ensures var st' := AfterNewWindow(st, session, name, shell, args); Consistent(st') && Grown(st, st', st.next)
  {
    GrownKeeps(st, AfterNewWindow(st, session, name, shell, args), st.next);
  }

  lemma PairPanes(origin: Id, newPane: Id, direction: Direction)
    ensures var pair := SplitOf(origin, newPane, direction, BALANCED);
            ContainsPane(pair, origin) && ContainsPane(pair, newPane)
            && forall p :: ContainsPane(pair, p) ==> p == origin || p == newPane
  {
  }

  lemma PairOrder(origin: Id, newPane: Id, direction: Direction)
    ensures Panes(SplitOf(origin, newPane, direction, BALANCED)) == if direction.TowardB() then [origin, newPane] else [newPane, origin]
  {
  }

  lemma SplitKeeps(st: State, wid: Id, origin: Id, direction: Direction, shell: string, args: seq<string>)
    requires Consistent(st) && Shows(st, wid, origin)
    ensures var st' := AfterSplit(st, wid, origin, direction, shell, args);
            && Consistent(st') && Grown(st, st', wid) && Shows(st', wid, origin) && Shows(st', wid, st.next)
            // The new pane runs what it was asked to, is beside the origin, and has the focus.
            && st'.panes == st.panes[st.next := Pane(st.windows[wid].session, shell, args)] && st'.next == st.next + 1
            && st'.windows[wid].active == st.next
            && Panes(st'.windows[wid].layout)
               == Spliced(Panes(st.windows[wid].layout), origin, if direction.TowardB() then [origin, st.next] else [st.next, origin])
  {
    hide Replaced, SplitOf, Panes, ContainsPane, AtHome, Spliced;
    PairOrder(origin, st.next, direction);
    ReplacedPanes(st.windows[wid].layout, origin, SplitOf(origin, st.next, direction, BALANCED));
    PairPanes(origin, st.next, direction);
    var st' := AfterSplit(st, wid, origin, direction, shell, args);
    var layout := st.windows[wid].layout;
    ReplacedContains(layout, origin, SplitOf(origin, st.next, direction, BALANCED));
    forall p | Shows(st', wid, p) ensures Shows(st, wid, p) || p == st.next {
      assert ContainsPane(st'.windows[wid].layout, p);
      assert ContainsPane(layout, origin);
    }
    assert ContainsPane(st'.windows[wid].layout, origin) && ContainsPane(st'.windows[wid].layout, st.next);
    GrownKeeps(st, st', wid);
  }

  lemma OneHome(st: State, wid: Id, p: Id)
    requires Consistent(st) && Shows(st, wid, p)
    ensures p in st.panes && st.panes[p].session == st.windows[wid].session && p < st.next && wid < st.next
    ensures forall w :: Shows(st, w, p) ==> w == wid
  {
  }

  /** Ids given up unused and a spent failure harm nothing. */
  lemma CountersKeep(st: State, next: Id, fail: bool)
    requires Consistent(st) && st.next <= next
    ensures Consistent(st.(next := next, failNextSplit := fail))
  {
    assert forall w, p :: Shows(st.(next := next, failNextSplit := fail), w, p) <==> Shows(st, w, p);
  }

  lemma SelectKeeps(st: State, id: Id)
    requires Consistent(st) && id in st.panes
    ensures Consistent(AfterSelect(st, id))
  {
    var st' := AfterSelect(st, id);
    forall w, p | Shows(st', w, p) ensures Shows(st, w, p) {
    }
  }

  class MockBackend {
    var st: State

    ghost predicate Valid()
      reads this
    {
      Consistent(st)
    }

    constructor ()
      ensures Valid() && st == State(map[], map[], map[], 1, false)
    {
      st := State(map[], map[], map[], 1, false);
    }

    /** A session with one window of one pane. */
    method NewSession(name: string, shell: string, args: seq<string>) returns (sid: Id)
      requires Valid()
      modifies this
      ensures Valid() && sid == old(st.next) && st == AfterNewSession(old(st), name, shell, args)
    {
      hide Consistent, Grown;
      NewSessionKeeps(st, name, shell, args);
      sid := st.next;
      var wid, pid := st.next + 1, st.next + 2;
      st := st.(next := st.next + 3);
      st := st.(sessions := st.sessions[sid := Session(name, wid)]);
      st := st.(windows := st.windows[wid := Window(sid, name, LayoutNode.Leaf(pid), pid)]);
      st := st.(panes := st.panes[pid := Pane(sid, shell, args)]);
    }

    method NewWindow(session: Id, name: string, shell: string, args: seq<string>) returns (r: Option<Id>)
      requires Valid()
      modifies this
      ensures Valid() && r == if session in old(st.sessions) then Some(old(st.next)) else None
      ensures st == if r.Some? then AfterNewWindow(old(st), session, name, shell, args) else old(st)
    {
      hide Consistent, Grown;
      if session !in st.sessions {
        return None;
      }
      NewWindowKeeps(st, session, name, shell, args);
      var wid, pid := st.next, st.next + 1;
      st := st.(next := st.next + 2);
      st := st.(windows := st.windows[wid := Window(session, name, LayoutNode.Leaf(pid), pid)]);
      st := st.(panes := st.panes[pid := Pane(session, shell, args)]);
      return Some(wid);
    }

    /** Splits the leaf of `origin` in the window that shows it. */
    method SplitPane(origin: Id, direction: Direction, shell: string, args: seq<string>) returns (r: Option<Id>)
      requires Valid()
      modifies this
      ensures Valid() && (r.Some? <==> !old(st.failNextSplit) && exists w :: Shows(old(st), w, origin))
      ensures r == None ==> st == old(st).(failNextSplit := false, next := st.next) && old(st.next) <= st.next
      ensures r.Some? ==> r.value == old(st.next)
      ensures r.Some? ==> forall w :: Shows(old(st), w, origin) ==> st == AfterSplit(old(st), w, origin, direction, shell, args)
    {
      hide Consistent, Replaced, Panes, SplitOf;
      if st.failNextSplit {
        CountersKeep(st, st.next, false);
        st := st.(failNextSplit := false);
        return None;
      }
      var newPid := st.next;
      if wid :| wid in st.windows && origin in Panes(st.windows[wid].layout) {
        OneHome(st, wid, origin);
        SplitKeeps(st, wid, origin, direction, shell, args);
        st := st.(next := st.next + 1);
        var w := st.windows[wid];
        var layout, found := WindowLayout.SplitIn(w.layout, origin, newPid, direction, BALANCED);
        if !found {
          return None;
        }
        st := st.(windows := st.windows[wid := w.(layout := layout, active := newPid)]);
        st := st.(panes := st.panes[newPid := Pane(w.session, shell, args)]);
        return Some(newPid);
      }
      CountersKeep(st, st.next + 1, st.failNextSplit);
      st := st.(next := st.next + 1);
      return None;
    }

    /** Focuses a pane in the window of its session that shows it. */
    method SelectPane(id: Id) returns (ok: bool)
      requires Valid()
      modifies this
      ensures Valid() && ok == (id in old(st.panes)) && st == if ok then AfterSelect(old(st), id) else old(st)
    {
      if id !in st.panes {
        return false;
      }
      SelectKeeps(st, id);
      st := AfterSelect(st, id);
      return true;
    }

    method SelectWindow(id: Id) returns (ok: bool)
      requires Valid()
      modifies this
      ensures Valid() && ok == (id in old(st.windows))
      ensures st == if !ok then old(st) else
                var sid := old(st.windows)[id].session;
                old(st).(sessions := old(st.sessions)[sid := old(st.sessions)[sid].(activeWindow := id)])
    {
      if id !in st.windows {
        return false;
      }
      var sid := st.windows[id].session;
      st := st.(sessions := st.sessions[sid := st.sessions[sid].(activeWindow := id)]);
      assert forall w, p :: Shows(st, w, p) <==> Shows(old(st), w, p);
      return true;
    }
  }
}
