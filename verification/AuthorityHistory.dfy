/**
 What the runs of AuthorityRuns.dfy say about how a state came to be: why a connection is
 attached no more, why a raised lease was refused, and when a daemon loses to itself.
 */
module AuthorityHistory {
  import opened Basics
  import opened Holders
  import opened Leases
  import opened AuthorityRuns

  lemma InvAt(run: seq<World>, n: nat)
    requires Run(run) && n < |run|
    ensures Inv(run[n])
  {
    hide Inv, Init, Steps;
    RunPrefix(run, n);
    RunKeeps(run[..n + 1]);
  }

  lemma StepAt(run: seq<World>, n: nat) returns (a: Action)
    requires Run(run) && n < |run| - 1
    ensures Enabled(run[n], a) && run[n + 1] == Next(run[n], a)
  {
    hide Init, Enabled, Next;
    assert Steps(run[n], run[n + 1]);
    a :| Enabled(run[n], a) && run[n + 1] == Next(run[n], a);
  }

  // ----- why a connection is attached no more

  ghost predicate AttachedAt(w: World, p: nat, c: nat) {
    p in w.panes && w.panes[p].AttachedTo(c)
  }

  /** The steps that end the attachment of connection `c` to pane `p`. */
  ghost predicate Detaches(w: World, a: Action, p: nat, c: nat)
    requires Enabled(w, a) && p in w.panes && w.panes[p].attached.Some?
  {
    var declared := w.panes[p].attached.value.incarnation;
    match a
    // Its own end, a write to it that failed, the death of the holder,
    case Teardown(l) => l == c
    case RetireFailed(q) => q == p
    case Ingest(q, _, _, _, _, sendFails) => q == p && sendFails
    case Revive(q, _, _) => q == p
    // or an attach by another connection, which declared no less if `c` declared at all.
    case Serve(l, _, cut, _) =>
      && w.conns[l].pane == p && l != c && cut.None? && w.panes[p].Admits(w.conns[l].declared).Admit?
      && (declared.Some? ==> w.conns[l].declared.Some? && declared.value <= w.conns[l].declared.value)
    case _ => false
  }

  /** A step detaches a connection iff it is one of those. */
  lemma StepDetaches(w: World, a: Action, p: nat, c: nat)
    requires Inv(w) && Enabled(w, a) && AttachedAt(w, p, c)
    ensures !AttachedAt(Next(w, a), p, c) <==> Detaches(w, a, p, c)
  {
    hide Inv, Enabled, CourtNext, ConnsNext, PaneNext, Detaches, AttachedOk;
    AttachedIsOk(w, p);
    if a.Serve? {
      ServeDetaches(w, a, p, c);
    } else {
      OtherDetaches(w, a, p, c);
    }
  }

  lemma AttachedIsOk(w: World, p: nat)
    requires Inv(w) && p in w.panes
    ensures AttachedOk(w.panes[p], p, w.conns)
  {
    hide NoticesOk, IntactOk, WritesOk;
  }

  lemma ServeDetaches(w: World, a: Action, p: nat, c: nat)
    requires Enabled(w, a) && a.Serve? && AttachedAt(w, p, c) && AttachedOk(w.panes[p], p, w.conns)
    ensures !PaneNext(w, a, p).AttachedTo(c) <==> Detaches(w, a, p, c)
  {
    hide Pane.Attach;
    if w.conns[a.link].pane == p {
      AttachReplaces(w.panes[p], a.link, w.conns[a.link].declared, a.replayed, a.cut, a.tellFails);
    }
  }

  lemma OtherDetaches(w: World, a: Action, p: nat, c: nat)
    requires Enabled(w, a) && !a.Serve? && AttachedAt(w, p, c) && AttachedOk(w.panes[p], p, w.conns)
    ensures !PaneNext(w, a, p).AttachedTo(c) <==> Detaches(w, a, p, c)
  {
    hide Pane.Attach, Channel.Send;
  }

  /** Whom an attach leaves attached. */
  lemma AttachReplaces(p: Pane, l: nat, declared: Option<nat>, replayed: seq<Frame>, cut: Option<nat>, tellFails: bool)
    requires l in p.links && !p.AttachedTo(l) && (p.attached.Some? ==> p.attached.value.id in p.links)
    ensures var p' := p.Attach(l, Own, declared, replayed, cut, tellFails).0;
            p'.attached == if p.Admits(declared).Admit? && cut.None? then Some(Attached(l, declared)) else p.attached
  {
  }

  /** `channel` had brought `before` and ends, with who displaced it if that daemon is newer
      than `was` and the news gets through. */
  predicate EndsWithNews(channel: Channel, before: seq<Frame>, was: nat, now: Option<nat>, tellFails: bool) {
    channel == Channel(before + (if now.Some? && was < now.value && !tellFails then [Displaced(now.value)] else []), false)
  }

  ghost predicate LiveDeclared(w: World, p: nat, c: nat, was: nat) {
    && p in w.panes && w.panes[p].attached == Some(Attached(c, Some(was)))
    && c in w.panes[p].links && w.panes[p].links[c].open
  }

  /** A declared connection that another one's attach detaches reads to its stream's end, and
      that is the newcomer's incarnation if that is newer and the news gets through. */
  lemma DisplacedIsTold(w: World, a: Action, p: nat, c: nat, was: nat)
    requires Inv(w) && Enabled(w, a) && a.Serve? && LiveDeclared(w, p, c, was) && Detaches(w, a, p, c)
    ensures c in PaneNext(w, a, p).links
    ensures EndsWithNews(PaneNext(w, a, p).links[c], w.panes[p].links[c].frames, was, w.conns[a.link].declared, a.tellFails)
  {
    hide Inv, Pane.Attach;
    AttachedIsOk(w, p);
    var conn := w.conns[a.link];
    WhatOthersRead(w.panes[p], a.link, conn.declared, a.replayed, a.cut, a.tellFails, c);
    WhoGetsThePane(w.panes[p], a.link, conn.declared, a.replayed, a.cut, a.tellFails);
  }

  ghost predicate DetachedBetween(w: World, w': World, p: nat, c: nat) {
    AttachedAt(w, p, c) && exists a :: Enabled(w, a) && w' == Next(w, a) && Detaches(w, a, p, c)
  }

  /** A connection attached once and no longer was detached by such a step in between: no
      stale connection's end, and no attach of an older daemon, ever takes a pane away. */
  lemma {:induction false} WhyDetached(run: seq<World>, i: nat, n: nat, p: nat, c: nat)
    requires Run(run) && i <= n < |run| && AttachedAt(run[i], p, c) && !AttachedAt(run[n], p, c)
    ensures exists k :: i <= k < n && DetachedBetween(run[k], run[k + 1], p, c)
  {
    hide Run, Inv, Next, Enabled, AttachedAt, DetachedBetween;
    if AttachedAt(run[n - 1], p, c) {
      InvAt(run, n - 1);
      var a := StepAt(run, n - 1);
      DetachedNow(run[n - 1], a, p, c);
    } else {
      WhyDetached(run, i, n - 1, p, c);
    }
  }

  lemma DetachedNow(w: World, a: Action, p: nat, c: nat)
    requires Inv(w) && Enabled(w, a) && AttachedAt(w, p, c) && !AttachedAt(Next(w, a), p, c)
    ensures DetachedBetween(w, Next(w, a), p, c)
  {
    StepDetaches(w, a, p, c);
  }

  // ----- why a raised lease is refused

  ghost predicate Above(w: World, p: nat, n: nat) {
    p in w.panes && w.panes[p].authority.Some? && n < w.panes[p].authority.value
  }

  /** A daemon of incarnation above `n` was admitted to pane `p`, whose authority it became. */
  ghost predicate AdmitsAbove(w: World, w': World, p: nat, n: nat) {
    exists c, replayed, cut, tellFails :: AdmitsAboveBy(w, w', p, n, c, Serve(c, replayed, cut, tellFails))
  }

  ghost predicate AdmitsAboveBy(w: World, w': World, p: nat, n: nat, c: nat, a: Action) {
    && Enabled(w, a) && a.Serve? && a.link == c && w' == Next(w, a) && p in w.panes
    && w.conns[c].pane == p && w.conns[c].declared.Some? && n < w.conns[c].declared.value
    && w.panes[p].Admits(w.conns[c].declared).Admit? && w'.panes[p].authority == w.conns[c].declared
  }

  lemma AttachRaises(p: Pane, l: nat, declared: Option<nat>, replayed: seq<Frame>, cut: Option<nat>, tellFails: bool, n: nat)
    requires l in p.links && (p.attached.Some? ==> p.attached.value.id in p.links)
    ensures var p' := p.Attach(l, Own, declared, replayed, cut, tellFails).0;
            !(p.authority.Some? && n < p.authority.value) && p'.authority.Some? && n < p'.authority.value ==>
              p'.authority == declared && p.Admits(declared).Admit?
  {
  }

  lemma AuthorityRises(w: World, a: Action, p: nat, n: nat)
    requires Enabled(w, a) && p in w.panes && !Above(w, p, n) && Above(Next(w, a), p, n)
    ensures AdmitsAbove(w, Next(w, a), p, n)
  {
    hide CourtNext, ConnsNext, Pane.Attach, Pane.Ingest;
    if a.Serve? && w.conns[a.link].pane == p {
      AttachRaises(w.panes[p], a.link, w.conns[a.link].declared, a.replayed, a.cut, a.tellFails, n);
      assert a == Serve(a.link, a.replayed, a.cut, a.tellFails);
      assert AdmitsAboveBy(w, Next(w, a), p, n, a.link, Serve(a.link, a.replayed, a.cut, a.tellFails));
    } else {
      AuthorityOnlyByServe(w, a, p);
    }
  }

  /** An authority that came to be above `n` was brought by a daemon above `n`. */
  lemma {:induction false} RoseBy(run: seq<World>, i: nat, m: nat, p: nat, n: nat)
    requires Run(run) && i <= m < |run| && p in run[i].panes && !Above(run[i], p, n) && Above(run[m], p, n)
    ensures exists k :: i <= k < m && AdmitsAbove(run[k], run[k + 1], p, n)
  {
    hide Run, Next, Enabled, Above, AdmitsAbove;
    if Above(run[m - 1], p, n) {
      RoseBy(run, i, m - 1, p, n);
    } else {
      SamePanes(run, i, m - 1);
      var a := StepAt(run, m - 1);
      AuthorityRises(run[m - 1], a, p, n);
    }
  }

  /** No pane comes or goes. */
  lemma {:induction false} SamePanes(run: seq<World>, i: nat, m: nat)
    requires Run(run) && i <= m < |run|
    ensures run[i].panes.Keys == run[m].panes.Keys
  {
    hide Run, Enabled, PaneNext, CourtNext, ConnsNext;
    if i < m {
      SamePanes(run, i, m - 1);
      var a := StepAt(run, m - 1);
    }
  }

  /** Serving an attach of the pane put the notice `Displaced(seen)` on connection `c`'s
      channel, where there was none, and left the pane with that authority. */
  ghost predicate NoticeSent(w: World, w': World, p: nat, c: nat, seen: nat) {
    && !NoticeWaits(w, p, c, seen) && NoticeWaits(w', p, c, seen)
    && w'.panes[p].authority == Some(seen)
    && exists a :: Enabled(w, a) && w' == Next(w, a) && ServesPane(w, a, p)
  }

  ghost predicate ServesPane(w: World, a: Action, p: nat)
    requires Enabled(w, a)
  {
    a.Serve? && w.conns[a.link].pane == p
  }

  lemma NoticeStep(w: World, a: Action, p: nat, c: nat, seen: nat)
    requires Inv(w) && Enabled(w, a) && p in w.panes && c in Next(w, a).panes[p].links
    requires Displaced(seen) in Next(w, a).panes[p].links[c].frames
    ensures (c in w.panes[p].links && Displaced(seen) in w.panes[p].links[c].frames) || NoticeSent(w, Next(w, a), p, c, seen)
  {
    assert AttachedOk(w.panes[p], p, w.conns);
    hide PanesOk, IntactOk, WritesOk, CourtNext, ConnsNext, Pane.Attach, PaneNext;
    var frames := PaneNext(w, a, p).links[c].frames;
    var i :| 0 <= i < |frames| && frames[i] == Displaced(seen);
    if a.Serve? && w.conns[a.link].pane == p {
      ServedPane(w, a, p);
      AttachFrames(w.panes[p], a.link, w.conns[a.link].declared, a.replayed, a.cut, a.tellFails, c);
    } else {
      NoNewNotice(w, a, p, c);
    }
  }

  lemma ServedPane(w: World, a: Action, p: nat)
    requires Inv(w) && Enabled(w, a) && p in w.panes && a.Serve? && w.conns[a.link].pane == p
    ensures PaneNext(w, a, p) == w.panes[p].Attach(a.link, Own, w.conns[a.link].declared, a.replayed, a.cut, a.tellFails).0
    ensures PaneNext(w, a, p).links.Keys == w.panes[p].links.Keys && !w.panes[p].AttachedTo(a.link)
  {
    assert AttachedOk(w.panes[p], p, w.conns);
    AttachKeepsAttached(w.panes[p], p, w.conns, a.link, a.replayed, a.cut, a.tellFails);
  }

  ghost predicate NoticeWaits(w: World, p: nat, c: nat, seen: nat) {
    p in w.panes && c in w.panes[p].links && Displaced(seen) in w.panes[p].links[c].frames
  }

  /** A notice on its way was sent by some step, which left the authority it names. */
  lemma {:induction false} NoticeWasSent(run: seq<World>, m: nat, p: nat, c: nat, seen: nat)
    requires Run(run) && m < |run| && NoticeWaits(run[m], p, c, seen)
    ensures exists s :: 0 <= s < m && NoticeSent(run[s], run[s + 1], p, c, seen)
  {
    hide Run, Inv, Next, Enabled, NoticeSent, NoticeWaits;
    if m == 0 {
      NoneAtFirst(run, p, c, seen);
    } else {
      InvAt(run, m - 1);
      var a := StepAt(run, m - 1);
      WaitsOrSent(run[m - 1], a, p, c, seen);
      if !NoticeSent(run[m - 1], run[m], p, c, seen) {
        NoticeWasSent(run, m - 1, p, c, seen);
      }
    }
  }

  lemma NoneAtFirst(run: seq<World>, p: nat, c: nat, seen: nat)
    requires Run(run)
    ensures !NoticeWaits(run[0], p, c, seen)
  {
  }

  lemma WaitsOrSent(w: World, a: Action, p: nat, c: nat, seen: nat)
    requires Inv(w) && Enabled(w, a) && NoticeWaits(Next(w, a), p, c, seen)
    ensures NoticeWaits(w, p, c, seen) || NoticeSent(w, Next(w, a), p, c, seen)
  {
    hide Inv, PaneNext, CourtNext, ConnsNext;
    NoticeStep(w, a, p, c, seen);
  }

  /** The daemon of connection `c` to pane `p` heeds `Displaced(seen)` and writes `n`. */
  ghost predicate RaisesTo(w: World, p: nat, c: nat, seen: nat, n: nat) {
    && c in w.conns && w.conns[c].pane == p && Enabled(w, Heed(c, false, false)) && Contests(w, c)
    && LinkOf(w, c).frames[0] == Displaced(seen)
    && RaiseOutcome(w.doc, w.daemons[w.conns[c].daemon].incarnation, seen) == To(n)
  }

  /** A connection to pane `p` waits to be served, declaring `m`. */
  ghost predicate Retries(w: World, p: nat, m: nat) {
    Wired(w) && exists c :: c in w.conns && w.conns[c] == Conn(w.conns[c].daemon, p, Some(m), false)
  }

  /** After step `s` and before now a daemon above `m` was admitted to pane `p`. */
  ghost predicate NewerCame(run: seq<World>, s: int, p: nat, m: nat) {
    exists k :: 0 <= k && s < k < |run| - 1 && AdmitsAbove(run[k], run[k + 1], p, m)
  }

  /** The retry of a raised lease is refused only if a still newer daemon was admitted since
      the notice that made it raise was sent - and, while that holder lives, iff. */
  lemma RefusedIffNewerCame(run: seq<World>, i: nat, p: nat, c: nat, seen: nat, n: nat, m: nat) returns (s: nat)
    requires Run(run) && i < |run| && RaisesTo(run[i], p, c, seen, n) && n <= m && Retries(run[|run| - 1], p, m)
    ensures s < i && NoticeSent(run[s], run[s + 1], p, c, seen) && p in run[|run| - 1].panes
    ensures run[|run| - 1].panes[p].Admits(Some(m)).Refuse? ==> NewerCame(run, s, p, m)
    ensures Deaths(run[s + 1], p) == Deaths(run[|run| - 1], p) ==>
              (run[|run| - 1].panes[p].Admits(Some(m)).Refuse? <==> NewerCame(run, s, p, m))
  {
    hide *;
    RetryHasPane(run[|run| - 1], p, m);
    s := RaiseWasAsked(run, i, p, c, seen, n);
    SentLeaves(run[s], run[s + 1], p, c, seen, m);
    AboveIffNewerCame(run, s, p, m);
    RefusedBelow(run[|run| - 1], p, m);
  }

  lemma RaiseWasAsked(run: seq<World>, i: nat, p: nat, c: nat, seen: nat, n: nat) returns (s: nat)
    requires Run(run) && i < |run| && RaisesTo(run[i], p, c, seen, n)
    ensures s < i && NoticeSent(run[s], run[s + 1], p, c, seen) && seen < n
  {
    hide *;
    RaiseWaited(run[i], p, c, seen, n);
    NoticeWasSent(run, i, p, c, seen);
    s :| 0 <= s < i && NoticeSent(run[s], run[s + 1], p, c, seen);
  }

  lemma RetryHasPane(w: World, p: nat, m: nat)
    requires Retries(w, p, m)
    ensures p in w.panes
  {
  }

  lemma RefusedBelow(w: World, p: nat, m: nat)
    requires p in w.panes
    ensures w.panes[p].Admits(Some(m)).Refuse? <==> Above(w, p, m)
  {
  }

  lemma AboveIffNewerCame(run: seq<World>, s: nat, p: nat, m: nat)
    requires Run(run) && s + 1 < |run| && p in run[s + 1].panes && !Above(run[s + 1], p, m)
    ensures Above(run[|run| - 1], p, m) ==> NewerCame(run, s, p, m)
    ensures Deaths(run[s + 1], p) == Deaths(run[|run| - 1], p) ==> (Above(run[|run| - 1], p, m) <==> NewerCame(run, s, p, m))
  {
    hide *;
    if Above(run[|run| - 1], p, m) {
      AboveThenNewerCame(run, s, p, m);
    }
    if NewerCame(run, s, p, m) && Deaths(run[s + 1], p) == Deaths(run[|run| - 1], p) {
      NewerCameThenAbove(run, s, p, m);
    }
  }

  lemma AboveThenNewerCame(run: seq<World>, s: nat, p: nat, m: nat)
    requires Run(run) && s + 1 < |run| && p in run[s + 1].panes && !Above(run[s + 1], p, m) && Above(run[|run| - 1], p, m)
    ensures NewerCame(run, s, p, m)
  {
    hide Run, AdmitsAbove, Above;
    RoseBy(run, s + 1, |run| - 1, p, m);
  }

  lemma NewerCameThenAbove(run: seq<World>, s: nat, p: nat, m: nat)
    requires Run(run) && s + 1 < |run| && p in run[s + 1].panes && NewerCame(run, s, p, m)
    requires Deaths(run[s + 1], p) == Deaths(run[|run| - 1], p)
    ensures Above(run[|run| - 1], p, m)
  {
    hide Run, AdmitsAbove, Deaths, Above, Enabled, Next;
    var k :| 0 <= k && s < k < |run| - 1 && AdmitsAbove(run[k], run[k + 1], p, m);
    NewerStays(run, s + 1, k, p, m);
  }

  lemma RaiseWaited(w: World, p: nat, c: nat, seen: nat, n: nat)
    requires RaisesTo(w, p, c, seen, n)
    ensures NoticeWaits(w, p, c, seen) && seen < n
  {
  }

  lemma SentLeaves(w: World, w': World, p: nat, c: nat, seen: nat, m: nat)
    requires NoticeSent(w, w', p, c, seen) && seen < m
    ensures p in w'.panes && !Above(w', p, m)
  {
  }

  /** While the holder lives, an authority above `m` stays above it. */
  lemma NewerStays(run: seq<World>, i: nat, k: nat, p: nat, m: nat)
    requires Run(run) && i <= k < |run| - 1 && p in run[i].panes && AdmitsAbove(run[k], run[k + 1], p, m)
    requires Deaths(run[i], p) == Deaths(run[|run| - 1], p)
    ensures Above(run[|run| - 1], p, m)
  {
    hide Run, AdmitsAbove, Deaths;
    SamePanes(run, i, k + 1);
    AdmittedIsAbove(run[k], run[k + 1], p, m);
    RunsOnward(run, k + 1);
    RunPrefix(run, k + 1);
    RunsOnward(run[..k + 2], i);
  }

  lemma AdmittedIsAbove(w: World, w': World, p: nat, m: nat)
    requires AdmitsAbove(w, w', p, m)
    ensures p in w'.panes ==> Above(w', p, m)
  {
    hide Next, Enabled;
    var c, replayed, cut, tellFails :| AdmitsAboveBy(w, w', p, m, c, Serve(c, replayed, cut, tellFails));
  }

  // ----- when a daemon loses to itself

  /** The step takes daemon `d`'s authority because of a document that `d` wrote itself. */
  ghost predicate LosesToOwnRaise(w: World, a: Action, d: nat)
    requires Enabled(w, a) && d in w.daemons
  {
    && !w.daemons[d].lost && d in Next(w, a).daemons && Next(w, a).daemons[d].lost
    && LossOf(w, a, d).Some? && LossOf(w, a, d).value.ByDocument? && w.writer == Some(d)
  }

  /** A daemon loses to its own raise iff it checks its lease between the two writes of
      that raise, the document still there; and in a run that never lost the document
      there is no such moment. */
  lemma LosesToItselfIff(run: seq<World>, a: Action, d: nat)
    requires Run(run) && Enabled(run[|run| - 1], a) && d in run[|run| - 1].daemons
    ensures var w := run[|run| - 1];
            && (LosesToOwnRaise(w, a, d) <==> a == Check(d) && !w.daemons[d].lost && w.daemons[d].raising.Some? && w.doc.Some?)
            && (w.intact ==> w.daemons[d].raising == None && !LosesToOwnRaise(w, a, d))
  {
    hide Next, PanesOk;
    RunKeeps(run);
    LossesAreThose(run[|run| - 1], a, d);
  }

  /** The losses `LossOf` names are all there are. */
  lemma LossesAreThose(w: World, a: Action, d: nat)
    requires Enabled(w, a) && d in w.daemons
    ensures d in Next(w, a).daemons && (Next(w, a).daemons[d].lost <==> w.daemons[d].lost || LossOf(w, a, d).Some?)
  {
    hide PaneNext, ConnsNext, Wired, Contested;
  }

  // ----- such a moment, world by world

  /** One pane, number 0, that nothing was written to. */
  function Lone(attached: Option<Attached>, authority: Option<nat>, links: map<nat, Channel>): Pane {
    Pane(map[], map[], 0, attached, authority, links)
  }

  function With(intact: bool, doc: Option<nat>, writer: Option<nat>, daemons: map<nat, Daemon>, pane: Pane, conns: map<nat, Conn>): World {
    World(doc, writer, intact, daemons, map[0 := pane], conns, map[])
  }

  const ONE: Daemon := Daemon(1, false, None)
  const TWO: Daemon := Daemon(2, false, None)
  const BOTH: map<nat, Daemon> := map[1 := ONE, 2 := TWO]
  const OPEN: Channel := Channel([], true)
  const NEWS: Channel := Channel([Displaced(2)], false)
  const OLDER: Conn := Conn(1, 0, Some(1), false)
  const NEWER: Conn := Conn(2, 0, Some(2), true)

  function Newer(links: map<nat, Channel>): Pane {
    Lone(Some(Attached(20, Some(2))), Some(2), links)
  }

  /** Two daemons start and the newer one takes the pane. */
  lemma NewerTakesPane()
    ensures Steps(With(true, None, None, map[], Lone(None, None, map[]), map[]),
                  With(true, Some(1), Some(1), map[1 := ONE], Lone(None, None, map[]), map[]))
    ensures Steps(With(true, Some(1), Some(1), map[1 := ONE], Lone(None, None, map[]), map[]),
                  With(true, Some(2), Some(2), BOTH, Lone(None, None, map[]), map[]))
    ensures Steps(With(true, Some(2), Some(2), BOTH, Lone(None, None, map[]), map[]),
                  With(true, Some(2), Some(2), BOTH, Lone(None, None, map[20 := OPEN]), map[20 := NEWER.(served := false)]))
    ensures Steps(With(true, Some(2), Some(2), BOTH, Lone(None, None, map[20 := OPEN]), map[20 := NEWER.(served := false)]),
                  With(true, Some(2), Some(2), BOTH, Newer(map[20 := OPEN]), map[20 := NEWER]))
  {
    NewerStarts();
    NewerDials();
    NewerServed();
  }

  lemma NewerStarts()
    ensures Steps(With(true, None, None, map[], Lone(None, None, map[]), map[]),
                  With(true, Some(1), Some(1), map[1 := ONE], Lone(None, None, map[]), map[]))
    ensures Steps(With(true, Some(1), Some(1), map[1 := ONE], Lone(None, None, map[]), map[]),
                  With(true, Some(2), Some(2), BOTH, Lone(None, None, map[]), map[]))
  {
    var w0 := With(true, None, None, map[], Lone(None, None, map[]), map[]);
    var w1 := With(true, Some(1), Some(1), map[1 := ONE], Lone(None, None, map[]), map[]);
    var w2 := With(true, Some(2), Some(2), BOTH, Lone(None, None, map[]), map[]);
    assert Enabled(w0, Start(1)) && Enabled(w1, Start(2));
    assert Next(w0, Start(1)).panes == w1.panes && Next(w1, Start(2)).panes == w2.panes;
    assert Next(w0, Start(1)) == w1;
    assert w1.daemons[2 := TWO] == BOTH;
    assert Next(w1, Start(2)) == w2;
  }

  lemma NewerDials()
    ensures Steps(With(true, Some(2), Some(2), BOTH, Lone(None, None, map[]), map[]),
                  With(true, Some(2), Some(2), BOTH, Lone(None, None, map[20 := OPEN]), map[20 := NEWER.(served := false)]))
  {
    var w := With(true, Some(2), Some(2), BOTH, Lone(None, None, map[]), map[]);
    var a := Dial(2, 0, 20, true);
    assert Enabled(w, a);
    assert Next(w, a).panes == map[0 := Lone(None, None, map[20 := OPEN])];
    assert Next(w, a) == With(true, Some(2), Some(2), BOTH, Lone(None, None, map[20 := OPEN]), map[20 := NEWER.(served := false)]);
  }

  lemma NewerServed()
    ensures Steps(With(true, Some(2), Some(2), BOTH, Lone(None, None, map[20 := OPEN]), map[20 := NEWER.(served := false)]),
                  With(true, Some(2), Some(2), BOTH, Newer(map[20 := OPEN]), map[20 := NEWER]))
  {
    var w := With(true, Some(2), Some(2), BOTH, Lone(None, None, map[20 := OPEN]), map[20 := NEWER.(served := false)]);
    var a := Serve(20, [], None, false);
    assert Enabled(w, a);
    assert OPEN.SendAll([]) == OPEN;
    assert map[20 := OPEN][20 := OPEN] == map[20 := OPEN];
    assert Next(w, a).panes == map[0 := Newer(map[20 := OPEN])];
    assert Next(w, a).conns == map[20 := NEWER];
  }

  /** The document is lost; the older daemon dials and is refused. */
  lemma OlderRefused()
    ensures Steps(With(true, Some(2), Some(2), BOTH, Newer(map[20 := OPEN]), map[20 := NEWER]),
                  With(false, None, None, BOTH, Newer(map[20 := OPEN]), map[20 := NEWER]))
    ensures Steps(With(false, None, None, BOTH, Newer(map[20 := OPEN]), map[20 := NEWER]),
                  With(false, None, None, BOTH, Newer(map[20 := OPEN, 10 := OPEN]), map[20 := NEWER, 10 := OLDER]))
    ensures Steps(With(false, None, None, BOTH, Newer(map[20 := OPEN, 10 := OPEN]), map[20 := NEWER, 10 := OLDER]),
                  With(false, None, None, BOTH, Newer(map[20 := OPEN, 10 := NEWS]), map[20 := NEWER, 10 := OLDER.(served := true)]))
  {
    var w4 := With(true, Some(2), Some(2), BOTH, Newer(map[20 := OPEN]), map[20 := NEWER]);
    assert Enabled(w4, LoseDocument);
    assert Next(w4, LoseDocument).panes == w4.panes;
    assert Next(w4, LoseDocument) == With(false, None, None, BOTH, Newer(map[20 := OPEN]), map[20 := NEWER]);
    OlderDials();
    OlderServed();
  }

  lemma OlderDials()
    ensures Steps(With(false, None, None, BOTH, Newer(map[20 := OPEN]), map[20 := NEWER]),
                  With(false, None, None, BOTH, Newer(map[20 := OPEN, 10 := OPEN]), map[20 := NEWER, 10 := OLDER]))
  {
    var w := With(false, None, None, BOTH, Newer(map[20 := OPEN]), map[20 := NEWER]);
    var a := Dial(1, 0, 10, true);
    assert Enabled(w, a);
    assert Next(w, a).panes == map[0 := Newer(map[20 := OPEN, 10 := OPEN])];
    assert Next(w, a) == With(false, None, None, BOTH, Newer(map[20 := OPEN, 10 := OPEN]), map[20 := NEWER, 10 := OLDER]);
  }

  function OlderWaits(): World {
    With(false, None, None, BOTH, Newer(map[20 := OPEN, 10 := OPEN]), map[20 := NEWER, 10 := OLDER])
  }

  lemma OlderServed()
    ensures Steps(OlderWaits(),
                  With(false, None, None, BOTH, Newer(map[20 := OPEN, 10 := NEWS]), map[20 := NEWER, 10 := OLDER.(served := true)]))
  {
    hide Enabled, PaneNext, Pane.Attach;
    var a := Serve(10, [], None, false);
    OlderIsServed();
    assert Next(OlderWaits(), a).panes == map[0 := Newer(map[20 := OPEN, 10 := NEWS])];
    assert Next(OlderWaits(), a).conns == map[20 := NEWER, 10 := OLDER.(served := true)];
  }

  lemma OlderIsServed()
    ensures Enabled(OlderWaits(), Serve(10, [], None, false))
    ensures PaneNext(OlderWaits(), Serve(10, [], None, false), 0) == Newer(map[20 := OPEN, 10 := NEWS])
  {
    hide Pane.Attach;
    OlderTold();
  }

  lemma OlderTold()
    ensures Newer(map[20 := OPEN, 10 := OPEN]).Attach(10, Own, Some(1), [], None, false).0 == Newer(map[20 := OPEN, 10 := NEWS])
  {
    var p := Newer(map[20 := OPEN, 10 := OPEN]);
    OlderIsTurnedAway(p, 10, 1, [], None, false);
    assert OPEN.frames + [Displaced(2)] == [Displaced(2)];
    assert p.links[10 := NEWS] == map[20 := OPEN, 10 := NEWS];
  }

  const RAISING: map<nat, Daemon> := map[1 := ONE.(raising := Some(3)), 2 := TWO]

  function Refused(): World {
    With(false, None, None, BOTH, Newer(map[20 := OPEN, 10 := NEWS]), map[20 := NEWER, 10 := OLDER.(served := true)])
  }

  lemma OlderHeeds()
    ensures Enabled(Refused(), Heed(10, false, false)) && Contests(Refused(), 10)
    ensures PaneNext(Refused(), Heed(10, false, false), 0) == Newer(map[20 := OPEN, 10 := Channel([], false)])
  {
    var w := Refused();
    assert [Displaced(2)][1..] == [];
    assert w.panes[0].links[10 := Channel([], false)] == map[20 := OPEN, 10 := Channel([], false)];
  }

  lemma OlderWrites()
    requires Enabled(Refused(), Heed(10, false, false)) && Contests(Refused(), 10)
    ensures CourtNext(Refused(), Heed(10, false, false)) == Court(Some(3), Some(1), RAISING)
  {
    assert BOTH[1 := ONE.(raising := Some(3))] == RAISING;
  }

  lemma OlderRaises()
    ensures Steps(Refused(), With(false, Some(3), Some(1), RAISING, Newer(map[20 := OPEN, 10 := Channel([], false)]),
                                  map[20 := NEWER, 10 := OLDER.(served := true)]))
  {
    hide Enabled, PaneNext, CourtNext;
    OlderHeeds();
    OlderWrites();
    assert Next(Refused(), Heed(10, false, false)).panes == map[0 := Newer(map[20 := OPEN, 10 := Channel([], false)])];
  }

  /** The document is lost, an older daemon is refused by a pane that saw a newer one and
      raises its lease: a check before it has stored what it wrote takes it away. */
  lemma LosesToItself() returns (run: seq<World>)
    ensures Run(run) && Enabled(run[|run| - 1], Check(1))
    ensures 1 in run[|run| - 1].daemons && LosesToOwnRaise(run[|run| - 1], Check(1), 1)
  {
    hide Steps, Enabled, LossOf, Next;
    run := [With(true, None, None, map[], Lone(None, None, map[]), map[]),
            With(true, Some(1), Some(1), map[1 := ONE], Lone(None, None, map[]), map[]),
            With(true, Some(2), Some(2), BOTH, Lone(None, None, map[]), map[]),
            With(true, Some(2), Some(2), BOTH, Lone(None, None, map[20 := OPEN]), map[20 := NEWER.(served := false)]),
            With(true, Some(2), Some(2), BOTH, Newer(map[20 := OPEN]), map[20 := NEWER]),
            With(false, None, None, BOTH, Newer(map[20 := OPEN]), map[20 := NEWER]),
            With(false, None, None, BOTH, Newer(map[20 := OPEN, 10 := OPEN]), map[20 := NEWER, 10 := OLDER]),
            With(false, None, None, BOTH, Newer(map[20 := OPEN, 10 := NEWS]), map[20 := NEWER, 10 := OLDER.(served := true)]),
            With(false, Some(3), Some(1), RAISING, Newer(map[20 := OPEN, 10 := Channel([], false)]), map[20 := NEWER, 10 := OLDER.(served := true)])];
    NewerTakesPane();
    OlderRefused();
    OlderRaises();
    ChecksTooEarly();
  }

  lemma ChecksTooEarly()
    ensures var w := With(false, Some(3), Some(1), RAISING, Newer(map[20 := OPEN, 10 := Channel([], false)]),
                          map[20 := NEWER, 10 := OLDER.(served := true)]);
            Enabled(w, Check(1)) && LosesToOwnRaise(w, Check(1), 1)
  {
  }
}
