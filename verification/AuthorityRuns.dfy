/**
 Who may drive a pane: any number of daemons take leases of one store, dial the
 holders of any number of panes, are refused, displace one another and lose.
 Holders answer as `Pane.Attach` does; daemons act as `Leases` says.
 */
module AuthorityRuns {
  import opened Basics
  import opened Journals
  import opened Holders
  import opened Leases

  /** `raising`: the daemon has written the lease document and not yet stored the
      incarnation it wrote; until then it holds the lease's lock. */
  datatype Daemon = Daemon(incarnation: nat, lost: bool, raising: Option<nat>)

  /** A connection: whose, to which pane, and the incarnation its attach declares. */
  datatype Conn = Conn(daemon: nat, pane: nat, declared: Option<nat>, served: bool)

  /** `writer` is the daemon that wrote the document last, `intact` turns false once the
      document has been lost, `deaths` counts the deaths of each pane's holder. */
  datatype World = World(
    doc: Option<nat>, writer: Option<nat>, intact: bool, daemons: map<nat, Daemon>,
    panes: map<nat, Pane>, conns: map<nat, Conn>, deaths: map<nat, nat>)

  datatype Action =
    | Start(daemon: nat)
    | LoseDocument
    | Dial(daemon: nat, pane: nat, link: nat, declares: bool)
    | Serve(link: nat, replayed: seq<Frame>, cut: Option<nat>, tellFails: bool)
    | Heed(link: nat, lockFails: bool, writeFails: bool)
    | StoreRaise(daemon: nat)
    | Check(daemon: nat)
    | Ingest(pane: nat, data: seq<Byte>, kept: bool, ok: bool, horizon: nat, sendFails: bool)
    | RetireFailed(pane: nat)
    | Teardown(link: nat)
    | Cut(link: nat, arriving: nat)
    // A pane's holder dies; its successor opens what is on disk.
    | Revive(pane: nat, onDisk: Stream, end: nat)

  /** The connections of `w` are links of their panes. */
  predicate Wired(w: World) {
    && (forall c :: c in w.conns ==> w.conns[c].pane in w.panes && c in w.panes[w.conns[c].pane].links)
    && (forall p :: p in w.panes && w.panes[p].attached.Some? ==>
          w.panes[p].attached.value.id in w.panes[p].links)
  }

  /** No daemon is between the two writes of a raise. */
  predicate Unlocked(daemons: map<nat, Daemon>) {
    forall d :: d in daemons ==> daemons[d].raising == None
  }

  /** A frame that makes the daemon of connection `c` raise its lease or lose it. */
  predicate Contests(w: World, c: nat)
    requires Wired(w) && c in w.conns && w.conns[c].daemon in w.daemons && LinkOf(w, c).frames != []
  {
    LinkOf(w, c).frames[0].Displaced? && w.conns[c].declared.Some? && !w.daemons[w.conns[c].daemon].lost
  }

  predicate Enabled(w: World, a: Action) {
    && Wired(w)
    && match a
       case Start(d) => d !in w.daemons && Unlocked(w.daemons)
       case LoseDocument => true
       case Dial(d, p, c, _) => d in w.daemons && !w.daemons[d].lost && p in w.panes && c !in w.conns && c !in w.panes[p].links
       case Serve(c, replayed, _, _) => c in w.conns && !w.conns[c].served && forall i :: 0 <= i < |replayed| ==> replayed[i].Bytes?
       case Heed(c, lockFails, _) =>
         && c in w.conns && w.conns[c].daemon in w.daemons && LinkOf(w, c).frames != []
         && (Contests(w, c) && !lockFails ==> Unlocked(w.daemons))
       case StoreRaise(d) => d in w.daemons && w.daemons[d].raising.Some?
       case Check(d) => d in w.daemons
       case Ingest(p, _, _, _, _, _) => p in w.panes
       case RetireFailed(p) => p in w.panes
       case Teardown(c) => c in w.conns
       case Cut(c, arriving) => c in w.conns && arriving <= |LinkOf(w, c).frames|
       case Revive(p, _, _) => p in w.panes
  }

  function LinkOf(w: World, c: nat): Channel
    requires Wired(w) && c in w.conns
  {
    w.panes[w.conns[c].pane].links[c]
  }

  /** What a step does to one pane. */
  function PaneNext(w: World, a: Action, p: nat): Pane
    requires Enabled(w, a) && p in w.panes
  {
    var pane := w.panes[p];
    match a
    case Dial(_, q, c, _) => if q == p then pane.(links := pane.links[c := Channel([], true)]) else pane
    case Serve(c, replayed, cut, tellFails) =>
      if w.conns[c].pane == p then pane.Attach(c, Own, w.conns[c].declared, replayed, cut, tellFails).0 else pane
    case Heed(c, _, _) =>
      if w.conns[c].pane == p then pane.(links := pane.links[c := pane.links[c].(frames := pane.links[c].frames[1..])]) else pane
    case Ingest(q, data, kept, ok, horizon, sendFails) =>
      if q == p then pane.Ingest(data, kept, ok, horizon, sendFails) else pane
    case RetireFailed(q) => if q == p then pane.RetireFailed() else pane
    case Teardown(c) => if w.conns[c].pane == p then pane.Teardown(c) else pane
    case Cut(c, arriving) => if w.conns[c].pane == p then pane.Cut(c, arriving) else pane
    case Revive(q, onDisk, end) => if q == p then Revived(pane, onDisk, end) else pane
    case _ => pane
  }

  /** A holder's successor: nobody attached, no authority; what the dead one had sent can
      still be read, and then those streams end. */
  function Revived(pane: Pane, onDisk: Stream, end: nat): Pane {
    Pane(onDisk, onDisk, end, None, None, map c | c in pane.links :: pane.links[c].Shut())
  }

  function ConnsNext(w: World, a: Action): map<nat, Conn>
    requires Enabled(w, a)
  {
    match a
    case Dial(d, p, c, declares) =>
      w.conns[c := Conn(d, p, if declares then Some(w.daemons[d].incarnation) else None, false)]
    case Serve(c, _, _, _) => w.conns[c := w.conns[c].(served := true)]
    // A connection to the dead holder is never served by the next.
    case Revive(p, _, _) => map c | c in w.conns :: if w.conns[c].pane == p then w.conns[c].(served := true) else w.conns[c]
    case _ => w.conns
  }

  /** The store's document, who wrote it, and the daemons that hold leases of it. */
  datatype Court = Court(doc: Option<nat>, writer: Option<nat>, daemons: map<nat, Daemon>)

  function CourtOf(w: World): Court {
    Court(w.doc, w.writer, w.daemons)
  }

  /** A daemon that still holds the store loses it once the document names a newer one. */
  function Checked(doc: Option<nat>, d: Daemon): Daemon {
    if HeldBy(doc, d.incarnation) then d else d.(lost := true)
  }

  /** Why a daemon lost: the document named a newer incarnation, or a holder did and the
      document could not be locked or written. */
  datatype Cause = ByDocument(newer: nat) | ByHolder(newer: nat)

  /** What a `Displaced` that is contested comes to: the loss, or the incarnation to raise to. */
  function Contested(doc: Option<nat>, mine: nat, newer: nat, lockFails: bool, writeFails: bool): (Option<Cause>, nat) {
    if lockFails then (Some(ByHolder(newer)), mine)
    else
      match RaiseOutcome(doc, mine, newer)
      case Lost(current) => (Some(ByDocument(current)), mine)
      case To(n) => if writeFails then (Some(ByHolder(newer)), mine) else (None, n)
  }

  /** The loss a step inflicts on daemon `d`, if it does. */
  function LossOf(w: World, a: Action, d: nat): Option<Cause>
    requires Enabled(w, a) && d in w.daemons
  {
    if w.daemons[d].lost then None
    else
      match a
      case Check(e) => if e == d && !HeldBy(w.doc, w.daemons[d].incarnation) then Some(ByDocument(Recorded(w.doc))) else None
      case Heed(c, lockFails, writeFails) =>
        if w.conns[c].daemon == d && Contests(w, c) then
          Contested(w.doc, w.daemons[d].incarnation, LinkOf(w, c).frames[0].newer, lockFails, writeFails).0
        else None
      case _ => None
  }

  /** A daemon heeds a frame; a contested `Displaced` makes it write the raised lease or lose. */
  function Heeded(w: World, c: nat, lockFails: bool, writeFails: bool): Court
    requires Enabled(w, Heed(c, lockFails, writeFails))
  {
    var id := w.conns[c].daemon;
    var d := w.daemons[id];
    if !Contests(w, c) then CourtOf(w)
    else
      var (loss, n) := Contested(w.doc, d.incarnation, LinkOf(w, c).frames[0].newer, lockFails, writeFails);
      if loss.Some? then CourtOf(w).(daemons := w.daemons[id := d.(lost := true)])
      else Court(Some(n), Some(id), w.daemons[id := d.(raising := Some(n))])
  }

  function CourtNext(w: World, a: Action): Court
    requires Enabled(w, a)
  {
    match a
    case Start(d) =>
      var n := Recorded(w.doc) + 1;
      Court(Some(n), Some(d), w.daemons[d := Daemon(n, false, None)])
    case LoseDocument => Court(None, None, w.daemons)
    case Heed(c, lockFails, writeFails) => Heeded(w, c, lockFails, writeFails)
    case StoreRaise(d) =>
      CourtOf(w).(daemons := w.daemons[d := w.daemons[d].(incarnation := w.daemons[d].raising.value, raising := None)])
    case Check(d) => CourtOf(w).(daemons := w.daemons[d := Checked(w.doc, w.daemons[d])])
    case _ => CourtOf(w)
  }

  function Deaths(w: World, p: nat): nat {
    if p in w.deaths then w.deaths[p] else 0
  }

  function Next(w: World, a: Action): World
    requires Enabled(w, a)
  {
    var court := CourtNext(w, a);
    World(court.doc, court.writer, w.intact && !a.LoseDocument?, court.daemons,
          map p | p in w.panes :: PaneNext(w, a, p), ConnsNext(w, a),
          if a.Revive? then w.deaths[a.pane := Deaths(w, a.pane) + 1] else w.deaths)
  }

  // ----- the invariant of one pane: `top` bounds every incarnation seen

  /** An attached connection declared what it holds, and a declared one holds the authority. */
  ghost predicate AttachedOk(p: Pane, id: nat, conns: map<nat, Conn>) {
    p.attached.Some? ==>
      var a := p.attached.value;
      && a.id in p.links && a.id in conns && conns[a.id].pane == id && conns[a.id].served
      && conns[a.id].declared == a.incarnation
      && (a.incarnation.Some? ==> p.authority == a.incarnation)
  }

  /** A `Displaced` on its way names an incarnation newer than declared, none above `top`. */
  ghost predicate NoticesOk(p: Pane, id: nat, conns: map<nat, Conn>, top: nat) {
    && (p.authority.Some? ==> p.authority.value <= top)
    && (forall c :: c in p.links && c in conns && conns[c].pane == id ==> ChannelOk(p.links[c], conns[c].declared, top))
  }

  ghost predicate ChannelOk(channel: Channel, declared: Option<nat>, top: nat) {
    forall i :: 0 <= i < |channel.frames| && channel.frames[i].Displaced? ==>
      declared.Some? && declared.value < channel.frames[i].newer <= top
  }

  /** The leases while the document was never lost: all different, none above
      the document, one of them at it, lost only below it, and none ever
      between the two writes of a raise. */
  ghost predicate LeasesOk(court: Court, conns: map<nat, Conn>) {
    var top := Recorded(court.doc);
    var ds := court.daemons;
    && (forall d :: d in ds ==> ds[d].incarnation <= top && ds[d].raising == None && (ds[d].lost ==> ds[d].incarnation < top))
    && (forall d, e :: d in ds && e in ds && d != e ==> ds[d].incarnation != ds[e].incarnation)
    && (ds != map[] ==> court.doc.Some? && exists d :: d in ds && ds[d].incarnation == top)
    && (forall c :: c in conns && conns[c].declared.Some? ==>
          conns[c].daemon in ds && conns[c].declared.value == ds[conns[c].daemon].incarnation)
  }

  ghost predicate PanesOk(w: World) {
    Wired(w) && forall p :: p in w.panes ==> AttachedOk(w.panes[p], p, w.conns)
  }

  ghost predicate IntactOk(w: World) {
    && LeasesOk(CourtOf(w), w.conns)
    && forall p :: p in w.panes ==> NoticesOk(w.panes[p], p, w.conns, Recorded(w.doc))
  }

  /** One daemon at most is between the two writes of its raise, and the document, unless
      lost since, says what its writer wrote: the incarnation it has or is about to store. */
  ghost predicate WritesOk(court: Court) {
    var ds := court.daemons;
    && (forall d, e :: d in ds && e in ds && ds[d].raising.Some? && ds[e].raising.Some? ==> d == e)
    && (forall d :: d in ds && ds[d].raising.Some? ==>
          ds[d].incarnation < ds[d].raising.value && (court.doc.Some? ==> court.writer == Some(d)))
    && (court.writer.Some? ==>
          && court.writer.value in ds && court.doc.Some?
          && var d := ds[court.writer.value];
          court.doc.value == if d.raising.Some? then d.raising.value else d.incarnation)
  }

  ghost predicate Inv(w: World) {
    PanesOk(w) && WritesOk(CourtOf(w)) && (w.intact ==> IntactOk(w))
  }

  // ----- panes

  lemma AttachKeepsAttached(p: Pane, id: nat, conns: map<nat, Conn>, c: nat, replayed: seq<Frame>, cut: Option<nat>, tellFails: bool)
    requires AttachedOk(p, id, conns) && c in p.links && c in conns && conns[c].pane == id && !conns[c].served
    ensures var p' := p.Attach(c, Own, conns[c].declared, replayed, cut, tellFails).0;
            && AttachedOk(p', id, conns[c := conns[c].(served := true)])
            && p'.links.Keys == p.links.Keys
            && (p.authority.Some? ==> p'.authority.Some? && p.authority.value <= p'.authority.value)
  {
    hide Channel.Send, Channel.SendAll, Channel.Shut;
  }

  lemma AttachKeepsNotices(p: Pane, id: nat, conns: map<nat, Conn>, top: nat, c: nat, replayed: seq<Frame>, cut: Option<nat>, tellFails: bool)
    requires AttachedOk(p, id, conns) && NoticesOk(p, id, conns, top)
    requires c in p.links && c in conns && conns[c].pane == id && !conns[c].served
    requires forall i :: 0 <= i < |replayed| ==> replayed[i].Bytes?
    requires conns[c].declared.Some? ==> conns[c].declared.value <= top
    ensures NoticesOk(p.Attach(c, Own, conns[c].declared, replayed, cut, tellFails).0, id, conns[c := conns[c].(served := true)], top)
  {
    hide ChannelOk;
    var p' := p.Attach(c, Own, conns[c].declared, replayed, cut, tellFails).0;
    forall l | l in p'.links && l in conns && conns[l].pane == id ensures ChannelOk(p'.links[l], conns[l].declared, top) {
      AttachedChannelOk(p, id, conns, top, c, replayed, cut, tellFails, l);
    }
  }

  lemma AttachedChannelOk(p: Pane, id: nat, conns: map<nat, Conn>, top: nat, c: nat, replayed: seq<Frame>, cut: Option<nat>,
                          tellFails: bool, l: nat)
    requires AttachedOk(p, id, conns) && NoticesOk(p, id, conns, top)
    requires c in p.links && c in conns && conns[c].pane == id && !conns[c].served
    requires forall i :: 0 <= i < |replayed| ==> replayed[i].Bytes?
    requires conns[c].declared.Some? ==> conns[c].declared.value <= top
    requires l in p.links && l in conns && conns[l].pane == id
    ensures ChannelOk(p.Attach(c, Own, conns[c].declared, replayed, cut, tellFails).0.links[l], conns[l].declared, top)
  {
    var frames := p.Attach(c, Own, conns[c].declared, replayed, cut, tellFails).0.links[l].frames;
    AttachFrames(p, c, conns[c].declared, replayed, cut, tellFails, l);
    assert ChannelOk(p.links[l], conns[l].declared, top);
  }

  /** The `Displaced` frames an attach puts on a channel: one to a daemon it refused, naming
      the authority, or to an older one it displaced, naming the newcomer. */
  lemma AttachFrames(p: Pane, c: nat, declared: Option<nat>, replayed: seq<Frame>, cut: Option<nat>, tellFails: bool, l: nat)
    requires c in p.links && l in p.links && !p.AttachedTo(c) && (p.attached.Some? ==> p.attached.value.id in p.links)
    requires forall i :: 0 <= i < |replayed| ==> replayed[i].Bytes?
    ensures var p' := p.Attach(c, Own, declared, replayed, cut, tellFails).0;
            var frames := p'.links[l].frames;
            forall i :: 0 <= i < |frames| && frames[i].Displaced? ==>
              || frames[i] in p.links[l].frames
              || (&& p'.authority == Some(frames[i].newer)
                  && (l == c ==> declared.Some? && declared.value < frames[i].newer && p.authority == Some(frames[i].newer))
                  && (l != c ==> p.AttachedTo(l) && p.attached.value.incarnation.Some? && p.attached.value.incarnation.value < frames[i].newer
                                 && declared == Some(frames[i].newer)))
  {
    if p.Admits(declared).Admit? {
      AdmittedFrames(p, c, declared, replayed, cut, tellFails, l);
    }
  }

  lemma AdmittedFrames(p: Pane, c: nat, declared: Option<nat>, replayed: seq<Frame>, cut: Option<nat>, tellFails: bool, l: nat)
    requires c in p.links && l in p.links && !p.AttachedTo(c) && (p.attached.Some? ==> p.attached.value.id in p.links)
    requires p.Admits(declared).Admit? && forall i :: 0 <= i < |replayed| ==> replayed[i].Bytes?
    ensures var p' := p.Attach(c, Own, declared, replayed, cut, tellFails).0;
            var frames := p'.links[l].frames;
            forall i :: 0 <= i < |frames| && frames[i].Displaced? ==>
              || frames[i] in p.links[l].frames
              || (&& p'.authority == Some(frames[i].newer) && l != c
                  && p.AttachedTo(l) && p.attached.value.incarnation.Some? && p.attached.value.incarnation.value < frames[i].newer
                  && declared == Some(frames[i].newer))
  {
  }

  lemma FeedKeepsAttached(p: Pane, id: nat, conns: map<nat, Conn>, data: seq<Byte>, kept: bool, ok: bool, horizon: nat, sendFails: bool)
    requires AttachedOk(p, id, conns)
    ensures var p' := p.Ingest(data, kept, ok, horizon, sendFails);
            AttachedOk(p', id, conns) && p'.links.Keys == p.links.Keys && p'.authority == p.authority
  {
  }

  lemma PaneStepKeepsAttached(w: World, a: Action, p: nat)
    requires PanesOk(w) && Enabled(w, a) && p in w.panes
    ensures var pane, pane' := w.panes[p], PaneNext(w, a, p);
            && AttachedOk(pane', p, ConnsNext(w, a)) && pane.links.Keys <= pane'.links.Keys
            && (pane.authority.Some? && !(a.Revive? && a.pane == p) ==>
                  pane'.authority.Some? && pane.authority.value <= pane'.authority.value)
  {
    hide Pane.Attach, Pane.Ingest, Channel.Send, Channel.Shut;
    assert AttachedOk(w.panes[p], p, w.conns);
    if a.Serve? && w.conns[a.link].pane == p {
      AttachKeepsAttached(w.panes[p], p, w.conns, a.link, a.replayed, a.cut, a.tellFails);
    } else if a.Ingest? {
      FeedKeepsAttached(w.panes[p], p, w.conns, a.data, a.kept, a.ok, a.horizon, a.sendFails);
    }
  }

  lemma StepKeepsPanes(w: World, a: Action)
    requires PanesOk(w) && Enabled(w, a)
    ensures PanesOk(Next(w, a))
  {
    hide AttachedOk, PaneNext;
    var w' := Next(w, a);
    forall p | p in w'.panes ensures AttachedOk(w'.panes[p], p, w'.conns) {
      PaneStepKeepsAttached(w, a, p);
    }
    StepKeepsWired(w, a);
  }

  lemma StepKeepsWired(w: World, a: Action)
    requires PanesOk(w) && Enabled(w, a)
    ensures Wired(Next(w, a))
  {
    hide AttachedOk, PaneNext, CourtNext;
    var w' := Next(w, a);
    forall p | p in w'.panes && w'.panes[p].attached.Some? ensures w'.panes[p].attached.value.id in w'.panes[p].links {
      PaneStepKeepsAttached(w, a, p);
      AttachedIsLink(w'.panes[p], p, w'.conns);
    }
    forall c | c in w'.conns ensures w'.conns[c].pane in w'.panes && c in w'.panes[w'.conns[c].pane].links {
      ConnStays(w, a, c);
    }
  }

  lemma AttachedIsLink(p: Pane, id: nat, conns: map<nat, Conn>)
    requires AttachedOk(p, id, conns) && p.attached.Some?
    ensures p.attached.value.id in p.links
  {
  }

  lemma ConnStays(w: World, a: Action, c: nat)
    requires PanesOk(w) && Enabled(w, a) && c in ConnsNext(w, a)
    ensures ConnsNext(w, a)[c].pane in w.panes && c in PaneNext(w, a, ConnsNext(w, a)[c].pane).links
  {
    hide AttachedOk, Pane.Attach;
    if c in w.conns {
      PaneStepKeepsAttached(w, a, w.conns[c].pane);
    }
  }

  lemma TopGrows(w: World, a: Action)
    requires Enabled(w, a) && !a.LoseDocument?
    ensures Recorded(w.doc) <= Recorded(CourtNext(w, a).doc)
  {
  }

  /** Only serving an attach puts a `Displaced` on a channel. */
  lemma NoNewNotice(w: World, a: Action, p: nat, c: nat)
    requires Enabled(w, a) && p in w.panes && !(a.Serve? && w.conns[a.link].pane == p)
    requires c in PaneNext(w, a, p).links
    ensures var frames := PaneNext(w, a, p).links[c].frames;
            if c in w.panes[p].links
            then forall i :: 0 <= i < |frames| && frames[i].Displaced? ==> frames[i] in w.panes[p].links[c].frames
            else frames == []
  {
    hide Pane.Attach;
  }

  lemma ChannelStays(channel: Channel, channel': Channel, declared: Option<nat>, top: nat)
    requires ChannelOk(channel, declared, top)
    requires forall i :: 0 <= i < |channel'.frames| && channel'.frames[i].Displaced? ==> channel'.frames[i] in channel.frames
    ensures ChannelOk(channel', declared, top)
  {
  }

  lemma PaneStepKeepsNotices(w: World, a: Action, p: nat)
    requires PanesOk(w) && IntactOk(w) && Enabled(w, a) && p in w.panes && !a.LoseDocument?
    ensures NoticesOk(PaneNext(w, a, p), p, ConnsNext(w, a), Recorded(w.doc))
  {
    assert AttachedOk(w.panes[p], p, w.conns) && NoticesOk(w.panes[p], p, w.conns, Recorded(w.doc));
    if a.Serve? && w.conns[a.link].pane == p {
      AttachKeepsNotices(w.panes[p], p, w.conns, Recorded(w.doc), a.link, a.replayed, a.cut, a.tellFails);
    } else {
      OtherStepKeepsNotices(w, a, p, Recorded(w.doc));
    }
  }

  lemma OtherStepKeepsNotices(w: World, a: Action, p: nat, top: nat)
    requires Enabled(w, a) && p in w.panes && !(a.Serve? && w.conns[a.link].pane == p)
    requires NoticesOk(w.panes[p], p, w.conns, top)
    ensures NoticesOk(PaneNext(w, a, p), p, ConnsNext(w, a), top)
  {
    hide PaneNext, ChannelOk;
    var pane, pane', conns := w.panes[p], PaneNext(w, a, p), ConnsNext(w, a);
    forall c | c in pane'.links && c in conns && conns[c].pane == p ensures ChannelOk(pane'.links[c], conns[c].declared, top) {
      NoNewNotice(w, a, p, c);
      if c in pane.links {
        assert c in w.conns && conns[c].declared == w.conns[c].declared;
        ChannelStays(pane.links[c], pane'.links[c], conns[c].declared, top);
      } else {
        ChannelOfNothing(pane'.links[c], conns[c].declared, top);
      }
    }
    if pane'.authority.Some? {
      AuthorityOnlyByServe(w, a, p);
    }
  }

  lemma AuthorityOnlyByServe(w: World, a: Action, p: nat)
    requires Enabled(w, a) && p in w.panes && !(a.Serve? && w.conns[a.link].pane == p)
    ensures PaneNext(w, a, p).authority == if a.Revive? && a.pane == p then None else w.panes[p].authority
  {
    hide Pane.Attach;
  }

  lemma ChannelOfNothing(channel: Channel, declared: Option<nat>, top: nat)
    requires channel.frames == []
    ensures ChannelOk(channel, declared, top)
  {
  }

  lemma LeasesAfterStart(court: Court, conns: map<nat, Conn>, d: nat)
    requires LeasesOk(court, conns) && d !in court.daemons
    ensures var n := Recorded(court.doc) + 1; LeasesOk(Court(Some(n), Some(d), court.daemons[d := Daemon(n, false, None)]), conns)
  {
    var n := Recorded(court.doc) + 1;
    var ds := court.daemons[d := Daemon(n, false, None)];
    assert d in ds && ds[d].incarnation == n;
  }

  lemma LeasesAfterLoss(court: Court, conns: map<nat, Conn>, d: nat)
    requires LeasesOk(court, conns) && d in court.daemons && court.daemons[d].incarnation < Recorded(court.doc)
    ensures LeasesOk(court.(daemons := court.daemons[d := court.daemons[d].(lost := true)]), conns)
  {
    var ds := court.daemons[d := court.daemons[d].(lost := true)];
    var e :| e in court.daemons && court.daemons[e].incarnation == Recorded(court.doc);
    assert e in ds && ds[e].incarnation == Recorded(court.doc);
  }

  lemma LeasesAfterDial(court: Court, conns: map<nat, Conn>, c: nat, conn: Conn)
    requires LeasesOk(court, conns) && conn.daemon in court.daemons
    requires conn.declared.Some? ==> conn.declared.value == court.daemons[conn.daemon].incarnation
    ensures LeasesOk(court, conns[c := conn])
  {
  }

  lemma LeasesAfterServe(court: Court, conns: map<nat, Conn>, c: nat)
    requires LeasesOk(court, conns) && c in conns
    ensures LeasesOk(court, conns[c := conns[c].(served := true)])
  {
  }

  lemma LeasesSameDeclared(court: Court, conns: map<nat, Conn>, conns': map<nat, Conn>)
    requires LeasesOk(court, conns) && conns'.Keys == conns.Keys
    requires forall c :: c in conns ==> conns'[c].declared == conns[c].declared && conns'[c].daemon == conns[c].daemon
    ensures LeasesOk(court, conns')
  {
  }

  lemma NobodyRaises(court: Court, conns: map<nat, Conn>, d: nat)
    requires LeasesOk(court, conns) && d in court.daemons
    ensures court.daemons[d].raising == None
  {
  }

  lemma StepKeepsLeases(w: World, a: Action)
    requires PanesOk(w) && IntactOk(w) && Enabled(w, a) && !a.LoseDocument?
    ensures LeasesOk(CourtNext(w, a), ConnsNext(w, a))
  {
    hide LeasesOk, NoticesOk, AttachedOk, Wired, Contested;
    var court := CourtOf(w);
    match a
    case Start(d) => LeasesAfterStart(court, w.conns, d);
    case Check(d) =>
      if HeldBy(w.doc, w.daemons[d].incarnation) {
        assert w.daemons[d := w.daemons[d]] == w.daemons;
      } else {
        LeasesAfterLoss(court, w.conns, d);
      }
    case Heed(c, lockFails, writeFails) =>
      HeedOnlyLoses(w, c, lockFails, writeFails);
      if LinkOf(w, c).frames[0].Displaced? {
        LeasesAfterLoss(court, w.conns, w.conns[c].daemon);
      }
    case StoreRaise(d) =>
      NobodyRaises(court, w.conns, d);
    case Dial(d, p, c, declares) =>
      LeasesAfterDial(court, w.conns, c, ConnsNext(w, a)[c]);
    case Serve(c, _, _, _) =>
      LeasesAfterServe(court, w.conns, c);
    case Revive(p, _, _) =>
      LeasesSameDeclared(court, w.conns, ConnsNext(w, a));
    case _ =>
  }

  /** While the document is intact a heeded `Displaced` never raises a lease: it ends it. */
  lemma HeedOnlyLoses(w: World, c: nat, lockFails: bool, writeFails: bool)
    requires PanesOk(w) && IntactOk(w) && Enabled(w, Heed(c, lockFails, writeFails))
    ensures var d := w.conns[c].daemon;
            var court := CourtNext(w, Heed(c, lockFails, writeFails));
            && court.doc == w.doc && court.writer == w.writer
            && (LinkOf(w, c).frames[0].Displaced? ==>
                  && court.daemons == w.daemons[d := w.daemons[d].(lost := true)]
                  && w.daemons[d].incarnation < Recorded(w.doc))
            && (!LinkOf(w, c).frames[0].Displaced? ==> court.daemons == w.daemons)
  {
    var p := w.conns[c].pane;
    assert NoticesOk(w.panes[p], p, w.conns, Recorded(w.doc));
    assert ChannelOk(LinkOf(w, c), w.conns[c].declared, Recorded(w.doc));
    var d := w.daemons[w.conns[c].daemon];
    assert d.lost ==> w.daemons[w.conns[c].daemon := d.(lost := true)] == w.daemons;
  }

  lemma WritesAfterStart(court: Court, d: nat, n: nat)
    requires WritesOk(court) && d !in court.daemons && Unlocked(court.daemons)
    ensures WritesOk(Court(Some(n), Some(d), court.daemons[d := Daemon(n, false, None)]))
  {
  }

  lemma WritesAfterLoss(court: Court, d: nat)
    requires WritesOk(court) && d in court.daemons
    ensures WritesOk(court.(daemons := court.daemons[d := court.daemons[d].(lost := true)]))
    ensures WritesOk(court.(doc := None, writer := None))
  {
  }

  lemma WritesAfterRaise(court: Court, d: nat, n: nat)
    requires WritesOk(court) && d in court.daemons && Unlocked(court.daemons) && court.daemons[d].incarnation < n
    ensures WritesOk(Court(Some(n), Some(d), court.daemons[d := court.daemons[d].(raising := Some(n))]))
  {
  }

  lemma WritesAfterStore(court: Court, d: nat)
    requires WritesOk(court) && d in court.daemons && court.daemons[d].raising.Some?
    ensures var raised := court.daemons[d].(incarnation := court.daemons[d].raising.value, raising := None);
            WritesOk(court.(daemons := court.daemons[d := raised]))
  {
  }

  lemma StepKeepsWrites(w: World, a: Action)
    requires WritesOk(CourtOf(w)) && Enabled(w, a)
    ensures WritesOk(CourtNext(w, a))
  {
    hide WritesOk, Wired;
    var court := CourtOf(w);
    match a
    case Start(d) => WritesAfterStart(court, d, Recorded(w.doc) + 1);
    case LoseDocument =>
      if d :| d in w.daemons {
        WritesAfterLoss(court, d);
      } else {
        NobodyWrote(court);
      }
    case Heed(c, lockFails, writeFails) =>
      var d := w.conns[c].daemon;
      WritesAfterLoss(court, d);
      if Contests(w, c) {
        var (loss, n) := Contested(w.doc, w.daemons[d].incarnation, LinkOf(w, c).frames[0].newer, lockFails, writeFails);
        if loss.None? {
          WritesAfterRaise(court, d, n);
        }
      }
    case StoreRaise(d) => WritesAfterStore(court, d);
    case Check(d) =>
      WritesAfterLoss(court, d);
      assert w.daemons[d := w.daemons[d]] == w.daemons;
    case _ =>
  }

  lemma NobodyWrote(court: Court)
    requires WritesOk(court) && court.daemons == map[]
    ensures WritesOk(court.(doc := None, writer := None))
  {
  }

  lemma StepKeeps(w: World, a: Action)
    requires Inv(w) && Enabled(w, a)
    ensures Inv(Next(w, a))
  {
    hide PanesOk, WritesOk, LeasesOk, NoticesOk, PaneNext, CourtNext, ConnsNext;
    StepKeepsPanes(w, a);
    StepKeepsWrites(w, a);
    if w.intact && !a.LoseDocument? {
      StepKeepsLeases(w, a);
      TopGrows(w, a);
      forall p | p in w.panes ensures NoticesOk(PaneNext(w, a, p), p, ConnsNext(w, a), Recorded(CourtNext(w, a).doc)) {
        PaneStepKeepsNotices(w, a, p);
        NoticesStay(PaneNext(w, a, p), p, ConnsNext(w, a), Recorded(w.doc), Recorded(CourtNext(w, a).doc));
      }
    }
  }

  lemma NoticesStay(p: Pane, id: nat, conns: map<nat, Conn>, top: nat, top': nat)
    requires NoticesOk(p, id, conns, top) && top <= top'
    ensures NoticesOk(p, id, conns, top')
  {
  }

  // ----- nobody is left hanging

  /** A declared connection the holder has served is attached, or its stream has an end. */
  ghost predicate SettledOk(p: Pane, id: nat, conns: map<nat, Conn>) {
    forall c :: c in p.links && c in conns && conns[c].pane == id && conns[c].served && conns[c].declared.Some? ==>
      p.AttachedTo(c) || !p.links[c].open
  }

  ghost predicate Settled(w: World) {
    forall p :: p in w.panes ==> SettledOk(w.panes[p], p, w.conns)
  }

  lemma AttachSettles(p: Pane, id: nat, conns: map<nat, Conn>, c: nat, replayed: seq<Frame>, cut: Option<nat>, tellFails: bool)
    requires AttachedOk(p, id, conns) && SettledOk(p, id, conns)
    requires c in p.links && c in conns && conns[c].pane == id && !conns[c].served
    ensures SettledOk(p.Attach(c, Own, conns[c].declared, replayed, cut, tellFails).0, id, conns[c := conns[c].(served := true)])
  {
    hide Channel.Send, Channel.SendAll;
    SendingKeepsOpen();
  }

  lemma SendingKeepsOpen()
    ensures forall channel: Channel, f :: channel.Send(f).open == channel.open
    ensures forall channel: Channel, fs :: channel.SendAll(fs).open == channel.open
  {
  }

  lemma FeedSettles(p: Pane, id: nat, conns: map<nat, Conn>, data: seq<Byte>, kept: bool, ok: bool, horizon: nat, sendFails: bool)
    requires SettledOk(p, id, conns) && (p.attached.Some? ==> p.attached.value.id in p.links)
    ensures SettledOk(p.Ingest(data, kept, ok, horizon, sendFails), id, conns)
    ensures SettledOk(p.RetireFailed(), id, conns)
  {
  }

  lemma OtherStepSettles(w: World, a: Action, p: nat)
    requires PanesOk(w) && Enabled(w, a) && p in w.panes && !(a.Serve? && w.conns[a.link].pane == p)
    requires SettledOk(w.panes[p], p, w.conns)
    ensures SettledOk(PaneNext(w, a, p), p, ConnsNext(w, a))
  {
    hide Pane.Attach, Pane.Ingest, Pane.RetireFailed, Channel.Send, Channel.SendAll, AttachedOk;
    if a.Ingest? {
      FeedSettles(w.panes[p], p, w.conns, a.data, a.kept, a.ok, a.horizon, a.sendFails);
    } else if a.RetireFailed? {
      FeedSettles(w.panes[p], p, w.conns, [], true, true, 0, false);
    }
  }

  lemma StepSettles(w: World, a: Action)
    requires PanesOk(w) && Settled(w) && Enabled(w, a)
    ensures Settled(Next(w, a))
  {
    hide PaneNext, SettledOk, AttachedOk;
    forall p | p in w.panes ensures SettledOk(PaneNext(w, a, p), p, ConnsNext(w, a)) {
      StepSettlesPane(w, a, p);
    }
  }

  lemma StepSettlesPane(w: World, a: Action, p: nat)
    requires PanesOk(w) && Settled(w) && Enabled(w, a) && p in w.panes
    ensures SettledOk(PaneNext(w, a, p), p, ConnsNext(w, a))
  {
    hide SettledOk, AttachedOk, Pane.Attach;
    if a.Serve? && w.conns[a.link].pane == p {
      AttachSettles(w.panes[p], p, w.conns, a.link, a.replayed, a.cut, a.tellFails);
    } else {
      OtherStepSettles(w, a, p);
    }
  }

  // ----- runs

  ghost predicate Init(w: World) {
    && w.intact && w.writer == None && w.daemons == map[] && w.conns == map[]
    && forall p :: p in w.panes ==> w.panes[p].attached == None && w.panes[p].authority == None && w.panes[p].links == map[]
  }

  ghost predicate Steps(w: World, w': World) {
    exists a :: Enabled(w, a) && w' == Next(w, a)
  }

  ghost predicate Run(run: seq<World>) {
    && run != [] && Init(run[0])
    && forall i :: 0 <= i < |run| - 1 ==> Steps(run[i], run[i + 1])
  }

  lemma InitInv(w: World)
    requires Init(w)
    ensures Inv(w)
  {
  }

  lemma {:induction false} RunKeeps(run: seq<World>)
    requires Run(run)
    ensures Inv(run[|run| - 1])
  {
    hide Inv, Next, Enabled;
    if |run| == 1 {
      InitInv(run[0]);
    } else {
      RunKeeps(run[..|run| - 1]);
      assert Steps(run[|run| - 2], run[|run| - 1]);
      var a :| Enabled(run[|run| - 2], a) && run[|run| - 1] == Next(run[|run| - 2], a);
      StepKeeps(run[|run| - 2], a);
    }
  }

  /** A daemon that declared itself and was served is attached or reads to the end of its
      stream, and so dials again: no displacement or failed write leaves it waiting. */
  lemma {:induction false} DeclaredNeverLeftHanging(run: seq<World>)
    requires Run(run)
    ensures Settled(run[|run| - 1])
  {
    hide Inv, Next, Enabled, Settled, PanesOk;
    if |run| == 1 {
      SettledAtFirst(run[0]);
    } else {
      var n := |run| - 1;
      DeclaredNeverLeftHanging(run[..n]);
      RunKeeps(run[..n]);
      InvPanes(run[n - 1]);
      assert Steps(run[n - 1], run[n]);
      var a :| Enabled(run[n - 1], a) && run[n] == Next(run[n - 1], a);
      StepSettles(run[n - 1], a);
    }
  }

  lemma SettledAtFirst(w: World)
    requires Init(w)
    ensures Settled(w)
  {
  }

  lemma InvPanes(w: World)
    requires Inv(w)
    ensures PanesOk(w)
  {
  }

  /** What no later world takes back: a pane's authority in one life of its holder, a daemon's loss, and
      while the document lasts its daemons' incarnations. */
  ghost predicate Onward(w: World, w': World) {
    && (w'.intact ==> w.intact)
    && (forall p :: p in w.panes ==>
          && p in w'.panes && Deaths(w, p) <= Deaths(w', p)
          && (w.panes[p].authority.Some? && Deaths(w, p) == Deaths(w', p) ==>
                w'.panes[p].authority.Some? && w.panes[p].authority.value <= w'.panes[p].authority.value))
    && (forall d :: d in w.daemons ==> d in w'.daemons && (w.daemons[d].lost ==> w'.daemons[d].lost))
    && (w'.intact ==>
          && Recorded(w.doc) <= Recorded(w'.doc)
          && forall d :: d in w.daemons ==> w'.daemons[d].incarnation == w.daemons[d].incarnation)
  }

  lemma CourtOnward(w: World, a: Action)
    requires Inv(w) && Enabled(w, a)
    ensures var court := CourtNext(w, a);
            && (forall d :: d in w.daemons ==> d in court.daemons && (w.daemons[d].lost ==> court.daemons[d].lost))
            && (w.intact && !a.LoseDocument? ==>
                  && Recorded(w.doc) <= Recorded(court.doc)
                  && forall d :: d in w.daemons ==> court.daemons[d].incarnation == w.daemons[d].incarnation)
  {
    hide PanesOk, NoticesOk, LeasesOk, AttachedOk, WritesOk, Contested;
    if w.intact && a.Heed? {
      HeedOnlyLoses(w, a.link, a.lockFails, a.writeFails);
    }
    if w.intact && a.StoreRaise? {
      NobodyRaises(CourtOf(w), w.conns, a.daemon);
    }
  }

  lemma DeathsGrow(w: World, a: Action, p: nat)
    requires Enabled(w, a)
    ensures Deaths(Next(w, a), p) == Deaths(w, p) + if a.Revive? && a.pane == p then 1 else 0
  {
    hide PaneNext, CourtNext, ConnsNext;
  }

  lemma StepOnward(w: World, a: Action)
    requires Inv(w) && Enabled(w, a)
    ensures Onward(w, Next(w, a))
  {
    hide PaneNext, CourtNext, ConnsNext, AttachedOk, IntactOk, WritesOk, Wired, Deaths;
    CourtOnward(w, a);
    forall p | p in w.panes
      ensures Deaths(w, p) <= Deaths(Next(w, a), p)
      ensures w.panes[p].authority.Some? && Deaths(w, p) == Deaths(Next(w, a), p) ==>
                PaneNext(w, a, p).authority.Some? && w.panes[p].authority.value <= PaneNext(w, a, p).authority.value
    {
      DeathsGrow(w, a, p);
      PaneStepKeepsAttached(w, a, p);
    }
  }

  lemma {:induction false} RunsOnward(run: seq<World>, i: nat)
    requires Run(run) && i < |run|
    ensures Onward(run[i], run[|run| - 1])
  {
    hide Inv, Next, Enabled;
    var n := |run| - 1;
    if i < n {
      RunsOnward(run[..n], i);
      RunKeeps(run[..n]);
      assert Steps(run[n - 1], run[n]);
      var a :| Enabled(run[n - 1], a) && run[n] == Next(run[n - 1], a);
      StepOnward(run[n - 1], a);
      assert run[..n][i] == run[i];
    }
  }

  /** `d`, declaring its incarnation, is the one attached to pane `p`. */
  ghost predicate Drives(w: World, p: nat, d: nat) {
    && p in w.panes && w.panes[p].attached.Some? && w.panes[p].attached.value.incarnation.Some?
    && w.panes[p].attached.value.id in w.conns && w.conns[w.panes[p].attached.value.id].daemon == d
  }

  function DrivenAs(w: World, p: nat): nat
    requires p in w.panes && w.panes[p].attached.Some? && w.panes[p].attached.value.incarnation.Some?
  {
    w.panes[p].attached.value.incarnation.value
  }

  /** A declared attachment holds the pane's authority, so over any run the
      incarnations that drive a pane never go down while one holder lives - with or
      without the document. */
  lemma DeclaredNeverGoesDown(run: seq<World>, i: nat, p: nat, d: nat, e: nat)
    requires Run(run) && i < |run| && Drives(run[i], p, d) && Drives(run[|run| - 1], p, e)
    requires Deaths(run[i], p) == Deaths(run[|run| - 1], p)
    ensures run[i].panes[p].authority == Some(DrivenAs(run[i], p))
    ensures DrivenAs(run[i], p) <= DrivenAs(run[|run| - 1], p)
  {
    RunKeeps(run);
    RunKeeps(run[..i + 1]);
    RunsOnward(run, i);
    assert AttachedOk(run[i].panes[p], p, run[i].conns);
    assert AttachedOk(run[|run| - 1].panes[p], p, run[|run| - 1].conns);
  }

  /** While the document and the holder last, a pane taken over by another daemon is never won back. */
  lemma NoTradingBack(run: seq<World>, i: nat, j: nat, p: nat, d: nat, e: nat)
    requires Run(run) && i < j < |run| && run[|run| - 1].intact && d != e
    requires Drives(run[i], p, d) && Drives(run[j], p, e) && Deaths(run[i], p) == Deaths(run[|run| - 1], p)
    ensures !Drives(run[|run| - 1], p, d)
  {
    hide Run, Inv, Onward, Drives, DrivenAs, Deaths;
    var last := run[|run| - 1];
    SameLife(run, i, j, p, d);
    TakeoverIsNewer(run, i, j, p, d, e);
    if Drives(last, p, d) {
      DeclaredNeverGoesDown(run, j, p, e, d);
      SameLease(run, i, p, d);
    }
  }

  lemma SameLife(run: seq<World>, i: nat, j: nat, p: nat, d: nat)
    requires Run(run) && i < j < |run| && Drives(run[i], p, d) && Deaths(run[i], p) == Deaths(run[|run| - 1], p)
    ensures Deaths(run[j], p) == Deaths(run[i], p)
  {
    hide Run, Deaths;
    RunPrefix(run, j);
    RunsOnward(run[..j + 1], i);
    RunsOnward(run, j);
  }

  /** Between two daemons that drive a pane in turn, the later has the higher incarnation. */
  lemma TakeoverIsNewer(run: seq<World>, i: nat, j: nat, p: nat, d: nat, e: nat)
    requires Run(run) && i < j < |run| && run[|run| - 1].intact && d != e
    requires Drives(run[i], p, d) && Drives(run[j], p, e) && Deaths(run[i], p) == Deaths(run[j], p)
    ensures DrivenAs(run[i], p) < DrivenAs(run[j], p)
  {
    hide Run, Drives, DrivenAs, Deaths, PanesOk, WritesOk, NoticesOk;
    RunPrefix(run, i);
    RunPrefix(run, j);
    RunKeeps(run[..j + 1]);
    RunKeeps(run[..i + 1]);
    RunsOnward(run, j);
    RunsOnward(run[..j + 1], i);
    DeclaredNeverGoesDown(run[..j + 1], i, p, d, e);
    DrivesAsLeased(run[i], p, d);
    DrivesAsLeased(run[j], p, e);
  }

  lemma SameLease(run: seq<World>, i: nat, p: nat, d: nat)
    requires Run(run) && i < |run| && run[|run| - 1].intact && Drives(run[i], p, d) && Drives(run[|run| - 1], p, d)
    ensures DrivenAs(run[i], p) == DrivenAs(run[|run| - 1], p)
  {
    hide Run, Drives, DrivenAs, Deaths, PanesOk, WritesOk, NoticesOk;
    RunPrefix(run, i);
    RunKeeps(run);
    RunKeeps(run[..i + 1]);
    RunsOnward(run, i);
    DrivesAsLeased(run[i], p, d);
    DrivesAsLeased(run[|run| - 1], p, d);
  }

  lemma RunPrefix(run: seq<World>, i: nat)
    requires Run(run) && i < |run|
    ensures Run(run[..i + 1])
  {
  }

  lemma DrivesAsLeased(w: World, p: nat, d: nat)
    requires Inv(w) && w.intact && Drives(w, p, d)
    ensures d in w.daemons && DrivenAs(w, p) == w.daemons[d].incarnation
  {
    assert AttachedOk(w.panes[p], p, w.conns);
  }

  /** While the document lasts: no incarnation is handed out twice, at most one
      daemon holds the store, and a daemon that lost, lost to a newer one. */
  lemma LeasesAreExclusive(run: seq<World>)
    requires Run(run) && run[|run| - 1].intact
    ensures var w := run[|run| - 1];
            && (forall d, e :: d in w.daemons && e in w.daemons && d != e ==> w.daemons[d].incarnation != w.daemons[e].incarnation)
            && (forall d, e :: d in w.daemons && e in w.daemons && d != e ==>
                  !(HeldBy(w.doc, w.daemons[d].incarnation) && HeldBy(w.doc, w.daemons[e].incarnation)))
            && (forall d :: d in w.daemons && w.daemons[d].lost ==>
                  exists e :: e in w.daemons && e != d && w.daemons[d].incarnation < w.daemons[e].incarnation)
  {
    RunKeeps(run);
  }

  /** While the document lasts, a lease once overtaken never holds again. */
  lemma OvertakenForGood(run: seq<World>, i: nat, d: nat)
    requires Run(run) && i < |run| && run[|run| - 1].intact && d in run[i].daemons
    requires !HeldBy(run[i].doc, run[i].daemons[d].incarnation)
    ensures d in run[|run| - 1].daemons && !HeldBy(run[|run| - 1].doc, run[|run| - 1].daemons[d].incarnation)
  {
    RunsOnward(run, i);
    RunKeeps(run);
  }

  /** While the document lasts, every `Displaced` a declared daemon heeds ends its authority. */
  lemma DisplacedMeansLost(run: seq<World>, c: nat, lockFails: bool, writeFails: bool)
    requires Run(run) && run[|run| - 1].intact && Enabled(run[|run| - 1], Heed(c, lockFails, writeFails))
    requires LinkOf(run[|run| - 1], c).frames[0].Displaced?
    ensures var w := run[|run| - 1];
            Next(w, Heed(c, lockFails, writeFails)).daemons[w.conns[c].daemon].lost
  {
    RunKeeps(run);
    HeedOnlyLoses(run[|run| - 1], c, lockFails, writeFails);
  }
}
