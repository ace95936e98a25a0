/**
 Following a held pane: any number of daemons dial the holder, attach from the
 offset they reached, read a replay and then live frames, lose the link, dial
 again; the holder dies, is revived over what its journal kept on disk, and the
 daemons come back. In every such run each daemon is given the terminal's bytes
 at their offsets, once and in order. What it never gets was already gone from
 the journal when it attached, or lies below the offset it came back with.
 */
module Delivery {
  import opened Basics
  import opened Journals
  import opened Holders

  /** Where a daemon starts in this life of the holder: it had `reached` an offset in
      earlier lives, and a Status reply may have `told` it the journal's end. */
  datatype Start = Start(reached: nat, told: Option<nat>) {
    function From(): nat {
      if told.Some? then Repaired(reached, told.value) else reached
    }
  }

  /** The offset a repair goes on from: no further than what the revived holder has. */
  function Repaired(next: nat, end: nat): nat {
    if end < next then end else next
  }

  /** One daemon's side of a pane in this life: `given` is what it handed to `on_bytes`.
      `asked` until the holder serves its attach; `missed` is history: the
      offsets an attach of this daemon found gone from the journal. */
  datatype Follower = Follower(
    link: nat, asked: bool, declares: Option<nat>, start: Start, next: nat, given: seq<Chunk>, missed: set<nat>)

  /** A data frame at a follower: the part it has not seen yet. */
  function Fresh(next: nat, at: nat, data: seq<Byte>): Option<Chunk> {
    if at + |data| <= next then None
    else
      var skip := Min(Max(next - at, 0), |data|);
      Some(Chunk(at + skip, data[skip..]))
  }

  /** Where a follower at `next` is after a frame. */
  function After(next: nat, frame: Frame): nat {
    if frame.Bytes? then Max(next, frame.at + |frame.data|) else next
  }

  function Read(f: Follower, frame: Frame): Follower {
    if !frame.Bytes? then f
    else
      match Fresh(f.next, frame.at, frame.data)
      case None => f
      case Some(chunk) => f.(given := f.given + [chunk], next := frame.at + |frame.data|)
  }

  /** `life` counts the holder's deaths, `born` is where the journal ended when this life
      began, `stood` where each daemon of earlier lives stood when they ended, and
      `asking` the daemons that came back and have yet to dial. */
  datatype World = World(
    pane: Pane, followers: map<nat, Follower>, asking: map<nat, Start>, stood: map<nat, nat>, born: nat, life: nat)

  datatype Action =
    | Ingest(data: seq<Byte>, kept: bool, ok: bool, horizon: nat, sendFails: bool)
    | Dial(daemon: nat, link: nat, declares: Option<nat>)
    | Serve(daemon: nat, replayed: seq<Frame>, cut: Option<nat>, tellFails: bool)
    | Receive(daemon: nat)
    | Reply(id: nat, writer: Writer, fails: bool)
    | RetireFailed
    | Teardown(id: nat)
    | Cut(id: nat, arriving: nat)
    // The holder died and its successor opened what is on disk.
    | Revive(onDisk: Stream, end: nat)
    // A daemon that had `reached` an offset comes back, with or without asking for Status.
    | ComeBack(daemon: nat, reached: nat, asksStatus: bool)

  ghost predicate Enabled(w: World, a: Action) {
    && (w.pane.attached.Some? ==> w.pane.attached.value.id in w.pane.links)
    && match a
       case Ingest(_, kept, ok, _, _) => ok ==> kept
       case Dial(d, link, _) => link !in w.pane.links && (d in w.followers || d in w.asking || d !in w.stood)
       case Serve(d, replayed, _, _) =>
         && d in w.followers && w.followers[d].asked && w.followers[d].link in w.pane.links
         && Replays(replayed, w.pane.retained, w.followers[d].next)
       case Receive(d) =>
         d in w.followers && w.followers[d].link in w.pane.links && w.pane.links[w.followers[d].link].frames != []
       case Reply(id, _, _) => id in w.pane.links
       case RetireFailed => true
       case Teardown(id) => id in w.pane.links
       case Cut(id, arriving) => id in w.pane.links && arriving <= |w.pane.links[id].frames|
       // Whatever is on disk: evicted segments are gone, lost bytes are, a torn tail may be there.
       case Revive(onDisk, end) => forall o :: o in onDisk ==> o < end
       // It may have read on after the holder died, so it reached as far as it stood or further.
       case ComeBack(d, reached, _) => d in w.stood && d !in w.followers && w.stood[d] <= reached
  }

  /** What the attach of `f` steps over: offsets from `f.next` on the journal no longer has. */
  function Gone(p: Pane, f: Follower): set<nat> {
    set o | o in p.ingested && o !in p.retained && f.next <= o
  }

  function Starting(link: nat, declares: Option<nat>, start: Start): Follower {
    Follower(link, true, declares, start, start.From(), [], {})
  }

  function Dialled(w: World, d: nat, link: nat, declares: Option<nat>): Follower {
    if d in w.followers then w.followers[d].(link := link, asked := true, declares := declares)
    else Starting(link, declares, if d in w.asking then w.asking[d] else Start(0, None))
  }

  /** Where every daemon stands when a life ends. */
  function Standing(w: World): map<nat, nat> {
    map d | d in w.stood.Keys + w.followers.Keys :: if d in w.followers then w.followers[d].next else w.stood[d]
  }

  function Next(w: World, a: Action): World
    requires Enabled(w, a)
  {
    match a
    case Ingest(data, kept, ok, horizon, sendFails) => w.(pane := w.pane.Ingest(data, kept, ok, horizon, sendFails))
    case Dial(d, link, declares) =>
      w.(pane := w.pane.(links := w.pane.links[link := Channel([], true)]),
         followers := w.followers[d := Dialled(w, d, link, declares)])
    case Serve(d, replayed, cut, tellFails) =>
      var f := w.followers[d];
      var missed := if w.pane.Admits(f.declares).Admit? then f.missed + Gone(w.pane, f) else f.missed;
      w.(pane := w.pane.Attach(f.link, Own, f.declares, replayed, cut, tellFails).0,
         followers := w.followers[d := f.(asked := false, missed := missed)])
    case Receive(d) =>
      var f := w.followers[d];
      var channel := w.pane.links[f.link];
      w.(pane := w.pane.(links := w.pane.links[f.link := channel.(frames := channel.frames[1..])]),
         followers := w.followers[d := Read(f, channel.frames[0])])
    case Reply(id, writer, fails) => w.(pane := w.pane.Reply(id, writer, Control, fails))
    case RetireFailed => w.(pane := w.pane.RetireFailed())
    case Teardown(id) => w.(pane := w.pane.Teardown(id))
    case Cut(id, arriving) => w.(pane := w.pane.Cut(id, arriving))
    case Revive(onDisk, end) =>
      World(Pane(onDisk, onDisk, end, None, None, map[]), map[], map[], Standing(w), end, w.life + 1)
    case ComeBack(d, reached, asksStatus) =>
      w.(asking := w.asking[d := Start(reached, if asksStatus then Some(w.pane.end) else None)])
  }

  // ----- the invariant

  ghost predicate WasGiven(given: seq<Chunk>, o: nat) {
    exists i :: 0 <= i < |given| && given[i].at <= o < given[i].at + |given[i].data|
  }

  /** The calls so far: ascending, never overlapping, and true to the stream. */
  ghost predicate GivenInOrder(given: seq<Chunk>, ingested: Stream, next: nat) {
    && (forall i, j :: 0 <= i < j < |given| ==> given[i].at + |given[i].data| <= given[j].at)
    && (forall i :: 0 <= i < |given| ==> Matches(ingested, given[i].at, given[i].data) && given[i].at + |given[i].data| <= next)
  }

  ghost predicate GivenFrom(given: seq<Chunk>, from: nat) {
    forall i :: 0 <= i < |given| ==> from <= given[i].at
  }

  /** A frame that reaches past `next` carries the stream on from there, but for `missed`. */
  ghost predicate CarriesOn(next: nat, frame: Frame, ingested: Stream, missed: set<nat>) {
    frame.Bytes? ==>
      && Matches(ingested, frame.at, frame.data)
      && (next < frame.at + |frame.data| ==> forall o :: o in ingested && next <= o < frame.at ==> o in missed)
  }

  /** Unread frames carry the stream on from `next`, and step only over `missed`. */
  ghost predicate Justified(next: nat, frames: seq<Frame>, ingested: Stream, missed: set<nat>)
    decreases |frames|
  {
    frames != [] ==>
      CarriesOn(next, frames[0], ingested, missed) && Justified(After(next, frames[0]), frames[1..], ingested, missed)
  }

  /** Where a follower at `next` is once it has read `frames`. */
  ghost function Reach(next: nat, frames: seq<Frame>): nat
    decreases |frames|
  {
    if frames == [] then next else Reach(After(next, frames[0]), frames[1..])
  }

  ghost predicate FramesBelow(frames: seq<Frame>, end: nat) {
    forall i :: 0 <= i < |frames| && frames[i].Bytes? ==> frames[i].at + |frames[i].data| <= end
  }

  ghost predicate PaneOk(p: Pane) {
    && (p.attached.Some? ==> p.attached.value.id in p.links)
    && (forall o :: o in p.ingested ==> o < p.end)
    && (forall o :: o in p.retained ==> o in p.ingested && p.ingested[o] == p.retained[o])
  }

  ghost predicate PastOk(p: Pane, f: Follower) {
    var from := f.start.From();
    && GivenInOrder(f.given, p.ingested, f.next) && GivenFrom(f.given, from) && from <= f.next <= Max(p.end, from)
    && (forall o :: o in p.ingested && from <= o < f.next ==> WasGiven(f.given, o) || o in f.missed)
    && (forall o :: o in f.missed ==> o in p.ingested && o !in p.retained)
  }

  /** What is still to come on the channel; all of it, if the channel is live. */
  ghost predicate ComingOk(p: Pane, f: Follower, channel: Channel, live: bool) {
    && Justified(f.next, channel.frames, p.ingested, f.missed)
    && FramesBelow(channel.frames, p.end)
    && (live ==> forall o :: o in p.ingested && Reach(f.next, channel.frames) <= o ==> o in f.missed)
  }

  /** Replies to what was asked before the attach, perhaps, but nothing of the stream. */
  predicate NoData(frames: seq<Frame>) {
    forall i :: 0 <= i < |frames| ==> !frames[i].Bytes?
  }

  ghost predicate FollowOk(p: Pane, f: Follower) {
    && f.link in p.links && PastOk(p, f)
    && (if f.asked then NoData(p.links[f.link].frames) && !p.AttachedTo(f.link)
        else ComingOk(p, f, p.links[f.link], p.AttachedTo(f.link) && p.links[f.link].open))
  }

  /** A start is one a daemon can have: from 0 if new, from where it stood or further
      if not, and a Status reply was of this life. */
  ghost predicate StartOk(w: World, d: nat, s: Start) {
    && (d in w.stood ==> w.stood[d] <= s.reached)
    && (d !in w.stood ==> s == Start(0, None))
    && (s.told.Some? ==> w.born <= s.told.value <= w.pane.end)
  }

  ghost predicate StartsOk(w: World) {
    && (forall d :: d in w.followers ==> StartOk(w, d, w.followers[d].start))
    && (forall d :: d in w.asking ==> StartOk(w, d, w.asking[d]))
    && w.born <= w.pane.end && (w.life == 0 ==> w.stood == map[])
  }

  ghost predicate Inv(w: World) {
    && PaneOk(w.pane) && StartsOk(w)
    && (forall d :: d in w.followers ==> FollowOk(w.pane, w.followers[d]))
    && (forall c, d :: c in w.followers && d in w.followers && c != d ==> w.followers[c].link != w.followers[d].link)
  }

  // ----- frames

  lemma {:induction false} JustifiedThen(next: nat, frames: seq<Frame>, more: seq<Frame>, ingested: Stream, missed: set<nat>)
    ensures Reach(next, frames + more) == Reach(Reach(next, frames), more)
    ensures Justified(next, frames + more, ingested, missed)
            <==> Justified(next, frames, ingested, missed) && Justified(Reach(next, frames), more, ingested, missed)
    decreases |frames|
  {
    if frames == [] {
      assert frames + more == more;
    } else {
      assert (frames + more)[1..] == frames[1..] + more;
      JustifiedThen(After(next, frames[0]), frames[1..], more, ingested, missed);
    }
  }

  lemma {:induction false} ReachGrows(next: nat, frames: seq<Frame>)
    ensures next <= Reach(next, frames)
    decreases |frames|
  {
    if frames != [] {
      ReachGrows(After(next, frames[0]), frames[1..]);
    }
  }

  /** More of the stream past `end` takes no justification of frames below it away. */
  lemma {:induction false} JustifiedStays(next: nat, frames: seq<Frame>, ingested: Stream, missed: set<nat>, ingested': Stream, end: nat)
    requires Justified(next, frames, ingested, missed) && FramesBelow(frames, end)
    requires Extends(ingested', ingested) && forall o :: o in ingested' && o < end ==> o in ingested
    ensures Justified(next, frames, ingested', missed)
    decreases |frames|
  {
    if frames != [] {
      if frames[0].Bytes? {
        assert Matches(ingested, frames[0].at, frames[0].data);
      }
      JustifiedStays(After(next, frames[0]), frames[1..], ingested, missed, ingested', end);
    }
  }

  /** A replay carries on from where it was asked to and leaves out only what is gone. */
  lemma {:induction false} ReplayJustified(p: Pane, from: nat, next: nat, frames: seq<Frame>, missed: set<nat>)
    requires PaneOk(p) && Replays(frames, p.retained, next) && from <= next
    requires forall o :: o in p.ingested && o !in p.retained && from <= o ==> o in missed
    ensures Justified(next, frames, p.ingested, missed) && FramesBelow(frames, p.end)
    ensures forall o :: o in p.ingested && Reach(next, frames) <= o ==> o in missed
    decreases |frames|
  {
    if frames == [] {
      forall o | o in p.ingested && next <= o ensures o in missed {
        assert o !in p.retained;
      }
    } else {
      var at, data := frames[0].at, frames[0].data;
      assert at + |data| - 1 in p.retained;
      assert Matches(p.ingested, at, data);
      ReplayJustified(p, from, at + |data|, frames[1..], missed);
    }
  }

  // ----- each step keeps the invariant, follower by follower

  /** From `before` to `after` a channel at most loses its tail or gains one
      frame without data, and goes live no more than it was. */
  ghost predicate QuietChannel(before: Channel, after: Channel) {
    || after == before
    || (!after.open && after.frames <= before.frames)
    || (exists f: Frame :: !f.Bytes? && after.frames == before.frames + [f] && (after.open ==> before.open))
  }

  ghost predicate Quiet(p: Pane, p': Pane, id: nat) {
    && p'.ingested == p.ingested && p'.end == p.end && p'.retained == p.retained
    && id in p.links && id in p'.links
    && QuietChannel(p.links[id], p'.links[id])
    && (p'.AttachedTo(id) ==> p.AttachedTo(id))
  }

  /** A step that feeds nothing keeps what every follower relies on. */
  lemma QuietKeeps(p: Pane, p': Pane, f: Follower)
    requires FollowOk(p, f) && Quiet(p, p', f.link)
    ensures FollowOk(p', f)
  {
    hide PastOk, CarriesOn;
    var before, after := p.links[f.link].frames, p'.links[f.link].frames;
    PastOnlyNeedsStream(p, p', f);
    if !f.asked {
      if after <= before {
        JustifiedThen(f.next, after, before[|after|..], p.ingested, f.missed);
        assert after + before[|after|..] == before;
      } else {
        JustifiedThen(f.next, before, [after[|before|]], p.ingested, f.missed);
        JustifiedControl(Reach(f.next, before), after[|before|], p.ingested, f.missed);
      }
    }
  }

  lemma JustifiedControl(next: nat, frame: Frame, ingested: Stream, missed: set<nat>)
    requires !frame.Bytes?
    ensures Justified(next, [frame], ingested, missed) && Reach(next, [frame]) == next
  {
  }

  lemma PastOnlyNeedsStream(p: Pane, p': Pane, f: Follower)
    requires PastOk(p, f) && p'.ingested == p.ingested && p'.retained == p.retained && p'.end == p.end
    ensures PastOk(p', f)
  {
  }

  lemma IngestKeepsPast(p: Pane, f: Follower, data: seq<Byte>, kept: bool, horizon: nat, p': Pane)
    requires PaneOk(p) && PastOk(p, f)
    requires p'.ingested == p.ingested + Placed(p.end, data) && p'.end >= p.end + |data|
    requires p'.retained == if kept then From(p.retained + Placed(p.end, data), horizon) else p.retained
    ensures PastOk(p', f)
  {
    forall i | 0 <= i < |f.given| ensures Matches(p'.ingested, f.given[i].at, f.given[i].data) {
      assert Matches(p.ingested, f.given[i].at, f.given[i].data);
    }
  }

  lemma IngestKeeps(p: Pane, f: Follower, data: seq<Byte>, kept: bool, ok: bool, horizon: nat, sendFails: bool)
    requires PaneOk(p) && FollowOk(p, f) && (ok ==> kept)
    ensures FollowOk(p.Ingest(data, kept, ok, horizon, sendFails), f)
  {
    hide PastOk, ComingOk, From;
    var p' := p.Ingest(data, kept, ok, horizon, sendFails);
    IngestKeepsPast(p, f, data, kept, horizon, p');
    if !f.asked {
      FedOrNot(p, f, p.links[f.link], p.AttachedTo(f.link) && p.links[f.link].open, data, p');
    }
  }

  /** A chunk reaches a live channel or one that is not live any more. */
  lemma FedOrNot(p: Pane, f: Follower, channel: Channel, live: bool, data: seq<Byte>, p': Pane)
    requires PaneOk(p) && ComingOk(p, f, channel, live)
    requires p'.ingested == p.ingested + Placed(p.end, data) && p'.end >= p.end + |data|
    ensures ComingOk(p', f, channel, false) && ComingOk(p', f, channel.Shut(), false)
    ensures live ==> ComingOk(p', f, channel.(frames := channel.frames + [Bytes(p.end, data)]), live)
  {
    hide Matches, Justified, Reach;
    var frame := Bytes(p.end, data);
    JustifiedStays(f.next, channel.frames, p.ingested, f.missed, p'.ingested, p.end);
    JustifiedThen(f.next, channel.frames, [frame], p'.ingested, f.missed);
    FrameAlone(Reach(f.next, channel.frames), frame, p'.ingested, f.missed);
    PlacedMatches(p.ingested, p.end, data);
  }

  lemma FrameAlone(next: nat, frame: Frame, ingested: Stream, missed: set<nat>)
    ensures Justified(next, [frame], ingested, missed) <==> CarriesOn(next, frame, ingested, missed)
    ensures Reach(next, [frame]) == After(next, frame)
  {
    assert [frame][1..] == [];
  }

  lemma PlacedMatches(stream: Stream, at: nat, data: seq<Byte>)
    ensures Matches(stream + Placed(at, data), at, data)
  {
  }

  /** A frame that carries on takes a follower on. */
  lemma ReadKeepsPast(p: Pane, f: Follower, at: nat, data: seq<Byte>)
    requires PastOk(p, f) && at + |data| <= p.end && CarriesOn(f.next, Bytes(at, data), p.ingested, f.missed)
    ensures PastOk(p, Read(f, Bytes(at, data)))
  {
    hide Matches, WasGiven, GivenInOrder, GivenFrom, Start.From;
    if at + |data| > f.next {
      var skip := Min(Max(f.next - at, 0), |data|);
      var chunk := Chunk(at + skip, data[skip..]);
      TrueTail(p.ingested, at, data, skip);
      InOrderOn(f.given, p.ingested, f.next, f.start.From(), chunk);
      forall o | o in p.ingested && f.start.From() <= o < at + |data| ensures WasGiven(f.given + [chunk], o) || o in f.missed {
        GivenMore(f.given, chunk, o);
      }
    }
  }

  lemma InOrderOn(given: seq<Chunk>, stream: Stream, next: nat, from: nat, chunk: Chunk)
    requires GivenInOrder(given, stream, next) && next <= chunk.at && Matches(stream, chunk.at, chunk.data)
    ensures GivenInOrder(given + [chunk], stream, chunk.at + |chunk.data|)
    ensures GivenFrom(given, from) && from <= next ==> GivenFrom(given + [chunk], from)
  {
    hide Matches;
  }

  lemma TrueTail(stream: Stream, at: nat, data: seq<Byte>, skip: nat)
    requires Matches(stream, at, data) && skip <= |data|
    ensures Matches(stream, at + skip, data[skip..])
  {
  }

  lemma GivenMore(given: seq<Chunk>, chunk: Chunk, o: nat)
    ensures WasGiven(given, o) || chunk.at <= o < chunk.at + |chunk.data| ==> WasGiven(given + [chunk], o)
  {
    var more := given + [chunk];
    assert more[|given|] == chunk;
    if WasGiven(given, o) {
      var i :| 0 <= i < |given| && given[i].at <= o < given[i].at + |given[i].data|;
      assert more[i] == given[i];
    }
  }

  lemma ReceiveKeeps(p: Pane, p': Pane, f: Follower)
    requires FollowOk(p, f) && p.links[f.link].frames != []
    requires var channel := p.links[f.link];
             p' == p.(links := p.links[f.link := channel.(frames := channel.frames[1..])])
    ensures FollowOk(p', Read(f, p.links[f.link].frames[0]))
  {
    hide PastOk, CarriesOn, Fresh;
    var frame := p.links[f.link].frames[0];
    ReadGoesOn(f, frame);
    if frame.Bytes? {
      ReadKeepsPast(p, f, frame.at, frame.data);
    }
    PastOnlyNeedsStream(p, p', Read(f, frame));
  }

  lemma ReadGoesOn(f: Follower, frame: Frame)
    ensures var g := Read(f, frame); g.next == After(f.next, frame) && g == f.(given := g.given, next := g.next)
  {
  }

  lemma {:induction false} NoDataCarriesOn(next: nat, frames: seq<Frame>, ingested: Stream, missed: set<nat>)
    requires NoData(frames)
    ensures Justified(next, frames, ingested, missed) && Reach(next, frames) == next
    decreases |frames|
  {
    if frames != [] {
      NoDataCarriesOn(next, frames[1..], ingested, missed);
    }
  }

  /** What serving an attach does to its own channel. */
  lemma Served(p: Pane, id: nat, declares: Option<nat>, replayed: seq<Frame>, cut: Option<nat>, tellFails: bool)
    requires PaneOk(p) && id in p.links && NoData(p.links[id].frames) && !p.AttachedTo(id)
    ensures var p' := p.Attach(id, Own, declares, replayed, cut, tellFails).0;
            && p'.ingested == p.ingested && p'.end == p.end && p'.retained == p.retained && id in p'.links
            && (p.Admits(declares).Admit? ==>
                  && p'.links[id].frames == p.links[id].frames
                                            + (if p.links[id].open then (if cut.Some? then replayed[..Min(cut.value, |replayed|)] else replayed) else [])
                  && (p'.AttachedTo(id) ==> cut.None?)
                  && (p'.links[id].open ==> p.links[id].open))
            && (!p.Admits(declares).Admit? ==>
                  && !p'.AttachedTo(id)
                  && NoData(p'.links[id].frames))
  {
    hide Pane.Attach;
    WhoGetsThePane(p, id, declares, replayed, cut, tellFails);
    WhatItReads(p, id, declares, replayed, cut, tellFails);
    assert p.links[id].frames + [] == p.links[id].frames;
  }

  lemma ServeKeeps(p: Pane, f: Follower, replayed: seq<Frame>, cut: Option<nat>, tellFails: bool)
    requires PaneOk(p) && FollowOk(p, f) && f.asked && Replays(replayed, p.retained, f.next)
    ensures var missed := if p.Admits(f.declares).Admit? then f.missed + Gone(p, f) else f.missed;
            FollowOk(p.Attach(f.link, Own, f.declares, replayed, cut, tellFails).0, f.(asked := false, missed := missed))
  {
    hide Pane.Attach, PastOk, Justified, Reach, Replays, Pane.Admits;
    Served(p, f.link, f.declares, replayed, cut, tellFails);
    var p' := p.Attach(f.link, Own, f.declares, replayed, cut, tellFails).0;
    if p.Admits(f.declares).Admit? {
      var g := f.(asked := false, missed := f.missed + Gone(p, f));
      MissesMore(p, f);
      PastOnlyNeedsStream(p, p', g);
      ReplayComing(p, g, p.links[f.link], replayed, cut, p', p'.links[f.link]);
    } else {
      var g := f.(asked := false);
      PastSoFar(p, f);
      PastOnlyNeedsStream(p, p', g);
      NothingComing(p', g, p'.links[f.link]);
    }
  }

  lemma MissesMore(p: Pane, f: Follower)
    requires PastOk(p, f)
    ensures PastOk(p, f.(asked := false, missed := f.missed + Gone(p, f)))
  {
    hide WasGiven, GivenInOrder;
  }

  lemma PastSoFar(p: Pane, f: Follower)
    requires PastOk(p, f)
    ensures PastOk(p, f.(asked := false))
  {
  }

  /** A refused follower's channel brings no data. */
  lemma NothingComing(p: Pane, f: Follower, channel: Channel)
    requires NoData(channel.frames)
    ensures ComingOk(p, f, channel, false)
  {
    NoDataCarriesOn(f.next, channel.frames, p.ingested, f.missed);
  }

  /** An admitted one's brings the replay, or the part of it that got through. */
  lemma ReplayComing(p: Pane, f: Follower, before: Channel, replayed: seq<Frame>, cut: Option<nat>, p': Pane, channel: Channel)
    requires PaneOk(p) && NoData(before.frames) && Replays(replayed, p.retained, f.next) && Gone(p, f) <= f.missed
    requires p'.ingested == p.ingested && p'.end == p.end && (channel.open ==> before.open)
    requires channel.frames == before.frames
                               + (if before.open then (if cut.Some? then replayed[..Min(cut.value, |replayed|)] else replayed) else [])
    ensures ComingOk(p', f, channel, cut.None? && channel.open)
  {
    hide Replays, NoData;
    ReplayJustified(p, f.next, f.next, replayed, f.missed);
    NoDataCarriesOn(f.next, before.frames, p.ingested, f.missed);
    var n := if !before.open then 0 else if cut.Some? then Min(cut.value, |replayed|) else |replayed|;
    assert replayed == replayed[..n] + replayed[n..] && channel.frames == before.frames + replayed[..n];
    JustifiedThen(f.next, replayed[..n], replayed[n..], p.ingested, f.missed);
    JustifiedThen(f.next, before.frames, replayed[..n], p.ingested, f.missed);
    assert n == |replayed| ==> replayed[..n] == replayed;
    BelowBoth(before.frames, replayed, n, p.end);
  }

  lemma BelowBoth(before: seq<Frame>, replayed: seq<Frame>, n: nat, end: nat)
    requires NoData(before) && FramesBelow(replayed, end) && n <= |replayed|
    ensures FramesBelow(before + replayed[..n], end)
  {
  }

  /** What serving an attach does to every other channel: it takes nothing from it, and adds
      no data. */
  lemma ServeIsQuiet(p: Pane, id: nat, declares: Option<nat>, replayed: seq<Frame>, cut: Option<nat>, tellFails: bool, other: nat)
    requires PaneOk(p) && id in p.links && other in p.links && other != id && !p.AttachedTo(id)
    ensures Quiet(p, p.Attach(id, Own, declares, replayed, cut, tellFails).0, other)
    ensures p.links[other].frames <= p.Attach(id, Own, declares, replayed, cut, tellFails).0.links[other].frames
  {
    hide Quiet;
    if p.Admits(declares).Admit? && cut.None? && p.attached.Some? && p.attached.value.id == other {
      RetireIsQuiet(p, id, declares, replayed, tellFails);
    } else {
      BystanderIsQuiet(p, id, declares, replayed, cut, tellFails, other);
    }
  }

  lemma RetireIsQuiet(p: Pane, id: nat, declares: Option<nat>, replayed: seq<Frame>, tellFails: bool)
    requires id in p.links && p.Admits(declares).Admit? && p.attached.Some? && p.attached.value.id in p.links && p.attached.value.id != id
    ensures Quiet(p, p.Attach(id, Own, declares, replayed, None, tellFails).0, p.attached.value.id)
    ensures p.links[p.attached.value.id].frames <= p.Attach(id, Own, declares, replayed, None, tellFails).0.links[p.attached.value.id].frames
  {
  }

  lemma BystanderIsQuiet(p: Pane, id: nat, declares: Option<nat>, replayed: seq<Frame>, cut: Option<nat>, tellFails: bool, other: nat)
    requires id in p.links && other in p.links && other != id && !p.AttachedTo(id)
    requires p.attached.Some? ==> p.attached.value.id in p.links
    requires p.AttachedTo(other) ==> !p.Admits(declares).Admit? || cut.Some?
    ensures Quiet(p, p.Attach(id, Own, declares, replayed, cut, tellFails).0, other)
    ensures p.links[other].frames <= p.Attach(id, Own, declares, replayed, cut, tellFails).0.links[other].frames
  {
    hide QuietChannel;
    SameIsQuiet();
  }

  lemma SameIsQuiet()
    ensures forall channel :: QuietChannel(channel, channel)
  {
  }

  // ----- the whole system

  lemma StepKeepsFollower(w: World, a: Action, d: nat)
    requires Inv(w) && Enabled(w, a) && d in Next(w, a).followers
    ensures FollowOk(Next(w, a).pane, Next(w, a).followers[d])
  {
    hide Pane.Attach, Pane.Ingest, Pane.Reply, Justified, Reach, CarriesOn, PastOk, ComingOk, StartsOk, Replays, Matches, NoData;
    var p, p' := w.pane, Next(w, a).pane;
    match a
    case Ingest(data, kept, ok, horizon, sendFails) => IngestKeeps(p, w.followers[d], data, kept, ok, horizon, sendFails);
    case Serve(e, replayed, cut, tellFails) =>
      if d == e {
        ServeKeeps(p, w.followers[d], replayed, cut, tellFails);
      } else {
        ServeIsQuiet(p, w.followers[e].link, w.followers[e].declares, replayed, cut, tellFails, w.followers[d].link);
        QuietKeeps(p, p', w.followers[d]);
      }
    case Receive(e) =>
      if d == e {
        ReceiveKeeps(p, p', w.followers[d]);
      } else {
        QuietKeeps(p, p', w.followers[d]);
      }
    case Dial(e, link, declares) =>
      if d == e {
        DialKeeps(w, d, link, declares);
      } else {
        QuietKeeps(p, p', w.followers[d]);
      }
    case Reply(id, writer, fails) =>
      ReplyIsQuiet(p, id, writer, fails, w.followers[d].link);
      QuietKeeps(p, p', w.followers[d]);
    case Revive(_, _) =>
    case _ => QuietKeeps(p, p', w.followers[d]);
  }

  lemma ReplyIsQuiet(p: Pane, id: nat, writer: Writer, fails: bool, other: nat)
    requires PaneOk(p) && id in p.links && other in p.links
    ensures Quiet(p, p.Reply(id, writer, Control, fails), other)
  {
  }

  lemma DialKeeps(w: World, d: nat, link: nat, declares: Option<nat>)
    requires Inv(w) && link !in w.pane.links
    ensures var p := w.pane; FollowOk(p.(links := p.links[link := Channel([], true)]), Dialled(w, d, link, declares))
  {
  }

  lemma StepKeeps(w: World, a: Action)
    requires Inv(w) && Enabled(w, a)
    ensures Inv(Next(w, a))
  {
    hide FollowOk, Pane.Attach;
    forall d | d in Next(w, a).followers ensures FollowOk(Next(w, a).pane, Next(w, a).followers[d]) {
      StepKeepsFollower(w, a, d);
    }
    StepKeepsPane(w, a);
    StepKeepsStarts(w, a);
    LinksStayApart(w, a);
  }

  lemma StepKeepsPane(w: World, a: Action)
    requires Inv(w) && Enabled(w, a)
    ensures PaneOk(Next(w, a).pane)
  {
    hide Replays, Matches, StartsOk, PastOk, ComingOk, Pane.Attach, Pane.Ingest;
    match a
    case Ingest(data, kept, ok, horizon, sendFails) => IngestKeepsPane(w.pane, data, kept, ok, horizon, sendFails);
    case Serve(d, replayed, cut, tellFails) =>
      AttachKeepsPane(w.pane, w.followers[d].link, w.followers[d].declares, replayed, cut, tellFails);
    case _ =>
  }

  lemma IngestKeepsPane(p: Pane, data: seq<Byte>, kept: bool, ok: bool, horizon: nat, sendFails: bool)
    requires PaneOk(p) && (ok ==> kept)
    ensures PaneOk(p.Ingest(data, kept, ok, horizon, sendFails))
  {
  }

  lemma AttachKeepsPane(p: Pane, id: nat, declares: Option<nat>, replayed: seq<Frame>, cut: Option<nat>, tellFails: bool)
    requires PaneOk(p) && id in p.links && !p.AttachedTo(id)
    ensures PaneOk(p.Attach(id, Own, declares, replayed, cut, tellFails).0)
  {
    hide Pane.Attach;
    WhoGetsThePane(p, id, declares, replayed, cut, tellFails);
  }

  lemma StepKeepsStarts(w: World, a: Action)
    requires PaneOk(w.pane) && StartsOk(w) && Enabled(w, a)
    ensures StartsOk(Next(w, a))
  {
    hide PaneOk, Replays, From, Pane.Attach, Pane.Ingest, StartOk;
    EndGrows(w, a);
    forall d, s: Start | StartOk(w, d, s) && !a.Revive? ensures StartOk(Next(w, a), d, s) {
      StartStays(w, a, d, s);
    }
    if a.ComeBack? {
      NewStart(w, a.daemon, a.reached, a.asksStatus);
    }
    if a.Dial? && a.daemon !in w.followers && a.daemon !in w.asking {
      FirstStart(w, a.daemon);
    }
  }

  lemma EndGrows(w: World, a: Action)
    requires Enabled(w, a)
    ensures !a.Revive? ==> w.pane.end <= Next(w, a).pane.end
  {
    hide Replays;
  }

  lemma StartStays(w: World, a: Action, d: nat, s: Start)
    requires Enabled(w, a) && !a.Revive? && StartOk(w, d, s)
    ensures StartOk(Next(w, a), d, s)
  {
    hide Replays, Pane.Attach, Pane.Ingest;
    EndGrows(w, a);
  }

  lemma NewStart(w: World, d: nat, reached: nat, asksStatus: bool)
    requires d in w.stood && w.stood[d] <= reached && w.born <= w.pane.end
    ensures StartOk(w, d, Start(reached, if asksStatus then Some(w.pane.end) else None))
  {
  }

  lemma FirstStart(w: World, d: nat)
    requires d !in w.stood
    ensures StartOk(w, d, Start(0, None))
  {
  }

  lemma LinksStayApart(w: World, a: Action)
    requires Inv(w) && Enabled(w, a)
    ensures var fs := Next(w, a).followers; forall c, d :: c in fs && d in fs && c != d ==> fs[c].link != fs[d].link
  {
    hide PaneOk, StartsOk, PastOk, ComingOk, Replays, Pane.Attach, Pane.Ingest;
  }

  // ----- runs

  ghost predicate Init(w: World) {
    && w.followers == map[] && w.asking == map[] && w.stood == map[] && w.life == 0 && w.born == w.pane.end
    && w.pane.attached == None && w.pane.authority == None && w.pane.links == map[]
    && w.pane.ingested == w.pane.retained && forall o :: o in w.pane.ingested ==> o < w.pane.end
  }

  ghost predicate Steps(w: World, w': World) {
    exists a :: Enabled(w, a) && w' == Next(w, a)
  }

  ghost predicate Run(run: seq<World>) {
    && run != [] && Init(run[0])
    && forall i :: 0 <= i < |run| - 1 ==> Steps(run[i], run[i + 1])
  }

  lemma {:induction false} RunKeeps(run: seq<World>)
    requires Run(run)
    ensures Inv(run[|run| - 1])
  {
    hide Inv, Next, Enabled;
    if |run| == 1 {
      InitInv(run[0]);
    } else {
      RunKeeps(run[..|run| - 1]);
      assert Steps(run[|run| - 2], run[|run| - 1]);
      var a :| Enabled(run[|run| - 2], a) && run[|run| - 1] == Next(run[|run| - 2], a);
      StepKeeps(run[|run| - 2], a);
    }
  }

  lemma InitInv(w: World)
    requires Init(w)
    ensures Inv(w)
  {
  }

  /** The holder admitted an attach of `d` when the journal no longer had `o`,
      which `d` had not passed yet. */
  ghost predicate SteppedOver(w: World, w': World, d: nat, o: nat) {
    && d in w.followers && o in Gone(w.pane, w.followers[d])
    && w.pane.Admits(w.followers[d].declares).Admit?
    && exists replayed, cut, tellFails ::
           Enabled(w, Serve(d, replayed, cut, tellFails)) && w' == Next(w, Serve(d, replayed, cut, tellFails))
  }

  lemma MissedGrows(w: World, a: Action, d: nat, o: nat)
    requires Enabled(w, a) && d in Next(w, a).followers && o in Next(w, a).followers[d].missed
    ensures (d in w.followers && o in w.followers[d].missed) || SteppedOver(w, Next(w, a), d, o)
  {
    if a.Serve? && a.daemon == d && o !in w.followers[d].missed {
      assert a == Serve(d, a.replayed, a.cut, a.tellFails);
    }
  }

  lemma NoneAtFirst(run: seq<World>, d: nat)
    requires Run(run) && d in run[|run| - 1].followers
    ensures |run| > 1
  {
  }

  lemma RunBefore(run: seq<World>, n: nat)
    requires Run(run) && 0 < n <= |run|
    ensures Run(run[..n])
  {
    hide Init, Steps;
    assert forall i :: 0 <= i < n ==> run[..n][i] == run[i];
  }

  lemma {:induction false} MissedWasSteppedOver(run: seq<World>, d: nat, o: nat)
    requires Run(run) && d in run[|run| - 1].followers && o in run[|run| - 1].followers[d].missed
    ensures exists i :: 0 <= i < |run| - 1 && SteppedOver(run[i], run[i + 1], d, o)
  {
    hide SteppedOver, Next, Enabled, Init;
    var n := |run| - 1;
    NoneAtFirst(run, d);
    RunBefore(run, n);
    assert Steps(run[n - 1], run[n]);
    var a :| Enabled(run[n - 1], a) && run[n] == Next(run[n - 1], a);
    MissedGrows(run[n - 1], a, d, o);
    if !SteppedOver(run[n - 1], run[n], d, o) {
      assert run[..n][n - 1] == run[n - 1];
      MissedWasSteppedOver(run[..n], d, o);
      var i :| 0 <= i < n - 1 && SteppedOver(run[..n][i], run[..n][i + 1], d, o);
      assert run[..n][i] == run[i] && run[..n][i + 1] == run[i + 1];
    }
  }

  ghost predicate Extends(stream: Stream, older: Stream) {
    forall o :: o in older ==> o in stream && stream[o] == older[o]
  }

  lemma IngestExtends(p: Pane, data: seq<Byte>, kept: bool, ok: bool, horizon: nat, sendFails: bool)
    requires PaneOk(p)
    ensures Extends(p.Ingest(data, kept, ok, horizon, sendFails).ingested, p.ingested)
  {
  }

  lemma AttachSameStream(p: Pane, id: nat, declares: Option<nat>, replayed: seq<Frame>, cut: Option<nat>, tellFails: bool)
    requires id in p.links && (p.attached.Some? ==> p.attached.value.id in p.links)
    ensures p.Attach(id, Own, declares, replayed, cut, tellFails).0.ingested == p.ingested
  {
  }

  lemma StepExtends(w: World, a: Action)
    requires Inv(w) && Enabled(w, a) && !a.Revive?
    ensures Extends(Next(w, a).pane.ingested, w.pane.ingested)
  {
    hide FollowOk, StartsOk, Pane.Attach, Replays, Matches;
    if a.Ingest? {
      IngestExtends(w.pane, a.data, a.kept, a.ok, a.horizon, a.sendFails);
    } else if a.Serve? {
      AttachSameStream(w.pane, w.followers[a.daemon].link, w.followers[a.daemon].declares, a.replayed, a.cut, a.tellFails);
    }
  }

  lemma LifeGrows(w: World, a: Action)
    requires Enabled(w, a)
    ensures Next(w, a).life == w.life + if a.Revive? then 1 else 0
    ensures !a.Revive? ==> Next(w, a).born == w.born && Next(w, a).stood == w.stood
  {
  }

  lemma {:induction false} LivesInOrder(run: seq<World>, i: nat)
    requires Run(run) && i < |run|
    ensures run[i].life <= run[|run| - 1].life
  {
    hide Next, Enabled, Init;
    var n := |run| - 1;
    if i < n {
      RunBefore(run, n);
      LivesInOrder(run[..n], i);
      assert Steps(run[n - 1], run[n]);
      var a :| Enabled(run[n - 1], a) && run[n] == Next(run[n - 1], a);
      LifeGrows(run[n - 1], a);
    }
  }

  /** Within one life of the holder the terminal's stream only grows; what was live at an
      offset stays there. */
  lemma {:induction false} StreamOnlyGrows(run: seq<World>, i: nat)
    requires Run(run) && i < |run| && run[i].life == run[|run| - 1].life
    ensures Extends(run[|run| - 1].pane.ingested, run[i].pane.ingested)
  {
    hide Inv, Next, Enabled;
    var n := |run| - 1;
    if i < n {
      RunBefore(run, n);
      LivesInOrder(run[..n], i);
      assert Steps(run[n - 1], run[n]);
      var a :| Enabled(run[n - 1], a) && run[n] == Next(run[n - 1], a);
      LifeGrows(run[n - 1], a);
      StreamOnlyGrows(run[..n], i);
      RunKeeps(run[..n]);
      StepExtends(run[n - 1], a);
    }
  }

  /** A follower that has read all its live channel brought. */
  ghost predicate Drained(w: World, d: nat) {
    && d in w.followers && !w.followers[d].asked
    && w.followers[d].link in w.pane.links && w.pane.links[w.followers[d].link] == Channel([], true)
    && w.pane.AttachedTo(w.followers[d].link)
  }

  /** Exactly-once delivery, in every run, every life of the holder and for every daemon. */
  lemma ExactlyOnce(run: seq<World>, d: nat)
    requires Run(run) && d in run[|run| - 1].followers
    ensures var w := run[|run| - 1];
            var f := w.followers[d];
            // Each call's bytes are the terminal's at their offset, past those of every call before.
            && (forall i, j :: 0 <= i < j < |f.given| ==> f.given[i].at + |f.given[i].data| <= f.given[j].at)
            && (forall i :: 0 <= i < |f.given| ==> Matches(w.pane.ingested, f.given[i].at, f.given[i].data))
            // An offset left behind unseen was gone from the journal when an attach stepped
            // over it, or lies below where the daemon started in this life - in the first, at 0.
            && (forall o :: o in w.pane.ingested && f.start.From() <= o < f.next && !WasGiven(f.given, o) ==>
                  exists i :: 0 <= i < |run| - 1 && SteppedOver(run[i], run[i + 1], d, o))
            && (w.life == 0 ==> f.start.From() == 0)
            // A follower that has drained its live channel is behind on nothing the journal has.
            && (Drained(w, d) ==> forall o :: o in w.pane.retained ==> o < f.next)
  {
    RunKeeps(run);
    var w := run[|run| - 1];
    var f := w.followers[d];
    assert FollowOk(w.pane, f) && StartOk(w, d, f.start);
    hide SteppedOver;
    forall o | o in w.pane.ingested && f.start.From() <= o < f.next && !WasGiven(f.given, o)
      ensures exists i :: 0 <= i < |run| - 1 && SteppedOver(run[i], run[i + 1], d, o)
    {
      MissedWasSteppedOver(run, d, o);
    }
  }
}
