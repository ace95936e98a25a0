/**
 What a pane's holder does under its one lock, as functions of the pane's
 state: feed a chunk, attach a connection, tear one down. `Holder` in
 HolderProcess.dfy is proved to do exactly this over a real journal, and
 Delivery.dfy runs it against any number of daemons.
 */
module Holders {
  import opened Basics
  import opened Journals

  datatype Frame =
    | Bytes(at: nat, data: seq<Byte>)
    | Displaced(newer: nat)
    | Control                          // Hello, Status, Refused: a follower reads on

  /** One connection's stream to its daemon: what is still unread, and whether more can come. */
  datatype Channel = Channel(frames: seq<Frame>, open: bool) {
    function Send(frame: Frame): Channel {
      if open then this.(frames := frames + [frame]) else this
    }

    function SendAll(sent: seq<Frame>): Channel {
      if open then this.(frames := frames + sent) else this
    }

    function Shut(): Channel {
      this.(open := false)
    }
  }

  datatype Attached = Attached(id: nat, incarnation: Option<nat>)

  datatype Writer = Own | OfAttached | Silent

  datatype Admission = Admit | Refuse(newer: nat) | LeaveSilent(holding: nat)

  /** Whether an attach that declares `incarnation` may have the pane. */
  function AdmissionOf(attached: Option<Attached>, authority: Option<nat>, incarnation: Option<nat>): Admission {
    match incarnation
    case Some(n) =>
      if authority.Some? && n < authority.value then Refuse(authority.value) else Admit
    case None =>
      if attached.Some? && attached.value.incarnation.Some? then LeaveSilent(attached.value.incarnation.value) else Admit
  }

  /** A pane: the bytes the terminal ever produced at their offsets, the ones
      the journal still has, and who follows them. */
  datatype Pane = Pane(
    ingested: Stream,
    retained: Stream,
    end: nat,
    attached: Option<Attached>,
    authority: Option<nat>,
    links: map<nat, Channel>)
  {
    predicate AttachedTo(id: nat) {
      attached.Some? && attached.value.id == id
    }

    function Admits(incarnation: Option<nat>): Admission {
      AdmissionOf(attached, authority, incarnation)
    }

    function Sent(id: nat, frame: Frame): Pane
      requires id in links
    {
      this.(links := links[id := links[id].Send(frame)])
    }

    function Closed(id: nat): Pane
      requires id in links
    {
      this.(links := links[id := links[id].Shut()])
    }

    /** A write to the attached connection failed: it is shut, so its daemon re-attaches. */
    function RetireFailed(): Pane
      requires attached.Some? ==> attached.value.id in links
    {
      if attached.None? then this else Closed(attached.value.id).(attached := None)
    }

    /** Connection `id` is told who displaced it, if that send gets through, and shut. */
    function Told(id: nat, newer: nat, tellFails: bool): Pane
      requires id in links
    {
      if tellFails then Closed(id) else Sent(id, Displaced(newer)).Closed(id)
    }

    /** The connection that was attached until another one took its place. */
    function RetireDisplaced(previous: Attached, newer: Option<nat>, tellFails: bool): Pane
      requires previous.id in links
    {
      match (previous.incarnation, newer)
      case (Some(was), Some(now)) =>
        if was < now then Told(previous.id, now, tellFails) else Closed(previous.id)
      case (Some(_), None) => Closed(previous.id)
      case (None, _) => this
    }

    /** The live half of `ingest`: the chunk goes to whoever is attached. */
    function Feed(at: nat, data: seq<Byte>, sendFails: bool): Pane
      requires attached.Some? ==> attached.value.id in links
    {
      if attached.None? then this
      else if sendFails then RetireFailed()
      else Sent(attached.value.id, Bytes(at, data))
    }

    /** A chunk arrives from the terminal. `kept`: it entered the journal's
        index; `ok`: its append succeeded; `horizon`: the journal's start after it. */
    function Ingest(data: seq<Byte>, kept: bool, ok: bool, horizon: nat, sendFails: bool): Pane
      requires attached.Some? ==> attached.value.id in links
    {
      this.(ingested := ingested + Placed(end, data),
            retained := if kept then From(retained + Placed(end, data), horizon) else retained,
            end := end + (if kept then |data| else 0) + (if ok then 0 else |data|))
          .Feed(end, data, sendFails)
    }

    /** Connection `id` asks to follow. `replayed` is what the journal has from
        the offset it asked for; `cut` is how many frames of it get through
        when a send fails; `tellFails`: a `Displaced` this attach sends does not. */
    function Attach(id: nat, writer: Writer, incarnation: Option<nat>, replayed: seq<Frame>, cut: Option<nat>, tellFails: bool): (Pane, Writer)
      requires id in links && (attached.Some? ==> attached.value.id in links)
    {
      if writer == Silent || (writer == OfAttached && !AttachedTo(id)) then (this, Silent)
      else
        (if writer == OfAttached then this.(attached := None) else this).AttachFree(id, incarnation, replayed, cut, tellFails)
    }

    function AttachFree(id: nat, incarnation: Option<nat>, replayed: seq<Frame>, cut: Option<nat>, tellFails: bool): (Pane, Writer)
      requires id in links && (attached.Some? ==> attached.value.id in links)
    {
      match Admits(incarnation)
      case Refuse(newer) => (Told(id, newer, tellFails), Silent)
      case LeaveSilent(_) => (this, Silent)
      case Admit => Admitted(id, incarnation, replayed, cut, tellFails)
    }

    /** An admitted attach: the replay, or as much as gets through, and then the pane. */
    function Admitted(id: nat, incarnation: Option<nat>, replayed: seq<Frame>, cut: Option<nat>, tellFails: bool): (Pane, Writer)
      requires id in links && (attached.Some? ==> attached.value.id in links)
    {
      if cut.Some? then
        (this.(links := links[id := links[id].SendAll(replayed[..Min(cut.value, |replayed|)]).Shut()]), Silent)
      else
        var now := this.(
          links := links[id := links[id].SendAll(replayed)],
          authority := if incarnation.None? then authority
                       else if authority.None? then incarnation
                       else Some(Max(authority.value, incarnation.value)),
          attached := Some(Attached(id, incarnation)));
        (if attached.Some? then now.RetireDisplaced(attached.value, incarnation, tellFails) else now, OfAttached)
    }

    /** A message back to connection `id`, over its own stream or as the attached one. */
    function Reply(id: nat, writer: Writer, frame: Frame, fails: bool): Pane
      requires id in links && (attached.Some? ==> attached.value.id in links)
    {
      match writer
      case Own => if fails then this else Sent(id, frame)
      case OfAttached =>
        if !AttachedTo(id) then this else if fails then RetireFailed() else Sent(id, frame)
      case Silent => this
    }

    /** The connection's serving thread ends. */
    function Teardown(id: nat): Pane
      requires id in links
    {
      Closed(id).(attached := if AttachedTo(id) then None else attached)
    }

    /** The network drops a connection: only `kept` unread frames still arrive. */
    function Cut(id: nat, kept: nat): Pane
      requires id in links && kept <= |links[id].frames|
    {
      this.(links := links[id := Channel(links[id].frames[..kept], false)])
    }
  }

  /** `frames` carry, in order and true to it, all of `retained` from `from` on. */
  ghost predicate Replays(frames: seq<Frame>, retained: Stream, from: nat) {
    if frames == [] then forall o :: o in retained ==> o < from
    else
      && frames[0].Bytes?
      && FirstStretch(retained, from, Chunk(frames[0].at, frames[0].data))
      && Replays(frames[1..], retained, frames[0].at + |frames[0].data|)
  }

  // ----- what a critical section comes to

  /** A daemon older than the pane's authority asks, or one that declares nothing while one
      that does is attached. */
  predicate IsOlder(p: Pane, incarnation: Option<nat>) {
    incarnation.Some? && p.authority.Some? && incarnation.value < p.authority.value
  }

  predicate IsBarred(p: Pane, incarnation: Option<nat>) {
    incarnation.None? && p.attached.Some? && p.attached.value.incarnation.Some?
  }

  /** A connection that has not attached yet gets the pane unless it is older, is barred or
      loses its replay; the authority is then what it declared, if it did. */
  lemma WhoGetsThePane(p: Pane, id: nat, incarnation: Option<nat>, replayed: seq<Frame>, cut: Option<nat>, tellFails: bool)
    requires id in p.links && !p.AttachedTo(id) && (p.attached.Some? ==> p.attached.value.id in p.links)
    ensures var (p', writer) := p.Attach(id, Own, incarnation, replayed, cut, tellFails);
            var got := !IsOlder(p, incarnation) && !IsBarred(p, incarnation) && cut.None?;
            && p'.attached == (if got then Some(Attached(id, incarnation)) else p.attached)
            && p'.authority == (if got && incarnation.Some? then incarnation else p.authority)
            && writer == (if got then OfAttached else Silent)
            && p'.ingested == p.ingested && p'.retained == p.retained && p'.end == p.end && p'.links.Keys == p.links.Keys
  {
  }

  /** Its own stream brings it the replay, or the part that got through and then its end; an
      older daemon hears who holds the authority, and its stream ends; a barred one's is left. */
  lemma WhatItReads(p: Pane, id: nat, incarnation: Option<nat>, replayed: seq<Frame>, cut: Option<nat>, tellFails: bool)
    requires id in p.links && !p.AttachedTo(id) && (p.attached.Some? ==> p.attached.value.id in p.links)
    ensures p.Attach(id, Own, incarnation, replayed, cut, tellFails).0.links[id] ==
              if IsOlder(p, incarnation) then p.links[id].SendAll(if tellFails then [] else [Displaced(p.authority.value)]).Shut()
              else if IsBarred(p, incarnation) then p.links[id]
              else if cut.Some? then p.links[id].SendAll(replayed[..Min(cut.value, |replayed|)]).Shut()
              else p.links[id].SendAll(replayed)
  {
    assert p.links[id].frames + [] == p.links[id].frames;
  }

  /** Of the others only the connection displaced hears of it, and only one that declared its
      incarnation: who displaced it if that is a newer daemon, and the end of its stream. */
  lemma WhatOthersRead(p: Pane, id: nat, incarnation: Option<nat>, replayed: seq<Frame>, cut: Option<nat>, tellFails: bool, other: nat)
    requires id in p.links && !p.AttachedTo(id) && (p.attached.Some? ==> p.attached.value.id in p.links)
    requires other in p.links && other != id && p.links[other].open
    ensures var p' := p.Attach(id, Own, incarnation, replayed, cut, tellFails).0;
            p'.links[other] ==
              if p.AttachedTo(other) && p'.AttachedTo(id) && p.attached.value.incarnation.Some? then
                var newer := incarnation.Some? && p.attached.value.incarnation.value < incarnation.value;
                Channel(p.links[other].frames + (if newer && !tellFails then [Displaced(incarnation.value)] else []), false)
              else p.links[other]
  {
    assert p.links[other].frames + [] == p.links[other].frames;
  }

  /** The attached connection may ask again, over the stream it already has: it goes on from
      there, told apart from nobody, or gives the pane up if it is refused or cut. */
  lemma AsksAgain(p: Pane, id: nat, incarnation: Option<nat>, replayed: seq<Frame>, cut: Option<nat>, tellFails: bool)
    requires id in p.links && p.links[id].open && p.AttachedTo(id)
    ensures var (p', writer) := p.Attach(id, OfAttached, incarnation, replayed, cut, tellFails);
            var frames := p.links[id].frames;
            && p'.attached == (if IsOlder(p, incarnation) || cut.Some? then None else Some(Attached(id, incarnation)))
            && writer == (if p'.attached == None then Silent else OfAttached)
            && p'.links == p.links[id :=
                 if IsOlder(p, incarnation) then Channel(frames + (if tellFails then [] else [Displaced(p.authority.value)]), false)
                 else if cut.Some? then Channel(frames + replayed[..Min(cut.value, |replayed|)], false)
                 else Channel(frames + replayed, true)]
  {
    var free := p.(attached := None);
    assert p.links[id].frames + [] == p.links[id].frames;
    assert p.Attach(id, OfAttached, incarnation, replayed, cut, tellFails) == free.AttachFree(id, incarnation, replayed, cut, tellFails);
  }

  /** A connection nobody attaches any more, by the stream of the attached one, is served
      nothing. */
  lemma TooLateToAsk(p: Pane, id: nat, incarnation: Option<nat>, replayed: seq<Frame>, cut: Option<nat>, tellFails: bool)
    requires id in p.links && (p.attached.Some? ==> p.attached.value.id in p.links) && !p.AttachedTo(id)
    ensures p.Attach(id, OfAttached, incarnation, replayed, cut, tellFails) == (p, Silent)
  {
  }

  /** A reply reaches its own connection and no other: by its own stream until it attaches,
      then as long as it is the attached one. One that fails costs an attached connection
      the pane. */
  lemma ReplyReaches(p: Pane, id: nat, writer: Writer, frame: Frame, fails: bool)
    requires id in p.links && p.links[id].open && (p.attached.Some? ==> p.attached.value.id in p.links)
    ensures var p' := p.Reply(id, writer, frame, fails);
            var reached := !fails && (writer == Own || (writer == OfAttached && p.AttachedTo(id)));
            var lost := fails && writer == OfAttached && p.AttachedTo(id);
            && p'.links[id] == Channel(p.links[id].frames + (if reached then [frame] else []), !lost)
            && p'.attached == (if lost then None else p.attached)
            && (forall other :: other in p.links && other != id ==> other in p'.links && p'.links[other] == p.links[other])
            && p'.ingested == p.ingested && p'.retained == p.retained && p'.end == p.end && p'.authority == p.authority
  {
    assert p.links[id].frames + [] == p.links[id].frames;
  }

  /** An older daemon's attach changes nothing but its own stream, which ends with the
      incarnation that holds the authority, if that gets through. */
  lemma OlderIsTurnedAway(p: Pane, id: nat, declared: nat, replayed: seq<Frame>, cut: Option<nat>, tellFails: bool)
    requires id in p.links && p.links[id].open && !p.AttachedTo(id) && (p.attached.Some? ==> p.attached.value.id in p.links)
    ensures p.authority.Some? && declared < p.authority.value ==>
              var news := if tellFails then [] else [Displaced(p.authority.value)];
              p.Attach(id, Own, Some(declared), replayed, cut, tellFails)
              == (p.(links := p.links[id := Channel(p.links[id].frames + news, false)]), Silent)
  {
    assert p.links[id].frames + [] == p.links[id].frames;
    if p.authority.Some? && !tellFails {
      var told := p.links[id].Send(Displaced(p.authority.value));
      assert p.links[id := told][id := told.Shut()] == p.links[id := told.Shut()];
    }
  }
}
