/** The holder of one pane, over its journal: each method is one section under
    the holder's lock, and does to `State()` what Holders.dfy says. */
module HolderProcess {
  import opened Basics
  import opened Journals
  import opened Holders

  const REPLAY_CHUNK: nat := 256 * 1024

  class Holder {
    const journal: Journal
    var attached: Option<Attached>
    var authority: Option<nat>
    var links: map<nat, Channel>
    ghost var ingested: Stream

    ghost function State(): Pane
      reads this, journal, journal.dir
    {
      Pane(ingested, journal.Retained(), journal.End(), attached, authority, links)
    }

    ghost predicate Valid()
      reads this, journal, journal.dir
    {
      journal.Valid() && (attached.Some? ==> attached.value.id in links)
    }

    constructor (journal: Journal)
      requires journal.Valid()
      ensures this.journal == journal && Valid()
      ensures State() == Pane(journal.Retained(), journal.Retained(), journal.End(), None, None, map[])
    {
      this.journal := journal;
      attached, authority, links := None, None, map[];
      ingested := journal.Retained();
    }

    /** Writes one frame to a connection; a failed write leaves nothing readable. */
    method Send(id: nat, frame: Frame, fails: bool) returns (ok: bool)
      requires id in links
      modifies this`links
      ensures ok == !fails && links == if ok then old(links)[id := old(links)[id].Send(frame)] else old(links)
    {
      if !fails {
        links := links[id := links[id].Send(frame)];
      }
      return !fails;
    }

    /** Drops a connection's sink: the peer reads what was written, then its end. */
    method Shut(id: nat)
      requires id in links
      modifies this`links
      ensures links == old(links)[id := old(links)[id].Shut()]
    {
      links := links[id := links[id].Shut()];
    }

    method RetireFailed()
      requires Valid()
      modifies this`attached, this`links
      ensures Valid() && State() == old(State()).RetireFailed()
    {
      if attached.None? {
        return;
      }
      var failed := attached.value;
      attached := None;
      Shut(failed.id);
    }

    /** One read of the terminal. */
    method Ingest(bytes: seq<Byte>, faults: Faults, sendFails: bool) returns (ok: bool, ghost kept: bool)
      requires Valid()
      modifies this, journal, journal.dir
      ensures Valid() && (ok ==> kept)
      ensures State() == old(State()).Ingest(bytes, kept, ok, journal.Start(), sendFails)
      // Within the journal's bound nothing retained is given up.
      ensures kept && old(Total(journal.segments)) + |bytes| <= journal.bounds.maxBytes ==>
                State().retained == old(State()).retained + Placed(old(State()).end, bytes)
    {
      hide Sound, HeldMap, From, Placed, Pane.Feed, Total;
      var at := journal.End();
      ok, kept := Keep(bytes, faults);
      FeedAttached(at, bytes, sendFails);
    }

    /** The journal's half: a failed append counts the whole chunk as lost. */
    method Keep(bytes: seq<Byte>, faults: Faults) returns (ok: bool, ghost kept: bool)
      requires Valid()
      modifies this`ingested, journal, journal.dir
      ensures Valid() && (ok ==> kept)
      ensures ingested == old(ingested) + Placed(old(journal.End()), bytes)
      ensures journal.Retained() == if kept then From(old(journal.Retained()) + Placed(old(journal.End()), bytes), journal.Start())
                                    else old(journal.Retained())
      ensures journal.End() == old(journal.End()) + (if kept then |bytes| else 0) + (if ok then 0 else |bytes|)
      ensures kept && old(Total(journal.segments)) + |bytes| <= journal.bounds.maxBytes ==>
                journal.Retained() == old(journal.Retained()) + Placed(old(journal.End()), bytes)
    {
      hide Sound, HeldMap, From, Placed, Total;
      var at := journal.End();
      ghost var n, gone;
      ok, kept, n, gone := journal.Append(bytes, faults);
      if !ok {
        journal.NoteLost(|bytes|, |bytes|);
      }
      ingested := ingested + Placed(at, bytes);
    }

    /** The live half: whoever is attached gets the chunk. */
    method FeedAttached(at: nat, bytes: seq<Byte>, sendFails: bool)
      requires Valid()
      modifies this`attached, this`links
      ensures Valid() && State() == old(State()).Feed(at, bytes, sendFails)
    {
      hide Sound, HeldMap;
      if attached.Some? {
        var sent := Send(attached.value.id, Bytes(at, bytes), sendFails);
        if !sent {
          RetireFailed();
        }
      }
    }

    /** The serving thread of connection `id` ends. */
    method Teardown(id: nat)
      requires Valid() && id in links
      modifies this`attached, this`links
      ensures Valid() && State() == old(State()).Teardown(id)
    {
      if attached.Some? && attached.value.id == id {
        attached := None;
      }
      Shut(id);
    }

    /** A message back to connection `id`, which may have lost its sink. */
    method Reply(id: nat, writer: Writer, frame: Frame, fails: bool)
      requires Valid() && id in links
      modifies this`attached, this`links
      ensures Valid()
      ensures State() == old(State().Reply(id, writer, frame, fails))
    {
      match writer {
        case Own =>
          var sent := Send(id, frame, fails);
        case OfAttached =>
          if attached.Some? && attached.value.id == id {
            var sent := Send(id, frame, fails);
            if !sent {
              RetireFailed();
            }
          }
        case Silent =>
      }
    }

    /** Sends what the journal has from `from` on; `failsAt` is the send that fails. */
    method Replay(id: nat, from: nat, failsAt: Option<nat>) returns (ok: bool, ghost replayed: seq<Frame>)
      requires Valid() && id in links
      modifies this`links
      ensures Valid() && Replays(replayed, journal.Retained(), from)
      ensures ok == (CutOf(failsAt, |replayed|) == None)
      ensures links == old(links)[id := old(links)[id].SendAll(if ok then replayed else replayed[..failsAt.value])]
    {
      hide Sound, HeldMap, Replays, Leads, FirstStretch;
      ghost var retained, channel := journal.Retained(), links[id];
      var at, sends := from, 0;
      ghost var sent: seq<Frame> := [];
      var chunk := journal.ReadFrom(at, REPLAY_CHUNK);
      assert journal.Retained() == retained;
      LeadsNowhere(retained, from);
      journal.RetainedBelowEnd();
      ghost var end := journal.End();
      assert channel.SendAll([]) == channel by { assert channel.frames + [] == channel.frames; }
      while chunk.Some?
        invariant Valid() && journal.Retained() == retained && id in links
        invariant chunk.Some? ==> FirstStretch(retained, at, chunk.value) && chunk.value.at + |chunk.value.data| <= journal.End()
        invariant chunk.None? ==> forall o :: o in retained ==> o < at
        invariant Leads(sent, retained, from, at)
        invariant sends == |sent| && (failsAt.Some? ==> sends <= failsAt.value)
        invariant links == old(links)[id := channel.SendAll(sent)]
        decreases journal.End() - at, chunk.Some?
      {
        StretchAdvances(retained, at, chunk.value);
        var frame := Bytes(chunk.value.at, chunk.value.data);
        LeadsOn(sent, retained, from, at, frame);
        at := chunk.value.at + |chunk.value.data|;
        var written := Send(id, frame, failsAt == Some(sends));
        if !written {
          ghost var rest := RestOfReplay(retained, at, end);
          LeadsThen(sent + [frame], retained, from, at, rest);
          replayed := sent + [frame] + rest;
          assert replayed[..failsAt.value] == sent;
          return false, replayed;
        }
        sends := sends + 1;
        assert channel.SendAll(sent).Send(frame) == channel.SendAll(sent + [frame]) by {
          assert channel.frames + (sent + [frame]) == channel.frames + sent + [frame];
        }
        sent := sent + [frame];
        chunk := journal.ReadFrom(at, REPLAY_CHUNK);
        assert journal.Retained() == retained;
      }
      ReplayOfNothing(retained, at);
      LeadsThen(sent, retained, from, at, []);
      assert sent + [] == sent;
      return true, sent;
    }

    /** Connection `id` asks to follow the pane from offset `from`. */
    method Attach(id: nat, writer: Writer, from: nat, incarnation: Option<nat>, failsAt: Option<nat>, syncFails: bool, tellFails: bool)
      returns (served: Writer, ghost replayed: seq<Frame>)
      requires Valid() && id in links
      modifies this`attached, this`authority, this`links, journal`unsynced, journal`dirty
      ensures Valid() && Replays(replayed, journal.Retained(), from)
      ensures (State(), served) == old(State()).Attach(id, writer, incarnation, replayed, CutOf(failsAt, |replayed|), tellFails)
      // What was written is on disk before it is replayed, if the sync does not fail.
      ensures served == OfAttached && !syncFails ==> journal.dirty == 0
    {
      hide Sound, HeldMap, Replays, Pane.AttachFree;
      if writer == Silent || (writer == OfAttached && !(attached.Some? && attached.value.id == id)) {
        replayed := SomeReplay(from);
        return Silent, replayed;
      }
      if writer == OfAttached {
        attached := None;
      }
      served, replayed := AttachFree(id, from, incarnation, failsAt, syncFails, tellFails);
    }

    ghost method SomeReplay(from: nat) returns (replayed: seq<Frame>)
      requires Valid()
      ensures Replays(replayed, journal.Retained(), from)
    {
      journal.RetainedBelowEnd();
      replayed := RestOfReplay(journal.Retained(), from, journal.End());
    }

    /** The rest of an attach, once the connection's own sink is at hand. */
    method AttachFree(id: nat, from: nat, incarnation: Option<nat>, failsAt: Option<nat>, syncFails: bool, tellFails: bool)
      returns (served: Writer, ghost replayed: seq<Frame>)
      requires Valid() && id in links
      modifies this`attached, this`authority, this`links, journal`unsynced, journal`dirty
      ensures Valid() && Replays(replayed, journal.Retained(), from)
      ensures (State(), served) == old(State()).AttachFree(id, incarnation, replayed, CutOf(failsAt, |replayed|), tellFails)
      // What was written is on disk before it is replayed, if the sync does not fail.
      ensures served == OfAttached && !syncFails ==> journal.dirty == 0
    {
      hide Sound, HeldMap, Replays, Pane.Admitted;
      replayed := SomeReplay(from);
      match AdmissionOf(attached, authority, incarnation) {
        case Refuse(newer) =>
          var refused := Send(id, Displaced(newer), tellFails);
          Shut(id);
          served := Silent;
        case LeaveSilent(_) =>
          served := Silent;
        case Admit =>
          served, replayed := AttachAdmitted(id, from, incarnation, failsAt, syncFails, tellFails);
      }
    }

    /** An admitted attach: sync, replay, take over. */
    method AttachAdmitted(id: nat, from: nat, incarnation: Option<nat>, failsAt: Option<nat>, syncFails: bool, tellFails: bool)
      returns (served: Writer, ghost replayed: seq<Frame>)
      requires Valid() && id in links
      modifies this`attached, this`authority, this`links, journal`unsynced, journal`dirty
      ensures Valid() && Replays(replayed, journal.Retained(), from)
      ensures (State(), served) == old(State()).Admitted(id, incarnation, replayed, CutOf(failsAt, |replayed|), tellFails)
      // What was written is on disk before it is replayed, if the sync does not fail.
      ensures served == OfAttached && !syncFails ==> journal.dirty == 0
    {
      hide Sound, HeldMap, Replays, Pane.RetireDisplaced;
      var synced := journal.Sync(syncFails);
      var ok: bool;
      ok, replayed := Replay(id, from, failsAt);
      if !ok {
        ghost var sent := old(links)[id].SendAll(replayed[..failsAt.value]);
        Shut(id);
        assert links == old(links)[id := sent.Shut()];
        return Silent, replayed;
      }
      if incarnation.Some? {
        authority := Some(if authority.None? then incarnation.value else Max(authority.value, incarnation.value));
      }
      var previous := attached;
      attached := Some(Attached(id, incarnation));
      if previous.Some? {
        RetireDisplaced(previous.value, incarnation, tellFails);
      }
      return OfAttached, replayed;
    }

    method RetireDisplaced(previous: Attached, newer: Option<nat>, tellFails: bool)
      requires Valid() && previous.id in links
      modifies this`links
      ensures Valid() && State() == old(State()).RetireDisplaced(previous, newer, tellFails)
    {
      match (previous.incarnation, newer) {
        case (Some(was), Some(now)) =>
          if was < now {
            var told := Send(previous.id, Displaced(now), tellFails);
          }
          Shut(previous.id);
        case (Some(_), None) =>
          Shut(previous.id);
        case (None, _) =>
      }
    }
  }

  /** Where a run of `n` sends is cut short, if it is. */
  function CutOf(failsAt: Option<nat>, n: nat): (cut: Option<nat>) {
    if failsAt.Some? && failsAt.value < n then failsAt else None
  }

  /** `frames` carry all of `retained` between `from` and `to`. */
  ghost predicate Leads(frames: seq<Frame>, retained: Stream, from: nat, to: nat) {
    if frames == [] then from == to
    else
      && frames[0].Bytes?
      && FirstStretch(retained, from, Chunk(frames[0].at, frames[0].data))
      && Leads(frames[1..], retained, frames[0].at + |frames[0].data|, to)
  }

  lemma LeadsNowhere(retained: Stream, from: nat)
    ensures Leads([], retained, from, from)
  {
  }

  lemma ReplayOfNothing(retained: Stream, from: nat)
    requires forall o :: o in retained ==> o < from
    ensures Replays([], retained, from)
  {
  }

  lemma StretchAdvances(retained: Stream, from: nat, chunk: Chunk)
    requires FirstStretch(retained, from, chunk)
    ensures from < chunk.at + |chunk.data|
  {
  }

  lemma {:induction false} LeadsOn(frames: seq<Frame>, retained: Stream, from: nat, to: nat, frame: Frame)
    requires Leads(frames, retained, from, to) && frame.Bytes? && FirstStretch(retained, to, Chunk(frame.at, frame.data))
    ensures Leads(frames + [frame], retained, from, frame.at + |frame.data|)
  {
    if frames != [] {
      assert (frames + [frame])[1..] == frames[1..] + [frame];
      LeadsOn(frames[1..], retained, frames[0].at + |frames[0].data|, to, frame);
    } else {
      assert ([frame])[1..] == [] && [] + [frame] == [frame];
    }
  }

  lemma {:induction false} LeadsThen(frames: seq<Frame>, retained: Stream, from: nat, to: nat, rest: seq<Frame>)
    requires Leads(frames, retained, from, to) && Replays(rest, retained, to)
    ensures Replays(frames + rest, retained, from)
  {
    if frames == [] {
      assert [] + rest == rest;
    } else {
      assert (frames + rest)[1..] == frames[1..] + rest;
      LeadsThen(frames[1..], retained, frames[0].at + |frames[0].data|, to, rest);
    }
  }

  /** Any journal has a replay: here, one byte a frame. */
  ghost function RestOfReplay(retained: Stream, from: nat, end: nat): (frames: seq<Frame>)
    requires forall o :: o in retained ==> o < end
    ensures Replays(frames, retained, from)
    decreases end - from
  {
    if end <= from then []
    else if from in retained then
      var frame := Bytes(from, [retained[from]]);
      assert ([frame] + RestOfReplay(retained, from + 1, end))[1..] == RestOfReplay(retained, from + 1, end);
      [frame] + RestOfReplay(retained, from + 1, end)
    else
      SkipOne(RestOfReplay(retained, from + 1, end), retained, from);
      RestOfReplay(retained, from + 1, end)
  }

  lemma SkipOne(frames: seq<Frame>, retained: Stream, from: nat)
    requires Replays(frames, retained, from + 1) && from !in retained
    ensures Replays(frames, retained, from)
  {
  }
}
