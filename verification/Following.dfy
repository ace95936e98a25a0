/** The loop of a daemon that follows a pane, and its repair after the holder died. */
module Following {
  import opened Basics
  import opened Journals
  import opened Holders
  import opened Delivery

  /** Where a follower at `f` is after a whole run of frames. */
  function ReadAll(f: Follower, frames: seq<Frame>): Follower
    decreases |frames|
  {
    if frames == [] then f else ReadAll(Read(f, frames[0]), frames[1..])
  }

  lemma {:induction false} ReadAllThen(f: Follower, frames: seq<Frame>, frame: Frame)
    ensures ReadAll(f, frames + [frame]) == Read(ReadAll(f, frames), frame)
    decreases |frames|
  {
    if frames == [] {
      assert [] + [frame] == [frame] && [frame][1..] == [];
    } else {
      assert (frames + [frame])[1..] == frames[1..] + [frame];
      ReadAllThen(Read(f, frames[0]), frames[1..], frame);
    }
  }

  ghost predicate TrueTo(frames: seq<Frame>, stream: Stream) {
    forall i :: 0 <= i < |frames| && frames[i].Bytes? ==> Matches(stream, frames[i].at, frames[i].data)
  }

  /** Chunks between `from` and `next`, each past those before it. */
  ghost predicate Ascends(given: seq<Chunk>, from: nat, next: nat) {
    && from <= next
    && (forall i :: 0 <= i < |given| ==> from <= given[i].at && given[i].at + |given[i].data| <= next)
    && (forall i, j :: 0 <= i < j < |given| ==> given[i].at + |given[i].data| <= given[j].at)
  }

  lemma AscendsOn(given: seq<Chunk>, from: nat, next: nat, chunk: Chunk)
    requires Ascends(given, from, next) && next <= chunk.at
    ensures Ascends(given + [chunk], from, chunk.at + |chunk.data|)
  {
  }

  /** Reads one connection to its end. Whatever order its frames come in, and
      however they repeat or overlap, nothing is handed on twice. */
  method Follow(frames: seq<Frame>, from: nat, ghost stream: Stream) returns (given: seq<Chunk>, next: nat)
    ensures var f := ReadAll(Follower(0, false, None, Start(from, None), from, [], {}), frames); f.given == given && f.next == next
    ensures Ascends(given, from, next)
    ensures TrueTo(frames, stream) ==> GivenInOrder(given, stream, next)
  {
    hide Matches, GivenInOrder, Ascends, ReadAll;
    given, next := [], from;
    ghost var f := Follower(0, false, None, Start(from, None), from, [], {});
    StartsAt(f, from, stream);
    for i := 0 to |frames|
      invariant ReadAll(f, frames[..i]) == f.(given := given, next := next)
      invariant Ascends(given, from, next)
      invariant TrueTo(frames, stream) ==> GivenInOrder(given, stream, next)
    {
      ReadAllThen(f, frames[..i], frames[i]);
      assert frames[..i + 1] == frames[..i] + [frames[i]];
      if !frames[i].Bytes? {
        continue;
      }
      var at, data := frames[i].at, frames[i].data;
      var end := at + |data|;
      if end <= next {
        continue;
      }
      var skip := Min(Max(next - at, 0), |data|);
      var chunk := Chunk(at + skip, data[skip..]);
      AscendsOn(given, from, next, chunk);
      if TrueTo(frames, stream) {
        TrueTail(stream, at, data, skip);
        InOrderOn(given, stream, next, from, chunk);
      }
      given := given + [chunk];
      next := end;
    }
    assert frames[..|frames|] == frames;
  }

  lemma StartsAt(f: Follower, from: nat, stream: Stream)
    requires f.given == [] && f.next == from
    ensures ReadAll(f, []) == f && Ascends([], from, from) && GivenInOrder([], stream, from)
  {
  }

  // ----- back after the holder's death

  /** A byte of this life, still in the journal, that the daemon was not given. */
  ghost predicate Skipped(w: World, d: nat, o: nat)
    requires d in w.followers
  {
    w.born <= o && o in w.pane.ingested && o in w.pane.retained && !WasGiven(w.followers[d].given, o)
  }

  /** In every run: nothing below where the daemon started in this life is ever given to it,
      so no byte of an older life is given twice; and once it has drained its channel, it
      has been given exactly the retained bytes from there on. */
  lemma GivenFromStart(run: seq<World>, d: nat)
    requires Run(run) && d in run[|run| - 1].followers
    ensures var w := run[|run| - 1];
            var f := w.followers[d];
            && (forall o: nat :: WasGiven(f.given, o) ==> f.start.From() <= o)
            && (forall o: nat :: WasGiven(f.given, o) && o < w.born && d in w.stood ==> w.stood[d] <= o)
            && (Drained(w, d) ==> forall o :: o in w.pane.retained ==> (WasGiven(f.given, o) <==> f.start.From() <= o))
  {
    RunKeeps(run);
    var w := run[|run| - 1];
    var f := w.followers[d];
    assert FollowOk(w.pane, f) && StartOk(w, d, f.start);
  }

  /** The exact condition for a returning daemon to miss bytes of the new life that the
      journal has: the journal holds one below the offset it came back with. With nothing
      of this life lost or evicted, that is iff the journal reopened short of what the
      daemon had reached, and something was written before it asked for Status - or ever,
      if it did not ask. */
  lemma ReturningSkips(run: seq<World>, d: nat)
    requires Run(run) && Drained(run[|run| - 1], d)
    ensures var w := run[|run| - 1];
            var s := w.followers[d].start;
            && ((exists o :: Skipped(w, d, o))
                <==> exists o :: o in w.pane.retained && w.born <= o < s.reached && (s.told.Some? ==> o < s.told.value))
            && (HoldsLife(w) ==> ((exists o :: Skipped(w, d, o))
                <==> w.born < s.reached && w.born < if s.told.Some? then s.told.value else w.pane.end))
  {
    GivenFromStart(run, d);
    RunKeeps(run);
    var w := run[|run| - 1];
    var s := w.followers[d].start;
    assert StartOk(w, d, s) && PaneOk(w.pane);
    SkippedIsBelow(w, d);
    if HoldsLife(w) && w.born < s.From() && w.born < w.pane.end {
      assert w.born in w.pane.retained;
    }
  }

  /** The journal still has all that was written in this life. */
  ghost predicate HoldsLife(w: World) {
    forall o :: w.born <= o < w.pane.end ==> o in w.pane.retained
  }

  lemma SkippedIsBelow(w: World, d: nat)
    requires d in w.followers && PaneOk(w.pane)
    requires forall o :: o in w.pane.retained ==> (WasGiven(w.followers[d].given, o) <==> w.followers[d].start.From() <= o)
    ensures forall o: nat :: Skipped(w, d, o) <==> o in w.pane.retained && w.born <= o < w.followers[d].start.From()
  {
    hide WasGiven;
  }

  // ----- such a run, world by world

  const OLD: Stream := map[0 := 7, 1 := 7, 2 := 7]
  const LEFT: Stream := map[0 := 7]
  const WITH_BANNER: Stream := map[0 := 7, 1 := 8, 2 := 9]
  const ALL: Frame := Bytes(0, [7, 7, 7])

  function Alone(stream: Stream, attached: Option<Attached>, links: map<nat, Channel>): Pane {
    Pane(stream, stream, 3, attached, None, links)
  }

  function InFirst(attached: Option<Attached>, links: map<nat, Channel>, followers: map<nat, Follower>): World {
    World(Alone(OLD, attached, links), followers, map[], map[], 3, 0)
  }

  function Dialling(): Follower {
    Starting(1, None, Start(0, None))
  }

  /** A daemon reads all three bytes of the first life. */
  lemma FirstLife() returns (run: seq<World>)
    ensures Run(run) && |run| == 4
    ensures run[3] == InFirst(Some(Attached(1, None)), map[1 := Channel([], true)],
                              map[1 := Dialling().(asked := false, next := 3, given := [Chunk(0, [7, 7, 7])])])
  {
    var on, f := Some(Attached(1, None)), Dialling();
    run := [InFirst(None, map[], map[]),
            InFirst(None, map[1 := Channel([], true)], map[1 := f]),
            InFirst(on, map[1 := Channel([ALL], true)], map[1 := f.(asked := false)]),
            InFirst(on, map[1 := Channel([], true)], map[1 := f.(asked := false, next := 3, given := [Chunk(0, [7, 7, 7])])])];
    FirstDial();
    FirstServe();
    FirstRead();
  }

  lemma FirstDial()
    ensures Steps(InFirst(None, map[], map[]), InFirst(None, map[1 := Channel([], true)], map[1 := Dialling()]))
  {
    var w := InFirst(None, map[], map[]);
    assert Enabled(w, Dial(1, 1, None));
    assert Next(w, Dial(1, 1, None)) == InFirst(None, map[1 := Channel([], true)], map[1 := Dialling()]);
  }

  lemma FirstServe()
    ensures Steps(InFirst(None, map[1 := Channel([], true)], map[1 := Dialling()]),
                  InFirst(Some(Attached(1, None)), map[1 := Channel([ALL], true)], map[1 := Dialling().(asked := false)]))
  {
    hide Replays, Matches, FirstStretch;
    var w := InFirst(None, map[1 := Channel([], true)], map[1 := Dialling()]);
    ReplaysAll(OLD, [7, 7, 7]);
    var a := Serve(1, [ALL], None, false);
    assert Enabled(w, a);
    assert Gone(w.pane, Dialling()) == {} && Dialling().missed + Gone(w.pane, Dialling()) == {};
    assert Channel([], true).SendAll([ALL]) == Channel([ALL], true);
    assert w.pane.links[1 := Channel([ALL], true)] == map[1 := Channel([ALL], true)];
    assert Next(w, a).pane.links == map[1 := Channel([ALL], true)];
    assert Next(w, a).followers == map[1 := Dialling().(asked := false)];
  }

  lemma FirstRead()
    ensures var f := Dialling().(asked := false);
            Steps(InFirst(Some(Attached(1, None)), map[1 := Channel([ALL], true)], map[1 := f]),
                  InFirst(Some(Attached(1, None)), map[1 := Channel([], true)], map[1 := f.(next := 3, given := [Chunk(0, [7, 7, 7])])]))
  {
    var f := Dialling().(asked := false);
    var w := InFirst(Some(Attached(1, None)), map[1 := Channel([ALL], true)], map[1 := f]);
    assert [7, 7, 7][0..] == [7, 7, 7];
    assert Read(f, ALL) == f.(next := 3, given := [Chunk(0, [7, 7, 7])]);
    assert Enabled(w, Receive(1));
    assert [ALL][1..] == [];
    assert Next(w, Receive(1)).pane.links == map[1 := Channel([], true)];
    assert Next(w, Receive(1)).followers == map[1 := Read(f, ALL)];
  }

  lemma ReplaysAll(stream: Stream, data: seq<Byte>)
    requires data != [] && Matches(stream, 0, data) && forall o :: o in stream ==> o < |data|
    ensures Replays([Bytes(0, data)], stream, 0)
  {
    assert [Bytes(0, data)][1..] == [];
  }

  function InSecond(attached: Option<Attached>, links: map<nat, Channel>, followers: map<nat, Follower>, asking: map<nat, Start>): World {
    World(Alone(WITH_BANNER, attached, links), followers, asking, map[1 := 3], 1, 1)
  }

  function Reopened(): World {
    World(Pane(LEFT, LEFT, 1, None, None, map[]), map[], map[], map[1 := 3], 1, 1)
  }

  function Returning(): Follower {
    Starting(2, None, Start(3, Some(3)))
  }

  /** The journal came back with one byte, the new life wrote two - its banner - before the
      daemon asked for Status; it went on from 3, and never gets the two. */
  lemma BannerSkipped() returns (run: seq<World>)
    ensures Run(run) && Drained(run[|run| - 1], 1)
    ensures Skipped(run[|run| - 1], 1, 1) && Skipped(run[|run| - 1], 1, 2)
  {
    hide Steps;
    var first := FirstLife();
    var open := map[2 := Channel([], true)];
    var asking := map[1 := Start(3, Some(3))];
    var second := [Reopened(), InSecond(None, map[], map[], map[]), InSecond(None, map[], map[], asking),
                   InSecond(None, open, map[1 := Returning()], asking),
                   InSecond(Some(Attached(2, None)), open, map[1 := Returning().(asked := false)], asking)];
    Revival(first[3]);
    BannerWritten();
    Asks();
    SecondDial();
    SecondServe();
    run := first + second;
    assert forall i :: 0 <= i < |run| - 1 ==> Steps(run[i], run[i + 1]);
  }

  lemma Revival(w: World)
    requires w.pane.ingested == OLD && w.pane.end == 3 && w.life == 0 && w.stood == map[]
    requires w.pane.attached.Some? ==> w.pane.attached.value.id in w.pane.links
    requires w.followers.Keys == {1} && w.followers[1].next == 3
    ensures Steps(w, Reopened())
  {
    assert Enabled(w, Revive(LEFT, 1));
    assert Standing(w) == map[1 := 3];
    assert Next(w, Revive(LEFT, 1)) == Reopened();
  }

  lemma BannerWritten()
    ensures Steps(Reopened(), InSecond(None, map[], map[], map[]))
  {
    var a := Ingest([8, 9], true, true, 0, false);
    assert LEFT + Placed(1, [8, 9]) == WITH_BANNER && From(WITH_BANNER, 0) == WITH_BANNER;
    assert Enabled(Reopened(), a);
    assert Next(Reopened(), a).pane == Alone(WITH_BANNER, None, map[]);
  }

  lemma Asks()
    ensures Steps(InSecond(None, map[], map[], map[]), InSecond(None, map[], map[], map[1 := Start(3, Some(3))]))
  {
    var w := InSecond(None, map[], map[], map[]);
    assert Enabled(w, ComeBack(1, 3, true));
    assert Next(w, ComeBack(1, 3, true)) == InSecond(None, map[], map[], map[1 := Start(3, Some(3))]);
  }

  lemma SecondDial()
    ensures var asking := map[1 := Start(3, Some(3))];
            Steps(InSecond(None, map[], map[], asking), InSecond(None, map[2 := Channel([], true)], map[1 := Returning()], asking))
  {
    var asking := map[1 := Start(3, Some(3))];
    var w := InSecond(None, map[], map[], asking);
    assert Enabled(w, Dial(1, 2, None));
    assert Next(w, Dial(1, 2, None)) == InSecond(None, map[2 := Channel([], true)], map[1 := Returning()], asking);
  }

  lemma SecondServe()
    ensures var asking, open := map[1 := Start(3, Some(3))], map[2 := Channel([], true)];
            Steps(InSecond(None, open, map[1 := Returning()], asking),
                  InSecond(Some(Attached(2, None)), open, map[1 := Returning().(asked := false)], asking))
  {
    var asking, open := map[1 := Start(3, Some(3))], map[2 := Channel([], true)];
    var w := InSecond(None, open, map[1 := Returning()], asking);
    var a := Serve(1, [], None, false);
    assert Enabled(w, a);
    assert Gone(w.pane, Returning()) == {} && Returning().missed + Gone(w.pane, Returning()) == {};
    assert Channel([], true).SendAll([]) == Channel([], true);
    assert w.pane.links[2 := Channel([], true)] == open;
    assert Next(w, a).pane.links == open;
    assert Next(w, a).followers == map[1 := Returning().(asked := false)];
  }
}
