/**
 The daemon's client: one kept connection, replayed requests, input in chunks. The daemon
 and the transport are a schedule of fates, any of which may befall the next exchange.
 */
module Clients {
  import opened Basics

  datatype Request =
    | ListSessions | GetSession | GetWindow | GetPane | PaneSnapshot | GetConfig | ExportPaneRecording
    | PaneRecordingStatus | PaneBlocksList | PaneBlockAt | PaneBlocksStatus | PaneSubscriberCount | GetFreio | Hello
    | SelectWindow | SelectPane | PaneResizeAbsolute | SetSpawnEnv
    | NewSession | RenameSession | KillSession | NewWindow | KillWindow | SplitPane | KillPane | ResizePane
    | ApplyLayout | SendKeys(pane: nat, bytes: seq<Byte>) | Subscribe | ReloadConfig | SetConfig | StartPaneRecording
    | StopPaneRecording | SetInputPolicy | SetFreio | SubscribeConfigChange | Authenticate | IdentifyClient

  datatype Replay = Read | AbsoluteWrite | Never

  function ReplayOf(req: Request): Replay {
    match req
    case ListSessions | GetSession | GetWindow | GetPane | PaneSnapshot | GetConfig | ExportPaneRecording
       | PaneRecordingStatus | PaneBlocksList | PaneBlockAt | PaneBlocksStatus | PaneSubscriberCount | GetFreio | Hello => Read
    case SelectWindow | SelectPane | PaneResizeAbsolute | SetSpawnEnv => AbsoluteWrite
    case _ => Never
  }

  /** Requests that ask only, or set something to a value: doing one twice is doing it once. */
  predicate Repeatable(req: Request) {
    || req.ListSessions? || req.GetSession? || req.GetWindow? || req.GetPane? || req.PaneSnapshot? || req.GetConfig?
    || req.ExportPaneRecording? || req.PaneRecordingStatus? || req.PaneBlocksList? || req.PaneBlockAt? || req.PaneBlocksStatus?
    || req.PaneSubscriberCount? || req.GetFreio? || req.Hello?
    || req.SelectWindow? || req.SelectPane? || req.PaneResizeAbsolute? || req.SetSpawnEnv?
  }

  lemma OnlyRepeatableReplayed(req: Request)
    ensures ReplayOf(req) != Never <==> Repeatable(req)
  {
  }

  datatype Response = Ok | Other(payload: nat) | Err(reason: string)

  datatype ErrorKind =
    | UnexpectedEof | BrokenPipe | ConnectionReset | ConnectionAborted | NotConnected
    | FrameTooLarge | OtherKind

  datatype Failure = Lost(kind: ErrorKind) | Broken(kind: ErrorKind) | Unreachable

  function FailureOf(kind: ErrorKind): Failure {
    match kind
    case UnexpectedEof | BrokenPipe | ConnectionReset | ConnectionAborted | NotConnected => Lost(kind)
    case _ => Broken(kind)
  }

  datatype ControlError = Transport | Rejected | PartialInput(delivered: nat, total: nat, cause: ControlError)

  function IntoControl(f: Failure): ControlError {
    if f.Broken? && f.kind == FrameTooLarge then Rejected else Transport
  }

  datatype Result<+T, +E> = Success(value: T) | Fail(error: E)

  /** The five ways a connection ends are a loss of it, and no other failure is. */
  predicate EndsConnection(kind: ErrorKind) {
    kind != FrameTooLarge && kind != OtherKind
  }

  // ----- the other side

  /** What becomes of one exchange. `applied` says whether the daemon carried the request out. */
  datatype Fate =
    | WriteFails(kind: ErrorKind, applied: bool)
    | ReadFails(kind: ErrorKind, applied: bool)
    | Answers(resp: Response, applied: bool)

  /** An answer of `Ok` is only given for work done. */
  predicate Honest(f: Fate) {
    f.Answers? && f.resp == Ok ==> f.applied
  }

  /** What an exchange that reached the daemon comes to. */
  function Befallen(f: Fate): Result<Response, Failure> {
    match f
    case Answers(resp, _) => Success(resp)
    case WriteFails(kind, _) => Fail(FailureOf(kind))
    case ReadFails(kind, _) => Fail(FailureOf(kind))
  }

  /** The exchange fails because its connection ends. */
  predicate LosesConn(f: Fate) {
    match f
    case Answers(_, _) => false
    case WriteFails(kind, _) => EndsConnection(kind)
    case ReadFails(kind, _) => EndsConnection(kind)
  }

  /** What the caller hears of an exchange that is not repeated. */
  function Heard(f: Fate): Result<Response, ControlError> {
    match f
    case Answers(Err(_), _) => Fail(Rejected)
    case Answers(resp, _) => Success(resp)
    case WriteFails(kind, _) => Fail(if kind == FrameTooLarge then Rejected else Transport)
    case ReadFails(kind, _) => Fail(if kind == FrameTooLarge then Rejected else Transport)
  }

  /** A connection: requests sent whose replies are unread, and whether a frame is half
      through. A daemon answers requests in order. */
  datatype Conn = Conn(unanswered: seq<Request>, torn: bool)

  predicate OnBoundary(c: Conn) {
    c.unanswered == [] && !c.torn
  }

  class Daemon {
    const dials: nat -> bool
    const fates: nat -> Fate
    /** Why a request cannot be written down, if it cannot. */
    const unencodable: Request -> Option<ErrorKind>
    var dialed: nat
    var met: nat
    var executed: seq<Request>

    constructor (dials: nat -> bool, fates: nat -> Fate, unencodable: Request -> Option<ErrorKind>)
      ensures this.dials == dials && this.fates == fates && this.unencodable == unencodable
      ensures dialed == 0 && met == 0 && executed == []
    {
      this.dials, this.fates, this.unencodable := dials, fates, unencodable;
      dialed, met, executed := 0, 0, [];
    }

    ghost predicate Honestly() {
      forall i :: Honest(fates(i))
    }

    method Dial() returns (c: Option<Conn>)
      modifies this`dialed
      ensures c.Some? ==> OnBoundary(c.value)
      ensures c.Some? == dials(old(dialed)) && dialed == old(dialed) + 1
    {
      c := if dials(dialed) then Some(Conn([], false)) else None;
      dialed := dialed + 1;
    }

    /** Writes a request frame and reads a reply frame: the reply to the oldest request unanswered. */
    method Exchange(c: Conn, req: Request) returns (c': Conn, r: Result<(Request, Response), ErrorKind>)
      requires Honestly()
      modifies this`met, this`executed
      ensures executed == old(executed) || executed == old(executed) + [req]
      ensures r.Success? ==> r.value.0 == (c.unanswered + [req])[0] && c' == Conn((c.unanswered + [req])[1..], c.torn)
      ensures r.Success? && r.value.1 == Ok ==> executed == old(executed) + [req]
      ensures met == old(met) + 1
      ensures match fates(old(met))
              case Answers(resp, _) => r.Success? && r.value.1 == resp
              case WriteFails(kind, _) => r == Fail(kind)
              case ReadFails(kind, _) => r == Fail(kind)
    {
      var fate := fates(met);
      met := met + 1;
      if fate.applied {
        executed := executed + [req];
      }
      if fate.WriteFails? {
        return Conn(c.unanswered, true), Fail(fate.kind);
      }
      var unanswered := c.unanswered + [req];
      if fate.ReadFails? {
        return Conn(unanswered, true), Fail(fate.kind);
      }
      return Conn(unanswered[1..], c.torn), Success((unanswered[0], fate.resp));
    }
  }

  // ----- the client

  const INPUT_CHUNK_BYTES: nat := 64 * 1024

  function Times(req: Request, n: nat): seq<Request> {
    seq(n, _ => req)
  }

  function Chunk(bytes: seq<Byte>, k: nat): seq<Byte> {
    bytes[Upto(bytes, k)..Upto(bytes, k + 1)]
  }

  /** Where the first `k` chunks of `bytes` end. */
  function Upto(bytes: seq<Byte>, k: nat): (n: nat)
    ensures n <= |bytes|
  {
    Min(k * INPUT_CHUNK_BYTES, |bytes|)
  }

  /** What a list of requests types. */
  function Typed(log: seq<Request>): seq<Byte> {
    if log == [] then []
    else
      var last := log[|log| - 1];
      Typed(log[..|log| - 1]) + if last.SendKeys? then last.bytes else []
  }

  /** Requests that type the first `m` chunks of `bytes` into `pane`, in order and nothing else. */
  ghost predicate ChunksInOrder(log: seq<Request>, pane: nat, bytes: seq<Byte>, m: nat) {
    |log| == m && forall k :: 0 <= k < m ==> log[k] == SendKeys(pane, Chunk(bytes, k))
  }

  lemma {:induction false} InOrderTypesPrefix(log: seq<Request>, pane: nat, bytes: seq<Byte>, m: nat)
    requires ChunksInOrder(log, pane, bytes, m)
    ensures Typed(log) == bytes[..Upto(bytes, m)]
  {
    if m > 0 {
      InOrderTypesPrefix(log[..m - 1], pane, bytes, m - 1);
      assert bytes[..Upto(bytes, m)] == bytes[..Upto(bytes, m - 1)] + Chunk(bytes, m - 1);
    }
  }

  lemma NoChunks(pane: nat, bytes: seq<Byte>)
    ensures ChunksInOrder([], pane, bytes, 0)
  {
  }

  lemma NextChunk(log: seq<Request>, pane: nat, bytes: seq<Byte>, m: nat, n: nat)
    requires ChunksInOrder(log, pane, bytes, m) && n <= 1
    ensures ChunksInOrder(log + Times(SendKeys(pane, Chunk(bytes, m)), n), pane, bytes, m + n)
    ensures Upto(bytes, m + 1) <= Upto(bytes, m) + INPUT_CHUNK_BYTES
  {
  }

  class Client {
    const daemon: Daemon
    var conn: Option<Conn>

    /** A connection is kept only where the next reply read is the next request's. */
    ghost predicate Valid()
      reads this, daemon
    {
      daemon.Honestly() && (conn.Some? ==> OnBoundary(conn.value))
    }

    constructor (daemon: Daemon)
      requires daemon.Honestly()
      ensures Valid() && this.daemon == daemon && conn == None
    {
      this.daemon := daemon;
      conn := None;
    }

    /** One exchange over the kept connection or a fresh one. The answer is to this very request. */
    method Exchange(req: Request) returns (r: Result<Response, Failure>, ghost answered: Request)
      requires Valid()
      modifies this, daemon
      ensures Valid() && (conn.Some? <==> r.Success?)
      ensures daemon.executed == old(daemon.executed) || daemon.executed == old(daemon.executed) + [req]
      ensures r.Success? ==> answered == req && (r.value == Ok ==> daemon.executed == old(daemon.executed) + [req])
      ensures r == Fail(Unreachable) ==> daemon.executed == old(daemon.executed)
      // A kept connection is used; only without one is the daemon dialled.
      ensures daemon.dialed == old(daemon.dialed) + if old(conn).None? then 1 else 0
      ensures r == Fail(Unreachable) <==> old(conn).None? && !daemon.dials(old(daemon.dialed))
      ensures r != Fail(Unreachable) ==> daemon.met == old(daemon.met) + 1 && r == Befallen(daemon.fates(old(daemon.met)))
    {
      answered := req;
      var taken := conn;
      conn := None;
      if taken == None {
        taken := daemon.Dial();
        if taken == None {
          return Fail(Unreachable), req;
        }
      }
      var c, reply := daemon.Exchange(taken.value, req);
      if reply.Fail? {
        return Fail(FailureOf(reply.error)), req;
      }
      conn := Some(c);
      return Success(reply.value.1), reply.value.0;
    }

    /** A request, sent again once if its connection was lost and it may be. */
    method Call(req: Request) returns (r: Result<Response, ControlError>, ghost n: nat)
      requires Valid()
      modifies this, daemon
      ensures Valid()
      ensures daemon.executed == old(daemon.executed) + Times(req, n)
      ensures n <= if Repeatable(req) then 2 else 1
      ensures r.Success? ==> conn.Some? && !r.value.Err? && (r.value == Ok ==> n >= 1)
      ensures r.Fail? ==> !r.error.PartialInput?
      // The caller hears what became of the first exchange, or of the second if the first
      // lost its connection and the request may be sent again; of neither without a dial.
      ensures var dials := if old(conn).None? then 1 else 0;
              var again := LosesConn(daemon.fates(old(daemon.met))) && Repeatable(req);
              if old(conn).None? && !daemon.dials(old(daemon.dialed)) then r == Fail(Transport)
              else if !again then r == Heard(daemon.fates(old(daemon.met)))
              else if !daemon.dials(old(daemon.dialed) + dials) then r == Fail(Transport)
              else r == Heard(daemon.fates(old(daemon.met) + 1))
    {
      hide ReplayOf, Repeatable;
      OnlyRepeatableReplayed(req);
      ghost var before := daemon.executed;
      var first, to := Exchange(req);
      n := |daemon.executed| - |before|;
      if first.Fail? && first.error.Lost? && ReplayOf(req) != Never {
        first, to := Exchange(req);
        n := |daemon.executed| - |before|;
      }
      if first.Fail? {
        return Fail(IntoControl(first.error)), n;
      }
      if first.value.Err? {
        return Fail(Rejected), n;
      }
      return Success(first.value), n;
    }

    method Rpc(req: Request) returns (r: Result<Response, ControlError>, ghost n: nat)
      requires Valid()
      modifies this, daemon
      ensures Valid()
      ensures daemon.executed == old(daemon.executed) + Times(req, n)
      ensures n <= if Repeatable(req) then 2 else 1
      ensures r.Success? ==> conn.Some? && !r.value.Err? && (r.value == Ok ==> n >= 1)
      ensures r.Fail? ==> !r.error.PartialInput?
      ensures daemon.unencodable(req).Some? ==>
                n == 0 && r == Fail(if daemon.unencodable(req).value == FrameTooLarge then Rejected else Transport)
    {
      hide Repeatable;
      var encoding := daemon.unencodable(req);
      if encoding.Some? {
        return Fail(if encoding.value == FrameTooLarge then Rejected else Transport), 0;
      }
      r, n := Call(req);
    }

    /** Types `bytes` chunk by chunk, stopping at the first chunk not confirmed. `m` is how many
        chunks the daemon carried out. */
    method SendKeysChunked(pane: nat, bytes: seq<Byte>) returns (r: Result<(), ControlError>, ghost m: nat)
      requires Valid()
      modifies this, daemon
      ensures Valid() && old(daemon.executed) <= daemon.executed
      ensures ChunksInOrder(daemon.executed[|old(daemon.executed)|..], pane, bytes, m)
      ensures r.Success? ==> Upto(bytes, m) == |bytes|
      ensures r.Fail? && r.error.PartialInput? ==>
                && r.error.total == |bytes| && r.error.delivered <= Upto(bytes, m)
                && Upto(bytes, m) <= r.error.delivered + INPUT_CHUNK_BYTES
      ensures r.Fail? && !r.error.PartialInput? ==> m <= 1
    {
      hide ChunksInOrder, Times;
      var total := |bytes|;
      var delivered := 0;
      ghost var before := daemon.executed;
      m := 0;
      NoChunks(pane, bytes);
      assert daemon.executed[|before|..] == [];
      while delivered < total
        invariant Valid() && before <= daemon.executed
        invariant ChunksInOrder(daemon.executed[|before|..], pane, bytes, m)
        invariant delivered == Upto(bytes, m)
      {
        var chunk := bytes[delivered..Min(delivered + INPUT_CHUNK_BYTES, total)];
        var req := Request.SendKeys(pane, chunk);
        ghost var log := daemon.executed;
        var outcome, n := Rpc(req);
        assert chunk == Chunk(bytes, m);
        NextChunk(log[|before|..], pane, bytes, m, n);
        assert daemon.executed[|before|..] == log[|before|..] + Times(req, n);
        m := m + n;
        if outcome.Success? && outcome.value == Ok {
          delivered := delivered + |chunk|;
        } else if outcome.Success? {
          return Fail(PartialInput(delivered, total, Transport)), m;
        } else if delivered == 0 {
          return Fail(outcome.error), m;
        } else {
          return Fail(PartialInput(delivered, total, outcome.error)), m;
        }
      }
      return Success(()), m;
    }

    /** Typing: in one request if it is short enough, else in chunks. What the daemon typed is
        a beginning of `bytes`, and on success all of it. */
    method SendKeys(pane: nat, bytes: seq<Byte>) returns (r: Result<(), ControlError>)
      requires Valid()
      modifies this, daemon
      ensures Valid() && old(daemon.executed) <= daemon.executed
      ensures var typed := Typed(daemon.executed[|old(daemon.executed)|..]);
              && typed <= bytes && (r.Success? ==> typed == bytes)
              && (r.Fail? && r.error.PartialInput? ==>
                    r.error.total == |bytes| && r.error.delivered <= |typed| <= r.error.delivered + INPUT_CHUNK_BYTES)
              && (r.Fail? && !r.error.PartialInput? ==> |typed| <= INPUT_CHUNK_BYTES)
    {
      hide Typed;
      ghost var before := daemon.executed;
      if |bytes| > INPUT_CHUNK_BYTES {
        ghost var m;
        r, m := SendKeysChunked(pane, bytes);
        InOrderTypesPrefix(daemon.executed[|before|..], pane, bytes, m);
        return;
      }
      var outcome, n := Rpc(Request.SendKeys(pane, bytes));
      assert daemon.executed[|before|..] == Times(Request.SendKeys(pane, bytes), n);
      TypesOnce(pane, bytes, n);
      if outcome.Fail? {
        return Fail(outcome.error);
      }
      return if outcome.value == Ok then Success(()) else Fail(Transport);
    }
  }

  lemma TypesOnce(pane: nat, bytes: seq<Byte>, n: nat)
    requires n <= 1
    ensures Typed(Times(Request.SendKeys(pane, bytes), n)) == if n == 1 then bytes else []
  {
  }
}
