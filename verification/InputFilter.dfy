/** The attached terminal's key filter: a prefix, a detach key after it, a picker key. */
module InputFilters {
  import opened Basics

  datatype Action = Forward(bytes: seq<Byte>) | OpenPicker | Detach | Rest(bytes: seq<Byte>)

  datatype Bindings = Bindings(prefix: Byte, detach: Byte, picker: Option<Byte>)

  datatype Event = Nothing | Picked | Detached

  /** What one read comes to: the bytes forwarded, the event that ended it if any, the bytes
      after the event, and whether a prefix is left pending. */
  datatype Scanned = Scanned(forwarded: seq<Byte>, event: Event, rest: seq<Byte>, pending: bool)

  /** Scans `bytes` with `run` already to be forwarded. */
  function Scan(keys: Bindings, pending: bool, run: seq<Byte>, bytes: seq<Byte>): Scanned
    decreases |bytes|
  {
    if bytes == [] then Scanned(run, Nothing, [], pending)
    else
      var b, rest := bytes[0], bytes[1..];
      if pending then
        if b == keys.detach then Scanned(run, Detached, rest, false)
        else if b == keys.prefix then Scan(keys, false, run + [b], rest)
        else Scan(keys, false, run + [keys.prefix] + [b], rest)
      else if Some(b) == keys.picker then Scanned(run, Picked, rest, false)
      else if b == keys.prefix then Scan(keys, true, run, rest)
      else Scan(keys, false, run + [b], rest)
  }

  function Flushed(run: seq<Byte>): seq<Action> {
    if run == [] then [] else [Forward(run)]
  }

  /** The actions a read's outcome is reported as. */
  function Actions(s: Scanned): seq<Action> {
    Flushed(s.forwarded) +
    match s.event
    case Nothing => []
    case Detached => [Detach]
    case Picked => [OpenPicker] + if s.rest == [] then [] else [Rest(s.rest)]
  }

  class InputFilter {
    const bindings: Bindings
    var pendingPrefix: bool

    constructor (bindings: Bindings)
      ensures this.bindings == bindings && !pendingPrefix
    {
      this.bindings := bindings;
      pendingPrefix := false;
    }

    method Feed(bytes: seq<Byte>) returns (out: seq<Action>)
      modifies this
      ensures out == Actions(Scan(bindings, old(pendingPrefix), [], bytes))
      ensures pendingPrefix == Scan(bindings, old(pendingPrefix), [], bytes).pending
    {
      var run: seq<Byte> := [];
      ghost var whole := Scan(bindings, pendingPrefix, [], bytes);
      for i := 0 to |bytes|
        invariant whole == Scan(bindings, pendingPrefix, run, bytes[i..])
      {
        var b := bytes[i];
        assert bytes[i..][1..] == bytes[i + 1..];
        if pendingPrefix {
          pendingPrefix := false;
          if b == bindings.detach {
            return Flushed(run) + [Detach];
          }
          if b == bindings.prefix {
            run := run + [b];
          } else {
            run := run + [bindings.prefix];
            run := run + [b];
          }
        } else if Some(b) == bindings.picker {
          out := Flushed(run) + [OpenPicker];
          var rest := bytes[i + 1..];
          if rest != [] {
            out := out + [Rest(rest)];
          }
          return;
        } else if b == bindings.prefix {
          pendingPrefix := true;
        } else {
          run := run + [b];
        }
      }
      return Flushed(run);
    }
  }

  /** What a terminal that carries the actions out forwards, the event it meets, and the
      bytes it is handed back for after the picker. */
  function CarriedOut(actions: seq<Action>): (seq<Byte>, Event, seq<Byte>) {
    if actions == [] then ([], Nothing, [])
    else
      match actions[0]
      case Forward(bytes) => var (more, event, rest) := CarriedOut(actions[1..]); (bytes + more, event, rest)
      case Detach => ([], Detached, [])
      case OpenPicker => ([], Picked, if |actions| > 1 && actions[1].Rest? then actions[1].bytes else [])
      case Rest(_) => ([], Nothing, [])
  }

  /** The actions say all of an outcome but what follows a detach. */
  lemma ActionsSayAll(s: Scanned)
    ensures CarriedOut(Actions(s)) == (s.forwarded, s.event, if s.event == Picked then s.rest else [])
  {
    var tail := Actions(s.(forwarded := []));
    assert CarriedOut(tail) == ([], s.event, if s.event == Picked then s.rest else []);
    if s.forwarded != [] {
      assert Actions(s) == [Forward(s.forwarded)] + tail;
      assert Actions(s)[1..] == tail && s.forwarded + [] == s.forwarded;
    } else {
      assert Actions(s) == tail;
    }
  }

  // ----- when an event comes

  /** A key typed on its own, or the prefix and the key after it. */
  datatype Token = Key(b: Byte) | AfterPrefix(b: Byte)

  /** A token that is no event: nothing the filter knows but a prefix with something after it. */
  predicate IsOrdinary(keys: Bindings, token: Token) {
    match token
    case Key(b) => b != keys.prefix && keys.picker != Some(b)
    case AfterPrefix(b) => b != keys.detach && keys.picker != Some(keys.prefix)
  }

  function Typing(keys: Bindings, token: Token): seq<Byte> {
    if token.Key? then [token.b] else [keys.prefix, token.b]
  }

  /** What reaches the pane: a prefix typed twice once, everything else as it was typed. */
  function Passing(keys: Bindings, token: Token): seq<Byte> {
    if token == AfterPrefix(keys.prefix) then [keys.prefix] else Typing(keys, token)
  }

  function TypedAs(keys: Bindings, tokens: seq<Token>): seq<Byte> {
    if tokens == [] then [] else Typing(keys, tokens[0]) + TypedAs(keys, tokens[1..])
  }

  function ForwardedAs(keys: Bindings, tokens: seq<Token>): seq<Byte> {
    if tokens == [] then [] else Passing(keys, tokens[0]) + ForwardedAs(keys, tokens[1..])
  }

  /** What ends the tokens: the prefix and the detach key, the picker key alone, or nothing
      but perhaps a last prefix. */
  predicate EndsIn(keys: Bindings, s: Scanned, tail: seq<Byte>) {
    match s.event
    case Detached => tail == [keys.prefix, keys.detach] + s.rest && !s.pending && keys.picker != Some(keys.prefix)
    case Picked => keys.picker.Some? && tail == [keys.picker.value] + s.rest && !s.pending
    case Nothing => s.rest == [] && if s.pending then tail == [keys.prefix] && keys.picker != Some(keys.prefix) else tail == []
  }

  /** `typed` is ordinary tokens, all forwarded, and then what the outcome says. */
  ghost predicate ReadsAs(keys: Bindings, typed: seq<Byte>, tokens: seq<Token>, tail: seq<Byte>, s: Scanned) {
    && typed == TypedAs(keys, tokens) + tail && EndsIn(keys, s, tail)
    && (forall i :: 0 <= i < |tokens| ==> IsOrdinary(keys, tokens[i]))
    && s.forwarded == ForwardedAs(keys, tokens)
  }

  function Before(run: seq<Byte>, s: Scanned): Scanned {
    s.(forwarded := run + s.forwarded)
  }

  lemma {:induction false} RunGoesBefore(keys: Bindings, pending: bool, run: seq<Byte>, bytes: seq<Byte>)
    ensures Scan(keys, pending, run, bytes) == Before(run, Scan(keys, pending, [], bytes))
    decreases |bytes|, 0
  {
    if bytes == [] {
      assert run + [] == run;
    } else {
      var b, rest := bytes[0], bytes[1..];
      var more := if !pending then (if b == keys.prefix then [] else [b]) else if b == keys.prefix then [b] else [keys.prefix] + [b];
      assert run + [keys.prefix] + [b] == run + ([keys.prefix] + [b]) && [] + [keys.prefix] + [b] == [keys.prefix] + [b];
      assert run + [] == run && [] + [b] == [b];
      RunGoesFurther(keys, !pending && b == keys.prefix, run, more, rest);
    }
  }

  lemma RunGoesFurther(keys: Bindings, pending: bool, run: seq<Byte>, more: seq<Byte>, rest: seq<Byte>)
    ensures Scan(keys, pending, run + more, rest) == Before(run, Scan(keys, pending, more, rest))
    decreases |rest|, 1
  {
    hide Scan;
    RunGoesBefore(keys, pending, run + more, rest);
    RunGoesBefore(keys, pending, more, rest);
    var forwarded := Scan(keys, pending, [], rest).forwarded;
    assert run + more + forwarded == run + (more + forwarded);
  }

  lemma OneToken(keys: Bindings, token: Token, tokens: seq<Token>)
    ensures TypedAs(keys, [token] + tokens) == Typing(keys, token) + TypedAs(keys, tokens)
    ensures ForwardedAs(keys, [token] + tokens) == Passing(keys, token) + ForwardedAs(keys, tokens)
  {
    assert ([token] + tokens)[1..] == tokens;
  }

  /** An ordinary token is scanned past. */
  lemma TokenScanned(keys: Bindings, token: Token, bytes: seq<Byte>)
    requires IsOrdinary(keys, token)
    ensures Scan(keys, false, [], Typing(keys, token) + bytes) == Before(Passing(keys, token), Scan(keys, false, [], bytes))
  {
    if token.Key? {
      assert ([token.b] + bytes)[1..] == bytes && [] + [token.b] == [token.b];
      RunGoesBefore(keys, false, [token.b], bytes);
    } else {
      assert ([keys.prefix, token.b] + bytes)[1..] == [token.b] + bytes && ([token.b] + bytes)[1..] == bytes;
      assert [] + [token.b] == [token.b] && [] + [keys.prefix] + [token.b] == [keys.prefix, token.b];
      RunGoesBefore(keys, false, Passing(keys, token), bytes);
    }
  }

  /** Tokens that are typed so are read so. */
  lemma {:induction false} ReadAsTyped(keys: Bindings, typed: seq<Byte>, tokens: seq<Token>, tail: seq<Byte>, s: Scanned)
    requires ReadsAs(keys, typed, tokens, tail, s)
    ensures Scan(keys, false, [], typed) == s
    decreases |tokens|
  {
    hide Scan, EndsIn, IsOrdinary, Typing, Passing;
    if tokens == [] {
      EndScanned(keys, s, tail);
      assert typed == tail;
    } else {
      var token, more := tokens[0], tokens[1..];
      var rest := TypedAs(keys, more) + tail;
      var s' := s.(forwarded := ForwardedAs(keys, more));
      SameEnd(keys, s, s', tail);
      ReadAsTyped(keys, rest, more, tail, s');
      TokenScanned(keys, token, rest);
      assert typed == Typing(keys, token) + rest;
    }
  }

  lemma SameEnd(keys: Bindings, s: Scanned, s': Scanned, tail: seq<Byte>)
    requires EndsIn(keys, s, tail) && s'.(forwarded := s.forwarded) == s
    ensures EndsIn(keys, s', tail)
  {
  }

  lemma EndScanned(keys: Bindings, s: Scanned, tail: seq<Byte>)
    requires EndsIn(keys, s, tail) && s.forwarded == []
    ensures Scan(keys, false, [], tail) == s
  {
    match s.event
    case Detached =>
      assert tail[1..] == [keys.detach] + s.rest && tail[1..][1..] == s.rest;
    case Picked =>
      assert tail[1..] == s.rest;
    case Nothing =>
      assert tail != [] ==> tail[1..] == [];
  }

  /** Whatever is typed is ordinary tokens and then what ends them. */
  lemma {:induction false} TypedAsRead(keys: Bindings, typed: seq<Byte>) returns (tokens: seq<Token>, tail: seq<Byte>)
    ensures ReadsAs(keys, typed, tokens, tail, Scan(keys, false, [], typed))
    decreases |typed|
  {
    tokens, tail := [], typed;
    assert TypedAs(keys, []) + typed == typed;
    if typed == [] || keys.picker == Some(typed[0]) || (typed[0] == keys.prefix && (|typed| == 1 || typed[1] == keys.detach)) {
      LastToken(keys, typed);
    } else {
      var token := if typed[0] == keys.prefix then AfterPrefix(typed[1]) else Key(typed[0]);
      var rest := if token.Key? then typed[1..] else typed[2..];
      assert typed == Typing(keys, token) + rest;
      TokenScanned(keys, token, rest);
      tokens, tail := TypedAsRead(keys, rest);
      TokenRead(keys, token, rest, tokens, tail);
      tokens := [token] + tokens;
    }
  }

  lemma TokenRead(keys: Bindings, token: Token, rest: seq<Byte>, tokens: seq<Token>, tail: seq<Byte>)
    requires IsOrdinary(keys, token) && ReadsAs(keys, rest, tokens, tail, Scan(keys, false, [], rest))
    ensures var typed := Typing(keys, token) + rest;
            ReadsAs(keys, typed, [token] + tokens, tail, Scan(keys, false, [], typed))
  {
    hide Scan, EndsIn, IsOrdinary, Typing, Passing;
    var bytes := Typing(keys, token);
    TokenScanned(keys, token, rest);
    OneToken(keys, token, tokens);
    assert bytes + (TypedAs(keys, tokens) + tail) == bytes + TypedAs(keys, tokens) + tail;
    SameEnd(keys, Scan(keys, false, [], rest), Scan(keys, false, [], bytes + rest), tail);
  }

  lemma LastToken(keys: Bindings, typed: seq<Byte>)
    requires typed == [] || keys.picker == Some(typed[0]) || (typed[0] == keys.prefix && (|typed| == 1 || typed[1] == keys.detach))
    ensures ReadsAs(keys, typed, [], typed, Scan(keys, false, [], typed))
  {
    if typed != [] {
      assert typed == [typed[0]] + typed[1..];
      if |typed| > 1 {
        assert typed[1..][1..] == typed[2..] && typed == [typed[0], typed[1]] + typed[2..];
      }
    }
    assert TypedAs(keys, []) + typed == typed;
  }

  /** A read with a prefix pending is the read of that prefix and the rest. */
  lemma PendingIsTyped(keys: Bindings, bytes: seq<Byte>)
    requires keys.picker != Some(keys.prefix)
    ensures Scan(keys, true, [], bytes) == Scan(keys, false, [], [keys.prefix] + bytes)
  {
    assert ([keys.prefix] + bytes)[1..] == bytes;
  }

  /** An outcome is that of what was typed iff the typed bytes are ordinary tokens, all
      forwarded, and then its end: the event is `Detached` iff the first token that is none
      of the ordinary ones is prefix and detach key, `Picked` iff it is a lone picker key,
      `Nothing` iff there is none, and the bytes after it are left over. A pending prefix
      counts as typed; it can only be pending if it is not the picker key. */
  lemma EventsAsTyped(keys: Bindings, pending: bool, bytes: seq<Byte>, s: Scanned)
    requires pending ==> keys.picker != Some(keys.prefix)
    ensures s == Scan(keys, pending, [], bytes)
            <==> exists tokens, tail :: ReadsAs(keys, PrefixIf(keys, pending) + bytes, tokens, tail, s)
    ensures s == Scan(keys, pending, [], bytes) && s.pending ==> keys.picker != Some(keys.prefix)
  {
    hide Scan, ReadsAs;
    var typed := PrefixIf(keys, pending) + bytes;
    assert typed == if pending then [keys.prefix] + bytes else bytes;
    if pending {
      PendingIsTyped(keys, bytes);
    }
    var tokens, tail := TypedAsRead(keys, typed);
    PendingNotPicker(keys, typed, tokens, tail, Scan(keys, false, [], typed));
    if tokens, tail :| ReadsAs(keys, typed, tokens, tail, s) {
      ReadAsTyped(keys, typed, tokens, tail, s);
    }
  }

  lemma PendingNotPicker(keys: Bindings, typed: seq<Byte>, tokens: seq<Token>, tail: seq<Byte>, s: Scanned)
    requires ReadsAs(keys, typed, tokens, tail, s)
    ensures s.pending ==> keys.picker != Some(keys.prefix)
  {
  }

  // ----- where the reads are cut makes no difference

  /** Feeding `y` after the first read's outcome; an event ends it. */
  function Onwards(keys: Bindings, first: Scanned, y: seq<Byte>): Scanned {
    if first.event == Nothing then Scan(keys, first.pending, first.forwarded, y)
    else first.(rest := first.rest + y)
  }

  lemma {:induction false} ScanAppend(keys: Bindings, pending: bool, run: seq<Byte>, x: seq<Byte>, y: seq<Byte>)
    ensures Scan(keys, pending, run, x + y) == Onwards(keys, Scan(keys, pending, run, x), y)
    decreases |x|
  {
    if x == [] {
      assert x + y == y;
    } else {
      var b := x[0];
      assert (x + y)[1..] == x[1..] + y;
      if pending && b != keys.detach {
        ScanAppend(keys, false, if b == keys.prefix then run + [b] else run + [keys.prefix] + [b], x[1..], y);
      } else if !pending && Some(b) != keys.picker {
        ScanAppend(keys, b == keys.prefix, if b == keys.prefix then run else run + [b], x[1..], y);
      }
    }
  }

  function Joined(cuts: seq<seq<Byte>>): seq<Byte> {
    if cuts == [] then [] else cuts[0] + Joined(cuts[1..])
  }

  /** Feeding one read after another until an event; the reads not fed count as bytes after it. */
  function ScanReads(keys: Bindings, pending: bool, run: seq<Byte>, cuts: seq<seq<Byte>>): Scanned
    decreases |cuts|
  {
    if cuts == [] then Scanned(run, Nothing, [], pending)
    else
      var first := Scan(keys, pending, run, cuts[0]);
      if first.event == Nothing then ScanReads(keys, first.pending, first.forwarded, cuts[1..])
      else first.(rest := first.rest + Joined(cuts[1..]))
  }

  /** Any cutting into reads forwards the same bytes and meets the same first event as one read of it all. */
  lemma {:induction false} CutsMakeNoDifference(keys: Bindings, pending: bool, run: seq<Byte>, cuts: seq<seq<Byte>>)
    ensures ScanReads(keys, pending, run, cuts) == Scan(keys, pending, run, Joined(cuts))
    decreases |cuts|
  {
    if cuts != [] {
      ScanAppend(keys, pending, run, cuts[0], Joined(cuts[1..]));
      var first := Scan(keys, pending, run, cuts[0]);
      CutsMakeNoDifference(keys, first.pending, first.forwarded, cuts[1..]);
    }
  }

  // ----- no byte goes missing

  function PrefixIf(keys: Bindings, pending: bool): seq<Byte> {
    if pending then [keys.prefix] else []
  }

  /** `typed` with every doubled prefix made one; a prefix and what follows it go together. */
  function Undoubled(prefix: Byte, typed: seq<Byte>): seq<Byte> {
    if |typed| < 2 || typed[0] != prefix then
      if typed == [] then [] else [typed[0]] + Undoubled(prefix, typed[1..])
    else (if typed[1] == prefix then [prefix] else [prefix, typed[1]]) + Undoubled(prefix, typed[2..])
  }

  /** The bytes of an outcome that were not forwarded: a prefix still pending, or the keys of
      the event and what came after. */
  function Kept(keys: Bindings, s: Scanned): seq<Byte> {
    match s.event
    case Nothing => PrefixIf(keys, s.pending)
    case Detached => [keys.prefix, keys.detach] + s.rest
    case Picked => (if keys.picker.Some? then [keys.picker.value] else []) + s.rest
  }

  /** All that was typed is accounted for: it is what was forwarded, up to doubled prefixes,
      and then what was kept. */
  lemma {:induction false} NothingMissing(keys: Bindings, pending: bool, run: seq<Byte>, bytes: seq<Byte>) returns (typed: seq<Byte>)
    ensures var s := Scan(keys, pending, run, bytes);
            && typed + Kept(keys, s) == PrefixIf(keys, pending) + bytes
            && s.forwarded == run + Undoubled(keys.prefix, typed)
    decreases |bytes|
  {
    hide Undoubled;
    typed := [];
    UndoubledNone(keys.prefix, run);
    if bytes != [] {
      var b, rest := bytes[0], bytes[1..];
      var tokens := if pending then [keys.prefix, b] else [b];
      assert PrefixIf(keys, pending) + bytes == tokens + rest;
      if (pending && b != keys.detach) || (!pending && Some(b) != keys.picker && b != keys.prefix) {
        var token := if pending && b != keys.prefix then [keys.prefix] + [b] else [b];
        var run' := if pending && b != keys.prefix then run + [keys.prefix] + [b] else run + [b];
        assert run' == run + token;
        var more := NothingMissing(keys, false, run', rest);
        typed := tokens + more;
        UndoubledMore(keys.prefix, b, more);
        assert run' + Undoubled(keys.prefix, more) == run + Undoubled(keys.prefix, typed);
        TokensFirst(tokens, more, Kept(keys, Scan(keys, false, run', rest)), rest);
      } else if !pending && Some(b) != keys.picker {
        typed := NothingMissing(keys, true, run, rest);
      }
    }
  }

  lemma TokensFirst(tokens: seq<Byte>, more: seq<Byte>, kept: seq<Byte>, rest: seq<Byte>)
    requires more + kept == [] + rest
    ensures tokens + more + kept == tokens + rest
  {
    assert tokens + more + kept == tokens + (more + kept);
  }

  lemma UndoubledNone(prefix: Byte, run: seq<Byte>)
    ensures run + Undoubled(prefix, []) == run
  {
  }

  lemma UndoubledMore(prefix: Byte, b: Byte, more: seq<Byte>)
    ensures b != prefix ==> Undoubled(prefix, [b] + more) == [b] + Undoubled(prefix, more)
    ensures Undoubled(prefix, [prefix, b] + more) == (if b == prefix then [b] else [prefix] + [b]) + Undoubled(prefix, more)
  {
    assert ([b] + more)[1..] == more;
    assert ([prefix, b] + more)[2..] == more;
  }

  predicate NoDoubles(prefix: Byte, typed: seq<Byte>) {
    forall i :: 0 <= i < |typed| - 1 && typed[i] == prefix ==> typed[i + 1] != prefix
  }

  /** Without two prefixes in a row nothing at all is dropped. */
  lemma {:induction false} OnlyDoublesDropped(prefix: Byte, typed: seq<Byte>)
    requires NoDoubles(prefix, typed)
    ensures Undoubled(prefix, typed) == typed
  {
    if |typed| >= 2 && typed[0] == prefix {
      OnlyDoublesDropped(prefix, typed[2..]);
      assert typed == [typed[0], typed[1]] + typed[2..];
    } else if typed != [] {
      OnlyDoublesDropped(prefix, typed[1..]);
    }
  }
}
