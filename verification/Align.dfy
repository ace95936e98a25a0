/**
 The picker's matcher: places the characters of a needle in a haystack, in order,
 for the highest score. A table is filled row by row and walked back.
 */
module Align {
  import opened Basics

  const MATCH := 1
  const CONSEC := 4
  const BOUNDARY := 6
  const FIRST := 8

  /** A quarter of the smallest 32-bit integer: the score of a cell nothing reaches. */
  const MISS := -0x2000_0000

  /** The most one character can add. */
  const MOST := MATCH + CONSEC + FIRST

  predicate IsSep(c: char) {
    c in "/-_. "
  }

  function Bonus(hay: string, j: nat): (bonus: int)
    requires j < |hay|
    ensures 0 <= bonus <= FIRST
  {
    if j == 0 then FIRST else if IsSep(hay[j - 1]) then BOUNDARY else 0
  }

  // ----- what is being optimised

  /** `e` places every character of `n` in `hay`, in order. */
  predicate Embeds(n: string, hay: string, e: seq<nat>) {
    && |e| == |n|
    && (forall k :: 0 <= k < |e| ==> e[k] < |hay| && hay[e[k]] == n[k])
    && (forall k :: 0 < k < |e| ==> e[k - 1] < e[k])
  }

  /** What placing a character at `j` after one at `b` adds. */
  function Step(hay: string, b: int, j: nat): (gain: int)
    requires j < |hay|
    ensures MATCH <= gain <= MOST
  {
    MATCH + Bonus(hay, j) + if b + 1 == j then CONSEC else 0
  }

  /** The score of a placement. */
  function Value(hay: string, e: seq<nat>): int
    requires forall k :: 0 <= k < |e| ==> e[k] < |hay|
  {
    if e == [] then 0
    else if |e| == 1 then MATCH + Bonus(hay, e[0])
    else Value(hay, e[..|e| - 1]) + Step(hay, e[|e| - 2], e[|e| - 1])
  }

  predicate CarriesOn(e: seq<nat>, k: nat)
    requires k < |e|
  {
    k > 0 && e[k - 1] + 1 == e[k]
  }

  predicate FollowsSep(hay: string, at: nat)
    requires at < |hay|
  {
    at > 0 && hay[at - 1] in {'/', '-', '_', '.', ' '}
  }

  /** The places of a placement that carry on from the one before, that follow a
      separator, and that start the haystack. */
  function CarryingOn(e: seq<nat>): set<nat> {
    set k: nat | k < |e| && CarriesOn(e, k)
  }

  function AfterSep(hay: string, e: seq<nat>): set<nat>
    requires forall k :: 0 <= k < |e| ==> e[k] < |hay|
  {
    set k: nat | k < |e| && FollowsSep(hay, e[k])
  }

  function AtStart(e: seq<nat>): set<nat> {
    set k: nat | k < |e| && e[k] == 0
  }

  lemma PlacesGrow(before: set<nat>, after: set<nat>, n: nat, counts: bool)
    requires n !in before && forall k :: k in after <==> k in before || (k == n && counts)
    ensures |after| == |before| + if counts then 1 else 0
  {
    assert after == before + if counts then {n} else {};
  }

  lemma SamePlace(e: seq<nat>, j: nat, k: nat)
    requires k < |e|
    ensures CarriesOn(e + [j], k) <==> CarriesOn(e, k)
  {
    assert (e + [j])[k] == e[k] && (k > 0 ==> (e + [j])[k - 1] == e[k - 1]);
  }

  /** One more place counts where it belongs. */
  lemma OneMoreCarriesOn(e: seq<nat>, j: nat)
    ensures |CarryingOn(e + [j])| == |CarryingOn(e)| + if e != [] && e[|e| - 1] + 1 == j then 1 else 0
  {
    var n := |e|;
    var on := n > 0 && e[n - 1] + 1 == j;
    assert CarriesOn(e + [j], n) <==> on;
    hide CarriesOn;
    forall k: nat ensures k in CarryingOn(e + [j]) <==> k in CarryingOn(e) || (k == n && on) {
      if k < n {
        SamePlace(e, j, k);
      }
    }
    PlacesGrow(CarryingOn(e), CarryingOn(e + [j]), n, on);
  }

  lemma OneMorePlace(hay: string, e: seq<nat>, j: nat)
    requires j < |hay| && forall k :: 0 <= k < |e| ==> e[k] < |hay|
    ensures |AfterSep(hay, e + [j])| == |AfterSep(hay, e)| + if FollowsSep(hay, j) then 1 else 0
    ensures |AtStart(e + [j])| == |AtStart(e)| + if j == 0 then 1 else 0
  {
    hide FollowsSep;
    PlacesGrow(AfterSep(hay, e), AfterSep(hay, e + [j]), |e|, FollowsSep(hay, j));
    PlacesGrow(AtStart(e), AtStart(e + [j]), |e|, j == 0);
  }

  lemma ValueOneMore(hay: string, e: seq<nat>, j: nat)
    requires j < |hay| && forall k :: 0 <= k < |e| ==> e[k] < |hay|
    ensures Value(hay, e + [j]) == Value(hay, e) + 1 + (if e != [] && e[|e| - 1] + 1 == j then 4 else 0)
                                   + (if FollowsSep(hay, j) then 6 else 0) + (if j == 0 then 8 else 0)
  {
    hide Bonus, FollowsSep;
    BonusIs(hay, j);
    var more := e + [j];
    if e == [] {
      assert |more| == 1 && more[0] == j;
      assert Value(hay, e) == 0;
    } else {
      assert more[..|more| - 1] == e && more[|more| - 2] == e[|e| - 1] && more[|more| - 1] == j;
      LastStep(hay, more);
    }
  }

  lemma LastStep(hay: string, e: seq<nat>)
    requires |e| > 1 && forall k :: 0 <= k < |e| ==> e[k] < |hay|
    ensures Value(hay, e) == Value(hay, e[..|e| - 1]) + Step(hay, e[|e| - 2], e[|e| - 1])
  {
  }

  lemma BonusIs(hay: string, j: nat)
    requires j < |hay|
    ensures Bonus(hay, j) == (if FollowsSep(hay, j) then 6 else 0) + (if j == 0 then 8 else 0)
  {
  }

  /** What a placement scores: a point a character, four more for each that carries on from
      the one before, six for each after a separator, eight for one at the start. */
  lemma {:induction false} ValueCounts(hay: string, e: seq<nat>)
    requires forall k :: 0 <= k < |e| ==> e[k] < |hay|
    ensures Value(hay, e) == |e| + 4 * |CarryingOn(e)| + 6 * |AfterSep(hay, e)| + 8 * |AtStart(e)|
  {
    if e == [] {
      NoPlaces(hay);
    } else {
      hide Value, CarryingOn, AfterSep, AtStart, FollowsSep;
      var e', j := e[..|e| - 1], e[|e| - 1];
      assert e == e' + [j];
      ValueCounts(hay, e');
      ValueOneMore(hay, e', j);
      OneMoreCarriesOn(e', j);
      OneMorePlace(hay, e', j);
    }
  }

  lemma NoPlaces(hay: string)
    ensures CarryingOn([]) == {} && AfterSep(hay, []) == {} && AtStart([]) == {}
  {
  }

  /** `n` can be read in `hay` by skipping characters. */
  predicate Subsequence(n: string, hay: string) {
    if n == "" then true
    else if hay == "" then false
    else if n[|n| - 1] == hay[|hay| - 1] then Subsequence(n[..|n| - 1], hay[..|hay| - 1])
    else Subsequence(n, hay[..|hay| - 1])
  }

  lemma {:induction false} EmbeddedIsSubsequence(n: string, hay: string, e: seq<nat>)
    requires Embeds(n, hay, e)
    ensures Subsequence(n, hay)
    decreases |hay|
  {
    if n != "" {
      EmbedsIncreasing(n, hay, e);
      var shorter := hay[..|hay| - 1];
      if n[|n| - 1] == hay[|hay| - 1] {
        assert Embeds(n[..|n| - 1], shorter, e[..|e| - 1]);
        EmbeddedIsSubsequence(n[..|n| - 1], shorter, e[..|e| - 1]);
      } else {
        assert Embeds(n, shorter, e);
        EmbeddedIsSubsequence(n, shorter, e);
      }
    }
  }

  lemma {:induction false} EmbedsIncreasing(n: string, hay: string, e: seq<nat>)
    requires Embeds(n, hay, e) && e != []
    ensures forall k :: 0 <= k < |e| - 1 ==> e[k] < e[|e| - 1]
    ensures e[|e| - 1] >= |e| - 1
  {
    if |e| > 1 {
      var n', e' := n[..|n| - 1], e[..|e| - 1];
      EmbedsIncreasing(n', hay, e');
      assert e'[|e'| - 1] < e[|e| - 1];
    }
  }

  lemma {:induction false} SubsequenceEmbeds(n: string, hay: string) returns (e: seq<nat>)
    requires Subsequence(n, hay)
    ensures Embeds(n, hay, e)
  {
    if n == "" {
      e := [];
    } else if n[|n| - 1] == hay[|hay| - 1] {
      e := SubsequenceEmbeds(n[..|n| - 1], hay[..|hay| - 1]);
      e := e + [|hay| - 1];
    } else {
      e := SubsequenceEmbeds(n, hay[..|hay| - 1]);
    }
  }

  // ----- the recurrence the table holds

  /** The best score with `n[..i + 1]` placed and `n[i]` at `j`; `MISS` if that cannot be. */
  function Opt(n: string, hay: string, i: nat, j: nat): (best: int)
    requires i < |n| && j < |hay|
    ensures best == MISS || i < best <= MOST * (i + 1)
    decreases i, j, 1
  {
    if hay[j] != n[i] then MISS
    else if i == 0 then MATCH + Bonus(hay, j)
    else
      var pred := Pred(n, hay, i, j);
      if pred > MISS / 2 then pred + MATCH + Bonus(hay, j) else MISS
  }

  /** The best of the row before, over the first `k` columns. */
  function Far(n: string, hay: string, i: nat, k: nat): (best: int)
    requires i < |n| && k <= |hay|
    ensures best == MISS || i < best <= MOST * (i + 1)
    ensures forall j :: 0 <= j < k ==> Opt(n, hay, i, j) <= best
    decreases i, k, 0
  {
    if k == 0 then MISS else Max(Far(n, hay, i, k - 1), Opt(n, hay, i, k - 1))
  }

  function Pred(n: string, hay: string, i: nat, j: nat): (best: int)
    requires 0 < i < |n| && j < |hay|
    ensures best == MISS || i <= best <= MOST * i + CONSEC
    decreases i, j, 0
  {
    if j == 0 then MISS
    else
      var far := Far(n, hay, i - 1, j - 1);
      var near := Opt(n, hay, i - 1, j - 1);
      if near > MISS / 2 then Max(far, near + CONSEC) else far
  }

  /** No placement beats the recurrence. */
  lemma {:induction false} OptUpper(n: string, hay: string, e: seq<nat>)
    requires 0 < |e| <= |n| && Embeds(n[..|e|], hay, e)
    ensures Value(hay, e) <= Opt(n, hay, |e| - 1, e[|e| - 1])
    ensures Value(hay, e) > 0
  {
    var i := |e| - 1;
    if i > 0 {
      var before := e[..i];
      assert n[..|before|] == n[..|e|][..i];
      OptUpper(n, hay, before);
      var b := before[i - 1];
      assert b == e[i - 1] < e[i];
    }
  }

  /** Too early a column cannot be reached. */
  lemma {:induction false} OptEarly(n: string, hay: string, i: nat, j: nat)
    requires j < i < |n| && j < |hay|
    ensures Opt(n, hay, i, j) == MISS
    decreases i, j, 0
  {
    if j > 0 {
      OptEarly(n, hay, i - 1, j - 1);
      FarEarly(n, hay, i - 1, j - 1);
    }
  }

  lemma {:induction false} FarEarly(n: string, hay: string, i: nat, k: nat)
    requires k <= i < |n| && k <= |hay|
    ensures Far(n, hay, i, k) == MISS
    decreases i, k, 1
  {
    if k > 0 {
      OptEarly(n, hay, i, k - 1);
      FarEarly(n, hay, i, k - 1);
    }
  }

  // ----- the walk back

  /** `b` is where the character before stood on a best way to cell `(i, j)`. */
  predicate LeadsTo(n: string, hay: string, i: nat, j: nat, b: int)
    requires 0 < i < |n| && j < |hay|
  {
    Opt(n, hay, i, j) != MISS ==>
      0 <= b < j && Opt(n, hay, i - 1, b) != MISS && Opt(n, hay, i, j) == Opt(n, hay, i - 1, b) + Step(hay, b, j)
  }

  ghost predicate Backs(n: string, hay: string, back: array2<int>)
    reads back
  {
    && back.Length0 == |n| && back.Length1 == |hay|
    && forall i, j :: 0 < i < |n| && 0 <= j < |hay| ==> LeadsTo(n, hay, i, j, back[i, j])
  }

  ghost function Trace(n: string, hay: string, back: array2<int>, i: nat, j: nat): (e: seq<nat>)
    requires Backs(n, hay, back) && i < |n| && j < |hay| && Opt(n, hay, i, j) != MISS
    reads back
    ensures |e| == i + 1 && e[i] == j
    decreases i
  {
    if i == 0 then [j]
    else
      assert LeadsTo(n, hay, i, j, back[i, j]);
      Trace(n, hay, back, i - 1, back[i, j]) + [j]
  }

  /** One more character at `j`, after a placement that ends at `b`. */
  lemma Extends(n: string, hay: string, e: seq<nat>, j: nat)
    requires |e| > 0 && |e| < |n| && Embeds(n[..|e|], hay, e) && e[|e| - 1] < j < |hay| && hay[j] == n[|e|]
    ensures Embeds(n[..|e| + 1], hay, e + [j])
    ensures Value(hay, e + [j]) == Value(hay, e) + Step(hay, e[|e| - 1], j)
  {
    hide Bonus, IsSep;
    assert (e + [j])[..|e|] == e;
    assert n[..|e| + 1] == n[..|e|] + [n[|e|]];
  }

  /** Following the back pointers gives a placement that scores what the cell says. */
  lemma {:induction false} TraceScores(n: string, hay: string, back: array2<int>, i: nat, j: nat)
    requires Backs(n, hay, back) && i < |n| && j < |hay| && Opt(n, hay, i, j) != MISS
    ensures var e := Trace(n, hay, back, i, j);
            Embeds(n[..i + 1], hay, e) && Value(hay, e) == Opt(n, hay, i, j)
    decreases i
  {
    hide Far, Pred, Step;
    if i > 0 {
      assert LeadsTo(n, hay, i, j, back[i, j]);
      TraceScores(n, hay, back, i - 1, back[i, j]);
      Extends(n, hay, Trace(n, hay, back, i - 1, back[i, j]), j);
    }
  }

  function Reversed(s: seq<nat>): seq<nat> {
    if s == [] then [] else Reversed(s[1..]) + [s[0]]
  }

  lemma {:induction false} ReversedAppend(s: seq<nat>, x: nat)
    ensures Reversed(s + [x]) == [x] + Reversed(s)
  {
    if s != [] {
      assert (s + [x])[1..] == s[1..] + [x];
      ReversedAppend(s[1..], x);
    } else {
      assert [x][1..] == [];
    }
  }

  // ----- the table

  /** Row `i` of the score table is finished up to column `upTo`. */
  ghost predicate RowDone(n: string, hay: string, i: int, score: array2<int>, upTo: int)
    reads score
  {
    && 0 <= i < |n| == score.Length0 && 0 <= upTo <= |hay| == score.Length1
    && (forall j :: 0 <= j < upTo ==> score[i, j] == Opt(n, hay, i, j))
    && (forall j :: upTo <= j < |hay| ==> score[i, j] == MISS)
  }

  ghost predicate BackDone(n: string, hay: string, i: int, back: array2<int>, upTo: int)
    reads back
  {
    && 0 < i < |n| == back.Length0 && 0 <= upTo <= |hay| == back.Length1
    && forall j :: 0 <= j < upTo ==> LeadsTo(n, hay, i, j, back[i, j])
  }

  twostate predicate OtherRowsKept(table: array2<int>, i: int)
    reads table
  {
    forall r, j :: 0 <= r < table.Length0 && r != i && 0 <= j < table.Length1 ==> table[r, j] == old(table[r, j])
  }

  /** The better of the best predecessor further back and the contiguous one, the latter on ties. */
  method BestPred(n: string, hay: string, i: nat, j: nat, bestVal: int, bestIdx: int, near: int) returns (predVal: int, predIdx: int)
    requires 0 < i < |n| && 0 < j < |hay| && near == Opt(n, hay, i - 1, j - 1) && bestVal == Far(n, hay, i - 1, j - 1)
    requires bestVal != MISS ==> 0 <= bestIdx < j - 1 && Opt(n, hay, i - 1, bestIdx) == bestVal
    ensures predVal == Pred(n, hay, i, j)
    ensures hay[j] == n[i] && predVal > MISS / 2 ==> LeadsTo(n, hay, i, j, predIdx)
  {
    hide Far, Bonus;
    predVal, predIdx := bestVal, bestIdx;
    if near > MISS / 2 && near + CONSEC >= predVal {
      predVal, predIdx := near + CONSEC, j - 1;
    }
    OptCell(n, hay, i, j);
  }

  /** Fills row `i` of both tables from row `i - 1`. */
  method FillRow(n: string, hay: string, i: nat, score: array2<int>, back: array2<int>)
    requires 0 < i < |n| <= |hay| && score != back && back.Length0 == |n| && back.Length1 == |hay|
    requires RowDone(n, hay, i - 1, score, |hay|) && RowDone(n, hay, i, score, 0)
    modifies score, back
    ensures RowDone(n, hay, i, score, |hay|) && BackDone(n, hay, i, back, |hay|)
    ensures forall r, upTo :: r != i && old(RowDone(n, hay, r, score, upTo)) ==> RowDone(n, hay, r, score, upTo)
    ensures forall r, upTo :: r != i && old(BackDone(n, hay, r, back, upTo)) ==> BackDone(n, hay, r, back, upTo)
  {
    hide Opt, Far, Pred, Bonus, LeadsTo;
    var bestVal, bestIdx := MISS, -1;
    EarlyColumns(n, hay, i);
    for j := i to |hay|
      invariant bestVal == Far(n, hay, i - 1, Max(j - 2, 0))
      invariant bestVal != MISS ==> 0 <= bestIdx < j - 2 && Opt(n, hay, i - 1, bestIdx) == bestVal
      invariant RowDone(n, hay, i, score, j) && BackDone(n, hay, i, back, j)
      invariant OtherRowsKept(score, i) && OtherRowsKept(back, i)
    {
      FarStep(n, hay, i - 1, j);
      if j >= 2 && score[i - 1, j - 2] > bestVal {
        bestVal, bestIdx := score[i - 1, j - 2], j - 2;
      }
      OptCell(n, hay, i, j);
      Unreached(n, hay, i, j, back[i, j]);
      if hay[j] == n[i] {
        var predVal, predIdx := BestPred(n, hay, i, j, bestVal, bestIdx, score[i - 1, j - 1]);
        if predVal > MISS / 2 {
          score[i, j] := predVal + MATCH + Bonus(hay, j);
          back[i, j] := predIdx;
        }
      }
    }
  }

  lemma Unreached(n: string, hay: string, i: nat, j: nat, b: int)
    requires 0 < i < |n| && j < |hay|
    ensures Opt(n, hay, i, j) == MISS ==> LeadsTo(n, hay, i, j, b)
  {
  }

  lemma EarlyColumns(n: string, hay: string, i: nat)
    requires 0 < i < |n| <= |hay|
    ensures forall j: nat :: j < i ==> Opt(n, hay, i, j) == MISS
    ensures forall j: nat, b :: j < i ==> LeadsTo(n, hay, i, j, b)
    ensures Far(n, hay, i - 1, Max(i - 2, 0)) == MISS
  {
    forall j: nat | j < i ensures Opt(n, hay, i, j) == MISS {
      OptEarly(n, hay, i, j);
    }
    FarEarly(n, hay, i - 1, Max(i - 2, 0));
  }

  lemma FarStep(n: string, hay: string, i: nat, j: nat)
    requires i < |n| && 0 < j < |hay|
    ensures Far(n, hay, i, j - 1) == if j >= 2 then Max(Far(n, hay, i, j - 2), Opt(n, hay, i, j - 2)) else Far(n, hay, i, 0)
  {
  }

  /** The recurrence at one cell. */
  lemma OptCell(n: string, hay: string, i: nat, j: nat)
    requires 0 < i < |n| && 0 < j < |hay|
    ensures Opt(n, hay, i, j) == if hay[j] != n[i] || Pred(n, hay, i, j) <= MISS / 2 then MISS
                                 else Pred(n, hay, i, j) + MATCH + Bonus(hay, j)
  {
  }

  method FillTables(n: string, hay: string) returns (score: array2<int>, back: array2<int>)
    requires 0 < |n| <= |hay|
    ensures RowDone(n, hay, |n| - 1, score, |hay|) && Backs(n, hay, back)
  {
    hide Far, Pred, Step, LeadsTo;
    score := new int[|n|, |hay|]((_, _) => MISS);
    back := new int[|n|, |hay|]((_, _) => -1);
    for j := 0 to |hay|
      invariant RowDone(n, hay, 0, score, j)
      invariant forall r, k :: 0 < r < |n| && 0 <= k < |hay| ==> score[r, k] == MISS
    {
      if hay[j] == n[0] {
        score[0, j] := MATCH + Bonus(hay, j);
      }
    }
    for i := 1 to |n|
      invariant forall r :: 0 <= r < i ==> RowDone(n, hay, r, score, |hay|)
      invariant forall r :: 0 < r < i ==> BackDone(n, hay, r, back, |hay|)
      invariant forall r :: i <= r < |n| ==> RowDone(n, hay, r, score, 0)
    {
      FillRow(n, hay, i, score, back);
    }
    AllBacks(n, hay, back);
  }

  lemma AllBacks(n: string, hay: string, back: array2<int>)
    requires back.Length0 == |n| && back.Length1 == |hay|
    requires forall r :: 0 < r < |n| ==> BackDone(n, hay, r, back, |hay|)
    ensures Backs(n, hay, back)
  {
    hide LeadsTo;
    forall i, j | 0 < i < |n| && 0 <= j < |hay| ensures LeadsTo(n, hay, i, j, back[i, j]) {
      assert BackDone(n, hay, i, back, |hay|);
    }
  }

  method AlignIndices(n: string, hay: string) returns (result: Option<(int, seq<nat>)>)
    ensures result == None <==> !Subsequence(n, hay)
    ensures result.Some? ==> var (best, e) := result.value;
              && Embeds(n, hay, e) && Value(hay, e) == best <= MOST * |n|
              && forall other :: Embeds(n, hay, other) ==> Value(hay, other) <= best
  {
    if n == "" {
      return Some((0, []));
    }
    if |hay| < |n| {
      TooShort(n, hay);
      return None;
    }
    var score, back := FillTables(n, hay);
    var last := |n| - 1;
    var best, bestJ := MISS, -1;
    for j := 0 to |hay|
      invariant best != MISS ==> 0 <= bestJ < j && best == Opt(n, hay, last, bestJ)
      invariant forall k :: 0 <= k < j ==> Opt(n, hay, last, k) <= best
      invariant best >= MISS
    {
      if score[last, j] > best {
        best, bestJ := score[last, j], j;
      }
    }
    NoneBeats(n, hay, best);
    if best <= MISS / 2 {
      return None;
    }
    var e := WalkBack(n, hay, back, last, bestJ);
    EmbeddedIsSubsequence(n, hay, e);
    result := Some((best, e));
  }

  lemma TooShort(n: string, hay: string)
    requires |hay| < |n|
    ensures !Subsequence(n, hay)
  {
    if Subsequence(n, hay) {
      var e := SubsequenceEmbeds(n, hay);
      EmbedsIncreasing(n, hay, e);
    }
  }

  /** The best of the last row is the best of all placements, and if there is none there are none. */
  lemma NoneBeats(n: string, hay: string, best: int)
    requires n != "" && forall j, last :: last == |n| - 1 && 0 <= j < |hay| ==> Opt(n, hay, last, j) <= best
    ensures forall e :: Embeds(n, hay, e) ==> 0 < Value(hay, e) <= best
    ensures best <= 0 ==> !Subsequence(n, hay)
  {
    forall e | Embeds(n, hay, e) ensures 0 < Value(hay, e) <= best {
      assert n[..|e|] == n;
      OptUpper(n, hay, e);
    }
    if Subsequence(n, hay) {
      var e := SubsequenceEmbeds(n, hay);
    }
  }

  lemma TraceStep(n: string, hay: string, back: array2<int>, i: nat, j: nat)
    requires Backs(n, hay, back) && 0 < i < |n| && j < |hay| && Opt(n, hay, i, j) != MISS
    ensures back.Length0 == |n| && back.Length1 == |hay| && 0 <= back[i, j] < |hay| && Opt(n, hay, i - 1, back[i, j]) != MISS
    ensures Trace(n, hay, back, i, j) == Trace(n, hay, back, i - 1, back[i, j]) + [j]
  {
    assert LeadsTo(n, hay, i, j, back[i, j]);
  }

  method WalkBack(n: string, hay: string, back: array2<int>, last: nat, bestJ: nat) returns (e: seq<nat>)
    requires Backs(n, hay, back) && last == |n| - 1 && bestJ < |hay| && Opt(n, hay, last, bestJ) != MISS
    ensures Embeds(n, hay, e) && Value(hay, e) == Opt(n, hay, last, bestJ)
  {
    hide Opt, Value, Embeds, Backs, LeadsTo;
    ghost var whole := Trace(n, hay, back, last, bestJ);
    TraceScores(n, hay, back, last, bestJ);
    var i: nat, j: nat := last, bestJ;
    var idxs: seq<nat> := [];
    while i > 0
      invariant i <= last && j < |hay| && Opt(n, hay, i, j) != MISS
      invariant whole == Trace(n, hay, back, i, j) + Reversed(idxs)
    {
      ReversedAppend(idxs, j);
      TraceStep(n, hay, back, i, j);
      idxs := idxs + [j];
      j := back[i, j];
      i := i - 1;
    }
    ReversedAppend(idxs, j);
    idxs := idxs + [j];
    assert n[..last + 1] == n;
    e := Reversed(idxs);
  }

  // ----- several terms

  /** A needle term and the haystack it is matched in, each already in the case it is matched by. */
  datatype Term = Term(needle: string, hay: string)

  /** `e` is a best placement of the term. */
  ghost predicate IsBest(t: Term, e: seq<nat>) {
    && Embeds(t.needle, t.hay, e)
    && forall other :: Embeds(t.needle, t.hay, other) ==> Value(t.hay, other) <= Value(t.hay, e)
  }

  ghost predicate AllBest(terms: seq<Term>, placements: seq<seq<nat>>) {
    |placements| == |terms| && forall i :: 0 <= i < |terms| ==> IsBest(terms[i], placements[i])
  }

  ghost function TotalOf(terms: seq<Term>, placements: seq<seq<nat>>): int
    requires AllBest(terms, placements)
  {
    if terms == [] then 0
    else
      var k := |terms| - 1;
      TotalOf(terms[..k], placements[..k]) + Value(terms[k].hay, placements[k])
  }

  predicate Ascending(s: seq<nat>) {
    forall i, j :: 0 <= i < j < |s| ==> s[i] < s[j]
  }

  lemma NothingAscends()
    ensures Ascending([])
  {
  }

  lemma PutFirst(x: nat, s: seq<nat>)
    requires Ascending(s) && forall p :: p in s ==> x < p
    ensures Ascending([x] + s) && forall p :: p in [x] + s <==> p == x || p in s
  {
    var all := [x] + s;
    forall i, j | 0 <= i < j < |all| ensures all[i] < all[j] {
      assert all[j] == s[j - 1] && s[j - 1] in s;
      assert i > 0 ==> all[i] == s[i - 1];
    }
  }

  lemma HeadAndTail(s: seq<nat>)
    requires Ascending(s) && s != []
    ensures Ascending(s[1..]) && (forall p :: p in s[1..] ==> s[0] < p) && forall p :: p in s <==> p == s[0] || p in s[1..]
  {
    var rest := s[1..];
    assert s == [s[0]] + rest;
    forall i | 0 <= i < |rest| ensures s[0] < rest[i] {
      assert rest[i] == s[i + 1];
    }
  }

  /** `x` put in its place, once. */
  function Insert(s: seq<nat>, x: nat): (r: seq<nat>)
    requires Ascending(s)
    ensures Ascending(r) && forall p :: p in r <==> p in s || p == x
  {
    if s == [] then [x]
    else
      HeadAndTail(s);
      if x < s[0] then PutFirst(x, s); [x] + s
      else if x == s[0] then s
      else
        PutFirst(s[0], Insert(s[1..], x));
        [s[0]] + Insert(s[1..], x)
  }

  /** The positions matched, in ascending order and each once. */
  method SortedOnce(positions: seq<nat>) returns (r: seq<nat>)
    ensures Ascending(r) && forall p :: p in r <==> p in positions
  {
    hide Insert, Ascending;
    r := [];
    NothingAscends();
    for i := 0 to |positions|
      invariant Ascending(r) && forall p :: p in r <==> p in positions[..i]
    {
      assert positions[..i + 1] == positions[..i] + [positions[i]];
      assert forall p :: p in positions[..i + 1] <==> p in positions[..i] || p == positions[i];
      r := Insert(r, positions[i]);
    }
    assert positions[..|positions|] == positions;
  }

  /** `positions` are those of all the placements. */
  ghost predicate AreThoseOf(positions: seq<nat>, placements: seq<seq<nat>>) {
    forall p :: p in positions <==> exists k :: 0 <= k < |placements| && p in placements[k]
  }

  /** Matches every term, for the sum of their best scores less a penalty for a long haystack
      of `m` characters. */
  method MatchTerms(terms: seq<Term>, m: nat) returns (result: Option<(int, seq<nat>)>, ghost placements: seq<seq<nat>>)
    ensures result == None <==> exists t :: t in terms && !Subsequence(t.needle, t.hay)
    ensures result.Some? ==> var (score, positions) := result.value;
              && AllBest(terms, placements)
              && score == (if terms == [] then 0 else TotalOf(terms, placements) - m / 16)
              && Ascending(positions) && AreThoseOf(positions, placements)
  {
    hide Subsequence, IsBest, Ascending, AreThoseOf, AllBest, TotalOf, Embeds, Value;
    placements := [];
    var total, positions := 0, [];
    NoTerms();
    for i := 0 to |terms|
      invariant forall k :: 0 <= k < i ==> Subsequence(terms[k].needle, terms[k].hay)
      invariant AllBest(terms[..i], placements) && total == TotalOf(terms[..i], placements)
      invariant AreThoseOf(positions, placements)
    {
      var aligned := AlignIndices(terms[i].needle, terms[i].hay);
      if aligned == None {
        assert terms[i] in terms;
        return None, [];
      }
      var (s, idxs) := aligned.value;
      BestFound(terms[i], idxs);
      assert terms[..i + 1] == terms[..i] + [terms[i]];
      OneMoreTerm(terms[..i], placements, terms[i], idxs);
      Gathered(positions, placements, idxs);
      total := total + s;
      positions := positions + idxs;
      placements := placements + [idxs];
    }
    assert terms[..|terms|] == terms;
    if terms == [] {
      result := Some((0, []));
      NoTerms();
    } else {
      var once := SortedOnce(positions);
      SameElements(positions, once, placements);
      result := Some((total - m / 16, once));
    }
  }

  lemma NoTerms()
    ensures AllBest([], []) && TotalOf([], []) == 0 && AreThoseOf([], []) && Ascending([])
    ensures forall placements :: AllBest([], placements) ==> placements == []
  {
  }

  lemma OneMoreTerm(terms: seq<Term>, placements: seq<seq<nat>>, t: Term, e: seq<nat>)
    requires AllBest(terms, placements) && IsBest(t, e)
    ensures AllBest(terms + [t], placements + [e])
    ensures TotalOf(terms + [t], placements + [e]) == TotalOf(terms, placements) + Value(t.hay, e)
  {
    assert (terms + [t])[..|terms|] == terms && (placements + [e])[..|placements|] == placements;
  }

  lemma SameElements(positions: seq<nat>, once: seq<nat>, placements: seq<seq<nat>>)
    requires AreThoseOf(positions, placements) && forall p :: p in once <==> p in positions
    ensures AreThoseOf(once, placements)
  {
  }

  lemma BestFound(t: Term, e: seq<nat>)
    requires Embeds(t.needle, t.hay, e)
    requires forall other :: Embeds(t.needle, t.hay, other) ==> Value(t.hay, other) <= Value(t.hay, e)
    ensures IsBest(t, e)
  {
  }

  lemma Gathered(positions: seq<nat>, placements: seq<seq<nat>>, more: seq<nat>)
    requires AreThoseOf(positions, placements)
    ensures AreThoseOf(positions + more, placements + [more])
  {
    var all := placements + [more];
    assert all[|placements|] == more;
    forall p ensures p in positions + more <==> exists k :: 0 <= k < |all| && p in all[k] {
      if p in positions {
        var k :| 0 <= k < |placements| && p in placements[k];
        assert p in all[k];
      }
    }
  }

  // ----- from what is typed to terms

  /** What Unicode says: which characters are white space or upper case, and the lower case
      of a string, which need not be as long. */
  datatype Folding = Folding(isSpace: char -> bool, isUpper: char -> bool, lower: string -> string)

  predicate AllSpace(s: string, fold: Folding) {
    forall i :: 0 <= i < |s| ==> fold.isSpace(s[i])
  }

  /** How many characters `s` starts with before its first white space. */
  function WordLength(s: string, fold: Folding): (n: nat)
    ensures n <= |s| && (n < |s| ==> fold.isSpace(s[n])) && forall i :: 0 <= i < n ==> !fold.isSpace(s[i])
  {
    if s == "" || fold.isSpace(s[0]) then 0 else 1 + WordLength(s[1..], fold)
  }

  /** The words of a string, as white space splits it. */
  function Words(s: string, fold: Folding): seq<string>
    decreases |s|
  {
    if s == "" then []
    else if fold.isSpace(s[0]) then Words(s[1..], fold)
    else [s[..WordLength(s, fold)]] + Words(s[WordLength(s, fold)..], fold)
  }

  function Letters(s: string, fold: Folding): string {
    if s == "" then "" else (if fold.isSpace(s[0]) then "" else [s[0]]) + Letters(s[1..], fold)
  }

  function Joined(words: seq<string>): string {
    if words == [] then "" else words[0] + Joined(words[1..])
  }

  predicate IsWord(w: string, fold: Folding) {
    w != "" && forall i :: 0 <= i < |w| ==> !fold.isSpace(w[i])
  }

  /** Splitting loses nothing but white space, and no word is empty or has any. */
  lemma {:induction false} WordsAreAll(s: string, fold: Folding)
    ensures Joined(Words(s, fold)) == Letters(s, fold)
    ensures forall w :: w in Words(s, fold) ==> IsWord(w, fold)
    ensures Words(s, fold) == [] <==> AllSpace(s, fold)
    decreases |s|
  {
    hide IsWord, AllSpace;
    if s == "" || fold.isSpace(s[0]) {
      SpaceFirst(s, fold);
      if s != "" {
        WordsAreAll(s[1..], fold);
      }
    } else {
      var n := WordLength(s, fold);
      WordFirst(s, n, fold);
      WordsAreAll(s[n..], fold);
    }
  }

  lemma SpaceFirst(s: string, fold: Folding)
    requires s == "" || fold.isSpace(s[0])
    ensures if s == "" then AllSpace(s, fold) else AllSpace(s, fold) <==> AllSpace(s[1..], fold)
  {
  }

  lemma WordFirst(s: string, n: nat, fold: Folding)
    requires s != "" && !fold.isSpace(s[0]) && n == WordLength(s, fold)
    ensures n > 0 && IsWord(s[..n], fold) && !AllSpace(s, fold) && Letters(s, fold) == s[..n] + Letters(s[n..], fold)
  {
    hide Letters;
    LettersAfterWord(s, n, fold);
  }

  lemma {:induction false} LettersAfterWord(s: string, n: nat, fold: Folding)
    requires n <= |s| && forall i :: 0 <= i < n ==> !fold.isSpace(s[i])
    ensures Letters(s, fold) == s[..n] + Letters(s[n..], fold)
  {
    if n > 0 {
      LettersAfterWord(s[1..], n - 1, fold);
      assert s[1..][n - 1..] == s[n..] && s[..n] == [s[0]] + s[1..][..n - 1];
    } else {
      assert s[0..] == s && s[..0] == "";
    }
  }

  /** A string without white space is one word. */
  lemma OneWord(w: string, fold: Folding)
    requires IsWord(w, fold)
    ensures Words(w, fold) == [w]
  {
    assert WordLength(w, fold) == |w| && w[..|w|] == w && w[|w|..] == "";
  }

  /** White space parts words: what is before it and what is after it are split on their own. */
  lemma {:induction false} SpaceParts(u: string, space: char, v: string, fold: Folding)
    requires fold.isSpace(space)
    ensures Words(u + [space] + v, fold) == Words(u, fold) + Words(v, fold)
    decreases |u|
  {
    var s := u + [space] + v;
    if u == "" {
      assert s[1..] == v;
    } else if fold.isSpace(u[0]) {
      assert s[1..] == u[1..] + [space] + v;
      SpaceParts(u[1..], space, v, fold);
    } else {
      var n := WordLength(u, fold);
      WordEndsThere(u, [space] + v, fold);
      assert s == u + ([space] + v);
      assert s[..n] == u[..n] && s[n..] == u[n..] + [space] + v;
      SpaceParts(u[n..], space, v, fold);
      assert Words(u, fold) == [u[..n]] + Words(u[n..], fold);
    }
  }

  /** A word is as long whatever follows the space after it. */
  lemma {:induction false} WordEndsThere(u: string, more: string, fold: Folding)
    requires more != "" && fold.isSpace(more[0])
    ensures WordLength(u + more, fold) == WordLength(u, fold)
    ensures u != "" && !fold.isSpace(u[0]) ==> WordLength(u, fold) > 0
  {
    if u == "" {
      assert u + more == more;
    } else {
      assert (u + more)[1..] == u[1..] + more;
      WordEndsThere(u[1..], more, fold);
    }
  }

  /** A word with an upper-case letter is matched as it is, any other without regard to case. */
  function TermOf(word: string, haystack: string, fold: Folding): Term {
    if HasUpper(word, fold) then Term(word, haystack)
    else Term(fold.lower(word), fold.lower(haystack))
  }

  function TermsOf(words: seq<string>, haystack: string, fold: Folding): (terms: seq<Term>)
    ensures |terms| == |words|
  {
    if words == [] then [] else [TermOf(words[0], haystack, fold)] + TermsOf(words[1..], haystack, fold)
  }

  predicate HasUpper(word: string, fold: Folding) {
    exists i :: 0 <= i < |word| && fold.isUpper(word[i])
  }

  /** `word` can be read in the haystack: as it is typed if it has an upper-case letter, else
      in whatever case. */
  predicate ReadIn(word: string, haystack: string, fold: Folding) {
    if HasUpper(word, fold) then Subsequence(word, haystack) else Subsequence(fold.lower(word), fold.lower(haystack))
  }

  lemma {:induction false} MissesIff(words: seq<string>, haystack: string, fold: Folding)
    ensures (exists t :: t in TermsOf(words, haystack, fold) && !Subsequence(t.needle, t.hay))
            <==> exists w :: w in words && !ReadIn(w, haystack, fold)
  {
    hide Subsequence;
    if words != [] {
      var first, rest := TermOf(words[0], haystack, fold), TermsOf(words[1..], haystack, fold);
      MissesIff(words[1..], haystack, fold);
      assert words == [words[0]] + words[1..];
      assert forall t :: t in TermsOf(words, haystack, fold) <==> t == first || t in rest;
      assert forall w :: w in words <==> w == words[0] || w in words[1..];
      assert Subsequence(first.needle, first.hay) <==> ReadIn(words[0], haystack, fold);
    }
  }

  /** Every word of the needle matched by its own case rule; an empty needle matches for 0. */
  method FuzzyIndices(needle: string, haystack: string, fold: Folding) returns (result: Option<(int, seq<nat>)>, ghost placements: seq<seq<nat>>)
    ensures result == None <==> exists w :: w in Words(needle, fold) && !ReadIn(w, haystack, fold)
    ensures result.Some? ==>
              && AllBest(TermsOf(Words(needle, fold), haystack, fold), placements)
              && result.value.0 == (if AllSpace(needle, fold) then 0
                                    else TotalOf(TermsOf(Words(needle, fold), haystack, fold), placements) - |haystack| / 16)
              && Ascending(result.value.1) && AreThoseOf(result.value.1, placements)
  {
    hide Subsequence, AllBest, TotalOf, Ascending, AreThoseOf, Words, ReadIn;
    WordsAreAll(needle, fold);
    MissesIff(Words(needle, fold), haystack, fold);
    var terms := TermsOf(Words(needle, fold), haystack, fold);
    result, placements := MatchTerms(terms, |haystack|);
  }
}
