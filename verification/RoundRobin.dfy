/** lib/results.go: merging several result streams by consulting their decoders in turn. A decoder
    is the finite sequence of results it has still to decode, followed by io.EOF for ever. */
module RoundRobin {
  import opened GoInt
  import opened Optional
  import opened Result

  type Streams = s: seq<seq<Result>> | |s| > 0 witness [[]]

  /** How far each decoder has got, and the turn counter. `asked` is an auxiliary history, the
      decoders consulted so far. */
  datatype State = State(pos: seq<nat>, turns: nat, asked: seq<nat>)

  /** A decoded result and the decoder it came from. */
  datatype Delivery = Delivery(decoder: nat, r: Result)

  datatype Called = Called(st: State, out: Option<Delivery>)

  predicate Valid(streams: Streams, st: State) {
    |st.pos| == |streams| && forall i :: 0 <= i < |streams| ==> st.pos[i] <= |streams[i]|
  }

  /** Whose turn consultation j is. */
  function Turn(streams: Streams, j: nat): (i: nat)
    ensures i < |streams|
  {
    j % |streams|
  }

  /** One consultation: the next decoder in turn decodes its next result, if it has one. */
  function TakeTurn(streams: Streams, st: State): (c: Called)
    requires Valid(streams, st)
    ensures Valid(streams, c.st)
  {
    var robin := Turn(streams, st.turns);
    var p := st.pos[robin];
    var st' := State(st.pos, st.turns + 1, st.asked + [robin]);
    if p == |streams[robin]| then Called(st', None)
    else Called(st'.(pos := st.pos[robin := p + 1]), Some(Delivery(robin, streams[robin][p])))
  }

  /** Up to k consultations, stopping at the first that decodes something. */
  function Attempts(streams: Streams, st: State, k: nat): (c: Called)
    requires Valid(streams, st)
    ensures Valid(streams, c.st)
    decreases k
  {
    if k == 0 then Called(st, None)
    else
      var c := TakeTurn(streams, st);
      if c.out.Some? then c else Attempts(streams, c.st, k - 1)
  }

  /** One call of the merged decoder. */
  function Call(streams: Streams, st: State): (c: Called)
    requires Valid(streams, st)
    ensures Valid(streams, c.st)
  {
    Attempts(streams, st, |streams|)
  }

  // ------------------------------------------------------------------ when a call fails

  predicate Exhausted(streams: Streams, st: State)
    requires Valid(streams, st)
  {
    forall i :: 0 <= i < |streams| ==> st.pos[i] == |streams[i]|
  }

  lemma {:induction false} AttemptsFailing(streams: Streams, st: State, k: nat)
    requires Valid(streams, st)
    ensures var c := Attempts(streams, st, k);
            && (c.out == None ==> c.st.pos == st.pos && c.st.turns == st.turns + k)
            && (c.out == None <==> forall j: nat :: st.turns <= j < st.turns + k ==>
                  st.pos[Turn(streams, j)] == |streams[Turn(streams, j)]|)
    decreases k
  {
    if k == 0 {
    } else {
      var robin := Turn(streams, st.turns);
      if st.pos[robin] == |streams[robin]| {
        AttemptsFailing(streams, TakeTurn(streams, st).st, k - 1);
      }
    }
  }

  /** Any |streams| turns in a row reach every decoder. */
  lemma {:induction false} EveryDecoderHasATurn(streams: Streams, from: nat, i: nat) returns (j: nat)
    requires i < |streams|
    ensures from <= j < from + |streams| && Turn(streams, j) == i
  {
    var n := |streams|;
    var q, r := from / n, from % n;
    assert from == q * n + r;
    if r <= i {
      j := q * n + i;
      Remainder(q, n, i);
    } else {
      j := (q + 1) * n + i;
      assert j == q * n + n + i;
      Remainder(q + 1, n, i);
    }
  }

  lemma {:induction false} Remainder(q: nat, n: nat, i: nat)
    requires i < n
    ensures (q * n + i) % n == i && (q * n + i) / n == q
  {
    var m := q * n + i;
    QuotientBound(m, n, q);
    QuotientBound(m, n, q + 1);
    assert (q + 1) * n == q * n + n;
    assert m / n == q;
    assert m == (m / n) * n + m % n;
  }

  /** An error comes only after a full pass in which every decoder was exhausted; as long as one
      of them has something left, a call succeeds. */
  lemma {:induction false} FailsIffExhausted(streams: Streams, st: State)
    requires Valid(streams, st)
    ensures Call(streams, st).out == None <==> Exhausted(streams, st)
    ensures Call(streams, st).out == None ==> Call(streams, st).st.pos == st.pos
  {
    AttemptsFailing(streams, st, |streams|);
    if Call(streams, st).out == None {
      forall i | 0 <= i < |streams| ensures st.pos[i] == |streams[i]| {
        var j := EveryDecoderHasATurn(streams, st.turns, i);
      }
    }
  }

  // ------------------------------------------------------------------ whole runs

  /** m calls in a row: the final state and what was delivered. */
  datatype Run = Run(st: State, out: seq<Delivery>)

  function Start(streams: Streams): (st: State)
    ensures Valid(streams, st)
  {
    State(seq(|streams|, i => 0), 0, [])
  }

  function Calls(streams: Streams, m: nat): (r: Run)
    ensures Valid(streams, r.st)
  {
    if m == 0 then Run(Start(streams), []) else Next(streams, Calls(streams, m - 1))
  }

  function Appended(out: seq<Delivery>, d: Option<Delivery>): seq<Delivery> {
    if d == None then out else out + [d.value]
  }

  function Next(streams: Streams, r: Run): (r': Run)
    requires Valid(streams, r.st)
    ensures Valid(streams, r'.st)
  {
    var c := Call(streams, r.st);
    Run(c.st, Appended(r.out, c.out))
  }

  /** The deliveries of decoder i, in order. */
  function From(out: seq<Delivery>, i: nat): seq<Result> {
    if out == [] then []
    else From(out[..|out| - 1], i) +
         (if out[|out| - 1].decoder == i then [out[|out| - 1].r] else [])
  }

  function Left(streams: seq<seq<Result>>, pos: seq<nat>): (n: nat)
    requires |pos| == |streams| && forall i :: 0 <= i < |streams| ==> pos[i] <= |streams[i]|
  {
    if streams == [] then 0 else |streams[0]| - pos[0] + Left(streams[1..], pos[1..])
  }

  lemma {:induction false} LeftUpdate(streams: seq<seq<Result>>, pos: seq<nat>, i: nat)
    requires |pos| == |streams| && forall i :: 0 <= i < |streams| ==> pos[i] <= |streams[i]|
    requires i < |streams| && pos[i] < |streams[i]|
    ensures Left(streams, pos[i := pos[i] + 1]) == Left(streams, pos) - 1
  {
    if i == 0 {
      assert pos[0 := pos[0] + 1][1..] == pos[1..];
    } else {
      assert pos[i := pos[i] + 1][1..] == pos[1..][i - 1 := pos[i] + 1];
      LeftUpdate(streams[1..], pos[1..], i - 1);
    }
  }

  lemma {:induction false} LeftZero(streams: seq<seq<Result>>, pos: seq<nat>)
    requires |pos| == |streams| && forall i :: 0 <= i < |streams| ==> pos[i] <= |streams[i]|
    ensures Left(streams, pos) == 0 <==> forall i :: 0 <= i < |streams| ==> pos[i] == |streams[i]|
  {
    if streams == [] {
    } else {
      LeftZero(streams[1..], pos[1..]);
      assert forall i :: 1 <= i < |streams| ==> streams[i] == streams[1..][i - 1] && pos[i] == pos[1..][i - 1];
    }
  }

  /** A successful call takes the next result of one decoder and moves that decoder alone. */
  lemma {:induction false} AttemptsTakeNext(streams: Streams, st: State, k: nat)
    requires Valid(streams, st)
    ensures var c := Attempts(streams, st, k);
            c.out.Some? ==>
              var i := c.out.value.decoder;
              && i < |streams| && st.pos[i] < |streams[i]|
              && c.out.value.r == streams[i][st.pos[i]]
              && c.st.pos == st.pos[i := st.pos[i] + 1]
    decreases k
  {
    if k == 0 {
    } else {
      var robin := Turn(streams, st.turns);
      if st.pos[robin] == |streams[robin]| {
        AttemptsTakeNext(streams, TakeTurn(streams, st).st, k - 1);
      }
    }
  }

  /** The number of results in all streams. */
  function Total(streams: Streams): nat { Left(streams, Start(streams).pos) }

  /** What was delivered is an interleaving of what the decoders have decoded so far. */
  ghost predicate Interleaves(streams: Streams, r: Run)
    requires Valid(streams, r.st)
  {
    && (forall i :: 0 <= i < |streams| ==> From(r.out, i) == streams[i][..r.st.pos[i]])
    && (forall k :: 0 <= k < |r.out| ==> r.out[k].decoder < |streams|)
    && |r.out| + Left(streams, r.st.pos) == Total(streams)
  }

  lemma {:induction false} FromSnoc(out: seq<Delivery>, d: Delivery, i: nat)
    ensures From(out + [d], i) == From(out, i) + (if d.decoder == i then [d.r] else [])
  {
    assert (out + [d])[..|out|] == out;
  }

  lemma {:induction false} PrefixGrows(streams: Streams, pos: seq<nat>, out: seq<Delivery>, d: Delivery, j: nat)
    requires j < |streams| == |pos| && pos[j] <= |streams[j]| && From(out, j) == streams[j][..pos[j]]
    requires d.decoder == j ==> pos[j] < |streams[j]| && d.r == streams[j][pos[j]]
    ensures From(out + [d], j) == streams[j][..if d.decoder == j then pos[j] + 1 else pos[j]]
  {
    FromSnoc(out, d, j);
  }

  lemma {:induction false} DeliveryInterleaves(streams: Streams, r: Run, st: State, d: Delivery)
    requires Valid(streams, r.st) && Valid(streams, st) && Interleaves(streams, r)
    requires d.decoder < |streams| && r.st.pos[d.decoder] < |streams[d.decoder]|
    requires d.r == streams[d.decoder][r.st.pos[d.decoder]]
    requires st.pos == r.st.pos[d.decoder := r.st.pos[d.decoder] + 1]
    ensures Interleaves(streams, Run(st, r.out + [d]))
  {
    LeftUpdate(streams, r.st.pos, d.decoder);
    forall j | 0 <= j < |streams| ensures From(r.out + [d], j) == streams[j][..st.pos[j]] {
      PrefixGrows(streams, r.st.pos, r.out, d, j);
    }
  }

  lemma {:induction false} StartInterleaves(streams: Streams)
    ensures Interleaves(streams, Run(Start(streams), []))
  {
  }

  /** r is what m calls should have made of the streams. */
  ghost predicate Merged(streams: Streams, r: Run, m: nat) {
    Valid(streams, r.st) && Interleaves(streams, r) && |r.out| == Min(m, Total(streams))
  }

  /** One more call, successful or not. */
  lemma {:induction false} NextMerges(streams: Streams, r: Run, m: nat)
    requires Merged(streams, r, m)
    ensures Merged(streams, Next(streams, r), m + 1)
  {
    FailsIffExhausted(streams, r.st);
    LeftZero(streams, r.st.pos);
    var c := Call(streams, r.st);
    if c.out.Some? {
      AttemptsTakeNext(streams, r.st, |streams|);
      DeliveryInterleaves(streams, r, c.st, c.out.value);
    }
  }

  lemma {:induction false} CallsMerge(streams: Streams, m: nat)
    ensures Merged(streams, Calls(streams, m), m)
  {
    if m == 0 {
      StartInterleaves(streams);
    } else {
      CallsMerge(streams, m - 1);
      NextMerges(streams, Calls(streams, m - 1), m - 1);
    }
  }

  /** Merging loses nothing and repeats nothing: after any number of calls the deliveries are an
      interleaving of the streams' first results, each once and in its stream's order; the first
      Total calls succeed and every later one fails. */
  lemma {:induction false} MergeLosesNothing(streams: Streams, m: nat)
    ensures Interleaves(streams, Calls(streams, m))
    ensures |Calls(streams, m).out| == Min(m, Total(streams))
  {
    CallsMerge(streams, m);
  }

  /** Read to the end, every stream has been delivered completely. */
  lemma {:induction false} MergeDeliversAll(streams: Streams, m: nat)
    requires m >= Total(streams)
    ensures forall i :: 0 <= i < |streams| ==> From(Calls(streams, m).out, i) == streams[i]
    ensures |Calls(streams, m).out| == Total(streams)
  {
    MergeLosesNothing(streams, m);
    var r := Calls(streams, m);
    LeftZero(streams, r.st.pos);
    forall i | 0 <= i < |streams| ensures From(r.out, i) == streams[i] {
      assert streams[i][..r.st.pos[i]] == streams[i];
    }
  }

  // ------------------------------------------------------------------ the order of the merge

  /** How often decoder i has been asked in the first `turns` turns. */
  function Rounds(n: nat, turns: nat, i: nat): nat
    requires n > 0
  {
    turns / n + (if i < turns % n then 1 else 0)
  }

  /** What turn j delivers: it asks decoder j % n for its result j / n. */
  function ForTurn(streams: Streams, j: nat): (d: Option<Delivery>) {
    var i, k := j % |streams|, j / |streams|;
    if k < |streams[i]| then Some(Delivery(i, streams[i][k])) else None
  }

  /** What the first `turns` turns deliver. */
  function InTurn(streams: Streams, turns: nat): (out: seq<Delivery>) {
    if turns == 0 then [] else Appended(InTurn(streams, turns - 1), ForTurn(streams, turns - 1))
  }

  ghost predicate AskedInTurn(streams: Streams, asked: seq<nat>) {
    forall j :: 0 <= j < |asked| ==> asked[j] == j % |streams|
  }

  ghost predicate Advanced(streams: Streams, pos: seq<nat>, turns: nat)
    requires |pos| == |streams|
  {
    forall i :: 0 <= i < |streams| ==> pos[i] == Min(|streams[i]|, Rounds(|streams|, turns, i))
  }

  /** The decoders were asked in turn, and delivered accordingly. */
  ghost predicate Ordered(streams: Streams, st: State, out: seq<Delivery>)
    requires Valid(streams, st)
  {
    && st.turns == |st.asked| && AskedInTurn(streams, st.asked) && Advanced(streams, st.pos, st.turns)
    && out == InTurn(streams, st.turns)
  }

  lemma {:induction false} RoundsStep(n: nat, turns: nat, i: nat)
    requires i < n
    ensures Rounds(n, turns + 1, i) == Rounds(n, turns, i) + (if i == turns % n then 1 else 0)
    ensures i == turns % n ==> Rounds(n, turns, i) == turns / n
  {
    Successor(turns, n);
  }

  /** The next turn gets what is there for it. */
  lemma {:induction false} TurnDelivers(streams: Streams, st: State)
    requires Valid(streams, st) && Advanced(streams, st.pos, st.turns)
    ensures TakeTurn(streams, st).out == ForTurn(streams, st.turns)
    ensures Advanced(streams, TakeTurn(streams, st).st.pos, st.turns + 1)
  {
    var pos' := TakeTurn(streams, st).st.pos;
    RoundsStep(|streams|, st.turns, Turn(streams, st.turns));
    forall i | 0 <= i < |streams|
      ensures pos'[i] == Min(|streams[i]|, Rounds(|streams|, st.turns + 1, i))
    {
      RoundsStep(|streams|, st.turns, i);
    }
  }

  lemma {:induction false} AskedGrows(streams: Streams, asked: seq<nat>)
    requires AskedInTurn(streams, asked)
    ensures AskedInTurn(streams, asked + [|asked| % |streams|])
  {
  }

  lemma {:induction false} TurnKeepsOrder(streams: Streams, st: State, out: seq<Delivery>)
    requires Valid(streams, st) && Ordered(streams, st, out)
    ensures var c := TakeTurn(streams, st); Ordered(streams, c.st, Appended(out, c.out))
  {
    TurnDelivers(streams, st);
    AskedGrows(streams, st.asked);
  }

  lemma {:induction false} AttemptsKeepOrder(streams: Streams, st: State, out: seq<Delivery>, k: nat)
    requires Valid(streams, st) && Ordered(streams, st, out)
    ensures var c := Attempts(streams, st, k); Ordered(streams, c.st, Appended(out, c.out))
    decreases k
  {
    if k == 0 {
    } else {
      var c := TakeTurn(streams, st);
      TurnKeepsOrder(streams, st, out);
      if c.out == None { AttemptsKeepOrder(streams, c.st, out, k - 1); }
    }
  }

  lemma {:induction false} StartOrdered(streams: Streams)
    ensures Ordered(streams, Start(streams), [])
  {
    Remainder(0, |streams|, 0);
  }

  /** The merge is taken in turn: in every run consultation j asks decoder j % n, and the deliveries
      are exactly what the decoders have for their turns, in that order. */
  lemma {:induction false} MergesInTurn(streams: Streams, m: nat)
    ensures var r := Calls(streams, m);
            && AskedInTurn(streams, r.st.asked) && r.out == InTurn(streams, |r.st.asked|)
            && Ordered(streams, r.st, r.out)
  {
    if m == 0 {
      StartOrdered(streams);
    } else {
      MergesInTurn(streams, m - 1);
      var r := Calls(streams, m - 1);
      AttemptsKeepOrder(streams, r.st, r.out, |streams|);
      assert Calls(streams, m) == Next(streams, r);
    }
  }

  lemma {:induction false} FullTurns(streams: Streams, m: nat, k: nat)
    requires k < m && forall j: nat :: j < m ==> ForTurn(streams, j).Some?
    ensures |InTurn(streams, m)| == m && InTurn(streams, m)[k] == ForTurn(streams, k).value
  {
    if m == 1 {
      assert InTurn(streams, 0) == [];
    } else {
      FullTurns(streams, m - 1, if k < m - 1 then k else 0);
    }
  }

  lemma {:induction false} OneTurnPerCall(streams: Streams, m: nat)
    requires forall j: nat :: j < m ==> ForTurn(streams, j).Some?
    ensures |Calls(streams, m).st.asked| == m
  {
    if m == 0 {
    } else {
      OneTurnPerCall(streams, m - 1);
      MergesInTurn(streams, m - 1);
      FirstAttemptSucceeds(streams, Calls(streams, m - 1));
    }
  }

  lemma {:induction false} FirstAttemptSucceeds(streams: Streams, r: Run)
    requires Valid(streams, r.st) && Ordered(streams, r.st, r.out) && ForTurn(streams, |r.st.asked|).Some?
    ensures |Next(streams, r).st.asked| == |r.st.asked| + 1
  {
    TurnDelivers(streams, r.st);
    assert Call(streams, r.st) == TakeTurn(streams, r.st);
  }

  /** Decoder j % n has a result for turn j. */
  ghost predicate HasTurn(streams: Streams, j: nat) { j / |streams| < |streams[j % |streams|]| }

  /** As long as no decoder asked so far was exhausted, delivery k is result k / n of decoder k % n. */
  lemma {:induction false} AlternatesWhileNoneIsExhausted(streams: Streams, m: nat, k: nat)
    requires k < m && forall j: nat :: j < m ==> HasTurn(streams, j)
    ensures |Calls(streams, m).out| == m && HasTurn(streams, k)
    ensures Calls(streams, m).out[k] == Delivery(k % |streams|, streams[k % |streams|][k / |streams|])
  {
    forall j: nat | j < m ensures ForTurn(streams, j).Some? { assert HasTurn(streams, j); }
    OneTurnPerCall(streams, m);
    MergesInTurn(streams, m);
    FullTurns(streams, m, k);
  }

  lemma {:induction false} Successor(m: nat, n: nat)
    requires n > 0
    ensures if m % n == n - 1 then (m + 1) / n == m / n + 1 && (m + 1) % n == 0
            else (m + 1) / n == m / n && (m + 1) % n == m % n + 1
  {
    var q, r := m / n, m % n;
    assert m == q * n + r;
    if r == n - 1 {
      assert m + 1 == (q + 1) * n + 0;
      Remainder(q + 1, n, 0);
    } else {
      Remainder(q, n, r + 1);
    }
  }

  lemma {:induction false} AskedRounds(asked: seq<nat>, n: nat, i: nat)
    requires i < n && forall j :: 0 <= j < |asked| ==> asked[j] == j % n
    ensures multiset(asked)[i] == Rounds(n, |asked|, i)
  {
    if asked == [] {
      Remainder(0, n, 0);
    } else {
      var init, last := asked[..|asked| - 1], asked[|asked| - 1];
      assert asked == init + [last];
      AskedRounds(init, n, i);
      RoundsStep(n, |init|, i);
    }
  }

  /** In every run the numbers of times any two decoders were asked differ by at most one. */
  lemma {:induction false} ConsultsAreFair(streams: Streams, m: nat, i: nat, j: nat)
    requires i < |streams| && j < |streams|
    ensures var asked := Calls(streams, m).st.asked;
            multiset(asked)[i] <= multiset(asked)[j] + 1
  {
    MergesInTurn(streams, m);
    AskedRounds(Calls(streams, m).st.asked, |streams|, i);
    AskedRounds(Calls(streams, m).st.asked, |streams|, j);
  }

  // ------------------------------------------------------------------ the closure

  lemma {:induction false} SingleDecoder(streams: Streams, st: State)
    requires Valid(streams, st) && |streams| == 1
    ensures Turn(streams, st.turns) == 0
    ensures Call(streams, st) == TakeTurn(streams, st)
  {
    var c := TakeTurn(streams, st);
    assert Attempts(streams, c.st, 0) == Called(c.st, None);
  }

  /** The decoder NewRoundRobinDecoder returns, with the cursors of the decoders it was given. */
  class Decoder {
    const streams: Streams
    var pos: seq<nat>
    var turns: nat
    ghost var asked: seq<nat>

    ghost function St(): State reads this { State(pos, turns, asked) }

    constructor (streams: Streams)
      ensures this.streams == streams && St() == Start(streams)
    {
      this.streams := streams;
      pos, turns, asked := seq(|streams|, i => 0), 0, [];
    }

    /** Asks decoder i for its next result. */
    method Consult(i: nat) returns (out: Option<Delivery>)
      requires Valid(streams, St()) && i < |streams|
      modifies this`pos, this`asked
      ensures Valid(streams, St()) && asked == old(asked) + [i]
      ensures if old(pos)[i] < |streams[i]|
              then out == Some(Delivery(i, streams[i][old(pos)[i]])) && pos == old(pos)[i := old(pos)[i] + 1]
              else out == None && pos == old(pos)
    {
      asked := asked + [i];
      if pos[i] == |streams[i]| {
        return None;
      }
      out := Some(Delivery(i, streams[i][pos[i]]));
      pos := pos[i := pos[i] + 1];
    }

    /** Asks the next decoder in turn. */
    method AskNext() returns (out: Option<Delivery>)
      requires Valid(streams, St())
      modifies this
      ensures Valid(streams, St()) && Called(St(), out) == TakeTurn(streams, old(St()))
    {
      var robin := Turn(streams, turns);
      turns := turns + 1;
      out := Consult(robin);
    }

    /** A single decoder is called directly and its turns are not counted. */
    method Decode() returns (out: Option<Delivery>)
      requires Valid(streams, St())
      modifies this
      ensures Valid(streams, St())
      ensures var c := Call(streams, old(St())); out == c.out && pos == c.st.pos && asked == c.st.asked
      ensures |streams| > 1 ==> St() == Call(streams, old(St())).st
    {
      if |streams| == 1 {
        SingleDecoder(streams, St());
        out := Consult(0);
        return;
      }
      ghost var whole := Call(streams, St());
      for k := 0 to |streams|
        invariant Valid(streams, St())
        invariant whole == Attempts(streams, St(), |streams| - k)
      {
        out := AskNext();
        if out.Some? {
          return;
        }
      }
      out := None;
    }
  }
}
