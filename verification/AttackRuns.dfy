/** What every run of an attack guarantees, whatever the pacer and the interleaving. */
module AttackRuns {
  import opened GoInt
  import opened Optional
  import opened Result
  import opened Attack

  // ------------------------------------------------------------------ safety

  lemma {:induction false} RunKeepsInv(c: Config, s: State, acts: seq<Action>, s': State)
    requires Inv(c, s) && Reaches(c, s, acts, s')
    ensures Inv(c, s')
    decreases |acts|
  {
    if acts == [] {
    } else {
      InvStep(c, s, acts[0]);
      RunKeepsInv(c, Apply(c, s, acts[0]), acts[1..], s');
    }
  }

  lemma {:induction false} ReachableInv(c: Config, s: State)
    requires Reachable(c, s)
    ensures Inv(c, s)
  {
    var s0, acts :| Init(c, s0) && Reaches(c, s0, acts, s);
    InitInv(c, s0);
    RunKeepsInv(c, s0, acts, s);
  }

  /** Runs follow one another. */
  lemma {:induction false} ReachesConcat(
    c: Config, s: State, acts: seq<Action>, s1: State, more: seq<Action>, s2: State)
    requires Reaches(c, s, acts, s1) && Reaches(c, s1, more, s2)
    ensures Reaches(c, s, acts + more, s2)
    decreases |acts|
  {
    if acts == [] {
      assert acts + more == more;
    } else {
      assert (acts + more)[0] == acts[0] && (acts + more)[1..] == acts[1..] + more;
      ReachesConcat(c, Apply(c, s, acts[0]), acts[1..], s1, more, s2);
    }
  }

  lemma {:induction false} ReachableRun(c: Config, s: State, acts: seq<Action>, s': State)
    requires Reachable(c, s) && Reaches(c, s, acts, s')
    ensures Reachable(c, s')
  {
    var s0, before :| Init(c, s0) && Reaches(c, s0, before, s);
    ReachesConcat(c, s0, before, s, acts, s');
  }

  lemma {:induction false} ReachableStep(c: Config, s: State, a: Action)
    requires Reachable(c, s) && Enabled(c, s, a)
    ensures Reachable(c, Apply(c, s, a))
  {
    assert [a][1..] == [];
    assert Reaches(c, Apply(c, s, a), [], Apply(c, s, a));
    ReachableRun(c, s, [a], Apply(c, s, a));
  }

  /** At every step: ticks sent = numbers taken + ticks not yet numbered, and numbers taken =
      results delivered + results not yet sent. */
  lemma {:induction false} Conservation(c: Config, s: State)
    requires Reachable(c, s)
    ensures s.count == s.atk.seqno + Sum(s.ws, Unnumbered)
    ensures s.atk.seqno == |s.delivered| + Sum(s.ws, Unsent)
    ensures s.count == |s.delivered| + Sum(s.ws, InFlight)
  {
    ReachableInv(c, s);
    InFlightSplits(s.ws);
  }

  lemma {:induction false} InFlightSplits(ws: seq<Phase>)
    ensures Sum(ws, InFlight) == Sum(ws, Unnumbered) + Sum(ws, Unsent)
  {
    if ws == [] {
    } else {
      InFlightSplits(ws[1..]);
    }
  }

  /** The hits in flight never outnumber the live workers, the wait group counts exactly the live
      workers, and no more than maxWorkers were ever started. */
  lemma {:induction false} ConcurrencyCap(c: Config, s: State)
    requires Reachable(c, s)
    ensures Sum(s.ws, InFlight) <= Sum(s.ws, Live) == s.wg <= |s.ws| == s.workers <= c.maxWorkers
  {
    ReachableInv(c, s);
    SumLe(s.ws, InFlight, Live);
    LiveAtMostAll(s.ws);
  }

  lemma {:induction false} LiveAtMostAll(ws: seq<Phase>)
    ensures Sum(ws, Live) <= |ws|
  {
    if ws == [] {
    } else {
      LiveAtMostAll(ws[1..]);
    }
  }

  ghost predicate PacerNeverFaults(c: Config) {
    forall e: int, h: nat :: c.pace(e, h).Wait? || c.pace(e, h).Stop?
  }

  lemma {:induction false} StepKeepsCalm(c: Config, s: State, a: Action)
    requires PacerNeverFaults(c) && Enabled(c, s, a) && Channels(c, Apply(c, s, a))
    ensures Apply(c, s, a).panic == None
  {
    if a == Check {
      var p := c.pace(Elapsed(c, s), s.count);
      assert p.Wait? || p.Stop?;
    }
  }

  lemma {:induction false} RunKeepsCalm(c: Config, s: State, acts: seq<Action>, s': State)
    requires PacerNeverFaults(c) && Inv(c, s) && s.panic == None && Reaches(c, s, acts, s')
    ensures s'.panic == None
    decreases |acts|
  {
    if acts == [] {
    } else {
      InvStep(c, s, acts[0]);
      StepKeepsCalm(c, s, acts[0]);
      RunKeepsCalm(c, Apply(c, s, acts[0]), acts[1..], s');
    }
  }

  /** No interleaving sends on a closed channel, closes a channel twice or makes the wait group
      negative: each of the three channels is closed at most once. */
  lemma {:induction false} ShutdownIsSafe(c: Config, s: State)
    requires Reachable(c, s)
    ensures s.ticksCloses <= 1 && s.resultsCloses <= 1 && s.stop.closes <= 1
    ensures s.panic == None || s.panic == Some(PacerFault)
    ensures PacerNeverFaults(c) ==> s.panic == None
  {
    ReachableInv(c, s);
    if PacerNeverFaults(c) {
      var s0, acts :| Init(c, s0) && Reaches(c, s0, acts, s);
      InitInv(c, s0);
      RunKeepsCalm(c, s0, acts, s);
    }
  }

  // ------------------------------------------------------------------ exactly once

  function Numbers(rs: seq<Result>): (ns: set<nat>) { set i | 0 <= i < |rs| :: rs[i].seqno }

  /** The numbers 0..n-1. */
  function Below(n: nat): (ns: set<nat>)
    ensures forall k: nat :: k in ns <==> k < n
    ensures |ns| == n
  {
    if n == 0 then {} else Below(n - 1) + {n - 1}
  }

  lemma {:induction false} NumbersSize(rs: seq<Result>)
    requires forall i, j :: 0 <= i < j < |rs| ==> rs[i].seqno != rs[j].seqno
    ensures |Numbers(rs)| == |rs|
  {
    if rs == [] {
    } else {
      var m := |rs| - 1;
      NumbersSize(rs[..m]);
      assert Numbers(rs) == Numbers(rs[..m]) + {rs[m].seqno};
    }
  }

  lemma {:induction false} SubsetOfSameSize(a: set<nat>, b: set<nat>)
    requires a <= b && |a| == |b|
    ensures a == b
  {
    assert |b - a| == |b| - |a|;
  }

  /** When results is closed, the delivered sequence numbers are exactly 0..count-1, each once. */
  lemma {:induction false} ExactlyOnce(c: Config, s: State)
    requires Reachable(c, s) && s.resultsCloses > 0
    ensures |s.delivered| == s.count
    ensures Numbers(s.delivered) == Below(s.count)
    ensures forall i, j :: 0 <= i < j < |s.delivered| ==> s.delivered[i].seqno != s.delivered[j].seqno
  {
    ReachableInv(c, s);
    SumZero(s.ws, Live);
    SumZero(s.ws, Unnumbered);
    SumZero(s.ws, Unsent);
    assert forall w :: 0 <= w < |s.ws| ==> s.ws[w] == Exited;
    NumbersSize(s.delivered);
    SubsetOfSameSize(Numbers(s.delivered), Below(s.count));
  }

  // ------------------------------------------------------------------ timestamps

  /** The ordering the critical section of hit is there for: over all delivered results, in
      whatever order they were delivered, timestamps order like sequence numbers. */
  lemma {:induction false} TimestampsFollowNumbers(c: Config, s: State)
    requires Reachable(c, s)
    ensures OneAttack(s.delivered)
  {
    ReachableInv(c, s);
  }

  // ------------------------------------------------------------------ spawning and stopping

  /** Once stopch is closed no select takes the spawn branch: only a worker whose branch was
      already taken is still started. */
  lemma {:induction false} NoSpawnAfterStop(c: Config, s: State, acts: seq<Action>, s': State)
    requires Reaches(c, s, acts, s') && s.stop.closes > 0
    ensures s'.stop.closes > 0
    ensures |s'.ws| + (if s'.pc == Spawning then 1 else 0) == |s.ws| + (if s.pc == Spawning then 1 else 0)
    decreases |acts|
  {
    if acts == [] {
    } else {
      StepAfterStop(c, s, acts[0]);
      NoSpawnAfterStop(c, Apply(c, s, acts[0]), acts[1..], s');
    }
  }

  lemma {:induction false} StepAfterStop(c: Config, s: State, a: Action)
    requires Enabled(c, s, a) && s.stop.closes > 0
    ensures var s' := Apply(c, s, a);
            && s'.stop.closes > 0
            && |s'.ws| + (if s'.pc == Spawning then 1 else 0) == |s.ws| + (if s.pc == Spawning then 1 else 0)
  {
    if a.Work? { assert |ApplyWork(c, s, a.w, a.op).ws| == |s.ws|; }
  }

  predicate Free(p: Phase) { p == Idle || p == Receiving }

  /** The dispatcher waits for a hit to finish only when no more workers may be started. */
  ghost predicate Elastic(c: Config, s: State) {
    s.pc == Blocking && |s.ws| < c.maxWorkers ==> exists w :: 0 <= w < |s.ws| && Free(s.ws[w])
  }

  lemma {:induction false} WorkKeepsElastic(c: Config, s: State, w: nat, op: Op)
    requires Channels(c, s) && Elastic(c, s) && w < |s.ws| && CanWork(s, w, op)
    ensures Elastic(c, ApplyWork(c, s, w, op))
  {
    var s' := ApplyWork(c, s, w, op);
    if s'.pc == Blocking && |s'.ws| < c.maxWorkers {
      var v :| 0 <= v < |s.ws| && Free(s.ws[v]);
      assert Free(s'.ws[v]);
    }
  }

  lemma {:induction false} StepKeepsElastic(c: Config, s: State, a: Action)
    requires Channels(c, s) && Elastic(c, s) && Enabled(c, s, a)
    ensures Elastic(c, Apply(c, s, a))
  {
    match a
    case Work(w, op) => WorkKeepsElastic(c, s, w, op);
    case Spawn => assert Free(Apply(c, s, a).ws[|s.ws|]);
    case _ =>
  }

  lemma {:induction false} RunKeepsElastic(c: Config, s: State, acts: seq<Action>, s': State)
    requires Inv(c, s) && Elastic(c, s) && Reaches(c, s, acts, s')
    ensures Elastic(c, s')
    decreases |acts|
  {
    if acts == [] {
    } else {
      InvStep(c, s, acts[0]);
      StepKeepsElastic(c, s, acts[0]);
      RunKeepsElastic(c, Apply(c, s, acts[0]), acts[1..], s');
    }
  }

  /** Slow hits do not hold up the pace: as long as the pool may grow, a dispatcher that waits to
      send a tick has a worker that is about to take it. */
  lemma {:induction false} SlowHitsDoNotBlock(c: Config, s: State)
    requires Reachable(c, s) && s.pc == Blocking && |s.ws| < c.maxWorkers
    ensures exists w :: 0 <= w < |s.ws| && Free(s.ws[w])
  {
    var s0, acts :| Init(c, s0) && Reaches(c, s0, acts, s);
    InitInv(c, s0);
    RunKeepsElastic(c, s0, acts, s);
  }

  /** p holds of the stop channel at every moment of the run. */
  ghost predicate Always(c: Config, s: State, acts: seq<Action>, p: StopCh -> bool)
    decreases |acts|
  {
    p(s.stop) &&
    (acts != [] && Enabled(c, s, acts[0]) ==> Always(c, Apply(c, s, acts[0]), acts[1..], p))
  }

  /** At most one call is between finding the channel open and closing it. */
  predicate OnePending(st: StopCh) { st.pending <= 1 }

  /** At most one call has begun and not returned. */
  predicate OneInside(st: StopCh) { st.entered + st.pending + st.leaving <= 1 }

  /** Nobody has been told true before the channel was closed, and stopOnce closed it. */
  ghost predicate StopHistory(st: StopCh) {
    (st.trues > 0 ==> st.closes > 0) && (st.once <==> st.closes > 0)
  }

  lemma {:induction false} StopStep(c: Config, s: State, a: Action)
    requires Enabled(c, s, a) && StopHistory(s.stop)
    ensures var st := Apply(c, s, a).stop;
            && StopHistory(st)
            && st.trues + st.pending >= s.stop.trues + s.stop.pending
            && (st.trues + st.pending > s.stop.trues + s.stop.pending ==>
                  s.stop.trues == 0 && st.trues == 0 && st.pending == s.stop.pending + 1)
  {
    if a.Work? { assert ApplyWork(c, s, a.w, a.op).stop == s.stop; }
  }

  /** A Stop call is told true exactly when it found the channel open, so at most one ever is if
      and only if no two calls are between that check and the close at once. */
  lemma {:induction false} AtMostOneTrueIffOnePending(c: Config, s: State, acts: seq<Action>, s': State)
    requires Reaches(c, s, acts, s') && StopHistory(s.stop)
    requires s.stop.trues + s.stop.pending <= 1
    ensures s'.stop.trues + s'.stop.pending <= 1 <==> Always(c, s, acts, OnePending)
    decreases |acts|
  {
    if acts == [] {
    } else {
      var s1 := Apply(c, s, acts[0]);
      StopStep(c, s, acts[0]);
      if s1.stop.trues + s1.stop.pending <= 1 {
        AtMostOneTrueIffOnePending(c, s1, acts[1..], s');
      } else {
        TruesNeverForgotten(c, s1, acts[1..], s');
        assert !Always(c, s1, acts[1..], OnePending);
      }
    }
  }

  lemma {:induction false} TruesNeverForgotten(c: Config, s: State, acts: seq<Action>, s': State)
    requires Reaches(c, s, acts, s') && StopHistory(s.stop)
    ensures s'.stop.trues + s'.stop.pending >= s.stop.trues + s.stop.pending
    decreases |acts|
  {
    if acts == [] {
    } else {
      StopStep(c, s, acts[0]);
      TruesNeverForgotten(c, Apply(c, s, acts[0]), acts[1..], s');
    }
  }

  /** The answers so far in a history that begins with an open channel. */
  ghost predicate Answers(st: StopCh) {
    && (st.once <==> st.closes > 0) && (st.trues > 0 <==> st.closes > 0)
    && (st.falses > 0 ==> st.closes > 0)
  }

  /** In such a history, with one call at a time, at most one answer is or will be true. */
  ghost predicate OneWinner(st: StopCh) { Answers(st) && st.trues + st.pending <= 1 }

  lemma {:induction false} OneWinnerStep(c: Config, s: State, a: Action)
    requires Enabled(c, s, a) && OneWinner(s.stop) && OneInside(Apply(c, s, a).stop)
    ensures OneWinner(Apply(c, s, a).stop)
  {
    if a.Work? { assert ApplyWork(c, s, a.w, a.op).stop == s.stop; }
  }

  /** What the doc comment promises holds for callers that take turns. If every call of Stop has
      returned before the next one begins, the calls made by workers and the dispatcher included,
      then the first one is told true and all later ones false. */
  lemma {:induction false} TakingTurnsFirstIsTold(c: Config, s: State, acts: seq<Action>, s': State)
    requires Reaches(c, s, acts, s') && OneWinner(s.stop) && Always(c, s, acts, OneInside)
    ensures s'.stop.trues <= 1
    ensures s'.stop.trues + s'.stop.falses > 0 ==> s'.stop.trues == 1
    decreases |acts|
  {
    if acts == [] {
    } else {
      OneWinnerStep(c, s, acts[0]);
      TakingTurnsFirstIsTold(c, Apply(c, s, acts[0]), acts[1..], s');
    }
  }

  /** Two racing Stop calls are both told true, against the doc comment, yet close once. */
  lemma {:induction false} TwoStopsBothTrue(c: Config, s: State)
    requires Init(c, s) && s.stop == StopCh(0, false, 0, 0, 0, 0, 0)
    ensures exists s' ::
      && Reaches(c, s, [CallStop, CallStop] + [LookStop, LookStop] + [CommitStop, CommitStop], s')
      && s'.stop == StopCh(1, true, 0, 0, 2, 2, 0) && s'.panic == None
  {
    var s1 := Twice(c, s, CallStop);
    var s2 := Twice(c, s1, LookStop);
    var s3 := Twice(c, s2, CommitStop);
    ReachesConcat(c, s, [CallStop, CallStop], s1, [LookStop, LookStop], s2);
    ReachesConcat(c, s, [CallStop, CallStop] + [LookStop, LookStop], s2, [CommitStop, CommitStop], s3);
  }

  lemma {:induction false} Twice(c: Config, s: State, a: Action) returns (s': State)
    requires Enabled(c, s, a) && Enabled(c, Apply(c, s, a), a)
    ensures s' == Apply(c, Apply(c, s, a), a) && Reaches(c, s, [a, a], s')
  {
    var s1 := Apply(c, s, a);
    s' := Apply(c, s1, a);
    assert [a, a][1..] == [a] && [a][1..] == [];
    assert Reaches(c, s', [], s');
    assert Reaches(c, s1, [a], s');
  }

  // ------------------------------------------------------------------ progress

  /** Protocol steps a worker can still take without another tick. */
  function Rank(p: Phase): nat {
    match p
    case Exited => 0
    case Receiving => 1
    case Idle => 2
    case Sending(_) => 3
    case Hitting(_, _) => 4
    case Copied(_, _) => 5
    case Stamped(_) => 6
    case Locked => 7
    case Ticked => 8
  }

  /** Protocol steps the dispatcher can still take without sending a tick. */
  function PcRank(pc: Pc): nat {
    match pc
    case Loop => 8
    case Sleeping(_) => 7
    case Trying => 6
    case Spawning => 5
    case Blocking => 4
    case Closing => 3
    case Awaiting => 2
    case Stopping => 1
    case Finished => 0
  }

  function Measure(s: State): nat { Sum(s.ws, Rank) + PcRank(s.pc) }

  lemma {:induction false} ShutdownWork(c: Config, s: State, w: nat, op: Op)
    requires w < |s.ws| && CanWork(s, w, op) && s.ticksCloses > 0
    requires ApplyWork(c, s, w, op).panic == s.panic == None
    ensures var s' := ApplyWork(c, s, w, op);
            s'.ticksCloses > 0 && Measure(s') < Measure(s)
  {
    SumUpdate(s.ws, w, ApplyWork(c, s, w, op).ws[w], Rank);
  }

  /** After ticks is closed every step of the dispatcher or a worker lowers the measure, and the
      environment leaves it alone. */
  lemma {:induction false} ShutdownStep(c: Config, s: State, a: Action)
    requires Inv(c, s) && s.ticksCloses > 0 && Enabled(c, s, a)
    ensures var s' := Apply(c, s, a);
            && s'.ticksCloses > 0 && s'.panic == None
            && (if Environment(a) then Measure(s') == Measure(s) else Measure(s') < Measure(s))
  {
    if a.Work? {
      WorkKeepsChannels(c, s, a.w, a.op);
      ShutdownWork(c, s, a.w, a.op);
    }
  }

  /** Some worker is not done: it, or the holder of the mutex, has an enabled step. */
  lemma {:induction false} LiveWorkerMoves(c: Config, s: State, w: nat) returns (a: Action)
    requires Inv(c, s) && s.panic == None && w < |s.ws| && s.ws[w] != Exited
    requires s.ticksCloses > 0 || s.ws[w] != Receiving
    ensures a.Work? && Enabled(c, s, a)
  {
    match s.ws[w]
    case Idle => a := Work(w, if s.ticksCloses > 0 then Exit else Arrive);
    case Receiving => a := Work(w, Exit);
    case Locked => a := Work(w, Stamp);
    case Stamped(_) => a := Work(w, Copy);
    case Copied(_, _) => a := Work(w, Unlock);
    case Hitting(_, _) => a := Work(w, Return(200, 0, 0, ""));
    case Sending(_) => a := Work(w, Deliver);
    case Ticked =>
      if s.atk.mutex == None {
        a := Work(w, Lock);
      } else {
        var v := s.atk.mutex.value;
        assert InCritical(s.ws[v]);
        a := Work(v, if s.ws[v] == Locked then Stamp else if s.ws[v].Stamped? then Copy else Unlock);
      }
  }

  /** Until results is closed some step stays enabled. */
  lemma {:induction false} ShutdownNeverStuck(c: Config, s: State) returns (a: Action)
    requires Inv(c, s) && s.panic == None && s.ticksCloses > 0 && s.resultsCloses == 0
    ensures !Environment(a) && Enabled(c, s, a)
  {
    SumZero(s.ws, Live);
    if s.wg == 0 {
      a := CloseResults;
    } else {
      var w :| 0 <= w < |s.ws| && Live(s.ws[w]) != 0;
      a := LiveWorkerMoves(c, s, w);
    }
  }

  function Protocol(acts: seq<Action>): nat {
    if acts == [] then 0 else (if Environment(acts[0]) then 0 else 1) + Protocol(acts[1..])
  }

  /** After ticks is closed no run, however scheduled, contains more protocol steps than the
      measure: shutdown terminates. */
  lemma {:induction false} ShutdownTerminates(c: Config, s: State, acts: seq<Action>, s': State)
    requires Inv(c, s) && s.ticksCloses > 0 && Reaches(c, s, acts, s')
    ensures Protocol(acts) + Measure(s') <= Measure(s)
    decreases |acts|
  {
    if acts == [] {
    } else {
      ShutdownStep(c, s, acts[0]);
      InvStep(c, s, acts[0]);
      ShutdownTerminates(c, Apply(c, s, acts[0]), acts[1..], s');
    }
  }

  /** A run of the shutdown that can go no further has closed results and delivered every tick. */
  lemma {:induction false} ShutdownCompletes(c: Config, s: State)
    requires Reachable(c, s) && s.panic == None && s.ticksCloses > 0
    requires forall a :: Enabled(c, s, a) ==> Environment(a)
    ensures s.resultsCloses == 1 && s.pc == Finished
    ensures |s.delivered| == s.count && Numbers(s.delivered) == Below(s.count)
  {
    ReachableInv(c, s);
    if s.resultsCloses == 0 {
      var a := ShutdownNeverStuck(c, s);
      assert false;
    }
    if s.pc == Stopping {
      assert Enabled(c, s, FinalStop);
    }
    ExactlyOnce(c, s);
  }

  /** Closing ticks fixes the number of results. */
  lemma {:induction false} ShutdownKeepsCount(c: Config, s: State, a: Action)
    requires Inv(c, s) && s.ticksCloses > 0 && Enabled(c, s, a)
    ensures Apply(c, s, a).count == s.count
  {
    if a.Work? { assert ApplyWork(c, s, a.w, a.op).count == s.count; }
  }

  /** From every moment of the shutdown there is a way to the end, where every tick that was sent
      has been answered. */
  lemma {:induction false} ShutdownCanFinish(c: Config, s: State) returns (s': State)
    requires Reachable(c, s) && s.panic == None && s.ticksCloses > 0
    ensures Reachable(c, s') && s'.pc == Finished && s'.resultsCloses == 1 && s'.count == s.count
    ensures |s'.delivered| == s.count && Numbers(s'.delivered) == Below(s.count)
    decreases Measure(s)
  {
    ReachableInv(c, s);
    if s.pc == Finished {
      s' := s;
      ExactlyOnce(c, s);
    } else {
      var a := FinalStop;
      if s.resultsCloses == 0 { a := ShutdownNeverStuck(c, s); }
      ShutdownStep(c, s, a);
      ShutdownKeepsCount(c, s, a);
      ReachableStep(c, s, a);
      s' := ShutdownCanFinish(c, Apply(c, s, a));
    }
  }

  /** How far the dispatcher is from closing ticks once Stop has been called. */
  function Stage(s: State): nat {
    match s.pc
    case Loop => 6
    case Sleeping(wake) => if s.now < wake then 5 else 4
    case Trying => 2
    case Spawning => 3
    case Blocking => 2
    case Closing => 1
    case _ => 0
  }

  /** What brings the dispatcher closer: no tick, but the stop branch of either select. */
  function Retreat(s: State): Action {
    match s.pc
    case Loop => Check
    case Sleeping(wake) => if s.now < wake then Advance(wake) else Wake
    case Spawning => Spawn
    case Closing => CloseTicks
    case _ => SeeStop
  }

  lemma {:induction false} RetreatHelps(c: Config, s: State)
    requires PacerNeverFaults(c) && Inv(c, s) && s.panic == None && s.stop.closes > 0 && s.ticksCloses == 0
    ensures Enabled(c, s, Retreat(s))
    ensures var s' := Apply(c, s, Retreat(s));
            && s'.panic == None && s'.stop.closes > 0 && s'.count == s.count
            && Stage(s') < Stage(s)
  {
    if s.pc == Loop {
      var p := c.pace(Elapsed(c, s), s.count);
      assert p.Wait? || p.Stop?;
    }
  }

  lemma {:induction false} Retreated(c: Config, s: State) returns (s1: State)
    requires PacerNeverFaults(c) && Reachable(c, s) && s.panic == None && s.stop.closes > 0 && s.ticksCloses == 0
    ensures Reachable(c, s1) && s1.panic == None && s1.stop.closes > 0 && s1.count == s.count
    ensures Stage(s1) < Stage(s)
  {
    ReachableInv(c, s);
    RetreatHelps(c, s);
    ReachableStep(c, s, Retreat(s));
    s1 := Apply(c, s, Retreat(s));
  }

  /** Stop takes effect: once it has been called the attack can always be brought to its end without
      another tick, and then every tick sent has been answered exactly once. */
  lemma {:induction false} StopCanFinish(c: Config, s: State) returns (s': State)
    requires PacerNeverFaults(c) && Reachable(c, s) && s.panic == None && s.stop.closes > 0
    ensures Reachable(c, s') && s'.pc == Finished && s'.resultsCloses == 1 && s'.count == s.count
    ensures |s'.delivered| == s.count && Numbers(s'.delivered) == Below(s.count)
    decreases Stage(s)
  {
    if s.ticksCloses > 0 {
      s' := ShutdownCanFinish(c, s);
    } else {
      var s1 := Retreated(c, s);
      s' := StopCanFinish(c, s1);
    }
  }

  /** While the attack runs, it waits for nothing but the clock, unless it may start no worker at
      all: then it blocks until Stop is called. */
  lemma {:induction false} AttackNeverStuck(c: Config, s: State)
    requires Reachable(c, s) && s.panic == None && s.pc != Finished && !s.pc.Sleeping?
    ensures (exists a :: Enabled(c, s, a) && !Environment(a)) <==>
            !(c.maxWorkers == 0 && s.pc == Blocking && s.stop.closes == 0)
  {
    ReachableInv(c, s);
    if c.maxWorkers == 0 && s.pc == Blocking && s.stop.closes == 0 {
      forall a | Enabled(c, s, a) ensures Environment(a) { }
    } else {
      var a := Mover(c, s);
      assert Enabled(c, s, a) && !Environment(a);
    }
  }

  lemma {:induction false} NothingWithoutWorkers(c: Config, s: State)
    requires s.pc == Blocking && s.ws == [] && s.stop.closes == 0 && s.ticksCloses == 0
    ensures forall a :: Enabled(c, s, a) ==> Environment(a)
  {
  }

  /** With no worker allowed the first tick blocks: every attack whose pacer lets the first hit go
      gets to a moment at which nothing but a call of Stop can bring it on. */
  lemma {:induction false} BlocksWithoutWorkers(c: Config, s0: State) returns (s: State)
    requires Init(c, s0) && s0.now == c.began && s0.stop.closes == 0
    requires c.maxWorkers == 0 && c.pace(0, 0).Wait?
    ensures Reachable(c, s) && s.panic == None && s.pc == Blocking && s.stop.closes == 0
    ensures forall a :: Enabled(c, s, a) ==> Environment(a)
  {
    assert Reaches(c, s0, [], s0);
    ReachableStep(c, s0, Check);
    var s1 := Apply(c, s0, Check);
    ReachableStep(c, s1, Advance(s1.pc.wake));
    var s2 := Apply(c, s1, Advance(s1.pc.wake));
    ReachableStep(c, s2, Wake);
    s := Apply(c, s2, Wake);
    NothingWithoutWorkers(c, s);
  }

  lemma {:induction false} BlockedMover(c: Config, s: State) returns (a: Action)
    requires Inv(c, s) && s.panic == None && s.pc == Blocking && !(c.maxWorkers == 0 && s.stop.closes == 0)
    ensures !Environment(a) && Enabled(c, s, a)
  {
    if s.stop.closes > 0 {
      a := SeeStop;
    } else if s.ws[0] == Receiving {
      a := SendTick(0);
    } else {
      a := LiveWorkerMoves(c, s, 0);
    }
  }

  lemma {:induction false} Mover(c: Config, s: State) returns (a: Action)
    requires Inv(c, s) && s.panic == None && s.pc != Finished && !s.pc.Sleeping?
    requires !(c.maxWorkers == 0 && s.pc == Blocking && s.stop.closes == 0)
    ensures !Environment(a) && Enabled(c, s, a)
  {
    match s.pc
    case Loop => a := Check;
    case Trying =>
      if s.stop.closes > 0 {
        a := SeeStop;
      } else if SomeReceiver(s) {
        var w :| 0 <= w < |s.ws| && s.ws[w] == Receiving;
        a := SendTick(w);
      } else {
        a := Default;
      }
    case Spawning => a := Spawn;
    case Blocking => a := BlockedMover(c, s);
    case Closing => a := CloseTicks;
    case Awaiting => a := ShutdownNeverStuck(c, s);
    case Stopping => a := FinalStop;
  }

  // ------------------------------------------------------------------ going on

  /** Protocol steps that can still be taken without a tick, two for every worker to be started. */
  function Room(c: Config, s: State): int { Measure(s) + 2 * (c.maxWorkers - |s.ws|) }

  lemma {:induction false} WorkRanks(c: Config, s: State, w: nat, op: Op)
    requires w < |s.ws| && CanWork(s, w, op) && ApplyWork(c, s, w, op).panic == None
    ensures var ws' := ApplyWork(c, s, w, op).ws;
            |ws'| == |s.ws| && ws' == s.ws[w := ws'[w]] && Rank(ws'[w]) < Rank(s.ws[w])
  {
  }

  lemma {:induction false} WorkUsesRoom(c: Config, s: State, a: Action)
    requires a.Work? && Enabled(c, s, a) && Apply(c, s, a).panic == None
    ensures Room(c, Apply(c, s, a)) < Room(c, s) && Apply(c, s, a).count == s.count
  {
    WorkLeavesDispatcher(c, s, a.w, a.op);
    WorkRanks(c, s, a.w, a.op);
    SumUpdate(s.ws, a.w, ApplyWork(c, s, a.w, a.op).ws[a.w], Rank);
  }

  lemma {:induction false} TickUsesRoom(c: Config, s: State, a: Action)
    requires a.SendTick? && Enabled(c, s, a) && Apply(c, s, a).panic == None
    ensures Room(c, Apply(c, s, a)) < Room(c, s) + 12 && Apply(c, s, a).count == s.count + 1
  {
    SumUpdate(s.ws, a.w, Ticked, Rank);
  }

  lemma {:induction false} SpawnUsesRoom(c: Config, s: State, a: Action)
    requires a.Spawn? && Enabled(c, s, a)
    ensures Room(c, Apply(c, s, a)) < Room(c, s) && Apply(c, s, a).count == s.count
  {
    SumAppend(s.ws, Idle, Rank);
  }

  /** A protocol step takes up room, a tick makes less than twelve steps of it, and the environment
      leaves it alone. */
  lemma {:induction false} StepUsesRoom(c: Config, s: State, a: Action)
    requires Enabled(c, s, a) && Apply(c, s, a).panic == None
    ensures var s' := Apply(c, s, a);
            && s'.count == (if a.SendTick? then s.count + 1 else s.count)
            && (if Environment(a) then Room(c, s') == Room(c, s)
                else Room(c, s') < Room(c, s) + (if a.SendTick? then 12 else 0))
  {
    if a.Work? {
      WorkUsesRoom(c, s, a);
    } else if a.SendTick? {
      TickUsesRoom(c, s, a);
    } else if a.Spawn? {
      SpawnUsesRoom(c, s, a);
    }
  }

  /** The dispatcher sleeps on. */
  predicate Asleep(s: State) { s.pc.Sleeping? && s.now < s.pc.wake }

  function Awake(s: State): Action { if Asleep(s) then Advance(s.pc.wake) else Wake }

  /** The dispatcher has decided to send a tick. */
  predicate Committed(pc: Pc) { pc.Sleeping? || pc == Trying || pc == Spawning || pc == Blocking }

  function WakesAt(s: State): int { if s.pc.Sleeping? then Max(s.now, s.pc.wake) else s.now }

  /** What brings the next tick closer: never the stop branch. */
  lemma {:induction false} TickMover(c: Config, s: State) returns (a: Action)
    requires Inv(c, s) && s.panic == None && s.stop.closes == 0 && c.maxWorkers > 0 && Committed(s.pc)
    ensures Enabled(c, s, a)
    ensures a == Awake(s) || a == Default || a == Spawn || a.SendTick? || a.Work?
    ensures s.pc.Sleeping? ==> a == Awake(s)
  {
    if s.pc.Sleeping? {
      a := Awake(s);
    } else if s.pc == Spawning {
      a := Spawn;
    } else if SomeReceiver(s) {
      var w :| 0 <= w < |s.ws| && s.ws[w] == Receiving;
      a := SendTick(w);
    } else if s.pc == Trying {
      a := Default;
    } else {
      a := LiveWorkerMoves(c, s, 0);
    }
  }

  lemma {:induction false} TickMoves(c: Config, s: State, a: Action)
    requires Inv(c, s) && s.panic == None && s.stop.closes == 0 && Committed(s.pc) && Enabled(c, s, a)
    requires a == Awake(s) || a == Default || a == Spawn || a.SendTick? || a.Work?
    requires s.pc.Sleeping? ==> a == Awake(s)
    ensures var s' := Apply(c, s, a);
            && s'.panic == None && s'.stop.closes == 0 && WakesAt(s') == WakesAt(s)
            && (if a.SendTick? then s'.pc == Loop else Committed(s'.pc))
            && (a.Advance? ==> !Asleep(s'))
  {
    if a.Work? {
      WorkLeavesDispatcher(c, s, a.w, a.op);
      WorkKeepsChannels(c, s, a.w, a.op);
    }
  }

  /** A dispatcher that has decided on a tick can send it: in some continuation the tick is sent the
      moment the dispatcher is due to wake, whatever the workers were doing. */
  lemma {:induction false} NextTick(c: Config, s: State) returns (acts: seq<Action>, s': State)
    requires Inv(c, s) && s.panic == None && s.stop.closes == 0 && c.maxWorkers > 0 && Committed(s.pc)
    ensures Reaches(c, s, acts, s') && s'.count == s.count + 1 && s'.now == WakesAt(s)
    ensures s'.pc == Loop && s'.stop.closes == 0 && s'.panic == None
    decreases Room(c, s), Asleep(s)
  {
    var a := TickMover(c, s);
    var s1 := Apply(c, s, a);
    TickMoves(c, s, a);
    StepUsesRoom(c, s, a);
    InvStep(c, s, a);
    if a.SendTick? {
      s', acts := s1, [];
    } else {
      acts, s' := NextTick(c, s1);
    }
    assert ([a] + acts)[1..] == acts;
    acts := [a] + acts;
  }
}
