/** Where what an attack shows comes from: every result from a hit, every timestamp from a reading of
    the clock, every end from a reason. */
module AttackTraces {
  import opened GoInt
  import opened Optional
  import opened Result
  import opened Attack
  import opened AttackRuns

  // ------------------------------------------------------------------ results

  /** Action a returns the hit that r reports: r has its number and timestamp, what the hit returned,
      and the time between the two readings of the clock. */
  ghost predicate Answers(c: Config, s: State, a: Action, r: Result) {
    && a.Work? && a.op.Return? && a.w < |s.ws| && s.ws[a.w].Hitting?
    && r.attack == c.name && r.seqno == s.ws[a.w].n && r.timestamp == s.ws[a.w].t
    && r.code == a.op.code && r.bytesOut == a.op.bytesOut && r.bytesIn == a.op.bytesIn && r.error == a.op.error
    && (s.now - r.timestamp <= MAX_INT64 ==> r.timestamp + r.latency == s.now)
  }

  /** Somewhere in the run r's hit returned. */
  ghost predicate Answered(c: Config, s: State, acts: seq<Action>, r: Result)
    decreases |acts|
  {
    acts != [] && Enabled(c, s, acts[0]) &&
    (Answers(c, s, acts[0], r) || Answered(c, Apply(c, s, acts[0]), acts[1..], r))
  }

  /** r has been delivered or is being sent. */
  ghost predicate Held(s: State, r: Result) {
    r in s.delivered || exists w :: 0 <= w < |s.ws| && s.ws[w] == Sending(r)
  }

  lemma {:induction false} WorkAnswers(c: Config, s: State, w: nat, op: Op, r: Result)
    requires w < |s.ws| && CanWork(s, w, op) && Held(ApplyWork(c, s, w, op), r)
    requires s.now >= c.began && Ordered(c.began, c.began + Elapsed(c, s), s.ws, s.atk)
    requires Faithful(c, s.atk.stamps, s.ws, s.delivered)
    ensures Held(s, r) || Answers(c, s, Work(w, op), r)
  {
    var s' := ApplyWork(c, s, w, op);
    if r in s'.delivered {
      if r !in s.delivered { assert s.ws[w] == Sending(r); }
    } else {
      var v :| 0 <= v < |s'.ws| && s'.ws[v] == Sending(r);
      if v != w { assert s.ws[v] == Sending(r); }
    }
  }

  lemma {:induction false} OthersMoveNothing(c: Config, s: State, a: Action)
    requires Enabled(c, s, a) && !a.Work?
    ensures var s' := Apply(c, s, a);
            && s'.delivered == s.delivered && s'.atk == s.atk
            && forall v :: 0 <= v < |s'.ws| ==>
                 s'.ws[v] == Idle || s'.ws[v] == Ticked || (v < |s.ws| && s'.ws[v] == s.ws[v])
  {
  }

  lemma {:induction false} StepAnswers(c: Config, s: State, a: Action, r: Result)
    requires Inv(c, s) && Enabled(c, s, a) && Held(Apply(c, s, a), r)
    ensures Held(s, r) || Answers(c, s, a, r)
  {
    if a.Work? {
      WorkAnswers(c, s, a.w, a.op, r);
    } else {
      OthersMoveNothing(c, s, a);
    }
  }

  lemma {:induction false} RunAnswers(c: Config, s: State, acts: seq<Action>, s': State, r: Result)
    requires Inv(c, s) && Reaches(c, s, acts, s') && Held(s', r)
    ensures Held(s, r) || Answered(c, s, acts, r)
    decreases |acts|
  {
    if acts == [] {
    } else {
      InvStep(c, s, acts[0]);
      RunAnswers(c, Apply(c, s, acts[0]), acts[1..], s', r);
      if Held(Apply(c, s, acts[0]), r) { StepAnswers(c, s, acts[0], r); }
    }
  }

  /** Every delivered result reports a hit that returned in the run: the status code, byte counts
      and error are those of the hit, and timestamp plus latency is the moment it returned. */
  lemma {:induction false} ResultsAreAnswers(c: Config, s: State, acts: seq<Action>, s': State, r: Result)
    requires Init(c, s) && Reaches(c, s, acts, s') && r in s'.delivered
    ensures Answered(c, s, acts, r)
  {
    InitInv(c, s);
    RunAnswers(c, s, acts, s', r);
  }

  // ------------------------------------------------------------------ timestamps

  /** Action a reads the clock inside the critical section, and reads t. */
  ghost predicate Takes(c: Config, s: State, a: Action, t: int) {
    && a.Work? && a.op == Stamp && s.atk.mutex == Some(a.w)
    && (s.now - c.began <= MAX_INT64 ==> t == s.now)
  }

  ghost predicate Taken(c: Config, s: State, acts: seq<Action>, t: int)
    decreases |acts|
  {
    acts != [] && Enabled(c, s, acts[0]) &&
    (Takes(c, s, acts[0], t) || Taken(c, Apply(c, s, acts[0]), acts[1..], t))
  }

  /** t has been taken, with or without its number. */
  ghost predicate Kept(s: State, t: int) {
    t in s.atk.stamps ||
    exists w :: 0 <= w < |s.ws| && (s.ws[w].Stamped? || s.ws[w].Copied?) && s.ws[w].t == t
  }

  lemma {:induction false} WorkTakes(c: Config, s: State, w: nat, op: Op, t: int)
    requires w < |s.ws| && CanWork(s, w, op) && Kept(ApplyWork(c, s, w, op), t)
    requires s.now >= c.began && Exclusive(s.ws, s.atk)
    ensures Kept(s, t) || Takes(c, s, Work(w, op), t)
  {
    var s' := ApplyWork(c, s, w, op);
    if t in s'.atk.stamps {
      if t !in s.atk.stamps { assert s.ws[w].Copied? && s.ws[w].t == t; }
    } else {
      var v :| 0 <= v < |s'.ws| && (s'.ws[v].Stamped? || s'.ws[v].Copied?) && s'.ws[v].t == t;
      if v != w { assert s.ws[v] == s'.ws[v]; }
    }
  }

  lemma {:induction false} StepTakes(c: Config, s: State, a: Action, t: int)
    requires Inv(c, s) && Enabled(c, s, a) && Kept(Apply(c, s, a), t)
    ensures Kept(s, t) || Takes(c, s, a, t)
  {
    if a.Work? {
      WorkTakes(c, s, a.w, a.op, t);
    } else {
      OthersMoveNothing(c, s, a);
    }
  }

  lemma {:induction false} RunTakes(c: Config, s: State, acts: seq<Action>, s': State, t: int)
    requires Inv(c, s) && Reaches(c, s, acts, s') && Kept(s', t)
    ensures Kept(s, t) || Taken(c, s, acts, t)
    decreases |acts|
  {
    if acts == [] {
    } else {
      InvStep(c, s, acts[0]);
      RunTakes(c, Apply(c, s, acts[0]), acts[1..], s', t);
      if Kept(Apply(c, s, acts[0]), t) { StepTakes(c, s, acts[0], t); }
    }
  }

  /** The timestamp of every delivered result is what the clock showed at some moment of the run to
      the worker that held the mutex. */
  lemma {:induction false} TimestampsAreTaken(c: Config, s: State, acts: seq<Action>, s': State, r: Result)
    requires Init(c, s) && Reaches(c, s, acts, s') && r in s'.delivered
    ensures Taken(c, s, acts, r.timestamp)
  {
    InitInv(c, s);
    RunKeepsInv(c, s, acts, s');
    var i :| 0 <= i < |s'.delivered| && s'.delivered[i] == r;
    assert Genuine(c, s'.atk.stamps, s'.delivered[i]);
    assert Kept(s', r.timestamp);
    RunTakes(c, s, acts, s', r.timestamp);
  }

  // ------------------------------------------------------------------ the pool

  /** The selects of the dispatcher, seen from outside: a tick goes to one worker that was waiting for
      it, a worker is started only when none was waiting and the attack was not stopped, and a select
      ends the attack only once it is stopped. */
  lemma {:induction false} SelectIs(c: Config, s: State, a: Action)
    requires Inv(c, s) && Enabled(c, s, a) && (s.pc == Trying || s.pc == Blocking)
    ensures var s' := Apply(c, s, a);
            && (s'.count != s.count ==>
                  s'.count == s.count + 1 && s'.pc == Loop &&
                  exists w :: 0 <= w < |s.ws| && s.ws[w] == Receiving && s'.ws == s.ws[w := Ticked])
            && (s'.pc == Spawning ==>
                  s.pc == Trying && s.stop.closes == 0 &&
                  forall w :: 0 <= w < |s.ws| ==> s.ws[w] != Receiving)
            && (s'.pc == Closing ==> s.stop.closes > 0)
  {
    if a.Work? {
      WorkLeavesDispatcher(c, s, a.w, a.op);
    } else if a.SendTick? {
      assert s.ws[a.w] == Receiving && Apply(c, s, a).ws == s.ws[a.w := Ticked];
    }
  }

  lemma {:induction false} PoolGrows(c: Config, s: State, acts: seq<Action>, s': State)
    requires Reaches(c, s, acts, s')
    ensures |s.ws| <= |s'.ws|
    decreases |acts|
  {
    if acts == [] {
    } else {
      if acts[0].Work? { WorkLeavesDispatcher(c, s, acts[0].w, acts[0].op); }
      PoolGrows(c, Apply(c, s, acts[0]), acts[1..], s');
    }
  }

  /** The pool starts with the workers asked for, as far as they are allowed, and never shrinks. */
  lemma {:induction false} PoolNeverShrinks(c: Config, s: State)
    requires Reachable(c, s)
    ensures Min(c.workers, c.maxWorkers) <= s.workers <= c.maxWorkers
  {
    var s0, acts :| Init(c, s0) && Reaches(c, s0, acts, s);
    PoolGrows(c, s0, acts, s);
    ReachableInv(c, s);
  }

  // ------------------------------------------------------------------ the end

  /** The dispatcher has left its loop. */
  predicate Ending(pc: Pc) { pc == Closing || Deferred(pc) }

  /** At some moment until now the pacer would have stopped after this many hits. */
  ghost predicate PacerStopped(c: Config, elapsed: int, count: nat) {
    exists e: int :: 0 <= e <= elapsed && c.pace(e, count).Stop?
  }

  ghost predicate Justified(c: Config, s: State) {
    Ending(s.pc) && s.stop.closes == 0 ==>
      (c.du > 0 && Elapsed(c, s) > c.du) || PacerStopped(c, Elapsed(c, s), s.count)
  }

  lemma {:induction false} CheckJustified(c: Config, s: State)
    requires Enabled(c, s, Check) && s.now >= c.began
    ensures Justified(c, Apply(c, s, Check))
  {
    var e := Elapsed(c, s);
    if c.pace(e, s.count).Stop? { assert PacerStopped(c, e, s.count); }
  }

  lemma {:induction false} StillJustified(c: Config, s: State, s': State)
    requires Justified(c, s) && s'.now >= s.now && s'.count == s.count
    requires Ending(s'.pc) ==> Ending(s.pc)
    requires s.stop.closes > 0 ==> s'.stop.closes > 0
    ensures Justified(c, s')
  {
    assert Elapsed(c, s) <= Elapsed(c, s');
  }

  lemma {:induction false} StepJustified(c: Config, s: State, a: Action)
    requires Inv(c, s) && Justified(c, s) && Enabled(c, s, a)
    ensures Justified(c, Apply(c, s, a))
  {
    var s' := Apply(c, s, a);
    if a.Check? {
      CheckJustified(c, s);
    } else if a.Work? {
      WorkLeavesDispatcher(c, s, a.w, a.op);
      StillJustified(c, s, s');
    } else if !a.SendTick? && !a.SeeStop? {
      StillJustified(c, s, s');
    }
  }

  lemma {:induction false} RunJustified(c: Config, s: State, acts: seq<Action>, s': State)
    requires Inv(c, s) && Justified(c, s) && Reaches(c, s, acts, s')
    ensures Justified(c, s')
    decreases |acts|
  {
    if acts == [] {
    } else {
      InvStep(c, s, acts[0]);
      StepJustified(c, s, acts[0]);
      RunJustified(c, Apply(c, s, acts[0]), acts[1..], s');
    }
  }

  /** With any pacer: an attack that nobody has stopped leaves its loop only because its duration has
      passed or because the pacer said so. */
  lemma {:induction false} EndsForAReason(c: Config, s: State)
    requires Reachable(c, s) && Ending(s.pc) && s.stop.closes == 0
    ensures (c.du > 0 && Elapsed(c, s) > c.du) || PacerStopped(c, Elapsed(c, s), s.count)
  {
    var s0, acts :| Init(c, s0) && Reaches(c, s0, acts, s);
    InitInv(c, s0);
    RunJustified(c, s0, acts, s);
  }

  /** The calls of Stop that have been made. */
  function Made(st: StopCh): nat { st.entered + st.pending + st.trues + st.falses }

  ghost predicate StopMade(s: State) {
    (s.pc == Finished ==> Made(s.stop) > 0) && (s.stop.trues + s.stop.falses > 0 ==> s.stop.closes > 0)
  }

  lemma {:induction false} RunMakesStop(c: Config, s: State, acts: seq<Action>, s': State)
    requires Inv(c, s) && StopMade(s) && Reaches(c, s, acts, s')
    ensures StopMade(s')
    decreases |acts|
  {
    if acts == [] {
    } else {
      InvStep(c, s, acts[0]);
      StepMakesStop(c, s, acts[0]);
      RunMakesStop(c, Apply(c, s, acts[0]), acts[1..], s');
    }
  }

  lemma {:induction false} StepMakesStop(c: Config, s: State, a: Action)
    requires Channels(c, s) && StopMade(s) && Enabled(c, s, a)
    ensures StopMade(Apply(c, s, a))
  {
    if a.Work? { WorkLeavesDispatcher(c, s, a.w, a.op); }
  }

  /** A finished attack has called Stop itself: once no call is on its way to an answer, the channel
      is closed. */
  lemma {:induction false} FinishedHasStopped(c: Config, s: State)
    requires Reachable(c, s) && s.pc == Finished
    ensures s.stop.entered == s.stop.pending == 0 ==> s.stop.closes == 1
  {
    var s0, acts :| Init(c, s0) && Reaches(c, s0, acts, s);
    InitInv(c, s0);
    RunMakesStop(c, s0, acts, s);
    ReachableInv(c, s);
  }
}
