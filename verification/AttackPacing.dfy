/** An attack paced by a ConstantPacer: the pacer's arithmetic carried through every interleaving
    to the timestamps of the results. */
module AttackPacing {
  import opened GoInt
  import opened Optional
  import opened Result
  import opened Attack
  import opened AttackRuns
  import opened AttackTraces
  import Pacer

  /** The attack's pacer is `cp`, at a rate of at most one hit per nanosecond. */
  ghost predicate Paced(c: Config, cp: Pacer.Constant) {
    && cp.Sane()
    && forall e: int, h: nat :: IsInt64(e) && IsUint64(h) ==> c.pace(e, h) == cp.Pace(e, h)
  }

  /** A timestamp is an int64 offset from `began`, so it can show no more than 292 years. */
  function Shown(due: int): int { Min(due, MAX_INT64) }

  ghost predicate Clock(c: Config, i: int, now: int, count: nat)
    requires i > 0
  {
    && now >= c.began
    && count * i <= now - c.began
    && count <= TWO_63
    && (c.du > 0 ==> count <= c.du / i + 1)
  }

  /** The dispatcher has decided on hit number `count`: it is due, and it was within bounds. */
  ghost predicate Decided(c: Config, i: int, now: int, pc: Pc, count: nat)
    requires i > 0
  {
    && (pc.Sleeping? ==> pc.wake >= c.began + (count + 1) * i)
    && (pc == Trying || pc == Spawning || pc == Blocking ==> now >= c.began + (count + 1) * i)
    && (pc.Sleeping? || pc == Trying || pc == Spawning || pc == Blocking ==>
          && count * i <= MAX_INT64
          && (c.du > 0 ==> count * i <= c.du))
  }

  /** Every timestamp taken, with or without its number, is late enough. */
  ghost predicate Stamps(c: Config, i: int, ws: seq<Phase>, atk: Atk)
    requires i > 0
  {
    && (forall k :: 0 <= k < |atk.stamps| ==>
          atk.stamps[k] >= c.began + Shown((k + 1) * i))
    && (forall w :: 0 <= w < |ws| && (ws[w].Stamped? || ws[w].Copied?) ==>
          ws[w].t >= c.began + Shown((atk.seqno + 1) * i))
  }

  ghost predicate PacingInv(c: Config, i: int, s: State)
    requires i > 0
  {
    Clock(c, i, s.now, s.count) && Decided(c, i, s.now, s.pc, s.count) && Stamps(c, i, s.ws, s.atk)
  }

  /** p stops once the hits sent fill the int64 range, and otherwise waits until the next is due. */
  ghost predicate Fits(p: Pacer.Pace, i: int, since: int, count: int) {
    if count * i > MAX_INT64 then p == Pacer.Stop
    else p.Wait? && Pacer.Slept(p.nanos) == Max(0, (count + 1) * i - Min(since, MAX_INT64))
  }

  /** The pacer's answer `since` nanoseconds into an attack that has kept to its schedule. */
  lemma {:induction false} AnswerIsExact(cp: Pacer.Constant, since: int, count: int)
    requires cp.Sane() && cp.Interval() > 0 && IsUint64(count) && since >= 0 && count * cp.Interval() <= since
    ensures Fits(cp.Pace(Min(since, MAX_INT64), count), cp.Interval(), since, count)
  {
    var i, e := cp.Interval(), Min(since, MAX_INT64);
    Pacer.IntervalBounds(cp);
    if count * i <= e {
      Pacer.OnScheduleStaysExact(cp, e, count);
    } else {
      Pacer.ExpectedHitsWereDue(cp, e);
      if count < cp.ExpectedHits(e) { MulLe(count, cp.ExpectedHits(e), i); }
      Pacer.StopsExactlyAtOverflow(cp, e, count);
    }
  }

  /** Where the dispatcher goes after asking the pacer. Past the duration it ends the attack; so it
      does once the hits sent fill the int64 range. Otherwise it sleeps until the next hit is due,
      neither less nor more, as far as an int64 can show the time elapsed. */
  function Next(c: Config, i: int, s: State): (pc: Pc) {
    var e := Min(s.now - c.began, MAX_INT64);
    if (c.du > 0 && e > c.du) || s.count * i > MAX_INT64 then Closing
    else Sleeping(s.now + Max(0, (s.count + 1) * i - e))
  }

  lemma {:induction false} PacedAnswer(c: Config, cp: Pacer.Constant, s: State)
    requires Paced(c, cp) && cp.Interval() > 0 && Clock(c, cp.Interval(), s.now, s.count)
    ensures Fits(c.pace(Elapsed(c, s), s.count), cp.Interval(), s.now - c.began, s.count)
  {
    AnswerIsExact(cp, s.now - c.began, s.count);
  }

  lemma {:induction false} CheckFollows(c: Config, i: int, s: State)
    requires Enabled(c, s, Check) && s.now >= c.began
    requires Fits(c.pace(Elapsed(c, s), s.count), i, s.now - c.began, s.count)
    ensures Apply(c, s, Check) == s.(pc := Next(c, i, s))
  {
  }

  lemma {:induction false} CheckIsExact(c: Config, cp: Pacer.Constant, s: State)
    requires Paced(c, cp) && cp.Interval() > 0 && Clock(c, cp.Interval(), s.now, s.count) && Enabled(c, s, Check)
    ensures Apply(c, s, Check) == s.(pc := Next(c, cp.Interval(), s))
  {
    PacedAnswer(c, cp, s);
    CheckFollows(c, cp.Interval(), s);
  }

  lemma {:induction false} NextPaces(c: Config, i: int, s: State)
    requires i > 0 && Clock(c, i, s.now, s.count)
    ensures Decided(c, i, s.now, Next(c, i, s), s.count)
  {
    assert (s.count + 1) * i == s.count * i + i;
  }

  /** So it does not wake before the next hit is due, and goes on only if the hits so far were
      within the duration. */
  lemma {:induction false} CheckPaces(c: Config, cp: Pacer.Constant, s: State)
    requires Paced(c, cp) && cp.Interval() > 0 && Clock(c, cp.Interval(), s.now, s.count) && Enabled(c, s, Check)
    ensures var s' := Apply(c, s, Check);
            && Clock(c, cp.Interval(), s'.now, s'.count)
            && Decided(c, cp.Interval(), s'.now, s'.pc, s'.count)
  {
    CheckIsExact(c, cp, s);
    NextPaces(c, cp.Interval(), s);
  }

  /** Sending a tick keeps the clock ahead of the schedule and the total within the duration. */
  lemma {:induction false} TickPaces(c: Config, cp: Pacer.Constant, s: State, w: nat)
    requires Paced(c, cp) && cp.Interval() > 0 && Clock(c, cp.Interval(), s.now, s.count)
    requires Decided(c, cp.Interval(), s.now, s.pc, s.count) && Enabled(c, s, SendTick(w))
    ensures var s' := Apply(c, s, SendTick(w)); Clock(c, cp.Interval(), s'.now, s'.count)
  {
    var i := cp.Interval();
    Pacer.IntervalBounds(cp);
    MulLe(1, i, s.count);
    if c.du > 0 { QuotientBound(c.du, i, s.count); }
  }

  /** The timestamp for number `seqno` is read after tick number `seqno` was sent. */
  lemma {:induction false} StampPaces(c: Config, cp: Pacer.Constant, s: State, w: nat)
    requires Paced(c, cp) && cp.Interval() > 0 && Clock(c, cp.Interval(), s.now, s.count)
    requires Conserved(s) && w < |s.ws| && s.ws[w] == Locked
    ensures c.began + Elapsed(c, s) >= c.began + Shown((s.atk.seqno + 1) * cp.Interval())
  {
    SumUpdate(s.ws, w, Idle, Unnumbered);
    Pacer.IntervalBounds(cp);
    MulLe(s.atk.seqno + 1, s.count, cp.Interval());
  }

  /** A worker's phase changes, and with it perhaps who holds the mutex. */
  lemma {:induction false} StampsMove(c: Config, i: int, ws: seq<Phase>, atk: Atk, w: nat, p: Phase, atk': Atk)
    requires i > 0 && Stamps(c, i, ws, atk) && w < |ws| && atk' == atk.(mutex := atk'.mutex)
    requires p.Stamped? || p.Copied? ==> p.t >= c.began + Shown((atk.seqno + 1) * i)
    ensures Stamps(c, i, ws[w := p], atk')
  {
  }

  /** The timestamp enters the history together with its number. */
  lemma {:induction false} StampsTaken(c: Config, i: int, ws: seq<Phase>, atk: Atk, w: nat)
    requires i > 0 && Stamps(c, i, ws, atk) && Exclusive(ws, atk) && |atk.stamps| == atk.seqno
    requires w < |ws| && ws[w].Copied?
    ensures Stamps(c, i, ws[w := Hitting(ws[w].t, ws[w].n)],
                   Atk(None, atk.seqno + 1, atk.stamps + [ws[w].t]))
  {
    assert forall v :: 0 <= v < |ws| && v != w && InCritical(ws[v]) ==> !InCritical(ws[w]);
  }

  lemma {:induction false} WorkPaces(c: Config, cp: Pacer.Constant, s: State, w: nat, op: Op)
    requires Paced(c, cp) && cp.Interval() > 0 && w < |s.ws| && CanWork(s, w, op)
    requires Clock(c, cp.Interval(), s.now, s.count) && Conserved(s) && Exclusive(s.ws, s.atk)
    requires |s.atk.stamps| == s.atk.seqno && Stamps(c, cp.Interval(), s.ws, s.atk)
    ensures var s' := ApplyWork(c, s, w, op); Stamps(c, cp.Interval(), s'.ws, s'.atk)
  {
    if op == Unlock {
      StampsTaken(c, cp.Interval(), s.ws, s.atk, w);
    } else {
      var s' := ApplyWork(c, s, w, op);
      if op == Stamp { StampPaces(c, cp, s, w); }
      assert s'.ws == s.ws[w := s'.ws[w]];
      StampsMove(c, cp.Interval(), s.ws, s.atk, w, s'.ws[w], s'.atk);
    }
  }

  lemma {:induction false} WorkKeepsPace(c: Config, cp: Pacer.Constant, s: State, a: Action)
    requires Paced(c, cp) && cp.Interval() > 0 && Inv(c, s) && PacingInv(c, cp.Interval(), s)
    requires a.Work? && Enabled(c, s, a)
    ensures PacingInv(c, cp.Interval(), Apply(c, s, a))
  {
    WorkPaces(c, cp, s, a.w, a.op);
    WorkLeavesDispatcher(c, s, a.w, a.op);
  }

  lemma {:induction false} CheckKeepsPace(c: Config, cp: Pacer.Constant, s: State, a: Action)
    requires Paced(c, cp) && cp.Interval() > 0 && PacingInv(c, cp.Interval(), s)
    requires a.Check? && Enabled(c, s, a)
    ensures PacingInv(c, cp.Interval(), Apply(c, s, a))
  {
    CheckPaces(c, cp, s);
    assert Apply(c, s, a).ws == s.ws && Apply(c, s, a).atk == s.atk;
  }

  lemma {:induction false} TickKeepsPace(c: Config, cp: Pacer.Constant, s: State, a: Action)
    requires Paced(c, cp) && cp.Interval() > 0 && PacingInv(c, cp.Interval(), s)
    requires a.SendTick? && Enabled(c, s, a)
    ensures PacingInv(c, cp.Interval(), Apply(c, s, a))
  {
    TickPaces(c, cp, s, a.w);
    if s.ticksCloses == 0 {
      StampsMove(c, cp.Interval(), s.ws, s.atk, a.w, Ticked, s.atk);
    }
  }

  /** Every action but a decision of the pacer, a tick or a worker's step. */
  lemma {:induction false} OthersKeepPace(c: Config, i: int, s: State, a: Action)
    requires i > 0 && PacingInv(c, i, s) && Enabled(c, s, a) && !a.Check? && !a.SendTick? && !a.Work?
    ensures PacingInv(c, i, Apply(c, s, a))
  {
    var s' := Apply(c, s, a);
    assert s'.count == s.count && s'.now >= s.now && s'.atk == s.atk;
    assert s'.ws == s.ws || s'.ws == s.ws + [Idle];
  }

  lemma {:induction false} PacingStep(c: Config, cp: Pacer.Constant, s: State, a: Action)
    requires Paced(c, cp) && cp.Interval() > 0 && Inv(c, s) && PacingInv(c, cp.Interval(), s)
    requires Enabled(c, s, a)
    ensures PacingInv(c, cp.Interval(), Apply(c, s, a))
  {
    if a.Check? {
      CheckKeepsPace(c, cp, s, a);
    } else if a.SendTick? {
      TickKeepsPace(c, cp, s, a);
    } else if a.Work? {
      WorkKeepsPace(c, cp, s, a);
    } else {
      OthersKeepPace(c, cp.Interval(), s, a);
    }
  }

  lemma {:induction false} RunPaces(c: Config, cp: Pacer.Constant, s: State, acts: seq<Action>, s': State)
    requires Paced(c, cp) && cp.Interval() > 0 && Inv(c, s) && PacingInv(c, cp.Interval(), s) && Reaches(c, s, acts, s')
    ensures PacingInv(c, cp.Interval(), s')
    decreases |acts|
  {
    if acts == [] {
    } else {
      PacingStep(c, cp, s, acts[0]);
      InvStep(c, s, acts[0]);
      RunPaces(c, cp, Apply(c, s, acts[0]), acts[1..], s');
    }
  }

  lemma {:induction false} InitPaces(c: Config, i: int, s: State)
    requires i > 0 && Init(c, s)
    ensures PacingInv(c, i, s)
  {
    if c.du > 0 { QuotientBound(c.du, i, 0); }
  }

  lemma {:induction false} ReachablePaces(c: Config, cp: Pacer.Constant, s: State)
    requires Paced(c, cp) && Reachable(c, s)
    ensures cp.Interval() > 0 && PacingInv(c, cp.Interval(), s)
  {
    var s0, acts :| Init(c, s0) && Reaches(c, s0, acts, s);
    InitInv(c, s0);
    Pacer.IntervalBounds(cp);
    InitPaces(c, cp.Interval(), s0);
    RunPaces(c, cp, s0, acts, s);
  }

  lemma {:induction false} ResultsAreLate(c: Config, i: int, s: State, r: Result)
    requires i > 0 && Stamps(c, i, s.ws, s.atk) && Faithful(c, s.atk.stamps, s.ws, s.delivered)
    requires r in s.delivered
    ensures r.timestamp >= c.began + Shown((r.seqno + 1) * i)
  {
    var k :| 0 <= k < |s.delivered| && s.delivered[k] == r;
    assert Genuine(c, s.atk.stamps, s.delivered[k]);
  }

  /** End-to-end pacing: in every interleaving, the result with sequence number n was started no
      earlier than its place in the schedule, began + (n+1)*(Per/Freq). */
  lemma {:induction false} NeverEarly(c: Config, cp: Pacer.Constant, s: State)
    requires Paced(c, cp) && Reachable(c, s)
    ensures forall r :: r in s.delivered ==>
              r.timestamp >= c.began + Shown((r.seqno + 1) * cp.Interval())
  {
    ReachableInv(c, s);
    ReachablePaces(c, cp, s);
    forall r | r in s.delivered ensures r.timestamp >= c.began + Shown((r.seqno + 1) * cp.Interval()) {
      ResultsAreLate(c, cp.Interval(), s, r);
    }
  }

  /** Bounded total: an attack of duration du dispatches at most du/(Per/Freq) + 1 hits, whatever
      the workers' delays and however long the dispatcher oversleeps. */
  lemma {:induction false} BoundedTotal(c: Config, cp: Pacer.Constant, s: State)
    requires Paced(c, cp) && Reachable(c, s) && c.du > 0
    ensures cp.Interval() > 0
    ensures |s.delivered| <= s.count <= c.du / cp.Interval() + 1
  {
    ReachableInv(c, s);
    ReachablePaces(c, cp, s);
  }

  lemma {:induction false} StepNeverPanics(c: Config, cp: Pacer.Constant, s: State, a: Action)
    requires Paced(c, cp) && cp.Interval() > 0 && Enabled(c, s, a)
    requires Inv(c, s) && s.now >= c.began && IsUint64(s.count)
    ensures Apply(c, s, a).panic == None
  {
    InvStep(c, s, a);
    if a == Check { Pacer.StopsExactlyAtOverflow(cp, Elapsed(c, s), s.count); }
    assert Apply(c, s, a).panic != Some(PacerFault);
  }

  lemma {:induction false} RunNeverPanics(c: Config, cp: Pacer.Constant, s: State, acts: seq<Action>, s': State)
    requires Paced(c, cp) && cp.Interval() > 0 && Inv(c, s) && PacingInv(c, cp.Interval(), s) && Reaches(c, s, acts, s')
    requires s.panic == None
    ensures s'.panic == None
    decreases |acts|
  {
    if acts == [] {
    } else {
      var s1 := Apply(c, s, acts[0]);
      PacingStep(c, cp, s, acts[0]);
      InvStep(c, s, acts[0]);
      StepNeverPanics(c, cp, s, acts[0]);
      RunNeverPanics(c, cp, s1, acts[1..], s');
    }
  }

  /** Such an attack never panics: neither in the pacer nor on a channel. */
  lemma {:induction false} NeverPanics(c: Config, cp: Pacer.Constant, s: State)
    requires Paced(c, cp) && Reachable(c, s)
    ensures s.panic == None
  {
    var s0, acts :| Init(c, s0) && Reaches(c, s0, acts, s);
    InitInv(c, s0);
    Pacer.IntervalBounds(cp);
    InitPaces(c, cp.Interval(), s0);
    RunNeverPanics(c, cp, s0, acts, s);
  }

  // ------------------------------------------------------------------ the attack goes on

  /** An attack that nobody stops does not end early: only once its duration has passed, or once the
      hits sent fill the int64 range. */
  lemma {:induction false} EndsOnlyWhenDue(c: Config, cp: Pacer.Constant, s: State)
    requires Paced(c, cp) && Reachable(c, s) && Ending(s.pc) && s.stop.closes == 0
    ensures cp.Interval() > 0
    ensures (c.du > 0 && s.now - c.began > c.du) || s.count * cp.Interval() > MAX_INT64
  {
    EndsForAReason(c, s);
    ReachablePaces(c, cp, s);
    ReachableInv(c, s);
    if PacerStopped(c, Elapsed(c, s), s.count) {
      var e: int :| 0 <= e <= Elapsed(c, s) && c.pace(e, s.count).Stop?;
      Pacer.StopsExactlyAtOverflow(cp, e, s.count);
    }
  }

  /** The dispatcher is about to ask the pacer, within the duration and the int64 range. */
  predicate WithinBounds(c: Config, s: State) {
    (c.du > 0 ==> s.now - c.began <= c.du) && s.now - c.began <= MAX_INT64
  }

  lemma {:induction false} NextWithinBounds(c: Config, i: int, s: State)
    requires i > 0 && Clock(c, i, s.now, s.count) && WithinBounds(c, s)
    ensures Next(c, i, s) == Sleeping(Max(s.now, c.began + (s.count + 1) * i))
  {
  }

  /** As long as it is within its bounds and may start a worker, an attack can send its next hit, and
      that at the very moment it is due, or at once if it is late. */
  lemma {:induction false} AttackGoesOn(c: Config, cp: Pacer.Constant, s: State) returns (s': State)
    requires Paced(c, cp) && cp.Interval() > 0 && Reachable(c, s) && c.maxWorkers > 0
    requires s.stop.closes == 0 && !Ending(s.pc)
    requires s.pc == Loop ==> WithinBounds(c, s)
    ensures Reachable(c, s') && s'.count == s.count + 1 && s'.pc == Loop && s'.stop.closes == 0
    ensures s.pc == Loop ==> s'.now == Max(s.now, c.began + (s.count + 1) * cp.Interval())
  {
    ReachableInv(c, s);
    ReachablePaces(c, cp, s);
    NeverPanics(c, cp, s);
    var s1 := s;
    if s.pc == Loop {
      CheckIsExact(c, cp, s);
      NextWithinBounds(c, cp.Interval(), s);
      s1 := Apply(c, s, Check);
      ReachableStep(c, s, Check);
      ReachableInv(c, s1);
    }
    var acts;
    acts, s' := NextTick(c, s1);
    ReachableRun(c, s1, acts, s');
  }

  lemma {:induction false} OnSchedule(du: int, i: int, k: int)
    requires i > 0 && 0 <= du && 0 <= k <= du / i
    ensures 0 <= k * i <= du
  {
    MulLe(0, k, i);
    QuotientBound(du, i, k);
  }

  /** The bound on the total is reached: an attack of duration du can send all du/(Per/Freq) + 1
      hits, each at the moment it is due. */
  lemma {:induction false} BoundIsReached(c: Config, cp: Pacer.Constant, s0: State, k: nat) returns (s: State)
    requires Paced(c, cp) && cp.Interval() > 0 && Init(c, s0) && s0.now == c.began && s0.stop.closes == 0
    requires c.maxWorkers > 0 && 0 < c.du <= MAX_INT64 && k <= c.du / cp.Interval() + 1
    ensures Reachable(c, s) && s.count == k && s.now == c.began + k * cp.Interval()
    ensures s.pc == Loop && s.stop.closes == 0
  {
    if k == 0 {
      s := s0;
      assert Reaches(c, s0, [], s0);
    } else {
      var before := BoundIsReached(c, cp, s0, k - 1);
      OnSchedule(c.du, cp.Interval(), k - 1);
      s := AttackGoesOn(c, cp, before);
      assert k * cp.Interval() == (k - 1) * cp.Interval() + cp.Interval();
    }
  }

  // ------------------------------------------------------------------ the whole attack ends

  /** Protocol steps left in an attack of duration du: those it can take without a tick, and twelve
      for every tick. */
  function Fuel(c: Config, i: int, s: State): int
    requires i > 0
  {
    Room(c, s) + 12 * (c.du / i + 1 - s.count)
  }

  /** Every protocol step burns fuel, and the environment leaves it alone. */
  lemma {:induction false} StepBurns(c: Config, i: int, s: State, a: Action)
    requires i > 0 && Enabled(c, s, a) && Apply(c, s, a).panic == None
    ensures var s' := Apply(c, s, a);
            if Environment(a) then Fuel(c, i, s') == Fuel(c, i, s) else Fuel(c, i, s') < Fuel(c, i, s)
  {
    StepUsesRoom(c, s, a);
  }

  lemma {:induction false} FuelLeft(c: Config, i: int, s: State)
    requires i > 0 && Clock(c, i, s.now, s.count) && Channels(c, s) && c.du > 0
    ensures Fuel(c, i, s) >= 0
  {
  }

  lemma {:induction false} RunBurns(c: Config, cp: Pacer.Constant, s: State, acts: seq<Action>, s': State)
    requires Paced(c, cp) && cp.Interval() > 0 && Inv(c, s) && PacingInv(c, cp.Interval(), s) && Reaches(c, s, acts, s')
    requires s.panic == None && c.du > 0
    ensures Protocol(acts) <= Fuel(c, cp.Interval(), s)
    decreases |acts|
  {
    if acts == [] {
      FuelLeft(c, cp.Interval(), s);
    } else {
      PacingStep(c, cp, s, acts[0]);
      InvStep(c, s, acts[0]);
      StepNeverPanics(c, cp, s, acts[0]);
      StepBurns(c, cp.Interval(), s, acts[0]);
      RunBurns(c, cp, Apply(c, s, acts[0]), acts[1..], s');
    }
  }

  lemma {:induction false} IdleRank(ws: seq<Phase>)
    requires forall w :: 0 <= w < |ws| ==> ws[w] == Idle
    ensures Sum(ws, Rank) == 2 * |ws|
  {
    if ws == [] {
    } else {
      IdleRank(ws[1..]);
    }
  }

  /** An attack with a duration ends by itself: however it is scheduled, and without a call of
      Stop, it takes no more protocol steps than a number fixed by its settings. */
  lemma {:induction false} AttackTerminates(c: Config, cp: Pacer.Constant, s: State, acts: seq<Action>, s': State)
    requires Paced(c, cp) && c.du > 0 && Init(c, s) && Reaches(c, s, acts, s')
    ensures cp.Interval() > 0
    ensures Protocol(acts) <= 12 * (c.du / cp.Interval() + 1) + 2 * c.maxWorkers + 8
  {
    Pacer.IntervalBounds(cp);
    InitInv(c, s);
    InitPaces(c, cp.Interval(), s);
    IdleRank(s.ws);
    RunBurns(c, cp, s, acts, s');
  }

  /** Some worker may be started, or Stop has been called. */
  predicate CanSend(c: Config, s: State) { c.maxWorkers > 0 || s.stop.closes > 0 }

  /** And it can always be brought to its end, where every tick sent has been answered once. */
  lemma {:induction false} AttackCanFinish(c: Config, cp: Pacer.Constant, s: State) returns (s': State)
    requires Paced(c, cp) && cp.Interval() > 0 && c.du > 0 && Reachable(c, s) && CanSend(c, s)
    ensures Reachable(c, s') && s'.pc == Finished && s'.resultsCloses == 1
    ensures |s'.delivered| == s'.count && Numbers(s'.delivered) == Below(s'.count)
    decreases Fuel(c, cp.Interval(), s), Asleep(s)
  {
    ReachableInv(c, s);
    ReachablePaces(c, cp, s);
    NeverPanics(c, cp, s);
    FuelLeft(c, cp.Interval(), s);
    if s.pc == Finished {
      s' := s;
      ExactlyOnce(c, s);
    } else {
      var a := Awake(s);
      if !s.pc.Sleeping? { a := Mover(c, s); }
      StepNeverPanics(c, cp, s, a);
      StepBurns(c, cp.Interval(), s, a);
      StaysSendable(c, s, a);
      ReachableStep(c, s, a);
      s' := AttackCanFinish(c, cp, Apply(c, s, a));
    }
  }

  lemma {:induction false} StaysSendable(c: Config, s: State, a: Action)
    requires Enabled(c, s, a) && CanSend(c, s)
    ensures CanSend(c, Apply(c, s, a))
  {
    if s.stop.closes > 0 { StepAfterStop(c, s, a); }
  }
}
