/** lib/attack.go: the attack protocol as a state machine. One dispatcher paces ticks over an
    unbuffered channel to a pool of workers; a worker that holds a tick takes a timestamp and a
    sequence number under a mutex, performs the hit and sends the result. Every goroutine step,
    every Stop call and every advance of the clock is one action, and a run is any interleaving. */
module Attack {
  import opened GoInt
  import opened Optional
  import opened Result
  import Pacer

  // ------------------------------------------------------------------ state

  /** `workers`, `maxWorkers`, `du`: the caller's settings. `pace` is the pacer's Pace method. */
  datatype Config = Config(
    name: string, began: int, workers: nat, maxWorkers: nat, du: int,
    pace: (int, nat) -> Pacer.Pace)

  /** Where a worker stands. Locked, Stamped and Copied are inside the critical section of hit. */
  datatype Phase =
    | Idle                        // about to receive from ticks
    | Receiving                   // blocked in the receive
    | Ticked                      // has a tick, wants seqmu
    | Locked
    | Stamped(t: int)             // res.Timestamp is set
    | Copied(t: int, n: nat)      // res.Seq is set, atk.seq not yet incremented
    | Hitting(t: int, n: nat)     // outside the critical section, request in flight
    | Sending(r: Result)          // blocked sending on results
    | Exited

  /** Where the dispatcher stands. */
  datatype Pc =
    | Loop                        // top of the loop
    | Sleeping(wake: int)
    | Trying                      // the select with a default branch
    | Spawning                    // in that default branch
    | Blocking                    // the select without default
    | Closing                     // deferred: close(ticks)
    | Awaiting                    // deferred: wg.Wait, then close(results)
    | Stopping                    // deferred: a.Stop
    | Finished

  datatype Panic = SendOnClosed | CloseOfClosed | NegativeWaitGroup | PacerFault

  /** The attack struct: who holds seqmu, and the next sequence number. `stamps` is an auxiliary
      history, the timestamp taken with each sequence number. */
  datatype Atk = Atk(mutex: Option<nat>, seqno: nat, stamps: seq<int>)

  /** The stop channel: how often it was closed and whether stopOnce has fired. A call of Stop,
      whoever makes it, is `entered` before its select, `pending` once that has found the channel
      open, and `leaving` from its answer until it has returned. `trues` and `falses` count the
      answers. */
  datatype StopCh = StopCh(
    closes: nat, once: bool, entered: nat, pending: nat, leaving: nat, trues: nat, falses: nat)

  datatype State = State(
    now: int, pc: Pc, count: nat, workers: nat, wg: int, ws: seq<Phase>, atk: Atk,
    delivered: seq<Result>, ticksCloses: nat, resultsCloses: nat, stop: StopCh,
    panic: Option<Panic>)

  ghost predicate Init(c: Config, s: State) {
    && s.now >= c.began && s.pc == Loop && s.count == 0
    && s.workers == |s.ws| == (if c.workers > c.maxWorkers then c.maxWorkers else c.workers)
    && (forall w :: 0 <= w < |s.ws| ==> s.ws[w] == Idle)
    && s.wg == |s.ws| && s.atk == Atk(None, 0, []) && s.delivered == []
    && s.ticksCloses == 0 && s.resultsCloses == 0
    && s.stop.closes <= 1 && (s.stop.once <==> s.stop.closes == 1)
    && s.stop.trues == s.stop.falses == 0
    && s.panic == None
  }

  // ------------------------------------------------------------------ steps

  datatype Action =
    // the environment
    | Advance(t: int) | CallStop | LookStop | CommitStop | LeaveStop
    // the dispatcher
    | Check | Wake | SendTick(w: nat) | SeeStop | Default | Spawn
    | CloseTicks | CloseResults | FinalStop
    // worker w
    | Work(w: nat, op: Op)

  /** The steps of one worker: the loop over ticks, the critical section, the hit, the send. */
  datatype Op =
    | Arrive | Exit | Lock | Stamp | Copy | Unlock
    | Return(code: nat, bytesOut: nat, bytesIn: nat, error: string) | Deliver

  /** The clock and the calls of Stop: those of the user, and those made inside a hit. */
  predicate Environment(a: Action) {
    a.Advance? || a.CallStop? || a.LookStop? || a.CommitStop? || a.LeaveStop?
  }

  function Elapsed(c: Config, s: State): int { Sub(s.now, c.began) }

  predicate SomeReceiver(s: State) {
    exists w :: 0 <= w < |s.ws| && s.ws[w] == Receiving
  }

  predicate Enabled(c: Config, s: State, a: Action) {
    s.panic == None &&
    match a
    case Advance(t) => t >= s.now
    case CallStop => true
    case LookStop => s.stop.entered > 0
    case CommitStop => s.stop.pending > 0
    case LeaveStop => s.stop.leaving > 0
    case Check => s.pc == Loop
    case Wake => s.pc.Sleeping? && s.now >= s.pc.wake
    case SendTick(w) =>
      (s.pc == Trying || s.pc == Blocking) &&
      (s.ticksCloses > 0 || (w < |s.ws| && s.ws[w] == Receiving))
    case SeeStop => (s.pc == Trying || s.pc == Blocking) && s.stop.closes > 0
    case Default => s.pc == Trying && !SomeReceiver(s) && s.ticksCloses == 0 && s.stop.closes == 0
    case Spawn => s.pc == Spawning
    case CloseTicks => s.pc == Closing
    case CloseResults => s.pc == Awaiting && s.wg == 0
    case FinalStop => s.pc == Stopping
    case Work(w, op) => w < |s.ws| && CanWork(s, w, op)
  }

  predicate CanWork(s: State, w: nat, op: Op)
    requires w < |s.ws|
  {
    match op
    case Arrive => s.ws[w] == Idle && s.ticksCloses == 0
    case Exit => (s.ws[w] == Idle || s.ws[w] == Receiving) && s.ticksCloses > 0
    case Lock => s.ws[w] == Ticked && s.atk.mutex == None
    case Stamp => s.ws[w] == Locked
    case Copy => s.ws[w].Stamped?
    case Unlock => s.ws[w].Copied?
    case Return(_, _, _, _) => s.ws[w].Hitting?
    case Deliver => s.ws[w].Sending?
  }

  function Entered(st: StopCh): StopCh { st.(entered := st.entered + 1) }

  /** The select of Stop: the answer is false if the channel is already closed. */
  function Looked(st: StopCh): StopCh
    requires st.entered > 0
  {
    var st' := st.(entered := st.entered - 1);
    if st.closes > 0 then st'.(leaving := st.leaving + 1, falses := st.falses + 1)
    else st'.(pending := st.pending + 1)
  }

  /** Past the close, whether this call or another one has made it. */
  function Committed(st: StopCh): StopCh
    requires st.pending > 0
  {
    st.(once := true, pending := st.pending - 1, leaving := st.leaving + 1, trues := st.trues + 1)
  }

  function Apply(c: Config, s: State, a: Action): State
    requires Enabled(c, s, a)
  {
    match a
    case Advance(t) => s.(now := t)
    case CallStop => s.(stop := Entered(s.stop))
    case LookStop => s.(stop := Looked(s.stop))
    case CommitStop =>
      if s.stop.once then s.(stop := Committed(s.stop))
      else if s.stop.closes > 0 then s.(panic := Some(CloseOfClosed))
      else s.(stop := Committed(s.stop).(closes := 1))
    case LeaveStop => s.(stop := s.stop.(leaving := s.stop.leaving - 1))
    case Check =>
      var elapsed := Elapsed(c, s);
      if c.du > 0 && elapsed > c.du then s.(pc := Closing)
      else (match c.pace(elapsed, s.count)
            case Stop => s.(pc := Closing)
            case Wait(d) => s.(pc := Sleeping(s.now + Pacer.Slept(d)))
            case _ => s.(panic := Some(PacerFault)))
    case Wake => s.(pc := if s.workers < c.maxWorkers then Trying else Blocking)
    case SendTick(w) =>
      if s.ticksCloses > 0 then s.(panic := Some(SendOnClosed))
      else s.(pc := Loop, count := s.count + 1, ws := s.ws[w := Ticked])
    case SeeStop => s.(pc := Closing)
    case Default => s.(pc := Spawning)
    case Spawn =>
      s.(pc := Blocking, workers := s.workers + 1, wg := s.wg + 1, ws := s.ws + [Idle])
    case CloseTicks =>
      if s.ticksCloses > 0 then s.(panic := Some(CloseOfClosed))
      else s.(pc := Awaiting, ticksCloses := 1)
    case CloseResults =>
      if s.resultsCloses > 0 then s.(panic := Some(CloseOfClosed))
      else s.(pc := Stopping, resultsCloses := 1)
    case FinalStop => s.(stop := Entered(s.stop), pc := Finished)
    case Work(w, op) => ApplyWork(c, s, w, op)
  }

  function ApplyWork(c: Config, s: State, w: nat, op: Op): State
    requires w < |s.ws| && CanWork(s, w, op)
  {
    match op
    case Arrive => s.(ws := s.ws[w := Receiving])
    case Exit =>
      if s.wg <= 0 then s.(panic := Some(NegativeWaitGroup))
      else s.(ws := s.ws[w := Exited], wg := s.wg - 1)
    case Lock => s.(ws := s.ws[w := Locked], atk := s.atk.(mutex := Some(w)))
    case Stamp => s.(ws := s.ws[w := Stamped(c.began + Elapsed(c, s))])
    case Copy => s.(ws := s.ws[w := Copied(s.ws[w].t, s.atk.seqno)])
    case Unlock =>
      s.(ws := s.ws[w := Hitting(s.ws[w].t, s.ws[w].n)],
         atk := Atk(None, s.atk.seqno + 1, s.atk.stamps + [s.ws[w].t]))
    case Return(code, bytesOut, bytesIn, error) =>
      var t := s.ws[w].t;
      var r := Result(c.name, s.ws[w].n, code, t, Sub(s.now, t), bytesOut, bytesIn, error);
      s.(ws := s.ws[w := Sending(r)])
    case Deliver =>
      if s.resultsCloses > 0 then s.(panic := Some(SendOnClosed))
      else s.(ws := s.ws[w := Idle], delivered := s.delivered + [s.ws[w].r])
  }

  /** The actions `acts`, each enabled in its turn, lead from s to s'. */
  ghost predicate Reaches(c: Config, s: State, acts: seq<Action>, s': State)
    decreases |acts|
  {
    if acts == [] then s == s'
    else Enabled(c, s, acts[0]) && Reaches(c, Apply(c, s, acts[0]), acts[1..], s')
  }

  ghost predicate Reachable(c: Config, s: State) {
    exists s0, acts :: Init(c, s0) && Reaches(c, s0, acts, s)
  }

  // ------------------------------------------------------------------ counting workers

  function Sum(ws: seq<Phase>, f: Phase -> nat): nat {
    if ws == [] then 0 else f(ws[0]) + Sum(ws[1..], f)
  }

  lemma {:induction false} SumUpdate(ws: seq<Phase>, w: nat, p: Phase, f: Phase -> nat)
    requires w < |ws|
    ensures Sum(ws[w := p], f) == Sum(ws, f) - f(ws[w]) + f(p)
    ensures Sum(ws, f) >= f(ws[w])
  {
    if w == 0 {
      assert ws[w := p][1..] == ws[1..];
    } else {
      assert ws[w := p][1..] == ws[1..][w - 1 := p];
      SumUpdate(ws[1..], w - 1, p, f);
    }
  }

  lemma {:induction false} SumAppend(ws: seq<Phase>, p: Phase, f: Phase -> nat)
    ensures Sum(ws + [p], f) == Sum(ws, f) + f(p)
  {
    if ws == [] {
      assert ws + [p] == [p];
    } else {
      assert (ws + [p])[1..] == ws[1..] + [p];
      SumAppend(ws[1..], p, f);
    }
  }

  lemma {:induction false} SumZero(ws: seq<Phase>, f: Phase -> nat)
    ensures Sum(ws, f) == 0 <==> forall w :: 0 <= w < |ws| ==> f(ws[w]) == 0
  {
    if ws == [] {
    } else {
      SumZero(ws[1..], f);
      assert forall w :: 1 <= w < |ws| ==> ws[w] == ws[1..][w - 1];
    }
  }

  lemma {:induction false} SumLe(ws: seq<Phase>, f: Phase -> nat, g: Phase -> nat)
    requires forall p :: f(p) <= g(p)
    ensures Sum(ws, f) <= Sum(ws, g)
  {
    if ws == [] {
    } else {
      SumLe(ws[1..], f, g);
    }
  }

  function Live(p: Phase): nat { if p == Exited then 0 else 1 }

  /** Holds a tick that has no sequence number yet. */
  function Unnumbered(p: Phase): nat {
    if p == Ticked || InCritical(p) then 1 else 0
  }

  /** Holds a numbered result that has not been sent. */
  function Unsent(p: Phase): nat { if p.Hitting? || p.Sending? then 1 else 0 }

  function InFlight(p: Phase): nat { Unnumbered(p) + Unsent(p) }

  predicate InCritical(p: Phase) { p == Locked || p.Stamped? || p.Copied? }

  /** The sequence number a worker holds, or -1. */
  function Number(p: Phase): int {
    if p.Hitting? then p.n else if p.Sending? then p.r.seqno else -1
  }

  // ------------------------------------------------------------------ invariants

  predicate Deferred(pc: Pc) { pc == Awaiting || pc == Stopping || pc == Finished }

  /** Each channel is closed by its own step of the dispatcher, and the pool keeps to its limit. */
  ghost predicate Channels(c: Config, s: State) {
    && s.ticksCloses == (if Deferred(s.pc) then 1 else 0)
    && s.resultsCloses == (if s.pc == Stopping || s.pc == Finished then 1 else 0)
    && s.stop.closes <= 1 && (s.stop.once <==> s.stop.closes == 1)
    && s.workers == |s.ws| <= c.maxWorkers
    && (s.pc == Trying || s.pc == Spawning ==> |s.ws| < c.maxWorkers)
    && (s.pc == Blocking ==> |s.ws| > 0 || c.maxWorkers == 0)
    && (s.panic == None || s.panic == Some(PacerFault))
  }

  /** The wait group counts the live workers. */
  ghost predicate Pool(s: State) {
    && s.wg == Sum(s.ws, Live)
    && (s.resultsCloses == 1 ==> s.wg == 0)
    && (s.ticksCloses == 0 ==> forall w :: 0 <= w < |s.ws| ==> s.ws[w] != Exited)
  }

  /** Ticks sent, numbers taken and results delivered differ by what the workers hold. */
  ghost predicate Conserved(s: State) {
    && s.count == s.atk.seqno + Sum(s.ws, Unnumbered)
    && s.atk.seqno == |s.delivered| + Sum(s.ws, Unsent)
  }

  /** The critical section has one holder. */
  ghost predicate Exclusive(ws: seq<Phase>, atk: Atk) {
    && (forall w :: 0 <= w < |ws| ==> (InCritical(ws[w]) <==> atk.mutex == Some(w)))
    && (atk.mutex.Some? ==> atk.mutex.value < |ws|)
    && (forall w :: 0 <= w < |ws| && ws[w].Copied? ==> ws[w].n == atk.seqno)
  }

  /** Timestamps never decrease along the sequence numbers: not those already numbered, and not
      the one about to be. `last` is the latest timestamp that can be read. */
  ghost predicate Ordered(began: int, last: int, ws: seq<Phase>, atk: Atk) {
    && |atk.stamps| == atk.seqno && began <= last
    && (forall i, j :: 0 <= i < j < |atk.stamps| ==> atk.stamps[i] <= atk.stamps[j])
    && (forall i :: 0 <= i < |atk.stamps| ==> began <= atk.stamps[i] <= last)
    && (forall w :: 0 <= w < |ws| && (ws[w].Stamped? || ws[w].Copied?) ==>
          began <= ws[w].t <= last &&
          (forall i :: 0 <= i < |atk.stamps| ==> atk.stamps[i] <= ws[w].t))
  }

  /** A result carries the number, timestamp and name the critical section gave it. */
  ghost predicate Genuine(c: Config, stamps: seq<int>, r: Result) {
    r.attack == c.name && r.seqno < |stamps| && r.timestamp == stamps[r.seqno] && r.latency >= 0
  }

  ghost predicate Faithful(c: Config, stamps: seq<int>, ws: seq<Phase>, delivered: seq<Result>) {
    && (forall i :: 0 <= i < |delivered| ==> Genuine(c, stamps, delivered[i]))
    && (forall w :: 0 <= w < |ws| && ws[w].Sending? ==> Genuine(c, stamps, ws[w].r))
    && (forall w :: 0 <= w < |ws| && ws[w].Hitting? ==>
          ws[w].n < |stamps| && ws[w].t == stamps[ws[w].n])
  }

  /** No sequence number is held or delivered twice. */
  ghost predicate Distinct(ws: seq<Phase>, delivered: seq<Result>) {
    && (forall i, j :: 0 <= i < j < |delivered| ==> delivered[i].seqno != delivered[j].seqno)
    && (forall v, w :: 0 <= v < w < |ws| && Number(ws[v]) >= 0 ==> Number(ws[v]) != Number(ws[w]))
    && (forall i, w :: 0 <= i < |delivered| && 0 <= w < |ws| ==>
          delivered[i].seqno != Number(ws[w]))
  }

  /** Channels, pool and counters. */
  ghost predicate Counts(c: Config, s: State) { Channels(c, s) && Pool(s) && Conserved(s) }

  /** Critical section, timestamps and results. */
  ghost predicate Hold(c: Config, last: int, ws: seq<Phase>, atk: Atk, delivered: seq<Result>) {
    && Exclusive(ws, atk) && Ordered(c.began, last, ws, atk)
    && Faithful(c, atk.stamps, ws, delivered) && Distinct(ws, delivered)
  }

  ghost predicate Inv(c: Config, s: State) {
    s.now >= c.began && Counts(c, s) && Hold(c, c.began + Elapsed(c, s), s.ws, s.atk, s.delivered)
  }

  lemma {:induction false} SumIdle(ws: seq<Phase>)
    requires forall w :: 0 <= w < |ws| ==> ws[w] == Idle
    ensures Sum(ws, Live) == |ws| && Sum(ws, Unnumbered) == 0 && Sum(ws, Unsent) == 0
  {
    if ws == [] {
    } else {
      SumIdle(ws[1..]);
    }
  }

  lemma {:induction false} InitInv(c: Config, s: State)
    requires Init(c, s)
    ensures Inv(c, s)
  {
    SumIdle(s.ws);
  }

  lemma {:induction false} Sums(ws: seq<Phase>, w: nat, p: Phase)
    requires w < |ws|
    ensures Sum(ws[w := p], Live) == Sum(ws, Live) - Live(ws[w]) + Live(p)
    ensures Sum(ws[w := p], Unnumbered) == Sum(ws, Unnumbered) - Unnumbered(ws[w]) + Unnumbered(p)
    ensures Sum(ws[w := p], Unsent) == Sum(ws, Unsent) - Unsent(ws[w]) + Unsent(p)
    ensures Sum(ws, Live) >= Live(ws[w])
  {
    SumUpdate(ws, w, p, Live);
    SumUpdate(ws, w, p, Unnumbered);
    SumUpdate(ws, w, p, Unsent);
  }

  // A step of a worker, invariant by invariant.

  lemma {:induction false} WorkKeepsChannels(c: Config, s: State, w: nat, op: Op)
    requires w < |s.ws| && CanWork(s, w, op) && s.panic == None
    requires Channels(c, s) && Pool(s)
    ensures Channels(c, ApplyWork(c, s, w, op))
    ensures ApplyWork(c, s, w, op).panic == None
  {
    SumUpdate(s.ws, w, s.ws[w], Live);
  }

  lemma {:induction false} WorkKeepsPool(c: Config, s: State, w: nat, op: Op)
    requires w < |s.ws| && CanWork(s, w, op)
    requires Channels(c, s) && Pool(s)
    ensures Pool(ApplyWork(c, s, w, op))
  {
    SumUpdate(s.ws, w, ApplyWork(c, s, w, op).ws[w], Live);
  }

  /** What a worker takes over or gives away is what the counters move by. */
  lemma {:induction false} WorkFlow(c: Config, s: State, w: nat, op: Op)
    requires w < |s.ws| && CanWork(s, w, op) && ApplyWork(c, s, w, op).panic == s.panic == None
    ensures var s' := ApplyWork(c, s, w, op);
            && |s'.ws| == |s.ws| && s'.ws == s.ws[w := s'.ws[w]] && s'.count == s.count
            && s'.atk.seqno + Unnumbered(s'.ws[w]) == s.atk.seqno + Unnumbered(s.ws[w])
            && |s'.delivered| + Unsent(s'.ws[w]) - s'.atk.seqno == |s.delivered| + Unsent(s.ws[w]) - s.atk.seqno
  {
  }

  lemma {:induction false} WorkConserves(c: Config, s: State, w: nat, op: Op)
    requires w < |s.ws| && CanWork(s, w, op)
    requires Conserved(s) && ApplyWork(c, s, w, op).panic == s.panic == None
    ensures Conserved(ApplyWork(c, s, w, op))
  {
    WorkFlow(c, s, w, op);
    Sums(s.ws, w, ApplyWork(c, s, w, op).ws[w]);
  }

  lemma {:induction false} WorkKeepsExclusion(c: Config, s: State, w: nat, op: Op)
    requires w < |s.ws| && CanWork(s, w, op)
    requires Exclusive(s.ws, s.atk)
    ensures var s' := ApplyWork(c, s, w, op); Exclusive(s'.ws, s'.atk)
  {
  }

  lemma {:induction false} WorkKeepsOrder(c: Config, s: State, w: nat, op: Op)
    requires w < |s.ws| && CanWork(s, w, op) && s.now >= c.began
    requires Exclusive(s.ws, s.atk)
    requires Ordered(c.began, c.began + Elapsed(c, s), s.ws, s.atk)
    ensures var s' := ApplyWork(c, s, w, op);
            Ordered(c.began, c.began + Elapsed(c, s), s'.ws, s'.atk)
  {
  }

  lemma {:induction false} WorkKeepsFaith(c: Config, s: State, w: nat, op: Op)
    requires w < |s.ws| && CanWork(s, w, op) && s.now >= c.began
    requires Exclusive(s.ws, s.atk)
    requires Ordered(c.began, c.began + Elapsed(c, s), s.ws, s.atk)
    requires Faithful(c, s.atk.stamps, s.ws, s.delivered)
    ensures var s' := ApplyWork(c, s, w, op);
            Faithful(c, s'.atk.stamps, s'.ws, s'.delivered)
  {
  }

  lemma {:induction false} DistinctMove(ws: seq<Phase>, delivered: seq<Result>, w: nat, p: Phase)
    requires Distinct(ws, delivered) && w < |ws| && Number(p) == Number(ws[w])
    ensures Distinct(ws[w := p], delivered)
  {
  }

  /** A number larger than all others. */
  lemma {:induction false} DistinctNew(ws: seq<Phase>, delivered: seq<Result>, w: nat, p: Phase)
    requires Distinct(ws, delivered) && w < |ws|
    requires forall v :: 0 <= v < |ws| ==> Number(ws[v]) < Number(p)
    requires forall i :: 0 <= i < |delivered| ==> delivered[i].seqno < Number(p)
    ensures Distinct(ws[w := p], delivered)
  {
  }

  lemma {:induction false} DistinctSent(ws: seq<Phase>, delivered: seq<Result>, w: nat)
    requires Distinct(ws, delivered) && w < |ws| && ws[w].Sending?
    ensures Distinct(ws[w := Idle], delivered + [ws[w].r])
  {
  }

  lemma {:induction false} WorkKeepsDistinct(c: Config, s: State, w: nat, op: Op)
    requires w < |s.ws| && CanWork(s, w, op)
    requires Exclusive(s.ws, s.atk) && |s.atk.stamps| == s.atk.seqno
    requires Faithful(c, s.atk.stamps, s.ws, s.delivered)
    requires Distinct(s.ws, s.delivered)
    ensures var s' := ApplyWork(c, s, w, op);
            Distinct(s'.ws, s'.delivered)
  {
    var s' := ApplyWork(c, s, w, op);
    match op
    case Unlock => DistinctNew(s.ws, s.delivered, w, s'.ws[w]);
    case Deliver => DistinctSent(s.ws, s.delivered, w);
    case _ => DistinctMove(s.ws, s.delivered, w, s'.ws[w]);
  }

  lemma {:induction false} WorkKeepsCounts(c: Config, s: State, w: nat, op: Op)
    requires w < |s.ws| && CanWork(s, w, op) && Counts(c, s) && s.panic == None
    ensures Counts(c, ApplyWork(c, s, w, op))
  {
    WorkKeepsChannels(c, s, w, op);
    WorkKeepsPool(c, s, w, op);
    WorkConserves(c, s, w, op);
  }

  lemma {:induction false} WorkLeavesDispatcher(c: Config, s: State, w: nat, op: Op)
    requires w < |s.ws| && CanWork(s, w, op)
    ensures var s' := ApplyWork(c, s, w, op);
            && s'.now == s.now && s'.pc == s.pc && s'.count == s.count && s'.stop == s.stop
            && |s'.ws| == |s.ws|
  {
  }

  lemma {:induction false} WorkKeepsHold(c: Config, s: State, w: nat, op: Op)
    requires w < |s.ws| && CanWork(s, w, op) && s.now >= c.began
    requires Hold(c, c.began + Elapsed(c, s), s.ws, s.atk, s.delivered)
    ensures var s' := ApplyWork(c, s, w, op);
            Hold(c, c.began + Elapsed(c, s), s'.ws, s'.atk, s'.delivered)
  {
    WorkKeepsExclusion(c, s, w, op);
    WorkKeepsOrder(c, s, w, op);
    WorkKeepsFaith(c, s, w, op);
    WorkKeepsDistinct(c, s, w, op);
  }

  lemma {:induction false} WorkKeepsInv(c: Config, s: State, a: Action)
    requires a.Work? && Enabled(c, s, a) && Inv(c, s)
    ensures Inv(c, Apply(c, s, a))
  {
    WorkKeepsCounts(c, s, a.w, a.op);
    WorkKeepsHold(c, s, a.w, a.op);
    WorkLeavesDispatcher(c, s, a.w, a.op);
  }

  // A step of the dispatcher or of the environment.

  predicate MovesPool(a: Action) { a.SendTick? || a.Spawn? || a.Work? }

  lemma {:induction false} OthersKeepChannels(c: Config, s: State, a: Action)
    requires Enabled(c, s, a) && !MovesPool(a)
    requires Channels(c, s)
    ensures Channels(c, Apply(c, s, a))
  {
  }

  lemma {:induction false} OthersKeepRest(c: Config, s: State, a: Action)
    requires Enabled(c, s, a) && !MovesPool(a) && s.now >= c.began
    requires Channels(c, s) && Pool(s)
    ensures var s' := Apply(c, s, a);
            && Pool(s') && s'.now >= s.now
            && s'.ws == s.ws && s'.atk == s.atk && s'.delivered == s.delivered
            && s'.count == s.count
  {
    SumZero(s.ws, Live);
  }

  lemma {:induction false} OthersKeepInv(c: Config, s: State, a: Action)
    requires Enabled(c, s, a) && !MovesPool(a) && Inv(c, s)
    ensures Inv(c, Apply(c, s, a))
  {
    OthersKeepChannels(c, s, a);
    OthersKeepRest(c, s, a);
  }

  predicate HoldsNothing(p: Phase) { !InCritical(p) && Number(p) == -1 }

  /** The invariants over the workers do not notice a worker that holds nothing. */
  lemma {:induction false} HoldMove(
    c: Config, last: int, ws: seq<Phase>, atk: Atk, delivered: seq<Result>, w: nat, p: Phase)
    requires Hold(c, last, ws, atk, delivered) && w < |ws| && HoldsNothing(ws[w]) && HoldsNothing(p)
    ensures Hold(c, last, ws[w := p], atk, delivered)
  {
    DistinctMove(ws, delivered, w, p);
  }

  lemma {:induction false} HoldSpawn(c: Config, last: int, ws: seq<Phase>, atk: Atk, delivered: seq<Result>)
    requires Hold(c, last, ws, atk, delivered)
    ensures Hold(c, last, ws + [Idle], atk, delivered)
  {
  }

  lemma {:induction false} TickKeepsCounts(c: Config, s: State, w: nat)
    requires Enabled(c, s, SendTick(w)) && Counts(c, s)
    ensures s.ticksCloses == 0 && Counts(c, Apply(c, s, SendTick(w)))
  {
    Sums(s.ws, w, Ticked);
  }

  lemma {:induction false} TickKeepsInv(c: Config, s: State, a: Action)
    requires a.SendTick? && Enabled(c, s, a) && Inv(c, s)
    ensures Inv(c, Apply(c, s, a))
  {
    TickKeepsCounts(c, s, a.w);
    HoldMove(c, c.began + Elapsed(c, s), s.ws, s.atk, s.delivered, a.w, Ticked);
  }

  lemma {:induction false} SpawnKeepsCounts(c: Config, s: State)
    requires Enabled(c, s, Spawn) && Counts(c, s)
    ensures Counts(c, Apply(c, s, Spawn))
  {
    SumAppend(s.ws, Idle, Live);
    SumAppend(s.ws, Idle, Unnumbered);
    SumAppend(s.ws, Idle, Unsent);
  }

  lemma {:induction false} SpawnKeepsInv(c: Config, s: State, a: Action)
    requires a.Spawn? && Enabled(c, s, a) && Inv(c, s)
    ensures Inv(c, Apply(c, s, a))
  {
    SpawnKeepsCounts(c, s);
    HoldSpawn(c, c.began + Elapsed(c, s), s.ws, s.atk, s.delivered);
  }

  lemma {:induction false} InvStep(c: Config, s: State, a: Action)
    requires Inv(c, s) && Enabled(c, s, a)
    ensures Inv(c, Apply(c, s, a))
  {
    if a.Work? {
      WorkKeepsInv(c, s, a);
    } else if a.SendTick? {
      TickKeepsInv(c, s, a);
    } else if a.Spawn? {
      SpawnKeepsInv(c, s, a);
    } else {
      OthersKeepInv(c, s, a);
    }
  }
}
