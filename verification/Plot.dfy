/** lib/plot/plot.go and lib/plot/timeseries.go: results arrive in any order, are put back into
    sequence order by a buffer, and are appended to one monotone time series per label. */
module Plot {
  import opened GoInt
  import opened Result
  import L = Lttb

  /** An entry of a time series: milliseconds since the attack began, latency in milliseconds. */
  datatype Entry = Entry(ms: nat, v: real)

  // ------------------------------------------------------------------ on values

  /** A buffered point, naming its series by label. */
  datatype Pending = Pending(tag: string, t: int, v: real)

  datatype LS = LS(began: int, seqno: nat, buf: map<nat, Pending>, series: map<string, seq<Entry>>)

  datatype Added = Added(ls: LS, err: bool)

  function Value(r: Result): real { r.latency as real / 1000000000.0 * 1000.0 }

  function Millis(t: int, began: int): nat { Uint64(Sub(t, began)) / 1000000 }

  function Prev(es: seq<Entry>): nat { if es == [] then 0 else es[|es| - 1].ms }

  predicate Known(ls: LS) { forall k :: k in ls.buf ==> ls.buf[k].tag in ls.series }

  /** The state after the point with number seqno has moved from the buffer to its series. */
  function Moved(ls: LS): (ls': LS)
    requires Known(ls) && ls.seqno in ls.buf
    ensures Known(ls')
  {
    var p := ls.buf[ls.seqno];
    var entry := Entry(Millis(p.t, ls.began), p.v);
    LS(ls.began, ls.seqno + 1, ls.buf - {ls.seqno}, ls.series[p.tag := ls.series[p.tag] + [entry]])
  }

  /** The next point is earlier than the end of its series. */
  predicate Late(ls: LS)
    requires Known(ls) && ls.seqno in ls.buf
  {
    var p := ls.buf[ls.seqno];
    Prev(ls.series[p.tag]) > Millis(p.t, ls.began)
  }

  /** A point that could not be appended is lost. */
  function Dropped(ls: LS): (ls': LS)
    requires Known(ls)
    ensures Known(ls')
  {
    ls.(buf := ls.buf - {ls.seqno})
  }

  /** Moving or dropping a point, field by field. */
  lemma {:induction false} StepIs(m: LS, p: Pending, err: bool, m': LS)
    requires Known(m) && m.seqno in m.buf && p == m.buf[m.seqno]
    requires err == (Prev(m.series[p.tag]) > Millis(p.t, m.began))
    requires m'.began == m.began && m'.seqno == (if err then m.seqno else m.seqno + 1)
    requires m'.buf == m.buf - {m.seqno}
    requires m'.series == if err then m.series else
      m.series[p.tag := m.series[p.tag] + [Entry(Millis(p.t, m.began), p.v)]]
    ensures err == Late(m) && m' == if err then Dropped(m) else Moved(m)
  {
  }

  /** The loop of add: append buffered points as long as the next number is there. */
  function Drain(ls: LS): (a: Added)
    requires Known(ls)
    ensures Known(a.ls)
    decreases ls.buf.Keys
  {
    if ls.seqno !in ls.buf then Added(ls, false)
    else
      assert Moved(ls).buf.Keys < ls.buf.Keys;
      if Late(ls) then Added(Dropped(ls), true) else Drain(Moved(ls))
  }

  lemma {:induction false} DrainStep(ls: LS)
    requires Known(ls) && ls.seqno in ls.buf
    ensures Moved(ls).buf.Keys < ls.buf.Keys
    ensures Drain(ls) == if Late(ls) then Added(Dropped(ls), true) else Drain(Moved(ls))
  {
  }

  function WithPoint(labeler: Result -> string, ls: LS, r: Result): (ls': LS)
    requires Known(ls)
    ensures Known(ls')
  {
    var l := labeler(r);
    LS(if r.seqno == ls.seqno == 0 then r.timestamp else ls.began, ls.seqno,
       ls.buf[r.seqno := Pending(l, r.timestamp, Value(r))],
       if l in ls.series then ls.series else ls.series[l := []])
  }

  function AddResult(labeler: Result -> string, ls: LS, r: Result): (a: Added)
    requires Known(ls)
    ensures Known(a.ls)
  {
    var ls' := WithPoint(labeler, ls, r);
    if r.seqno != ls.seqno then Added(ls', false) else Drain(ls')
  }

  const EMPTY: LS := LS(0, 0, map[], map[])

  /** Results added in the order of rs; err tells whether any add failed. */
  function Run(labeler: Result -> string, rs: seq<Result>): (a: Added)
    ensures Known(a.ls)
  {
    if rs == [] then Added(EMPTY, false)
    else
      var before := Run(labeler, rs[..|rs| - 1]);
      var a := AddResult(labeler, before.ls, rs[|rs| - 1]);
      Added(a.ls, before.err || a.err)
  }

  // ------------------------------------------------------------------ what the buffer is for

  /** The results received so far, by sequence number. */
  function Received(rs: seq<Result>): (m: map<nat, Result>)
    ensures forall i :: 0 <= i < |rs| ==> rs[i].seqno in m
    ensures forall k :: k in m ==> m[k].seqno == k && m[k] in rs
  {
    if rs == [] then map[]
    else
      var r := rs[|rs| - 1];
      Received(rs[..|rs| - 1])[r.seqno := r]
  }

  /** Timestamps order like sequence numbers. */
  ghost predicate Sorted(m: map<nat, Result>) {
    forall i, j :: i in m && j in m && i < j ==> m[i].timestamp <= m[j].timestamp
  }

  ghost predicate Full(m: map<nat, Result>, n: nat) { forall k: nat :: k < n ==> k in m }

  /** The series of label l made of results 0..n-1, relative to the timestamp of result 0. */
  function InOrder(labeler: Result -> string, m: map<nat, Result>, n: nat, l: string): seq<Entry>
    requires Full(m, n)
  {
    if n == 0 then []
    else
      var es := InOrder(labeler, m, n - 1, l);
      if labeler(m[n - 1]) != l then es
      else es + [Entry(Millis(m[n - 1].timestamp, m[0].timestamp), Value(m[n - 1]))]
  }

  function Waiting(m: map<nat, Result>, n: nat): set<nat> { set k | k in m && k >= n }

  function Labels(labeler: Result -> string, m: map<nat, Result>): set<string> {
    set k | k in m :: labeler(m[k])
  }

  /** What a state holds after the results m: those below seqno are in their series, the rest are
      buffered. */
  ghost predicate Holds(labeler: Result -> string, m: map<nat, Result>, ls: LS) {
    && Full(m, ls.seqno)
    && ls.began == (if 0 in m then m[0].timestamp else 0)
    && ls.buf.Keys == Waiting(m, ls.seqno)
    && (forall k :: k in ls.buf ==>
          ls.buf[k] == Pending(labeler(m[k]), m[k].timestamp, Value(m[k])))
    && ls.series.Keys == Labels(labeler, m)
    && (forall l :: l in ls.series ==> ls.series[l] == InOrder(labeler, m, ls.seqno, l))
  }

  /** In addition seqno is the least number not yet received. */
  ghost predicate Settled(labeler: Result -> string, m: map<nat, Result>, ls: LS) {
    Holds(labeler, m, ls) && ls.seqno !in m
  }

  lemma {:induction false} MillisMonotone(t: int, u: int, began: int)
    requires began <= t <= u
    ensures Millis(t, began) <= Millis(u, began)
  {
  }

  /** No entry of a series is later than the next result. */
  lemma {:induction false} NextIsNotEarlier(
    labeler: Result -> string, m: map<nat, Result>, n: nat, l: string, k: nat)
    requires Full(m, n) && Sorted(m) && k in m && n <= k && 0 in m
    ensures Prev(InOrder(labeler, m, n, l)) <= Millis(m[k].timestamp, m[0].timestamp)
  {
    if n == 0 {
    } else {
      NextIsNotEarlier(labeler, m, n - 1, l, k);
      MillisMonotone(m[n - 1].timestamp, m[k].timestamp, m[0].timestamp);
    }
  }

  lemma {:induction false} MovedSeries(labeler: Result -> string, m: map<nat, Result>, ls: LS, l: string)
    requires Known(ls) && Holds(labeler, m, ls) && ls.seqno in ls.buf && l in ls.series
    ensures Full(m, ls.seqno + 1) && Moved(ls).series[l] == InOrder(labeler, m, ls.seqno + 1, l)
  {
    assert ls.seqno in m;
  }

  lemma {:induction false} MovedBuffer(labeler: Result -> string, m: map<nat, Result>, ls: LS)
    requires Known(ls) && Holds(labeler, m, ls) && ls.seqno in ls.buf
    ensures Full(m, ls.seqno + 1) && Moved(ls).buf.Keys == Waiting(m, ls.seqno + 1)
  {
    assert ls.seqno in m;
    assert Waiting(m, ls.seqno + 1) == Waiting(m, ls.seqno) - {ls.seqno};
  }

  lemma {:induction false} MovedHolds(labeler: Result -> string, m: map<nat, Result>, ls: LS)
    requires Known(ls) && Holds(labeler, m, ls) && ls.seqno in ls.buf
    ensures Holds(labeler, m, Moved(ls))
  {
    var n, ls' := ls.seqno, Moved(ls);
    MovedBuffer(labeler, m, ls);
    assert ls'.series.Keys == ls.series.Keys;
    forall l | l in ls'.series ensures ls'.series[l] == InOrder(labeler, m, n + 1, l) {
      MovedSeries(labeler, m, ls, l);
    }
  }

  /** The numbers below n whose results have label l. */
  function Seqnos(labeler: Result -> string, m: map<nat, Result>, n: nat, l: string): (ks: seq<nat>)
    requires Full(m, n)
    ensures forall i, j :: 0 <= i < j < |ks| ==> ks[i] < ks[j]
    ensures forall k: nat :: k in ks <==> k < n && k in m && labeler(m[k]) == l
  {
    if n == 0 then []
    else
      var ks := Seqnos(labeler, m, n - 1, l);
      assert n - 1 in m && forall i :: 0 <= i < |ks| ==> ks[i] in ks;
      if labeler(m[n - 1]) != l then ks else ks + [n - 1]
  }

  lemma {:induction false} InOrderEntries(labeler: Result -> string, m: map<nat, Result>, n: nat, l: string)
    requires Full(m, n)
    ensures var es, ks := InOrder(labeler, m, n, l), Seqnos(labeler, m, n, l);
            |es| == |ks| && forall j :: 0 <= j < |ks| ==>
              ks[j] < n && es[j] == Entry(Millis(m[ks[j]].timestamp, m[0].timestamp), Value(m[ks[j]]))
  {
    if n == 0 {
    } else {
      InOrderEntries(labeler, m, n - 1, l);
    }
  }

  /** The entry shows r: its latency in milliseconds, and the whole milliseconds since `began`. */
  ghost predicate Shows(e: Entry, r: Result, began: int) {
    && e.v * 1000000.0 == r.latency as real
    && (began <= r.timestamp <= began + MAX_INT64 ==>
          e.ms * 1000000 <= r.timestamp - began < (e.ms + 1) * 1000000)
  }

  lemma {:induction false} EntryShows(r: Result, began: int)
    ensures Shows(Entry(Millis(r.timestamp, began), Value(r)), r, began)
  {
  }

  /** A series consists of its results in sequence order, each shown relative to result 0. */
  lemma {:induction false} SeriesShowsResults(labeler: Result -> string, m: map<nat, Result>, n: nat, l: string)
    requires Full(m, n)
    ensures var es, ks := InOrder(labeler, m, n, l), Seqnos(labeler, m, n, l);
            |es| == |ks| && forall j :: 0 <= j < |ks| ==>
              ks[j] < n && Shows(es[j], m[ks[j]], m[0].timestamp)
  {
    InOrderEntries(labeler, m, n, l);
    var es, ks := InOrder(labeler, m, n, l), Seqnos(labeler, m, n, l);
    forall j | 0 <= j < |ks| ensures Shows(es[j], m[ks[j]], m[0].timestamp) {
      EntryShows(m[ks[j]], m[0].timestamp);
    }
  }

  // ------------------------------------------------------------------ when an add fails

  /** Of two results with the same label the later one has the earlier timestamp, in milliseconds
      since result 0, and nothing is missing up to it. */
  ghost predicate Swapped(labeler: Result -> string, m: map<nat, Result>, i: nat, j: nat) {
    && i < j && Full(m, j + 1) && labeler(m[i]) == labeler(m[j])
    && Millis(m[i].timestamp, m[0].timestamp) > Millis(m[j].timestamp, m[0].timestamp)
  }

  ghost predicate OutOfOrder(labeler: Result -> string, m: map<nat, Result>) {
    exists i, j :: Swapped(labeler, m, i, j)
  }

  ghost predicate Tidy(ls: LS) { forall l :: l in ls.series ==> Monotone(ls.series[l]) }

  lemma {:induction false} LateIsSwapped(labeler: Result -> string, m: map<nat, Result>, ls: LS)
    requires Known(ls) && Holds(labeler, m, ls) && ls.seqno in ls.buf && Late(ls)
    ensures OutOfOrder(labeler, m)
  {
    var n, l := ls.seqno, ls.buf[ls.seqno].tag;
    InOrderEntries(labeler, m, n, l);
    var ks := Seqnos(labeler, m, n, l);
    var i := ks[|ks| - 1];
    assert i in ks && n in m;
    assert Swapped(labeler, m, i, n);
  }

  lemma {:induction false} MovedStaysTidy(ls: LS)
    requires Known(ls) && Tidy(ls) && ls.seqno in ls.buf && !Late(ls)
    ensures Tidy(Moved(ls))
  {
  }

  /** Draining settles the state, unless two of the results are out of order. */
  lemma {:induction false} DrainSettles(labeler: Result -> string, m: map<nat, Result>, ls: LS)
    requires Known(ls) && Holds(labeler, m, ls) && Tidy(ls)
    ensures if Drain(ls).err then OutOfOrder(labeler, m)
            else Settled(labeler, m, Drain(ls).ls) && Tidy(Drain(ls).ls)
    decreases ls.buf.Keys
  {
    if ls.seqno !in ls.buf {
    } else if Late(ls) {
      LateIsSwapped(labeler, m, ls);
    } else {
      MovedHolds(labeler, m, ls);
      MovedStaysTidy(ls);
      assert Moved(ls).buf.Keys < ls.buf.Keys;
      DrainSettles(labeler, m, Moved(ls));
    }
  }

  /** Adding one more result. */
  lemma {:induction false} AddSettles(labeler: Result -> string, m: map<nat, Result>, ls: LS, r: Result)
    requires Known(ls) && Settled(labeler, m, ls) && Tidy(ls) && r.seqno !in m
    ensures var a, m' := AddResult(labeler, ls, r), m[r.seqno := r];
            if a.err then OutOfOrder(labeler, m') else Settled(labeler, m', a.ls) && Tidy(a.ls)
  {
    InsertHolds(labeler, m, ls, r);
    assert Tidy(WithPoint(labeler, ls, r));
    if r.seqno == ls.seqno {
      DrainSettles(labeler, m[r.seqno := r], WithPoint(labeler, ls, r));
    }
  }

  lemma {:induction false} StaysOutOfOrder(labeler: Result -> string, m: map<nat, Result>, r: Result)
    requires OutOfOrder(labeler, m) && r.seqno !in m
    ensures OutOfOrder(labeler, m[r.seqno := r])
  {
    var i, j :| Swapped(labeler, m, i, j);
    assert i in m && j in m && 0 in m;
    assert Swapped(labeler, m[r.seqno := r], i, j);
  }

  ghost predicate DistinctNumbers(rs: seq<Result>) {
    forall i, j :: 0 <= i < j < |rs| ==> rs[i].seqno != rs[j].seqno
  }

  /** Results with distinct numbers, in any order of arrival. */
  lemma {:induction false} RunOutcome(labeler: Result -> string, rs: seq<Result>)
    requires DistinctNumbers(rs)
    ensures var a, m := Run(labeler, rs), Received(rs);
            if a.err then OutOfOrder(labeler, m) else Settled(labeler, m, a.ls) && Tidy(a.ls)
  {
    if rs == [] {
    } else {
      var init, r := rs[..|rs| - 1], rs[|rs| - 1];
      NextNumber(rs, init, r);
      RunOutcome(labeler, init);
      var before := Run(labeler, init);
      if before.err {
        StaysOutOfOrder(labeler, Received(init), r);
      } else {
        AddSettles(labeler, Received(init), before.ls, r);
      }
    }
  }

  /** A settled and tidy state has taken in every pair, so none is swapped. */
  lemma {:induction false} TidyIsInOrder(labeler: Result -> string, m: map<nat, Result>, ls: LS)
    requires Settled(labeler, m, ls) && Tidy(ls)
    ensures !OutOfOrder(labeler, m)
  {
    forall i: nat, j: nat ensures !Swapped(labeler, m, i, j) {
      if Swapped(labeler, m, i, j) {
        NotSwapped(labeler, m, ls, i, j);
        assert false;
      }
    }
  }

  lemma {:induction false} Positions(ks: seq<nat>, i: nat, j: nat) returns (a: nat, b: nat)
    requires forall i, j :: 0 <= i < j < |ks| ==> ks[i] < ks[j]
    requires i in ks && j in ks && i < j
    ensures a < b < |ks| && ks[a] == i && ks[b] == j
  {
    a :| 0 <= a < |ks| && ks[a] == i;
    b :| 0 <= b < |ks| && ks[b] == j;
  }

  lemma {:induction false} NotSwapped(labeler: Result -> string, m: map<nat, Result>, ls: LS, i: nat, j: nat)
    requires Settled(labeler, m, ls) && Tidy(ls) && i < j && Full(m, j + 1) && labeler(m[i]) == labeler(m[j])
    ensures Millis(m[i].timestamp, m[0].timestamp) <= Millis(m[j].timestamp, m[0].timestamp)
  {
    var n, l := ls.seqno, labeler(m[i]);
    assert n !in m && j < n;
    assert l in Labels(labeler, m);
    InOrderEntries(labeler, m, n, l);
    var ks := Seqnos(labeler, m, n, l);
    var a, b := Positions(ks, i, j);
    assert ls.series[l][a].ms <= ls.series[l][b].ms;
  }

  /** The monotonicity error, exactly: whatever the order of arrival, some add fails if and only if
      two results of one label are out of order. */
  lemma {:induction false} RefusesIff(labeler: Result -> string, rs: seq<Result>)
    requires DistinctNumbers(rs)
    ensures Run(labeler, rs).err <==> OutOfOrder(labeler, Received(rs))
  {
    RunOutcome(labeler, rs);
    if !Run(labeler, rs).err { TidyIsInOrder(labeler, Received(rs), Run(labeler, rs).ls); }
  }

  lemma {:induction false} SortedIsInOrder(labeler: Result -> string, m: map<nat, Result>)
    requires Sorted(m)
    ensures !OutOfOrder(labeler, m)
  {
    forall i: nat, j: nat ensures !Swapped(labeler, m, i, j) {
      if i < j && Full(m, j + 1) {
        assert 0 in m && i in m && j in m;
        MillisMonotone(m[i].timestamp, m[j].timestamp, m[0].timestamp);
      }
    }
  }

  lemma {:induction false} LabelsExtend(labeler: Result -> string, m: map<nat, Result>, r: Result)
    requires r.seqno !in m
    ensures Labels(labeler, m[r.seqno := r]) == Labels(labeler, m) + {labeler(r)}
  {
    var m' := m[r.seqno := r];
    assert forall k :: k in m ==> m'[k] == m[k];
    assert m'[r.seqno] == r;
  }

  lemma {:induction false} InsertedSeries(
    labeler: Result -> string, m: map<nat, Result>, ls: LS, r: Result, l: string)
    requires Known(ls) && Settled(labeler, m, ls) && r.seqno !in m
    requires l in ls.series || l == labeler(r)
    ensures Full(m[r.seqno := r], ls.seqno)
    ensures WithPoint(labeler, ls, r).series[l] == InOrder(labeler, m[r.seqno := r], ls.seqno, l)
  {
    InOrderExtends(labeler, m, m[r.seqno := r], ls.seqno, l);
    if l !in ls.series { UnseenLabel(labeler, m, ls.seqno, l); }
  }

  lemma {:induction false} InsertedBuffer(labeler: Result -> string, m: map<nat, Result>, ls: LS, r: Result)
    requires Known(ls) && Settled(labeler, m, ls) && r.seqno !in m
    ensures var m', buf := m[r.seqno := r], WithPoint(labeler, ls, r).buf;
            && buf.Keys == Waiting(m', ls.seqno)
            && forall k :: k in buf ==> buf[k] == Pending(labeler(m'[k]), m'[k].timestamp, Value(m'[k]))
  {
    assert r.seqno >= ls.seqno;
  }

  lemma {:induction false} InsertHolds(labeler: Result -> string, m: map<nat, Result>, ls: LS, r: Result)
    requires Known(ls) && Settled(labeler, m, ls) && r.seqno !in m
    ensures Holds(labeler, m[r.seqno := r], WithPoint(labeler, ls, r))
  {
    var ls' := WithPoint(labeler, ls, r);
    InsertedBuffer(labeler, m, ls, r);
    LabelsExtend(labeler, m, r);
    assert ls'.series.Keys == ls.series.Keys + {labeler(r)};
    forall l | l in ls'.series ensures ls'.series[l] == InOrder(labeler, m[r.seqno := r], ls.seqno, l) {
      InsertedSeries(labeler, m, ls, r, l);
    }
  }

  /** A series only depends on the results it is made of. */
  lemma {:induction false} InOrderExtends(
    labeler: Result -> string, m: map<nat, Result>, m': map<nat, Result>, n: nat, l: string)
    requires Full(m, n) && Full(m', n) && forall k: nat :: k < n ==> m'[k] == m[k]
    ensures InOrder(labeler, m', n, l) == InOrder(labeler, m, n, l)
  {
    if n == 0 {
    } else {
      InOrderExtends(labeler, m, m', n - 1, l);
    }
  }

  lemma {:induction false} UnseenLabel(labeler: Result -> string, m: map<nat, Result>, n: nat, l: string)
    requires Full(m, n) && l !in Labels(labeler, m)
    ensures InOrder(labeler, m, n, l) == []
  {
    if n == 0 {
    } else {
      UnseenLabel(labeler, m, n - 1, l);
    }
  }

  lemma {:induction false} ReceivedSorted(rs: seq<Result>)
    requires OneAttack(rs)
    ensures Sorted(Received(rs))
  {
    var m := Received(rs);
    forall i, j | i in m && j in m && i < j ensures m[i].timestamp <= m[j].timestamp {
      var a :| 0 <= a < |rs| && rs[a] == m[i];
      var b :| 0 <= b < |rs| && rs[b] == m[j];
    }
  }

  lemma {:induction false} NewNumber(rs: seq<Result>, n: nat)
    requires forall i :: 0 <= i < |rs| ==> rs[i].seqno != n
    ensures n !in Received(rs)
  {
    if rs == [] {
    } else {
      NewNumber(rs[..|rs| - 1], n);
    }
  }

  /** One more result. */
  lemma {:induction false} NextNumber(rs: seq<Result>, init: seq<Result>, r: Result)
    requires DistinctNumbers(rs) && rs == init + [r]
    ensures DistinctNumbers(init) && r.seqno !in Received(init)
    ensures Received(rs) == Received(init)[r.seqno := r]
  {
    assert forall i :: 0 <= i < |init| ==> init[i] == rs[i];
    assert rs[|init|] == r && rs[..|rs| - 1] == init;
    NewNumber(init, r.seqno);
  }

  /** The reorder buffer: whatever the order of arrival, no add fails, seqno is the least number
      not yet received, the buffer holds exactly the larger ones received, and each series is its
      results in sequence order relative to result 0. */
  lemma {:induction false} ReorderBuffer(labeler: Result -> string, rs: seq<Result>)
    requires OneAttack(rs)
    ensures !Run(labeler, rs).err
    ensures Settled(labeler, Received(rs), Run(labeler, rs).ls)
  {
    ReceivedSorted(rs);
    SortedIsInOrder(labeler, Received(rs));
    RunOutcome(labeler, rs);
  }

  /** A settled state is a function of the results received. */
  lemma {:induction false} SettledIsUnique(labeler: Result -> string, m: map<nat, Result>, a: LS, b: LS)
    requires Settled(labeler, m, a) && Settled(labeler, m, b)
    ensures a == b
  {
    assert a.seqno == b.seqno;
    assert a.buf == b.buf;
    assert a.series == b.series;
  }

  lemma {:induction false} SameResultsReceived(rs: seq<Result>, rs': seq<Result>)
    requires OneAttack(rs) && OneAttack(rs') && multiset(rs) == multiset(rs')
    ensures Received(rs) == Received(rs')
  {
    var m, m' := Received(rs), Received(rs');
    forall k | k in m ensures k in m' && m'[k] == m[k] { Lookup(rs, rs', k); }
    forall k | k in m' ensures k in m { Lookup(rs', rs, k); }
    SameMap(m, m');
  }

  lemma {:induction false} SameMap(m: map<nat, Result>, m': map<nat, Result>)
    requires forall k :: k in m ==> k in m' && m'[k] == m[k]
    requires forall k :: k in m' ==> k in m
    ensures m == m'
  {
  }

  lemma {:induction false} Lookup(rs: seq<Result>, rs': seq<Result>, k: nat)
    requires OneAttack(rs') && multiset(rs) == multiset(rs') && k in Received(rs)
    ensures k in Received(rs') && Received(rs')[k] == Received(rs)[k]
  {
    var r := Received(rs)[k];
    assert r in multiset(rs');
    var i :| 0 <= i < |rs'| && rs'[i] == r;
    var r' := Received(rs')[k];
    var j :| 0 <= j < |rs'| && rs'[j] == r';
    assert i == j;
  }

  /** The plot does not depend on the order of arrival. */
  lemma {:induction false} OrderDoesNotMatter(labeler: Result -> string, rs: seq<Result>, rs': seq<Result>)
    requires OneAttack(rs) && OneAttack(rs') && multiset(rs) == multiset(rs')
    ensures Run(labeler, rs) == Run(labeler, rs')
  {
    ReorderBuffer(labeler, rs);
    ReorderBuffer(labeler, rs');
    SameResultsReceived(rs, rs');
    SettledIsUnique(labeler, Received(rs), Run(labeler, rs).ls, Run(labeler, rs').ls);
  }

  /** Once results 0..n-1 have all arrived and no others, nothing is left in the buffer. */
  lemma {:induction false} CompleteMeansDrained(labeler: Result -> string, rs: seq<Result>, n: nat)
    requires OneAttack(rs)
    requires forall k: nat :: k in Received(rs) <==> k < n
    ensures var ls := Run(labeler, rs).ls;
            && ls.seqno == n && ls.buf == map[]
            && forall l :: l in ls.series ==> ls.series[l] == InOrder(labeler, Received(rs), n, l)
  {
    ReorderBuffer(labeler, rs);
    var ls := Run(labeler, rs).ls;
    assert n !in Received(rs);
    assert ls.buf.Keys == {};
  }

  /** A series never goes back in time. */
  lemma {:induction false} InOrderMonotone(labeler: Result -> string, m: map<nat, Result>, n: nat, l: string)
    requires Full(m, n) && Sorted(m)
    ensures Monotone(InOrder(labeler, m, n, l))
  {
    if n == 0 {
    } else {
      InOrderMonotone(labeler, m, n - 1, l);
      NextIsNotEarlier(labeler, m, n - 1, l, n - 1);
    }
  }

  ghost predicate Monotone(es: seq<Entry>) {
    forall i, j :: 0 <= i < j < |es| ==> es[i].ms <= es[j].ms
  }

  // ------------------------------------------------------------------ the objects

  /** A time series; the compressed storage is a plain sequence here. */
  class TimeSeries {
    const attack: string
    const tag: string
    var prev: nat
    var data: seq<Entry>
    var len: nat

    predicate Valid() reads this { prev == Prev(data) && len == |data| }

    constructor (attack: string, tag: string)
      ensures Valid() && this.attack == attack && this.tag == tag && data == []
    {
      this.attack, this.tag, prev, data, len := attack, tag, 0, [], 0;
    }

    /** Refuses a timestamp before the previous one and otherwise appends. */
    method Add(t: nat, v: real) returns (err: bool)
      requires Valid()
      modifies this
      ensures Valid()
      ensures err == (Prev(old(data)) > t)
      ensures data == if err then old(data) else old(data) + [Entry(t, v)]
    {
      if prev > t {
        return true;
      }
      data := data + [Entry(t, v)];
      prev := t;
      len := len + 1;
      err := false;
    }
  }

  /** A buffered point refers to its series object. */
  datatype Buffered = Buffered(ts: TimeSeries, seqno: nat, t: int, v: real)

  class LabeledSeries {
    var began: int
    var seqno: nat
    var buf: map<nat, Buffered>
    var series: map<string, TimeSeries>
    const labeler: Result -> string

    ghost predicate Valid()
      reads this`series, this`buf, series.Values
    {
      && (forall l :: l in series ==> series[l].tag == l && series[l].Valid())
      && (forall k :: k in buf ==> buf[k].ts.tag in series && series[buf[k].ts.tag] == buf[k].ts)
    }

    ghost function Points(): (m: map<nat, Pending>)
      reads this`buf
    {
      map k | k in buf :: Pending(buf[k].ts.tag, buf[k].t, buf[k].v)
    }

    ghost function Lines(): (m: map<string, seq<Entry>>)
      reads this`series, series.Values
    {
      map l | l in series :: series[l].data
    }

    ghost function Model(): (ls: LS)
      requires Valid()
      reads this, series.Values
      ensures Known(ls)
    {
      LS(began, seqno, Points(), Lines())
    }

    constructor (labeler: Result -> string)
      ensures Valid() && this.labeler == labeler && Model() == EMPTY
    {
      this.labeler, began, seqno, buf, series := labeler, 0, 0, map[], map[];
    }

    /** Looks up or creates the series of r. */
    method SeriesOf(r: Result) returns (ts: TimeSeries)
      requires Valid()
      modifies this`series
      ensures Valid() && fresh(series.Values - old(series.Values))
      ensures ts.tag == labeler(r) && ts.tag in series && series[ts.tag] == ts
      ensures Lines() == if ts.tag in old(series) then old(Lines()) else old(Lines())[ts.tag := []]
    {
      var l := labeler(r);
      if l in series {
        ts := series[l];
      } else {
        ghost var before := Lines();
        ts := new TimeSeries(r.attack, l);
        series := series[l := ts];
        assert Lines() == before[l := []];
      }
    }

    /** Buffers a point of a known series. */
    method Put(ts: TimeSeries, n: nat, t: int, v: real)
      requires Valid() && ts.tag in series && series[ts.tag] == ts
      modifies this`buf
      ensures Valid()
      ensures Points() == old(Points())[n := Pending(ts.tag, t, v)]
    {
      ghost var before := Points();
      buf := buf[n := Buffered(ts, n, t, v)];
      assert Points() == before[n := Pending(ts.tag, t, v)];
    }

    /** Takes the point with number seqno out of the buffer. */
    method Take() returns (ts: TimeSeries, t: int, v: real)
      requires Valid() && seqno in buf
      modifies this`buf
      ensures Valid() && buf.Keys == old(buf.Keys) - {seqno}
      ensures ts.tag in series
      ensures Pending(ts.tag, t, v) == old(Points())[seqno]
      ensures Points() == old(Points()) - {seqno}
    {
      ghost var before := Points();
      var p := buf[seqno];
      ts, t, v := p.ts, p.t, p.v;
      buf := buf - {seqno};
      assert Points() == before - {seqno};
    }

    /** Buffers the point of r under its series. */
    method Buffer(r: Result)
      requires Valid()
      modifies this`series, this`buf
      ensures Valid() && fresh(series.Values - old(series.Values))
      ensures Points() == old(Points())[r.seqno := Pending(labeler(r), r.timestamp, Value(r))]
      ensures Lines() == if labeler(r) in old(series) then old(Lines()) else old(Lines())[labeler(r) := []]
    {
      var ts := SeriesOf(r);
      Put(ts, r.seqno, r.timestamp, Value(r));
    }

    method SetBegan(t: int)
      requires Valid()
      modifies this`began
      ensures Valid() && Model() == old(Model()).(began := t)
    {
      began := t;
    }

    method NextNumber()
      requires Valid()
      modifies this`seqno
      ensures Valid() && Model() == old(Model()).(seqno := old(seqno) + 1)
    {
      seqno := seqno + 1;
    }

    /** Buffers the point of r; result 0 sets the beginning. */
    method Insert(r: Result)
      requires Valid()
      modifies this`series, this`buf, this`began
      ensures Valid() && fresh(series.Values - old(series.Values))
      ensures Model() == WithPoint(labeler, old(Model()), r)
    {
      Buffer(r);
      if r.seqno == seqno && seqno == 0 {
        SetBegan(r.timestamp);
      }
    }

    /** Takes the next point from the buffer and appends it to its series. */
    method AppendNext() returns (err: bool)
      requires Valid() && seqno in Model().buf
      modifies this`buf, series.Values
      ensures Valid() && err == Late(old(Model()))
      ensures Model() == if err then Dropped(old(Model())) else Moved(old(Model())).(seqno := seqno)
    {
      ghost var m, p := Model(), Points()[seqno];
      var ts, t, v := Take();
      err := AppendTo(ts.tag, Millis(t, began), v);
      StepIs(m, p, err, Model().(seqno := if err then seqno else seqno + 1));
    }

    /** Moves the next point from the buffer to its series. */
    method Step() returns (err: bool)
      requires Valid() && seqno in Model().buf
      modifies this`buf, this`seqno, series.Values
      ensures Valid() && err == Late(old(Model()))
      ensures Model() == if err then Dropped(old(Model())) else Moved(old(Model()))
    {
      err := AppendNext();
      if !err {
        NextNumber();
      }
    }

    /** Appends to the series labelled l and to no other. */
    method AppendTo(l: string, t: nat, v: real) returns (err: bool)
      requires Valid() && l in series
      modifies series.Values
      ensures Valid() && Points() == old(Points())
      ensures err == (Prev(old(Lines())[l]) > t)
      ensures Lines() == if err then old(Lines()) else old(Lines())[l := old(Lines())[l] + [Entry(t, v)]]
    {
      ghost var before := Lines();
      err := series[l].Add(t, v);
      assert forall k :: k in series && k != l ==> series[k] != series[l];
      assert forall k :: k in series && k != l ==> series[k].data == before[k];
    }

    method Add(r: Result) returns (err: bool)
      requires Valid()
      modifies this, series.Values
      ensures Valid() && fresh(series.Values - old(series.Values))
      ensures Added(Model(), err) == AddResult(labeler, old(Model()), r)
    {
      var first := seqno;
      Insert(r);
      if r.seqno != first {
        return false;
      }
      ghost var target := Drain(Model());
      while |buf| > 0
        invariant Valid() && fresh(series.Values - old(series.Values))
        invariant Drain(Model()) == target
        decreases Model().buf.Keys
      {
        if seqno !in buf {
          break;
        }
        DrainStep(Model());
        err := Step();
        if err {
          return true;
        }
      }
      assert seqno !in buf;
      err := false;
    }
  }

  // ------------------------------------------------------------------ down to the chart

  /** What is drawn of an entry: its time in seconds and its value. */
  lemma {:induction false} PointShows(e: Entry)
    ensures ToPoint(e).x * 1000.0 == e.ms as real && ToPoint(e).y == e.v
  {
  }

  function ToPoint(e: Entry): L.Point { L.Point(e.ms as real / 1000.0, e.v) }

  function ToPoints(es: seq<Entry>): (ps: seq<L.Point>)
    ensures |ps| == |es| && forall i :: 0 <= i < |es| ==> ps[i] == ToPoint(es[i])
  {
    seq(|es|, i requires 0 <= i < |es| => ToPoint(es[i]))
  }

  /** What is drawn for a series. */
  function Drawn(es: seq<Entry>, threshold: int): (ps: seq<L.Point>)
    requires 3 <= threshold || threshold == 0 || threshold >= |es|
  {
    Shrunk(ToPoints(es), threshold)
  }

  function Shrunk(all: seq<L.Point>, threshold: int): (ps: seq<L.Point>)
    requires 3 <= threshold || threshold == 0 || threshold >= |all|
    ensures |ps| == if threshold == 0 then |all| else Min(threshold, |all|)
  {
    if L.Shrinks(|all|, threshold) then L.Samples(all, threshold, threshold) else all
  }

  ghost predicate InTime(ps: seq<L.Point>) {
    forall i, j :: 0 <= i < j < |ps| ==> ps[i].x <= ps[j].x
  }

  lemma {:induction false} ToPointsInTime(es: seq<Entry>)
    requires Monotone(es)
    ensures InTime(ToPoints(es))
  {
    var ps := ToPoints(es);
    forall i, j | 0 <= i < j < |ps| ensures ps[i].x <= ps[j].x {
      assert ps[i] == ToPoint(es[i]) && ps[j] == ToPoint(es[j]);
    }
  }

  lemma {:induction false} SamplesInTime(all: seq<L.Point>, threshold: int)
    requires L.Shrinks(|all|, threshold) && InTime(all)
    ensures InTime(L.Samples(all, threshold, threshold))
  {
    var ps := L.Samples(all, threshold, threshold);
    forall i, j | 0 <= i < j < |ps| ensures ps[i].x <= ps[j].x {
      L.ChosenIncreases(all, threshold, i, j);
    }
  }

  lemma {:induction false} SamplesKeepEnds(all: seq<L.Point>, threshold: int)
    requires L.Shrinks(|all|, threshold)
    ensures SameEnds(L.Samples(all, threshold, threshold), all)
  {
  }

  ghost predicate SameEnds(ps: seq<L.Point>, all: seq<L.Point>) {
    |all| > 0 ==> |ps| > 0 && ps[0] == all[0] && ps[|ps| - 1] == all[|all| - 1]
  }

  lemma {:induction false} ShrunkInTime(all: seq<L.Point>, threshold: int)
    requires 3 <= threshold || threshold == 0 || threshold >= |all|
    requires InTime(all)
    ensures InTime(Shrunk(all, threshold))
  {
    if L.Shrinks(|all|, threshold) { SamplesInTime(all, threshold); }
  }

  lemma {:induction false} ShrunkKeepsEnds(all: seq<L.Point>, threshold: int)
    requires 3 <= threshold || threshold == 0 || threshold >= |all|
    ensures SameEnds(Shrunk(all, threshold), all)
  {
    if L.Shrinks(|all|, threshold) { SamplesKeepEnds(all, threshold); }
  }

  /** Downsampling keeps the order of time, the first and the last point, and exactly as many
      points as asked for. */
  lemma {:induction false} DrawnInOrder(es: seq<Entry>, threshold: int)
    requires 3 <= threshold || threshold == 0 || threshold >= |es|
    requires Monotone(es)
    ensures var ps := Drawn(es, threshold);
            && |ps| == (if threshold == 0 then |es| else Min(threshold, |es|))
            && InTime(ps) && SameEnds(ps, ToPoints(es))
  {
    ToPointsInTime(es);
    ShrunkInTime(ToPoints(es), threshold);
    ShrunkKeepsEnds(ToPoints(es), threshold);
  }

  /** The points drawn for one series. */
  method Downsampled(ts: TimeSeries, threshold: int) returns (r: L.Downsampled)
    requires ts.Valid()
    ensures r == if 3 <= threshold || threshold == 0 || threshold >= |ts.data|
                 then L.Points(Drawn(ts.data, threshold)) else L.MinThreshold
  {
    var it := new L.Iter(ToPoints(ts.data), false);
    r := L.Downsample(ts.len, threshold, it);
  }
}
