/** lib/metrics.go: streaming summaries of the results of an attack. Instants are nanoseconds since
    Go's zero time. Durations are int64 and wrap around; counters are unbounded. */
module Metrics {
  import opened GoInt
  import opened Result

  // ------------------------------------------------------------------ the folds

  /** The running minimum of Latencies.Min and Earliest, where 0 stands for "not set". */
  function RunningMin(xs: seq<int>): int {
    if xs == [] then 0
    else
      var m, x := RunningMin(xs[..|xs| - 1]), xs[|xs| - 1];
      if x < m || m == 0 then x else m
  }

  /** The running maximum of Latencies.Max, Latest and End, which starts at 0. */
  function RunningMax(xs: seq<int>): int {
    if xs == [] then 0
    else
      var m, x := RunningMax(xs[..|xs| - 1]), xs[|xs| - 1];
      if x > m then x else m
  }

  ghost predicate IsMin(xs: seq<int>, m: int) { m in xs && forall x :: x in xs ==> m <= x }

  ghost predicate IsMax(xs: seq<int>, m: int) { m in xs && forall x :: x in xs ==> x <= m }

  /** What the running minimum is, case by case. */
  lemma {:induction false} RunningMinCases(xs: seq<int>)
    requires xs != []
    ensures RunningMin(xs) in xs
    ensures (exists x :: x in xs && x < 0) ==> RunningMin(xs) < 0 && IsMin(xs, RunningMin(xs))
    ensures (forall x :: x in xs ==> x > 0) ==> RunningMin(xs) > 0 && IsMin(xs, RunningMin(xs))
    ensures (forall x :: x in xs ==> x >= 0) ==> RunningMin(xs) >= 0
    ensures (forall x :: x in xs ==> x >= 0) && xs[|xs| - 1] == 0 ==> RunningMin(xs) == 0
    ensures (forall x :: x in xs ==> x >= 0) && xs[|xs| - 1] > 0 ==> RunningMin(xs) > 0
  {
    var init, last := xs[..|xs| - 1], xs[|xs| - 1];
    assert xs == init + [last];
    assert last in xs;
    assert forall x :: x in init ==> x in xs;
    if init == [] {
    } else {
      RunningMinCases(init);
    }
  }

  /** The running minimum is the minimum if and only if something is negative, or nothing is zero,
      or the last value is. */
  lemma {:induction false} RunningMinExact(xs: seq<int>)
    requires xs != []
    ensures IsMin(xs, RunningMin(xs)) <==>
            (exists x :: x in xs && x < 0) || 0 !in xs || xs[|xs| - 1] == 0
  {
    RunningMinCases(xs);
    assert xs[|xs| - 1] in xs;
  }

  /** A zero latency is forgotten as soon as another one arrives. */
  lemma {:induction false} RunningMinForgetsZero()
    ensures !IsMin([0, 5], RunningMin([0, 5]))
  {
    assert [0, 5][..1] == [0] && [0][..0] == [];
    assert RunningMin([0]) == 0;
    assert 0 in [0, 5];
  }

  /** The running maximum is the maximum if and only if some value is not negative. */
  lemma {:induction false} RunningMaxIs(xs: seq<int>)
    ensures RunningMax(xs) >= 0 && (forall x :: x in xs ==> x <= RunningMax(xs))
    ensures RunningMax(xs) == 0 || RunningMax(xs) in xs
    ensures (exists x :: x in xs && x >= 0) <==> IsMax(xs, RunningMax(xs))
  {
    if xs == [] {
    } else {
      var init, last := xs[..|xs| - 1], xs[|xs| - 1];
      assert xs == init + [last];
      RunningMaxIs(init);
    }
  }

  function Sum(rs: seq<Result>, f: Result -> int): int {
    if rs == [] then 0 else Sum(rs[..|rs| - 1], f) + f(rs[|rs| - 1])
  }

  function Map(rs: seq<Result>, f: Result -> int): (xs: seq<int>)
    ensures |xs| == |rs| && forall i :: 0 <= i < |rs| ==> xs[i] == f(rs[i])
  {
    seq(|rs|, i requires 0 <= i < |rs| => f(rs[i]))
  }

  function Latency(r: Result): int { r.latency }
  function Timestamp(r: Result): int { r.timestamp }
  function Ended(r: Result): int { r.End() }
  function BytesIn(r: Result): int { r.bytesIn }
  function BytesOut(r: Result): int { r.bytesOut }
  function Succeeded(r: Result): int { if 200 <= r.code < 400 then 1 else 0 }
  function HasCode(code: nat): Result -> int { (r: Result) => if r.code == code then 1 else 0 }

  // ------------------------------------------------------------------ order does not matter

  lemma {:induction false} SumConcat(a: seq<Result>, b: seq<Result>, f: Result -> int)
    ensures Sum(a + b, f) == Sum(a, f) + Sum(b, f)
  {
    if b == [] {
      assert a + b == a;
    } else {
      assert (a + b)[..|a + b| - 1] == a + b[..|b| - 1];
      SumConcat(a, b[..|b| - 1], f);
    }
  }

  /** A sum without its element at i. */
  lemma {:induction false} SumWithout(rs: seq<Result>, i: nat, f: Result -> int)
    requires i < |rs|
    ensures Sum(rs, f) == Sum(rs[..i] + rs[i + 1..], f) + f(rs[i])
  {
    var a, r, b := rs[..i], rs[i], rs[i + 1..];
    assert rs == a + ([r] + b);
    SumConcat(a, [r] + b, f);
    SumConcat([r], b, f);
    SumConcat(a, b, f);
    assert [r][..0] == [];
  }

  lemma {:induction false} MultisetWithout(rs: seq<Result>, i: nat)
    requires i < |rs|
    ensures multiset(rs[..i] + rs[i + 1..]) == multiset(rs) - multiset{rs[i]}
  {
    assert rs == rs[..i] + [rs[i]] + rs[i + 1..];
  }

  /** A sum is over the multiset of results. */
  lemma {:induction false} SumOfMultiset(rs: seq<Result>, rs': seq<Result>, f: Result -> int)
    requires multiset(rs) == multiset(rs')
    ensures Sum(rs, f) == Sum(rs', f)
    decreases |rs|
  {
    if rs == [] {
      assert |multiset(rs)| == |multiset(rs')|;
    } else {
      var last := |rs| - 1;
      assert rs[last] in multiset(rs');
      var i :| 0 <= i < |rs'| && rs'[i] == rs[last];
      MultisetWithout(rs, last);
      MultisetWithout(rs', i);
      assert rs[..last] + rs[last + 1..] == rs[..last];
      SumOfMultiset(rs[..last], rs'[..i] + rs'[i + 1..], f);
      SumWithout(rs', i, f);
    }
  }

  lemma {:induction false} SameElements(rs: seq<Result>, rs': seq<Result>, f: Result -> int)
    requires multiset(rs) == multiset(rs')
    ensures forall r :: r in rs <==> r in rs'
    ensures forall x :: x in Map(rs, f) <==> x in Map(rs', f)
  {
    forall r ensures r in rs <==> r in rs' { assert r in multiset(rs) <==> r in multiset(rs'); }
    forall x | x in Map(rs, f) ensures x in Map(rs', f) { MapKeeps(rs, rs', f, x); }
    forall x | x in Map(rs', f) ensures x in Map(rs, f) { MapKeeps(rs', rs, f, x); }
  }

  lemma {:induction false} MapKeeps(rs: seq<Result>, rs': seq<Result>, f: Result -> int, x: int)
    requires x in Map(rs, f) && forall r :: r in rs ==> r in rs'
    ensures x in Map(rs', f)
  {
    var i :| 0 <= i < |rs| && f(rs[i]) == x;
    assert rs[i] in rs';
    var j :| 0 <= j < |rs'| && rs'[j] == rs[i];
    assert Map(rs', f)[j] == x;
  }

  lemma {:induction false} MaxOfMultiset(rs: seq<Result>, rs': seq<Result>, f: Result -> int)
    requires multiset(rs) == multiset(rs')
    ensures RunningMax(Map(rs, f)) == RunningMax(Map(rs', f))
  {
    SameElements(rs, rs', f);
    RunningMaxIs(Map(rs, f));
    RunningMaxIs(Map(rs', f));
  }

  /** The running minimum is over the multiset if no value is zero. */
  lemma {:induction false} MinOfMultiset(rs: seq<Result>, rs': seq<Result>, f: Result -> int)
    requires multiset(rs) == multiset(rs') && 0 !in Map(rs, f)
    ensures RunningMin(Map(rs, f)) == RunningMin(Map(rs', f))
  {
    SameElements(rs, rs', f);
    assert |multiset(rs)| == |multiset(rs')|;
    if rs != [] {
      RunningMinExact(Map(rs, f));
      RunningMinExact(Map(rs', f));
    }
  }

  // ------------------------------------------------------------------ consistency

  lemma {:induction false} SuccessesBounded(rs: seq<Result>)
    ensures 0 <= Sum(rs, Succeeded) <= |rs|
  {
    if rs == [] {
    } else {
      SuccessesBounded(rs[..|rs| - 1]);
    }
  }

  // ------------------------------------------------------------------ the summary

  datatype Latencies = Latencies(total: int, max: int, min: int)

  datatype Counters = Counters(
    requests: nat, success: nat, bytesIn: nat, bytesOut: nat, statusCodes: map<nat, nat>)

  datatype Span = Span(earliest: int, latest: int, end: int)

  datatype Summary = Summary(counters: Counters, span: Span, errors: seq<string>, latencies: Latencies)

  const NOTHING: Summary :=
    Summary(Counters(0, 0, 0, 0, map[]), Span(0, 0, 0), [], Latencies(0, 0, 0))

  function AddLatency(l: Latencies, latency: int): Latencies {
    Latencies(Int64(l.total + latency), if latency > l.max then latency else l.max,
              if latency < l.min || l.min == 0 then latency else l.min)
  }

  /** A new error goes to the end of the list. */
  function NoteError(es: seq<string>, e: string): seq<string> {
    if e == "" || e in es then es else es + [e]
  }

  lemma {:induction false} NotedErrors(es: seq<string>, e: string)
    requires forall i, j :: 0 <= i < j < |es| ==> es[i] != es[j]
    ensures forall x :: x in NoteError(es, e) <==> x in es || (x == e && e != "")
    ensures forall i, j :: 0 <= i < j < |NoteError(es, e)| ==> NoteError(es, e)[i] != NoteError(es, e)[j]
  {
  }

  function AddCounts(c: Counters, r: Result): Counters {
    Counters(
      c.requests + 1, if 200 <= r.code < 400 then c.success + 1 else c.success,
      c.bytesIn + r.bytesIn, c.bytesOut + r.bytesOut,
      c.statusCodes[r.code := (if r.code in c.statusCodes then c.statusCodes[r.code] else 0) + 1])
  }

  function AddSpan(s: Span, r: Result): Span {
    Span(
      if s.earliest == 0 || s.earliest > r.timestamp then r.timestamp else s.earliest,
      if r.timestamp > s.latest then r.timestamp else s.latest,
      if r.End() > s.end then r.End() else s.end)
  }

  function AddResult(s: Summary, r: Result): Summary {
    Summary(AddCounts(s.counters, r), AddSpan(s.span, r), NoteError(s.errors, r.error),
            AddLatency(s.latencies, r.latency))
  }

  function Summarize(rs: seq<Result>): Summary {
    if rs == [] then NOTHING else AddResult(Summarize(rs[..|rs| - 1]), rs[|rs| - 1])
  }

  lemma {:induction false} Summarized(rs: seq<Result>, r: Result)
    ensures Summarize(rs + [r]) == AddResult(Summarize(rs), r)
  {
    assert (rs + [r])[..|rs|] == rs;
  }

  lemma {:induction false} MapSnoc(rs: seq<Result>, r: Result, f: Result -> int)
    ensures Map(rs + [r], f) == Map(rs, f) + [f(r)]
    ensures Map(rs + [r], f)[..|rs|] == Map(rs, f)
  {
  }

  lemma {:induction false} CountersAreSums(rs: seq<Result>)
    ensures var c := Summarize(rs).counters;
            && c.requests == |rs| && c.success == Sum(rs, Succeeded)
            && c.bytesIn == Sum(rs, BytesIn) && c.bytesOut == Sum(rs, BytesOut)
  {
    if rs == [] {
    } else {
      CountersAreSums(rs[..|rs| - 1]);
    }
  }

  lemma {:induction false} SpanIsExtreme(rs: seq<Result>)
    ensures Summarize(rs).span ==
            Span(RunningMin(Map(rs, Timestamp)), RunningMax(Map(rs, Timestamp)), RunningMax(Map(rs, Ended)))
  {
    if rs == [] {
    } else {
      var init, r := rs[..|rs| - 1], rs[|rs| - 1];
      assert rs == init + [r];
      SpanIsExtreme(init);
      MapSnoc(init, r, Timestamp);
      MapSnoc(init, r, Ended);
    }
  }

  lemma {:induction false} LatenciesAre(rs: seq<Result>)
    ensures Summarize(rs).latencies ==
            Latencies(Int64(Sum(rs, Latency)), RunningMax(Map(rs, Latency)), RunningMin(Map(rs, Latency)))
  {
    if rs == [] {
    } else {
      var init, r := rs[..|rs| - 1], rs[|rs| - 1];
      assert rs == init + [r];
      LatenciesAre(init);
      MapSnoc(init, r, Latency);
      Int64Add(Sum(init, Latency), r.latency);
    }
  }

  /** Streaming agrees with the definitions over the whole result set. */
  lemma {:induction false} SummaryIsDefinition(rs: seq<Result>)
    ensures var s := Summarize(rs);
            && s.counters.requests == |rs| && s.counters.success == Sum(rs, Succeeded)
            && s.counters.bytesIn == Sum(rs, BytesIn) && s.counters.bytesOut == Sum(rs, BytesOut)
            && s.span.earliest == RunningMin(Map(rs, Timestamp))
            && s.span.latest == RunningMax(Map(rs, Timestamp)) && s.span.end == RunningMax(Map(rs, Ended))
            && s.latencies.total == Int64(Sum(rs, Latency))
            && s.latencies.max == RunningMax(Map(rs, Latency))
            && s.latencies.min == RunningMin(Map(rs, Latency))
  {
    CountersAreSums(rs);
    SpanIsExtreme(rs);
    LatenciesAre(rs);
  }

  /** The distinct errors of the results. */
  lemma {:induction false} ErrorsAreDistinct(rs: seq<Result>)
    ensures forall e :: e in Summarize(rs).errors <==> e != "" && HasError(rs, e)
    ensures forall i, j :: 0 <= i < j < |Summarize(rs).errors| ==>
              Summarize(rs).errors[i] != Summarize(rs).errors[j]
  {
    if rs == [] {
    } else {
      var init, r := rs[..|rs| - 1], rs[|rs| - 1];
      ErrorsAreDistinct(init);
      NotedErrors(Summarize(init).errors, r.error);
      forall e ensures HasError(rs, e) <==> HasError(init, e) || r.error == e {
        assert rs == init + [r];
        if HasError(init, e) {
          var i :| 0 <= i < |init| && init[i].error == e;
          assert rs[i].error == e;
        }
        assert rs[|rs| - 1] == r;
      }
    }
  }

  /** The list is in the order in which the errors first occurred: more results only append. */
  lemma {:induction false} ErrorsKeepTheirPlace(rs: seq<Result>, more: seq<Result>)
    ensures Summarize(rs).errors <= Summarize(rs + more).errors
  {
    if more == [] {
      assert rs + more == rs;
    } else {
      var init, r := more[..|more| - 1], more[|more| - 1];
      ErrorsKeepTheirPlace(rs, init);
      ErrorsAppend(rs + init, r);
      assert rs + more == rs + init + [r];
    }
  }

  lemma {:induction false} ErrorsAppend(rs: seq<Result>, r: Result)
    ensures Summarize(rs).errors <= Summarize(rs + [r]).errors
  {
    Summarized(rs, r);
  }

  ghost predicate HasError(rs: seq<Result>, e: string) {
    exists i :: 0 <= i < |rs| && rs[i].error == e
  }

  lemma {:induction false} SameErrors(rs: seq<Result>, rs': seq<Result>, e: string)
    requires multiset(rs) == multiset(rs') && HasError(rs, e)
    ensures HasError(rs', e)
  {
    var i :| 0 <= i < |rs| && rs[i].error == e;
    assert rs[i] in multiset(rs');
  }

  /** The status codes are those of the results, each with the number of results that have it. */
  lemma {:induction false} CodesAreCounted(rs: seq<Result>)
    ensures var m := Summarize(rs).counters.statusCodes;
            && (forall c :: c in m <==> exists r :: r in rs && r.code == c)
            && (forall c :: c in m ==> m[c] == Sum(rs, HasCode(c)))
            && (forall c :: c !in m ==> Sum(rs, HasCode(c)) == 0)
  {
    if rs == [] {
    } else {
      var init, r := rs[..|rs| - 1], rs[|rs| - 1];
      assert rs == init + [r];
      CodesAreCounted(init);
    }
  }

  /** The sum of the values of a map. */
  ghost function SumValues(m: map<nat, nat>): nat {
    if m == map[] then 0
    else
      var k :| k in m;
      m[k] + SumValues(m - {k})
  }

  lemma {:induction false} SumValuesTakes(m: map<nat, nat>, k: nat)
    requires k in m
    ensures SumValues(m) == m[k] + SumValues(m - {k})
    decreases |m|
  {
    var j :| j in m && SumValues(m) == m[j] + SumValues(m - {j});
    if j != k {
      var less := m - {j};
      assert less.Keys == m.Keys - {j};
      SumValuesTakes(less, k);
      SumValuesTakes(m - {k}, j);
      assert less - {k} == m - {k} - {j};
    }
  }

  lemma {:induction false} SumValuesUpdate(m: map<nat, nat>, k: nat, v: nat)
    ensures SumValues(m[k := v]) == SumValues(m) + v - (if k in m then m[k] else 0)
  {
    SumValuesTakes(m[k := v], k);
    assert m[k := v] - {k} == m - {k};
    if k in m {
      SumValuesTakes(m, k);
    } else {
      assert m - {k} == m;
    }
  }

  /** The counts in the map of status codes sum to the number of requests. */
  lemma {:induction false} CodesSumToRequests(rs: seq<Result>)
    ensures SumValues(Summarize(rs).counters.statusCodes) == |rs|
  {
    if rs == [] {
    } else {
      var init, r := rs[..|rs| - 1], rs[|rs| - 1];
      CodesSumToRequests(init);
      var m := Summarize(init).counters.statusCodes;
      SumValuesUpdate(m, r.code, (if r.code in m then m[r.code] else 0) + 1);
    }
  }

  /** The summary is of the multiset of results: only the order of the error list, and the minima
      if some value is zero, depend on the order of arrival. */
  lemma {:induction false} OrderDoesNotMatter(rs: seq<Result>, rs': seq<Result>)
    requires multiset(rs) == multiset(rs')
    ensures var s, s' := Summarize(rs), Summarize(rs');
            && s'.counters.requests == s.counters.requests && s'.counters.success == s.counters.success
            && s'.counters.bytesIn == s.counters.bytesIn && s'.counters.bytesOut == s.counters.bytesOut
            && s'.span.latest == s.span.latest && s'.span.end == s.span.end
            && (0 !in Map(rs, Timestamp) ==> s'.span.earliest == s.span.earliest)
            && s'.latencies.total == s.latencies.total && s'.latencies.max == s.latencies.max
            && (0 !in Map(rs, Latency) ==> s'.latencies.min == s.latencies.min)
  {
    assert |multiset(rs)| == |multiset(rs')|;
    SummaryIsDefinition(rs);
    SummaryIsDefinition(rs');
    SumOfMultiset(rs, rs', Succeeded);
    SumOfMultiset(rs, rs', BytesIn);
    SumOfMultiset(rs, rs', BytesOut);
    SumOfMultiset(rs, rs', Latency);
    MaxOfMultiset(rs, rs', Timestamp);
    MaxOfMultiset(rs, rs', Ended);
    MaxOfMultiset(rs, rs', Latency);
    if 0 !in Map(rs, Timestamp) { MinOfMultiset(rs, rs', Timestamp); }
    if 0 !in Map(rs, Latency) { MinOfMultiset(rs, rs', Latency); }
  }

  lemma {:induction false} CodesOrderDoesNotMatter(rs: seq<Result>, rs': seq<Result>)
    requires multiset(rs) == multiset(rs')
    ensures Summarize(rs').counters.statusCodes == Summarize(rs).counters.statusCodes
    ensures forall e :: e in Summarize(rs').errors <==> e in Summarize(rs).errors
  {
    SameCodes(rs, rs');
    ErrorsAreDistinct(rs);
    ErrorsAreDistinct(rs');
    forall e ensures HasError(rs, e) <==> HasError(rs', e) {
      if HasError(rs, e) { SameErrors(rs, rs', e); }
      if HasError(rs', e) { SameErrors(rs', rs, e); }
    }
  }

  lemma {:induction false} SameCodes(rs: seq<Result>, rs': seq<Result>)
    requires multiset(rs) == multiset(rs')
    ensures Summarize(rs').counters.statusCodes == Summarize(rs).counters.statusCodes
  {
    CodesAreCounted(rs);
    CodesAreCounted(rs');
    SameElements(rs, rs', Latency);
    var m, m' := Summarize(rs).counters.statusCodes, Summarize(rs').counters.statusCodes;
    assert m'.Keys == m.Keys;
    forall c | c in m ensures m'[c] == m[c] { SumOfMultiset(rs, rs', HasCode(c)); }
  }

  // ------------------------------------------------------------------ the report

  datatype Report = Report(
    rate: real, throughput: real, duration: int, wait: int, success: real,
    bytesInMean: real, bytesOutMean: real, latencyMean: int)

  function Seconds(d: int): real { d as real / 1000000000.0 }

  /** What Close computes from the summary. */
  function ReportOf(s: Summary): Report
    requires s.counters.requests > 0
  {
    var n, ok := s.counters.requests as real, s.counters.success as real;
    var duration, wait := Sub(s.span.latest, s.span.earliest), Sub(s.span.end, s.span.latest);
    var timed := Seconds(duration) > 0.0;
    Report(
      if timed then n / Seconds(duration) else n,
      if timed && Int64(duration + wait) != 0 then ok / Seconds(Int64(duration + wait)) else ok,
      duration, wait, ok / n,
      s.counters.bytesIn as real / n, s.counters.bytesOut as real / n, Quo(s.latencies.total, s.counters.requests))
  }

  lemma {:induction false} EndsAfterLatest(rs: seq<Result>)
    requires forall r :: r in rs ==> r.latency >= 0
    ensures RunningMax(Map(rs, Ended)) >= RunningMax(Map(rs, Timestamp))
  {
    var ts, es := Map(rs, Timestamp), Map(rs, Ended);
    RunningMaxIs(ts);
    RunningMaxIs(es);
    if RunningMax(ts) in ts {
      var i :| 0 <= i < |ts| && ts[i] == RunningMax(ts);
      assert rs[i] in rs && es[i] in es;
    }
  }

  lemma {:induction false} Ratio(a: real, b: real, d: real, w: real)
    requires 0.0 <= a <= b && 0.0 < d && 0.0 <= w
    ensures a / (d + w) <= b / d
  {
    var y := b / d;
    Product(y, w);
    assert y * (d + w) == y * d + y * w;
    QuotientAtMost(a, y, d + w);
  }

  lemma {:induction false} Product(y: real, w: real)
    requires y >= 0.0 && w >= 0.0
    ensures y * w >= 0.0
  {
  }

  lemma {:induction false} QuotientAtMost(a: real, y: real, e: real)
    requires a <= y * e && e > 0.0
    ensures a / e <= y
  {
    var x := a / e;
    if x > y {
      Larger(x, y, e);
      assert false;
    }
  }

  lemma {:induction false} Larger(x: real, y: real, d: real)
    requires x > y && d > 0.0
    ensures x * d > y * d
  {
    assert (x - y) * d > 0.0;
  }

  lemma {:induction false} SpanMakesSense(rs: seq<Result>)
    requires rs != [] && forall r :: r in rs ==> r.latency >= 0
    ensures var s := Summarize(rs).span; s.earliest <= s.latest <= s.end
  {
    SummaryIsDefinition(rs);
    EndsAfterLatest(rs);
    RunningMaxIs(Map(rs, Timestamp));
    RunningMinCases(Map(rs, Timestamp));
  }

  /** The reported figures make sense whenever no latency is negative, except that the throughput
      lies between 0 and the rate if and only if the time from the first request to the last
      response fits an int64, or there is no such time or no success to divide. */
  lemma {:induction false} ReportMakesSense(rs: seq<Result>)
    requires rs != [] && forall r :: r in rs ==> r.latency >= 0
    ensures Summarize(rs).counters.requests > 0
    ensures var m := ReportOf(Summarize(rs));
            && 0.0 <= m.success <= 1.0 && m.duration >= 0 && m.wait >= 0
            && (0.0 <= m.throughput <= m.rate <==>
                  m.duration + m.wait <= MAX_INT64 || m.duration == 0 || Sum(rs, Succeeded) == 0)
  {
    CountersAreSums(rs);
    SuccessesBounded(rs);
    SpanMakesSense(rs);
    SensibleReport(Summarize(rs));
  }

  lemma {:induction false} SensibleReport(s: Summary)
    requires s.counters.success <= s.counters.requests && s.counters.requests > 0
    requires s.span.earliest <= s.span.latest <= s.span.end
    ensures var m := ReportOf(s);
            && 0.0 <= m.success <= 1.0 && m.duration >= 0 && m.wait >= 0
            && (0.0 <= m.throughput <= m.rate <==>
                  m.duration + m.wait <= MAX_INT64 || m.duration == 0 || s.counters.success == 0)
  {
    var ok, n := s.counters.success as real, s.counters.requests as real;
    var duration, wait := Sub(s.span.latest, s.span.earliest), Sub(s.span.end, s.span.latest);
    if duration + wait <= MAX_INT64 {
      RatesMakeSense(ok, n, duration, wait);
    } else {
      Fraction(ok, n, 1.0);
      WrappedRates(ok, n, duration, wait);
    }
  }

  lemma {:induction false} WrappedSum(duration: int, wait: int)
    requires 0 <= duration <= MAX_INT64 && 0 <= wait <= MAX_INT64 && duration + wait > MAX_INT64
    ensures Int64(duration + wait) < 0
  {
  }

  /** Beyond an int64 the sum of the two durations is negative, and so is the throughput. */
  lemma {:induction false} WrappedRates(ok: real, n: real, duration: int, wait: int)
    requires 0.0 <= ok <= n && n > 0.0
    requires 0 <= duration <= MAX_INT64 && 0 <= wait <= MAX_INT64 && duration + wait > MAX_INT64
    ensures Int64(duration + wait) < 0
    ensures ok > 0.0 ==> ok / Seconds(Int64(duration + wait)) < 0.0
    ensures ok == 0.0 ==> ok / Seconds(Int64(duration + wait)) == 0.0
    ensures duration > 0 ==> n / Seconds(duration) > 0.0
  {
    WrappedSum(duration, wait);
    var sum := Int64(duration + wait);
    NegativeQuotient(ok, Seconds(sum));
    if duration > 0 { PositiveQuotient(n, Seconds(duration)); }
  }

  lemma {:induction false} NegativeQuotient(a: real, d: real)
    requires a >= 0.0 && d < 0.0
    ensures a > 0.0 ==> a / d < 0.0
    ensures a == 0.0 ==> a / d == 0.0
  {
    var x := a / d;
    assert x * d == a;
    if x >= 0.0 { Product(x, -d); }
  }

  lemma {:induction false} PositiveQuotient(a: real, d: real)
    requires a > 0.0 && d > 0.0
    ensures a / d > 0.0
  {
    var x := a / d;
    assert x * d == a;
    if x <= 0.0 { Product(-x, d); }
  }

  /** Two successful requests, 256 years apart, the second of which takes as long again: the
      throughput is negative. */
  lemma {:induction false} ThroughputCanBeNegative()
    ensures var far := 0x7000_0000_0000_0000;
            var rs := [Result("", 0, 200, 1, 0, 0, 0, ""), Result("", 1, 200, 1 + far, far, 0, 0, "")];
            Summarize(rs).counters.requests == 2 && ReportOf(Summarize(rs)).throughput < 0.0
  {
    var far := 0x7000_0000_0000_0000;
    var r0, r1 := Result("", 0, 200, 1, 0, 0, 0, ""), Result("", 1, 200, 1 + far, far, 0, 0, "");
    SummaryOfTwo(r0, r1);
    TooLong(Summarize([r0, r1]));
  }

  lemma {:induction false} SummaryOfTwo(r0: Result, r1: Result)
    ensures Summarize([r0, r1]) == AddResult(AddResult(NOTHING, r0), r1)
  {
    assert [r0, r1][..1] == [r0] && [r0][..0] == [];
    assert Summarize([r0]) == AddResult(NOTHING, r0);
  }

  lemma {:induction false} TooLong(s: Summary)
    requires 0 < s.counters.success <= s.counters.requests
    requires s.span.earliest < s.span.latest <= s.span.end
    requires Sub(s.span.latest, s.span.earliest) + Sub(s.span.end, s.span.latest) > MAX_INT64
    ensures ReportOf(s).throughput < 0.0
  {
    WrappedRates(s.counters.success as real, s.counters.requests as real,
                 Sub(s.span.latest, s.span.earliest), Sub(s.span.end, s.span.latest));
  }

  lemma {:induction false} SameMin(xs: seq<int>, m: int)
    requires IsMin(xs, m) && m > 0
    ensures RunningMin(xs) == m
  {
    RunningMinExact(xs);
  }

  lemma {:induction false} SameMax(xs: seq<int>, m: int)
    requires IsMax(xs, m) && m >= 0
    ensures RunningMax(xs) == m
  {
    RunningMaxIs(xs);
  }

  /** m reports n requests sent within `sent` nanoseconds, ok of them successful and the last one
      answered `waited` nanoseconds later, and their means. Rates are per second; without a
      duration, as for a single result, they are plain counts. */
  ghost predicate Reports(
    m: Report, n: nat, ok: int, sent: int, waited: int, bytesIn: int, bytesOut: int, total: int)
    requires n > 0
  {
    && m.duration == sent && m.wait == waited
    && (if sent > 0
        then m.rate * sent as real == n as real * 1000000000.0 &&
             m.throughput * (sent + waited) as real == ok as real * 1000000000.0
        else m.rate == n as real && m.throughput == ok as real)
    && m.success * n as real == ok as real
    && m.bytesInMean * n as real == bytesIn as real && m.bytesOutMean * n as real == bytesOut as real
    && (0 <= total <= MAX_INT64 ==> m.latencyMean == total / n)
  }

  lemma {:induction false} PerSecond(x: real, d: int)
    requires d > 0
    ensures Seconds(d) > 0.0 && x / Seconds(d) * d as real == x * 1000000000.0
  {
    var q := x / Seconds(d);
    assert q * Seconds(d) == x;
    assert q * (d as real / 1000000000.0) == q * d as real / 1000000000.0;
  }

  lemma {:induction false} Undivided(x: real, n: real)
    requires n > 0.0
    ensures x / n * n == x
  {
  }

  lemma {:induction false} RatesAre(s: Summary)
    requires s.counters.requests > 0
    requires s.span.earliest <= s.span.latest <= s.span.end <= s.span.earliest + MAX_INT64
    ensures var m, sent, whole := ReportOf(s), s.span.latest - s.span.earliest, s.span.end - s.span.earliest;
            && m.duration == sent && m.wait == whole - sent
            && (if sent > 0
                then m.rate * sent as real == s.counters.requests as real * 1000000000.0 &&
                     m.throughput * whole as real == s.counters.success as real * 1000000000.0
                else m.rate == s.counters.requests as real && m.throughput == s.counters.success as real)
  {
    var sent, whole := s.span.latest - s.span.earliest, s.span.end - s.span.earliest;
    if sent > 0 {
      PerSecond(s.counters.requests as real, sent);
      PerSecond(s.counters.success as real, whole);
    }
  }

  lemma {:induction false} ReportIs(s: Summary, total: int)
    requires s.counters.requests > 0 && s.latencies.total == Int64(total)
    requires s.span.earliest <= s.span.latest <= s.span.end <= s.span.earliest + MAX_INT64
    ensures Reports(
      ReportOf(s), s.counters.requests, s.counters.success,
      s.span.latest - s.span.earliest, s.span.end - s.span.latest,
      s.counters.bytesIn, s.counters.bytesOut, total)
  {
    RatesAre(s);
    var n := s.counters.requests as real;
    Undivided(s.counters.success as real, n);
    Undivided(s.counters.bytesIn as real, n);
    Undivided(s.counters.bytesOut as real, n);
  }

  lemma {:induction false} SpanIs(rs: seq<Result>, first: int, last: int, end: int)
    requires IsMin(Map(rs, Timestamp), first) && IsMax(Map(rs, Timestamp), last)
    requires IsMax(Map(rs, Ended), end) && 0 < first && 0 <= last && 0 <= end
    ensures Summarize(rs).span == Span(first, last, end)
  {
    SpanIsExtreme(rs);
    SameMin(Map(rs, Timestamp), first);
    SameMax(Map(rs, Timestamp), last);
    SameMax(Map(rs, Ended), end);
  }

  /** What the report means in terms of the results: the time they were sent in and the time until
      the last response after it, requests over the first, successes over both, and means per
      request. */
  lemma {:induction false} ReportMeans(rs: seq<Result>, first: int, last: int, end: int)
    requires IsMin(Map(rs, Timestamp), first) && IsMax(Map(rs, Timestamp), last)
    requires IsMax(Map(rs, Ended), end) && 0 < first <= last <= end <= first + MAX_INT64
    ensures |rs| > 0 && Summarize(rs).counters.requests == |rs|
    ensures Reports(
      ReportOf(Summarize(rs)), |rs|, Sum(rs, Succeeded), last - first, end - last,
      Sum(rs, BytesIn), Sum(rs, BytesOut), Sum(rs, Latency))
  {
    SpanIs(rs, first, last, end);
    CountersAreSums(rs);
    LatenciesAre(rs);
    ReportIs(Summarize(rs), Sum(rs, Latency));
  }

  /** The report of a single result: no duration, so its rates are counts. */
  lemma {:induction false} ReportOfOne(r: Result)
    requires 0 < r.timestamp && 0 <= r.latency <= MAX_INT64
    ensures Summarize([r]).counters.requests == 1
    ensures var success := if 200 <= r.code <= 399 then 1.0 else 0.0;
            ReportOf(Summarize([r])) ==
            Report(1.0, success, 0, r.latency, success, r.bytesIn as real, r.bytesOut as real, r.latency)
  {
    assert [r][..0] == [];
    assert Summarize([r]) == AddResult(NOTHING, r);
  }

  lemma {:induction false} RatesMakeSense(ok: real, n: real, duration: int, wait: int)
    requires 0.0 <= ok <= n && n > 0.0 && duration >= 0 && wait >= 0
    ensures 0.0 <= ok / n <= 1.0
    ensures Seconds(duration) > 0.0 ==>
      && Seconds(duration + wait) > 0.0
      && 0.0 <= ok / Seconds(duration + wait) <= n / Seconds(duration)
  {
    Fraction(ok, n, n);
    if Seconds(duration) > 0.0 {
      assert Seconds(duration + wait) == Seconds(duration) + Seconds(wait);
      Ratio(ok, n, Seconds(duration), Seconds(wait));
      Fraction(ok, n, Seconds(duration + wait));
    }
  }

  lemma {:induction false} Fraction(a: real, n: real, d: real)
    requires 0.0 <= a <= n && 0.0 < n && 0.0 < d
    ensures 0.0 <= a / d && a / n <= 1.0
  {
    Ratio(a, n, n, 0.0);
  }

  // ------------------------------------------------------------------ the objects

  class LatencyMetrics {
    var total: int
    var mean: int
    var max: int
    var min: int

    function Contents(): Latencies reads this { Latencies(total, max, min) }

    constructor ()
      ensures Contents() == Latencies(0, 0, 0)
    {
      total, mean, max, min := 0, 0, 0, 0;
    }

    method Add(latency: int)
      modifies this
      ensures Contents() == AddLatency(old(Contents()), latency) && mean == old(mean)
    {
      total := Int64(total + latency);
      if latency > max {
        max := latency;
      }
      if latency < min || min == 0 {
        min := latency;
      }
    }
  }

  class Metrics {
    const latencies: LatencyMetrics
    var bytesIn: nat
    var bytesOut: nat
    var earliest: int
    var latest: int
    var end: int
    var requests: nat
    var success: nat
    var statusCodes: map<nat, nat>
    var errors: seq<string>
    var errorSet: set<string>
    var report: Report
    ghost var added: seq<Result>

    function Counted(): Counters
      reads this`requests, this`success, this`bytesIn, this`bytesOut, this`statusCodes
    {
      Counters(requests, success, bytesIn, bytesOut, statusCodes)
    }

    function Spanned(): Span
      reads this`earliest, this`latest, this`end
    {
      Span(earliest, latest, end)
    }

    function Contents(): Summary
      reads this`requests, this`success, this`bytesIn, this`bytesOut, this`statusCodes
      reads this`earliest, this`latest, this`end, this`errors, latencies
    {
      Summary(Counted(), Spanned(), errors, latencies.Contents())
    }

    /** Every streamed field summarises the results added so far. */
    ghost predicate Valid()
      reads this, latencies
    {
      Contents() == Summarize(added) && Indexed()
    }

    ghost predicate Indexed()
      reads this`errors, this`errorSet
    {
      forall e :: e in errorSet <==> e in errors
    }

    constructor ()
      ensures Valid() && added == [] && fresh(latencies)
    {
      latencies := new LatencyMetrics();
      bytesIn, bytesOut, earliest, latest, end := 0, 0, 0, 0, 0;
      requests, success, statusCodes, errors, errorSet := 0, 0, map[], [], {};
      report := Report(0.0, 0.0, 0, 0, 0.0, 0.0, 0.0, 0);
      added := [];
    }

    method Add(r: Result)
      requires Valid()
      modifies this, latencies
      ensures Valid() && added == old(added) + [r] && report == old(report)
    {
      Summarized(added, r);
      Stream(r);
      added := added + [r];
    }

    method Stream(r: Result)
      requires Indexed()
      modifies this`requests, this`statusCodes, this`bytesIn, this`bytesOut, this`success
      modifies this`earliest, this`latest, this`end, this`errors, this`errorSet, latencies
      ensures Indexed() && Contents() == AddResult(old(Contents()), r)
    {
      ghost var before := latencies.Contents();
      latencies.Add(r.latency);
      assert latencies.Contents() == AddLatency(before, r.latency);
      Count(r);
      Track(r);
      Note(r.error);
    }

    /** The counters. */
    method Count(r: Result)
      modifies this`requests, this`statusCodes, this`bytesIn, this`bytesOut, this`success
      ensures Counted() == AddCounts(old(Counted()), r)
    {
      requests := requests + 1;
      statusCodes := statusCodes[r.code := (if r.code in statusCodes then statusCodes[r.code] else 0) + 1];
      bytesOut := bytesOut + r.bytesOut;
      bytesIn := bytesIn + r.bytesIn;
      if 200 <= r.code < 400 {
        success := success + 1;
      }
    }

    /** The instants the results span. */
    method Track(r: Result)
      modifies this`earliest, this`latest, this`end
      ensures Spanned() == AddSpan(old(Spanned()), r)
    {
      if earliest == 0 || earliest > r.timestamp {
        earliest := r.timestamp;
      }
      if r.timestamp > latest {
        latest := r.timestamp;
      }
      if r.End() > end {
        end := r.End();
      }
    }

    /** The list of distinct errors and its index. */
    method Note(error: string)
      requires Indexed()
      modifies this`errors, this`errorSet
      ensures Indexed()
      ensures errors == NoteError(old(errors), error)
    {
      if error != "" {
        if error !in errorSet {
          errorSet := errorSet + {error};
          errors := errors + [error];
        }
      }
    }

    /** Close may be called at any time and any number of times: it leaves what was streamed alone
        and sets the report to that of the results added so far. */
    method Close()
      requires Valid()
      modifies this`report, latencies`mean
      ensures Valid()
      ensures report == if requests == 0 then old(report) else ReportOf(Summarize(added))
      ensures requests != 0 ==> latencies.mean == report.latencyMean
    {
      if requests == 0 {
        return;
      }
      var rate, throughput := requests as real, success as real;
      var duration := Sub(latest, earliest);
      var wait := Sub(end, latest);
      var secs := Seconds(duration);
      if secs > 0.0 {
        rate := rate / secs;
        if Int64(duration + wait) != 0 {
          throughput := throughput / Seconds(Int64(duration + wait));
        }
      }
      var n := requests as real;
      report := Report(rate, throughput, duration, wait, success as real / n,
                       bytesIn as real / n, bytesOut as real / n, Quo(latencies.total, requests));
      latencies.mean := report.latencyMean;
    }
  }
}
