/** From the attack to the chart: what the critical section of hit buys the plot. */
module EndToEnd {
  import opened GoInt
  import opened Result
  import opened AttackRuns
  import A = Attack
  import P = Plot

  /** Whichever results of an attack are fed to a plot, in whatever order and at whatever moment of
      the attack, no add fails. */
  lemma {:induction false} PlotNeverRefuses(
    c: A.Config, s: A.State, labeler: Result -> string, feed: seq<Result>)
    requires A.Reachable(c, s) && multiset(feed) <= multiset(s.delivered)
    ensures !P.Run(labeler, feed).err
  {
    TimestampsFollowNumbers(c, s);
    SelectionOfOneAttack(s.delivered, feed);
    P.ReorderBuffer(labeler, feed);
  }

  /** The results received from a whole attack are numbered 0..count-1. */
  lemma {:induction false} ReceivedAll(c: A.Config, s: A.State)
    requires A.Reachable(c, s) && s.resultsCloses > 0
    ensures forall k: nat :: k in P.Received(s.delivered) <==> k < s.count
    ensures P.Sorted(P.Received(s.delivered))
  {
    TimestampsFollowNumbers(c, s);
    P.ReceivedSorted(s.delivered);
    ExactlyOnce(c, s);
    forall k: nat ensures k in P.Received(s.delivered) <==> k < s.count {
      ReceivedIsNumbers(s.delivered, k);
    }
  }

  lemma {:induction false} ReceivedIsNumbers(rs: seq<Result>, k: nat)
    ensures k in P.Received(rs) <==> k in Numbers(rs)
  {
    if k in P.Received(rs) {
      var i :| 0 <= i < |rs| && rs[i] == P.Received(rs)[k];
      assert rs[i].seqno in Numbers(rs);
    }
  }

  /** After a whole attack, fed in any order, the plot has buffered nothing and every series holds
      its results 0..count-1 in sequence order. */
  lemma {:induction false} PlotShowsWholeAttack(
    c: A.Config, s: A.State, labeler: Result -> string, feed: seq<Result>)
    requires A.Reachable(c, s) && s.resultsCloses > 0 && multiset(feed) == multiset(s.delivered)
    ensures var ls := P.Run(labeler, feed).ls;
            var m := P.Received(s.delivered);
            && ls.seqno == s.count && ls.buf == map[] && P.Full(m, s.count)
            && (forall l :: l in ls.series ==>
                  ls.series[l] == P.InOrder(labeler, m, s.count, l) && P.Monotone(ls.series[l]))
  {
    TimestampsFollowNumbers(c, s);
    SelectionOfOneAttack(s.delivered, feed);
    P.SameResultsReceived(s.delivered, feed);
    ReceivedAll(c, s);
    P.CompleteMeansDrained(labeler, feed, s.count);
    var m := P.Received(s.delivered);
    forall l ensures P.Monotone(P.InOrder(labeler, m, s.count, l)) {
      P.InOrderMonotone(labeler, m, s.count, l);
    }
  }

  lemma {:induction false} TimestampInRange(c: A.Config, s: A.State, r: Result)
    requires A.Reachable(c, s) && r in s.delivered
    ensures c.began <= r.timestamp <= c.began + MAX_INT64
  {
    ReachableInv(c, s);
    var i :| 0 <= i < |s.delivered| && s.delivered[i] == r;
    assert A.Genuine(c, s.atk.stamps, s.delivered[i]);
  }

  /** The timestamps of an attack are within an int64 of each other. */
  lemma {:induction false} TimestampsAreClose(c: A.Config, s: A.State, k: nat)
    requires A.Reachable(c, s) && k in P.Received(s.delivered) && 0 in P.Received(s.delivered)
    requires P.Sorted(P.Received(s.delivered))
    ensures var m := P.Received(s.delivered);
            m[0].timestamp <= m[k].timestamp <= m[0].timestamp + MAX_INT64
  {
    var m := P.Received(s.delivered);
    TimestampInRange(c, s, m[0]);
    TimestampInRange(c, s, m[k]);
  }

  /** And in milliseconds: entry j of a series shows the latency of the j-th result of its label, at
      the whole milliseconds between the timestamps of that result and of result 0. */
  lemma {:induction false} PlotShowsLatencies(c: A.Config, s: A.State, labeler: Result -> string, l: string)
    requires A.Reachable(c, s) && s.resultsCloses > 0
    ensures var m := P.Received(s.delivered);
            && P.Full(m, s.count)
            && var es, ks := P.InOrder(labeler, m, s.count, l), P.Seqnos(labeler, m, s.count, l);
               && |es| == |ks|
               && forall j :: 0 <= j < |ks| ==>
                    && ks[j] < s.count && es[j].v * 1000000.0 == m[ks[j]].latency as real
                    && es[j].ms * 1000000 <= m[ks[j]].timestamp - m[0].timestamp < (es[j].ms + 1) * 1000000
  {
    ReceivedAll(c, s);
    var m := P.Received(s.delivered);
    P.SeriesShowsResults(labeler, m, s.count, l);
    var es, ks := P.InOrder(labeler, m, s.count, l), P.Seqnos(labeler, m, s.count, l);
    forall j | 0 <= j < |ks|
      ensures es[j].ms * 1000000 <= m[ks[j]].timestamp - m[0].timestamp < (es[j].ms + 1) * 1000000
    {
      TimestampsAreClose(c, s, ks[j]);
      assert P.Shows(es[j], m[ks[j]], m[0].timestamp);
    }
  }
}
