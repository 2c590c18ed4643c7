/** lib/results.go: the outcome of one hit. Instants and durations are integer nanoseconds. */
module Result {

  datatype Result = Result(
    attack: string, seqno: nat, code: nat, timestamp: int, latency: int,
    bytesOut: nat, bytesIn: nat, error: string)
  {
    /** The time at which the hit ended. */
    function End(): int { timestamp + latency }
  }

  /** Results of one attack: distinct numbers, and timestamps that order like them. */
  ghost predicate OneAttack(rs: seq<Result>) {
    && (forall i, j :: 0 <= i < j < |rs| ==> rs[i].seqno != rs[j].seqno)
    && (forall i, j :: 0 <= i < |rs| && 0 <= j < |rs| && rs[i].seqno < rs[j].seqno ==>
          rs[i].timestamp <= rs[j].timestamp)
  }

  lemma {:induction false} AtMostOnce(rs: seq<Result>, r: Result)
    requires forall i, j :: 0 <= i < j < |rs| ==> rs[i].seqno != rs[j].seqno
    ensures multiset(rs)[r] <= 1
  {
    if rs == [] {
    } else {
      var init, last := rs[..|rs| - 1], rs[|rs| - 1];
      assert rs == init + [last];
      AtMostOnce(init, r);
      if r == last { assert r !in init; }
    }
  }

  lemma {:induction false} IndexOf(rs: seq<Result>, selection: seq<Result>, i: nat) returns (k: nat)
    requires multiset(selection) <= multiset(rs) && i < |selection|
    ensures k < |rs| && rs[k] == selection[i]
  {
    assert selection[i] in multiset(selection);
    assert selection[i] in multiset(rs);
    k :| 0 <= k < |rs| && rs[k] == selection[i];
  }

  lemma {:induction false} SelectedOnce(rs: seq<Result>, selection: seq<Result>, i: nat, j: nat)
    requires forall i, j :: 0 <= i < j < |rs| ==> rs[i].seqno != rs[j].seqno
    requires multiset(selection) <= multiset(rs) && i < j < |selection|
    ensures selection[i] != selection[j]
  {
    var r := selection[i];
    AtMostOnce(rs, r);
    assert selection == selection[..j] + selection[j..];
    assert multiset(selection) == multiset(selection[..j]) + multiset(selection[j..]);
    assert r in selection[..j];
    assert multiset(selection)[r] <= 1;
    assert r !in selection[j..];
    assert selection[j] in selection[j..];
  }

  /** Any selection of the results of one attack, in any order, is one too. */
  lemma {:induction false} SelectionOfOneAttack(rs: seq<Result>, selection: seq<Result>)
    requires OneAttack(rs) && multiset(selection) <= multiset(rs)
    ensures OneAttack(selection)
  {
    forall i, j | 0 <= i < j < |selection| ensures selection[i].seqno != selection[j].seqno {
      SelectedOnce(rs, selection, i, j);
      var a := IndexOf(rs, selection, i);
      var b := IndexOf(rs, selection, j);
    }
    forall i, j | 0 <= i < |selection| && 0 <= j < |selection| && selection[i].seqno < selection[j].seqno
      ensures selection[i].timestamp <= selection[j].timestamp
    {
      var a := IndexOf(rs, selection, i);
      var b := IndexOf(rs, selection, j);
    }
  }
}
