/** lib/results.go: DecoderFor tries one decoder after another on the same reader, keeping what
    each attempt read so that the next one, and the caller, can read it again. */
module Detect {
  import opened GoInt
  import opened Optional

  type Bytes = seq<bv8>

  /** What a decoder does after reading some bytes: ask for more, or settle. */
  datatype Demand = More(n: nat) | Done(ok: bool)

  /** A decoder's first Decode as a program over the bytes read so far and whether the input has
      ended. It is arbitrary, but it sees nothing else. */
  datatype Factory = Factory(id: nat, step: (Bytes, bool) -> Demand)

  /** How many bytes of the stream the first Decode reads, and whether it succeeds. */
  datatype Probe = Probe(consumed: nat, ok: bool)

  function AtEnd(f: Factory, stream: Bytes): bool { f.step(stream, true) == Done(true) }

  function ReadTo(stream: Bytes, k: nat, n: nat): nat { Min(k + Max(1, n), |stream|) }

  function ProbeFrom(f: Factory, stream: Bytes, k: nat): (p: Probe)
    requires k <= |stream|
    ensures k <= p.consumed <= |stream|
    decreases |stream| - k
  {
    match f.step(stream[..k], false)
    case Done(ok) => Probe(k, ok)
    case More(n) =>
      if k == |stream| then Probe(k, AtEnd(f, stream)) else ProbeFrom(f, stream, ReadTo(stream, k, n))
  }

  /** The factory accepts the stream read from byte 0. */
  predicate Accepts(f: Factory, stream: Bytes) { ProbeFrom(f, stream, 0).ok }

  /** The decoder has read ks[0], ks[1], ... bytes: each time it asks for more, and gets as much as it
      asks for or all there is. */
  ghost predicate Asks(f: Factory, stream: Bytes, ks: seq<nat>) {
    && ks != [] && ks[0] == 0 && (forall i :: 0 <= i < |ks| ==> ks[i] <= |stream|)
    && forall i :: 0 <= i < |ks| - 1 ==> AsksFor(f, stream, ks[i], ks[i + 1])
  }

  /** At k bytes it asks for more, and stops at k' > k. */
  ghost predicate AsksFor(f: Factory, stream: Bytes, k: nat, k': nat)
    requires k <= |stream|
  {
    var d := f.step(stream[..k], false);
    d.More? && k < k' && (k' == k + d.n || k' == |stream| < k + d.n || (d.n == 0 && k' == k + 1))
  }

  /** It settles after k bytes, having seen the end if it asked for more there. */
  ghost predicate Settles(f: Factory, stream: Bytes, k: nat, ok: bool)
    requires k <= |stream|
  {
    var d := f.step(stream[..k], false);
    if d.Done? then ok == d.ok else k == |stream| && ok == (f.step(stream, true) == Done(true))
  }

  lemma {:induction false} ProbeIs(f: Factory, stream: Bytes, ks: seq<nat>, i: nat, ok: bool)
    requires Asks(f, stream, ks) && i < |ks| && Settles(f, stream, ks[|ks| - 1], ok)
    ensures ProbeFrom(f, stream, ks[i]) == Probe(ks[|ks| - 1], ok)
    decreases |ks| - i
  {
    if i == |ks| - 1 {
      if f.step(stream[..ks[i]], false).More? { assert stream[..ks[i]] == stream; }
    } else {
      assert AsksFor(f, stream, ks[i], ks[i + 1]);
      ProbeIs(f, stream, ks, i + 1, ok);
    }
  }

  lemma {:induction false} ProbeSettles(f: Factory, stream: Bytes, ks: seq<nat>) returns (ks': seq<nat>, ok: bool)
    requires Asks(f, stream, ks)
    ensures Asks(f, stream, ks') && Settles(f, stream, ks'[|ks'| - 1], ok)
    decreases |stream| - ks[|ks| - 1]
  {
    var k := ks[|ks| - 1];
    var d := f.step(stream[..k], false);
    if d.Done? || k == |stream| {
      ks', ok := ks, if d.Done? then d.ok else f.step(stream, true) == Done(true);
    } else {
      ks', ok := ProbeSettles(f, stream, ks + [ReadTo(stream, k, d.n)]);
    }
  }

  /** A factory accepts a stream if and only if its decoder, read from byte 0 and given what it asks
      for, settles with success. */
  lemma {:induction false} AcceptsIff(f: Factory, stream: Bytes)
    ensures Accepts(f, stream) <==>
            exists ks :: Asks(f, stream, ks) && Settles(f, stream, ks[|ks| - 1], true)
  {
    var ks, ok := ProbeSettles(f, stream, [0]);
    ProbeIs(f, stream, ks, 0, ok);
    forall ks' | Asks(f, stream, ks') && Settles(f, stream, ks'[|ks'| - 1], true)
      ensures Accepts(f, stream)
    {
      ProbeIs(f, stream, ks', 0, true);
    }
  }

  /** The reader passed to DecoderFor. */
  class Source {
    const data: Bytes
    var pos: nat

    predicate Valid() reads this { pos <= |data| }

    function Unread(): Bytes
      requires Valid()
      reads this
    {
      data[pos..]
    }

    constructor (data: Bytes)
      ensures Valid() && Unread() == data
    {
      this.data, pos := data, 0;
    }

    /** Reads may be short: anything up to n bytes, but something unless the end is reached. */
    method Read(n: nat) returns (bs: Bytes)
      requires Valid() && n > 0
      modifies this
      ensures Valid() && |bs| <= n && bs <= old(Unread()) && Unread() == old(Unread())[|bs|..]
      ensures bs == [] <==> old(Unread()) == []
    {
      if pos == |data| {
        return [];
      }
      var k: nat :| 0 < k <= n && pos + k <= |data|;
      bs := data[pos..pos + k];
      pos := pos + k;
    }
  }

  /** A read of io.MultiReader(snapshot, io.TeeReader(r, &buf)) at offset k: what is left of the
      snapshot, and after its end the source, copying into buf what comes from there. */
  method ReadThrough(snapshot: Bytes, k: nat, n: nat, r: Source, buf: Bytes)
    returns (chunk: Bytes, buf': Bytes)
    requires r.Valid() && n > 0 && snapshot <= buf && |buf| == Max(|snapshot|, k)
    modifies r
    ensures r.Valid() && buf' + r.Unread() == buf + old(r.Unread()) && buf <= buf'
    ensures var stream := buf + old(r.Unread());
            && |chunk| <= n && chunk <= stream[k..] && (chunk == [] <==> k == |stream|)
            && |buf'| == Max(|snapshot|, k + |chunk|)
  {
    if k < |snapshot| {
      return snapshot[k..Min(k + n, |snapshot|)], buf;
    }
    chunk := r.Read(n);
    buf' := buf + chunk;
  }

  /** A decoder that has seen the first bytes of the stream collects what it asks for, in as many
      reads as it takes, or reaches the end. */
  method Collect(snapshot: Bytes, seen: Bytes, n: nat, r: Source, buf: Bytes)
    returns (seen': Bytes, buf': Bytes)
    requires r.Valid() && n > 0 && snapshot <= buf && |buf| == Max(|snapshot|, |seen|)
    requires seen <= buf + r.Unread()
    modifies r
    ensures r.Valid() && buf' + r.Unread() == buf + old(r.Unread()) && buf <= buf'
    ensures var stream := buf + old(r.Unread());
            seen' == stream[..Min(|seen| + n, |stream|)] && |buf'| == Max(|snapshot|, |seen'|)
  {
    ghost var stream := buf + r.Unread();
    seen', buf' := seen, buf;
    while |seen'| < |seen| + n
      invariant r.Valid() && buf' + r.Unread() == stream && buf <= buf'
      invariant |seen| <= |seen'| <= |seen| + n && seen' <= stream
      invariant |buf'| == Max(|snapshot|, |seen'|)
    {
      var chunk;
      chunk, buf' := ReadThrough(snapshot, |seen'|, |seen| + n - |seen'|, r, buf');
      if chunk == [] {
        break;
      }
      seen' := seen' + chunk;
    }
  }

  /** One attempt to decode: the decoder sees the original stream from byte 0, and nothing it
      reads is lost. */
  method Attempt(f: Factory, r: Source, buf: Bytes) returns (buf': Bytes, ok: bool)
    requires r.Valid()
    modifies r
    ensures r.Valid() && buf' + r.Unread() == buf + old(r.Unread())
    ensures |buf'| == Max(|buf|, ProbeFrom(f, buf + old(r.Unread()), 0).consumed)
    ensures ok == Accepts(f, buf + old(r.Unread()))
  {
    ghost var stream := buf + r.Unread();
    buf' := buf;
    var seen: Bytes := [];
    while true
      invariant r.Valid() && buf' + r.Unread() == stream && buf <= buf'
      invariant |seen| <= |stream| && seen == stream[..|seen|]
      invariant |buf'| == Max(|buf|, |seen|)
      invariant ProbeFrom(f, stream, 0) == ProbeFrom(f, stream, |seen|)
      decreases |stream| - |seen|
    {
      var demand := f.step(seen, false);
      if demand.Done? {
        return buf', demand.ok;
      }
      var more;
      more, buf' := Collect(buf, seen, Max(1, demand.n), r, buf');
      if |more| == |seen| {
        assert seen == stream;
        return buf', f.step(seen, true) == Done(true);
      }
      seen := more;
    }
  }

  /** Format detection: the chosen decoder is the first that accepts the original stream, as if no
      other had read from it, and it is given the original stream from byte 0. */
  method DecoderFor(r: Source, factories: seq<Factory>) returns (chosen: Option<nat>, replay: Bytes)
    requires r.Valid()
    modifies r
    ensures r.Valid()
    ensures chosen == None <==> forall i :: 0 <= i < |factories| ==> !Accepts(factories[i], old(r.Unread()))
    ensures chosen.Some? ==>
      && chosen.value < |factories|
      && Accepts(factories[chosen.value], old(r.Unread()))
      && (forall i :: 0 <= i < chosen.value ==> !Accepts(factories[i], old(r.Unread())))
      && replay + r.Unread() == old(r.Unread())
  {
    var buf: Bytes := [];
    ghost var stream := r.Unread();
    assert buf + r.Unread() == stream;
    for i := 0 to |factories|
      invariant r.Valid() && buf + r.Unread() == stream
      invariant forall j :: 0 <= j < i ==> !Accepts(factories[j], stream)
    {
      var ok;
      buf, ok := Attempt(factories[i], r, buf);
      if ok {
        return Some(i), buf;
      }
    }
    return None, [];
  }
}
