/** `VisionEncoder::encode` of src/siglip2/vision.cpp around its graph cache. The patches are the only input
    of a graph, and every call writes them. */
module VisionEncoder {
  import opened GraphCache
  import opened Wrappers

  const CACHE_CAP := 4

  datatype Pooling = Mean | Probe

  datatype Key = Key(nPatchesH: int, nPatchesW: int, pooling: Pooling)

  type Network = (Key, seq<real>) -> seq<real>

  datatype Call = Call(pixels: seq<real>, key: Key, luck: Luck, computes: bool)

  /** The checks before anything else; `native` tells whether the model's own grid is a square. */
  predicate Acceptable(call: Call, native: bool) {
    call.key.nPatchesH > 0 && call.key.nPatchesW > 0 && native
  }

  function Step(c: Cache<Key, seq<real>>, net: Network, native: bool, call: Call)
      : (r: (Cache<Key, seq<real>>, Outcome)) {
    if !Acceptable(call, native) then (c, Rejected)
    else Encoded(c, CACHE_CAP, call.key, call.luck, [], _ => call.pixels, call.computes, net)
  }

  function Run(net: Network, native: bool, calls: seq<Call>): (r: (Cache<Key, seq<real>>, seq<Outcome>))
    ensures |r.1| == |calls|
  {
    if calls == [] then (Cache([], 0), [])
    else
      var (c, outcomes) := Run(net, native, calls[..|calls| - 1]);
      var (after, outcome) := Step(c, net, native, calls[|calls| - 1]);
      (after, outcomes + [outcome])
  }

  /** The call builds a graph and fails its last allocation. */
  predicate Breaks(c: Cache<Key, seq<real>>, native: bool, call: Call) {
    Acceptable(call, native) && AllocationFails(c, call.key, call.luck)
  }

  lemma {:induction false} StepKeeps(c: Cache<Key, seq<real>>, net: Network, native: bool, call: Call)
    requires Tidy(c, CACHE_CAP)
    ensures var (after, r) := Step(c, net, native, call);
            && Tidy(after, CACHE_CAP)
            && (r == Rejected <==> !Acceptable(call, native))
            && (r.Answer? <==> Acceptable(call, native) && GetsGraph(c, call.key, call.luck) && call.computes)
            && (r.Answer? ==> r.values == net(call.key, call.pixels))
            && (r == Unspecified <==> Acceptable(call, native) && HasUnusable(c, call.key))
            && (AllAllocated(c) ==> (AllAllocated(after) <==> !Breaks(c, native, call)))
  {
    if Acceptable(call, native) {
      EncodedKeeps(c, CACHE_CAP, call.key, call.luck, [], _ => call.pixels, call.computes, net);
      UnspecifiedIff(c, CACHE_CAP, call.key, call.luck, [], _ => call.pixels, call.computes, net);
      RunsOwnGraph(c, CACHE_CAP, call.key, call.luck, [], _ => call.pixels, call.computes, net);
      AnswersIff(c, CACHE_CAP, call.key, call.luck, [], _ => call.pixels, call.computes, net);
      hide Tidy, Encoded, Acquired, AllAllocated, AllocationFails, HasUnusable, GetsGraph;
    }
  }

  /** Four graphs are kept. */
  lemma {:induction false} KeepsFour(c: Cache<Key, seq<real>>, net: Network, native: bool, call: Call)
    requires Tidy(c, CACHE_CAP) && Acceptable(call, native)
    ensures |c.entries| <= 4
    ensures var n := |Step(c, net, native, call).0.entries|;
            if HasKey(c, call.key) then n == |c.entries|
            else if call.luck.init && call.luck.reserve then n == if |c.entries| < 4 then |c.entries| + 1 else 4
            else n == if |c.entries| < 4 then |c.entries| else 3
  {
    BuildsIff(c, CACHE_CAP, call.key, call.luck, [], _ => call.pixels, call.computes, net);
  }

  lemma EmptyIsTidy()
    ensures Tidy<Key, seq<real>>(Cache([], 0), CACHE_CAP)
  {
  }

  /** Over every list of calls the cache stays tidy, every answer is the one a freshly built graph would
      give for the patches of that very call, and a graph without memory is computed exactly by the calls
      that find one in the cache. */
  lemma {:induction false} RunAnswersFreshly(net: Network, native: bool, calls: seq<Call>)
    ensures Tidy(Run(net, native, calls).0, CACHE_CAP)
    ensures forall i :: 0 <= i < |calls| ==>
              var r := Run(net, native, calls).1[i];
              && (r == Rejected <==> !Acceptable(calls[i], native))
              && (r.Answer? <==>
                    && Acceptable(calls[i], native) && calls[i].computes
                    && GetsGraph(Run(net, native, calls[..i]).0, calls[i].key, calls[i].luck))
              && (r.Answer? ==> r.values == net(calls[i].key, calls[i].pixels))
              && (r == Unspecified <==>
                    Acceptable(calls[i], native) && HasUnusable(Run(net, native, calls[..i]).0, calls[i].key))
  {
    hide Step, Tidy, HasUnusable, Acceptable, GetsGraph;
    if calls == [] {
      EmptyIsTidy();
    } else {
      var m := |calls| - 1;
      RunAnswersFreshly(net, native, calls[..m]);
      StepKeeps(Run(net, native, calls[..m]).0, net, native, calls[m]);
      forall i | 0 <= i < m
        ensures calls[..i] == calls[..m][..i]
      {
      }
    }
  }

  /** The cache before call i. */
  function Before(net: Network, native: bool, calls: seq<Call>, i: nat): Cache<Key, seq<real>>
    requires i <= |calls|
  {
    Run(net, native, calls[..i]).0
  }

  lemma {:induction false} NextBreaksIff(net: Network, native: bool, calls: seq<Call>, n: nat)
    requires n < |calls| && AllAllocated(Before(net, native, calls, n))
    ensures AllAllocated(Before(net, native, calls, n + 1)) <==>
      !Breaks(Before(net, native, calls, n), native, calls[n])
  {
    hide Step, Tidy, AllAllocated, Breaks;
    RunAnswersFreshly(net, native, calls[..n]);
    StepKeeps(Before(net, native, calls, n), net, native, calls[n]);
    assert calls[..n + 1][..n] == calls[..n];
  }

  lemma NothingBroken(net: Network, native: bool, calls: seq<Call>)
    ensures AllAllocated(Before(net, native, calls, 0))
  {
  }

  /** Every graph in the cache is usable all along, up to call n, exactly if no call before it fails the
      last allocation of a graph it builds. */
  lemma {:induction false} UsableIffNoneBreaks(net: Network, native: bool, calls: seq<Call>, n: nat)
    requires n <= |calls|
    ensures (forall i :: 0 <= i <= n ==> AllAllocated(Before(net, native, calls, i))) <==>
      forall i :: 0 <= i < n ==> !Breaks(Before(net, native, calls, i), native, calls[i])
  {
    hide Before, AllAllocated, Breaks;
    if n == 0 {
      NothingBroken(net, native, calls);
    } else {
      UsableIffNoneBreaks(net, native, calls, n - 1);
      if AllAllocated(Before(net, native, calls, n - 1)) {
        NextBreaksIff(net, native, calls, n - 1);
      }
    }
  }

  /** As long as no call does, none computes a graph without memory. */
  lemma {:induction false} NoneUnspecified(net: Network, native: bool, calls: seq<Call>)
    requires forall i :: 0 <= i < |calls| ==> !Breaks(Before(net, native, calls, i), native, calls[i])
    ensures AllAllocated(Run(net, native, calls).0) && Unspecified !in Run(net, native, calls).1
  {
    hide Run, Breaks, Acceptable, Tidy;
    UsableIffNoneBreaks(net, native, calls, |calls|);
    RunAnswersFreshly(net, native, calls);
    assert AllAllocated(Before(net, native, calls, |calls|));
    assert calls[..|calls|] == calls;
    forall i | 0 <= i < |calls|
      ensures Run(net, native, calls).1[i] != Unspecified
    {
      assert AllAllocated(Before(net, native, calls, i));
    }
  }

  class Encoder {
    const net: Network
    const native: bool
    var graphs: Graphs?<Key, seq<real>>   // null until weights have been loaded

    ghost predicate Valid()
      reads this, graphs
    {
      graphs != null ==> graphs.Valid() && graphs.cap == CACHE_CAP && graphs.blank == []
    }

    constructor (net: Network, native: bool)
      ensures Valid() && graphs == null && this.net == net && this.native == native
    {
      this.net, this.native, graphs := net, native, null;
    }

    /** `load`: whatever was cached before is gone; `ok` tells whether all weights were found. */
    method Load(ok: bool)
      modifies this
      ensures Valid() && if ok then graphs != null && fresh(graphs) && graphs.cache == Cache([], 0) else graphs == null
    {
      graphs := null;
      if ok {
        graphs := new Graphs(CACHE_CAP, []);
      }
    }

    /** `encode`. */
    method Encode(call: Call) returns (r: Outcome)
      requires Valid()
      modifies graphs
      ensures Valid() && (graphs == null ==> r == Rejected)
      ensures graphs != null ==> (graphs.cache, r) == Step(old(graphs.cache), net, native, call)
    {
      if graphs == null {
        return Rejected;
      }
      if call.key.nPatchesH <= 0 || call.key.nPatchesW <= 0 {
        return Rejected;
      }
      if !native {
        return Rejected;
      }
      var found := graphs.Acquire(call.key, call.luck);
      if found == None {
        return Failed;
      }
      graphs.Write(found.value, call.pixels);
      var e := graphs.cache.entries[found.value];
      if !e.usable {
        return Unspecified;
      }
      if !call.computes {
        return Failed;
      }
      return Answer(net(e.graph, e.inputs));
    }
  }
}
