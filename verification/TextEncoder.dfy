/** `TextEncoder::encode_batch` of src/siglip2/text.cpp around its graph cache. A graph is determined by
    its key; what it computes from its input buffers is a parameter. */
module TextEncoder {
  import opened Arith
  import opened GraphCache
  import opened Wrappers

  const CACHE_CAP := 8

  datatype Key = Key(nPos: int, nBatch: int, hasMask: bool)

  datatype Score = Zero | MinusInfinity

  /** The input buffers of a graph. Only graphs with a mask have a mask buffer. */
  datatype Inputs = Inputs(tokens: seq<int>, positions: seq<int>, mask: Option<seq<Score>>, pool: seq<int>)

  const BLANK := Inputs([], [], None, [])

  type Network = (Key, Inputs) -> seq<real>

  datatype Call = Call(
    tokens: seq<int>, nTokens: int, nBatch: int, attention: Option<seq<int>>, luck: Luck, computes: bool)

  /** The checks before anything else. */
  predicate Acceptable(call: Call, maxPositions: int) {
    call.nBatch > 0 && 0 < call.nTokens <= maxPositions && (call.nBatch == 1 || call.attention == None)
  }

  /** What the caller's buffers must provide. */
  predicate WellFormed(call: Call) {
    && (call.nBatch > 0 && call.nTokens > 0 ==> |call.tokens| == call.nTokens * call.nBatch)
    && (call.attention.Some? ==> |call.attention.value| == call.nTokens)
  }

  function KeyOf(call: Call): Key {
    Key(call.nTokens, call.nBatch, call.nBatch == 1 && call.attention.Some?)
  }

  /** Calls share a graph exactly if they agree in tokens, texts and whether there is a mask. */
  lemma SameKeyIff(a: Call, b: Call, maxPositions: int)
    requires Acceptable(a, maxPositions) && Acceptable(b, maxPositions)
    ensures KeyOf(a) == KeyOf(b) <==>
      a.nTokens == b.nTokens && a.nBatch == b.nBatch && (a.attention == None <==> b.attention == None)
  {
  }

  // ---------------------------------------------------------------------------------------
  // The inputs of one call
  // ---------------------------------------------------------------------------------------

  function Positions(nPos: int, n: nat): seq<int>
    requires 0 < nPos
  {
    seq(n, k => k % nPos)
  }

  function ScoreAt(attention: seq<int>, k: int): Score {
    if 0 <= k < |attention| && attention[k] == 0 then MinusInfinity else Zero
  }

  /** Column k of the mask is masked out for every query exactly if token k is. */
  function MaskScores(attention: seq<int>): (s: seq<Score>)
    requires |attention| > 0
  {
    MulMono(0, |attention|, |attention|);
    seq(|attention| * |attention|, j requires 0 <= j => ScoreAt(attention, j % |attention|))
  }

  /** All inputs that the arguments of a call determine. */
  function FreshInputs(call: Call): Inputs
    requires call.nTokens > 0 && call.nBatch > 0 && WellFormed(call)
  {
    MulMono(1, call.nTokens, call.nBatch);
    Inputs(call.tokens, Positions(call.nTokens, call.nTokens * call.nBatch),
           if KeyOf(call).hasMask then Some(MaskScores(call.attention.value)) else None,
           seq(call.nBatch, _ => call.nTokens - 1))
  }

  /** The buffers that a call writes; a graph without a mask keeps its (absent) mask buffer. */
  function Written(was: Inputs, call: Call): Inputs
    requires call.nTokens > 0 && call.nBatch > 0 && WellFormed(call)
  {
    var inputs := FreshInputs(call);
    if KeyOf(call).hasMask then inputs else inputs.(mask := was.mask)
  }

  // ---------------------------------------------------------------------------------------
  // One call, and runs of calls
  // ---------------------------------------------------------------------------------------

  /** The rewriting of the buffers that a call does. */
  function Writing(call: Call): Inputs -> Inputs
    requires call.nTokens > 0 && call.nBatch > 0 && WellFormed(call)
  {
    was => Written(was, call)
  }

  function Step(c: Cache<Key, Inputs>, net: Network, maxPositions: int, call: Call): (r: (Cache<Key, Inputs>, Outcome))
    requires WellFormed(call)
  {
    if !Acceptable(call, maxPositions) then (c, Rejected)
    else Encoded(c, CACHE_CAP, KeyOf(call), call.luck, BLANK, Writing(call), call.computes, net)
  }

  /** Graphs without a mask never get a mask buffer. */
  ghost predicate MaskBuffersFit(c: Cache<Key, Inputs>) {
    forall i :: 0 <= i < |c.entries| ==> !c.entries[i].key.hasMask ==> c.entries[i].inputs.mask == None
  }

  /** A call is answered exactly if it is acceptable, gets a graph and can compute it, and then with what a
      graph built for this call alone would give. A graph without memory is computed exactly if the cache
      holds one for the call's key. */
  predicate AnsweredFreshly(c: Cache<Key, Inputs>, net: Network, maxPositions: int, call: Call, r: Outcome)
    requires WellFormed(call)
  {
    && (r == Rejected <==> !Acceptable(call, maxPositions))
    && (r.Answer? <==> Acceptable(call, maxPositions) && GetsGraph(c, KeyOf(call), call.luck) && call.computes)
    && (r.Answer? ==>
          var key := Key(call.nTokens, call.nBatch, call.nBatch == 1 && call.attention.Some?);
          r.values == net(key, FreshInputs(call)))
    && (r == Unspecified <==> Acceptable(call, maxPositions) && HasUnusable(c, KeyOf(call)))
  }

  /** The call builds a graph and fails its last allocation. */
  predicate Breaks(c: Cache<Key, Inputs>, maxPositions: int, call: Call) {
    Acceptable(call, maxPositions) && AllocationFails(c, KeyOf(call), call.luck)
  }

  lemma {:induction false} FitAfterAcquire(c: Cache<Key, Inputs>, cap: nat, key: Key, luck: Luck)
    requires cap > 0 && MaskBuffersFit(c)
    ensures MaskBuffersFit(Acquired(c, cap, key, luck, BLANK).0)
  {
  }

  /** Everything a graph reads is written by every call. */
  lemma WrittenIsFresh(c: Cache<Key, Inputs>, i: nat, call: Call)
    requires call.nTokens > 0 && call.nBatch > 0 && WellFormed(call)
    requires MaskBuffersFit(c) && i < |c.entries| && c.entries[i].key == KeyOf(call)
    ensures Written(c.entries[i].inputs, call) == FreshInputs(call)
    ensures !c.entries[i].key.hasMask ==> FreshInputs(call).mask == None
  {
  }

  lemma {:induction false} FitAfterRewrite(c: Cache<Key, Inputs>, i: nat, inputs: Inputs)
    requires i < |c.entries| && MaskBuffersFit(c) && (!c.entries[i].key.hasMask ==> inputs.mask == None)
    ensures MaskBuffersFit(Rewritten(c, i, inputs))
  {
  }

  lemma {:induction false} StepKeeps(c: Cache<Key, Inputs>, net: Network, maxPositions: int, call: Call)
    requires WellFormed(call) && Tidy(c, CACHE_CAP) && MaskBuffersFit(c)
    ensures var after := Step(c, net, maxPositions, call).0; Tidy(after, CACHE_CAP) && MaskBuffersFit(after)
    ensures AnsweredFreshly(c, net, maxPositions, call, Step(c, net, maxPositions, call).1)
    ensures AllAllocated(c) ==> (AllAllocated(Step(c, net, maxPositions, call).0) <==> !Breaks(c, maxPositions, call))
  {
    if Acceptable(call, maxPositions) {
      var key, write := KeyOf(call), Writing(call);
      EncodedKeeps(c, CACHE_CAP, key, call.luck, BLANK, write, call.computes, net);
      UnspecifiedIff(c, CACHE_CAP, key, call.luck, BLANK, write, call.computes, net);
      RunsOwnGraph(c, CACHE_CAP, key, call.luck, BLANK, write, call.computes, net);
      AnswersIff(c, CACHE_CAP, key, call.luck, BLANK, write, call.computes, net);
      FitAfterAcquire(c, CACHE_CAP, key, call.luck);
      var (after, found) := Acquired(c, CACHE_CAP, key, call.luck, BLANK);
      hide FreshInputs, Acquired, Tidy, MaskBuffersFit, AllAllocated, Written, Rewritten;
      hide HasUnusable, AllocationFails, GetsGraph;
      if found.Some? {
        WrittenIsFresh(after, found.value, call);
        FitAfterRewrite(after, found.value, Written(after.entries[found.value].inputs, call));
      }
    }
  }

  /** Eight graphs are kept. */
  lemma {:induction false} KeepsEight(c: Cache<Key, Inputs>, net: Network, maxPositions: int, call: Call)
    requires WellFormed(call) && Tidy(c, CACHE_CAP) && Acceptable(call, maxPositions)
    ensures |c.entries| <= 8
    ensures var n := |Step(c, net, maxPositions, call).0.entries|;
            if HasKey(c, KeyOf(call)) then n == |c.entries|
            else if call.luck.init && call.luck.reserve then n == if |c.entries| < 8 then |c.entries| + 1 else 8
            else n == if |c.entries| < 8 then |c.entries| else 7
  {
    BuildsIff(c, CACHE_CAP, KeyOf(call), call.luck, BLANK, Writing(call), call.computes, net);
  }

  predicate AllWellFormed(calls: seq<Call>) {
    forall i :: 0 <= i < |calls| ==> WellFormed(calls[i])
  }

  /** The cache and the outcomes after a list of calls, starting empty. */
  function Run(net: Network, maxPositions: int, calls: seq<Call>): (r: (Cache<Key, Inputs>, seq<Outcome>))
    requires AllWellFormed(calls)
    ensures |r.1| == |calls|
  {
    if calls == [] then (Cache([], 0), [])
    else
      var (c, outcomes) := Run(net, maxPositions, calls[..|calls| - 1]);
      var (after, outcome) := Step(c, net, maxPositions, calls[|calls| - 1]);
      (after, outcomes + [outcome])
  }

  lemma EmptyIsTidy()
    ensures Tidy<Key, Inputs>(Cache([], 0), CACHE_CAP) && MaskBuffersFit(Cache([], 0))
  {
  }

  /** The cache before call i. */
  function Before(net: Network, maxPositions: int, calls: seq<Call>, i: nat): Cache<Key, Inputs>
    requires AllWellFormed(calls) && i <= |calls|
  {
    Run(net, maxPositions, calls[..i]).0
  }

  /** Over every list of calls the cache stays tidy, every answer is the one a freshly built graph would
      give for the arguments of that very call, and a graph without memory is computed exactly by the
      calls that find one in the cache. */
  lemma {:induction false} RunAnswersFreshly(net: Network, maxPositions: int, calls: seq<Call>)
    requires AllWellFormed(calls)
    ensures Tidy(Run(net, maxPositions, calls).0, CACHE_CAP) && MaskBuffersFit(Run(net, maxPositions, calls).0)
    ensures forall i :: 0 <= i < |calls| ==>
              AnsweredFreshly(Before(net, maxPositions, calls, i), net, maxPositions, calls[i],
                              Run(net, maxPositions, calls).1[i])
  {
    hide Step, Tidy, MaskBuffersFit, AnsweredFreshly;
    if calls == [] {
      EmptyIsTidy();
    } else {
      var m := |calls| - 1;
      RunAnswersFreshly(net, maxPositions, calls[..m]);
      StepKeeps(Before(net, maxPositions, calls, m), net, maxPositions, calls[m]);
      forall i | 0 <= i < m
        ensures Before(net, maxPositions, calls, i) == Before(net, maxPositions, calls[..m], i)
      {
        assert calls[..m][..i] == calls[..i];
      }
    }
  }

  lemma {:induction false} NextBreaksIff(net: Network, maxPositions: int, calls: seq<Call>, n: nat)
    requires AllWellFormed(calls) && n < |calls| && AllAllocated(Before(net, maxPositions, calls, n))
    ensures AllAllocated(Before(net, maxPositions, calls, n + 1)) <==>
      !Breaks(Before(net, maxPositions, calls, n), maxPositions, calls[n])
  {
    hide Step, Tidy, MaskBuffersFit, AllAllocated, Breaks;
    RunAnswersFreshly(net, maxPositions, calls[..n]);
    StepKeeps(Before(net, maxPositions, calls, n), net, maxPositions, calls[n]);
    assert calls[..n + 1][..n] == calls[..n];
  }

  lemma NothingBroken(net: Network, maxPositions: int, calls: seq<Call>)
    requires AllWellFormed(calls)
    ensures AllAllocated(Before(net, maxPositions, calls, 0))
  {
  }

  /** Every graph in the cache is usable all along, up to call n, exactly if no call before it fails the
      last allocation of a graph it builds. */
  lemma {:induction false} UsableIffNoneBreaks(net: Network, maxPositions: int, calls: seq<Call>, n: nat)
    requires AllWellFormed(calls) && n <= |calls|
    ensures (forall i :: 0 <= i <= n ==> AllAllocated(Before(net, maxPositions, calls, i))) <==>
      forall i :: 0 <= i < n ==> !Breaks(Before(net, maxPositions, calls, i), maxPositions, calls[i])
  {
    hide Before, AllAllocated, Breaks;
    if n == 0 {
      NothingBroken(net, maxPositions, calls);
    } else {
      UsableIffNoneBreaks(net, maxPositions, calls, n - 1);
      if AllAllocated(Before(net, maxPositions, calls, n - 1)) {
        NextBreaksIff(net, maxPositions, calls, n - 1);
      }
    }
  }

  /** As long as no call does, none computes a graph without memory. */
  lemma {:induction false} NoneUnspecified(net: Network, maxPositions: int, calls: seq<Call>)
    requires AllWellFormed(calls)
    requires forall i :: 0 <= i < |calls| ==> !Breaks(Before(net, maxPositions, calls, i), maxPositions, calls[i])
    ensures AllAllocated(Run(net, maxPositions, calls).0) && Unspecified !in Run(net, maxPositions, calls).1
  {
    hide Run, Breaks, Acceptable, KeyOf, Tidy, MaskBuffersFit, FreshInputs, GetsGraph;
    UsableIffNoneBreaks(net, maxPositions, calls, |calls|);
    RunAnswersFreshly(net, maxPositions, calls);
    assert AllAllocated(Before(net, maxPositions, calls, |calls|));
    assert calls[..|calls|] == calls;
    forall i | 0 <= i < |calls|
      ensures Run(net, maxPositions, calls).1[i] != Unspecified
    {
      assert AnsweredFreshly(Before(net, maxPositions, calls, i), net, maxPositions, calls[i],
                             Run(net, maxPositions, calls).1[i]);
      assert AllAllocated(Before(net, maxPositions, calls, i));
    }
  }

  // ---------------------------------------------------------------------------------------
  // The program
  // ---------------------------------------------------------------------------------------

  ghost predicate NumberedTo(s: seq<int>, nPos: int, n: int)
    requires 0 < nPos
  {
    forall k :: 0 <= k < |s| && k < n ==> s[k] == k % nPos
  }

  lemma NoneNumbered(s: seq<int>, nPos: int)
    requires 0 < nPos
    ensures NumberedTo(s, nPos, 0 * nPos)
  {
  }

  lemma OneNumbered(s: seq<int>, t: seq<int>, nPos: int, b: int, i: int)
    requires 0 < nPos && 0 <= b && 0 <= i < nPos && 0 <= b * nPos + i < |s|
    requires NumberedTo(s, nPos, b * nPos + i) && t == s[b * nPos + i := i]
    ensures NumberedTo(t, nPos, b * nPos + (i + 1))
  {
    FlatIndex(i, b, nPos);
  }

  lemma RowNumbered(nPos: int, b: int)
    ensures b * nPos + nPos == (b + 1) * nPos
  {
  }

  method BuildPositions(nPos: int, nBatch: int) returns (r: seq<int>)
    requires 0 < nPos && 0 < nBatch
    ensures 0 <= nPos * nBatch && r == Positions(nPos, nPos * nBatch)
  {
    MulMono(1, nPos, nBatch);
    var pos := new int[nPos * nBatch];
    NoneNumbered(pos[..], nPos);
    for b := 0 to nBatch
      invariant NumberedTo(pos[..], nPos, b * nPos)
    {
      hide NumberedTo;
      for i := 0 to nPos
        invariant NumberedTo(pos[..], nPos, b * nPos + i)
      {
        FlatBound(i, b, nPos, nBatch);
        ghost var s := pos[..];
        pos[b * nPos + i] := i;
        OneNumbered(s, pos[..], nPos, b, i);
      }
      RowNumbered(nPos, b);
    }
    r := pos[..];
  }

  /** Columns before k are final, column k down to row q; the rest is zero. */
  ghost predicate ColumnsScored(s: seq<Score>, attention: seq<int>, k: int, q: int)
    requires |attention| > 0
  {
    var n := |attention|;
    forall j :: 0 <= j < |s| ==>
      s[j] == if j % n < k || (j % n == k && j / n < q) then ScoreAt(attention, j % n) else Zero
  }

  lemma ColumnBounds(n: int)
    requires n > 0
    ensures forall j :: 0 <= j < n * n ==> 0 <= j % n < n && 0 <= j / n < n
  {
  }

  lemma {:induction false} ColumnScored(s: seq<Score>, t: seq<Score>, attention: seq<int>, k: int, q: int)
    requires 0 <= k < |attention| && 0 <= q && attention[k] == 0 && ColumnsScored(s, attention, k, q)
    requires 0 <= q * |attention| + k < |s| && t == s[q * |attention| + k := MinusInfinity]
    ensures ColumnsScored(t, attention, k, q + 1)
  {
    var n := |attention|;
    FlatIndex(k, q, n);
    forall j | 0 <= j < |t|
      ensures t[j] == if j % n < k || (j % n == k && j / n < q + 1) then ScoreAt(attention, j % n) else Zero
    {
      DivModBounds(j, n);
    }
  }

  lemma NextColumn(s: seq<Score>, attention: seq<int>, k: int)
    requires 0 <= k < |attention| && |s| == |attention| * |attention| && ColumnsScored(s, attention, k, |attention|)
    ensures ColumnsScored(s, attention, k + 1, 0)
  {
  }

  lemma KeptColumn(s: seq<Score>, attention: seq<int>, k: int)
    requires 0 <= k < |attention| && |s| == |attention| * |attention| && attention[k] != 0
    requires ColumnsScored(s, attention, k, 0)
    ensures ColumnsScored(s, attention, k + 1, 0)
  {
  }

  lemma AllScored(s: seq<Score>, attention: seq<int>)
    requires |attention| > 0 && |s| == |attention| * |attention| && ColumnsScored(s, attention, |attention|, 0)
    ensures s == MaskScores(attention)
  {
  }

  /** Zero everywhere, then minus infinity down the columns of masked tokens. */
  method BuildMask(attention: seq<int>) returns (r: seq<Score>)
    requires |attention| > 0
    ensures r == MaskScores(attention)
  {
    var n := |attention|;
    MulMono(0, n, n);
    var mask := new Score[n * n](_ => Zero);
    for k := 0 to n
      invariant ColumnsScored(mask[..], attention, k, 0)
    {
      ColumnBounds(n);
      if attention[k] == 0 {
        for q := 0 to n
          invariant ColumnsScored(mask[..], attention, k, q)
        {
          ghost var before := mask[..];
          FlatBound(k, q, n, n);
          mask[q * n + k] := MinusInfinity;
          ColumnScored(before, mask[..], attention, k, q);
        }
        NextColumn(mask[..], attention, k);
      } else {
        KeptColumn(mask[..], attention, k);
      }
    }
    AllScored(mask[..], attention);
    r := mask[..];
  }

  /** The loops that fill the position, mask and pooling buffers. */
  method BuildInputs(call: Call, was: Inputs) returns (r: Inputs)
    requires call.nTokens > 0 && call.nBatch > 0 && WellFormed(call)
    ensures r == Written(was, call)
  {
    var positions := BuildPositions(call.nTokens, call.nBatch);
    var mask := was.mask;
    if KeyOf(call).hasMask {
      var scores := BuildMask(call.attention.value);
      mask := Some(scores);
    }
    r := Inputs(call.tokens, positions, mask, seq(call.nBatch, _ => call.nTokens - 1));
  }

  class Encoder {
    const net: Network
    const maxPositions: int
    var graphs: Graphs?<Key, Inputs>   // null until weights have been loaded

    ghost predicate Valid()
      reads this, graphs
    {
      graphs != null ==> graphs.Valid() && graphs.cap == CACHE_CAP && graphs.blank == BLANK
    }

    constructor (net: Network, maxPositions: int)
      ensures Valid() && graphs == null && this.net == net && this.maxPositions == maxPositions
    {
      this.net, this.maxPositions, graphs := net, maxPositions, null;
    }

    /** `load`: whatever was cached before is gone; `ok` tells whether all weights were found. */
    method Load(ok: bool)
      modifies this
      ensures Valid() && if ok then graphs != null && fresh(graphs) && graphs.cache == Cache([], 0) else graphs == null
    {
      graphs := null;
      if ok {
        graphs := new Graphs(CACHE_CAP, BLANK);
      }
    }

    /** `encode_batch`. */
    method EncodeBatch(call: Call) returns (r: Outcome)
      requires Valid() && WellFormed(call)
      modifies graphs
      ensures Valid() && (graphs == null ==> r == Rejected)
      ensures graphs != null ==> (graphs.cache, r) == Step(old(graphs.cache), net, maxPositions, call)
    {
      if graphs == null {
        return Rejected;
      }
      if call.nBatch <= 0 || call.nTokens <= 0 || call.nTokens > maxPositions {
        return Rejected;
      }
      if call.nBatch != 1 && call.attention != None {
        return Rejected;
      }
      var found := graphs.Acquire(KeyOf(call), call.luck);
      if found == None {
        return Failed;
      }
      var i := found.value;
      var inputs := BuildInputs(call, graphs.cache.entries[i].inputs);
      graphs.Write(i, inputs);
      var e := graphs.cache.entries[i];
      if !e.usable {
        return Unspecified;
      }
      if !call.computes {
        return Failed;
      }
      return Answer(net(e.graph, e.inputs));
    }
  }
}
