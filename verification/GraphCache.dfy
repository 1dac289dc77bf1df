/** The compute-graph cache that `VisionEncoder::encode` (src/siglip2/vision.cpp) and
    `TextEncoder::encode_batch` (src/siglip2/text.cpp) both keep: a list of built graphs in the order they
    were built, looked up by the arguments that shape the graph. */
module GraphCache {
  import opened Wrappers

  /** One cached graph. `key` is what lookups compare, `graph` the arguments the graph was built from;
      `inputs` are its input buffers, which keep their contents between calls; `built` numbers the graphs
      built so far. */
  datatype Entry<K, I> = Entry(key: K, graph: K, usable: bool, inputs: I, built: nat)

  /** Whether the three allocations of a build succeed. */
  datatype Luck = Luck(init: bool, reserve: bool, alloc: bool)

  datatype Cache<K, I> = Cache(entries: seq<Entry<K, I>>, builds: nat)

  predicate HasKey<K(==), I>(c: Cache<K, I>, key: K) {
    exists i :: 0 <= i < |c.entries| && c.entries[i].key == key
  }

  /** The entry a lookup finds, or the length of the list. */
  function Find<K(==), I>(entries: seq<Entry<K, I>>, key: K): (i: nat)
    ensures i <= |entries| && (i < |entries| ==> entries[i].key == key)
    ensures forall j :: 0 <= j < i ==> entries[j].key != key
  {
    if entries == [] then 0 else if entries[0].key == key then 0 else 1 + Find(entries[1..], key)
  }

  /** Room for one more: the oldest graph goes when the cache is full. */
  function Evicted<K, I>(c: Cache<K, I>, cap: nat): Cache<K, I> {
    if |c.entries| >= cap > 0 then c.(entries := c.entries[1..]) else c
  }

  function Built<K, I>(c: Cache<K, I>, key: K, usable: bool, blank: I): Cache<K, I> {
    Cache(c.entries + [Entry(key, key, usable, blank, c.builds)], c.builds + 1)
  }

  /** Keys are unique and those of their graphs, graphs are in the order they were built, and there are
      at most `cap` of them. */
  ghost predicate Tidy<K, I>(c: Cache<K, I>, cap: nat) {
    && |c.entries| <= cap
    && (forall i, j :: 0 <= i < j < |c.entries| ==> c.entries[i].key != c.entries[j].key)
    && (forall i, j :: 0 <= i < j < |c.entries| ==> c.entries[i].built < c.entries[j].built)
    && forall i :: 0 <= i < |c.entries| ==> c.entries[i].built < c.builds && c.entries[i].graph == c.entries[i].key
  }

  /** What a call finds or builds: the cache after it and the entry to use, if there is one. */
  function Acquired<K(==), I>(c: Cache<K, I>, cap: nat, key: K, luck: Luck, blank: I): (r: (Cache<K, I>, Option<nat>))
    requires cap > 0
    ensures r.1.Some? ==> r.1.value < |r.0.entries| && r.0.entries[r.1.value].key == key
  {
    var i := Find(c.entries, key);
    if i < |c.entries| then (c, Some(i))
    else
      var room := Evicted(c, cap);
      if !luck.init || !luck.reserve then (room, None)
      else
        var full := Built(room, key, luck.alloc, blank);
        (full, if luck.alloc then Some(|room.entries|) else None)
  }

  /** The input buffers of one entry rewritten. */
  function Rewritten<K, I>(c: Cache<K, I>, i: nat, inputs: I): Cache<K, I>
    requires i < |c.entries|
  {
    c.(entries := c.entries[i := c.entries[i].(inputs := inputs)])
  }

  /** What a call makes of the graph it has: `Unspecified` is what computing a graph without memory
      gives. */
  datatype Outcome = Rejected | Failed | Unspecified | Answer(values: seq<real>)

  /** One call past its checks: find or build the graph, write its inputs, compute. What is computed is
      what the cached entry's own graph makes of the entry's own buffers. */
  function Encoded<K(==), I>(
      c: Cache<K, I>, cap: nat, key: K, luck: Luck, blank: I, write: I -> I, computes: bool, net: (K, I) -> seq<real>)
      : (r: (Cache<K, I>, Outcome))
    requires cap > 0
  {
    var (after, found) := Acquired(c, cap, key, luck, blank);
    match found
    case None => (after, Failed)
    case Some(i) =>
      var e := after.entries[i].(inputs := write(after.entries[i].inputs));
      (Rewritten(after, i, e.inputs),
       if !e.usable then Unspecified else if !computes then Failed else Answer(net(e.graph, e.inputs)))
  }

  lemma {:induction false} FoundAt<K, I>(entries: seq<Entry<K, I>>, key: K, i: nat)
    requires i <= |entries| && forall j :: 0 <= j < i ==> entries[j].key != key
    requires i < |entries| ==> entries[i].key == key
    ensures Find(entries, key) == i
  {
  }

  lemma {:induction false} TidyAfterBuild<K, I>(c: Cache<K, I>, cap: nat, key: K, usable: bool, blank: I)
    requires cap > 0 && Tidy(c, cap) && forall i :: 0 <= i < |c.entries| ==> c.entries[i].key != key
    ensures Tidy(Evicted(c, cap), cap) && Tidy(Built(Evicted(c, cap), key, usable, blank), cap)
  {
  }

  // ---------------------------------------------------------------------------------------
  // What the cache does over time
  // ---------------------------------------------------------------------------------------

  /** Every call keeps the cache tidy, and every graph it drops is older than all it keeps. */
  lemma {:induction false} OldestGoesFirst<K, I>(c: Cache<K, I>, cap: nat, key: K, luck: Luck, blank: I, e: Entry<K, I>)
    requires cap > 0 && Tidy(c, cap)
    ensures var after := Acquired(c, cap, key, luck, blank).0;
            && Tidy(after, cap)
            && (e in c.entries && e !in after.entries ==>
                  |c.entries| == cap && !HasKey(c, key) && forall o :: o in after.entries ==> e.built < o.built)
  {
    var i := Find(c.entries, key);
    if i == |c.entries| {
      TidyAfterBuild(c, cap, key, luck.alloc, blank);
      if e in c.entries && |c.entries| >= cap {
        assert c.entries == [c.entries[0]] + c.entries[1..];
      }
    }
  }

  ghost predicate AllAllocated<K, I>(c: Cache<K, I>) {
    forall i :: 0 <= i < |c.entries| ==> c.entries[i].usable
  }

  /** The call builds a graph whose last allocation fails. */
  predicate AllocationFails<K(==), I>(c: Cache<K, I>, key: K, luck: Luck) {
    !HasKey(c, key) && luck.init && luck.reserve && !luck.alloc
  }

  /** Every cached graph stays usable exactly as long as no call fails the last allocation of a graph it
      builds. */
  lemma {:induction false} AllAllocatedIff<K, I>(c: Cache<K, I>, cap: nat, key: K, luck: Luck, blank: I)
    requires cap > 0 && AllAllocated(c)
    ensures AllAllocated(Acquired(c, cap, key, luck, blank).0) <==> !AllocationFails(c, key, luck)
  {
    var i := Find(c.entries, key);
    assert HasKey(c, key) <==> i < |c.entries|;
    var after := Acquired(c, cap, key, luck, blank).0;
    if AllocationFails(c, key, luck) {
      assert !after.entries[|after.entries| - 1].usable;
    }
  }

  /** If that allocation fails, the next call with the same key gets the unusable graph. */
  lemma {:induction false} FailedAllocationIsKept<K, I>(
      c: Cache<K, I>, cap: nat, key: K, luck: Luck, next: Luck, blank: I)
    requires cap > 0 && Tidy(c, cap) && !HasKey(c, key) && luck.init && luck.reserve && !luck.alloc
    ensures var after := Acquired(c, cap, key, luck, blank);
            var again := Acquired(after.0, cap, key, next, blank);
            && after.1 == None && again.0 == after.0 && again.1.Some?
            && !again.0.entries[again.1.value].usable
  {
    var room := Evicted(c, cap);
    FoundAt(c.entries, key, |c.entries|);
    FoundAt(Built(room, key, false, blank).entries, key, |room.entries|);
  }

  /** There is an unusable graph for the key. */
  predicate HasUnusable<K(==), I>(c: Cache<K, I>, key: K) {
    exists i :: 0 <= i < |c.entries| && c.entries[i].key == key && !c.entries[i].usable
  }

  /** A call computes a graph without memory exactly if the cache held such a graph for its key. */
  lemma {:induction false} UnspecifiedIff<K, I>(
      c: Cache<K, I>, cap: nat, key: K, luck: Luck, blank: I, write: I -> I, computes: bool, net: (K, I) -> seq<real>)
    requires cap > 0 && Tidy(c, cap)
    ensures Encoded(c, cap, key, luck, blank, write, computes, net).1 == Unspecified <==> HasUnusable(c, key)
  {
    var i := Find(c.entries, key);
    if HasUnusable(c, key) {
      var j :| 0 <= j < |c.entries| && c.entries[j].key == key && !c.entries[j].usable;
      assert i == j;
    }
  }

  /** A usable graph for the key is there, or all three allocations of a new one succeed. */
  predicate GetsGraph<K(==), I>(c: Cache<K, I>, key: K, luck: Luck) {
    if HasKey(c, key) then !HasUnusable(c, key) else luck.init && luck.reserve && luck.alloc
  }

  /** A call answers exactly if it gets a graph and the computation succeeds. */
  lemma {:induction false} AnswersIff<K, I>(
      c: Cache<K, I>, cap: nat, key: K, luck: Luck, blank: I, write: I -> I, computes: bool, net: (K, I) -> seq<real>)
    requires cap > 0 && Tidy(c, cap)
    ensures Encoded(c, cap, key, luck, blank, write, computes, net).1.Answer? <==> GetsGraph(c, key, luck) && computes
    ensures Encoded(c, cap, key, luck, blank, write, computes, net).1 != Rejected
  {
    var i := Find(c.entries, key);
    assert HasKey(c, key) <==> i < |c.entries|;
    if HasUnusable(c, key) {
      var j :| 0 <= j < |c.entries| && c.entries[j].key == key && !c.entries[j].usable;
      assert i == j;
    }
  }

  /** A graph that is there is used again; one that is not makes room for itself in a full cache and is built
      if its first two allocations succeed. */
  lemma {:induction false} BuildsIff<K, I>(
      c: Cache<K, I>, cap: nat, key: K, luck: Luck, blank: I, write: I -> I, computes: bool, net: (K, I) -> seq<real>)
    requires cap > 0 && Tidy(c, cap)
    ensures var after := Encoded(c, cap, key, luck, blank, write, computes, net).0;
            var builds := !HasKey(c, key) && luck.init && luck.reserve;
            && after.builds == c.builds + (if builds then 1 else 0)
            && |after.entries| == |c.entries| + (if builds then 1 else 0)
                                              - (if !HasKey(c, key) && |c.entries| == cap then 1 else 0)
  {
    var i := Find(c.entries, key);
    assert HasKey(c, key) <==> i < |c.entries|;
  }

  /** What answers a call is the graph of the call's own key. */
  lemma {:induction false} RunsOwnGraph<K, I>(
      c: Cache<K, I>, cap: nat, key: K, luck: Luck, blank: I, write: I -> I, computes: bool, net: (K, I) -> seq<real>)
    requires cap > 0 && Tidy(c, cap)
    ensures var (after, found) := Acquired(c, cap, key, luck, blank);
            var r := Encoded(c, cap, key, luck, blank, write, computes, net).1;
            && (r.Answer? ==> found.Some? && r.values == net(key, write(after.entries[found.value].inputs)))
            && (r.Answer? ==> after.entries[found.value].key == key)
  {
    if Find(c.entries, key) == |c.entries| {
      TidyAfterBuild(c, cap, key, luck.alloc, blank);
    }
  }

  lemma {:induction false} RewriteKeeps<K, I>(c: Cache<K, I>, cap: nat, i: nat, inputs: I)
    requires i < |c.entries|
    ensures Tidy(c, cap) <==> Tidy(Rewritten(c, i, inputs), cap)
    ensures AllAllocated(c) <==> AllAllocated(Rewritten(c, i, inputs))
  {
    var after := Rewritten(c, i, inputs);
    forall j | 0 <= j < |c.entries|
      ensures c.entries[j].key == after.entries[j].key && c.entries[j].built == after.entries[j].built
      ensures c.entries[j].usable == after.entries[j].usable && c.entries[j].graph == after.entries[j].graph
    {
    }
  }

  /** Calls keep the cache tidy, and its graphs usable under the same condition. */
  lemma {:induction false} EncodedKeeps<K, I>(
      c: Cache<K, I>, cap: nat, key: K, luck: Luck, blank: I, write: I -> I, computes: bool, net: (K, I) -> seq<real>)
    requires cap > 0 && Tidy(c, cap)
    ensures Tidy(Encoded(c, cap, key, luck, blank, write, computes, net).0, cap)
    ensures AllAllocated(c) ==>
              (AllAllocated(Encoded(c, cap, key, luck, blank, write, computes, net).0) <==>
                 !AllocationFails(c, key, luck))
  {
    if Find(c.entries, key) == |c.entries| {
      TidyAfterBuild(c, cap, key, luck.alloc, blank);
    }
    var (after, found) := Acquired(c, cap, key, luck, blank);
    if AllAllocated(c) {
      AllAllocatedIff(c, cap, key, luck, blank);
    }
    if found.Some? {
      RewriteKeeps(after, cap, found.value, write(after.entries[found.value].inputs));
    }
  }

  // ---------------------------------------------------------------------------------------
  // The program
  // ---------------------------------------------------------------------------------------

  class Graphs<K(==), I(0)> {
    const cap: nat
    const blank: I
    var cache: Cache<K, I>

    ghost predicate Valid()
      reads this
    {
      cap > 0 && Tidy(cache, cap)
    }

    constructor (cap: nat, blank: I)
      requires cap > 0
      ensures Valid() && this.cap == cap && this.blank == blank && cache == Cache([], 0)
    {
      this.cap, this.blank, this.cache := cap, blank, Cache([], 0);
    }

    /** The entry for a key, or the length of the list. */
    method Lookup(key: K) returns (i: nat)
      ensures i == Find(cache.entries, key)
    {
      i := 0;
      while i < |cache.entries|
        invariant i <= |cache.entries|
        invariant forall j :: 0 <= j < i ==> cache.entries[j].key != key
      {
        if cache.entries[i].key == key {
          break;
        }
        i := i + 1;
      }
      FoundAt(cache.entries, key, i);
    }

    /** The branch for a key that is not cached. */
    method Build(key: K, luck: Luck) returns (built: bool)
      requires cap > 0
      modifies this
      ensures built == (luck.init && luck.reserve)
      ensures var room := Evicted(old(cache), cap);
              cache == if built then Built(room, key, luck.alloc, blank) else room
    {
      if |cache.entries| >= cap {
        cache := cache.(entries := cache.entries[1..]);
      }
      var n := |cache.entries|;
      cache := cache.(entries := cache.entries + [Entry(key, key, false, blank, cache.builds)]);
      if !luck.init || !luck.reserve {
        cache := cache.(entries := cache.entries[..n]);
        return false;
      }
      cache := cache.(builds := cache.builds + 1);
      if luck.alloc {
        cache := cache.(entries := cache.entries[n := cache.entries[n].(usable := true)]);
      }
      return true;
    }

    /** Lookup, eviction, build. A graph whose last allocation fails stays in the cache. */
    method Acquire(key: K, luck: Luck) returns (found: Option<nat>)
      requires Valid()
      modifies this
      ensures Valid() && (cache, found) == Acquired(old(cache), cap, key, luck, blank)
    {
      var i := Lookup(key);
      if i < |cache.entries| {
        return Some(i);
      }
      TidyAfterBuild(cache, cap, key, luck.alloc, blank);
      hide Tidy, Find;
      var built := Build(key, luck);
      found := if built && luck.alloc then Some(|cache.entries| - 1) else None;
    }

    /** Writes the input buffers of an entry. */
    method Write(i: nat, inputs: I)
      requires Valid() && i < |cache.entries|
      modifies this
      ensures Valid() && cache == Rewritten(old(cache), i, inputs)
    {
      cache := Rewritten(cache, i, inputs);
    }
  }
}
