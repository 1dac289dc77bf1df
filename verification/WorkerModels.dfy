/** The two heavyweight models of a worker (`WorkerModels` of src/server/worker.cpp): the matting model
    and SAM 3, loaded on demand. Each is dropped before the other is loaded, so that the worker never
    holds both. */
module WorkerModels {
  import opened Wrappers

  datatype Config = Config(matting: bool, sam3: bool)

  /** Which models are in memory. SAM 3 also needs a compute state. */
  datatype Slots = Slots(matting: bool, nativeSize: int, sam3: bool, sam3State: bool)

  const EMPTY := Slots(false, 0, false, false)

  /** What happens when SAM 3 is loaded. */
  datatype Sam3Luck = NoModel | VisualOnly | NoState | Usable

  /** A request, and what the loader does should it be called: for matting the native size of the model,
      or nothing when loading throws. */
  datatype Call = Matting(loads: Option<int>) | Parts(luck: Sam3Luck)

  // ---------------------------------------------------------------------------------------
  // Every change of memory, in order
  // ---------------------------------------------------------------------------------------

  function UnloadedMatting(s: Slots): seq<Slots> {
    if !s.matting then [] else [s.(matting := false), s.(matting := false, nativeSize := 0)]
  }

  function UnloadedSam3(s: Slots): seq<Slots> {
    if !s.sam3 && !s.sam3State then [] else [s.(sam3State := false), s.(sam3State := false, sam3 := false)]
  }

  function Last(s: Slots, changes: seq<Slots>): Slots {
    if changes == [] then s else changes[|changes| - 1]
  }

  function MattingChanges(s: Slots, cfg: Config, loads: Option<int>): seq<Slots> {
    if s.matting || !cfg.matting then [] else
      var evicted := UnloadedSam3(s);
      var free := Last(s, evicted);
      match loads
      case None => evicted
      case Some(size) => evicted + [free.(matting := true), free.(matting := true, nativeSize := size)]
  }

  function Sam3Loading(free: Slots, luck: Sam3Luck): seq<Slots> {
    match luck
    case NoModel => []
    case Usable => [free.(sam3 := true), free.(sam3 := true, sam3State := true)]
    case _ => [free.(sam3 := true), free.(sam3 := false)]
  }

  function Sam3Changes(s: Slots, cfg: Config, luck: Sam3Luck): seq<Slots> {
    if s.sam3 || !cfg.sam3 then [] else
      var evicted := UnloadedMatting(s);
      evicted + Sam3Loading(Last(s, evicted), luck)
  }

  function Changes(s: Slots, cfg: Config, call: Call): seq<Slots> {
    match call
    case Matting(loads) => MattingChanges(s, cfg, loads)
    case Parts(luck) => Sam3Changes(s, cfg, luck)
  }

  /** Every state of memory a list of requests goes through, from the start on. */
  function History(cfg: Config, calls: seq<Call>): (h: seq<Slots>)
    ensures |h| > 0
  {
    if calls == [] then [EMPTY] else
      var before := History(cfg, calls[..|calls| - 1]);
      before + Changes(before[|before| - 1], cfg, calls[|calls| - 1])
  }

  // ---------------------------------------------------------------------------------------
  // What is promised
  // ---------------------------------------------------------------------------------------

  /** Between requests. */
  predicate AtRest(s: Slots) {
    !(s.matting && s.sam3) && s.sam3 == s.sam3State && (!s.matting ==> s.nativeSize == 0)
  }

  predicate Apart(s: Slots) {
    !(s.matting && (s.sam3 || s.sam3State))
  }

  lemma NothingLoaded()
    ensures AtRest(EMPTY) && Apart(EMPTY)
  {
  }

  /** One request. */
  lemma OneCall(s: Slots, cfg: Config, call: Call)
    requires AtRest(s)
    ensures var changes := Changes(s, cfg, call);
            AtRest(Last(s, changes)) && forall c :: c in changes ==> Apart(c)
  {
    if call.Parts? {
      var free := Last(s, UnloadedMatting(s));
      assert forall c :: c in UnloadedMatting(s) ==> Apart(c);
      assert forall c :: c in Sam3Loading(free, call.luck) ==> Apart(c);
    }
  }

  lemma {:induction false} NeverBoth(cfg: Config, calls: seq<Call>)
    ensures AtRest(Last(EMPTY, History(cfg, calls)))
    ensures forall s :: s in History(cfg, calls) ==> Apart(s)
  {
    hide Changes, AtRest, Apart;
    if calls == [] {
      NothingLoaded();
    } else {
      var before := History(cfg, calls[..|calls| - 1]);
      NeverBoth(cfg, calls[..|calls| - 1]);
      OneCall(before[|before| - 1], cfg, calls[|calls| - 1]);
    }
  }

  /** Over every list of requests, failing loads included, the models never stack: at no moment is more in
      memory than the larger of the two takes. */
  lemma {:induction false} PeakIsNotTheSum(cfg: Config, calls: seq<Call>, mattingSize: nat, sam3Size: nat)
    ensures forall s :: s in History(cfg, calls) ==>
              var resident := (if s.matting then mattingSize else 0) + if s.sam3 || s.sam3State then sam3Size else 0;
              resident <= if mattingSize < sam3Size then sam3Size else mattingSize
  {
    hide History;
    NeverBoth(cfg, calls);
  }

  /** A request finds its model loaded afterwards if and only if that model is configured and was there or
      could be loaded; then the other one is gone. A model that is there is never loaded again. */
  lemma LoadedIff(s: Slots, cfg: Config, call: Call)
    requires AtRest(s) && (s.matting ==> cfg.matting) && (s.sam3 ==> cfg.sam3)
    ensures var after := Last(s, Changes(s, cfg, call));
            match call
            case Matting(loads) =>
              && (after.matting <==> cfg.matting && (s.matting || loads.Some?))
              && (after.matting ==> !after.sam3 && !after.sam3State)
              && (s.matting ==> after == s)
            case Parts(luck) =>
              && (after.sam3 <==> cfg.sam3 && (s.sam3 || luck == Usable))
              && (after.sam3 ==> !after.matting && after.nativeSize == 0)
              && (s.sam3 ==> after == s)
  {
  }

  // ---------------------------------------------------------------------------------------
  // The program
  // ---------------------------------------------------------------------------------------

  class WorkerModels {
    const cfg: Config
    var matting: bool
    var nativeSize: int
    var sam3: bool
    var sam3State: bool
    ghost var history: seq<Slots>

    function State(): Slots
      reads this
    {
      Slots(matting, nativeSize, sam3, sam3State)
    }

    ghost predicate Valid()
      reads this
    {
      |history| > 0 && history[|history| - 1] == State()
    }

    constructor (cfg: Config)
      ensures Valid() && this.cfg == cfg && history == History(cfg, [])
    {
      this.cfg := cfg;
      matting, nativeSize, sam3, sam3State := false, 0, false, false;
      history := [EMPTY];
    }

    /** Keeps the state of memory in mind. */
    ghost method Note()
      modifies `history
      ensures Valid() && history == old(history) + [State()]
    {
      history := history + [State()];
    }

    /** `unload_matting`. */
    method UnloadMatting()
      requires Valid()
      modifies this
      ensures Valid() && history == old(history) + UnloadedMatting(old(State()))
    {
      if !matting {
        return;
      }
      matting := false;
      Note();
      nativeSize := 0;
      Note();
    }

    /** `unload_sam3`: the compute state goes before the model. */
    method UnloadSam3()
      requires Valid()
      modifies this
      ensures Valid() && history == old(history) + UnloadedSam3(old(State()))
    {
      if !sam3 && !sam3State {
        return;
      }
      sam3State := false;
      Note();
      sam3 := false;
      Note();
    }

    /** `load_matting`; false stands for the exception. */
    method LoadMatting(loads: Option<int>) returns (ok: bool)
      requires Valid()
      modifies this
      ensures Valid() && history == old(history) + MattingChanges(old(State()), cfg, loads)
      ensures ok <==> old(matting) || !cfg.matting || loads.Some?
    {
      if matting || !cfg.matting {
        return true;
      }
      UnloadSam3();
      if loads.None? {
        return false;
      }
      matting := true;
      Note();
      nativeSize := loads.value;
      Note();
      return true;
    }

    method ReadSam3(luck: Sam3Luck) returns (ok: bool)
      requires Valid() && !sam3 && !sam3State
      modifies this
      ensures Valid() && history == old(history) + Sam3Loading(old(State()), luck)
      ensures ok <==> luck == Usable
    {
      if luck == NoModel {
        return false;
      }
      sam3 := true;
      Note();
      if luck == VisualOnly {
        sam3 := false;
        Note();
        return false;
      }
      if luck == NoState {
        sam3 := false;
        Note();
        return false;
      }
      sam3State := true;
      Note();
      return true;
    }

    /** `load_sam3`; false stands for the exceptions. */
    method LoadSam3(luck: Sam3Luck) returns (ok: bool)
      requires Valid() && sam3 == sam3State
      modifies this
      ensures Valid() && history == old(history) + Sam3Changes(old(State()), cfg, luck)
      ensures ok <==> old(sam3) || (cfg.sam3 && luck == Usable)
    {
      if sam3 {
        return true;
      }
      if !cfg.sam3 {
        return false;
      }
      UnloadMatting();
      ok := ReadSam3(luck);
    }
  }
}
