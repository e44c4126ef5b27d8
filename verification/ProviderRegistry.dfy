/** The payment-provider registry: each provider is built once, on first use, however many callers
    ask for it at once and whenever the registry is cleared. */
module ProviderRegistry {
  import opened Blanks
  import opened Decimals

  /** A provider instance: which object it is, and the name it reports. */
  datatype Provider = Provider(id: nat, name: string)

  /** What a factory call comes back with. */
  datatype Outcome = Built(provider: Provider) | NilProvider | FactoryError(code: int)

  datatype GetError = NameRequired | NotConfigured | FactoryFailed(code: int) | ReturnedNil | ReturnedOther | Cancelled

  type Loaded = Result<Provider, GetError>

  /** One factory call, shared by everybody who asked meanwhile; `result` is set when it is published. */
  datatype Load = Load(name: string, generation: nat, result: Option<Loaded>)

  /** The registry's fields. A load is known by its place in `loads`. */
  datatype Registry = Registry(
    instances: map<string, Provider>,
    loading: map<string, nat>,
    generation: nat,
    loads: seq<Load>)

  /** Where a lookup stands after entering: answered, waiting for a load, running the factory, or
      gone without ever coming back from it, as when the factory panics. */
  datatype Phase = Returned(result: Loaded) | Waiting(load: nat) | Running(load: nat) | Abandoned(load: nat)

  function Checked(name: string, outcome: Outcome): Loaded {
    match outcome
    case FactoryError(code) => Failure(FactoryFailed(code))
    case NilProvider => Failure(ReturnedNil)
    case Built(p) => if Trim(p.name) != name then Failure(ReturnedOther) else Success(p)
  }

  // ----- The lock sections, as functions of the registry -----

  function Enter(factories: set<string>, r: Registry, name: string): (Registry, Phase) {
    if name == "" then (r, Returned(Failure(NameRequired)))
    else if name in r.instances then (r, Returned(Success(r.instances[name])))
    else if name in r.loading then (r, Waiting(r.loading[name]))
    else if name !in factories then (r, Returned(Failure(NotConfigured)))
    else
      (r.(loading := r.loading[name := |r.loads|], loads := r.loads + [Load(name, r.generation, None)]),
       Running(|r.loads|))
  }

  function Finish(r: Registry, id: nat, outcome: Outcome): Registry
    requires id < |r.loads|
  {
    var load := r.loads[id];
    var result := Checked(load.name, outcome);
    Registry(
      if result.Success? && load.generation == r.generation then r.instances[load.name := result.value] else r.instances,
      if load.name in r.loading && r.loading[load.name] == id then r.loading - {load.name} else r.loading,
      r.generation,
      r.loads[id := load.(result := Some(result))])
  }

  function Clear(r: Registry): Registry {
    Registry(map[], map[], r.generation + 1, r.loads)
  }

  /** The registry as an object; each method is one critical section. */
  class ProviderRegistry {
    const factories: set<string>
    var instances: map<string, Provider>
    var loading: map<string, nat>
    var generation: nat
    var loads: seq<Load>

    constructor (factories: set<string>)
      ensures this.factories == factories && Model() == Registry(map[], map[], 0, [])
    {
      this.factories := factories;
      instances, loading, generation, loads := map[], map[], 0, [];
    }

    ghost function Model(): Registry
      reads this
    {
      Registry(instances, loading, generation, loads)
    }

    method ClearCache()
      modifies this
      ensures Model() == Clear(old(Model()))
    {
      generation := generation + 1;
      instances := map[];
      loading := map[];
    }

    /** The first half of a lookup: an answer, a load to wait for, or a load to run. */
    method BeginGet(requested: string) returns (phase: Phase)
      modifies this
      ensures (Model(), phase) == Enter(factories, old(Model()), Trim(requested))
    {
      var name := Trim(requested);
      if name == "" { return Returned(Failure(NameRequired)); }
      if name in instances { return Returned(Success(instances[name])); }
      if name in loading { return Waiting(loading[name]); }
      if name !in factories { return Returned(Failure(NotConfigured)); }
      var id := |loads|;
      loads := loads + [Load(name, generation, None)];
      loading := loading[name := id];
      return Running(id);
    }

    /** The second half, for the caller that ran the factory. */
    method EndGet(id: nat, outcome: Outcome) returns (result: Loaded)
      requires id < |loads|
      modifies this
      ensures Model() == Finish(old(Model()), id, outcome)
      ensures result == Checked(old(loads)[id].name, outcome)
    {
      var load := loads[id];
      match outcome {
        case FactoryError(code) => result := Failure(FactoryFailed(code));
        case NilProvider => result := Failure(ReturnedNil);
        case Built(p) => result := if Trim(p.name) != load.name then Failure(ReturnedOther) else Success(p);
      }
      if load.name in loading && loading[load.name] == id { loading := loading - {load.name}; }
      loads := loads[id := load.(result := Some(result))];
      if result.Success? && load.generation == generation {
        instances := instances[load.name := result.value];
      }
    }
  }

  // ----- Which provider a checkout uses -----

  datatype SelectError = NoneCompatible | NotCompatible(name: string) | Ambiguous

  /** The usable names of a compatibility list. */
  function Names(compatible: seq<string>): set<string> {
    set c | c in compatible && Trim(c) != "" :: Trim(c)
  }

  /** A usable name is a listed one without the white space around it, if that leaves anything. */
  lemma UsableIff(compatible: seq<string>, name: string)
    ensures name in Names(compatible) <==> name != "" && exists i :: 0 <= i < |compatible| && Trim(compatible[i]) == name
  {
    hide Trim;
  }

  /** The name to look up: the one requested, else the fallback, else the only compatible one. A
      name that is given and not compatible is an error, not a reason to look further. */
  method SelectName(requested: string, fallback: string, compatible: seq<string>) returns (r: Result<string, SelectError>)
    ensures r.Success? ==> r.value in Names(compatible)
    ensures r == Failure(NoneCompatible) <==> Names(compatible) == {}
    ensures forall given | given == (if IsBlank(requested) then Trim(fallback) else Trim(requested)) && given != "" ::
              Names(compatible) != {} ==> r == if given in Names(compatible) then Success(given) else Failure(NotCompatible(given))
    ensures IsBlank(requested) && IsBlank(fallback) ==> forall name :: r == Success(name) <==> Names(compatible) == {name}
    ensures r == Failure(Ambiguous) ==> IsBlank(requested) && IsBlank(fallback) && |Names(compatible)| >= 2
  {
    TrimEmptyIffBlank(requested);
    TrimEmptyIffBlank(fallback);
    hide Trim, IsBlank;
    var allowed: set<string> := {};
    for i := 0 to |compatible|
      invariant allowed == Names(compatible[..i])
    {
      var name := Trim(compatible[i]);
      assert compatible[..i + 1] == compatible[..i] + [compatible[i]];
      if name != "" { allowed := allowed + {name}; }
    }
    assert compatible[..|compatible|] == compatible;
    if |allowed| == 0 { return Failure(NoneCompatible); }
    var candidates := [requested, fallback];
    for i := 0 to 2
      invariant forall k | 0 <= k < i :: Trim(candidates[k]) == ""
    {
      assert i == 1 ==> Trim(candidates[0]) == "";
      var candidate := Trim(candidates[i]);
      if candidate != "" {
        return if candidate in allowed then Success(candidate) else Failure(NotCompatible(candidate));
      }
    }
    assert Trim(candidates[0]) == "" && Trim(candidates[1]) == "";
    if |allowed| != 1 { return Failure(Ambiguous); }
    var only :| only in allowed;
    assert allowed == {only} by { Singleton(allowed, only); }
    return Success(only);
  }

  lemma Singleton(s: set<string>, x: string)
    requires |s| == 1 && x in s
    ensures s == {x}
  {
    assert |s - {x}| == 0;
    assert s == (s - {x}) + {x};
  }

  // ----- Every interleaving of lookups and clears -----

  /** A lookup in progress or finished, and the generation it started in. */
  datatype Get = Get(name: string, started: nat, phase: Phase)

  datatype World = World(registry: Registry, gets: seq<Get>)

  datatype Action =
    | Begin(requested: string)
    | End(get: nat, outcome: Outcome)
    | Receive(get: nat)
    | GiveUp(get: nat)
    | Abandon(get: nat)
    | ClearAll

  const START := World(Registry(map[], map[], 0, []), [])

  function Answered(w: World, g: nat, result: Loaded): seq<Get>
    requires g < |w.gets|
  {
    w.gets[g := w.gets[g].(phase := Returned(result))]
  }

  /** One step; an action that is not enabled changes nothing. */
  function Step(factories: set<string>, w: World, a: Action): World {
    match a
    case Begin(requested) =>
      var name := Trim(requested);
      var (r, phase) := Enter(factories, w.registry, name);
      World(r, w.gets + [Get(name, w.registry.generation, phase)])
    case End(g, outcome) =>
      if g < |w.gets| && w.gets[g].phase.Running? && w.gets[g].phase.load < |w.registry.loads| then
        World(Finish(w.registry, w.gets[g].phase.load, outcome), Answered(w, g, Checked(w.gets[g].name, outcome)))
      else w
    case Receive(g) =>
      if g < |w.gets| && w.gets[g].phase.Waiting? && w.gets[g].phase.load < |w.registry.loads|
         && w.registry.loads[w.gets[g].phase.load].result.Some?
      then w.(gets := Answered(w, g, w.registry.loads[w.gets[g].phase.load].result.value))
      else w
    case GiveUp(g) =>
      if g < |w.gets| && w.gets[g].phase.Waiting? then w.(gets := Answered(w, g, Failure(Cancelled))) else w
    case Abandon(g) =>
      if g < |w.gets| && w.gets[g].phase.Running?
      then w.(gets := w.gets[g := w.gets[g].(phase := Abandoned(w.gets[g].phase.load))])
      else w
    case ClearAll => w.(registry := Clear(w.registry))
  }

  function Run(factories: set<string>, actions: seq<Action>): World {
    if actions == [] then START
    else Step(factories, Run(factories, actions[..|actions| - 1]), actions[|actions| - 1])
  }

  // ----- Invariants -----

  predicate Succeeded(load: Load) {
    load.result.Some? && load.result.value.Success?
  }

  ghost predicate CameFrom(loads: seq<Load>, name: string, generation: nat, p: Provider) {
    exists i :: 0 <= i < |loads| && loads[i] == Load(name, generation, Some(Success(p)))
  }

  /** A name listed as loading names a call in flight of this generation, and is not cached. */
  ghost predicate ListedInFlight(r: Registry) {
    forall n | n in r.loading ::
      r.loading[n] < |r.loads| && r.loads[r.loading[n]] == Load(n, r.generation, None) && n !in r.instances
  }

  /** A call of this generation that is in flight is listed, and one that succeeded is cached. */
  ghost predicate CurrentKept(r: Registry, i: nat)
    requires i < |r.loads|
  {
    var load := r.loads[i];
    load.generation == r.generation ==>
      && (load.result.None? ==> load.name in r.loading && r.loading[load.name] == i)
      && (Succeeded(load) ==> load.name in r.instances && r.instances[load.name] == load.result.value.value)
  }

  ghost predicate LoadsKept(r: Registry) {
    forall i | 0 <= i < |r.loads| :: r.loads[i].generation <= r.generation && CurrentKept(r, i)
  }

  /** A cached instance is the result of a call of this generation. */
  ghost predicate CacheFits(r: Registry) {
    forall n | n in r.instances :: CameFrom(r.loads, n, r.generation, r.instances[n])
  }

  ghost predicate Failed(load: Load) {
    load.result.Some? && load.result.value.Failure?
  }

  /** Of the loads of one name in one generation, all but the last have failed. */
  ghost predicate OnlyLastCounts(loads: seq<Load>) {
    forall i, j | 0 <= i < j < |loads| && loads[i].name == loads[j].name && loads[i].generation == loads[j].generation ::
      Failed(loads[i])
  }

  ghost predicate Consistent(r: Registry) {
    ListedInFlight(r) && LoadsKept(r) && CacheFits(r) && OnlyLastCounts(r.loads)
  }

  ghost predicate GetFits(loads: seq<Load>, g: Get) {
    match g.phase
    case Running(id) => id < |loads| && loads[id] == Load(g.name, g.started, None)
    case Abandoned(id) => id < |loads| && loads[id] == Load(g.name, g.started, None)
    case Waiting(id) => id < |loads| && loads[id].name == g.name && loads[id].generation == g.started
    case Returned(result) => result.Success? ==> CameFrom(loads, g.name, g.started, result.value)
  }

  ghost predicate HasRunner(gets: seq<Get>, id: nat) {
    exists g :: 0 <= g < |gets| && gets[g].phase == Running(id)
  }

  ghost predicate WasAbandoned(gets: seq<Get>, id: nat) {
    exists g :: 0 <= g < |gets| && gets[g].phase == Abandoned(id)
  }

  /** The lookup started the load's factory call and has not finished it. */
  predicate Owns(g: Get) {
    g.phase.Running? || g.phase.Abandoned?
  }

  ghost predicate HasOwner(gets: seq<Get>, id: nat) {
    exists g :: 0 <= g < |gets| && Owns(gets[g]) && gets[g].phase.load == id
  }

  ghost predicate AllFit(w: World) {
    forall g | 0 <= g < |w.gets| :: GetFits(w.registry.loads, w.gets[g])
  }

  ghost predicate OneOwner(gets: seq<Get>) {
    forall a, b | 0 <= a < b < |gets| && Owns(gets[a]) && Owns(gets[b]) :: gets[a].phase.load != gets[b].phase.load
  }

  ghost predicate NoneOrphaned(w: World) {
    forall i | 0 <= i < |w.registry.loads| && w.registry.loads[i].result.None? :: HasOwner(w.gets, i)
  }

  /** Every lookup fits the load it belongs to, and every call in flight has exactly one owner. */
  ghost predicate Safe(w: World) {
    Consistent(w.registry) && AllFit(w) && OneOwner(w.gets) && NoneOrphaned(w)
  }

  /** What has been published stays, and loads keep their name and generation. */
  ghost predicate Extends(before: seq<Load>, after: seq<Load>) {
    && |before| <= |after|
    && forall i | 0 <= i < |before| ::
         && after[i].name == before[i].name && after[i].generation == before[i].generation
         && (before[i].result.Some? ==> after[i] == before[i])
  }

  lemma SurvivesExtension(before: seq<Load>, after: seq<Load>, name: string, generation: nat, p: Provider)
    requires Extends(before, after) && CameFrom(before, name, generation, p)
    ensures CameFrom(after, name, generation, p)
  {
    var i :| 0 <= i < |before| && before[i] == Load(name, generation, Some(Success(p)));
    assert after[i] == before[i];
  }

  // ----- The registry keeps its invariants -----

  /** The registry once a new factory call has been listed. */
  function Begun(r: Registry, name: string): Registry {
    r.(loading := r.loading[name := |r.loads|], loads := r.loads + [Load(name, r.generation, None)])
  }

  lemma BegunListed(r: Registry, name: string)
    requires ListedInFlight(r) && name !in r.instances
    ensures ListedInFlight(Begun(r, name))
  {
    var next := Begun(r, name);
    forall n | n in next.loading
      ensures next.loading[n] < |next.loads| && next.loads[next.loading[n]] == Load(n, next.generation, None) && n !in next.instances
    {
      if n != name { assert n in r.loading; }
    }
  }

  lemma BegunLoads(r: Registry, name: string)
    requires LoadsKept(r) && OnlyLastCounts(r.loads) && name !in r.instances && name !in r.loading
    ensures LoadsKept(Begun(r, name)) && OnlyLastCounts(Begun(r, name).loads)
  {
    var next := Begun(r, name);
    forall i | 0 <= i < |next.loads| ensures next.loads[i].generation <= next.generation && CurrentKept(next, i) {
      if i < |r.loads| { assert CurrentKept(r, i); }
    }
    forall i, j | 0 <= i < j < |next.loads| && next.loads[i].name == next.loads[j].name
                  && next.loads[i].generation == next.loads[j].generation
      ensures Failed(next.loads[i])
    {
      assert next.loads[i] == r.loads[i];
      if j == |r.loads| { assert CurrentKept(r, i); } else { assert next.loads[j] == r.loads[j]; }
    }
  }

  lemma CacheSurvives(r: Registry, next: Registry)
    requires CacheFits(r) && Extends(r.loads, next.loads)
    requires next.instances == r.instances && next.generation == r.generation
    ensures CacheFits(next)
  {
    hide Extends, CameFrom;
    forall n | n in next.instances ensures CameFrom(next.loads, n, next.generation, next.instances[n]) {
      SurvivesExtension(r.loads, next.loads, n, r.generation, r.instances[n]);
    }
  }

  lemma EnterConsistent(factories: set<string>, r: Registry, name: string)
    requires Consistent(r)
    ensures var next := Enter(factories, r, name).0;
            Consistent(next) && Extends(r.loads, next.loads)
  {
    if name !in r.instances && name !in r.loading {
      BegunListed(r, name);
      BegunLoads(r, name);
      CacheSurvives(r, Begun(r, name));
    }
    hide ListedInFlight, LoadsKept, CacheFits, OnlyLastCounts;
  }

  lemma FinishLoads(r: Registry, id: nat, outcome: Outcome)
    requires id < |r.loads| && r.loads[id].result.None? && OnlyLastCounts(r.loads)
    ensures Extends(r.loads, Finish(r, id, outcome).loads) && OnlyLastCounts(Finish(r, id, outcome).loads)
  {
    hide Checked;
    var after := Finish(r, id, outcome).loads;
    forall i, j | 0 <= i < j < |after| && after[i].name == after[j].name && after[i].generation == after[j].generation
      ensures Failed(after[i])
    {
      assert Failed(r.loads[i]);
    }
  }

  lemma FinishListed(r: Registry, id: nat, outcome: Outcome)
    requires id < |r.loads| && r.loads[id].result.None? && ListedInFlight(r) && LoadsKept(r)
    ensures ListedInFlight(Finish(r, id, outcome))
  {
    hide Checked;
    var next := Finish(r, id, outcome);
    assert CurrentKept(r, id);
    forall n | n in next.loading
      ensures next.loading[n] < |next.loads| && next.loads[next.loading[n]] == Load(n, next.generation, None) && n !in next.instances
    {
      assert n in r.loading && r.loads[r.loading[n]] == Load(n, r.generation, None);
    }
  }

  lemma FinishKept(r: Registry, id: nat, outcome: Outcome)
    requires id < |r.loads| && r.loads[id].result.None? && LoadsKept(r) && ListedInFlight(r)
    ensures LoadsKept(Finish(r, id, outcome))
  {
    hide Checked;
    var next := Finish(r, id, outcome);
    assert CurrentKept(r, id);
    forall i | 0 <= i < |next.loads| ensures next.loads[i].generation <= next.generation && CurrentKept(next, i) {
      assert CurrentKept(r, i);
      if i != id {
        assert next.loads[i] == r.loads[i];
      }
    }
  }

  lemma FinishCache(r: Registry, id: nat, outcome: Outcome)
    requires id < |r.loads| && r.loads[id].result.None? && CacheFits(r) && OnlyLastCounts(r.loads)
    ensures CacheFits(Finish(r, id, outcome))
  {
    FinishLoads(r, id, outcome);
    var next := Finish(r, id, outcome);
    var load := r.loads[id];
    var result := Checked(load.name, outcome);
    hide Checked, Extends, OnlyLastCounts;
    forall n | n in next.instances ensures CameFrom(next.loads, n, next.generation, next.instances[n]) {
      if result.Success? && load.generation == r.generation && n == load.name {
        assert next.loads[id] == Load(n, next.generation, Some(result));
      } else {
        assert n in r.instances && next.instances[n] == r.instances[n];
        SurvivesExtension(r.loads, next.loads, n, r.generation, r.instances[n]);
      }
    }
  }

  lemma FinishConsistent(r: Registry, id: nat, outcome: Outcome)
    requires id < |r.loads| && r.loads[id].result.None? && Consistent(r)
    ensures Consistent(Finish(r, id, outcome)) && Extends(r.loads, Finish(r, id, outcome).loads)
  {
    FinishLoads(r, id, outcome);
    FinishListed(r, id, outcome);
    FinishKept(r, id, outcome);
    FinishCache(r, id, outcome);
    hide Finish, ListedInFlight, LoadsKept, CacheFits, OnlyLastCounts;
  }

  lemma ClearConsistent(r: Registry)
    requires Consistent(r)
    ensures Consistent(Clear(r))
  {
    hide OnlyLastCounts;
  }

  // ----- The lookups keep theirs -----

  lemma GetSurvives(before: seq<Load>, after: seq<Load>, g: Get)
    requires Extends(before, after) && GetFits(before, g)
    requires Owns(g) ==> g.phase.load < |after| && after[g.phase.load] == before[g.phase.load]
    ensures GetFits(after, g)
  {
    if g.phase.Returned? && g.phase.result.Success? {
      SurvivesExtension(before, after, g.name, g.started, g.phase.result.value);
    }
  }

  lemma BeginSafe(factories: set<string>, w: World, requested: string)
    requires Safe(w)
    ensures Safe(Step(factories, w, Begin(requested)))
  {
    var name := Trim(requested);
    hide Trim;
    EnterConsistent(factories, w.registry, name);
    var next := Step(factories, w, Begin(requested));
    var r, after := w.registry, next.registry;
    assert GetFits(after.loads, next.gets[|w.gets|]);
    hide Consistent;
    forall g | 0 <= g < |next.gets| ensures GetFits(after.loads, next.gets[g]) {
      if g < |w.gets| {
        assert next.gets[g] == w.gets[g] && GetFits(r.loads, w.gets[g]);
        GetSurvives(r.loads, after.loads, w.gets[g]);
      }
    }
    BeginRunners(w, next);
  }

  lemma BeginRunners(w: World, next: World)
    requires AllFit(w) && OneOwner(w.gets) && NoneOrphaned(w)
    requires |next.gets| == |w.gets| + 1 && next.gets[..|w.gets|] == w.gets
    requires var phase := next.gets[|w.gets|].phase;
             if phase.Running?
             then phase.load == |w.registry.loads| == |next.registry.loads| - 1
                  && next.registry.loads[..|w.registry.loads|] == w.registry.loads
             else !phase.Abandoned? && next.registry.loads == w.registry.loads
    ensures OneOwner(next.gets) && NoneOrphaned(next)
  {
    var n := |w.gets|;
    assert forall g | 0 <= g < n :: next.gets[g] == w.gets[g];
    forall a, b | 0 <= a < b < |next.gets| && Owns(next.gets[a]) && Owns(next.gets[b])
      ensures next.gets[a].phase.load != next.gets[b].phase.load
    {
      assert GetFits(w.registry.loads, w.gets[a]);
    }
    forall i | 0 <= i < |next.registry.loads| && next.registry.loads[i].result.None? ensures HasOwner(next.gets, i) {
      if i < |w.registry.loads| {
        assert w.registry.loads[i] == next.registry.loads[i];
        var g :| 0 <= g < n && Owns(w.gets[g]) && w.gets[g].phase.load == i;
        assert Owns(next.gets[g]) && next.gets[g].phase.load == i;
      } else {
        assert Owns(next.gets[n]) && next.gets[n].phase.load == i;
      }
    }
  }

  lemma EndSafe(factories: set<string>, w: World, g: nat, outcome: Outcome)
    requires Safe(w)
    requires g < |w.gets| && w.gets[g].phase.Running? && w.gets[g].phase.load < |w.registry.loads|
    ensures Safe(Step(factories, w, End(g, outcome)))
    ensures Extends(w.registry.loads, Step(factories, w, End(g, outcome)).registry.loads)
  {
    var id := w.gets[g].phase.load;
    assert GetFits(w.registry.loads, w.gets[g]);
    FinishConsistent(w.registry, id, outcome);
    var next := Step(factories, w, End(g, outcome));
    var result := Checked(w.gets[g].name, outcome);
    assert next.registry.loads == w.registry.loads[id := w.registry.loads[id].(result := Some(result))];
    hide Consistent, Finish, Checked;
    forall h | 0 <= h < |next.gets| ensures GetFits(next.registry.loads, next.gets[h]) {
      if h == g {
        if result.Success? {
          assert next.registry.loads[id] == Load(w.gets[g].name, w.gets[g].started, Some(Success(result.value)));
        }
      } else {
        assert next.gets[h] == w.gets[h] && GetFits(w.registry.loads, w.gets[h]);
        if Owns(w.gets[h]) {
          if h < g { assert w.gets[h].phase.load != id; } else { assert w.gets[h].phase.load != id; }
        }
        GetSurvives(w.registry.loads, next.registry.loads, w.gets[h]);
      }
    }
    forall i | 0 <= i < |next.registry.loads| && next.registry.loads[i].result.None? ensures HasOwner(next.gets, i) {
      assert w.registry.loads[i].result.None?;
      var h :| 0 <= h < |w.gets| && Owns(w.gets[h]) && w.gets[h].phase.load == i;
      assert Owns(next.gets[h]) && next.gets[h].phase.load == i;
    }
  }

  /** A lookup that changes its phase but neither gains nor loses a factory call changes nothing else. */
  lemma PhaseSafe(w: World, g: nat, phase: Phase)
    requires Safe(w) && g < |w.gets|
    requires GetFits(w.registry.loads, w.gets[g].(phase := phase))
    requires Owns(w.gets[g]) <==> Owns(w.gets[g].(phase := phase))
    requires Owns(w.gets[g]) ==> phase.load == w.gets[g].phase.load
    ensures Safe(w.(gets := w.gets[g := w.gets[g].(phase := phase)]))
  {
    hide Consistent, CameFrom;
    var next := w.(gets := w.gets[g := w.gets[g].(phase := phase)]);
    forall h | 0 <= h < |next.gets| ensures GetFits(next.registry.loads, next.gets[h]) {
      if h != g { assert GetFits(w.registry.loads, w.gets[h]); }
    }
    forall i | 0 <= i < |next.registry.loads| && next.registry.loads[i].result.None? ensures HasOwner(next.gets, i) {
      var h :| 0 <= h < |w.gets| && Owns(w.gets[h]) && w.gets[h].phase.load == i;
      assert Owns(next.gets[h]) && next.gets[h].phase.load == i;
    }
  }

  /** Every step keeps every invariant, and never changes a published result. */
  lemma StepSafe(factories: set<string>, w: World, a: Action)
    requires Safe(w)
    ensures Safe(Step(factories, w, a))
    ensures Extends(w.registry.loads, Step(factories, w, a).registry.loads)
  {
    match a {
      case Begin(requested) =>
        BeginSafe(factories, w, requested);
        hide Safe, Trim;
        EnterExtends(factories, w.registry, Trim(requested));
      case End(g, outcome) =>
        if g < |w.gets| && w.gets[g].phase.Running? && w.gets[g].phase.load < |w.registry.loads| {
          EndSafe(factories, w, g, outcome);
        }
      case Receive(g) =>
        if g < |w.gets| && w.gets[g].phase.Waiting? {
          assert GetFits(w.registry.loads, w.gets[g]);
          var load := w.registry.loads[w.gets[g].phase.load];
          if load.result.Some? { PhaseSafe(w, g, Returned(load.result.value)); }
        }
      case GiveUp(g) =>
        if g < |w.gets| && w.gets[g].phase.Waiting? { PhaseSafe(w, g, Returned(Failure(Cancelled))); }
      case Abandon(g) =>
        if g < |w.gets| && w.gets[g].phase.Running? {
          assert GetFits(w.registry.loads, w.gets[g]);
          PhaseSafe(w, g, Abandoned(w.gets[g].phase.load));
        }
      case ClearAll => ClearConsistent(w.registry);
    }
  }

  lemma EnterExtends(factories: set<string>, r: Registry, name: string)
    ensures Extends(r.loads, Enter(factories, r, name).0.loads)
  {
  }

  lemma {:induction false} RunSafe(factories: set<string>, actions: seq<Action>)
    ensures Safe(Run(factories, actions))
  {
    if actions != [] {
      RunSafe(factories, actions[..|actions| - 1]);
      StepSafe(factories, Run(factories, actions[..|actions| - 1]), actions[|actions| - 1]);
    }
  }

  // ----- What callers are promised -----

  /** In every run, at most one factory call of the current generation is in flight per name. */
  lemma SingleFlight(factories: set<string>, actions: seq<Action>, i: nat, j: nat)
    ensures var r := Run(factories, actions).registry;
            (&& i < |r.loads| && j < |r.loads| && r.loads[i].result.None? && r.loads[j].result.None?
             && r.loads[i].name == r.loads[j].name && r.loads[i].generation == r.loads[j].generation)
            ==> i == j
  {
    RunSafe(factories, actions);
  }

  /** In every run, a cached instance is the result of a call begun in the current generation. */
  lemma CacheIsCurrent(factories: set<string>, actions: seq<Action>, name: string)
    ensures var r := Run(factories, actions).registry;
            name in r.instances ==> CameFrom(r.loads, name, r.generation, r.instances[name])
  {
    RunSafe(factories, actions);
  }

  lemma ExtendsTwice(a: seq<Load>, b: seq<Load>, c: seq<Load>)
    requires Extends(a, b) && Extends(b, c)
    ensures Extends(a, c)
  {
  }

  lemma RunMore(factories: set<string>, actions: seq<Action>, more: seq<Action>)
    requires more != []
    ensures Run(factories, actions + more) == Step(factories, Run(factories, actions + more[..|more| - 1]), more[|more| - 1])
  {
    hide Run, Step;
    var all := actions + more;
    RunLast(factories, all);
    assert all[..|all| - 1] == actions + more[..|more| - 1];
  }

  lemma RunLast(factories: set<string>, actions: seq<Action>)
    requires actions != []
    ensures Run(factories, actions) == Step(factories, Run(factories, actions[..|actions| - 1]), actions[|actions| - 1])
  {
    hide Step;
  }

  lemma {:induction false} RunExtends(factories: set<string>, actions: seq<Action>, more: seq<Action>)
    ensures Extends(Run(factories, actions).registry.loads, Run(factories, actions + more).registry.loads)
    decreases |more|
  {
    hide Run, Step, Safe;
    if more == [] {
      assert actions + more == actions;
    } else {
      var fewer := more[..|more| - 1];
      RunExtends(factories, actions, fewer);
      RunSafe(factories, actions + fewer);
      RunMore(factories, actions, more);
      hide Extends;
      var w := Run(factories, actions + fewer);
      StepSafe(factories, w, more[|more| - 1]);
      ExtendsTwice(Run(factories, actions).registry.loads, w.registry.loads, Run(factories, actions + more).registry.loads);
    }
  }

  /** A load is published once: whatever happens next, a published result stays what it is. */
  lemma PublishedOnce(factories: set<string>, actions: seq<Action>, more: seq<Action>, i: nat)
    ensures var now, later := Run(factories, actions).registry.loads, Run(factories, actions + more).registry.loads;
            i < |now| && now[i].result.Some? ==> i < |later| && later[i] == now[i]
  {
    RunExtends(factories, actions, more);
  }

  /** Two lookups of one name that start in one generation and succeed return the same instance,
      whether each found it cached, waited for it or built it, and however late it came back. */
  lemma SameInstance(factories: set<string>, actions: seq<Action>, a: nat, b: nat)
    ensures var gets := Run(factories, actions).gets;
            a < |gets| && b < |gets| && gets[a].name == gets[b].name && gets[a].started == gets[b].started
            && gets[a].phase.Returned? && gets[b].phase.Returned?
            && gets[a].phase.result.Success? && gets[b].phase.result.Success?
            ==> gets[a].phase.result == gets[b].phase.result
  {
    RunSafe(factories, actions);
    var w := Run(factories, actions);
    hide Run;
    if a < |w.gets| && b < |w.gets| {
      assert GetFits(w.registry.loads, w.gets[a]) && GetFits(w.registry.loads, w.gets[b]);
    }
  }

  /** Whoever waits is waiting for a published load, one that somebody is running, or one whose
      factory call was abandoned: an unpublished load has a runner exactly when it was not. */
  lemma WaitersAreServedIff(factories: set<string>, actions: seq<Action>, g: nat)
    ensures var w := Run(factories, actions);
            g < |w.gets| && w.gets[g].phase.Waiting? ==>
              var id := w.gets[g].phase.load;
              && id < |w.registry.loads|
              && (w.registry.loads[id].result.None? ==> (HasRunner(w.gets, id) <==> !WasAbandoned(w.gets, id)))
              && (WasAbandoned(w.gets, id) ==> w.registry.loads[id].result.None?)
  {
    RunSafe(factories, actions);
    var w := Run(factories, actions);
    hide Run;
    if g < |w.gets| {
      assert GetFits(w.registry.loads, w.gets[g]);
      if w.gets[g].phase.Waiting? { OwnerRunsOrAbandoned(w, w.gets[g].phase.load); }
    }
  }

  lemma OwnerRunsOrAbandoned(w: World, id: nat)
    requires Safe(w) && id < |w.registry.loads|
    ensures w.registry.loads[id].result.None? ==> (HasRunner(w.gets, id) <==> !WasAbandoned(w.gets, id))
    ensures WasAbandoned(w.gets, id) ==> w.registry.loads[id].result.None?
  {
    hide Consistent;
    if w.registry.loads[id].result.None? {
      var g :| 0 <= g < |w.gets| && Owns(w.gets[g]) && w.gets[g].phase.load == id;
      if w.gets[g].phase.Running? { assert w.gets[g].phase == Running(id); } else { assert w.gets[g].phase == Abandoned(id); }
    }
    if WasAbandoned(w.gets, id) {
      var a :| 0 <= a < |w.gets| && w.gets[a].phase == Abandoned(id);
      assert GetFits(w.registry.loads, w.gets[a]);
      forall b | 0 <= b < |w.gets| ensures w.gets[b].phase != Running(id) {
        if a < b { assert Owns(w.gets[a]); } else if b < a { assert Owns(w.gets[a]); }
      }
    }
  }

  lemma StepKeepsAbandoned(factories: set<string>, w: World, a: Action, g: nat)
    requires g < |w.gets| && w.gets[g].phase.Abandoned?
    ensures var next := Step(factories, w, a);
            g < |next.gets| && next.gets[g] == w.gets[g]
  {
    hide Trim, Enter, Finish, Clear, Checked;
  }

  lemma {:induction false} AbandonedStays(factories: set<string>, actions: seq<Action>, more: seq<Action>, g: nat)
    requires g < |Run(factories, actions).gets| && Run(factories, actions).gets[g].phase.Abandoned?
    ensures g < |Run(factories, actions + more).gets|
    ensures Run(factories, actions + more).gets[g] == Run(factories, actions).gets[g]
    decreases |more|
  {
    hide Run, Step;
    if more == [] {
      assert actions + more == actions;
    } else {
      var fewer := more[..|more| - 1];
      AbandonedStays(factories, actions, fewer, g);
      RunMore(factories, actions, more);
      StepKeepsAbandoned(factories, Run(factories, actions + fewer), more[|more| - 1], g);
    }
  }

  /** An abandoned call blocks its name for as long as its generation lasts: whatever happens
      meanwhile its load is never published, and every lookup of the name waits for it. Clearing
      the registry ends that: the next lookup starts a call of its own. */
  lemma AbandonedBlocksUntilCleared(factories: set<string>, actions: seq<Action>, more: seq<Action>, g: nat, requested: string)
    requires g < |Run(factories, actions).gets| && Run(factories, actions).gets[g].phase.Abandoned?
    requires Trim(requested) == Run(factories, actions).gets[g].name
    ensures var abandoned := Run(factories, actions).gets[g];
            var later := Run(factories, actions + more);
            && abandoned.phase.load < |later.registry.loads|
            && later.registry.loads[abandoned.phase.load].result.None?
            && (later.registry.generation == abandoned.started ==>
                  Enter(factories, later.registry, Trim(requested)).1 ==
                    if Trim(requested) == "" then Returned(Failure(NameRequired)) else Waiting(abandoned.phase.load))
            && (Trim(requested) != "" && Trim(requested) in factories ==>
                  Enter(factories, Clear(later.registry), Trim(requested)).1 == Running(|later.registry.loads|))
  {
    AbandonedStays(factories, actions, more, g);
    RunSafe(factories, actions + more);
    var later := Run(factories, actions + more);
    var abandoned := Run(factories, actions).gets[g];
    hide Run, Trim;
    assert GetFits(later.registry.loads, later.gets[g]);
    if later.registry.generation == abandoned.started { BlockedByUnpublished(later.registry, abandoned.phase.load); }
  }

  lemma BlockedByUnpublished(r: Registry, id: nat)
    requires Consistent(r) && id < |r.loads| && r.loads[id].result.None? && r.loads[id].generation == r.generation
    ensures r.loads[id].name in r.loading && r.loading[r.loads[id].name] == id && r.loads[id].name !in r.instances
  {
    assert CurrentKept(r, id);
  }

  /** Another factory call for a name in the same generation happens only after a failure. */
  lemma RetriedOnlyAfterFailure(factories: set<string>, actions: seq<Action>, i: nat, j: nat)
    ensures var loads := Run(factories, actions).registry.loads;
            i < j < |loads| && loads[i].name == loads[j].name && loads[i].generation == loads[j].generation
            ==> Failed(loads[i])
  {
    RunSafe(factories, actions);
  }

  // ----- One lookup after another -----

  lemma RunOneMore(factories: set<string>, actions: seq<Action>, a: Action)
    ensures Run(factories, actions + [a]) == Step(factories, Run(factories, actions), a)
  {
    var all := actions + [a];
    assert all[..|all| - 1] == actions && all[|all| - 1] == a;
    hide Step;
  }

  /** What a lookup comes to when its own factory call ends so. */
  function ComesTo(name: string, outcome: Outcome): Loaded {
    match outcome
    case FactoryError(code) => Failure(FactoryFailed(code))
    case NilProvider => Failure(ReturnedNil)
    case Built(p) => if Trim(p.name) == name then Success(p) else Failure(ReturnedOther)
  }

  predicate Idle(r: Registry, name: string) {
    name != "" && name !in r.instances && name !in r.loading
  }

  lemma BeginsBuilding(factories: set<string>, w: World, requested: string)
    requires Idle(w.registry, Trim(requested)) && Trim(requested) in factories
    ensures var name, id := Trim(requested), |w.registry.loads|;
            Step(factories, w, Begin(requested)) ==
              World(w.registry.(loading := w.registry.loading[name := id],
                                loads := w.registry.loads + [Load(name, w.registry.generation, None)]),
                    w.gets + [Get(name, w.registry.generation, Running(id))])
  {
    hide Trim;
  }

  lemma EndsBuilding(factories: set<string>, w: World, requested: string, outcome: Outcome)
    requires Idle(w.registry, Trim(requested)) && Trim(requested) in factories
    ensures var g, name := |w.gets|, Trim(requested);
            var ended := Step(factories, Step(factories, w, Begin(requested)), End(g, outcome));
            var result := ComesTo(name, outcome);
            && g < |ended.gets| == g + 1
            && ended.gets[g].phase == Returned(result)
            && name !in ended.registry.loading
            && (result.Success? ==> name in ended.registry.instances && ended.registry.instances[name] == result.value)
            && (result.Failure? ==> name !in ended.registry.instances)
  {
    BeginsBuilding(factories, w, requested);
    hide Trim;
  }

  /** Whatever happened before: a blank name and a name without a factory are errors; the first lookup of
      a name that is neither cached nor being built calls the factory and returns what it came to; and if
      that was a provider of the asked name, the next lookup returns it without a call, and otherwise
      calls again. */
  lemma FirstLookupBuilds(factories: set<string>, actions: seq<Action>, requested: string, outcome: Outcome)
    ensures var w := Run(factories, actions);
            var g, name := |w.gets|, Trim(requested);
            var begun := Run(factories, actions + [Begin(requested)]);
            var ended := Run(factories, actions + [Begin(requested)] + [End(g, outcome)]);
            var again := Run(factories, actions + [Begin(requested)] + [End(g, outcome)] + [Begin(requested)]);
            && g < |begun.gets|
            && (IsBlank(requested) ==> begun.gets[g].phase == Returned(Failure(NameRequired)))
            && (Idle(w.registry, name) && name !in factories ==> begun.gets[g].phase == Returned(Failure(NotConfigured)))
            && (Idle(w.registry, name) && name in factories ==>
                  && begun.gets[g].phase.Running?
                  && g < |ended.gets| && ended.gets[g].phase == Returned(ComesTo(name, outcome))
                  && g + 1 < |again.gets|
                  && if ComesTo(name, outcome).Success? then again.gets[g + 1].phase == Returned(ComesTo(name, outcome))
                     else again.gets[g + 1].phase.Running?)
  {
    TrimEmptyIffBlank(requested);
    var begun := actions + [Begin(requested)];
    var w := Run(factories, actions);
    var ended := begun + [End(|w.gets|, outcome)];
    RunOneMore(factories, actions, Begin(requested));
    RunOneMore(factories, begun, End(|w.gets|, outcome));
    RunOneMore(factories, ended, Begin(requested));
    hide Run, Trim, IsBlank, ComesTo, Finish;
    if Idle(w.registry, Trim(requested)) && Trim(requested) in factories {
      BeginsBuilding(factories, w, requested);
      EndsBuilding(factories, w, requested, outcome);
      if ComesTo(Trim(requested), outcome).Failure? { BeginsBuilding(factories, Run(factories, ended), requested); }
    }
  }
}
