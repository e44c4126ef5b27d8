/** The catalog service: engines cached per catalog version, and prices that do not move with the
    active catalog. */
module CatalogCache {
  import opened Decimals
  import ChargeDocuments
  import Engine
  import Evaluator

  type Document = ChargeDocuments.Json

  /** A persisted catalog revision; the store never changes one. */
  datatype Revision = Revision(id: string, version: int, document: Document)

  /** A parsed catalog: its pricing, if it has any, and each plan's rate card, if it names one. */
  datatype Catalog = Catalog(pricing: Option<Engine.Pricing>, plans: map<string, Option<string>>)

  /** Parsing and validating a document; the same document always gives the same answer. */
  type Loader = Document -> Option<Catalog>

  /** What a lease captured when it was admitted. */
  datatype Lease = Lease(version: int, rateCard: string, planKey: string)

  datatype Store = Store(revisions: map<int, Revision>, active: Option<int>, leases: seq<Lease>)

  ghost predicate StoreFits(s: Store) {
    && (forall v | v in s.revisions :: s.revisions[v].version == v)
    && (s.active.Some? ==> s.active.value in s.revisions)
    && forall l | 0 <= l < |s.leases| :: s.leases[l].version in s.revisions
  }

  /** The engine of a version, built from its revision. */
  function EngineOf(load: Loader, s: Store, version: int): Option<Catalog> {
    if version in s.revisions then load(s.revisions[version].document) else None
  }

  // ----- The cache -----

  datatype Cache = Cache(
    revision: Option<Revision>,
    engine: Option<Catalog>,
    versionEngines: map<int, Catalog>,
    loadedAt: Option<int>)

  function Installed(c: Cache, r: Revision, engine: Catalog, now: int): Cache {
    Cache(Some(r), Some(engine), map[r.version := engine], Some(now))
  }

  predicate IsLoaded(c: Cache, r: Revision) {
    c.engine.Some? && c.revision.Some? && c.revision.value.id == r.id && c.revision.value.version == r.version
  }

  /** An engine somebody else cached meanwhile is kept and used. */
  function Remembered(c: Cache, version: int, engine: Catalog): (Cache, Catalog) {
    if version in c.versionEngines then (c, c.versionEngines[version])
    else (c.(versionEngines := c.versionEngines[version := engine]), engine)
  }

  /** Every cached engine is the one its revision builds. */
  ghost predicate Truthful(load: Loader, s: Store, c: Cache) {
    && (forall v | v in c.versionEngines :: v in s.revisions && EngineOf(load, s, v) == Some(c.versionEngines[v]))
    && (c.engine.Some? ==>
          && c.revision.Some? && c.revision.value.version in s.revisions
          && s.revisions[c.revision.value.version] == c.revision.value
          && EngineOf(load, s, c.revision.value.version) == c.engine)
  }

  datatype CatalogError = StoreUnavailable | NoActiveCatalog | RevisionMissing | InvalidCatalog | NotLoaded | LeaseMissing

  datatype Priced = Unpriced(cause: CatalogError) | NoPricing | Cost(result: Result<Amount, Engine.UsageError>)

  /** A plan's own rate card, empty if it has none. */
  function RateCardForPlan(catalog: Catalog, planKey: string): string {
    if planKey == "" || planKey !in catalog.plans || catalog.plans[planKey].None? then ""
    else catalog.plans[planKey].value
  }

  /** What an engine makes of usage under a lease. */
  ghost function LeaseCost(lib: Evaluator.Library, catalog: Catalog, lease: Lease, usage: Engine.Usage): Priced {
    var card := if lease.rateCard == "" then RateCardForPlan(catalog, lease.planKey) else lease.rateCard;
    if catalog.pricing.None? then NoPricing
    else Cost(Engine.Calculated(lib, catalog.pricing.value, usage, card))
  }

  /** The service with its cache; `store` arguments say what the store holds, and replies are what
      it answered, or nothing if it could not be asked. */
  class CatalogService {
    const cacheTTL: nat
    var revision: Option<Revision>
    var engine: Option<Catalog>
    var versionEngines: map<int, Catalog>
    var loadedAt: Option<int>

    constructor (cacheTTL: nat)
      ensures this.cacheTTL == cacheTTL && Model() == Cache(None, None, map[], None)
    {
      this.cacheTTL := cacheTTL;
      revision, engine, versionEngines, loadedAt := None, None, map[], None;
    }

    ghost function Model(): Cache
      reads this
    {
      Cache(revision, engine, versionEngines, loadedAt)
    }

    method Install(load: Loader, r: Revision, now: int) returns (error: Option<CatalogError>)
      modifies this
      ensures var built := load(r.document);
              if built.None? then Model() == old(Model()) && error == Some(InvalidCatalog)
              else Model() == Installed(old(Model()), r, built.value, now) && error == None
      ensures error.None? ==> revision == Some(r) && engine == load(r.document) && versionEngines.Keys == {r.version} && loadedAt == Some(now)
    {
      var built := load(r.document);
      if built.None? { return Some(InvalidCatalog); }
      revision := Some(r);
      engine := built;
      versionEngines := map[];
      versionEngines := versionEngines[r.version := built.value];
      loadedAt := Some(now);
      return None;
    }

    /** Reloads the active revision unless it is the one already loaded, which is only marked fresh. */
    method RefreshNow(load: Loader, ghost store: Store, reply: Result<Option<Revision>, CatalogError>, now: int)
      returns (error: Option<CatalogError>)
      requires StoreFits(store) && Truthful(load, store, Model())
      requires reply.Success? ==> reply.value == if store.active.Some? then Some(store.revisions[store.active.value]) else None
      modifies this
      ensures Truthful(load, store, Model())
      ensures error.None? ==> store.active.Some? && loadedAt == Some(now) && engine.Some?
                              && revision.Some? && revision.value.version == store.active.value
                              && engine == EngineOf(load, store, store.active.value)
      ensures error.Some? ==> Model() == old(Model())
    {
      if reply.Failure? { return Some(reply.error); }
      if reply.value.None? { return Some(NoActiveCatalog); }
      var r := reply.value.value;
      assert r.version == store.active.value && store.revisions[r.version] == r;
      if engine.Some? && revision.Some? && revision.value.id == r.id && revision.value.version == r.version {
        loadedAt := Some(now);
        return None;
      }
      error := Install(load, r, now);
    }

    predicate Fresh(now: int)
      reads this
    {
      loadedAt.Some? && now - loadedAt.value < cacheTTL
    }

    method RefreshIfStale(load: Loader, ghost store: Store, reply: Result<Option<Revision>, CatalogError>, now: int)
      returns (error: Option<CatalogError>)
      requires StoreFits(store) && Truthful(load, store, Model())
      requires reply.Success? ==> reply.value == if store.active.Some? then Some(store.revisions[store.active.value]) else None
      modifies this
      ensures Truthful(load, store, Model())
      ensures old(Fresh(now)) || cacheTTL == 0 ==> error.None? && Model() == old(Model())
      ensures cacheTTL > 0 && error.None? ==> Fresh(now)
      ensures cacheTTL > 0 && error.None? && !old(Fresh(now)) ==> forall later :: Fresh(later) <==> later < now + cacheTTL
    {
      if cacheTTL == 0 { return None; }
      if Fresh(now) { return None; }
      error := RefreshNow(load, store, reply, now);
    }

    method Invalidate()
      modifies `loadedAt
      ensures Model() == old(Model()).(loadedAt := None)
    {
      loadedAt := None;
    }

    /** Caches an engine unless another was cached first, which is then the one to use. */
    method RememberEngine(version: int, built: Catalog) returns (kept: Catalog)
      modifies `versionEngines
      ensures (Model(), kept) == Remembered(old(Model()), version, built)
      ensures version in old(versionEngines) ==> kept == old(versionEngines)[version] && versionEngines == old(versionEngines)
    {
      kept := built;
      if version in versionEngines { kept := versionEngines[version]; }
      else { versionEngines := versionEngines[version := built]; }
    }

    /** The engine of a version, cached or built: whichever way, the one its revision builds. */
    method EngineForVersion(load: Loader, ghost store: Store, version: Option<int>, reply: Result<Option<Revision>, CatalogError>)
      returns (r: Result<Catalog, CatalogError>)
      requires Truthful(load, store, Model())
      requires version.Some? && reply.Success? ==>
                 reply.value == if version.value in store.revisions then Some(store.revisions[version.value]) else None
      modifies `versionEngines
      ensures Truthful(load, store, Model())
      ensures r.Success? ==> Some(r.value) == if version.None? then engine else EngineOf(load, store, version.value)
      ensures version.None? ==> r == if engine.None? then Failure(NotLoaded) else Success(engine.value)
      ensures version.Some? && reply.Success? ==> (r.Success? <==> EngineOf(load, store, version.value).Some?)
    {
      if version.None? { return if engine.None? then Failure(NotLoaded) else Success(engine.value); }
      if version.value in versionEngines { return Success(versionEngines[version.value]); }
      if reply.Failure? { return Failure(reply.error); }
      if reply.value.None? { return Failure(RevisionMissing); }
      var built := load(reply.value.value.document);
      if built.None? { return Failure(InvalidCatalog); }
      var kept := RememberEngine(version.value, built.value);
      return Success(kept);
    }

    /** Prices a settlement from the lease's own snapshot. The cost is a function of the lease and
        of the revision it names: neither the active catalog nor the cache has a say. */
    method CalculateForLease(load: Loader, ghost store: Store, lib: Evaluator.Library, lease: Option<Lease>,
                             reply: Result<Option<Revision>, CatalogError>, usage: Engine.Usage)
      returns (r: Priced)
      requires Truthful(load, store, Model())
      requires lease.Some? && reply.Success? ==>
                 reply.value == if lease.value.version in store.revisions then Some(store.revisions[lease.value.version]) else None
      modifies `versionEngines
      ensures Truthful(load, store, Model())
      ensures lease.None? ==> r == Unpriced(LeaseMissing)
      ensures lease.Some? && !r.Unpriced? ==>
                var built := EngineOf(load, store, lease.value.version);
                built.Some? && r == LeaseCost(lib, built.value, lease.value, usage)
      ensures lease.Some? && reply.Success? ==> (r.Unpriced? <==> EngineOf(load, store, lease.value.version).None?)
    {
      if lease.None? { return Unpriced(LeaseMissing); }
      hide Engine.Calculated;
      var found := EngineForVersion(load, store, Some(lease.value.version), reply);
      if found.Failure? { return Unpriced(found.error); }
      var rateCard := lease.value.rateCard;
      if rateCard == "" { rateCard := RateCardForPlan(found.value, lease.value.planKey); }
      if found.value.pricing.None? { return NoPricing; }
      var cost := Engine.Calculate(lib, found.value.pricing.value, usage, rateCard);
      r := Cost(cost);
    }
  }

  // ----- Refreshes, invalidations, publications and pricings, interleaved -----

  /** A refresh that has read a revision, checked it or is installing it; a pricing that is looking
      its revision up, has built an engine, or has its answer. */
  datatype Thread =
    | Read(revision: Revision) | Touching | Installing(revision: Revision) | RefreshDone
    | Fetching(lease: nat) | Built(lease: nat, engine: Catalog) | Answered(lease: nat, answer: Option<Catalog>)

  datatype World = World(store: Store, cache: Cache, threads: seq<Thread>)

  datatype Action =
    | Publish(id: string, version: int, document: Document) | Activate(version: int) | Admit(admitted: Lease)
    | Invalidate | BeginRefresh | CheckLoaded(thread: nat) | FinishRefresh(thread: nat, now: int)
    | BeginPricing(lease: nat) | Fetch(thread: nat) | Remember(thread: nat)

  const START := World(Store(map[], None, []), Cache(None, None, map[], None), [])

  /** One step; an action that is not enabled changes nothing. */
  function Step(load: Loader, w: World, a: Action): World {
    match a
    case Publish(id, version, document) =>
      if version in w.store.revisions then w
      else w.(store := w.store.(revisions := w.store.revisions[version := Revision(id, version, document)]))
    case Activate(version) =>
      if version in w.store.revisions then w.(store := w.store.(active := Some(version))) else w
    case Admit(lease) =>
      if lease.version in w.store.revisions then w.(store := w.store.(leases := w.store.leases + [lease])) else w
    case Invalidate => w.(cache := w.cache.(loadedAt := None))
    case BeginRefresh =>
      if w.store.active.Some? && w.store.active.value in w.store.revisions
      then w.(threads := w.threads + [Read(w.store.revisions[w.store.active.value])])
      else w
    case CheckLoaded(t) =>
      if t < |w.threads| && w.threads[t].Read? then
        var r := w.threads[t].revision;
        w.(threads := w.threads[t := if IsLoaded(w.cache, r) then Touching else Installing(r)])
      else w
    case FinishRefresh(t, now) =>
      if t >= |w.threads| then w
      else
        var done := w.threads[t := RefreshDone];
        if w.threads[t].Touching? then World(w.store, w.cache.(loadedAt := Some(now)), done)
        else if w.threads[t].Installing? then
          var r := w.threads[t].revision;
          var built := load(r.document);
          World(w.store, if built.None? then w.cache else Installed(w.cache, r, built.value, now), done)
        else w
    case BeginPricing(l) =>
      if l >= |w.store.leases| then w
      else
        var v := w.store.leases[l].version;
        w.(threads := w.threads + [if v in w.cache.versionEngines then Answered(l, Some(w.cache.versionEngines[v])) else Fetching(l)])
    case Fetch(t) =>
      if t < |w.threads| && w.threads[t].Fetching? && w.threads[t].lease < |w.store.leases| then
        var l := w.threads[t].lease;
        var built := EngineOf(load, w.store, w.store.leases[l].version);
        w.(threads := w.threads[t := if built.None? then Answered(l, None) else Built(l, built.value)])
      else w
    case Remember(t) =>
      if t < |w.threads| && w.threads[t].Built? && w.threads[t].lease < |w.store.leases| then
        var l := w.threads[t].lease;
        var (cache, engine) := Remembered(w.cache, w.store.leases[l].version, w.threads[t].engine);
        World(w.store, cache, w.threads[t := Answered(l, Some(engine))])
      else w
  }

  function Run(load: Loader, actions: seq<Action>): World {
    if actions == [] then START else Step(load, Run(load, actions[..|actions| - 1]), actions[|actions| - 1])
  }

  ghost predicate ThreadFits(load: Loader, s: Store, t: Thread) {
    match t
    case Read(r) => r.version in s.revisions && s.revisions[r.version] == r
    case Installing(r) => r.version in s.revisions && s.revisions[r.version] == r
    case Fetching(l) => l < |s.leases|
    case Built(l, engine) => l < |s.leases| && EngineOf(load, s, s.leases[l].version) == Some(engine)
    case Answered(l, engine) => l < |s.leases| && EngineOf(load, s, s.leases[l].version) == engine
    case _ => true
  }

  ghost predicate Coherent(load: Loader, w: World) {
    && StoreFits(w.store) && Truthful(load, w.store, w.cache)
    && forall t | 0 <= t < |w.threads| :: ThreadFits(load, w.store, w.threads[t])
  }

  /** Revisions and leases are only ever added. */
  ghost predicate Grows(s: Store, later: Store) {
    && (forall v | v in s.revisions :: v in later.revisions && later.revisions[v] == s.revisions[v])
    && |s.leases| <= |later.leases| && forall l | 0 <= l < |s.leases| :: later.leases[l] == s.leases[l]
  }

  lemma GrownStoreFits(load: Loader, w: World, later: Store)
    requires Coherent(load, w) && StoreFits(later) && Grows(w.store, later)
    ensures Coherent(load, w.(store := later))
  {
    forall t | 0 <= t < |w.threads| ensures ThreadFits(load, later, w.threads[t]) {
      assert ThreadFits(load, w.store, w.threads[t]);
      if w.threads[t].Built? || w.threads[t].Answered? {
        assert w.store.leases[w.threads[t].lease].version in w.store.revisions;
      }
    }
  }

  lemma ThreadChanged(load: Loader, w: World, t: nat, cache: Cache, thread: Thread)
    requires Coherent(load, w) && t < |w.threads| && Truthful(load, w.store, cache) && ThreadFits(load, w.store, thread)
    ensures Coherent(load, World(w.store, cache, w.threads[t := thread]))
  {
    hide ThreadFits, Truthful, StoreFits;
  }

  lemma ThreadAdded(load: Loader, w: World, thread: Thread)
    requires Coherent(load, w) && ThreadFits(load, w.store, thread)
    ensures Coherent(load, w.(threads := w.threads + [thread]))
  {
    hide ThreadFits, Truthful, StoreFits;
  }

  /** Every step keeps every cached and every answered engine true to its revision, and the store
      only grows. */
  lemma StepCoherent(load: Loader, w: World, a: Action)
    requires Coherent(load, w)
    ensures Coherent(load, Step(load, w, a)) && Grows(w.store, Step(load, w, a).store)
  {
    match a {
      case Publish(id, version, document) => GrownStoreFits(load, w, Step(load, w, a).store);
      case Activate(version) => GrownStoreFits(load, w, Step(load, w, a).store);
      case Admit(lease) => GrownStoreFits(load, w, Step(load, w, a).store);
      case Invalidate =>
      case BeginRefresh =>
        if w.store.active.Some? {
          var v := w.store.active.value;
          assert v in w.store.revisions && w.store.revisions[v].version == v;
          ThreadAdded(load, w, Read(w.store.revisions[v]));
        }
      case CheckLoaded(t) =>
        if t < |w.threads| && w.threads[t].Read? {
          assert ThreadFits(load, w.store, w.threads[t]);
          ThreadChanged(load, w, t, w.cache, Step(load, w, a).threads[t]);
        }
      case FinishRefresh(t, now) =>
        if t < |w.threads| && (w.threads[t].Touching? || w.threads[t].Installing?) {
          assert ThreadFits(load, w.store, w.threads[t]);
          ThreadChanged(load, w, t, Step(load, w, a).cache, RefreshDone);
        }
      case BeginPricing(l) =>
        if l < |w.store.leases| { ThreadAdded(load, w, Step(load, w, a).threads[|w.threads|]); }
      case Fetch(t) =>
        if t < |w.threads| && w.threads[t].Fetching? {
          assert ThreadFits(load, w.store, w.threads[t]);
          ThreadChanged(load, w, t, w.cache, Step(load, w, a).threads[t]);
        }
      case Remember(t) =>
        if t < |w.threads| && w.threads[t].Built? {
          assert ThreadFits(load, w.store, w.threads[t]);
          assert w.store.leases[w.threads[t].lease].version in w.store.revisions;
          ThreadChanged(load, w, t, Step(load, w, a).cache, Step(load, w, a).threads[t]);
        }
    }
  }

  /** A refresh that nobody disturbs leaves the engine of the revision that was active when it began in
      the cache, fresh from now on; if that revision cannot be built, nothing changes. */
  lemma UndisturbedRefresh(load: Loader, w: World, now: int)
    requires Coherent(load, w) && w.store.active.Some?
    ensures var t := |w.threads|;
            var after := Step(load, Step(load, Step(load, w, BeginRefresh), CheckLoaded(t)), FinishRefresh(t, now));
            var version := w.store.active.value;
            && after.store == w.store && |after.threads| == t + 1 && after.threads[t] == RefreshDone
            && (EngineOf(load, w.store, version).Some? ==>
                  && after.cache.engine == EngineOf(load, w.store, version)
                  && after.cache.revision == Some(w.store.revisions[version]) && after.cache.loadedAt == Some(now))
            && (EngineOf(load, w.store, version).None? ==> after.cache == w.cache)
  {
    var t, version := |w.threads|, w.store.active.value;
    var r := w.store.revisions[version];
    assert r.version == version;
    var begun := Step(load, w, BeginRefresh);
    assert begun.threads == w.threads + [Read(r)];
    var checked := Step(load, begun, CheckLoaded(t));
    assert checked.cache == w.cache && checked.threads[t] == if IsLoaded(w.cache, r) then Touching else Installing(r);
  }

  lemma {:induction false} RunCoherent(load: Loader, actions: seq<Action>)
    ensures Coherent(load, Run(load, actions))
  {
    if actions != [] {
      RunCoherent(load, actions[..|actions| - 1]);
      StepCoherent(load, Run(load, actions[..|actions| - 1]), actions[|actions| - 1]);
    }
  }

  lemma {:induction false} RunGrows(load: Loader, actions: seq<Action>, more: seq<Action>)
    ensures Grows(Run(load, actions).store, Run(load, actions + more).store)
    decreases |more|
  {
    if more == [] {
      assert actions + more == actions;
    } else {
      var all := actions + more;
      assert all[..|all| - 1] == actions + more[..|more| - 1];
      var w := Run(load, all[..|all| - 1]);
      assert Run(load, all) == Step(load, w, all[|all| - 1]);
      RunGrows(load, actions, more[..|more| - 1]);
      RunCoherent(load, all[..|all| - 1]);
      hide Run, Step, Coherent;
      StepCoherent(load, w, all[|all| - 1]);
    }
  }

  /** In every interleaving, every cached engine is the one rebuilt from its revision. */
  lemma CachedIsRebuilt(load: Loader, actions: seq<Action>, version: int)
    ensures var w := Run(load, actions);
            && (version in w.cache.versionEngines ==> EngineOf(load, w.store, version) == Some(w.cache.versionEngines[version]))
            && (w.cache.engine.Some? ==> w.cache.revision.Some? && load(w.cache.revision.value.document) == w.cache.engine)
  {
    RunCoherent(load, actions);
  }

  ghost function CostOf(lib: Evaluator.Library, answer: Option<Catalog>, lease: Lease, usage: Engine.Usage): Priced {
    if answer.None? then Unpriced(InvalidCatalog) else LeaseCost(lib, answer.value, lease, usage)
  }

  /** Two pricings of one lease, however far apart and whatever is published, activated, refreshed
      or invalidated between or during them, use the same engine and cost the same. */
  lemma LeasePriceIsFixed(load: Loader, lib: Evaluator.Library, usage: Engine.Usage, actions: seq<Action>, more: seq<Action>, t: nat, u: nat)
    ensures var w, later := Run(load, actions), Run(load, actions + more);
            (&& t < |w.threads| && u < |later.threads| && w.threads[t].Answered? && later.threads[u].Answered?
             && w.threads[t].lease == later.threads[u].lease)
            ==>
            (&& w.threads[t].lease < |w.store.leases| && w.threads[t].lease < |later.store.leases|
             && w.threads[t].answer == later.threads[u].answer
             && w.threads[t].answer == EngineOf(load, w.store, w.store.leases[w.threads[t].lease].version)
             && CostOf(lib, w.threads[t].answer, w.store.leases[w.threads[t].lease], usage)
                == CostOf(lib, later.threads[u].answer, later.store.leases[w.threads[t].lease], usage))
  {
    RunCoherent(load, actions);
    RunCoherent(load, actions + more);
    RunGrows(load, actions, more);
    var w, later := Run(load, actions), Run(load, actions + more);
    hide Run, CostOf, Truthful;
    if t < |w.threads| && u < |later.threads| && w.threads[t].Answered? && later.threads[u].Answered? {
      assert ThreadFits(load, w.store, w.threads[t]) && ThreadFits(load, later.store, later.threads[u]);
    }
  }

  /** Under a lease usage is priced on the card the lease names; if it names none, on the card of its
      plan; and if that names none either, on no particular card. */
  lemma LeaseChoosesCard(lib: Evaluator.Library, catalog: Catalog, lease: Lease, usage: Engine.Usage, card: string)
    requires catalog.pricing.Some?
    requires || (lease.rateCard != "" && card == lease.rateCard)
             || (lease.rateCard == "" && lease.planKey != "" && lease.planKey in catalog.plans
                 && catalog.plans[lease.planKey] == Some(card))
             || (lease.rateCard == "" && card == ""
                 && (lease.planKey == "" || lease.planKey !in catalog.plans || catalog.plans[lease.planKey] == None))
    ensures LeaseCost(lib, catalog, lease, usage) == Cost(Engine.Calculated(lib, catalog.pricing.value, usage, card))
  {
    hide Engine.Calculated;
  }
}
