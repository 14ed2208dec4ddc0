/** Saving and loading: what a loaded registry contains, that it is a valid one,
    and that saving and loading it again changes nothing a reader sees. */
module Recovery {
  import opened Sequences
  import opened Evidence
  import opened ResolutionRules
  import opened RegistryState
  import opened EvidenceInvariant
  import opened RegistrySteps
  import opened RegistryInvariant
  import opened LifecycleInvariant

  // ----- what the load loops build -----

  lemma {:induction false} LoadedGrants(grants: seq<Grant>)
    requires forall i, j :: 0 <= i < j < |grants| ==> grants[i].scope != grants[j].scope
    ensures forall g :: g in grants && g.scope != 0 ==>
              g.scope in LoadGrants(grants) && LoadGrants(grants)[g.scope] == g
    ensures forall s :: s in LoadGrants(grants) ==>
              s != 0 && LoadGrants(grants)[s].scope == s && LoadGrants(grants)[s] in grants
  {
    if grants != [] {
      var n := |grants| - 1;
      LoadedGrants(grants[..n]);
      assert grants == grants[..n] + [grants[n]];
    }
  }

  lemma {:induction false} LoadedRegistrations(stored: seq<StoredRegistration>, fenced: set<Id>, epoch: nat)
    ensures forall k :: k in LoadRegistrations(stored, fenced, epoch) ==>
              var runtime := LoadRegistrations(stored, fenced, epoch)[k];
              k.publisher != 0 && k.boot != 0 && k.boot !in fenced && !runtime.active && runtime.replay == []
  {
    if stored != [] {
      LoadedRegistrations(stored[..|stored| - 1], fenced, epoch);
    }
  }

  lemma {:induction false} LoadedCapabilities(stored: seq<(Id, nat)>)
    requires DistinctFirsts(stored)
    requires forall p :: p in stored ==> p.0 != 0
    ensures forall p :: p in stored ==>
              p.0 in LoadCapabilities(stored) && LoadCapabilities(stored)[p.0] == Entry(p.1, [], None)
    ensures forall c :: c in LoadCapabilities(stored) ==> exists p :: p in stored && p.0 == c
  {
    if stored != [] {
      var n := |stored| - 1;
      LoadedCapabilities(stored[..n]);
      assert stored == stored[..n] + [stored[n]];
      forall c | c in LoadCapabilities(stored) ensures exists p :: p in stored && p.0 == c {
        if c != stored[n].0 {
          assert c in LoadCapabilities(stored[..n]);
          var p :| p in stored[..n] && p.0 == c;
          assert p in stored;
        }
      }
    }
  }

  lemma {:induction false} LoadedFloors(floors: seq<(SourceKey, nat)>)
    requires DistinctFirsts(floors)
    requires forall p :: p in floors ==> p.0.source != 0
    ensures forall p :: p in floors ==> p.0 in LoadFloors(floors) && LoadFloors(floors)[p.0] == p.1
    ensures forall k :: k in LoadFloors(floors) ==> exists p :: p in floors && p.0 == k
  {
    if floors != [] {
      var n := |floors| - 1;
      LoadedFloors(floors[..n]);
      assert floors == floors[..n] + [floors[n]];
      forall k | k in LoadFloors(floors) ensures exists p :: p in floors && p.0 == k {
        if k != floors[n].0 {
          assert k in LoadFloors(floors[..n]);
          var p :| p in floors[..n] && p.0 == k;
          assert p in floors;
        }
      }
    }
  }

  function OfCapability(capability: Id): Record -> bool {
    (r: Record) => r.claim.capability == capability
  }

  function Reloaded(records: seq<Record>, id: Id, bound: nat): (loaded: seq<Record>)
    ensures |loaded| == |records|
  {
    seq(|records|, i requires 0 <= i < |records| => Reload(records[i], id, bound))
  }

  /** Loading appends each claim to the evidence of its capability, in order. */
  lemma {:induction false} LoadedClaims(capabilities: map<Id, Entry>, claims: seq<Record>, id: Id, bound: nat)
    requires forall r :: r in claims ==> r.claim.capability != 0 && r.claim.capability in capabilities
    requires forall c :: c in capabilities ==> capabilities[c].evidence == []
    ensures LoadClaims(capabilities, claims, id, bound).Keys == capabilities.Keys
    ensures forall c :: c in capabilities ==>
              LoadClaims(capabilities, claims, id, bound)[c] ==
              capabilities[c].(evidence := Reloaded(Filter(OfCapability(c), claims), id, bound))
  {
    if claims == [] {
      forall c | c in capabilities
        ensures capabilities[c].evidence == Reloaded(Filter(OfCapability(c), claims), id, bound)
      {
      }
    } else {
      var n := |claims| - 1;
      var front := claims[..n];
      assert claims == front + [claims[n]];
      LoadedClaims(capabilities, front, id, bound);
      var last := claims[n].claim.capability;
      forall c | c in capabilities
        ensures LoadClaims(capabilities, claims, id, bound)[c] ==
                capabilities[c].(evidence := Reloaded(Filter(OfCapability(c), claims), id, bound))
      {
        FilterStep(OfCapability(c), front, claims[n]);
        ReloadedStep(Filter(OfCapability(c), front), claims[n], id, bound);
      }
    }
  }

  lemma ReloadedStep(records: seq<Record>, r: Record, id: Id, bound: nat)
    ensures Reloaded(records + [r], id, bound) == Reloaded(records, id, bound) + [Reload(r, id, bound)]
  {
  }

  lemma {:induction false} LoadedEntities(stored: seq<StoredEntity>, registryGeneration: nat)
    requires forall i, j :: 0 <= i < j < |stored| ==> stored[i].id != stored[j].id
    requires forall se :: se in stored ==> se.id != 0
    ensures forall se :: se in stored ==>
              var loaded := LoadEntities(stored, registryGeneration);
              se.id in loaded && loaded[se.id] == LoadEntity(se, registryGeneration)
    ensures forall e :: e in LoadEntities(stored, registryGeneration) ==> exists se :: se in stored && se.id == e
  {
    if stored != [] {
      var n := |stored| - 1;
      LoadedEntities(stored[..n], registryGeneration);
      assert stored == stored[..n] + [stored[n]];
      forall e | e in LoadEntities(stored, registryGeneration) ensures exists se :: se in stored && se.id == e {
        if e != stored[n].id {
          assert e in LoadEntities(stored[..n], registryGeneration);
          var se :| se in stored[..n] && se.id == e;
          assert se in stored;
        }
      }
    }
  }

  // ----- one capability -----

  /** The claims a stored entity keeps for one capability. */
  ghost function ClaimsFor(se: StoredEntity, capability: Id): seq<Record> {
    Filter(OfCapability(capability), se.claims)
  }

  lemma ClaimsAreTheLiveRecords(ctx: Context, entity: Entity, se: StoredEntity, capability: Id)
    requires EntriesOk(ctx, entity) && Stores(entity, se) && capability in entity.capabilities
    ensures Distinct(ClaimsFor(se, capability))
    ensures Elements(ClaimsFor(se, capability)) == LiveSet(entity.capabilities[capability].evidence)
  {
    hide Filter, Synced, EvidenceOk, StoresFloors, StoresCapabilities, Live;
    FilterDistinct(OfCapability(capability), se.claims);
    FilterMembers(OfCapability(capability), se.claims);
    assert EntryOk(ctx, entity, capability, entity.capabilities[capability]);
    forall r | r in entity.capabilities[capability].evidence && Live(r) ensures r in ClaimsFor(se, capability) {
      assert RecordOk(ctx, entity, capability, r);
    }
  }

  lemma LiveCountIsSetSize(evidence: seq<Record>)
    requires KeyOrdered(evidence)
    ensures |Filter(Live, evidence)| == |LiveSet(evidence)|
  {
    LiveFilterDistinct(Live, evidence);
    DistinctLength(Filter(Live, evidence));
    FilterMembers(Live, evidence);
    assert (set r | r in Filter(Live, evidence)) == LiveSet(evidence);
  }

  /** Loaded evidence has one live record per source key and fits the limit. */
  lemma LoadedEvidenceOk(limit: nat, records: seq<Record>, evidence: seq<Record>, id: Id, bound: nat)
    requires EvidenceOk(limit, evidence) && Distinct(records) && Elements(records) == LiveSet(evidence)
    ensures EvidenceOk(limit, Reloaded(records, id, bound))
    ensures |records| == |LiveSet(evidence)|
    ensures forall r :: r in Reloaded(records, id, bound) ==> Live(r)
  {
    var loaded := Reloaded(records, id, bound);
    DistinctLength(records);
    LiveCountIsSetSize(evidence);
    LiveKeysAreDistinct(evidence);
    forall i, j | 0 <= i < j < |loaded| ensures loaded[i].key != loaded[j].key {
      assert records[i] in Elements(records) && records[j] in Elements(records);
    }
    assert Filter(Live, loaded) == loaded by {
      AllLive(loaded);
    }
  }

  lemma ReloadedRecordsOk(ctx: Context, to: Context, entity: Entity, loaded: Entity, capability: Id,
                          records: seq<Record>)
    requires forall r :: r in records ==> RecordOk(ctx, entity, capability, r)
    ensures forall r :: r in Reloaded(records, loaded.id, loaded.bound) ==>
              RecordOk(to, loaded, capability, r) && !ProcessBoundCurrent(r)
  {
    var all := Reloaded(records, loaded.id, loaded.bound);
    forall r | r in all ensures RecordOk(to, loaded, capability, r) && !ProcessBoundCurrent(r) {
      var i :| 0 <= i < |all| && all[i] == r;
      assert RecordOk(ctx, entity, capability, records[i]);
    }
  }

  // ----- one entity -----

  ghost function LoadedEntry(entity: Entity, se: StoredEntity, capability: Id): Entry
    requires capability in entity.capabilities
  {
    var evidence := Reloaded(ClaimsFor(se, capability), entity.id, entity.bound);
    var generation := entity.capabilities[capability].generation;
    Entry(generation, evidence, Some(Resolve(capability, generation, evidence)))
  }

  lemma StoredCapabilityKeys(ctx: Context, entity: Entity, se: StoredEntity)
    requires EntriesOk(ctx, entity) && Stores(entity, se)
    ensures LoadCapabilities(se.capabilities).Keys == entity.capabilities.Keys
    ensures forall c :: c in entity.capabilities ==>
              LoadCapabilities(se.capabilities)[c] == Entry(entity.capabilities[c].generation, [], None)
  {
    forall p | p in se.capabilities ensures p.0 != 0 {
      assert EntryOk(ctx, entity, p.0, entity.capabilities[p.0]);
    }
    LoadedCapabilities(se.capabilities);
    forall c | c in entity.capabilities
      ensures c in LoadCapabilities(se.capabilities)
      ensures LoadCapabilities(se.capabilities)[c] == Entry(entity.capabilities[c].generation, [], None)
    {
      assert (c, entity.capabilities[c].generation) in se.capabilities;
    }
  }

  lemma LoadedCapabilityMap(ctx: Context, entity: Entity, se: StoredEntity, registryGeneration: nat)
    requires EntityOk(ctx, entity.id, entity) && Stores(entity, se)
    ensures LoadEntity(se, registryGeneration).capabilities.Keys == entity.capabilities.Keys
    ensures forall c :: c in entity.capabilities ==>
              LoadEntity(se, registryGeneration).capabilities[c] == LoadedEntry(entity, se, c)
  {
    hide Resolve, Reload, RecordOk, Synced, EvidenceOk;
    StoredCapabilityKeys(ctx, entity, se);
    var initial := LoadCapabilities(se.capabilities);
    forall r | r in se.claims ensures r.claim.capability != 0 && r.claim.capability in initial {
      assert EntryOk(ctx, entity, r.claim.capability, entity.capabilities[r.claim.capability]);
    }
    LoadedClaims(initial, se.claims, se.id, se.bound);
  }

  lemma LoadedFloorMap(ctx: Context, entity: Entity, se: StoredEntity)
    requires EntityOk(ctx, entity.id, entity) && Stores(entity, se)
    ensures LoadFloors(se.floors) == entity.highWater
  {
    LoadedFloors(se.floors);
    var loaded := LoadFloors(se.floors);
    forall k | k in entity.highWater ensures k in loaded && loaded[k] == entity.highWater[k] {
      assert (k, entity.highWater[k]) in se.floors;
    }
    forall k | k in loaded ensures k in entity.highWater {
      var p :| p in se.floors && p.0 == k;
    }
  }

  lemma LoadedEntryOk(ctx: Context, to: Context, entity: Entity, se: StoredEntity, loaded: Entity, capability: Id)
    requires EntityOk(ctx, entity.id, entity) && Stores(entity, se) && ctx.limit == to.limit
    requires capability in entity.capabilities && loaded.id == entity.id && loaded.bound == entity.bound
    ensures EntryOk(to, loaded, capability, LoadedEntry(entity, se, capability))
    ensures forall r :: r in LoadedEntry(entity, se, capability).evidence ==> Live(r) && !ProcessBoundCurrent(r)
  {
    var evidence := entity.capabilities[capability].evidence;
    var records := ClaimsFor(se, capability);
    assert EntryOk(ctx, entity, capability, entity.capabilities[capability]);
    ClaimsAreTheLiveRecords(ctx, entity, se, capability);
    LoadedEvidenceOk(ctx.limit, records, evidence, entity.id, entity.bound);
    forall r | r in records ensures RecordOk(ctx, entity, capability, r) {
      assert r in Elements(records);
    }
    ReloadedRecordsOk(ctx, to, entity, loaded, capability, records);
    ComputedEntryOk(to, loaded, capability, entity.capabilities[capability].generation,
                    Reloaded(records, entity.id, entity.bound));
  }

  /** Every retained record was put into the form a load gives it, and its resolution is exact. */
  ghost predicate Settled(entity: Entity) {
    forall c :: c in entity.capabilities ==>
      && entity.capabilities[c].resolution ==
         Some(Resolve(c, entity.capabilities[c].generation, entity.capabilities[c].evidence))
      && forall r :: r in entity.capabilities[c].evidence ==> Live(r) && Reload(r, entity.id, entity.bound) == r
  }

  lemma LoadedEntityOk(ctx: Context, to: Context, entity: Entity, se: StoredEntity, registryGeneration: nat)
    requires EntityOk(ctx, entity.id, entity) && Stores(entity, se) && ctx.limit == to.limit
    ensures EntityOk(to, entity.id, LoadEntity(se, registryGeneration))
    ensures NoLiveProcess(LoadEntity(se, registryGeneration))
    ensures LoadEntity(se, registryGeneration).current == entity.current
    ensures LoadEntity(se, registryGeneration).bound == entity.bound
    ensures LoadEntity(se, registryGeneration).highWater == entity.highWater
    ensures LoadEntity(se, registryGeneration).setGeneration == entity.setGeneration
    ensures LoadEntity(se, registryGeneration).hasSet == entity.hasSet
  {
    var loaded := LoadEntity(se, registryGeneration);
    LoadedCapabilityMap(ctx, entity, se, registryGeneration);
    LoadedFloorMap(ctx, entity, se);
    forall c | c in loaded.capabilities
      ensures EntryOk(to, loaded, c, loaded.capabilities[c])
      ensures forall r :: r in loaded.capabilities[c].evidence ==> !ProcessBoundCurrent(r)
    {
      LoadedEntryOk(ctx, to, entity, se, loaded, c);
    }
  }

  lemma LoadedEntryIsSettled(ctx: Context, entity: Entity, se: StoredEntity, capability: Id)
    requires EntityOk(ctx, entity.id, entity) && Stores(entity, se) && capability in entity.capabilities
    ensures forall r :: r in LoadedEntry(entity, se, capability).evidence ==>
              Live(r) && Reload(r, entity.id, entity.bound) == r
  {
    LoadedEntryOk(ctx, ctx, entity, se, entity, capability);
    ReloadIsIdempotent(ClaimsFor(se, capability), entity.id, entity.bound);
  }

  lemma LoadedEntityIsSettled(ctx: Context, entity: Entity, se: StoredEntity, registryGeneration: nat)
    requires EntityOk(ctx, entity.id, entity) && Stores(entity, se)
    ensures Settled(LoadEntity(se, registryGeneration))
  {
    LoadedCapabilityMap(ctx, entity, se, registryGeneration);
    forall c | c in entity.capabilities
      ensures forall r :: r in LoadedEntry(entity, se, c).evidence ==>
                Live(r) && Reload(r, entity.id, entity.bound) == r
    {
      LoadedEntryIsSettled(ctx, entity, se, c);
    }
  }

  lemma ReloadIsIdempotent(records: seq<Record>, id: Id, bound: nat)
    ensures forall r :: r in Reloaded(records, id, bound) ==> Reload(r, id, bound) == r
  {
  }

  // ----- the whole registry -----

  lemma {:induction false} AllFencesHaveBoots(fences: seq<Fence>)
    requires forall f :: f in fences ==> f.boot != 0
    ensures Filter(HasBoot, fences) == fences
  {
    if fences != [] {
      var n := |fences| - 1;
      assert fences == fences[..n] + [fences[n]];
      AllFencesHaveBoots(fences[..n]);
    }
  }

  lemma LoadedFencesOk(st: State, fences: seq<Fence>)
    requires FencesOk(st.fences, st.fencedBoots) && SavesFences(st, fences)
    ensures Filter(HasBoot, fences) == fences && BootsOf(fences) == st.fencedBoots
    ensures FencesOk(fences, st.fencedBoots)
  {
    hide Filter;
    forall f | f in fences ensures f.boot in st.fencedBoots {
      assert f in st.fences;
    }
    AllFencesHaveBoots(fences);
    forall i, j | 0 <= i < j < |fences| ensures fences[i].boot != fences[j].boot {
      assert fences[i] in st.fences && fences[j] in st.fences;
    }
    forall b | b in st.fencedBoots ensures exists f :: f in fences && f.boot == b {
      var f :| f in st.fences && f.boot == b;
      assert f in fences;
    }
  }

  lemma SavedIdsAreSet(ctx: Context, entities: map<Id, Entity>, stored: seq<StoredEntity>)
    requires EntitiesOk(ctx, entities) && SavesEntities(entities, stored)
    ensures forall se :: se in stored ==> se.id != 0
  {
  }

  /** Every entity is loaded from the record that stores it, and no entity appears or is lost. */
  lemma LoadedFrom(ctx: Context, entities: map<Id, Entity>, stored: seq<StoredEntity>, registryGeneration: nat, e: Id)
    returns (se: StoredEntity)
    requires EntitiesOk(ctx, entities) && SavesEntities(entities, stored) && e in entities
    ensures Stores(entities[e], se)
    ensures e in LoadEntities(stored, registryGeneration)
    ensures LoadEntities(stored, registryGeneration)[e] == LoadEntity(se, registryGeneration)
  {
    SavedIdsAreSet(ctx, entities, stored);
    LoadedEntities(stored, registryGeneration);
    se :| se in stored && se.id == e;
  }

  lemma LoadedKeys(ctx: Context, entities: map<Id, Entity>, stored: seq<StoredEntity>, registryGeneration: nat)
    requires EntitiesOk(ctx, entities) && SavesEntities(entities, stored)
    ensures LoadEntities(stored, registryGeneration).Keys == entities.Keys
  {
    SavedIdsAreSet(ctx, entities, stored);
    LoadedEntities(stored, registryGeneration);
    forall e | e in entities ensures e in LoadEntities(stored, registryGeneration) {
      var se := LoadedFrom(ctx, entities, stored, registryGeneration, e);
    }
  }

  lemma LoadedEntitiesOk(ctx: Context, to: Context, entities: map<Id, Entity>, stored: seq<StoredEntity>,
                         registryGeneration: nat)
    requires EntitiesOk(ctx, entities) && SavesEntities(entities, stored) && ctx.limit == to.limit
    ensures EntitiesOk(to, LoadEntities(stored, registryGeneration))
    ensures forall e :: e in LoadEntities(stored, registryGeneration) ==>
              NoLiveProcess(LoadEntities(stored, registryGeneration)[e])
  {
    LoadedKeys(ctx, entities, stored, registryGeneration);
    forall e | e in entities
      ensures EntityOk(to, e, LoadEntities(stored, registryGeneration)[e])
      ensures NoLiveProcess(LoadEntities(stored, registryGeneration)[e])
    {
      var se := LoadedFrom(ctx, entities, stored, registryGeneration, e);
      LoadedEntityOk(ctx, to, entities[e], se, registryGeneration);
    }
  }

  lemma LoadKeepsState(env: Environment, st: State, payload: Payload)
    requires StateOk(env, st) && Saves(st, payload)
    ensures StateOk(env, Load(payload))
    ensures forall e :: e in Load(payload).entities ==> NoLiveProcess(Load(payload).entities[e])
  {
    var loaded := Load(payload);
    LoadedFencesOk(st, payload.fences);
    LoadedGrants(payload.authorities);
    LoadedRegistrations(payload.registrations, loaded.fencedBoots, loaded.epoch);
    LoadedEntitiesOk(ContextOf(env, st), ContextOf(env, loaded), st.entities, payload.entities, st.registryGeneration);
  }

  // ----- a second save and load -----

  lemma SettledEvidenceIsItsLiveSet(ctx: Context, entity: Entity, se: StoredEntity, capability: Id)
    requires EntityOk(ctx, entity.id, entity) && Stores(entity, se) && Settled(entity)
    requires capability in entity.capabilities
    ensures var evidence := entity.capabilities[capability].evidence;
            var again := LoadedEntry(entity, se, capability).evidence;
            KeyOrdered(evidence) && KeyOrdered(again) && LiveSet(evidence) == LiveSet(again) && |evidence| == |again|
  {
    var evidence := entity.capabilities[capability].evidence;
    var records := ClaimsFor(se, capability);
    assert EntryOk(ctx, entity, capability, entity.capabilities[capability]);
    ClaimsAreTheLiveRecords(ctx, entity, se, capability);
    LoadedEvidenceOk(ctx.limit, records, evidence, entity.id, entity.bound);
    forall r | r in records ensures Reload(r, entity.id, entity.bound) == r {
      assert r in Elements(records);
    }
    assert Reloaded(records, entity.id, entity.bound) == records;
    AllLive(evidence);
    LiveCountIsSetSize(evidence);
    forall r ensures r in records <==> r in LiveSet(evidence) {
      assert r in records <==> r in Elements(records);
    }
  }

  lemma SameViewsSameDigest(a: map<Id, Entry>, b: map<Id, Entry>)
    requires a.Keys == b.Keys
    requires forall c :: c in a ==> View(ResolutionOf(c, a[c])) == View(ResolutionOf(c, b[c]))
    ensures Views(SortedResolutions(a)) == Views(SortedResolutions(b))
  {
    var ids := Ascending(a.Keys);
    var x, y := Views(SortedResolutions(a)), Views(SortedResolutions(b));
    assert |x| == |y| == |ids|;
    forall i | 0 <= i < |ids| ensures x[i] == y[i] {
      assert ids[i] in ids;
    }
  }

  ghost predicate SameTruth(a: Entity, b: Entity) {
    && a.capabilities.Keys == b.capabilities.Keys
    && (forall c :: c in a.capabilities ==>
          var x, y := ResolutionOf(c, a.capabilities[c]), ResolutionOf(c, b.capabilities[c]);
          View(x) == View(y) && x.winner == y.winner)
    && DigestOf(a.published) == DigestOf(b.published)
  }

  /** Loading what was saved from a loaded entity gives the same resolutions and the same digest. */
  lemma ReloadingSettledEntity(ctx: Context, entity: Entity, se: StoredEntity, registryGeneration: nat)
    requires EntityOk(ctx, entity.id, entity) && Stores(entity, se) && Settled(entity)
    requires DigestOf(entity.published) == Some(Views(SortedResolutions(entity.capabilities)))
    ensures SameTruth(entity, LoadEntity(se, registryGeneration))
  {
    var loaded := LoadEntity(se, registryGeneration);
    LoadedCapabilityMap(ctx, entity, se, registryGeneration);
    forall c | c in entity.capabilities
      ensures View(ResolutionOf(c, entity.capabilities[c])) == View(ResolutionOf(c, loaded.capabilities[c]))
      ensures ResolutionOf(c, entity.capabilities[c]).winner == ResolutionOf(c, loaded.capabilities[c]).winner
    {
      SettledEvidenceIsItsLiveSet(ctx, entity, se, c);
      ViewDependsOnLiveRecords(c, entity.capabilities[c].generation, entity.capabilities[c].evidence,
                               LoadedEntry(entity, se, c).evidence);
    }
    SameViewsSameDigest(entity.capabilities, loaded.capabilities);
  }

  lemma LoadedPublished(se: StoredEntity, registryGeneration: nat)
    ensures var loaded := LoadEntity(se, registryGeneration);
            DigestOf(loaded.published) == Some(Views(SortedResolutions(loaded.capabilities)))
  {
  }

  /** From the first load on, saving and loading is a fixed point of what readers see. */
  lemma SecondLoadChangesNothing(env: Environment, st: State, first: Payload, second: Payload)
    requires StateOk(env, st) && Saves(st, first) && Saves(Load(first), second)
    ensures Load(second).entities.Keys == Load(first).entities.Keys
    ensures forall e :: e in Load(first).entities ==> SameTruth(Load(first).entities[e], Load(second).entities[e])
  {
    LoadKeepsState(env, st, first);
    var ctx, to, g := ContextOf(env, st), ContextOf(env, Load(first)), st.registryGeneration;
    var loaded := LoadEntities(first.entities, g);
    LoadedKeys(ctx, st.entities, first.entities, g);
    LoadedKeys(to, loaded, second.entities, g);
    forall e | e in loaded ensures SameTruth(loaded[e], LoadEntities(second.entities, g)[e]) {
      var se := LoadedFrom(ctx, st.entities, first.entities, g, e);
      LoadedEntityIsSettled(ctx, st.entities[e], se, g);
      LoadedPublished(se, g);
      var again := LoadedFrom(to, loaded, second.entities, g, e);
      ReloadingSettledEntity(to, loaded[e], again, g);
    }
  }
}
