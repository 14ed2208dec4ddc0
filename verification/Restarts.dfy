/** What a save and a load leave of a registry, record by record and field by field, and what it
    answers afterwards. */
module Restarts {
  import opened Sequences
  import opened Values
  import opened Evidence
  import opened ResolutionRules
  import opened RegistryState
  import opened EvidenceInvariant
  import opened RegistrySteps
  import opened RegistryInvariant
  import opened Recovery
  import opened Runs
  import opened Winners
  import opened Serving

  // ----- the records -----

  /** A record as a load leaves it: still fenced if it was, current if it is durable, otherwise waiting
      for revalidation. */
  function Restored(r: Record): Record {
    r.(currentness := if r.currentness == Fenced then Fenced
                      else if r.claim.durability == Durable then Current
                      else AwaitingRevalidation)
  }

  /** The retained records come back, each once and in the form a load gives them; nothing else does. */
  ghost predicate ListRestored(before: seq<Record>, after: seq<Record>) {
    && Distinct(after)
    && (forall x :: x in before && Retained(x) ==> Restored(x) in after)
    && (forall y :: y in after ==> exists x :: x in before && Retained(x) && y == Restored(x))
  }

  lemma ReloadRestores(ctx: Context, entity: Entity, capability: Id, r: Record)
    requires RecordOk(ctx, entity, capability, r)
    ensures Reload(r, entity.id, entity.bound) == Restored(r)
  {
  }

  lemma RestoredMembers(records: seq<Record>, evidence: seq<Record>, id: Id, bound: nat)
    requires Distinct(records) && Elements(records) == LiveSet(evidence) && KeyOrdered(evidence)
    requires forall r :: r in records ==> Reload(r, id, bound) == Restored(r)
    ensures ListRestored(evidence, Reloaded(records, id, bound))
  {
    var after := Reloaded(records, id, bound);
    LiveKeysAreDistinct(evidence);
    forall i, j | 0 <= i < j < |after| ensures after[i] != after[j] {
      assert records[i] in Elements(records) && records[j] in Elements(records);
    }
    forall x | x in evidence && Retained(x) ensures Restored(x) in after {
      assert x in Elements(records);
      var i :| 0 <= i < |records| && records[i] == x;
      assert after[i] == Restored(x);
    }
    forall y | y in after ensures exists x :: x in evidence && Retained(x) && y == Restored(x) {
      var i :| 0 <= i < |after| && after[i] == y;
      assert records[i] in Elements(records) && y == Restored(records[i]);
    }
  }

  lemma EntryIsRestored(ctx: Context, entity: Entity, se: StoredEntity, c: Id)
    requires EntityOk(ctx, entity.id, entity) && Stores(entity, se) && c in entity.capabilities
    ensures ListRestored(entity.capabilities[c].evidence, LoadedEntry(entity, se, c).evidence)
  {
    hide ListRestored, Stores, Synced, LiveSet, Filter;
    var evidence, records := entity.capabilities[c].evidence, ClaimsFor(se, c);
    assert EntryOk(ctx, entity, c, entity.capabilities[c]);
    ClaimsAreTheLiveRecords(ctx, entity, se, c);
    forall r | r in records ensures Reload(r, entity.id, entity.bound) == Restored(r) {
      assert r in Elements(records);
      assert r in LiveSet(evidence);
      ReloadRestores(ctx, entity, c, r);
    }
    RestoredMembers(records, evidence, entity.id, entity.bound);
  }

  /** A restarted registry has every entity with its header and capability generations, the retained
      records of each capability, and serves what it resolves. */
  lemma RestartRestoresExactly(env: Environment, st: State, payload: Payload, e: Id)
    requires env.Valid() && StateOk(env, st) && Saves(st, payload) && e in st.entities
    ensures Load(payload).entities.Keys == st.entities.Keys
    ensures var before, after := st.entities[e], Load(payload).entities[e];
            && SameButEvidence(before, after) && Serves(after, st.registryGeneration)
            && after.capabilities.Keys == before.capabilities.Keys
            && forall c :: c in before.capabilities ==>
                 && after.capabilities[c].generation == before.capabilities[c].generation
                 && ListRestored(before.capabilities[c].evidence, after.capabilities[c].evidence)
  {
    hide EntriesOk, ListRestored, LoadEntity, Stores, FencesOk, ReplaysOk, LoadRegistrations, LoadGrants, Serves;
    var ctx, g := ContextOf(env, st), st.registryGeneration;
    var before := st.entities[e];
    LoadedKeys(ctx, st.entities, payload.entities, g);
    var se := LoadedFrom(ctx, st.entities, payload.entities, g, e);
    assert EntityOk(ctx, e, before);
    LoadedCapabilityMap(ctx, before, se, g);
    LoadedHeader(ctx, before, se, g);
    forall c | c in before.capabilities
      ensures ListRestored(before.capabilities[c].evidence, LoadedEntry(before, se, c).evidence)
    {
      EntryIsRestored(ctx, before, se, c);
    }
  }

  lemma LoadedHeader(ctx: Context, entity: Entity, se: StoredEntity, registryGeneration: nat)
    requires EntityOk(ctx, entity.id, entity) && Stores(entity, se)
    ensures SameButEvidence(entity, LoadEntity(se, registryGeneration))
    ensures Serves(LoadEntity(se, registryGeneration), registryGeneration)
  {
    hide EntriesOk, StoresClaims, StoresCapabilities, StoresFloors, Serves, Resolve, LoadClaims, LoadCapabilities;
    LoadedFloorMap(ctx, entity, se);
    LoadedEntityOk(ctx, ctx, entity, se, registryGeneration);
    OkIsCached(ctx, LoadEntity(se, registryGeneration));
    RefreshedServes(LoadEntity(se, registryGeneration), registryGeneration);
    RefreshIsIdempotent(se, registryGeneration);
  }

  lemma RefreshIsIdempotent(se: StoredEntity, registryGeneration: nat)
    ensures var loaded := LoadEntity(se, registryGeneration); Refresh(loaded, registryGeneration) == loaded
  {
  }

  // ----- the directory -----

  function KeyOf(r: StoredRegistration): PublisherKey { PublisherKey(r.publisher, r.boot) }

  predicate Loadable(r: StoredRegistration, fenced: set<Id>) {
    r.publisher != 0 && r.boot != 0 && r.boot !in fenced
  }

  /** The stored registrations give each instance one scope. */
  ghost predicate OneScopeEach(stored: seq<StoredRegistration>) {
    forall a, b :: a in stored && b in stored && KeyOf(a) == KeyOf(b) ==> a.scope == b.scope
  }

  ghost predicate Registers(loaded: map<PublisherKey, Runtime>, stored: seq<StoredRegistration>, fenced: set<Id>,
                            epoch: nat) {
    && (forall r :: r in stored && Loadable(r, fenced) ==>
          KeyOf(r) in loaded && loaded[KeyOf(r)] == Runtime(r.scope, epoch, false, []))
    && (forall k :: k in loaded ==> exists r :: r in stored && Loadable(r, fenced) && KeyOf(r) == k)
  }

  lemma RegistersOneMore(loaded: map<PublisherKey, Runtime>, stored: seq<StoredRegistration>, last: StoredRegistration,
                         fenced: set<Id>, epoch: nat)
    requires Registers(loaded, stored, fenced, epoch) && OneScopeEach(stored + [last])
    ensures Registers(if Loadable(last, fenced) then loaded[KeyOf(last) := Runtime(last.scope, epoch, false, [])]
                      else loaded, stored + [last], fenced, epoch)
  {
    hide Loadable;
    var all := stored + [last];
    var after := if Loadable(last, fenced) then loaded[KeyOf(last) := Runtime(last.scope, epoch, false, [])]
        else loaded;
    assert last in all && forall r :: r in all <==> r in stored || r == last;
    forall k | k in after ensures exists r :: r in all && Loadable(r, fenced) && KeyOf(r) == k {
      if k in loaded {
        var r :| r in stored && Loadable(r, fenced) && KeyOf(r) == k;
        assert r in all;
      } else {
        assert KeyOf(last) == k;
      }
    }
  }

  lemma {:induction false} RegistrationsExactly(stored: seq<StoredRegistration>, fenced: set<Id>, epoch: nat)
    requires OneScopeEach(stored)
    ensures Registers(LoadRegistrations(stored, fenced, epoch), stored, fenced, epoch)
  {
    if stored != [] {
      var n := |stored| - 1;
      assert stored == stored[..n] + [stored[n]];
      hide Registers;
      RegistrationsExactly(stored[..n], fenced, epoch);
      RegistersOneMore(LoadRegistrations(stored[..n], fenced, epoch), stored[..n], stored[n], fenced, epoch);
    }
  }

  /** A restarted registry has the epoch, the generation, the grants and the fences that were saved, and
      every active instance of an unfenced boot as registered but inactive, remembering no attempt. */
  lemma RestartedDirectory(env: Environment, st: State, payload: Payload)
    requires env.Valid() && StateOk(env, st) && Saves(st, payload)
    ensures var after := Load(payload);
            && after.epoch == st.epoch && after.registryGeneration == st.registryGeneration
            && after.authorities == st.authorities
            && after.fencedBoots == st.fencedBoots && Distinct(after.fences)
            && (forall f :: f in after.fences <==> f in st.fences)
            && (forall k :: k in after.publishers <==>
                  k in st.publishers && st.publishers[k].active && k.boot !in st.fencedBoots)
            && (forall k :: k in after.publishers ==>
                  after.publishers[k] == Runtime(st.publishers[k].scope, st.epoch, false, []))
  {
    hide EntitiesOk, FencesOk, ReplaysOk, SavesEntities, LoadEntities, LoadRegistrations, LoadGrants, BootsOf, Filter;
    LoadedFencesOk(st, payload.fences);
    GrantsRestored(st, payload.authorities);
    RegistrationsRestored(st, payload.registrations);
  }

  lemma GrantsRestored(st: State, grants: seq<Grant>)
    requires DirectoryOk(st) && SavesAuthorities(st, grants)
    ensures LoadGrants(grants) == st.authorities
  {
    LoadedGrants(grants);
    var loaded := LoadGrants(grants);
    forall s | s in st.authorities ensures s in loaded && loaded[s] == st.authorities[s] {
      assert st.authorities[s] in grants;
    }
    forall s | s in loaded ensures s in st.authorities {
      assert loaded[s] in grants;
    }
  }

  lemma RegistrationsRestored(st: State, stored: seq<StoredRegistration>)
    requires DirectoryOk(st) && SavesRegistrations(st, stored)
    ensures var loaded := LoadRegistrations(stored, st.fencedBoots, st.epoch);
            && (forall k :: k in loaded <==>
                  k in st.publishers && st.publishers[k].active && k.boot !in st.fencedBoots)
            && (forall k :: k in loaded ==> loaded[k] == Runtime(st.publishers[k].scope, st.epoch, false, []))
  {
    hide LoadRegistrations;
    RegistrationsExactly(stored, st.fencedBoots, st.epoch);
    var loaded := LoadRegistrations(stored, st.fencedBoots, st.epoch);
    forall k | k in st.publishers && st.publishers[k].active && k.boot !in st.fencedBoots
      ensures k in loaded && loaded[k] == Runtime(st.publishers[k].scope, st.epoch, false, [])
    {
      assert StoredRegistration(k.publisher, k.boot, st.publishers[k].scope) in stored;
    }
  }

  // ----- the answers -----

  /** A durable, unfenced member of the strongest class. */
  ghost predicate Stands(r: Record, before: seq<Record>) {
    r in before && Contends(r, before) && r.claim.durability == Durable && r.currentness != Fenced
  }

  ghost predicate StandsFirst(w: Record, before: seq<Record>) {
    Stands(w, before) && forall r :: Stands(r, before) ==> NotBehind(w, r)
  }

  ghost predicate StandAgreed(w: Record, before: seq<Record>) {
    forall r :: Stands(r, before) ==> AgreeOn(r, w)
  }

  ghost predicate StandsDecides(r: Resolution, w: Record, before: seq<Record>) {
    && StandsFirst(w, before) && SpokenBy(r, w)
    && if StandAgreed(w, before) then r.state == w.claim.state && r.value == w.claim.value
       else r.state == Conflicted && r.value == Absent
  }

  /** The answer after a restart: what the durable, unfenced members of the strongest class say. */
  ghost predicate AnsweredByStanding(r: Resolution, before: seq<Record>) {
    if !exists x :: x in before && Retained(x) then r.state == Unknown && r.value == Absent && r.winner == None
    else if !exists x :: Stands(x, before) then r.state == RevalidationRequired
    else exists w :: StandsDecides(r, w, before)
  }

  lemma RestoredContends(before: seq<Record>, after: seq<Record>, x: Record)
    requires ListRestored(before, after) && x in before && Retained(x)
    ensures Contends(Restored(x), after) <==> Contends(x, before)
  {
    if Contends(x, before) {
      forall y | y in after && Retained(y) ensures x.claim.provenance <= y.claim.provenance {
        var z :| z in before && Retained(z) && y == Restored(z);
      }
    }
    if Contends(Restored(x), after) {
      forall z | z in before && Retained(z) ensures x.claim.provenance <= z.claim.provenance {
        assert Restored(z) in after && Retained(Restored(z));
      }
    }
  }

  lemma StandingVote(before: seq<Record>, after: seq<Record>)
    requires ListRestored(before, after)
    ensures forall x :: Stands(x, before) ==>
              Restored(x) in after && Contends(Restored(x), after) && Restored(x).currentness.Current?
    ensures forall y :: y in after && Contends(y, after) && y.currentness.Current? ==>
              exists x :: Stands(x, before) && y == Restored(x)
    ensures (exists x :: x in before && Retained(x)) <==> (exists y :: y in after && Retained(y))
  {
    hide Contends;
    forall x | x in before && Retained(x)
      ensures Restored(x) in after && Retained(Restored(x))
      ensures Contends(Restored(x), after) <==> Contends(x, before)
    {
      RestoredContends(before, after, x);
    }
    forall x | Stands(x, before) ensures Restored(x) in after && Contends(Restored(x), after) {
      ContenderIsRetained(x, before);
    }
    forall y | y in after && Contends(y, after) && y.currentness.Current?
      ensures exists x :: Stands(x, before) && y == Restored(x)
    {
      var x :| x in before && Retained(x) && y == Restored(x);
      assert Stands(x, before);
    }
  }

  lemma ContenderIsRetained(x: Record, evidence: seq<Record>)
    requires Contends(x, evidence)
    ensures Retained(x)
  {
  }

  lemma RestoredAnswer(before: seq<Record>, after: seq<Record>, r: Resolution, capability: Id, generation: nat)
    requires ListRestored(before, after) && Resolved(r, capability, generation, after)
    ensures AnsweredByStanding(r, before)
  {
    hide Contends, Retained, ListRestored, CountsMatch, AgreeOn, NotBehind, NamesConflict, Stands, Restored, Votes;
    StandingVote(before, after);
    if exists x :: x in before && Retained(x) {
      var y :| Speaks(y, after) && DecidedFor(r, y, after);
      assert Votes(y, after);
      if exists x :: Stands(x, before) {
        SpeakerStands(before, after, y);
        var w :| StandsFirst(w, before) && y == Restored(w);
        StandingAgree(before, after, w);
        RestoredSays(w);
        RestoredIsCurrent(w, before);
        assert StandsDecides(r, w, before);
      } else {
        NobodyStands(before, after, y);
      }
    }
  }

  lemma RestoredSays(w: Record)
    ensures Restored(w).claim == w.claim && Restored(w).key == w.key
    ensures forall r: Resolution :: SpokenBy(r, Restored(w)) <==> SpokenBy(r, w)
  {
  }

  lemma RestoredIsCurrent(w: Record, before: seq<Record>)
    requires Stands(w, before)
    ensures Restored(w).currentness.Current?
  {
  }

  lemma NobodyStands(before: seq<Record>, after: seq<Record>, y: Record)
    requires ListRestored(before, after) && Votes(y, after) && !exists x :: Stands(x, before)
    ensures !y.currentness.Current?
  {
    hide Contends, ListRestored, Stands, Restored;
    StandingVote(before, after);
  }

  lemma VotesAreStanding(before: seq<Record>, after: seq<Record>)
    requires ListRestored(before, after) && exists x :: Stands(x, before)
    ensures forall x :: Stands(x, before) ==> Votes(Restored(x), after)
    ensures forall y :: Votes(y, after) ==> exists x :: Stands(x, before) && y == Restored(x)
  {
    hide Contends, ListRestored, Stands, Restored;
    StandingVote(before, after);
    var x :| Stands(x, before);
    assert HasCurrentContender(after) by {
      assert Restored(x) in after && Contends(Restored(x), after) && Restored(x).currentness.Current?;
    }
  }

  lemma SpeakerStands(before: seq<Record>, after: seq<Record>, y: Record)
    requires ListRestored(before, after) && Speaks(y, after) && exists x :: Stands(x, before)
    ensures exists w :: StandsFirst(w, before) && y == Restored(w)
  {
    hide Votes, ListRestored, Stands, Restored, NotBehind;
    VotesAreStanding(before, after);
    var w :| Stands(w, before) && y == Restored(w);
    forall r | Stands(r, before) ensures NotBehind(w, r) {
      assert Votes(Restored(r), after);
      SameStanding(w, r);
    }
    assert StandsFirst(w, before);
  }

  lemma SameStanding(w: Record, r: Record)
    ensures NotBehind(Restored(w), Restored(r)) <==> NotBehind(w, r)
    ensures AgreeOn(Restored(r), Restored(w)) <==> AgreeOn(r, w)
  {
  }

  lemma StandingAgree(before: seq<Record>, after: seq<Record>, w: Record)
    requires ListRestored(before, after) && Stands(w, before)
    ensures StandAgreed(w, before) <==> VotesAgree(Restored(w), after)
  {
    hide Votes, ListRestored, Stands, Restored, AgreeOn;
    VotesAreStanding(before, after);
    forall r ensures AgreeOn(Restored(r), Restored(w)) <==> AgreeOn(r, w) {
      SameStanding(w, r);
    }
  }

  /** After a restart the durable, unfenced members of the strongest class decide; a capability with a
      retained record is never forgotten, and without such a member it needs revalidation. */
  lemma RestartedAnswer(env: Environment, st: State, payload: Payload, e: Id, c: Id)
    requires env.Valid() && StateOk(env, st) && Saves(st, payload)
    requires e in st.entities && c in st.entities[e].capabilities
    ensures e in Load(payload).entities && c in Load(payload).entities[e].capabilities
    ensures AnsweredByStanding(ResolutionOf(c, Load(payload).entities[e].capabilities[c]),
                               st.entities[e].capabilities[c].evidence)
  {
    hide StateOk, Saves, Load, ListRestored, Resolved, AnsweredByStanding, Serves, SameButEvidence;
    RestartRestoresExactly(env, st, payload, e);
    PerformKeepsState(env, st, Restart(payload));
    var after := Load(payload);
    LoadedIsResolved(env, after, e, c);
    var entry := after.entities[e].capabilities[c];
    RestoredAnswer(st.entities[e].capabilities[c].evidence, entry.evidence, entry.resolution.value, c,
                   entry.generation);
  }

  lemma LoadedIsResolved(env: Environment, st: State, e: Id, c: Id)
    requires StateOk(env, st) && e in st.entities && c in st.entities[e].capabilities
    ensures var entry := st.entities[e].capabilities[c];
            && entry.resolution.Some? && ResolutionOf(c, entry) == entry.resolution.value
            && Resolved(entry.resolution.value, c, entry.generation, entry.evidence)
  {
    hide Resolved, Resolve, RecordOk, EvidenceOk;
    assert EntityOk(ContextOf(env, st), e, st.entities[e]);
    assert EntryOk(ContextOf(env, st), st.entities[e], c, st.entities[e].capabilities[c]);
    SyncedIsResolved(c, st.entities[e].capabilities[c]);
  }
}
