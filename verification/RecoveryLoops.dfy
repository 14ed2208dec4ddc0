/** The loops of Save and Load over grants, fences, registrations and the parts of
    one entity. */
module RecoveryLoops {
  import opened Sequences
  import opened Evidence
  import opened ResolutionRules
  import opened RegistryState
  import opened EvidenceInvariant
  import opened RegistrySteps

  // ----- load -----

  method ReadGrants(grants: seq<Grant>) returns (loaded: map<Id, Grant>)
    ensures loaded == LoadGrants(grants)
  {
    loaded := map[];
    for k := 0 to |grants|
      invariant loaded == LoadGrants(grants[..k])
    {
      assert grants[..k + 1][..k] == grants[..k];
      if grants[k].scope != 0 {
        loaded := loaded[grants[k].scope := grants[k]];
      }
    }
    assert grants[..|grants|] == grants;
  }

  method ReadFences(stored: seq<Fence>) returns (fences: seq<Fence>, boots: set<Id>)
    ensures fences == Filter(HasBoot, stored) && boots == BootsOf(fences)
  {
    fences, boots := [], {};
    for k := 0 to |stored|
      invariant fences == Filter(HasBoot, stored[..k]) && boots == BootsOf(fences)
    {
      assert stored[..k + 1] == stored[..k] + [stored[k]];
      FilterStep(HasBoot, stored[..k], stored[k]);
      if stored[k].boot != 0 {
        assert BootsOf(fences + [stored[k]]) == BootsOf(fences) + {stored[k].boot};
        boots := boots + {stored[k].boot};
        fences := fences + [stored[k]];
      }
    }
    assert stored[..|stored|] == stored;
  }

  /** Registrations return without authority, and not at all for a fenced boot. */
  method ReadRegistrations(stored: seq<StoredRegistration>, fenced: set<Id>, epoch: nat)
    returns (loaded: map<PublisherKey, Runtime>)
    ensures loaded == LoadRegistrations(stored, fenced, epoch)
  {
    loaded := map[];
    for k := 0 to |stored|
      invariant loaded == LoadRegistrations(stored[..k], fenced, epoch)
    {
      assert stored[..k + 1][..k] == stored[..k];
      var r := stored[k];
      if r.publisher != 0 && r.boot != 0 && r.boot !in fenced {
        loaded := loaded[PublisherKey(r.publisher, r.boot) := Runtime(r.scope, epoch, false, [])];
      }
    }
    assert stored[..|stored|] == stored;
  }

  method ReadCapabilities(stored: seq<(Id, nat)>) returns (loaded: map<Id, Entry>)
    ensures loaded == LoadCapabilities(stored)
  {
    loaded := map[];
    for k := 0 to |stored|
      invariant loaded == LoadCapabilities(stored[..k])
    {
      assert stored[..k + 1][..k] == stored[..k];
      if stored[k].0 != 0 {
        loaded := loaded[stored[k].0 := Entry(stored[k].1, [], None)];
      }
    }
    assert stored[..|stored|] == stored;
  }

  method ReadClaims(capabilities: map<Id, Entry>, claims: seq<Record>, id: Id, bound: nat)
    returns (loaded: map<Id, Entry>)
    ensures loaded == LoadClaims(capabilities, claims, id, bound)
  {
    loaded := capabilities;
    for k := 0 to |claims|
      invariant loaded == LoadClaims(capabilities, claims[..k], id, bound)
    {
      assert claims[..k + 1][..k] == claims[..k];
      var c := claims[k].claim.capability;
      if c != 0 {
        var entry := if c in loaded then loaded[c] else Entry(0, [], None);
        loaded := loaded[c := entry.(evidence := entry.evidence + [Reload(claims[k], id, bound)])];
      }
    }
    assert claims[..|claims|] == claims;
  }

  method ReadFloors(floors: seq<(SourceKey, nat)>) returns (loaded: map<SourceKey, nat>)
    ensures loaded == LoadFloors(floors)
  {
    loaded := map[];
    for k := 0 to |floors|
      invariant loaded == LoadFloors(floors[..k])
    {
      assert floors[..k + 1][..k] == floors[..k];
      if floors[k].0.source != 0 {
        loaded := loaded[floors[k].0 := floors[k].1];
      }
    }
    assert floors[..|floors|] == floors;
  }

  ghost predicate AllUnresolved(capabilities: map<Id, Entry>) {
    forall c :: c in capabilities ==> capabilities[c].resolution.None?
  }

  lemma {:induction false} LoadedAreUnresolved(capabilities: map<Id, Entry>, claims: seq<Record>, id: Id, bound: nat)
    requires AllUnresolved(capabilities)
    ensures AllUnresolved(LoadClaims(capabilities, claims, id, bound))
  {
    if claims != [] {
      var n := |claims| - 1;
      LoadedAreUnresolved(capabilities, claims[..n], id, bound);
    }
  }

  lemma {:induction false} CapabilitiesStartUnresolved(stored: seq<(Id, nat)>)
    ensures AllUnresolved(LoadCapabilities(stored))
  {
    if stored != [] {
      CapabilitiesStartUnresolved(stored[..|stored| - 1]);
    }
  }

  // ----- save -----

  method StoreGrants(authorities: map<Id, Grant>) returns (grants: seq<Grant>)
    requires forall s :: s in authorities ==> authorities[s].scope == s
    ensures forall i, j :: 0 <= i < j < |grants| ==> grants[i].scope != grants[j].scope
    ensures forall g :: g in grants <==> g.scope in authorities && authorities[g.scope] == g
  {
    var scopes := Ascending(authorities.Keys);
    AscendingSorted(authorities.Keys);
    grants := [];
    for k := 0 to |scopes|
      invariant |grants| == k
      invariant forall i :: 0 <= i < k ==> scopes[i] in authorities && grants[i] == authorities[scopes[i]]
    {
      assert scopes[k] in scopes;
      grants := grants + [authorities[scopes[k]]];
    }
    forall g ensures g in grants <==> g.scope in authorities && authorities[g.scope] == g {
      if g.scope in authorities && authorities[g.scope] == g {
        assert g.scope in scopes;
        var i :| 0 <= i < |scopes| && scopes[i] == g.scope;
        assert grants[i] == g;
      }
    }
  }

  /** The active registrations. */
  method StoreRegistrations(publishers: map<PublisherKey, Runtime>) returns (stored: seq<StoredRegistration>)
    ensures forall r :: r in stored <==>
              && PublisherKey(r.publisher, r.boot) in publishers
              && publishers[PublisherKey(r.publisher, r.boot)].active
              && publishers[PublisherKey(r.publisher, r.boot)].scope == r.scope
  {
    stored := [];
    var rest := publishers.Keys;
    while rest != {}
      invariant rest <= publishers.Keys
      invariant forall r :: r in stored <==>
                  && PublisherKey(r.publisher, r.boot) in publishers.Keys - rest
                  && publishers[PublisherKey(r.publisher, r.boot)].active
                  && publishers[PublisherKey(r.publisher, r.boot)].scope == r.scope
    {
      var key :| key in rest;
      if publishers[key].active {
        var r := StoredRegistration(key.publisher, key.boot, publishers[key].scope);
        assert forall x :: x in stored + [r] <==> x in stored || x == r;
        stored := stored + [r];
      }
      rest := rest - {key};
    }
  }

  method StoreCapabilities(capabilities: map<Id, Entry>) returns (stored: seq<(Id, nat)>)
    ensures DistinctFirsts(stored)
    ensures forall p :: p in stored <==> p.0 in capabilities && capabilities[p.0].generation == p.1
  {
    var ids := Ascending(capabilities.Keys);
    AscendingSorted(capabilities.Keys);
    stored := [];
    for k := 0 to |ids|
      invariant |stored| == k
      invariant forall i :: 0 <= i < k ==>
                  ids[i] in capabilities && stored[i] == (ids[i], capabilities[ids[i]].generation)
    {
      assert ids[k] in ids;
      stored := stored + [(ids[k], capabilities[ids[k]].generation)];
    }
    forall p ensures p in stored <==> p.0 in capabilities && capabilities[p.0].generation == p.1 {
      if p.0 in capabilities && capabilities[p.0].generation == p.1 {
        assert p.0 in ids;
        var i :| 0 <= i < |ids| && ids[i] == p.0;
        assert stored[i] == p;
      }
    }
  }

  method KeepLive(evidence: seq<Record>) returns (kept: seq<Record>)
    ensures kept == Filter(Live, evidence)
  {
    kept := [];
    for k := 0 to |evidence|
      invariant kept == Filter(Live, evidence[..k])
    {
      assert evidence[..k + 1] == evidence[..k] + [evidence[k]];
      FilterStep(Live, evidence[..k], evidence[k]);
      if Live(evidence[k]) {
        kept := kept + [evidence[k]];
      }
    }
    assert evidence[..|evidence|] == evidence;
  }

  /** r is a live record of one of the listed capabilities. */
  ghost predicate LiveAmong(capabilities: map<Id, Entry>, ids: seq<Id>, r: Record) {
    r.claim.capability in ids && r.claim.capability in capabilities
    && r in capabilities[r.claim.capability].evidence && Live(r)
  }

  ghost predicate WellFiled(capabilities: map<Id, Entry>) {
    forall c :: c in capabilities ==>
      KeyOrdered(capabilities[c].evidence) && forall r :: r in capabilities[c].evidence ==> r.claim.capability == c
  }

  lemma OneMoreCapability(capabilities: map<Id, Entry>, ids: seq<Id>, k: nat, claims: seq<Record>)
    requires WellFiled(capabilities) && k < |ids| && ids[k] in capabilities && ids[k] !in ids[..k]
    requires Distinct(claims) && forall r :: r in claims <==> LiveAmong(capabilities, ids[..k], r)
    ensures var more := claims + Filter(Live, capabilities[ids[k]].evidence);
            Distinct(more) && forall r :: r in more <==> LiveAmong(capabilities, ids[..k + 1], r)
  {
    hide Filter, Live, KeyOrdered;
    var evidence := capabilities[ids[k]].evidence;
    var live := Filter(Live, evidence);
    LiveFilterDistinct(Live, evidence);
    FilterMembers(Live, evidence);
    assert ids[..k + 1] == ids[..k] + [ids[k]];
    forall i, j | 0 <= i < |claims| && 0 <= j < |live| ensures claims[i] != live[j] {
      assert claims[i] in claims && live[j] in live;
    }
    forall r ensures r in claims + live <==> LiveAmong(capabilities, ids[..k + 1], r) {
    }
  }

  method StoreClaims(capabilities: map<Id, Entry>) returns (claims: seq<Record>)
    requires WellFiled(capabilities)
    ensures Distinct(claims)
    ensures forall r :: r in claims <==>
              r.claim.capability in capabilities && r in capabilities[r.claim.capability].evidence && Live(r)
  {
    hide WellFiled, Live;
    var ids := Ascending(capabilities.Keys);
    AscendingSorted(capabilities.Keys);
    claims := [];
    for k := 0 to |ids|
      invariant Distinct(claims) && forall r :: r in claims <==> LiveAmong(capabilities, ids[..k], r)
    {
      assert ids[k] in ids;
      OneMoreCapability(capabilities, ids, k, claims);
      var live := KeepLive(capabilities[ids[k]].evidence);
      claims := claims + live;
    }
    assert ids[..|ids|] == ids;
  }

  method StoreFloors(highWater: map<SourceKey, nat>) returns (floors: seq<(SourceKey, nat)>)
    ensures DistinctFirsts(floors)
    ensures forall p :: p in floors <==> p.0 in highWater && highWater[p.0] == p.1
  {
    floors := [];
    var rest := highWater.Keys;
    while rest != {}
      invariant rest <= highWater.Keys && DistinctFirsts(floors)
      invariant forall p :: p in floors <==> p.0 in highWater.Keys - rest && highWater[p.0] == p.1
    {
      var key :| key in rest;
      var p := (key, highWater[key]);
      assert forall i :: 0 <= i < |floors| ==> floors[i] in floors;
      assert forall x :: x in floors + [p] <==> x in floors || x == p;
      floors := floors + [p];
      rest := rest - {key};
    }
  }

  method StoreEntity(ghost ctx: Context, entity: Entity) returns (stored: StoredEntity)
    requires EntriesOk(ctx, entity)
    ensures stored.id == entity.id && Stores(entity, stored)
  {
    assert WellFiled(entity.capabilities) by {
      forall c | c in entity.capabilities
        ensures KeyOrdered(entity.capabilities[c].evidence)
        ensures forall r :: r in entity.capabilities[c].evidence ==> r.claim.capability == c
      {
        assert EntryOk(ctx, entity, c, entity.capabilities[c]);
      }
    }
    hide EntriesOk, WellFiled, Live, Distinct, DistinctFirsts;
    var capabilities := StoreCapabilities(entity.capabilities);
    var claims := StoreClaims(entity.capabilities);
    var floors := StoreFloors(entity.highWater);
    stored := StoredEntity(entity.id, entity.current, entity.bound, entity.hasSet, entity.setGeneration,
      entity.invalidated, entity.reason, capabilities, claims, floors);
  }
}
