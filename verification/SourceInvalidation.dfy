/** What invalidating a source counts: the current records of the source, in every place they are held. */
module SourceInvalidation {
  import opened Evidence
  import opened RegistryState
  import opened RegistrySteps
  import opened RegistryIndex

  /** Where a record is held: its entity, its capability and its index in the list. */
  type Place = (Id, (Id, nat))

  predicate CurrentFrom(source: Id, r: Record) { IsCurrent(r) && r.key.source == source }

  ghost function ListPlaces(evidence: seq<Record>, source: Id): set<nat> {
    set i | 0 <= i < |evidence| && CurrentFrom(source, evidence[i])
  }

  /** The places among some of the capabilities of an entity. */
  ghost function PlacesAmong(entity: Entity, names: set<Id>, source: Id): set<(Id, nat)> {
    set c, i | c in names && c in entity.capabilities && i in ListPlaces(entity.capabilities[c].evidence, source)
      :: (c, i)
  }

  ghost function EntityPlaces(entity: Entity, source: Id): set<(Id, nat)> {
    PlacesAmong(entity, entity.capabilities.Keys, source)
  }

  /** Every place that holds a current record of the source. */
  ghost function SourcePlaces(entities: map<Id, Entity>, source: Id): set<Place> {
    set e, p | e in entities && p in EntityPlaces(entities[e], source) :: (e, p)
  }

  // ----- counting -----

  ghost function Tagged<K, T>(k: K, s: set<T>): set<(K, T)> { set x | x in s :: (k, x) }

  lemma {:induction false} TaggedSize<K, T>(k: K, s: set<T>)
    ensures |Tagged(k, s)| == |s|
    decreases |s|
  {
    if s == {} {
      assert Tagged(k, s) == {};
    } else {
      var x :| x in s;
      TaggedSize(k, s - {x});
      assert Tagged(k, s) == Tagged(k, s - {x}) + {(k, x)};
    }
  }

  method CountList(evidence: seq<Record>, source: Id) returns (count: nat)
    ensures count == |ListPlaces(evidence, source)|
  {
    count := 0;
    ghost var found: set<nat> := {};
    for i := 0 to |evidence|
      invariant found == set j | 0 <= j < i && CurrentFrom(source, evidence[j])
      invariant count == |found|
    {
      if CurrentFrom(source, evidence[i]) {
        found := found + {i};
        count := count + 1;
      }
    }
    assert found == ListPlaces(evidence, source);
  }

  lemma OneMoreCapability(entity: Entity, names: set<Id>, c: Id, source: Id)
    requires c in entity.capabilities && c !in names
    ensures |PlacesAmong(entity, names + {c}, source)| ==
            |PlacesAmong(entity, names, source)| + |ListPlaces(entity.capabilities[c].evidence, source)|
  {
    var added := Tagged(c, ListPlaces(entity.capabilities[c].evidence, source));
    TaggedSize(c, ListPlaces(entity.capabilities[c].evidence, source));
    assert PlacesAmong(entity, names + {c}, source) == PlacesAmong(entity, names, source) + added;
  }

  method CountEntity(entity: Entity, source: Id) returns (count: nat)
    ensures count == |EntityPlaces(entity, source)|
  {
    hide ListPlaces, PlacesAmong;
    count := 0;
    var rest := entity.capabilities.Keys;
    assert PlacesAmong(entity, entity.capabilities.Keys - rest, source) == {} by {
      NoPlacesAmongNone(entity, entity.capabilities.Keys - rest, source);
    }
    while rest != {}
      invariant rest <= entity.capabilities.Keys
      invariant count == |PlacesAmong(entity, entity.capabilities.Keys - rest, source)|
    {
      var c :| c in rest;
      var here := CountList(entity.capabilities[c].evidence, source);
      OneMoreCapability(entity, entity.capabilities.Keys - rest, c, source);
      assert entity.capabilities.Keys - rest + {c} == entity.capabilities.Keys - (rest - {c});
      rest := rest - {c};
      count := count + here;
    }
    assert entity.capabilities.Keys - rest == entity.capabilities.Keys;
  }

  lemma NoPlacesAmongNone(entity: Entity, names: set<Id>, source: Id)
    requires names == {}
    ensures PlacesAmong(entity, names, source) == {}
  {
  }

  /** The places in the first slots of the entity table. */
  ghost function SlotPlaces(slots: seq<Entity>, n: nat, source: Id): set<Place>
    requires n <= |slots|
  {
    set k, p | 0 <= k < n && p in EntityPlaces(slots[k], source) :: (slots[k].id, p)
  }

  lemma OneMoreSlot(keys: map<Id, nat>, slots: seq<Entity>, n: nat, source: Id)
    requires KeysOk(keys, slots) && n < |slots|
    ensures |SlotPlaces(slots, n + 1, source)| == |SlotPlaces(slots, n, source)| + |EntityPlaces(slots[n], source)|
  {
    hide EntityPlaces;
    var added := Tagged(slots[n].id, EntityPlaces(slots[n], source));
    TaggedSize(slots[n].id, EntityPlaces(slots[n], source));
    forall k | 0 <= k < n ensures slots[k].id != slots[n].id {
      assert keys[slots[k].id] == k;
    }
    assert SlotPlaces(slots, n + 1, source) == SlotPlaces(slots, n, source) + added;
  }

  lemma AllSlots(keys: map<Id, nat>, slots: seq<Entity>, source: Id)
    requires KeysOk(keys, slots)
    ensures SlotPlaces(slots, 0, source) == {}
    ensures SlotPlaces(slots, |slots|, source) == SourcePlaces(Directory(keys, slots), source)
  {
  }

  // ----- what invalidating leaves -----

  /** After a source is invalidated no record of it is current, and every other record that was
      current still is. */
  lemma InvalidatedSourceIsSilent(st: State, source: Id, reason: Id, other: Id)
    requires source != 0 && other != source
    ensures SourcePlaces(InvalidateSource(st, source, reason).0.entities, source) == {}
    ensures SourcePlaces(InvalidateSource(st, source, reason).0.entities, other) == SourcePlaces(st.entities, other)
  {
    hide EntityPlaces, MarkSource;
    forall e | e in st.entities
      ensures var after := MarkSource(st.entities[e], SourceMark(source, reason), st.registryGeneration);
              EntityPlaces(after, source) == {} && EntityPlaces(after, other) == EntityPlaces(st.entities[e], other)
    {
      MarkedEntityPlaces(st.entities[e], source, reason, other, st.registryGeneration);
    }
  }

  lemma MarkedEntityPlaces(entity: Entity, source: Id, reason: Id, other: Id, registryGeneration: nat)
    requires other != source
    ensures var after := MarkSource(entity, SourceMark(source, reason), registryGeneration);
            EntityPlaces(after, source) == {} && EntityPlaces(after, other) == EntityPlaces(entity, other)
  {
    hide MarkEntry, ListPlaces, MarkSource;
    var mark := SourceMark(source, reason);
    var after := MarkSource(entity, mark, registryGeneration);
    SameNames(entity, mark, registryGeneration);
    forall c | c in entity.capabilities
      ensures ListPlaces(after.capabilities[c].evidence, source) == {}
              && ListPlaces(after.capabilities[c].evidence, other) == ListPlaces(entity.capabilities[c].evidence, other)
    {
      MarkedPlaces(c, entity.capabilities[c], source, reason, other);
      MarkedSourceEntity(entity, mark, registryGeneration, c);
    }
  }

  lemma SameNames(entity: Entity, mark: Mark, registryGeneration: nat)
    ensures MarkSource(entity, mark, registryGeneration).capabilities.Keys == entity.capabilities.Keys
  {
  }

  lemma MarkedSourceEntity(entity: Entity, mark: Mark, registryGeneration: nat, c: Id)
    requires c in entity.capabilities
    ensures var after := MarkSource(entity, mark, registryGeneration);
            c in after.capabilities && after.capabilities[c] == MarkEntry(c, entity.capabilities[c], mark)
  {
  }

  lemma MarkedPlaces(c: Id, entry: Entry, source: Id, reason: Id, other: Id)
    requires other != source
    ensures var marked := MarkEntry(c, entry, SourceMark(source, reason)).evidence;
            ListPlaces(marked, source) == {} && ListPlaces(marked, other) == ListPlaces(entry.evidence, other)
  {
    hide Resolve;
    var mark := SourceMark(source, reason);
    var marked := MarkEntry(c, entry, mark).evidence;
    forall i | 0 <= i < |entry.evidence|
      ensures |marked| == |entry.evidence| && !CurrentFrom(source, marked[i])
              && (CurrentFrom(other, marked[i]) <==> CurrentFrom(other, entry.evidence[i]))
    {
      assert entry.evidence[i] in entry.evidence;
      assert marked[i] == MarkRecord(entry.evidence[i], mark);
    }
  }
}
