/** The reverse index (capability and state to entity keys) and the revalidation
    set: sorted buckets, and what completeness and exactness of the index mean. */
module RegistryIndex {
  import opened Sequences
  import opened Evidence
  import opened RegistryState

  // ----- sorted buckets -----

  ghost predicate StrictlySorted(s: seq<nat>) {
    forall i, j :: 0 <= i < j < |s| ==> s[i] < s[j]
  }

  /** The first position whose element is not below value. */
  method LowerBound(values: seq<nat>, value: nat) returns (position: nat)
    requires StrictlySorted(values)
    ensures position <= |values|
    ensures forall i :: 0 <= i < position ==> values[i] < value
    ensures forall i :: position <= i < |values| ==> value <= values[i]
  {
    var high := |values|;
    position := 0;
    while position < high
      invariant position <= high <= |values|
      invariant forall i :: 0 <= i < position ==> values[i] < value
      invariant forall i :: high <= i < |values| ==> value <= values[i]
    {
      var middle := (position + high) / 2;
      if values[middle] < value {
        position := middle + 1;
      } else {
        high := middle;
      }
    }
  }

  method InsertSorted(values: seq<nat>, value: nat) returns (result: seq<nat>)
    requires StrictlySorted(values)
    ensures StrictlySorted(result)
    ensures forall x :: x in result <==> x in values || x == value
  {
    var position := LowerBound(values, value);
    if position < |values| && values[position] == value {
      return values;
    }
    result := values[..position] + [value] + values[position..];
    assert values == values[..position] + values[position..];
  }

  method EraseSorted(values: seq<nat>, value: nat) returns (result: seq<nat>)
    requires StrictlySorted(values)
    ensures StrictlySorted(result)
    ensures forall x :: x in result <==> x in values && x != value
  {
    var position := LowerBound(values, value);
    if position == |values| || values[position] != value {
      return values;
    }
    result := values[..position] + values[position + 1..];
    assert values == values[..position] + [value] + values[position + 1..];
  }

  // ----- entity slots and their keys -----

  /** Every identifier has the slot its key names, and every slot its identifier. */
  ghost predicate KeysOk(keys: map<Id, nat>, slots: seq<Entity>) {
    && |keys| == |slots|
    && (forall id :: id in keys ==> keys[id] < |slots| && slots[keys[id]].id == id)
    && forall i :: 0 <= i < |slots| ==> slots[i].id in keys && keys[slots[i].id] == i
  }

  ghost function Directory(keys: map<Id, nat>, slots: seq<Entity>): map<Id, Entity>
    requires KeysOk(keys, slots)
  {
    map id | id in keys :: slots[keys[id]]
  }

  lemma DirectorySize(keys: map<Id, nat>, slots: seq<Entity>)
    requires KeysOk(keys, slots)
    ensures |Directory(keys, slots)| == |slots|
  {
    assert Directory(keys, slots).Keys == keys.Keys;
  }

  lemma ReplacedSlot(keys: map<Id, nat>, slots: seq<Entity>, i: nat, entity: Entity)
    requires KeysOk(keys, slots) && i < |slots| && entity.id == slots[i].id
    ensures KeysOk(keys, slots[i := entity])
    ensures Directory(keys, slots[i := entity]) == Directory(keys, slots)[entity.id := entity]
  {
  }

  lemma AddedSlot(keys: map<Id, nat>, slots: seq<Entity>, entity: Entity)
    requires KeysOk(keys, slots) && entity.id !in keys
    ensures KeysOk(keys[entity.id := |slots|], slots + [entity])
    ensures Directory(keys[entity.id := |slots|], slots + [entity]) == Directory(keys, slots)[entity.id := entity]
  {
  }

  // ----- the index -----

  type Buckets = map<(Id, CapabilityState), seq<nat>>

  function Bucket(reverse: Buckets, c: Id, s: CapabilityState): seq<nat> {
    if (c, s) in reverse then reverse[(c, s)] else []
  }

  /** The entry of capability c in slot i is resolved in state s. */
  ghost predicate Resolved(slots: seq<Entity>, i: nat, c: Id, s: CapabilityState) {
    && i < |slots| && c in slots[i].capabilities
    && slots[i].capabilities[c].resolution.Some? && slots[i].capabilities[c].resolution.value.state == s
  }

  ghost predicate Waits(slots: seq<Entity>, i: nat, c: Id) {
    Resolved(slots, i, c, RevalidationRequired)
  }

  ghost predicate BucketsSorted(reverse: Buckets) {
    forall k :: k in reverse ==> StrictlySorted(reverse[k])
  }

  ghost predicate BucketsComplete(reverse: Buckets, slots: seq<Entity>) {
    forall i, c, s :: Resolved(slots, i, c, s) ==> i in Bucket(reverse, c, s)
  }

  ghost predicate BucketsExact(reverse: Buckets, slots: seq<Entity>) {
    forall i, c, s :: i in Bucket(reverse, c, s) ==> Resolved(slots, i, c, s)
  }

  ghost predicate RevalidationComplete(revalidation: set<(Id, Id)>, slots: seq<Entity>) {
    forall i: nat, c: Id :: Waits(slots, i, c) ==> (slots[i].id, c) in revalidation
  }

  ghost predicate AwaitsRevalidation(slots: seq<Entity>, p: (Id, Id)) {
    exists i :: 0 <= i < |slots| && slots[i].id == p.0 && Waits(slots, i, p.1)
  }

  ghost predicate RevalidationExact(revalidation: set<(Id, Id)>, slots: seq<Entity>) {
    forall p :: p in revalidation ==> AwaitsRevalidation(slots, p)
  }

  /** What holds in every run: nothing is missing. */
  ghost predicate IndexComplete(reverse: Buckets, revalidation: set<(Id, Id)>, slots: seq<Entity>) {
    BucketsSorted(reverse) && BucketsComplete(reverse, slots) && RevalidationComplete(revalidation, slots)
  }

  /** What holds while no generation has been retired: nothing is left over either. */
  ghost predicate IndexExact(reverse: Buckets, revalidation: set<(Id, Id)>, slots: seq<Entity>) {
    BucketsExact(reverse, slots) && RevalidationExact(revalidation, slots)
  }

  ghost predicate SlotsDistinct(slots: seq<Entity>) {
    forall i, j :: 0 <= i < |slots| && 0 <= j < |slots| && slots[i].id == slots[j].id ==> i == j
  }

  lemma KeysMakeSlotsDistinct(keys: map<Id, nat>, slots: seq<Entity>)
    requires KeysOk(keys, slots)
    ensures SlotsDistinct(slots)
  {
  }

  lemma SameResolvedKeepsIndex(reverse: Buckets, revalidation: set<(Id, Id)>, slots: seq<Entity>, after: seq<Entity>)
    requires |slots| <= |after| && forall k :: 0 <= k < |slots| ==> after[k].id == slots[k].id
    requires forall k, c, s :: Resolved(after, k, c, s) <==> Resolved(slots, k, c, s)
    ensures IndexComplete(reverse, revalidation, slots) ==> IndexComplete(reverse, revalidation, after)
    ensures IndexExact(reverse, revalidation, slots) ==> IndexExact(reverse, revalidation, after)
  {
  }

  /** A slot whose cached states and identifier did not change leaves the index right. */
  lemma SameStatesKeepIndex(reverse: Buckets, revalidation: set<(Id, Id)>, slots: seq<Entity>, i: nat, entity: Entity)
    requires i < |slots| && entity.id == slots[i].id
    requires forall c, s :: Resolved(slots[i := entity], i, c, s) <==> Resolved(slots, i, c, s)
    ensures IndexComplete(reverse, revalidation, slots) ==> IndexComplete(reverse, revalidation, slots[i := entity])
    ensures IndexExact(reverse, revalidation, slots) ==> IndexExact(reverse, revalidation, slots[i := entity])
  {
    forall k, c, s ensures Resolved(slots[i := entity], k, c, s) <==> Resolved(slots, k, c, s) {
    }
    SameResolvedKeepsIndex(reverse, revalidation, slots, slots[i := entity]);
  }

  lemma NewSlotKeepsIndex(reverse: Buckets, revalidation: set<(Id, Id)>, slots: seq<Entity>, entity: Entity)
    requires forall c :: c in entity.capabilities ==> entity.capabilities[c].resolution.None?
    ensures IndexComplete(reverse, revalidation, slots) ==> IndexComplete(reverse, revalidation, slots + [entity])
    ensures IndexExact(reverse, revalidation, slots) ==> IndexExact(reverse, revalidation, slots + [entity])
  {
    forall k, c, s ensures Resolved(slots + [entity], k, c, s) <==> Resolved(slots, k, c, s) {
    }
    SameResolvedKeepsIndex(reverse, revalidation, slots, slots + [entity]);
  }

  /** Retiring a generation never touches the index: completeness survives, and exactness
      survives just when the retired entity had no resolved capability. */
  lemma RetirementAndIndex(reverse: Buckets, revalidation: set<(Id, Id)>, slots: seq<Entity>, i: nat, generation: nat)
    requires IndexComplete(reverse, revalidation, slots) && i < |slots|
    ensures IndexComplete(reverse, revalidation, slots[i := RetireGeneration(slots[i], generation)])
    ensures IndexExact(reverse, revalidation, slots) ==>
              (IndexExact(reverse, revalidation, slots[i := RetireGeneration(slots[i], generation)]) <==>
               forall c, s :: !Resolved(slots, i, c, s))
  {
    var after := slots[i := RetireGeneration(slots[i], generation)];
    forall k, c, s ensures Resolved(after, k, c, s) <==> k != i && Resolved(slots, k, c, s) {
    }
    forall k: nat, c: Id | Waits(after, k, c) ensures (after[k].id, c) in revalidation {
      assert Waits(slots, k, c);
    }
    if c: Id, s :| Resolved(slots, i, c, s) {
      assert i in Bucket(reverse, c, s) && !Resolved(after, i, c, s);
    } else {
      SameStatesKeepIndex(reverse, revalidation, slots, i, RetireGeneration(slots[i], generation));
    }
  }

  /** Entity key i moved from the bucket of its previous state to the one of its new state. */
  ghost predicate Refiled(before: Buckets, after: Buckets, i: nat, c: Id, previous: Option<CapabilityState>,
                          state: CapabilityState) {
    forall d, s, k :: k in Bucket(after, d, s) <==>
      if d == c && s == state then k in Bucket(before, d, s) || k == i
      else if d == c && previous == Some(s) then k in Bucket(before, d, s) && k != i
      else k in Bucket(before, d, s)
  }

  ghost function Requeued(before: set<(Id, Id)>, id: Id, c: Id, previous: Option<CapabilityState>,
                          state: CapabilityState): set<(Id, Id)> {
    if previous == Some(RevalidationRequired) && !state.RevalidationRequired? then before - {(id, c)}
    else if previous != Some(RevalidationRequired) && state.RevalidationRequired? then before + {(id, c)}
    else before
  }

  /** The state under which capability c of an entity is filed, if it is. */
  function FiledState(entity: Entity, c: Id): Option<CapabilityState> {
    if c in entity.capabilities && entity.capabilities[c].resolution.Some? then
      Some(entity.capabilities[c].resolution.value.state)
    else None
  }

  lemma MovedBetweenBuckets(before: Buckets, after: Buckets, slots: seq<Entity>, i: nat, c: Id, entry: Entry,
                            previous: Option<CapabilityState>)
    requires i < |slots| && entry.resolution.Some? && BucketsComplete(before, slots)
    requires previous.None? <==> forall s :: !Resolved(slots, i, c, s)
    requires previous.Some? ==> Resolved(slots, i, c, previous.value)
    requires Refiled(before, after, i, c, previous, entry.resolution.value.state)
    ensures BucketsComplete(after, slots[i := PutEntry(slots[i], c, entry)])
    ensures BucketsExact(before, slots) ==> BucketsExact(after, slots[i := PutEntry(slots[i], c, entry)])
  {
  }

  lemma MovedInRevalidation(before: set<(Id, Id)>, slots: seq<Entity>, i: nat, c: Id, entry: Entry,
                            previous: Option<CapabilityState>)
    requires i < |slots| && entry.resolution.Some? && SlotsDistinct(slots) && RevalidationComplete(before, slots)
    requires previous.None? <==> forall s :: !Resolved(slots, i, c, s)
    requires previous.Some? ==> Resolved(slots, i, c, previous.value)
    ensures var after := Requeued(before, slots[i].id, c, previous, entry.resolution.value.state);
            && RevalidationComplete(after, slots[i := PutEntry(slots[i], c, entry)])
            && (RevalidationExact(before, slots) ==> RevalidationExact(after, slots[i := PutEntry(slots[i], c, entry)]))
  {
    var was := previous == Some(RevalidationRequired);
    var now := entry.resolution.value.state.RevalidationRequired?;
    var after := Requeued(before, slots[i].id, c, previous, entry.resolution.value.state);
    var next := slots[i := PutEntry(slots[i], c, entry)];
    var state := entry.resolution.value.state;
    forall k, d, s ensures Resolved(next, k, d, s) <==>
        if k == i && d == c then s == state else Resolved(slots, k, d, s)
    {
    }
    forall k: nat, d: Id | Waits(next, k, d) ensures (next[k].id, d) in after {
      if k != i || d != c {
        assert Waits(slots, k, d);
      } else if was {
        assert Waits(slots, i, c);
      }
    }
    if RevalidationExact(before, slots) {
      forall p | p in after ensures AwaitsRevalidation(next, p) {
        if p == (slots[i].id, c) {
          if p in before {
            var k :| 0 <= k < |slots| && slots[k].id == p.0 && Waits(slots, k, p.1);
            assert k == i;
          }
          assert now;
          assert Waits(next, i, c);
        } else {
          var k :| 0 <= k < |slots| && slots[k].id == p.0 && Waits(slots, k, p.1);
          assert Waits(next, k, p.1);
        }
      }
    }
  }

  /** Storing a resolved entry and refiling it keeps the index complete, and exact if it was. */
  lemma StoredEntryKeepsIndex(before: Buckets, after: Buckets, waiting: set<(Id, Id)>, slots: seq<Entity>, i: nat,
                              c: Id,
                              entry: Entry)
    requires i < |slots| && entry.resolution.Some? && SlotsDistinct(slots)
    requires IndexComplete(before, waiting, slots) && BucketsSorted(after)
    requires Refiled(before, after, i, c, FiledState(slots[i], c), entry.resolution.value.state)
    ensures var queued := Requeued(waiting, slots[i].id, c, FiledState(slots[i], c), entry.resolution.value.state);
            && IndexComplete(after, queued, slots[i := PutEntry(slots[i], c, entry)])
            && (IndexExact(before, waiting, slots) ==>
                  IndexExact(after, queued, slots[i := PutEntry(slots[i], c, entry)]))
  {
    var previous := FiledState(slots[i], c);
    if previous.Some? {
      assert Resolved(slots, i, c, previous.value);
    }
    hide Refiled, Resolved, Requeued;
    MovedBetweenBuckets(before, after, slots, i, c, entry, previous);
    MovedInRevalidation(waiting, slots, i, c, entry, previous);
  }
}
