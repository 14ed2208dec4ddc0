/** What requirements are told after a publication was rejected for lack of room. */
module PartialViews {
  import opened Sequences
  import opened Values
  import opened Evidence
  import opened ResolutionRules
  import opened RegistryState
  import opened EvidenceInvariant
  import opened RegistrySteps
  import opened RegistryInvariant
  import opened Publications
  import opened ClaimOrder
  import opened Rejections
  import opened PartialSets
  import opened Requirements
  import Commutation

  ghost predicate SameView(a: Id -> Observation, b: Id -> Observation) {
    forall c :: a(c) == b(c)
  }

  // ----- requirements -----

  lemma {:induction false} AvoidsNothing(r: Requirement)
    ensures Avoids(r, [])
    decreases r, 0
  {
    if Compound(r) {
      AllAvoidNothing(r.children);
    }
  }

  lemma {:induction false} AllAvoidNothing(children: seq<Requirement>)
    ensures AllAvoid(children, [])
    decreases children, |children|
  {
    if children != [] {
      AllAvoidNothing(children[..|children| - 1]);
      AvoidsNothing(children[|children| - 1]);
    }
  }

  lemma SameViewSameAnswer(r: Requirement, a: Id -> Observation, b: Id -> Observation)
    requires SameView(a, b)
    ensures Evaluate(r, a) == Evaluate(r, b)
  {
    AvoidsNothing(r);
    AvoidingAnswersAgree(r, [], a, b);
  }

  /** A publication refused before it applied anything leaves the answer of every requirement. */
  lemma UnseenRejectionKeepsRequirements(env: Environment, st: State, request: Request, e: Id, r: Requirement)
    requires env.Valid() && StateOk(env, st) && Publish(env, st, request).1.Rejected? && RefusedUnseen(env, st, request)
    ensures Evaluate(r, ViewOf(Publish(env, st, request).0, e)) == Evaluate(r, ViewOf(st, e))
  {
    hide Publish, StateOk, RefusedUnseen, Evaluate, EntriesOk;
    var after := Publish(env, st, request).0;
    RejectionKeepsAnswersExactlyWhen(env, st, request);
    PublishKeepsState(env, st, request);
    forall c ensures ViewOf(after, e)(c) == ViewOf(st, e)(c) {
      assert Query(after, e, c) == Query(st, e, c);
      ViewIsQueried(env, st, e, c);
      ViewIsQueried(env, after, e, c);
    }
    SameViewSameAnswer(r, ViewOf(after, e), ViewOf(st, e));
  }

  function Told(resolution: Option<Resolution>): Observation {
    if resolution.None? then Observation(Unknown, false, Absent) else Shown(resolution.value)
  }

  function Shown(r: Resolution): Observation { Observation(r.state, !r.value.Absent?, r.value) }

  lemma ViewIsQueried(env: Environment, st: State, e: Id, c: Id)
    requires StateOk(env, st)
    ensures ViewOf(st, e)(c) == Told(Query(st, e, c).resolution)
  {
    hide Synced, EvidenceOk, Filter;
    if e in st.entities && c in st.entities[e].capabilities {
      assert EntityOk(ContextOf(env, st), e, st.entities[e]);
      assert EntryOk(ContextOf(env, st), st.entities[e], c, st.entities[e].capabilities[c]);
      ResolvedAt(c, st.entities[e].capabilities[c]);
    }
  }

  // ----- by the rule -----

  function Seen(entity: Entity, c: Id): Observation {
    if c in entity.capabilities then Shown(ResolutionOf(c, entity.capabilities[c]))
    else Observation(Unknown, false, Absent)
  }

  /** The rule decides this observation over the live records. */
  ghost predicate Shows(live: set<Record>, seen: Observation) {
    exists r :: Decides(live, r) && Shown(r) == seen
  }

  lemma SeenByRule(ctx: Context, entity: Entity, c: Id, seen: Observation)
    requires EntriesOk(ctx, entity)
    ensures Shows(LiveSet(EntryOf(entity, c).evidence), seen) <==> Seen(entity, c) == seen
  {
    hide Synced, Decides, Filter;
    var live := LiveSet(EntryOf(entity, c).evidence);
    if c in entity.capabilities {
      var entry := entity.capabilities[c];
      assert EntryOk(ctx, entity, c, entry);
      ResolvedAt(c, entry);
      SyncedFollowsRule(c, entry);
      OneShown(live, entry.resolution.value, seen);
    } else {
      NothingShown(live, c, seen);
    }
  }

  lemma OneShown(live: set<Record>, r: Resolution, seen: Observation)
    requires Decides(live, r)
    ensures Shows(live, seen) <==> Shown(r) == seen
  {
    hide Decides;
    if other :| Decides(live, other) && Shown(other) == seen {
      SameShown(live, r, other);
    }
  }

  lemma SameShown(live: set<Record>, a: Resolution, b: Resolution)
    requires Decides(live, a) && Decides(live, b)
    ensures Shown(a) == Shown(b)
  {
    if live != {} {
      hide Decides;
      RuleIsDeterministic(live, a, b);
    }
  }

  lemma NothingShown(live: set<Record>, c: Id, seen: Observation)
    requires live == {}
    ensures Shows(live, seen) <==> seen == Observation(Unknown, false, Absent)
  {
    assert Decides(live, Blank(c, 0, []));
    OneShown(live, Blank(c, 0, []), seen);
  }

  // ----- exactly when a view stays -----

  /** The claims a snapshot or an observation applies, in order. */
  ghost function ClaimsOf(env: Environment, grant: Grant, request: Request): seq<Claim> {
    if request.mode.FullSnapshot? then SnapshotClaims(env, grant, request)
    else Covered(request.claims, request.coverage)
  }

  /** The entity the claims are applied to. */
  ghost function BaseOf(grant: Grant, entity: Entity, request: Request): Entity {
    if request.mode.FullSnapshot? then ClearForSnapshot(entity, grant, request) else entity
  }

  ghost predicate Accepts(options: Options, key: SourceKey, base: Entity, claims: seq<Claim>, reason: Id) {
    HasRoom(options, base, Named(claims)) && NoneCrowded(options, key, base, Named(claims), reason)
  }

  /** There is room for the first k claims, and none for the next one. */
  ghost predicate RoomEndsAt(options: Options, key: SourceKey, base: Entity, claims: seq<Claim>, reason: Id, k: nat) {
    && k < |claims|
    && Accepts(options, key, base, claims[..k], reason)
    && !Accepts(options, key, base, claims[..k + 1], reason)
  }

  /** The live records of a capability that the request itself does not supersede. */
  ghost function Kept(grant: Grant, entity: Entity, request: Request, c: Id): set<Record> {
    var evidence := EntryOf(entity, c).evidence;
    if request.mode.FullSnapshot? then Survivors(grant, request, evidence) else LiveSet(evidence)
  }

  /** The live records of a capability once some claims of the request were applied: those kept, and
      the author's new one in place of its older ones if its claim is among the applied. */
  ghost function LeftLive(author: Author, grant: Grant, entity: Entity, request: Request, applied: seq<Claim>, c: Id):
    set<Record>
  {
    var kept := Kept(grant, entity, request, c);
    if exists claim :: claim in applied && claim.capability == c then
      var claim :| claim in applied && claim.capability == c;
      (set r | r in kept && r.key != author.key) + {RecordFor(author, entity, EntryOf(entity, c), claim)}
    else kept
  }

  lemma BaseKeepsHighest(grant: Grant, entity: Entity, request: Request, c: Id, key: SourceKey)
    ensures HighestGeneration(EntryOf(BaseOf(grant, entity, request), c).evidence, key) ==
            HighestGeneration(EntryOf(entity, c).evidence, key)
    ensures LiveSet(EntryOf(BaseOf(grant, entity, request), c).evidence) == Kept(grant, entity, request, c)
  {
    hide MarkEntry, LiveSet, HighestGeneration;
    if c in entity.capabilities && request.mode.FullSnapshot? {
      var others := Mark(LiveProcessBoundOfOthers(request.Instance()), Superseded, request.reason);
      var entry := entity.capabilities[c];
      var first := if grant.exclusive then MarkEntry(c, entry, others) else entry;
      ClearedLiveSet(entity, grant, request, c);
      MarkedEntryKeepsHighest(c, entry, others, key);
      MarkedEntryKeepsHighest(c, first, Mark(LiveOf(request.Key()), Superseded, request.reason), key);
    } else if c !in entity.capabilities {
      NoRecordsKept(grant, request);
    }
  }

  lemma NoRecordsKept(grant: Grant, request: Request)
    ensures Survivors(grant, request, []) == {} && LiveSet([]) == {}
  {
  }

  lemma MarkedEntryKeepsHighest(c: Id, entry: Entry, mark: Mark, key: SourceKey)
    ensures HighestGeneration(MarkEntry(c, entry, mark).evidence, key) == HighestGeneration(entry.evidence, key)
  {
    hide HighestGeneration, Resolve;
    Commutation.MarkKeepsHighest(entry.evidence, mark, key);
  }

  lemma ReachedLiveSet(limit: nat, author: Author, grant: Grant, entity: Entity, request: Request, reached: Entity,
                       applied: seq<Claim>, c: Id)
    requires author.key == request.Key() && DistinctCapabilities(applied)
    requires ClaimsTook(limit, author, BaseOf(grant, entity, request), reached, applied, request.reason)
    ensures LiveSet(EntryOf(reached, c).evidence) == LeftLive(author, grant, entity, request, applied, c)
  {
    hide ClaimedEntry, HighestGeneration, LiveSet, ClearForSnapshot, Survivors;
    var base := BaseOf(grant, entity, request);
    BaseKeepsHighest(grant, entity, request, c, author.key);
    if exists claim :: claim in applied && claim.capability == c {
      var claim :| claim in applied && claim.capability == c;
      assert ClaimTook(limit, author, base, reached, claim, request.reason);
      ClaimedLiveSet(limit, author, base, EntryOf(base, c), claim, request.reason);
      BaseKeepsHeader(grant, entity, request);
    } else {
      assert Untouched(base, reached, c);
    }
  }

  lemma BaseKeepsHeader(grant: Grant, entity: Entity, request: Request)
    ensures SameHeader(entity, BaseOf(grant, entity, request))
  {
  }

  lemma BaseAndClaimsAreOk(env: Environment, ctx: Context, grant: Grant, entity: Entity, request: Request)
    requires EntriesOk(ctx, entity) && RequestOk(request)
    ensures EntriesOk(ctx, BaseOf(grant, entity, request))
    ensures forall claim :: claim in ClaimsOf(env, grant, request) ==> ClaimOk(claim)
  {
    hide EntriesOk, ClearForSnapshot;
    CoveredClaimsAreOk(request.claims, request.coverage);
    if request.mode.FullSnapshot? {
      ClearKeepsEntries(ctx, entity, grant, request);
      AbsenceClaimsAreOk(env, grant, request);
    }
  }

  lemma RequestIsOneList(env: Environment, epoch: nat, grant: Grant, entity: Entity, request: Request)
    requires !request.mode.Incremental?
    ensures ApplyRequest(env, epoch, grant, entity, request) ==
            ApplyClaims(env.options, AuthorOf(epoch, request), BaseOf(grant, entity, request),
                        ClaimsOf(env, grant, request),
                        request.reason)
  {
    hide ApplyClaims, ClearForSnapshot;
    if request.mode.FullSnapshot? {
      SnapshotIsOneList(env, epoch, grant, entity, request);
    }
  }

  lemma ClaimsOfAreDistinct(env: Environment, grant: Grant, request: Request)
    requires env.Valid() && DistinctCapabilities(request.claims)
    ensures DistinctCapabilities(ClaimsOf(env, grant, request))
  {
    if request.mode.FullSnapshot? {
      SnapshotClaimsAreDistinct(env, grant, request);
    }
  }

  /** Where the room ends is where the claims stop. */
  lemma ClaimsStopWhereRoomEnds(options: Options, author: Author, base: Entity, claims: seq<Claim>, reason: Id)
    returns (k: nat)
    requires options.maxEvidence >= 1 && DistinctCapabilities(claims)
    requires ApplyClaims(options, author, base, claims, reason).error.Some?
    ensures RoomEndsAt(options, author.key, base, claims, reason, k)
    ensures ApplyClaims(options, author, base, claims[..k], reason).error == None
    ensures Unmoved(ApplyClaims(options, author, base, claims[..k], reason).entity,
                    ApplyClaims(options, author, base, claims, reason).entity)
  {
    hide ApplyClaims, HasRoom, NoneCrowded, Named, Unmoved;
    k := ClaimsStop(options, author, base, claims, reason);
    ClaimsAreAcceptedExactly(options, author, base, claims[..k], reason);
    ClaimsAreAcceptedExactly(options, author, base, claims[..k + 1], reason);
  }

  /** A snapshot or an observation that is rejected for lack of room leaves what requirements are told
      about its entity as it was exactly when, for every capability, the rule decides over the live
      records that the claims before the refused one leave what it decided before. */
  lemma RejectionKeepsViewExactlyWhen(env: Environment, st: State, request: Request) returns (k: nat)
    requires env.Valid() && StateOk(env, st) && !request.mode.Incremental?
    requires ReachesStep10(env, st, request) && Publish(env, st, request).1.Rejected?
    ensures var grant, start := st.authorities[request.scope], StartOf(env, st, request);
            RoomEndsAt(env.options, request.Key(), BaseOf(grant, start, request), ClaimsOf(env, grant, request),
                       request.reason, k)
    ensures var grant, start := st.authorities[request.scope], StartOf(env, st, request);
            var applied := ClaimsOf(env, grant, request)[..k];
            var before := ViewOf(Locate(env, st, request).0, request.entity);
            SameView(ViewOf(Publish(env, st, request).0, request.entity), before) <==>
            forall c :: Shows(LeftLive(AuthorOf(st.epoch, request), grant, start, request, applied, c), before(c))
  {
    hide Publish, Admit, EntriesOk, StateOk, Shows, LeftLive, ClaimsOf, BaseOf, Unmoved, CheckGenerations, Remembers,
      ClaimsTook, Accepts, Locate;
    var grant, start, author := st.authorities[request.scope], StartOf(env, st, request), AuthorOf(st.epoch, request);
    var reached: Entity;
    k, reached := RejectionReaches(env, st, request);
    var applied := ClaimsOf(env, grant, request)[..k];
    var before := ViewOf(Locate(env, st, request).0, request.entity);
    var after := ViewOf(Publish(env, st, request).0, request.entity);
    forall c
      ensures after(c) == before(c) <==> Shows(LeftLive(author, grant, start, request, applied, c), before(c))
    {
      UnmovedSeenAlike(reached, Publish(env, st, request).0.entities[request.entity], c);
      ReachedShows(ContextOf(env, st), env.options.maxEvidence, author, grant, start, request, reached, applied, c,
                   before(c));
    }
  }

  /** How far a rejected list of claims got, and what it left. */
  lemma RejectionReaches(env: Environment, st: State, request: Request) returns (k: nat, reached: Entity)
    requires env.Valid() && StateOk(env, st) && !request.mode.Incremental?
    requires ReachesStep10(env, st, request) && Publish(env, st, request).1.Rejected?
    ensures request.entity in Publish(env, st, request).0.entities
    ensures EntriesOk(ContextOf(env, st), reached)
    ensures Unmoved(reached, Publish(env, st, request).0.entities[request.entity])
    ensures var grant, start := st.authorities[request.scope], StartOf(env, st, request);
            var base, claims := BaseOf(grant, start, request), ClaimsOf(env, grant, request);
            && RoomEndsAt(env.options, request.Key(), base, claims, request.reason, k)
            && DistinctCapabilities(claims[..k])
            && ClaimsTook(env.options.maxEvidence, AuthorOf(st.epoch, request), base, reached, claims[..k],
                          request.reason)
  {
    hide Publish, Admit, ApplyRequest, ApplyClaims, EntriesOk, StateOk, ClaimsOf, BaseOf, Unmoved, CheckGenerations,
      Remembers, ClaimsTook;
    var grant, start, author := st.authorities[request.scope], StartOf(env, st, request), AuthorOf(st.epoch, request);
    var base, claims := BaseOf(grant, start, request), ClaimsOf(env, grant, request);
    WholeIsRefused(env, st, request);
    AdmittedRequestIsOk(env, st, request);
    LocatedIsOk(env, st, request);
    RequestIsOneList(env, st.epoch, grant, start, request);
    ClaimsOfAreDistinct(env, grant, request);
    k := ClaimsStopWhereRoomEnds(env.options, author, base, claims, request.reason);
    reached := ApplyClaims(env.options, author, base, claims[..k], request.reason).entity;
    ApplyClaimsEffect(env.options, author, base, claims[..k], request.reason);
    BaseAndClaimsAreOk(env, ContextOf(env, st), grant, start, request);
    ApplyClaimsKeepsEntries(ContextOf(env, st), env.options, author, base, claims[..k], request.reason);
  }

  lemma ReachedShows(ctx: Context, limit: nat, author: Author, grant: Grant, entity: Entity, request: Request,
                     reached: Entity, applied: seq<Claim>, c: Id, seen: Observation)
    requires author.key == request.Key() && DistinctCapabilities(applied) && EntriesOk(ctx, reached)
    requires ClaimsTook(limit, author, BaseOf(grant, entity, request), reached, applied, request.reason)
    ensures Shows(LeftLive(author, grant, entity, request, applied, c), seen) <==> Seen(reached, c) == seen
  {
    hide ClaimsTook, EntriesOk, Shows, LeftLive, BaseOf;
    ReachedLiveSet(limit, author, grant, entity, request, reached, applied, c);
    SeenByRule(ctx, reached, c, seen);
  }

  lemma UnmovedSeenAlike(a: Entity, b: Entity, c: Id)
    requires Unmoved(a, b)
    ensures Seen(a, c) == Seen(b, c)
  {
  }

  lemma LocatedIsOk(env: Environment, st: State, request: Request)
    requires StateOk(env, st) && Admit(env, st, request) == None && Locate(env, st, request).1 == None
    ensures EntriesOk(ContextOf(env, st), StartOf(env, st, request))
  {
    hide Admit, EntriesOk;
    AdmittedRequestIsOk(env, st, request);
    LocateKeepsState(env, st, request);
    assert EntityOk(ContextOf(env, st), request.entity, StartOf(env, st, request));
  }

  /** Requirements are told after a rejection what they would be told had only the part before the
      refused claim or edit been submitted, and committed. */
  lemma RejectedRequirementsLikeCommitted(env: Environment, st: State, request: Request, r: Requirement)
    returns (k: nat)
    requires env.Valid() && !request.mode.FullSnapshot?
    requires ReachesStep10(env, st, request) && Publish(env, st, request).1.Rejected?
    ensures StopsAt(env, st.epoch, st.authorities[request.scope], StartOf(env, st, request), request, k)
    ensures k > 0 ==> Publish(env, st, Part(request, k)).1.Committed?
    ensures var part := if k > 0 then Publish(env, st, Part(request, k)).0 else Locate(env, st, request).0;
            && SameView(ViewOf(Publish(env, st, request).0, request.entity), ViewOf(part, request.entity))
            && Evaluate(r, ViewOf(Publish(env, st, request).0, request.entity)) ==
                Evaluate(r, ViewOf(part, request.entity))
  {
    hide Publish, Admit, ApplyRequest, Unmoved, Evaluate, Remembers, CheckGenerations;
    k := RejectedAnswersLikeCommitted(env, st, request);
    var part := if k > 0 then Publish(env, st, Part(request, k)).0 else Locate(env, st, request).0;
    var after := Publish(env, st, request).0;
    forall c ensures ViewOf(after, request.entity)(c) == ViewOf(part, request.entity)(c) {
      UnmovedSeenAlike(part.entities[request.entity], after.entities[request.entity], c);
    }
    SameViewSameAnswer(r, ViewOf(after, request.entity), ViewOf(part, request.entity));
  }

  // ----- a partial set -----

  const YES: Claim := Claim(1, Supported, Absent, 0, HardwareEnumeration, ProcessBound, Partial, 0, 0, 0)

  /** An entity that serves an empty set. */
  const SERVED: Entity := Entity(1, 1, 1, true, 1, false, 0, map[], map[], Some(EntitySet(1, 1, 0, false, 0, [])))

  /** A registry with room for one capability of an entity. */
  const NARROW: Environment :=
    Environment(Options(8, 1, 8, 8, 8, 8, 8),
                [Descriptor(1, true, false, v => true), Descriptor(2, true, false, v => true)], x => 1, x => 1)

  const SERVING: State :=
    State(1, 0, map[1 := Grant(1, [1], [1], {PartialObservation}, false, false, 0, [], 8)],
          map[PublisherKey(1, 1) := Runtime(1, 1, true, [])], {}, [], map[1 := SERVED])

  /** An observation of two capabilities. */
  const CROWDING: Request :=
    Request(PartialObservation, 1, 1, 1, 1, 1, 1, 1, 1, 1, 1, 1, [YES, YES.(capability := 2)], [], Partial, 0)

  const SEEN: Record := Record(SourceKey(1, 1), 1, 1, 1, 1, 1, 1, 1, 1, 1, YES, Current)

  function Halfway(): Entity { SERVED.(capabilities := map[1 := Entry(1, [SEEN], Some(Resolve(1, 1, [SEEN])))]) }

  lemma OneFiltered<T>(p: T -> bool, x: T)
    ensures Filter(p, [x]) == if p(x) then [x] else []
  {
    FilterStep(p, [], x);
    assert [] + [x] == [x];
  }

  lemma OneRecordResolves(c: Id, generation: nat, r: Record)
    requires IsCurrent(r)
    ensures Resolve(c, generation, [r]).state == r.claim.state && Resolve(c, generation, [r]).value == r.claim.value
  {
    hide Filter;
    OneFiltered(IsCurrent, r);
    OneFiltered(IsDormant, r);
    assert Pool([r]) == [r];
    OneFiltered(HasRank(StrongestRank([r])), r);
    assert SameClaim(r, r);
  }

  lemma FirstClaimIsTaken()
    ensures ApplyClaim(NARROW.options, AuthorOf(1, CROWDING), SERVED, YES, 0) == Applied(Halfway(), None)
  {
    hide Resolve;
    var author := AuthorOf(1, CROWDING);
    assert MarkRecords([], Mark(LiveOf(author.key), Superseded, 0)) == [];
    assert Displaced([], author.key, 0, 8) == [];
    assert RecordFor(author, SERVED, Entry(0, [], None), YES) == SEEN;
    assert [] + [SEEN] == [SEEN];
  }

  lemma FirstClaimTakesTheRoom()
    ensures ApplyRequest(NARROW, 1, SERVING.authorities[1], SERVED, CROWDING) ==
            Applied(Halfway(), Some(ClaimCountExceeded))
  {
    hide Resolve, ClaimedEntry, Crowded;
    var covered := Covered(CROWDING.claims, Partial);
    assert covered == [YES, YES.(capability := 2)] && covered[1..] == [YES.(capability := 2)];
    FirstClaimIsTaken();
    var author, second := AuthorOf(1, CROWDING), YES.(capability := 2);
    assert Halfway().capabilities.Keys == {1};
    assert |Halfway().capabilities| == |Halfway().capabilities.Keys|;
    assert ApplyClaim(NARROW.options, author, Halfway(), second, 0) == Applied(Halfway(), Some(ClaimCountExceeded));
    assert ApplyClaims(NARROW.options, author, Halfway(), [second], 0) == Applied(Halfway(), Some(ClaimCountExceeded));
  }

  lemma CrowdingClaimsAreValid()
    ensures CheckClaims(NARROW, SERVING.authorities[1], CROWDING.claims, {}) == None
  {
    var grant, second := SERVING.authorities[1], YES.(capability := 2);
    assert CROWDING.claims[1..] == [second] && [second][1..] == [];
    assert FindDescriptor(NARROW.descriptors, 1).Some? && FindDescriptor(NARROW.descriptors, 1).value.boolean;
    assert NARROW.descriptors[1..][0].id == 2;
    assert FindDescriptor(NARROW.descriptors, 2) == Some(NARROW.descriptors[1]);
    assert CheckClaim(NARROW, grant, YES, {}) == None && CheckClaim(NARROW, grant, second, {1}) == None;
    assert CheckClaims(NARROW, grant, [second], {1}) == None;
    assert {} + {YES.capability} == {1};
  }

  lemma CrowdingIsAdmitted()
    ensures Admit(NARROW, SERVING, CROWDING) == None
  {
    hide CheckClaims;
    CrowdingClaimsAreValid();
    assert CheckShape(CROWDING) == None && CheckInstance(SERVING, CROWDING) == None;
  }

  lemma CrowdingIsRefused()
    ensures Publish(NARROW, SERVING, CROWDING) ==
            (PutEntity(SERVING, 1, Halfway()), Rejected(ClaimCountExceeded))
  {
    hide ApplyRequest, ContentOf, Admit;
    CrowdingIsAdmitted();
    FirstClaimTakesTheRoom();
  }

  lemma HalfwayServesOne()
    ensures |Materialize(Halfway(), 0).resolutions| == 1
  {
    hide Resolve, ResolutionOf;
    assert Halfway().capabilities.Keys == {1};
    assert |Ascending({1})| == |{1}| == 1;
  }

  lemma NextFenceOfHalfway()
    ensures var fenced := FenceWorkerBoot(NARROW, PutEntity(SERVING, 1, Halfway()), 9, 0, 0).0;
            1 in fenced.entities && fenced.entities[1] == Refresh(Halfway(), 0)
  {
    hide Resolve, MarkAll, Refresh;
    assert Quiet(Halfway(), BootMark(9, 0).selector);
    FenceRefreshes(NARROW, PutEntity(SERVING, 1, Halfway()), 9, 0, 0, 1);
  }

  lemma ServingIsOk()
    ensures NARROW.Valid() && StateOk(NARROW, SERVING)
  {
  }

  /** The promise fails: the observation is rejected and changes neither the served set nor the registry
      generation, yet its first claim is answered as supported at once, and fencing an unrelated boot
      serves it in the set, under the set generation there was. */
  lemma RejectionLeavesPartialSet()
    ensures NARROW.Valid() && StateOk(NARROW, SERVING)
    ensures var (after, outcome) := Publish(NARROW, SERVING, CROWDING);
            && outcome == Rejected(ClaimCountExceeded) && after.registryGeneration == SERVING.registryGeneration
            && 1 in after.entities && after.entities[1].published == SERVED.published
            && ViewOf(SERVING, 1)(1) == Observation(Unknown, false, Absent)
            && ViewOf(after, 1)(1) == Observation(Supported, false, Absent)
            && var fenced := FenceWorkerBoot(NARROW, after, 9, 0, 0).0;
               && 1 in fenced.entities && fenced.entities[1].setGeneration == SERVED.setGeneration
               && fenced.entities[1].published == Some(Materialize(Halfway(), SERVING.registryGeneration))
               && |fenced.entities[1].published.value.resolutions| == 1
  {
    hide Resolve, Admit, Publish, FenceWorkerBoot, Materialize;
    CrowdingIsRefused();
    OneRecordResolves(1, 1, SEEN);
    NextFenceOfHalfway();
    HalfwayServesOne();
  }
}
