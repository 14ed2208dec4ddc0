/** Two observations of one entity by different sources: when the later one commits too, and that
    then neither order nor timing shows in what readers get. */
module ArrivalOrder {
  import opened Sequences
  import opened Evidence
  import opened RegistryState
  import opened RegistrySteps
  import opened RegistryInvariant
  import opened Publications
  import opened ClaimOrder
  import opened Commutation

  /** What a committed publication leaves of everything but its entity's capabilities. */
  lemma CommittedSurroundings(env: Environment, st: State, request: Request)
    requires Publish(env, st, request).1.Committed?
    ensures Admit(env, st, request) == None && Locate(env, st, request).1 == None
    ensures var (after, outcome) := Publish(env, st, request);
            && after.epoch == st.epoch && after.fencedBoots == st.fencedBoots && after.authorities == st.authorities
            && request.entity in after.entities && after.entities[request.entity].hasSet
            && after.entities[request.entity].setGeneration == outcome.next
            && after.entities[request.entity].highWater ==
               RaiseFloor(StartOf(env, st, request).highWater, request.Key(), request.sourceGeneration)
            && after.publishers ==
               st.publishers[request.Instance() := st.publishers[request.Instance()].(
                 replay := PushReplay(env, st.publishers[request.Instance()].replay,
                   ReplayRecord(request.attempt, request.publication,
                                ContentOf(request, st.authorities[request.scope]))))]
    ensures CheckGenerations(StartOf(env, st, request), request) == None
    ensures !Remembers(st.publishers[request.Instance()].replay, request.attempt)
  {
    hide Admit, ApplyRequest, ContentOf, SortedResolutions, Views;
    var start := StartOf(env, st, request);
    ApplyRequestKeepsHeader(env, st.epoch, st.authorities[request.scope], start, request);
    NewAttempt(st.publishers[request.Instance()].replay, request.attempt,
               ContentOf(request, st.authorities[request.scope]));
  }

  lemma NewAttempt(replay: seq<ReplayRecord>, attempt: Id, content: Content)
    ensures ClassifyReplay(replay, attempt, content) == None <==> !Remembers(replay, attempt)
  {
  }

  lemma AdmissionSurvives(env: Environment, st: State, after: State, q: Request, instance: PublisherKey,
                          replay: seq<ReplayRecord>, later: nat)
    requires Admit(env, st, q) == None && instance in st.publishers
    requires after.epoch == st.epoch && after.fencedBoots == st.fencedBoots && after.authorities == st.authorities
    requires after.publishers == st.publishers[instance := st.publishers[instance].(replay := replay)]
    ensures Admit(env, after, q.(expected := later)) == None
  {
    hide CheckContents;
    assert CheckContents(env, st.authorities[q.scope], q) ==
           CheckContents(env, st.authorities[q.scope], q.(expected := later)) by {
      ContentsIgnoreExpected(env, st.authorities[q.scope], q, later);
    }
  }

  lemma ContentsIgnoreExpected(env: Environment, grant: Grant, q: Request, later: nat)
    ensures CheckContents(env, grant, q) == CheckContents(env, grant, q.(expected := later))
  {
  }

  lemma PushedRemembers(env: Environment, replay: seq<ReplayRecord>, record: ReplayRecord, attempt: Id)
    requires !Remembers(replay, attempt)
    ensures Remembers(PushReplay(env, replay, record), attempt) <==> record.attempt == attempt
  {
  }

  lemma NamedCovered(claims: seq<Claim>, coverage: Coverage)
    ensures Named(Covered(claims, coverage)) == Named(claims)
    ensures DistinctCapabilities(claims) ==> DistinctCapabilities(Covered(claims, coverage))
  {
    NamedPointwise(Covered(claims, coverage), claims);
  }

  /** The later of two publications to one entity commits exactly when it expects the set generation
      the first one reached, is another attempt, and finds room. */
  lemma LaterObservationCommitsExactly(env: Environment, st: State, p: Request, q: Request, later: nat)
    requires env.Valid() && StateOk(env, st) && q.mode.PartialObservation? && p.Key() != q.Key()
    requires p.entity == q.entity && p.entityGeneration == q.entityGeneration
    requires Publish(env, st, p).1.Committed? && Publish(env, st, q).1.Committed?
    ensures q.entity in Publish(env, st, p).0.entities
    ensures var (viaP, outcome) := Publish(env, st, p);
            var entity := viaP.entities[q.entity];
            Publish(env, viaP, q.(expected := later)).1.Committed? <==>
            && later == outcome.next
            && (p.Instance() == q.Instance() ==> p.attempt != q.attempt)
            && HasRoom(env.options, entity, Named(q.claims))
            && NoneCrowded(env.options, q.Key(), entity, Named(q.claims), q.reason)
  {
    hide Publish, Admit, HasRoom, NoneCrowded, StateOk, PushReplay, RaiseFloor, ClassifyReplay, PublishLocated,
      Remembers;
    var viaP, q2 := Publish(env, st, p).0, q.(expected := later);
    CommittedSurroundings(env, st, p);
    var entity := viaP.entities[q.entity];
    CommittedSurroundings(env, st, q);
    CommittedHeader(env, st, p);
    AdmittedRequestIsOk(env, st, q);
    LocatedGeneration(env, st, p);
    AdmissionSurvives(env, st, viaP, q, p.Instance(), viaP.publishers[p.Instance()].replay, later);
    assert StartOf(env, st, p) == StartOf(env, st, q);
    assert entity.current == q.entityGeneration;
    assert Locate(env, viaP, q2) == (viaP, None);
    PublishedAt(env, viaP, q2);
    ReplayOfLater(env, st, p, q);
    LaterGenerations(StartOf(env, st, p), entity, p, q, later);
    NamedCovered(q.claims, q.coverage);
    ClaimsAreAcceptedExactly(env.options, AuthorOf(viaP.epoch, q2), entity, Covered(q.claims, q.coverage), q.reason);
  }

  /** An admitted observation of an entity at its current generation commits exactly when it is a
      new attempt, its generations match and its claims are accepted. */
  lemma PublishedAt(env: Environment, st: State, q: Request)
    requires q.mode.PartialObservation? && Admit(env, st, q) == None && Locate(env, st, q) == (st, None)
    ensures Publish(env, st, q).1.Committed? <==>
            && !Remembers(st.publishers[q.Instance()].replay, q.attempt)
            && CheckGenerations(st.entities[q.entity], q) == None
            && ApplyClaims(env.options, AuthorOf(st.epoch, q), st.entities[q.entity], Covered(q.claims, q.coverage),
                           q.reason).error == None
  {
    hide Admit, Locate, ApplyClaims, CheckGenerations, ContentOf, Remembers, SemanticChange, CommitEntity;
    var content := ContentOf(q, st.authorities[q.scope]);
    NewAttempt(st.publishers[q.Instance()].replay, q.attempt, content);
    RememberingIgnoresContent(st.publishers[q.Instance()].replay, q.attempt, content, content);
  }

  lemma ReplayOfLater(env: Environment, st: State, p: Request, q: Request)
    requires Publish(env, st, p).1.Committed? && Publish(env, st, q).1.Committed?
    ensures q.Instance() in Publish(env, st, p).0.publishers
    ensures Remembers(Publish(env, st, p).0.publishers[q.Instance()].replay, q.attempt) <==>
            p.Instance() == q.Instance() && p.attempt == q.attempt
  {
    hide Publish, Admit, PushReplay, Remembers, ContentOf;
    CommittedSurroundings(env, st, p);
    CommittedSurroundings(env, st, q);
    var record := ReplayRecord(p.attempt, p.publication, ContentOf(p, st.authorities[p.scope]));
    if p.Instance() == q.Instance() {
      PushedRemembers(env, st.publishers[p.Instance()].replay, record, q.attempt);
    }
  }

  lemma LaterGenerations(start: Entity, entity: Entity, p: Request, q: Request, later: nat)
    requires p.Key() != q.Key() && CheckGenerations(start, q) == None && entity.hasSet
    requires entity.highWater == RaiseFloor(start.highWater, p.Key(), p.sourceGeneration)
    ensures CheckGenerations(entity, q.(expected := later)) == None <==> later == entity.setGeneration
  {
  }

  // ----- two observations in either order -----

  lemma ShortListIsNotCrowded(evidence: seq<Record>, key: SourceKey, reason: Id, limit: nat)
    requires |evidence| < limit
    ensures !Crowded(evidence, key, reason, limit)
  {
  }

  /** Every capability that both observations claim has room for two more records. */
  ghost predicate RoomForTwo(limit: nat, p: Request, q: Request, start: Entity) {
    forall c :: c in Named(p.claims) && c in Named(q.claims) ==> |EntryOf(start, c).evidence| + 2 <= limit
  }

  lemma AddedNames(limit: nat, author: Author, start: Entity, after: Entity, claims: seq<Claim>, reason: Id)
    requires ClaimsTook(limit, author, start, after, claims, reason)
    ensures after.capabilities.Keys == start.capabilities.Keys + Named(claims)
  {
    hide ClaimedFor;
    forall c ensures c in after.capabilities.Keys <==> c in start.capabilities.Keys + Named(claims) {
      if Mentions(claims, c) {
        var claim :| claim in claims && claim.capability == c;
        assert ClaimTook(limit, author, start, after, claim, reason) && CapabilityOf(claim) in Named(claims);
      } else {
        assert Untouched(start, after, c);
        assert c !in Named(claims);
      }
    }
  }

  lemma NewNames(keys: set<Id>, first: set<Id>, second: set<Id>)
    ensures (first + second) - keys == (first - keys) + (second - (keys + first))
    ensures |keys + first| == |keys| + |first - keys|
    ensures |(first + second) - keys| == |first - keys| + |second - (keys + first)|
  {
  }

  lemma RoomAfterFirst(options: Options, start: Entity, after: Entity, first: set<Id>, second: set<Id>)
    requires after.capabilities.Keys == start.capabilities.Keys + first && HasRoom(options, start, first + second)
    ensures HasRoom(options, after, second)
  {
    NewNames(start.capabilities.Keys, first, second);
    assert |start.capabilities| == |start.capabilities.Keys| && |after.capabilities| == |after.capabilities.Keys|;
  }

  lemma NoneCrowdedAfterFirst(limit: nat, p: Request, q: Request, authorP: Author, start: Entity, after: Entity,
                              options: Options)
    requires options.maxEvidence == limit && authorP.key == p.Key() && p.Key() != q.Key()
    requires ClaimsTook(limit, authorP, start, after, Covered(p.claims, p.coverage), p.reason)
    requires NoneCrowded(options, q.Key(), start, Named(q.claims), q.reason) && RoomForTwo(limit, p, q, start)
    ensures NoneCrowded(options, q.Key(), after, Named(q.claims), q.reason)
  {
    hide Crowded, ClaimedEntry;
    var claims := Covered(p.claims, p.coverage);
    NamedCovered(p.claims, p.coverage);
    forall c | c in Named(q.claims) ensures !Crowded(EntryOf(after, c).evidence, q.Key(), q.reason, limit) {
      if Mentions(claims, c) {
        var claim :| claim in claims && claim.capability == c;
        assert CapabilityOf(claim) in Named(claims);
        assert ClaimTook(limit, authorP, start, after, claim, p.reason);
        ClaimGrowsList(limit, authorP, start, EntryOf(start, c), claim, p.reason, q.Key());
        ShortListIsNotCrowded(EntryOf(after, c).evidence, q.Key(), q.reason, limit);
      } else {
        assert Untouched(start, after, c);
      }
    }
  }

  /** One of the two orders of `ObservationsCommute`. */
  lemma LaterCommits(env: Environment, st: State, p: Request, q: Request, later: nat)
    requires env.Valid() && StateOk(env, st) && p.mode.PartialObservation? && q.mode.PartialObservation?
    requires p.entity == q.entity && p.entityGeneration == q.entityGeneration && p.Key() != q.Key()
    requires Publish(env, st, p).1.Committed? && Publish(env, st, q).1.Committed?
    requires p.Instance() == q.Instance() ==> p.attempt != q.attempt
    requires later == Publish(env, st, p).1.next
    requires HasRoom(env.options, StartOf(env, st, p), Named(p.claims) + Named(q.claims))
    requires RoomForTwo(env.options.maxEvidence, p, q, StartOf(env, st, p))
    ensures Publish(env, Publish(env, st, p).0, q.(expected := later)).1.Committed?
  {
    hide Publish, Admit, HasRoom, NoneCrowded, StateOk, RoomForTwo, ClaimsTook, ApplyClaims;
    LaterObservationCommitsExactly(env, st, p, q, later);
    CommittedObservation(env, st, p);
    CommittedSurroundings(env, st, q);
    var start, entity := StartOf(env, st, p), Publish(env, st, p).0.entities[q.entity];
    assert start == StartOf(env, st, q);
    NamedCovered(p.claims, p.coverage);
    AddedNames(env.options.maxEvidence, AuthorOf(st.epoch, p), start, entity, Covered(p.claims, p.coverage), p.reason);
    RoomAfterFirst(env.options, start, entity, Named(p.claims), Named(q.claims));
    AcceptedObservation(env, st, q);
    NoneCrowdedAfterFirst(env.options.maxEvidence, p, q, AuthorOf(st.epoch, p), start, entity, env.options);
  }

  lemma AcceptedObservation(env: Environment, st: State, q: Request)
    requires env.Valid() && q.mode.PartialObservation? && Publish(env, st, q).1.Committed?
    ensures Locate(env, st, q).1 == None
    ensures HasRoom(env.options, StartOf(env, st, q), Named(q.claims))
            && NoneCrowded(env.options, q.Key(), StartOf(env, st, q), Named(q.claims), q.reason)
  {
    hide Publish, Admit, HasRoom, NoneCrowded, ApplyClaims;
    CommittedWasApplied(env, st, q);
    AdmittedRequestIsOk(env, st, q);
    NamedCovered(q.claims, q.coverage);
    ClaimsAreAcceptedExactly(env.options, AuthorOf(st.epoch, q), StartOf(env, st, q), Covered(q.claims, q.coverage),
                             q.reason);
  }

  /** Arrival order does not matter: if each of two partial observations of one entity generation, by
      different sources, would be committed now, and there is room for both, then each is still
      committed after the other, once it expects the set generation the other reached, and the answers
      and the digest come out the same in both orders. */
  lemma ObservationsCommute(env: Environment, st: State, p: Request, q: Request)
    requires env.Valid() && StateOk(env, st) && p.mode.PartialObservation? && q.mode.PartialObservation?
    requires p.entity == q.entity && p.entityGeneration == q.entityGeneration && p.Key() != q.Key()
    requires Publish(env, st, p).1.Committed? && Publish(env, st, q).1.Committed?
    requires p.Instance() == q.Instance() ==> p.attempt != q.attempt
    requires Locate(env, st, p).1 == None ==>
               && HasRoom(env.options, StartOf(env, st, p), Named(p.claims) + Named(q.claims))
               && RoomForTwo(env.options.maxEvidence, p, q, StartOf(env, st, p))
    ensures var (viaP, first) := Publish(env, st, p);
            var (viaQ, other) := Publish(env, st, q);
            var (one, second) := Publish(env, viaP, q.(expected := first.next));
            var (two, last) := Publish(env, viaQ, p.(expected := other.next));
            && second.Committed? && last.Committed?
            && p.entity in one.entities && p.entity in two.entities
            && SameAnswers(one.entities[p.entity], two.entities[p.entity])
            && DigestOf(one.entities[p.entity].published) == DigestOf(two.entities[p.entity].published)
  {
    hide Publish, Admit, HasRoom, StateOk, RoomForTwo, SameAnswers, RoomForBoth;
    AcceptedObservation(env, st, p);
    AcceptedObservation(env, st, q);
    var start := StartOf(env, st, p);
    assert start == StartOf(env, st, q);
    assert Named(p.claims) + Named(q.claims) == Named(q.claims) + Named(p.claims);
    assert RoomForTwo(env.options.maxEvidence, q, p, start) by {
      RoomIsSymmetric(env.options.maxEvidence, p, q, start);
    }
    var laterQ, laterP := Publish(env, st, p).1.next, Publish(env, st, q).1.next;
    LaterCommits(env, st, p, q, laterQ);
    LaterCommits(env, st, q, p, laterP);
    TwoPlacesAreRoom(env.options.maxEvidence, st.epoch, p, q, start);
    CommittedPairsCommute(env, st, p, q, laterP, laterQ);
  }

  lemma RoomIsSymmetric(limit: nat, p: Request, q: Request, start: Entity)
    requires RoomForTwo(limit, p, q, start)
    ensures RoomForTwo(limit, q, p, start)
  {
  }

  lemma TwoPlacesAreRoom(limit: nat, epoch: nat, p: Request, q: Request, start: Entity)
    requires RoomForTwo(limit, p, q, start)
    ensures RoomForBoth(limit, ReportOf(epoch, p), ReportOf(epoch, q), start)
  {
    NamedCovered(p.claims, p.coverage);
    NamedCovered(q.claims, q.coverage);
    var a, b := Covered(p.claims, p.coverage), Covered(q.claims, q.coverage);
    forall c | Mentions(a, c) && Mentions(b, c) ensures |EntryOf(start, c).evidence| < limit {
      var x :| x in a && x.capability == c;
      var y :| y in b && y.capability == c;
      assert CapabilityOf(x) in Named(a) && CapabilityOf(y) in Named(b);
    }
  }
}
