/** Two sources that observe one entity may report in either order: below the
    evidence capacity the served capabilities and the set digest come out the same. */
module Commutation {
  import opened Sequences
  import opened Evidence
  import opened ResolutionRules
  import opened RegistryState
  import opened EvidenceInvariant
  import opened RegistrySteps
  import opened RegistryInvariant
  import opened Publications
  import Recovery

  /** What a reader and the digest see of one capability is the same. */
  ghost predicate SameAnswer(c: Id, a: Entry, b: Entry) {
    && View(ResolutionOf(c, a)) == View(ResolutionOf(c, b))
    && ResolutionOf(c, a).winner == ResolutionOf(c, b).winner
  }

  ghost predicate SameAnswers(a: Entity, b: Entity) {
    && a.capabilities.Keys == b.capabilities.Keys
    && forall c :: c in a.capabilities ==> SameAnswer(c, a.capabilities[c], b.capabilities[c])
  }

  // ----- one capability claimed by both -----

  lemma {:induction false} MarkKeepsHighest(evidence: seq<Record>, mark: Mark, key: SourceKey)
    ensures HighestGeneration(MarkRecords(evidence, mark), key) == HighestGeneration(evidence, key)
  {
    if evidence != [] {
      var n := |evidence| - 1;
      MarkKeepsHighest(evidence[..n], mark, key);
      assert MarkRecords(evidence, mark)[..n] == MarkRecords(evidence[..n], mark);
    }
  }

  lemma AppendKeepsHighest(evidence: seq<Record>, r: Record, key: SourceKey)
    requires r.key != key
    ensures HighestGeneration(evidence + [r], key) == HighestGeneration(evidence, key)
  {
  }

  /** Below capacity a claim grows the list by one and leaves the other keys' generations alone. */
  lemma ClaimGrowsList(limit: nat, author: Author, entity: Entity, entry: Entry, claim: Claim, reason: Id,
                       other: SourceKey)
    requires |entry.evidence| <= limit && author.key != other
    ensures var claimed := ClaimedEntry(limit, author, entity, entry, claim, reason);
            && |claimed.evidence| == |entry.evidence| + 1
            && HighestGeneration(claimed.evidence, other) == HighestGeneration(entry.evidence, other)
  {
    hide Resolve;
    var mark := Mark(LiveOf(author.key), Superseded, reason);
    assert Displaced(entry.evidence, author.key, reason, limit) == MarkRecords(entry.evidence, mark);
    MarkKeepsHighest(entry.evidence, mark, other);
    AppendKeepsHighest(MarkRecords(entry.evidence, mark), RecordFor(author, entity, entry, claim), other);
  }

  /** The live records after two claims, one after the other. */
  lemma TwoClaimsLiveSet(limit: nat, first: Author, second: Author, entity: Entity, entry: Entry, a: Claim, b: Claim,
                         reasonA: Id, reasonB: Id)
    requires |entry.evidence| < limit && first.key != second.key
    ensures var once := ClaimedEntry(limit, first, entity, entry, a, reasonA);
            var twice := ClaimedEntry(limit, second, entity, once, b, reasonB);
            && LiveSet(twice.evidence) ==
               (set r | r in LiveSet(entry.evidence) && r.key != first.key && r.key != second.key)
               + {RecordFor(first, entity, entry, a), RecordFor(second, entity, entry, b)}
            && |twice.evidence| == |entry.evidence| + 2
            && twice.generation == entry.generation + 2
  {
    hide Resolve, Displaced, HighestGeneration;
    var once := ClaimedEntry(limit, first, entity, entry, a, reasonA);
    ClaimGrowsList(limit, first, entity, entry, a, reasonA, second.key);
    ClaimGrowsList(limit, second, entity, once, b, reasonB, first.key);
    ClaimedLiveSet(limit, first, entity, entry, a, reasonA);
    ClaimedLiveSet(limit, second, entity, once, b, reasonB);
    assert RecordFor(second, entity, once, b) == RecordFor(second, entity, entry, b);
  }

  lemma ClaimsCommute(limit: nat, first: Author, second: Author, entity: Entity, entry: Entry, a: Claim, b: Claim,
                      reasonA: Id, reasonB: Id)
    requires |entry.evidence| < limit && first.key != second.key && a.capability == b.capability
    requires var x := ClaimedEntry(limit, second, entity, ClaimedEntry(limit, first, entity, entry, a, reasonA), b,
                                   reasonB);
             var y := ClaimedEntry(limit, first, entity, ClaimedEntry(limit, second, entity, entry, b, reasonB), a,
                                   reasonA);
             KeyOrdered(x.evidence) && KeyOrdered(y.evidence)
    ensures var x := ClaimedEntry(limit, second, entity, ClaimedEntry(limit, first, entity, entry, a, reasonA), b,
                                  reasonB);
            var y := ClaimedEntry(limit, first, entity, ClaimedEntry(limit, second, entity, entry, b, reasonB), a,
                                  reasonA);
            SameAnswer(a.capability, x, y)
  {
    hide Resolve, Displaced, HighestGeneration, KeyOrdered, View;
    var x := ClaimedEntry(limit, second, entity, ClaimedEntry(limit, first, entity, entry, a, reasonA), b, reasonB);
    var y := ClaimedEntry(limit, first, entity, ClaimedEntry(limit, second, entity, entry, b, reasonB), a, reasonA);
    TwoClaimsLiveSet(limit, first, second, entity, entry, a, b, reasonA, reasonB);
    TwoClaimsLiveSet(limit, second, first, entity, entry, b, a, reasonB, reasonA);
    assert LiveSet(x.evidence) == LiveSet(y.evidence);
    ViewDependsOnLiveRecords(a.capability, entry.generation + 2, x.evidence, y.evidence);
  }

  // ----- whole observations -----

  datatype Report = Report(author: Author, claims: seq<Claim>, reason: Id)

  /** A report took effect on `before`, giving `after`. */
  ghost predicate Reported(limit: nat, report: Report, before: Entity, after: Entity) {
    && ClaimsTook(limit, report.author, before, after, report.claims, report.reason)
    && before.id == after.id && before.bound == after.bound
  }

  ghost predicate AllKeyOrdered(entity: Entity) {
    forall c :: c in entity.capabilities ==> KeyOrdered(entity.capabilities[c].evidence)
  }

  /** Every capability that both reports mention has room for one more record. */
  ghost predicate RoomForBoth(limit: nat, p: Report, q: Report, start: Entity) {
    forall c :: Mentions(p.claims, c) && Mentions(q.claims, c) ==> |EntryOf(start, c).evidence| < limit
  }

  lemma OneReporter(limit: nat, p: Report, q: Report, start: Entity, viaP: Entity, both: Entity, viaQ: Entity,
                    other: Entity,
                    c: Id)
    requires Reported(limit, p, start, viaP) && Reported(limit, q, viaP, both)
    requires Reported(limit, q, start, viaQ) && Reported(limit, p, viaQ, other)
    requires Mentions(p.claims, c) && !Mentions(q.claims, c)
    ensures c in both.capabilities && c in other.capabilities && both.capabilities[c] == other.capabilities[c]
  {
    hide ClaimedEntry;
    var claim :| claim in p.claims && claim.capability == c;
    assert ClaimTook(limit, p.author, start, viaP, claim, p.reason);
    assert ClaimTook(limit, p.author, viaQ, other, claim, p.reason);
    assert Untouched(viaP, both, c) && Untouched(start, viaQ, c);
    SameEntrySameClaim(limit, p.author, start, viaQ, claim, p.reason);
  }

  lemma SecondClaim(limit: nat, author: Author, start: Entity, via: Entity, after: Entity, claim: Claim, reason: Id)
    requires start.id == via.id && start.bound == via.bound && claim.capability in via.capabilities
    requires ClaimTook(limit, author, via, after, claim, reason)
    ensures claim.capability in after.capabilities
    ensures after.capabilities[claim.capability] ==
            ClaimedEntry(limit, author, start, via.capabilities[claim.capability], claim, reason)
  {
    hide Appended;
    var entry := via.capabilities[claim.capability];
    assert RecordFor(author, start, entry, claim) == RecordFor(author, via, entry, claim);
  }

  lemma TwoReporters(limit: nat, p: Report, q: Report, start: Entity, viaP: Entity, both: Entity, viaQ: Entity,
                     other: Entity,
                     c: Id)
    requires Reported(limit, p, start, viaP) && Reported(limit, q, viaP, both)
    requires Reported(limit, q, start, viaQ) && Reported(limit, p, viaQ, other)
    requires Mentions(p.claims, c) && Mentions(q.claims, c)
    requires p.author.key != q.author.key && |EntryOf(start, c).evidence| < limit
    requires AllKeyOrdered(both) && AllKeyOrdered(other)
    ensures c in both.capabilities && c in other.capabilities
            && SameAnswer(c, both.capabilities[c], other.capabilities[c])
  {
    hide ClaimedEntry, KeyOrdered, SameAnswer;
    var a :| a in p.claims && a.capability == c;
    var b :| b in q.claims && b.capability == c;
    assert ClaimTook(limit, p.author, start, viaP, a, p.reason) && ClaimTook(limit, q.author, viaP, both, b, q.reason);
    assert ClaimTook(limit, q.author, start, viaQ, b, q.reason) && ClaimTook(limit, p.author, viaQ, other, a, p.reason);
    SecondClaim(limit, q.author, start, viaP, both, b, q.reason);
    SecondClaim(limit, p.author, start, viaQ, other, a, p.reason);
    ClaimsCommute(limit, p.author, q.author, start, EntryOf(start, c), a, b, p.reason, q.reason);
  }

  /** Two reports about one entity give the same answers in either order. */
  lemma ReportsCommute(limit: nat, p: Report, q: Report, start: Entity, viaP: Entity, both: Entity, viaQ: Entity,
                       other: Entity)
    requires Reported(limit, p, start, viaP) && Reported(limit, q, viaP, both)
    requires Reported(limit, q, start, viaQ) && Reported(limit, p, viaQ, other)
    requires p.author.key != q.author.key && RoomForBoth(limit, p, q, start)
    requires AllKeyOrdered(both) && AllKeyOrdered(other)
    ensures SameAnswers(both, other)
  {
    hide SameAnswer, ClaimTook, AllKeyOrdered, View;
    forall c
      ensures c in both.capabilities <==> c in other.capabilities
      ensures c in both.capabilities ==> SameAnswer(c, both.capabilities[c], other.capabilities[c])
    {
      if Mentions(p.claims, c) && Mentions(q.claims, c) {
        TwoReporters(limit, p, q, start, viaP, both, viaQ, other, c);
      } else if Mentions(p.claims, c) {
        OneReporter(limit, p, q, start, viaP, both, viaQ, other, c);
        SameEntrySameAnswer(c, both.capabilities[c], other.capabilities[c]);
      } else if Mentions(q.claims, c) {
        OneReporter(limit, q, p, start, viaQ, other, viaP, both, c);
        SameEntrySameAnswer(c, both.capabilities[c], other.capabilities[c]);
      } else {
        assert Untouched(start, viaP, c) && Untouched(viaP, both, c) && Untouched(start, viaQ, c)
               && Untouched(viaQ, other, c);
        if c in both.capabilities {
          SameEntrySameAnswer(c, both.capabilities[c], other.capabilities[c]);
        }
      }
    }
  }

  lemma SameEntrySameAnswer(c: Id, a: Entry, b: Entry)
    requires a == b
    ensures SameAnswer(c, a, b)
  {
  }

  lemma SameAnswersSameDigest(a: Entity, b: Entity)
    requires SameAnswers(a, b)
    ensures Views(SortedResolutions(a.capabilities)) == Views(SortedResolutions(b.capabilities))
  {
    hide View, ResolutionOf, SortedResolutions, Views;
    forall c | c in a.capabilities
      ensures View(ResolutionOf(c, a.capabilities[c])) == View(ResolutionOf(c, b.capabilities[c]))
    {
      assert SameAnswer(c, a.capabilities[c], b.capabilities[c]);
    }
    Recovery.SameViewsSameDigest(a.capabilities, b.capabilities);
  }

  ghost function ReportOf(epoch: nat, request: Request): Report {
    Report(AuthorOf(epoch, request), Covered(request.claims, request.coverage), request.reason)
  }

  /** A committed observation is a report on the entity it starts from. */
  lemma CommitReports(env: Environment, st: State, request: Request)
    requires env.Valid() && StateOk(env, st) && request.mode.PartialObservation?
    requires Publish(env, st, request).1.Committed?
    ensures var after := Publish(env, st, request).0;
            && Locate(env, st, request).1 == None && request.entity in after.entities && after.epoch == st.epoch
            && Reported(env.options.maxEvidence, ReportOf(st.epoch, request), StartOf(env, st, request),
                        after.entities[request.entity])
            && after.entities[request.entity].current == request.entityGeneration
            && AllKeyOrdered(after.entities[request.entity])
            && DigestOf(after.entities[request.entity].published) ==
               Some(Views(SortedResolutions(after.entities[request.entity].capabilities)))
    ensures StateOk(env, Publish(env, st, request).0)
  {
    hide ClaimsTook, ApplyRequest, Views, SortedResolutions;
    CommittedObservation(env, st, request);
    CommittedWasApplied(env, st, request);
    AdmittedRequestIsOk(env, st, request);
    LocateKeepsState(env, st, request);
    LocatedGeneration(env, st, request);
    PublishKeepsState(env, st, request);
    CommittedHeader(env, st, request);
    var after := Publish(env, st, request).0;
    assert EntityOk(ContextOf(env, after), request.entity, after.entities[request.entity]);
    forall c | c in after.entities[request.entity].capabilities
      ensures KeyOrdered(after.entities[request.entity].capabilities[c].evidence)
    {
      assert EntryOk(ContextOf(env, after), after.entities[request.entity], c,
                     after.entities[request.entity].capabilities[c]);
    }
  }

  lemma CommittedHeader(env: Environment, st: State, request: Request)
    requires StateOk(env, st) && Publish(env, st, request).1.Committed?
    ensures Locate(env, st, request).1 == None && request.entity in Publish(env, st, request).0.entities
    ensures var start, entity := StartOf(env, st, request), Publish(env, st, request).0.entities[request.entity];
            entity.id == start.id && entity.bound == start.bound && entity.current == start.current
  {
    hide ApplyRequest, Admit, StateOk;
    CommittedWasApplied(env, st, request);
    assert Locate(env, st, request).0.entities[request.entity] == StartOf(env, st, request);
    ApplyRequestKeepsHeader(env, st.epoch, st.authorities[request.scope], StartOf(env, st, request), request);
    assert StartOf(env, st, request).bound == StartOf(env, st, request).current by {
      StartIsBound(env, st, request);
    }
  }

  lemma StartIsBound(env: Environment, st: State, request: Request)
    requires StateOk(env, st) && Locate(env, st, request).1 == None
    ensures StartOf(env, st, request).bound == StartOf(env, st, request).current
  {
  }

  /** Arrival order does not matter: two partial observations of one entity generation
      by different source keys, if both commit in both orders, leave the same answers and digest in either
      order, whatever set generation each submission expected. */
  lemma CommittedPairsCommute(env: Environment, st: State, p: Request, q: Request, laterP: nat, laterQ: nat)
    requires env.Valid() && StateOk(env, st) && p.mode.PartialObservation? && q.mode.PartialObservation?
    requires p.entity == q.entity && p.entityGeneration == q.entityGeneration && p.Key() != q.Key()
    requires Publish(env, st, p).1.Committed? && Publish(env, st, q).1.Committed?
    requires Publish(env, Publish(env, st, p).0, q.(expected := laterQ)).1.Committed?
    requires Publish(env, Publish(env, st, q).0, p.(expected := laterP)).1.Committed?
    requires Locate(env, st, p).1 == None ==>
               RoomForBoth(env.options.maxEvidence, ReportOf(st.epoch, p), ReportOf(st.epoch, q), StartOf(env, st, p))
    ensures var one := Publish(env, Publish(env, st, p).0, q.(expected := laterQ)).0;
            var two := Publish(env, Publish(env, st, q).0, p.(expected := laterP)).0;
            && p.entity in one.entities && p.entity in two.entities
            && SameAnswers(one.entities[p.entity], two.entities[p.entity])
            && DigestOf(one.entities[p.entity].published) == DigestOf(two.entities[p.entity].published)
  {
    hide Publish, StateOk, Reported, AllKeyOrdered, RoomForBoth, SameAnswers, Views, SortedResolutions;
    var limit := env.options.maxEvidence;
    var q2, p2 := q.(expected := laterQ), p.(expected := laterP);
    var viaP, viaQ := Publish(env, st, p).0, Publish(env, st, q).0;
    var one, two := Publish(env, viaP, q2).0, Publish(env, viaQ, p2).0;
    CommitReports(env, st, p);
    CommitReports(env, st, q);
    CommitReports(env, viaP, q2);
    CommitReports(env, viaQ, p2);
    assert StartOf(env, st, p) == StartOf(env, st, q);
    assert StartOf(env, viaP, q2) == viaP.entities[p.entity];
    assert StartOf(env, viaQ, p2) == viaQ.entities[p.entity];
    assert ReportOf(st.epoch, p2) == ReportOf(st.epoch, p) && ReportOf(st.epoch, q2) == ReportOf(st.epoch, q);
    ReportsCommute(limit, ReportOf(st.epoch, p), ReportOf(st.epoch, q), StartOf(env, st, p),
                   viaP.entities[p.entity], one.entities[p.entity], viaQ.entities[p.entity], two.entities[p.entity]);
    SameAnswersSameDigest(one.entities[p.entity], two.entities[p.entity]);
  }
}
