/** What every change to one capability keeps: evidence lists stay ordered per
    source and bounded, and the cached resolution stays the one the evidence decides. */
module EvidenceInvariant {
  import opened Sequences
  import opened Evidence
  import opened ResolutionRules
  import opened RegistryState

  /** What the records of an entity are measured against. */
  datatype Context = Context(limit: nat, epoch: nat, fenced: set<Id>)

  ghost predicate RecordOk(ctx: Context, entity: Entity, capability: Id, r: Record) {
    && r.claim.capability == capability
    && r.entity == entity.id
    && r.entityGeneration == entity.bound
    && (r.claim.durability.Durable? ==> r.claim.provenance > DIRECT_DEVICE_OR_OS_API)
    && (ProcessBoundCurrent(r) ==> r.epoch == ctx.epoch && r.key.boot !in ctx.fenced)
  }

  /** The cached resolution is the computed one; only its evidence count may be stale,
      after a claim was refused for lack of room. */
  ghost predicate Synced(capability: Id, entry: Entry) {
    entry.resolution.Some? && entry.resolution.value.(evidenceCount := 0) ==
                              Resolve(capability, entry.generation, entry.evidence).(evidenceCount := 0)
  }

  ghost predicate EvidenceOk(limit: nat, evidence: seq<Record>) {
    KeyOrdered(evidence) && |Filter(Live, evidence)| <= limit && |evidence| <= limit + 1
  }

  ghost predicate EntryOk(ctx: Context, entity: Entity, capability: Id, entry: Entry) {
    && capability != 0
    && Synced(capability, entry)
    && EvidenceOk(ctx.limit, entry.evidence)
    && forall r :: r in entry.evidence ==> RecordOk(ctx, entity, capability, r)
  }

  ghost predicate EntriesOk(ctx: Context, entity: Entity) {
    forall c :: c in entity.capabilities ==> EntryOk(ctx, entity, c, entity.capabilities[c])
  }

  // ----- the cached resolution -----

  lemma SyncedFollowsRule(capability: Id, entry: Entry)
    requires Synced(capability, entry) && KeyOrdered(entry.evidence)
    ensures Decides(LiveSet(entry.evidence), entry.resolution.value)
  {
    var computed := Resolve(capability, entry.generation, entry.evidence);
    ResolveFollowsRule(capability, entry.generation, entry.evidence);
    SameDecisionSameRule(LiveSet(entry.evidence), computed, entry.resolution.value);
  }

  lemma SameDecisionSameRule(live: set<Record>, a: Resolution, b: Resolution)
    requires Decides(live, a) && a.(evidenceCount := 0) == b.(evidenceCount := 0)
    ensures Decides(live, b)
  {
  }

  lemma ResolveIgnoresRetired(capability: Id, generation: nat, a: seq<Record>, b: seq<Record>)
    requires Filter(IsCurrent, a) == Filter(IsCurrent, b) && Filter(IsDormant, a) == Filter(IsDormant, b)
    ensures Resolve(capability, generation, a).(evidenceCount := 0) ==
            Resolve(capability, generation, b).(evidenceCount := 0)
  {
    assert Pool(a) == Pool(b);
    if Pool(a) != [] {
      DecideIgnoresCount(Base(capability, generation, a), Base(capability, generation, b), StrongestOf(a));
    }
  }

  lemma DecideIgnoresCount(a: Resolution, b: Resolution, strongest: seq<Record>)
    requires strongest != [] && a.(evidenceCount := 0) == b.(evidenceCount := 0)
    ensures Decide(a, strongest).(evidenceCount := 0) == Decide(b, strongest).(evidenceCount := 0)
  {
  }

  // ----- marking -----

  lemma SelectedIsLive(selector: Selector, r: Record)
    requires Selects(selector, r)
    ensures Live(r)
  {
  }

  lemma MarkKeepsKeyOrder(evidence: seq<Record>, mark: Mark)
    requires KeyOrdered(evidence)
    ensures KeyOrdered(MarkRecords(evidence, mark))
  {
  }

  lemma {:induction false} MarkKeepsLiveCount(evidence: seq<Record>, mark: Mark)
    ensures |Filter(Live, MarkRecords(evidence, mark))| <= |Filter(Live, evidence)|
  {
    if evidence != [] {
      var n := |evidence| - 1;
      MarkKeepsLiveCount(evidence[..n], mark);
      assert MarkRecords(evidence, mark)[..n] == MarkRecords(evidence[..n], mark);
    }
  }

  lemma MarkKeepsEntry(ctx: Context, entity: Entity, capability: Id, entry: Entry, mark: Mark)
    requires EntryOk(ctx, entity, capability, entry) && !mark.to.Current?
    ensures EntryOk(ctx, entity, capability, MarkEntry(capability, entry, mark))
  {
    if Touches(entry.evidence, mark) {
      MarkKeepsKeyOrder(entry.evidence, mark);
      MarkKeepsLiveCount(entry.evidence, mark);
      var marked := MarkRecords(entry.evidence, mark);
      forall r | r in marked ensures RecordOk(ctx, entity, capability, r) {
        var i :| 0 <= i < |marked| && marked[i] == r;
        assert RecordOk(ctx, entity, capability, entry.evidence[i]);
      }
    }
  }

  lemma MarkAllKeepsEntries(ctx: Context, entity: Entity, mark: Mark)
    requires EntriesOk(ctx, entity) && !mark.to.Current?
    ensures EntriesOk(ctx, MarkAll(entity, mark))
  {
    var marked := MarkAll(entity, mark);
    forall c | c in marked.capabilities ensures EntryOk(ctx, marked, c, marked.capabilities[c]) {
      MarkKeepsEntry(ctx, entity, c, entity.capabilities[c], mark);
      EntryTransfers(ctx, entity, marked, c, marked.capabilities[c]);
    }
  }

  lemma EntryTransfers(ctx: Context, a: Entity, b: Entity, capability: Id, entry: Entry)
    requires EntryOk(ctx, a, capability, entry) && a.id == b.id && a.bound == b.bound
    ensures EntryOk(ctx, b, capability, entry)
  {
  }

  lemma WithdrawKeepsEntries(ctx: Context, entity: Entity, capability: Id, key: SourceKey, reason: Id)
    requires EntriesOk(ctx, entity)
    ensures EntriesOk(ctx, Withdraw(entity, capability, key, reason))
  {
    var after := Withdraw(entity, capability, key, reason);
    forall c | c in after.capabilities ensures EntryOk(ctx, after, c, after.capabilities[c]) {
      if c == capability {
        MarkKeepsEntry(ctx, entity, c, entity.capabilities[c], Mark(LiveOf(key), Superseded, reason));
      }
      EntryTransfers(ctx, entity, after, c, after.capabilities[c]);
    }
  }

  lemma MarkedEntryIsNotCurrent(capability: Id, entry: Entry, mark: Mark)
    requires !mark.to.Current?
    ensures forall r :: r in MarkEntry(capability, entry, mark).evidence && IsCurrent(r) ==>
              r in entry.evidence && !Selects(mark.selector, r)
  {
  }

  // ----- trimming -----

  lemma WithoutKeeps(p: Record -> bool, evidence: seq<Record>, v: nat)
    requires v < |evidence| && !p(evidence[v])
    ensures Filter(p, Without(evidence, v)) == Filter(p, evidence)
  {
    hide Filter;
    FilterSkip(p, evidence[..v], evidence[v], evidence[v + 1..]);
    assert evidence == evidence[..v] + [evidence[v]] + evidence[v + 1..];
  }

  lemma WithoutKeepsKeyOrder(evidence: seq<Record>, v: nat)
    requires v < |evidence| && KeyOrdered(evidence)
    ensures KeyOrdered(Without(evidence, v))
  {
  }

  /** Trimming drops retired records only, and as many as are needed. */
  lemma {:induction false} TrimKeeps(p: Record -> bool, evidence: seq<Record>, limit: nat)
    requires forall r :: p(r) ==> Live(r)
    ensures Filter(p, Trim(evidence, limit)) == Filter(p, evidence)
    decreases |evidence|
  {
    var v := OldestRetired(evidence);
    if |evidence| > limit && v < |evidence| {
      WithoutKeeps(p, evidence, v);
      TrimKeeps(p, Without(evidence, v), limit);
    }
  }

  lemma {:induction false} TrimKeepsOrder(evidence: seq<Record>, limit: nat)
    requires KeyOrdered(evidence)
    ensures KeyOrdered(Trim(evidence, limit))
    ensures forall r :: r in Trim(evidence, limit) ==> r in evidence
    decreases |evidence|
  {
    var v := OldestRetired(evidence);
    if |evidence| > limit && v < |evidence| {
      WithoutKeepsKeyOrder(evidence, v);
      TrimKeepsOrder(Without(evidence, v), limit);
    }
  }

  lemma {:induction false} AllLive(evidence: seq<Record>)
    requires forall r :: r in evidence ==> Live(r)
    ensures Filter(Live, evidence) == evidence
  {
    if evidence != [] {
      var n := |evidence| - 1;
      assert evidence == evidence[..n] + [evidence[n]];
      AllLive(evidence[..n]);
    }
  }

  lemma {:induction false} TrimGetsWithinLimit(evidence: seq<Record>, limit: nat)
    requires |Filter(Live, evidence)| <= limit
    ensures |Trim(evidence, limit)| <= limit
    decreases |evidence|
  {
    var v := OldestRetired(evidence);
    if |evidence| > limit {
      if v == |evidence| {
        AllLive(evidence);
      } else {
        WithoutKeeps(Live, evidence, v);
        TrimGetsWithinLimit(Without(evidence, v), limit);
      }
    }
  }

  // ----- applying a claim -----

  lemma UntouchedIsUnchanged(evidence: seq<Record>, mark: Mark)
    requires !Touches(evidence, mark)
    ensures MarkRecords(evidence, mark) == evidence
  {
  }

  lemma {:induction false} TouchedLosesOneLive(evidence: seq<Record>, mark: Mark)
    requires Touches(evidence, mark) && mark.to.Superseded?
    ensures |Filter(Live, MarkRecords(evidence, mark))| < |Filter(Live, evidence)|
  {
    if evidence != [] {
      var n := |evidence| - 1;
      var front := evidence[..n];
      var last := MarkRecord(evidence[n], mark);
      assert evidence == front + [evidence[n]];
      assert MarkRecords(evidence, mark) == MarkRecords(front, mark) + [last];
      FilterStep(Live, front, evidence[n]);
      FilterStep(Live, MarkRecords(front, mark), last);
      MarkKeepsLiveCount(front, mark);
      if Selects(mark.selector, evidence[n]) {
        SelectedIsLive(mark.selector, evidence[n]);
      }
      hide Filter;
      if Touches(front, mark) {
        TouchedLosesOneLive(front, mark);
      } else {
        assert Selects(mark.selector, evidence[n]);
      }
    }
  }

  ghost predicate HoldsLive(evidence: seq<Record>, key: SourceKey) {
    exists r :: r in evidence && r.key == key && Live(r)
  }

  /** What is left after the author's own records are superseded and the list is trimmed. */
  lemma DisplacedFacts(evidence: seq<Record>, key: SourceKey, reason: Id, limit: nat)
    requires EvidenceOk(limit, evidence)
    ensures var kept := Displaced(evidence, key, reason, limit);
            && KeyOrdered(kept) && |kept| <= limit
            && |Filter(Live, kept)| <= limit
            && (HoldsLive(evidence, key) ==> |Filter(Live, kept)| < limit)
            && (forall r :: r in kept ==> r in MarkRecords(evidence, Mark(LiveOf(key), Superseded, reason)))
  {
    var mark := Mark(LiveOf(key), Superseded, reason);
    var marked := MarkRecords(evidence, mark);
    MarkKeepsKeyOrder(evidence, mark);
    MarkKeepsLiveCount(evidence, mark);
    TrimKeepsOrder(marked, limit);
    TrimKeeps(Live, marked, limit);
    TrimGetsWithinLimit(marked, limit);
    if HoldsLive(evidence, key) {
      assert Touches(evidence, mark);
      TouchedLosesOneLive(evidence, mark);
    }
  }

  /** A source that already holds a live claim is never refused for evidence capacity. */
  lemma HolderIsNeverRefused(ctx: Context, options: Options, author: Author, entity: Entity, claim: Claim, reason: Id)
    requires EntriesOk(ctx, entity) && ctx.limit == options.maxEvidence
    requires claim.capability in entity.capabilities
    requires HoldsLive(entity.capabilities[claim.capability].evidence, author.key)
    ensures ApplyClaim(options, author, entity, claim, reason).error == None
  {
    var evidence := entity.capabilities[claim.capability].evidence;
    assert EvidenceOk(ctx.limit, evidence);
    DisplacedFacts(evidence, author.key, reason, ctx.limit);
  }

  lemma {:induction false} NoLiveOfKeyAfterMark(evidence: seq<Record>, key: SourceKey, reason: Id)
    ensures forall r :: r in MarkRecords(evidence, Mark(LiveOf(key), Superseded, reason)) && r.key == key ==> !Live(r)
  {
  }

  lemma AppendKeepsKeyOrder(evidence: seq<Record>, r: Record)
    requires KeyOrdered(evidence)
    requires forall x :: x in evidence && x.key == r.key ==> !Live(x) && x.evidenceGeneration < r.evidenceGeneration
    ensures KeyOrdered(evidence + [r])
  {
  }

  lemma MarkedGenerationsAreOld(evidence: seq<Record>, mark: Mark, key: SourceKey)
    ensures forall r :: r in MarkRecords(evidence, mark) && r.key == key ==>
              r.evidenceGeneration <= HighestGeneration(evidence, key)
  {
  }

  lemma AcceptedEvidence(evidence: seq<Record>, key: SourceKey, reason: Id, limit: nat, r: Record)
    requires EvidenceOk(limit, evidence)
    requires |Filter(Live, Displaced(evidence, key, reason, limit))| < limit
    requires r.key == key && r.evidenceGeneration > HighestGeneration(evidence, key)
    ensures EvidenceOk(limit, Displaced(evidence, key, reason, limit) + [r])
  {
    var kept := Displaced(evidence, key, reason, limit);
    DisplacedFacts(evidence, key, reason, limit);
    NoLiveOfKeyAfterMark(evidence, key, reason);
    MarkedGenerationsAreOld(evidence, Mark(LiveOf(key), Superseded, reason), key);
    AppendKeepsKeyOrder(kept, r);
    FilterStep(Live, kept, r);
  }

  ghost predicate ClaimOk(claim: Claim) {
    claim.capability != 0 && (claim.durability.Durable? ==> claim.provenance > DIRECT_DEVICE_OR_OS_API)
  }

  ghost predicate AuthorOk(ctx: Context, author: Author) {
    author.epoch == ctx.epoch && author.key.boot !in ctx.fenced
  }

  lemma KeptRecordsAreOk(ctx: Context, entity: Entity, capability: Id, evidence: seq<Record>, key: SourceKey,
                         reason: Id)
    requires EvidenceOk(ctx.limit, evidence)
    requires forall r :: r in evidence ==> RecordOk(ctx, entity, capability, r)
    ensures forall r :: r in Displaced(evidence, key, reason, ctx.limit) ==> RecordOk(ctx, entity, capability, r)
  {
    var mark := Mark(LiveOf(key), Superseded, reason);
    var marked := MarkRecords(evidence, mark);
    DisplacedFacts(evidence, key, reason, ctx.limit);
    forall r | r in marked ensures RecordOk(ctx, entity, capability, r) {
      var i :| 0 <= i < |marked| && marked[i] == r;
      assert RecordOk(ctx, entity, capability, evidence[i]);
    }
  }

  lemma EmptyEvidenceOk(limit: nat)
    ensures EvidenceOk(limit, [])
  {
  }

  /** A refused claim leaves the resolution right: only retired records were dropped. */
  lemma RefusedEntryOk(ctx: Context, entity: Entity, capability: Id, entry: Entry, key: SourceKey, reason: Id)
    requires EntryOk(ctx, entity, capability, entry)
    requires |Filter(Live, Displaced(entry.evidence, key, reason, ctx.limit))| >= ctx.limit
    ensures EntryOk(ctx, entity, capability, entry.(evidence := Displaced(entry.evidence, key, reason, ctx.limit)))
  {
    var kept := Displaced(entry.evidence, key, reason, ctx.limit);
    var mark := Mark(LiveOf(key), Superseded, reason);
    DisplacedFacts(entry.evidence, key, reason, ctx.limit);
    KeptRecordsAreOk(ctx, entity, capability, entry.evidence, key, reason);
    assert !Touches(entry.evidence, mark) by {
      if Touches(entry.evidence, mark) {
        assert HoldsLive(entry.evidence, key);
      }
    }
    UntouchedIsUnchanged(entry.evidence, mark);
    TrimKeeps(IsCurrent, entry.evidence, ctx.limit);
    TrimKeeps(IsDormant, entry.evidence, ctx.limit);
    ResolveIgnoresRetired(capability, entry.generation, kept, entry.evidence);
  }

  lemma ComputedEntryOk(ctx: Context, entity: Entity, capability: Id, generation: nat, evidence: seq<Record>)
    requires capability != 0 && EvidenceOk(ctx.limit, evidence)
    requires forall r :: r in evidence ==> RecordOk(ctx, entity, capability, r)
    ensures EntryOk(ctx, entity, capability,
                    Entry(generation, evidence, Some(Resolve(capability, generation, evidence))))
  {
  }

  lemma ClaimedEntryOk(ctx: Context, author: Author, entity: Entity, entry: Entry, claim: Claim, reason: Id)
    requires EvidenceOk(ctx.limit, entry.evidence)
    requires forall r :: r in entry.evidence ==> RecordOk(ctx, entity, claim.capability, r)
    requires ClaimOk(claim) && AuthorOk(ctx, author)
    requires !Crowded(entry.evidence, author.key, reason, ctx.limit)
    ensures EntryOk(ctx, entity, claim.capability, ClaimedEntry(ctx.limit, author, entity, entry, claim, reason))
  {
    hide Resolve, Displaced, HighestGeneration, Filter, EntryOk;
    var r := NewRecord(entity, author, claim, HighestGeneration(entry.evidence, author.key) + 1);
    var evidence := Displaced(entry.evidence, author.key, reason, ctx.limit) + [r];
    AcceptedEvidence(entry.evidence, author.key, reason, ctx.limit, r);
    KeptRecordsAreOk(ctx, entity, claim.capability, entry.evidence, author.key, reason);
    ComputedEntryOk(ctx, entity, claim.capability, entry.generation + 1, evidence);
  }

  lemma PutEntryKeepsEntries(ctx: Context, entity: Entity, capability: Id, entry: Entry)
    requires EntriesOk(ctx, entity) && EntryOk(ctx, entity, capability, entry)
    ensures EntriesOk(ctx, PutEntry(entity, capability, entry))
  {
  }

  lemma NewCapabilityHasRoom(key: SourceKey, reason: Id, limit: nat)
    requires limit >= 1
    ensures !Crowded([], key, reason, limit)
  {
  }

  lemma ApplyClaimKeepsEntries(ctx: Context, options: Options, author: Author, entity: Entity, claim: Claim, reason: Id)
    requires EntriesOk(ctx, entity) && ctx.limit == options.maxEvidence && ctx.limit >= 1
    requires ClaimOk(claim) && AuthorOk(ctx, author)
    ensures EntriesOk(ctx, ApplyClaim(options, author, entity, claim, reason).entity)
  {
    var c := claim.capability;
    var entry := EntryOf(entity, c);
    assert EvidenceOk(ctx.limit, entry.evidence) by {
      EmptyEvidenceOk(ctx.limit);
    }
    if c !in entity.capabilities && |entity.capabilities| >= options.maxCapabilities {
    } else if Crowded(entry.evidence, author.key, reason, ctx.limit) {
      NewCapabilityHasRoom(author.key, reason, ctx.limit);
      RefusedEntryOk(ctx, entity, c, entry, author.key, reason);
      PutEntryKeepsEntries(ctx, entity, c,
                           entry.(evidence := Displaced(entry.evidence, author.key, reason, ctx.limit)));
    } else {
      ClaimedEntryOk(ctx, author, entity, entry, claim, reason);
      PutEntryKeepsEntries(ctx, entity, c, ClaimedEntry(ctx.limit, author, entity, entry, claim, reason));
    }
  }
}
