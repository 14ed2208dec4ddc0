/** What fencing, epoch advances and invalidation leave of the evidence: every record keeps its place
    and its observation, the selected ones wait for revalidation or are fenced, and the answers follow
    from the current records that are left. */
module Demotion {
  import opened Sequences
  import opened Values
  import opened Evidence
  import opened RegistryState
  import opened EvidenceInvariant
  import opened RegistrySteps
  import opened RegistryInvariant
  import opened Runs
  import opened Winners

  // ----- what becomes of the records -----

  /** The same records in the same places; the chosen ones get the new currentness and its reason. */
  ghost predicate ListDemoted(before: seq<Record>, after: seq<Record>, chosen: Record -> bool, to: Currentness,
                              reason: Id) {
    && |after| == |before|
    && forall i :: 0 <= i < |before| ==>
         after[i] == if chosen(before[i]) then
                       before[i].(currentness := to, claim := before[i].claim.(reason := reason))
                     else before[i]
  }

  /** An entry with a demoted list; its generation moves exactly when a record was chosen. */
  ghost predicate EntryDemoted(before: Entry, after: Entry, chosen: Record -> bool, to: Currentness, reason: Id) {
    && ListDemoted(before.evidence, after.evidence, chosen, to, reason)
    && after.generation == if exists r :: r in before.evidence && chosen(r) then before.generation + 1
                           else before.generation
  }

  ghost predicate EntriesDemoted(before: map<Id, Entry>, after: map<Id, Entry>, chosen: Record -> bool,
                                 to: Currentness, reason: Id) {
    && after.Keys == before.Keys
    && forall c :: c in before ==> EntryDemoted(before[c], after[c], chosen, to, reason)
  }

  ghost predicate AllDemoted(before: map<Id, Entity>, after: map<Id, Entity>, chosen: Record -> bool, to: Currentness,
                             reason: Id) {
    && after.Keys == before.Keys
    && forall e :: e in before ==> EntriesDemoted(before[e].capabilities, after[e].capabilities, chosen, to, reason)
  }

  function CurrentProcess(): Record -> bool {
    (r: Record) => r.currentness.Current? && r.claim.durability.ProcessBound?
  }

  function CurrentProcessOf(boot: Id): Record -> bool {
    (r: Record) => r.currentness.Current? && r.claim.durability.ProcessBound? && r.key.boot == boot
  }

  function AnyCurrent(): Record -> bool {
    (r: Record) => r.currentness.Current?
  }

  function CurrentFrom(source: Id): Record -> bool {
    (r: Record) => r.currentness.Current? && r.key.source == source
  }

  ghost predicate SelectsExactly(mark: Mark, chosen: Record -> bool) {
    forall r :: Selects(mark.selector, r) <==> chosen(r)
  }

  lemma MarkedEntryIsDemoted(capability: Id, entry: Entry, mark: Mark, chosen: Record -> bool)
    requires SelectsExactly(mark, chosen)
    ensures EntryDemoted(entry, MarkEntry(capability, entry, mark), chosen, mark.to, mark.reason)
  {
    hide Resolve, Selects;
    if !Touches(entry.evidence, mark) {
      forall i | 0 <= i < |entry.evidence| ensures !chosen(entry.evidence[i]) {
        assert !Selects(mark.selector, entry.evidence[i]);
      }
    }
  }

  lemma MarkedEntriesAreDemoted(entity: Entity, mark: Mark, chosen: Record -> bool)
    requires SelectsExactly(mark, chosen)
    ensures EntriesDemoted(entity.capabilities, MarkAll(entity, mark).capabilities, chosen, mark.to, mark.reason)
  {
    hide EntryDemoted, MarkEntry, SelectsExactly;
    forall c | c in entity.capabilities
      ensures EntryDemoted(entity.capabilities[c], MarkEntry(c, entity.capabilities[c], mark), chosen, mark.to,
                           mark.reason)
    {
      MarkedEntryIsDemoted(c, entity.capabilities[c], mark, chosen);
    }
  }

  lemma MarkedEverywhereIsDemoted(entities: map<Id, Entity>, mark: Mark, registryGeneration: nat,
                                  chosen: Record -> bool)
    requires SelectsExactly(mark, chosen)
    ensures AllDemoted(entities, MarkEverywhere(entities, mark, registryGeneration), chosen, mark.to, mark.reason)
  {
    hide EntriesDemoted, MarkAll, Materialize, SelectsExactly;
    forall e | e in entities
      ensures EntriesDemoted(entities[e].capabilities, MarkAll(entities[e], mark).capabilities, chosen, mark.to,
                             mark.reason)
    {
      MarkedEntriesAreDemoted(entities[e], mark, chosen);
    }
  }

  /** An epoch advance makes the current process-bound records wait for revalidation, and nothing else. */
  lemma AdvanceDemotesExactly(env: Environment, st: State, boots: seq<Id>, reason: Id)
    ensures AllDemoted(st.entities, AdvanceEpoch(env, st, boots, reason).entities, CurrentProcess(),
                       AwaitingRevalidation, reason)
  {
    hide AllDemoted, FenceListed, MarkEverywhere;
    MarkedEverywhereIsDemoted(st.entities, EpochMark(reason), st.registryGeneration, CurrentProcess());
  }

  /** A fence that is not refused fences the current process-bound records of its boot, and nothing else. */
  lemma FenceDemotesExactly(env: Environment, st: State, boot: Id, owner: Id, reason: Id)
    requires boot !in st.fencedBoots && FenceWorkerBoot(env, st, boot, owner, reason).1 == None
    ensures AllDemoted(st.entities, FenceWorkerBoot(env, st, boot, owner, reason).0.entities, CurrentProcessOf(boot),
                       Fenced, reason)
  {
    hide AllDemoted, MarkEverywhere, FirstEvictable;
    MarkedEverywhereIsDemoted(st.entities, BootMark(boot, reason), st.registryGeneration, CurrentProcessOf(boot));
  }

  /** Invalidating an entity makes its current records wait for revalidation, durable ones too. */
  lemma InvalidationDemotesExactly(st: State, id: Id, generation: nat, reason: Id)
    requires InvalidateEntity(st, id, generation, reason).1 == None
    ensures var after := InvalidateEntity(st, id, generation, reason).0;
            && id in st.entities && after.entities.Keys == st.entities.Keys
            && EntriesDemoted(st.entities[id].capabilities, after.entities[id].capabilities, AnyCurrent(),
                              AwaitingRevalidation, reason)
            && forall e :: e in st.entities && e != id ==> after.entities[e] == st.entities[e]
  {
    hide EntriesDemoted, MarkEntry, Materialize, SeemsChanged;
    MarkedEntriesAreDemoted(st.entities[id], EntityMark(reason), AnyCurrent());
  }

  /** Invalidating a source makes its current records wait for revalidation, in every entity. */
  lemma SourceInvalidationDemotesExactly(st: State, source: Id, reason: Id)
    requires source != 0
    ensures AllDemoted(st.entities, InvalidateSource(st, source, reason).0.entities, CurrentFrom(source),
                       AwaitingRevalidation, reason)
  {
    hide EntriesDemoted, MarkAll, Materialize, AnyCapabilities;
    var mark := SourceMark(source, reason);
    forall e | e in st.entities
      ensures EntriesDemoted(st.entities[e].capabilities,
                             MarkSource(st.entities[e], mark, st.registryGeneration).capabilities, CurrentFrom(source),
                             AwaitingRevalidation, reason)
    {
      MarkedEntriesAreDemoted(st.entities[e], mark, CurrentFrom(source));
      NoCapabilitiesNoEntries(st.entities[e], mark);
    }
  }

  lemma NoCapabilitiesNoEntries(entity: Entity, mark: Mark)
    ensures entity.capabilities == map[] ==> MarkAll(entity, mark).capabilities == map[]
  {
  }

  // ----- what becomes of the answers -----

  /** A current member of the strongest class that was not chosen. */
  ghost predicate StillVotes(r: Record, before: seq<Record>, chosen: Record -> bool) {
    r in before && Contends(r, before) && r.currentness.Current? && !chosen(r)
  }

  ghost predicate LeftLeads(w: Record, before: seq<Record>, chosen: Record -> bool) {
    StillVotes(w, before, chosen) && forall r :: StillVotes(r, before, chosen) ==> NotBehind(w, r)
  }

  ghost predicate LeftAgree(w: Record, before: seq<Record>, chosen: Record -> bool) {
    forall r :: StillVotes(r, before, chosen) ==> AgreeOn(r, w)
  }

  ghost predicate RestDecides(r: Resolution, w: Record, before: seq<Record>, chosen: Record -> bool) {
    && LeftLeads(w, before, chosen) && SpokenBy(r, w)
    && if LeftAgree(w, before, chosen) then r.state == w.claim.state && r.value == w.claim.value
       else r.state == Conflicted && r.value == Absent
  }

  /** The answer once the chosen records are demoted: unknown exactly without a retained record,
      revalidation when no member of the strongest class is left, otherwise what the rest say. */
  ghost predicate AnsweredByRest(r: Resolution, before: seq<Record>, chosen: Record -> bool) {
    if !exists x :: x in before && Retained(x) then r.state == Unknown && r.value == Absent && r.winner == None
    else if !exists x :: StillVotes(x, before, chosen) then r.state == RevalidationRequired
    else exists w :: RestDecides(r, w, before, chosen)
  }

  lemma RetainedStays(before: seq<Record>, after: seq<Record>, chosen: Record -> bool, to: Currentness, reason: Id)
    requires ListDemoted(before, after, chosen, to, reason) && (to.AwaitingRevalidation? || to.Fenced?)
    requires forall r :: chosen(r) ==> r.currentness.Current?
    ensures forall i :: 0 <= i < |before| ==> (Retained(after[i]) <==> Retained(before[i]))
    ensures forall i :: 0 <= i < |before| ==> after[i].claim.provenance == before[i].claim.provenance
    ensures forall i :: 0 <= i < |before| ==>
              (after[i].currentness.Current? <==> before[i].currentness.Current? && !chosen(before[i]))
    ensures (exists x :: x in before && Retained(x)) <==> (exists x :: x in after && Retained(x))
  {
    if x :| x in before && Retained(x) {
      var i :| 0 <= i < |before| && before[i] == x;
      assert after[i] in after && Retained(after[i]);
    }
    if x :| x in after && Retained(x) {
      var i :| 0 <= i < |after| && after[i] == x;
      assert before[i] in before && Retained(before[i]);
    }
  }

  lemma ContendersStay(before: seq<Record>, after: seq<Record>, chosen: Record -> bool, to: Currentness, reason: Id,
                       i: nat)
    requires ListDemoted(before, after, chosen, to, reason) && (to.AwaitingRevalidation? || to.Fenced?)
    requires forall r :: chosen(r) ==> r.currentness.Current?
    requires i < |before|
    ensures Contends(after[i], after) <==> Contends(before[i], before)
  {
    RetainedStays(before, after, chosen, to, reason);
    if Contends(before[i], before) {
      forall x | x in after && Retained(x) ensures after[i].claim.provenance <= x.claim.provenance {
        var j :| 0 <= j < |after| && after[j] == x;
        assert before[j] in before && Retained(before[j]);
      }
    }
    if Contends(after[i], after) {
      forall x | x in before && Retained(x) ensures before[i].claim.provenance <= x.claim.provenance {
        var j :| 0 <= j < |before| && before[j] == x;
        assert after[j] in after && Retained(after[j]);
      }
    }
  }

  lemma VotersLeft(before: seq<Record>, after: seq<Record>, chosen: Record -> bool, to: Currentness, reason: Id)
    requires ListDemoted(before, after, chosen, to, reason) && (to.AwaitingRevalidation? || to.Fenced?)
    requires forall r :: chosen(r) ==> r.currentness.Current?
    ensures forall r :: StillVotes(r, before, chosen) <==> r in after && Contends(r, after) && r.currentness.Current?
  {
    hide Contends, Retained;
    RetainedStays(before, after, chosen, to, reason);
    forall i | 0 <= i < |before| ensures Contends(after[i], after) <==> Contends(before[i], before) {
      ContendersStay(before, after, chosen, to, reason, i);
    }
    forall r | StillVotes(r, before, chosen) ensures r in after && Contends(r, after) {
      var i :| 0 <= i < |before| && before[i] == r;
      assert after[i] == r;
    }
    forall r | r in after && Contends(r, after) && r.currentness.Current? ensures StillVotes(r, before, chosen) {
      var i :| 0 <= i < |after| && after[i] == r;
      assert before[i] == r && before[i] in before;
    }
  }

  /** A resolution of the demoted list answers what the records left say. */
  lemma DemotedAnswer(before: seq<Record>, after: seq<Record>, chosen: Record -> bool, to: Currentness, reason: Id,
                      r: Resolution, capability: Id, generation: nat)
    requires ListDemoted(before, after, chosen, to, reason) && (to.AwaitingRevalidation? || to.Fenced?)
    requires forall x :: chosen(x) ==> x.currentness.Current?
    requires Resolved(r, capability, generation, after)
    ensures AnsweredByRest(r, before, chosen)
  {
    hide Contends, Retained, ListDemoted, CountsMatch, AgreeOn, NotBehind, NamesConflict, StillVotes;
    RetainedStays(before, after, chosen, to, reason);
    VotersLeft(before, after, chosen, to, reason);
    if exists x :: x in before && Retained(x) {
      var w :| Speaks(w, after) && DecidedFor(r, w, after);
      assert Votes(w, after);
      if x :| StillVotes(x, before, chosen) {
        assert HasCurrentContender(after);
        assert forall y :: Votes(y, after) <==> StillVotes(y, before, chosen);
        assert LeftLeads(w, before, chosen) && (LeftAgree(w, before, chosen) <==> VotesAgree(w, after));
        assert RestDecides(r, w, before, chosen);
      } else {
        assert !w.currentness.Current?;
      }
    }
  }

  /** The cached resolution of an entity's capability answers what the records left say. */
  ghost predicate AnswersFromRest(before: State, after: State, e: Id, c: Id, chosen: Record -> bool) {
    && e in before.entities && c in before.entities[e].capabilities
    && e in after.entities && c in after.entities[e].capabilities
    && AnsweredByRest(ResolutionOf(c, after.entities[e].capabilities[c]), before.entities[e].capabilities[c].evidence,
                      chosen)
  }

  lemma StateAnswersFromRest(env: Environment, before: State, after: State, e: Id, c: Id, chosen: Record -> bool,
                             to: Currentness, reason: Id)
    requires StateOk(env, after) && e in before.entities && c in before.entities[e].capabilities
    requires e in after.entities
    requires EntriesDemoted(before.entities[e].capabilities, after.entities[e].capabilities, chosen, to, reason)
    requires to.AwaitingRevalidation? || to.Fenced?
    requires forall x :: chosen(x) ==> x.currentness.Current?
    ensures AnswersFromRest(before, after, e, c, chosen)
  {
    hide Resolved, AnsweredByRest, EvidenceOk, RecordOk, ListDemoted, Resolve;
    var entry := after.entities[e].capabilities[c];
    assert EntityOk(ContextOf(env, after), e, after.entities[e]);
    assert EntryOk(ContextOf(env, after), after.entities[e], c, entry);
    assert EntryDemoted(before.entities[e].capabilities[c], entry, chosen, to, reason);
    SyncedIsResolved(c, entry);
    DemotedAnswer(before.entities[e].capabilities[c].evidence, entry.evidence, chosen, to, reason,
                  entry.resolution.value, c, entry.generation);
  }

  /** After an epoch advance the durable current members of the strongest class decide; a capability
      with a retained record is never forgotten, and without such a member it needs revalidation. */
  lemma AdvancedAnswer(env: Environment, st: State, boots: seq<Id>, reason: Id, e: Id, c: Id)
    requires env.Valid() && StateOk(env, st) && ListsBoots(st, boots)
    requires e in st.entities && c in st.entities[e].capabilities
    ensures AnswersFromRest(st, AdvanceEpoch(env, st, boots, reason), e, c, CurrentProcess())
  {
    hide StateOk, EntriesDemoted, AnswersFromRest, AdvanceEpoch;
    PerformKeepsState(env, st, Advance(boots, reason));
    AdvanceDemotesExactly(env, st, boots, reason);
    StateAnswersFromRest(env, st, AdvanceEpoch(env, st, boots, reason), e, c, CurrentProcess(), AwaitingRevalidation,
                         reason);
  }

  /** After a fence the current members of the strongest class decide but those of a process of the boot. */
  lemma FencedAnswer(env: Environment, st: State, boot: Id, owner: Id, reason: Id, e: Id, c: Id)
    requires env.Valid() && StateOk(env, st) && OwnerOf(st, boot, owner)
    requires boot !in st.fencedBoots && FenceWorkerBoot(env, st, boot, owner, reason).1 == None
    requires e in st.entities && c in st.entities[e].capabilities
    ensures AnswersFromRest(st, FenceWorkerBoot(env, st, boot, owner, reason).0, e, c, CurrentProcessOf(boot))
  {
    hide StateOk, EntriesDemoted, AnswersFromRest, FenceWorkerBoot, OwnerOf;
    PerformKeepsState(env, st, FenceBoot(boot, owner, reason));
    FenceDemotesExactly(env, st, boot, owner, reason);
    StateAnswersFromRest(env, st, FenceWorkerBoot(env, st, boot, owner, reason).0, e, c, CurrentProcessOf(boot), Fenced,
                         reason);
  }

  /** After an entity is invalidated each of its capabilities with a retained record needs revalidation. */
  lemma InvalidatedAnswer(env: Environment, st: State, id: Id, generation: nat, reason: Id, c: Id)
    requires env.Valid() && StateOk(env, st) && InvalidateEntity(st, id, generation, reason).1 == None
    requires c in st.entities[id].capabilities
    ensures var after := InvalidateEntity(st, id, generation, reason).0;
            var evidence := st.entities[id].capabilities[c].evidence;
            && id in after.entities && c in after.entities[id].capabilities
            && ResolutionOf(c, after.entities[id].capabilities[c]).state ==
               if exists x :: x in evidence && Retained(x) then RevalidationRequired else Unknown
  {
    hide StateOk, EntriesDemoted, InvalidateEntity;
    PerformKeepsState(env, st, Invalidate(id, generation, reason));
    InvalidationDemotesExactly(st, id, generation, reason);
    StateAnswersFromRest(env, st, InvalidateEntity(st, id, generation, reason).0, id, c, AnyCurrent(),
                         AwaitingRevalidation, reason);
  }

  /** After a source is invalidated the current members of the strongest class from other sources decide. */
  lemma SourceInvalidatedAnswer(env: Environment, st: State, source: Id, reason: Id, e: Id, c: Id)
    requires env.Valid() && StateOk(env, st) && source != 0
    requires e in st.entities && c in st.entities[e].capabilities
    ensures AnswersFromRest(st, InvalidateSource(st, source, reason).0, e, c, CurrentFrom(source))
  {
    hide StateOk, EntriesDemoted, AnswersFromRest, InvalidateSource;
    PerformKeepsState(env, st, InvalidateSourceEvidence(source, reason));
    SourceInvalidationDemotesExactly(st, source, reason);
    StateAnswersFromRest(env, st, InvalidateSource(st, source, reason).0, e, c, CurrentFrom(source),
                         AwaitingRevalidation, reason);
  }

  /** An epoch advance never turns a retained claim into ignorance: the answer is Unknown afterwards
      only where nothing was retained, or where durable evidence that stays current says so. */
  lemma AdvanceForgetsNothing(env: Environment, st: State, boots: seq<Id>, reason: Id, e: Id, c: Id)
    requires env.Valid() && StateOk(env, st) && ListsBoots(st, boots)
    requires e in st.entities && c in st.entities[e].capabilities
    requires var after := AdvanceEpoch(env, st, boots, reason);
             ResolutionOf(c, after.entities[e].capabilities[c]).state.Unknown?
    ensures var evidence := st.entities[e].capabilities[c].evidence;
            || (forall x :: x in evidence ==> !Retained(x))
            || exists w :: w in evidence && w.currentness.Current? && w.claim.durability.Durable?
                           && w.claim.state.Unknown?
  {
    hide StateOk, AdvanceEpoch, Retained, Contends;
    AdvancedAnswer(env, st, boots, reason, e, c);
  }
}
