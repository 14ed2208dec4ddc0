/** What a committed publication leaves of the evidence of its entity, capability by capability and
    in each mode: which records of other sources stay, and what becomes of the source's own. */
module PublishedEvidence {
  import opened Sequences
  import opened Values
  import opened Evidence
  import opened ResolutionRules
  import opened RegistryState
  import opened EvidenceInvariant
  import opened RegistrySteps
  import opened RegistryInvariant
  import opened Publications
  import opened Winners
  import opened Authority
  import opened Admission

  // ----- what a publication says of one capability -----

  /** What becomes of the source's own record of a capability. */
  datatype Own = Kept | Gone | Said(claim: Claim)

  /** An exclusive full enumeration that does not name the capability reports it absent, if its absence
      means something and its namespace is the scope's. */
  ghost predicate ReportsAbsent(env: Environment, grant: Grant, request: Request, c: Id) {
    && request.mode == FullSnapshot && grant.exclusive && request.coverage == FullEnumeration
    && CoversCapability(env, grant, c)
    && (exists d :: d in env.descriptors && d.id == c && d.absenceIsNegative)
    && forall claim :: claim in request.claims ==> claim.capability != c
  }

  /** The claim of an absence: denied without a value, as strong as the first claim, or as the grant
      allows when there is none. */
  function AbsenceOf(grant: Grant, request: Request, c: Id): Claim {
    var none := |request.claims| == 0;
    Claim(c, Unsupported, Absent, if none then grant.strongest else request.claims[0].provenance,
          if none then HardwareEnumeration else request.claims[0].sourceClass, ProcessBound, FullEnumeration, 0, 0,
          request.reason)
  }

  /** What one edit does to the record of a capability; only the first edit that supersedes the source counts. */
  function EditOn(c: Id, edit: Edit, superseded: bool, own: Own): Own {
    if edit.operation == SupersedeSourceEvidence then (if superseded then own else Gone)
    else if edit.capability != c then own
    else if edit.operation == WithdrawClaim then Gone
    else Said(ClaimOf(edit))
  }

  function EditsOn(c: Id, edits: seq<Edit>, superseded: bool, own: Own): Own
    decreases |edits|
  {
    if |edits| == 0 then own
    else EditsOn(c, edits[1..], superseded || edits[0].operation == SupersedeSourceEvidence,
                 EditOn(c, edits[0], superseded, own))
  }

  /** What the publication makes of the source's own record of c. */
  ghost predicate Makes(env: Environment, grant: Grant, request: Request, c: Id, own: Own) {
    if request.mode == Incremental then own == EditsOn(c, request.edits, false, Kept)
    else if exists claim :: claim in request.claims && claim.capability == c then
      exists claim :: claim in request.claims && claim.capability == c
                      && own == Said(claim.(coverage := request.coverage))
    else if ReportsAbsent(env, grant, request, c) then own == Said(AbsenceOf(grant, request, c))
    else own == if request.mode == FullSnapshot then Gone else Kept
  }

  // ----- what it leaves -----

  ghost function RetainedIn(evidence: seq<Record>): set<Record> {
    set r | r in evidence && Retained(r)
  }

  ghost function OwnIn(evidence: seq<Record>, key: SourceKey): set<Record> {
    set r | r in evidence && Retained(r) && r.key == key
  }

  /** The records of other sources that stay: all of them, but for a snapshot of an exclusive scope only
      those that are durable or of the publishing instance itself. */
  ghost function Beside(grant: Grant, request: Request, evidence: seq<Record>): set<Record> {
    set r | r in evidence && Retained(r) && r.key != SourceKey(request.source, request.boot)
            && (request.mode == FullSnapshot && grant.exclusive ==>
                  r.claim.durability == Durable || (r.publisher == request.publisher && r.key.boot == request.boot))
  }

  ghost predicate GenerationsBelow(evidence: seq<Record>, key: SourceKey, generation: nat) {
    forall r :: r in evidence && r.key == key ==> r.evidenceGeneration < generation
  }

  /** A current record of the publication, for this claim, newer than any the source had here. */
  ghost predicate NewFor(epoch: nat, request: Request, before: seq<Record>, claim: Claim, r: Record) {
    && r == Record(SourceKey(request.source, request.boot), request.publisher, request.scope, epoch,
                   request.sourceGeneration, r.evidenceGeneration, request.attempt, request.publication,
                   request.entity, request.entityGeneration, claim, Current)
    && GenerationsBelow(before, r.key, r.evidenceGeneration)
  }

  /** The retained records after: those beside, and the source's own as the publication makes it. */
  ghost predicate Leaves(epoch: nat, grant: Grant, request: Request, before: seq<Record>, after: seq<Record>,
                         own: Own) {
    var key := SourceKey(request.source, request.boot);
    match own
    case Kept => RetainedIn(after) == Beside(grant, request, before) + OwnIn(before, key)
    case Gone => RetainedIn(after) == Beside(grant, request, before)
    case Said(claim) =>
      exists r :: NewFor(epoch, request, before, claim, r)
                  && RetainedIn(after) == Beside(grant, request, before) + {r}
  }

  lemma RetainedIsLive(evidence: seq<Record>)
    ensures RetainedIn(evidence) == LiveSet(evidence)
  {
  }

  lemma OwnAndOthers(evidence: seq<Record>, key: SourceKey)
    ensures RetainedIn(evidence) == LiveExcept(evidence, key) + OwnIn(evidence, key)
  {
  }

  // ----- claims -----

  lemma ClaimedLeaves(epoch: nat, limit: nat, grant: Grant, request: Request, start: Entity, base: Entity,
                      after: Entity,
                      claim: Claim)
    requires ClaimTook(limit, AuthorOf(epoch, request), base, after, claim, request.reason)
    requires base.id == request.entity && base.bound == request.entityGeneration
    requires LiveExcept(EntryOf(base, claim.capability).evidence, request.Key()) ==
             Beside(grant, request, EntryOf(start, claim.capability).evidence)
    requires SameGenerations(EntryOf(start, claim.capability).evidence, EntryOf(base, claim.capability).evidence)
    ensures Leaves(epoch, grant, request, EntryOf(start, claim.capability).evidence,
                   EntryOf(after, claim.capability).evidence, Said(claim))
  {
    hide Beside, LiveExcept, Appended, LiveSet;
    var c, author := claim.capability, AuthorOf(epoch, request);
    var entry, before := EntryOf(base, c), EntryOf(start, c).evidence;
    ClaimedLiveSet(limit, author, base, entry, claim, request.reason);
    var r := RecordFor(author, base, entry, claim);
    RetainedIsLive(EntryOf(after, c).evidence);
    forall x | x in before && x.key == r.key ensures x.evidenceGeneration < r.evidenceGeneration {
      var y :| y in entry.evidence && y.key == x.key && y.evidenceGeneration == x.evidenceGeneration;
    }
    assert NewFor(epoch, request, before, claim, r);
  }

  /** Every record of the first list has one of its source and generation in the second. */
  ghost predicate SameGenerations(a: seq<Record>, b: seq<Record>) {
    forall x :: x in a ==> exists y :: y in b && y.key == x.key && y.evidenceGeneration == x.evidenceGeneration
  }

  lemma MarkKeepsGenerations(capability: Id, entry: Entry, mark: Mark)
    ensures SameGenerations(entry.evidence, MarkEntry(capability, entry, mark).evidence)
  {
    hide Resolve, Selects;
    var marked := MarkEntry(capability, entry, mark).evidence;
    forall x | x in entry.evidence
      ensures exists y :: y in marked && y.key == x.key && y.evidenceGeneration == x.evidenceGeneration
    {
      var i :| 0 <= i < |entry.evidence| && entry.evidence[i] == x;
      assert marked[i].key == x.key && marked[i].evidenceGeneration == x.evidenceGeneration && marked[i] in marked;
    }
  }

  lemma GenerationsCompose(a: seq<Record>, b: seq<Record>, c: seq<Record>)
    requires SameGenerations(a, b) && SameGenerations(b, c)
    ensures SameGenerations(a, c)
  {
    forall x | x in a ensures exists y :: y in c && y.key == x.key && y.evidenceGeneration == x.evidenceGeneration {
      var y :| y in b && y.key == x.key && y.evidenceGeneration == x.evidenceGeneration;
    }
  }

  lemma ClearKeepsGenerations(entity: Entity, grant: Grant, request: Request, c: Id)
    ensures SameGenerations(EntryOf(entity, c).evidence, EntryOf(ClearForSnapshot(entity, grant, request), c).evidence)
  {
    hide MarkEntry, SameGenerations;
    SelfGenerations(EntryOf(entity, c).evidence);
    if c in entity.capabilities {
      var entry := entity.capabilities[c];
      var others := Mark(LiveProcessBoundOfOthers(request.Instance()), Superseded, request.reason);
      var own := Mark(LiveOf(request.Key()), Superseded, request.reason);
      var first := if grant.exclusive then MarkEntry(c, entry, others) else entry;
      MarkKeepsGenerations(c, entry, others);
      MarkKeepsGenerations(c, first, own);
      GenerationsCompose(entry.evidence, first.evidence, MarkEntry(c, first, own).evidence);
    }
  }

  lemma SelfGenerations(evidence: seq<Record>)
    ensures SameGenerations(evidence, evidence)
  {
  }

  // ----- snapshots -----

  lemma SurvivorsAreBeside(grant: Grant, request: Request, evidence: seq<Record>)
    requires request.mode.FullSnapshot?
    ensures Survivors(grant, request, evidence) == Beside(grant, request, evidence)
  {
  }

  lemma ClearedIsBeside(entity: Entity, grant: Grant, request: Request, c: Id)
    requires request.mode.FullSnapshot?
    ensures var cleared := EntryOf(ClearForSnapshot(entity, grant, request), c).evidence;
            LiveSet(cleared) == Beside(grant, request, EntryOf(entity, c).evidence)
            && LiveExcept(cleared, request.Key()) == LiveSet(cleared)
  {
    hide MarkEntry;
    SurvivorsAreBeside(grant, request, EntryOf(entity, c).evidence);
    if c in entity.capabilities {
      ClearedLiveSet(entity, grant, request, c);
    }
  }

  lemma {:induction false} AbsentExactly(env: Environment, grant: Grant, claims: seq<Claim>,
                                         descriptors: seq<Descriptor>, c: Id)
    ensures c in AbsentCapabilities(env, grant, claims, descriptors) <==>
              && CoversCapability(env, grant, c)
              && (exists d :: d in descriptors && d.id == c && d.absenceIsNegative)
              && forall claim :: claim in claims ==> claim.capability != c
  {
    if descriptors != [] {
      var n := |descriptors| - 1;
      assert descriptors == descriptors[..n] + [descriptors[n]];
      AbsentExactly(env, grant, claims, descriptors[..n], c);
      assert (exists d :: d in descriptors && d.id == c && d.absenceIsNegative) <==>
             (exists d :: d in descriptors[..n] && d.id == c && d.absenceIsNegative)
             || (descriptors[n].id == c && descriptors[n].absenceIsNegative);
    }
  }

  /** The claims of a snapshot, by capability. */
  lemma SnapshotSays(env: Environment, grant: Grant, request: Request, c: Id)
    requires request.mode.FullSnapshot?
    ensures forall own :: Makes(env, grant, request, c, own) ==>
              if own.Said? then own.claim in SnapshotClaims(env, grant, request) && own.claim.capability == c
              else own.Gone? && !Mentions(SnapshotClaims(env, grant, request), c)
  {
    hide AbsentCapabilities, CoversCapability;
    AbsentExactly(env, grant, request.claims, env.descriptors, c);
    var given, implied := Covered(request.claims, request.coverage), AbsenceClaims(env, grant, request);
    var ids := AbsentCapabilities(env, grant, request.claims, env.descriptors);
    forall i | 0 <= i < |request.claims|
      ensures request.claims[i].(coverage := request.coverage) in given && request.claims[i] in request.claims
    {
      assert given[i] == request.claims[i].(coverage := request.coverage);
    }
    if ReportsAbsent(env, grant, request, c) {
      var i :| 0 <= i < |ids| && ids[i] == c;
      assert implied[i] == AbsenceOf(grant, request, c);
    }
    forall claim | claim in given && claim.capability == c
      ensures exists x :: x in request.claims && x.capability == c
    {
      var i :| 0 <= i < |given| && given[i] == claim;
      assert request.claims[i] in request.claims;
    }
    forall claim | claim in implied && claim.capability == c ensures ReportsAbsent(env, grant, request, c) {
      var i :| 0 <= i < |ids| && implied[i] == claim;
      assert ids[i] in ids;
    }
  }

  lemma SnapshotLeaves(env: Environment, epoch: nat, grant: Grant, start: Entity, request: Request, c: Id, own: Own)
    requires env.Valid() && request.mode.FullSnapshot? && DistinctCapabilities(request.claims)
    requires ApplyRequest(env, epoch, grant, start, request).error == None
    requires start.id == request.entity && start.bound == request.entityGeneration
    requires Makes(env, grant, request, c, own)
    ensures Leaves(epoch, grant, request, EntryOf(start, c).evidence,
                   EntryOf(ApplyRequest(env, epoch, grant, start, request).entity, c).evidence, own)
  {
    hide ApplyRequest, ClaimTook, ClearForSnapshot, LiveExcept, LiveSet, Beside, SnapshotClaims, Makes, MarkEntry,
      SameGenerations;
    var after := ApplyRequest(env, epoch, grant, start, request).entity;
    var cleared := ClearForSnapshot(start, grant, request);
    SnapshotEffect(env, epoch, grant, start, request);
    SnapshotSays(env, grant, request, c);
    ClearedIsBeside(start, grant, request, c);
    ClearKeepsGenerations(start, grant, request, c);
    ClearKeepsIdentity(start, grant, request);
    if own.Said? {
      ClaimedLeaves(epoch, env.options.maxEvidence, grant, request, start, cleared, after, own.claim);
    } else {
      assert Untouched(cleared, after, c);
      RetainedIsLive(EntryOf(after, c).evidence);
    }
  }

  lemma ClearKeepsIdentity(entity: Entity, grant: Grant, request: Request)
    ensures ClearForSnapshot(entity, grant, request).id == entity.id
    ensures ClearForSnapshot(entity, grant, request).bound == entity.bound
  {
  }

  // ----- partial observations -----

  lemma ObservationSays(env: Environment, grant: Grant, request: Request, c: Id)
    requires request.mode.PartialObservation?
    ensures forall own :: Makes(env, grant, request, c, own) ==>
              if own.Said? then own.claim in Covered(request.claims, request.coverage) && own.claim.capability == c
              else own.Kept? && !Mentions(Covered(request.claims, request.coverage), c)
  {
    hide CoversCapability;
    var given := Covered(request.claims, request.coverage);
    forall i | 0 <= i < |request.claims|
      ensures request.claims[i].(coverage := request.coverage) in given && request.claims[i] in request.claims
    {
      assert given[i] == request.claims[i].(coverage := request.coverage);
    }
    forall claim | claim in given && claim.capability == c
      ensures exists x :: x in request.claims && x.capability == c
    {
      var i :| 0 <= i < |given| && given[i] == claim;
      assert request.claims[i] in request.claims;
    }
  }

  lemma OthersAreBeside(grant: Grant, request: Request, evidence: seq<Record>)
    requires !request.mode.FullSnapshot?
    ensures LiveExcept(evidence, request.Key()) == Beside(grant, request, evidence)
  {
  }

  lemma ObservationLeaves(env: Environment, epoch: nat, grant: Grant, start: Entity, request: Request, c: Id, own: Own)
    requires env.Valid() && request.mode.PartialObservation? && DistinctCapabilities(request.claims)
    requires ApplyRequest(env, epoch, grant, start, request).error == None
    requires start.id == request.entity && start.bound == request.entityGeneration
    requires Makes(env, grant, request, c, own)
    ensures Leaves(epoch, grant, request, EntryOf(start, c).evidence,
                   EntryOf(ApplyRequest(env, epoch, grant, start, request).entity, c).evidence, own)
  {
    hide ApplyClaims, ClaimTook, LiveExcept, LiveSet, Beside, Makes, OwnIn, RetainedIn;
    var claims, author := Covered(request.claims, request.coverage), AuthorOf(epoch, request);
    var after := ApplyRequest(env, epoch, grant, start, request).entity;
    assert DistinctCapabilities(claims);
    ApplyClaimsEffect(env.options, author, start, claims, request.reason);
    ObservationSays(env, grant, request, c);
    OthersAreBeside(grant, request, EntryOf(start, c).evidence);
    SelfGenerations(EntryOf(start, c).evidence);
    if own.Said? {
      ClaimedLeaves(epoch, env.options.maxEvidence, grant, request, start, start, after, own.claim);
    } else {
      assert Untouched(start, after, c);
      OwnAndOthers(EntryOf(start, c).evidence, request.Key());
    }
  }

  // ----- incremental edits -----

  lemma {:induction false} LaterEditsDecide(c: Id, edits: seq<Edit>, superseded: bool, own: Own)
    ensures EditsOn(c, edits, superseded, own) ==
            if EditsOn(c, edits, superseded, Kept).Kept? then own else EditsOn(c, edits, superseded, Kept)
    decreases |edits|
  {
    if |edits| > 0 {
      var next := superseded || edits[0].operation == SupersedeSourceEvidence;
      LaterEditsDecide(c, edits[1..], next, EditOn(c, edits[0], superseded, own));
      LaterEditsDecide(c, edits[1..], next, EditOn(c, edits[0], superseded, Kept));
    }
  }

  lemma WithdrawnLeaves(epoch: nat, grant: Grant, request: Request, capability: Id, entry: Entry)
    requires !request.mode.FullSnapshot?
    ensures var mark := Mark(LiveOf(request.Key()), Superseded, request.reason);
            Leaves(epoch, grant, request, entry.evidence, MarkEntry(capability, entry, mark).evidence, Gone)
  {
    hide LiveSet, Live;
    var mark := Mark(LiveOf(request.Key()), Superseded, request.reason);
    var after := MarkEntry(capability, entry, mark).evidence;
    MarkedEntryLiveSet(capability, entry, mark);
    RetainedIsLive(entry.evidence);
    RetainedIsLive(after);
    RetainedIsLiveRecord();
  }

  lemma RetainedIsLiveRecord()
    ensures forall r :: Retained(r) <==> Live(r)
  {
  }

  lemma UnchangedLeaves(epoch: nat, grant: Grant, request: Request, evidence: seq<Record>)
    requires !request.mode.FullSnapshot?
    ensures Leaves(epoch, grant, request, evidence, evidence, Kept)
  {
    OthersAreBeside(grant, request, evidence);
    OwnAndOthers(evidence, request.Key());
  }

  /** One edit, on one capability. */
  lemma EditLeaves(options: Options, epoch: nat, grant: Grant, entity: Entity, edit: Edit, request: Request,
                   superseded: bool, c: Id)
    requires !request.mode.FullSnapshot?
    requires entity.id == request.entity && entity.bound == request.entityGeneration
    requires ApplyEdit(options, AuthorOf(epoch, request), entity, edit, request.reason, superseded).error == None
    ensures var after := ApplyEdit(options, AuthorOf(epoch, request), entity, edit, request.reason, superseded).entity;
            && after.id == entity.id && after.bound == entity.bound
            && Leaves(epoch, grant, request, EntryOf(entity, c).evidence, EntryOf(after, c).evidence,
                      EditOn(c, edit, superseded, Kept))
            && (!EditOn(c, edit, superseded, Kept).Said? ==>
                  SameGenerations(EntryOf(entity, c).evidence, EntryOf(after, c).evidence))
  {
    hide Leaves, MarkEntry, ClaimedEntry, Displaced, SameGenerations, Crowded;
    var author, evidence := AuthorOf(epoch, request), EntryOf(entity, c).evidence;
    var mark := Mark(LiveOf(request.Key()), Superseded, request.reason);
    UnchangedLeaves(epoch, grant, request, evidence);
    SelfGenerations(evidence);
    match edit.operation
    case WithdrawClaim =>
      if c == edit.capability {
        WithdrawnLeaves(epoch, grant, request, c, EntryOf(entity, c));
        MarkKeepsGenerations(c, EntryOf(entity, c), mark);
        NothingToWithdraw(epoch, grant, request);
      }
    case SupersedeSourceEvidence =>
      WithdrawnLeaves(epoch, grant, request, c, EntryOf(entity, c));
      MarkKeepsGenerations(c, EntryOf(entity, c), mark);
      NothingToWithdraw(epoch, grant, request);
    case _ => ClaimingEditLeaves(options, epoch, grant, entity, edit, request, superseded, c);
  }

  lemma NothingToWithdraw(epoch: nat, grant: Grant, request: Request)
    ensures Leaves(epoch, grant, request, [], [], Gone)
  {
  }

  lemma ClaimingEditLeaves(options: Options, epoch: nat, grant: Grant, entity: Entity, edit: Edit, request: Request,
                           superseded: bool, c: Id)
    requires !request.mode.FullSnapshot? && !OnlyRetracts(edit)
    requires entity.id == request.entity && entity.bound == request.entityGeneration
    requires ApplyEdit(options, AuthorOf(epoch, request), entity, edit, request.reason, superseded).error == None
    ensures var after := ApplyEdit(options, AuthorOf(epoch, request), entity, edit, request.reason, superseded).entity;
            && after.id == entity.id && after.bound == entity.bound
            && (c != edit.capability ==> EntryOf(after, c) == EntryOf(entity, c))
            && (c == edit.capability ==>
                  Leaves(epoch, grant, request, EntryOf(entity, c).evidence, EntryOf(after, c).evidence,
                         Said(ClaimOf(edit))))
  {
    hide Leaves, ClaimTook, Displaced, SameGenerations, Beside, LiveExcept, ApplyClaim, Untouched;
    var author := AuthorOf(epoch, request);
    assert EditClaim(edit) == ClaimOf(edit);
    var after := ApplyEdit(options, author, entity, edit, request.reason, superseded).entity;
    assert after == ApplyClaim(options, author, entity, ClaimOf(edit), request.reason).entity;
    ApplyClaimEffect(options, author, entity, ClaimOf(edit), request.reason);
    if c == edit.capability {
      OthersAreBeside(grant, request, EntryOf(entity, c).evidence);
      SelfGenerations(EntryOf(entity, c).evidence);
      ClaimedLeaves(epoch, options.maxEvidence, grant, request, entity, entity, after, ClaimOf(edit));
    } else {
      UntouchedEntry(entity, after, c);
    }
  }

  lemma UntouchedEntry(a: Entity, b: Entity, c: Id)
    requires Untouched(a, b, c)
    ensures EntryOf(b, c) == EntryOf(a, c)
  {
  }

  /** What is left after two steps, from what each leaves. */
  lemma LeavesCompose(epoch: nat, grant: Grant, request: Request, a: seq<Record>, b: seq<Record>, c: seq<Record>,
                      first: Own, second: Own)
    requires !request.mode.FullSnapshot?
    requires Leaves(epoch, grant, request, a, b, first) && Leaves(epoch, grant, request, b, c, second)
    requires !first.Said? ==> SameGenerations(a, b)
    ensures Leaves(epoch, grant, request, a, c, if second.Kept? then first else second)
  {
    BesideStays(epoch, grant, request, a, b, first);
    if second.Kept? {
      OthersAreBeside(grant, request, b);
      OwnAndOthers(b, request.Key());
      assert RetainedIn(c) == RetainedIn(b);
    } else if second.Said? {
      var r :| NewFor(epoch, request, b, second.claim, r) && RetainedIn(c) == Beside(grant, request, b) + {r};
      if first.Said? {
        var x :| NewFor(epoch, request, a, first.claim, x) && RetainedIn(b) == Beside(grant, request, a) + {x};
        assert x in RetainedIn(b);
      } else {
        GenerationsTransfer(a, b, r.key, r.evidenceGeneration);
      }
      assert NewFor(epoch, request, a, second.claim, r);
    }
  }

  lemma GenerationsTransfer(a: seq<Record>, b: seq<Record>, key: SourceKey, generation: nat)
    requires SameGenerations(a, b) && GenerationsBelow(b, key, generation)
    ensures GenerationsBelow(a, key, generation)
  {
  }

  lemma BesideStays(epoch: nat, grant: Grant, request: Request, a: seq<Record>, b: seq<Record>, own: Own)
    requires !request.mode.FullSnapshot? && Leaves(epoch, grant, request, a, b, own)
    ensures Beside(grant, request, b) == Beside(grant, request, a)
  {
    assert Beside(grant, request, b) == set r | r in RetainedIn(b) && r.key != request.Key();
  }

  lemma {:induction false} EditsLeave(options: Options, epoch: nat, grant: Grant, entity: Entity, edits: seq<Edit>,
                                      request: Request, superseded: bool, c: Id)
    requires !request.mode.FullSnapshot?
    requires entity.id == request.entity && entity.bound == request.entityGeneration
    requires ApplyEdits(options, AuthorOf(epoch, request), entity, edits, request.reason, superseded).error == None
    ensures Leaves(epoch, grant, request, EntryOf(entity, c).evidence,
                   EntryOf(ApplyEdits(options, AuthorOf(epoch, request), entity, edits, request.reason,
                                      superseded).entity, c).evidence,
                   EditsOn(c, edits, superseded, Kept))
    decreases |edits|
  {
    hide Leaves, ApplyEdit, SameGenerations, EditOn;
    if |edits| == 0 {
      UnchangedLeaves(epoch, grant, request, EntryOf(entity, c).evidence);
    } else {
      var author := AuthorOf(epoch, request);
      var next := superseded || edits[0].operation == SupersedeSourceEvidence;
      var mid := ApplyEdit(options, author, entity, edits[0], request.reason, superseded).entity;
      var after := ApplyEdits(options, author, entity, edits, request.reason, superseded).entity;
      EditLeaves(options, epoch, grant, entity, edits[0], request, superseded, c);
      EditsLeave(options, epoch, grant, mid, edits[1..], request, next, c);
      LaterEditsDecide(c, edits[1..], next, EditOn(c, edits[0], superseded, Kept));
      LeavesCompose(epoch, grant, request, EntryOf(entity, c).evidence, EntryOf(mid, c).evidence,
                    EntryOf(after, c).evidence, EditOn(c, edits[0], superseded, Kept),
                    EditsOn(c, edits[1..], next, Kept));
    }
  }

  // ----- committed publications -----

  lemma AppliedLeaves(env: Environment, epoch: nat, grant: Grant, start: Entity, request: Request, c: Id, own: Own)
    requires env.Valid() && DistinctCapabilities(request.claims)
    requires ApplyRequest(env, epoch, grant, start, request).error == None
    requires start.id == request.entity && start.bound == request.entityGeneration
    requires Makes(env, grant, request, c, own)
    ensures Leaves(epoch, grant, request, EntryOf(start, c).evidence,
                   EntryOf(ApplyRequest(env, epoch, grant, start, request).entity, c).evidence, own)
  {
    hide Leaves, ApplyClaims, ApplyEdits, ReportsAbsent;
    match request.mode
    case FullSnapshot => SnapshotLeaves(env, epoch, grant, start, request, c, own);
    case PartialObservation => ObservationLeaves(env, epoch, grant, start, request, c, own);
    case Incremental => EditsLeave(env.options, epoch, grant, start, request.edits, request, false, c);
  }

  /** A committed publication leaves of every capability exactly the records it does not displace, and
      of its own source exactly what it says. */
  lemma CommittedLeavesExactly(env: Environment, st: State, request: Request, c: Id, own: Own)
    requires env.Valid() && StateOk(env, st) && Publish(env, st, request).1.Committed?
    requires request.scope in st.authorities && Makes(env, st.authorities[request.scope], request, c, own)
    ensures request.entity in Publish(env, st, request).0.entities
    ensures Leaves(st.epoch, st.authorities[request.scope], request, EntryOf(Found(st, request), c).evidence,
                   EntryOf(Publish(env, st, request).0.entities[request.entity], c).evidence, own)
  {
    hide Publish, StateOk, Admit, ApplyRequest, Makes, Leaves, RequestOk;
    CommittedWasApplied(env, st, request);
    AdmittedRequestIsOk(env, st, request);
    GenerationIsSet(env, st, request);
    LocatedIsFound(env, st, request);
    FoundIdentity(env, st, request);
    AppliedLeaves(env, st.epoch, st.authorities[request.scope], Found(st, request), request, c, own);
  }

  lemma GenerationIsSet(env: Environment, st: State, request: Request)
    requires Admit(env, st, request) == None
    ensures request.entityGeneration >= 1
  {
    AdmittedRequestIsOk(env, st, request);
  }

  lemma FoundIdentity(env: Environment, st: State, request: Request)
    requires StateOk(env, st)
    ensures Found(st, request).id == request.entity && Found(st, request).bound == request.entityGeneration
  {
    hide EntriesOk;
    if Known(st, request) {
      assert EntityOk(ContextOf(env, st), request.entity, st.entities[request.entity]);
    }
  }
}
