/**
 Erasure, the queue, ingestion and the resolver together.  In every reachable
 state the stored opportunities of an organization cite existing claims, or a
 reconcile job for it is still owed.
 */
module Reconciliation {
  import opened Prelude
  import opened Jobs
  import opened QueueRuns
  import opened Resolver
  import opened Evidence
  import opened Opportunities
  import PrivacyRepository

  /** One processing attempt of a job by a worker. */
  datatype Attempt = Attempt(id: JobId, worker: Option<WorkerId>, number: nat)

  function AttemptOf(h: Handle): Attempt { Attempt(h.id, h.leasedBy, h.attemptCount) }

  /** `resolved` records the reconcile attempts whose resolve ran through. */
  datatype System = System(
    world: World, ev: Tables, members: set<Membership>, tables: map<TenantId, Table>, resolved: set<Attempt>)

  const Start := System(Empty, Tables(map[], map[], {}, map[]), {}, map[], {})

  datatype Inputs = Inputs(claims: seq<Claim>, scores: Scores, overrides: seq<Override>, now: int)

  datatype Action =
    | QueueStep(step: Step)
    | SignIn(tenant: TenantId, user: UserId)
    | StageSource(sourceId: SourceId, source: Source, version: VersionId, org: OrgId, contributor: Option<UserId>)
    | CommitClaims(commitTenant: TenantId, commitOrg: OrgId, added: map<ClaimId, Claim>, commitInputs: Inputs)
    | Resolving(resolveTenant: TenantId, resolveOrg: OrgId, inputs: Inputs, rolledBack: bool)
    | Reconciling(handle: Handle, reconcileInputs: Inputs, reconcileRolledBack: bool)
    | Erase(eraseTenant: TenantId, eraseUser: UserId, operation: string, eraseNow: nat)

  // ------------------------------------------------------------- transitions

  /** The claims read for an organization, with scores in 0..1. */
  ghost predicate Reads(ev: Tables, tenant: TenantId, org: OrgId, i: Inputs) {
    && (forall c | c in i.claims :: c.id in ev.claims && ev.claims[c.id] == c && c.tenant == tenant && c.org == org)
    && (forall id | id in i.scores :: 0.0 <= i.scores[id] <= 1.0)
  }

  function TableOf(y: System, tenant: TenantId): Table { if tenant in y.tables then y.tables[tenant] else map[] }

  function Output(org: OrgId, i: Inputs): seq<Opportunity> { Resolve(org, i.claims, i.scores, i.overrides, i.now) }

  predicate Writes(y: System, tenant: TenantId, org: OrgId, i: Inputs) {
    ReplaceSucceeds(TableOf(y, tenant), org, Output(org, i))
  }

  /** The system after a resolve: the new rows, or as far as the inserts got, or nothing when rolled back. */
  function AfterResolve(y: System, tenant: TenantId, org: OrgId, i: Inputs, rolledBack: bool): System {
    if rolledBack then y else y.(tables := y.tables[tenant := Replaced(TableOf(y, tenant), org, Output(org, i))])
  }

  /** Claims written for versions that exist, under their own ids. */
  predicate Fits(ev: Tables, tenant: TenantId, org: OrgId, added: map<ClaimId, Claim>) {
    forall c | c in added ::
      && added[c].id == c && added[c].tenant == tenant && added[c].org == org
      && added[c].version in ev.versions && ev.versions[added[c].version].tenant == tenant && ev.versions[added[c].version].org == org
      && (c in ev.claims ==> ev.claims[c].tenant == tenant && ev.claims[c].org == org)
  }

  function WithClaims(ev: Tables, added: map<ClaimId, Claim>): Tables { ev.(claims := ev.claims + added) }

  /** The organization named by a reconcile payload, if it parses. */
  predicate Parses(h: Handle) {
    "organizationId" in h.payload && h.payload["organizationId"].Str? && h.payload["organizationId"].s != ""
  }

  function OrgOf(h: Handle): OrgId
    requires Parses(h)
  {
    h.payload["organizationId"].s
  }

  ghost function ErasingStep(y: System, a: Action): Step
    requires a.Erase?
  {
    Step(a.eraseNow, Erasing(a.eraseTenant, a.eraseUser, a.operation, PrivacyRepository.Affected(y.ev, a.eraseTenant, a.eraseUser)))
  }

  ghost predicate CanDo(y: System, a: Action) {
    match a
    case QueueStep(s) =>
      && Enabled(y.world, s) && !s.event.Erasing?
      && (s.event.Enqueueing? ==> s.event.input.id.jobType != PrivacyReconcile)
      && (s.event.Completing? && s.event.handle.id.jobType == PrivacyReconcile ==> AttemptOf(s.event.handle) in y.resolved)
    case SignIn(_, _) => true
    case StageSource(s, source, v, org, contributor) =>
      StableIds(y.ev, s, source, v, org) && (contributor.Some? ==> Membership(source.tenant, contributor.value) in y.members)
    case CommitClaims(t, o, added, i) =>
      Fits(y.ev, t, o, added) && Reads(WithClaims(y.ev, added), t, o, i) && Writes(y, t, o, i)
    case Resolving(t, o, i, rolledBack) => Reads(y.ev, t, o, i) && (rolledBack ==> !Writes(y, t, o, i))
    case Reconciling(h, i, rolledBack) =>
      && h in y.world.issued && h.id.jobType == PrivacyReconcile && Parses(h)
      && Reads(y.ev, h.id.tenant, OrgOf(h), i) && (rolledBack ==> !Writes(y, h.id.tenant, OrgOf(h), i))
    case Erase(t, u, _, _) => Membership(t, u) in y.members && Enabled(y.world, ErasingStep(y, a))
  }

  ghost function Do(y: System, a: Action): System
    requires CanDo(y, a)
  {
    match a
    case QueueStep(s) => y.(world := After(y.world, s))
    case SignIn(t, u) => y.(members := y.members + {Membership(t, u)})
    case StageSource(s, source, v, org, contributor) => y.(ev := Stage(y.ev, s, source, v, org, contributor))
    case CommitClaims(t, o, added, i) => AfterResolve(y.(ev := WithClaims(y.ev, added)), t, o, i, false)
    case Resolving(t, o, i, rolledBack) => AfterResolve(y, t, o, i, rolledBack)
    case Reconciling(h, i, rolledBack) =>
      AfterResolve(y, h.id.tenant, OrgOf(h), i, rolledBack)
        .(resolved := if Writes(y, h.id.tenant, OrgOf(h), i) then y.resolved + {AttemptOf(h)} else y.resolved)
    case Erase(t, u, _, _) =>
      y.(world := After(y.world, ErasingStep(y, a)), ev := EraseMember(y.ev, t, u), members := y.members - {Membership(t, u)})
  }

  // --------------------------------------------------------------- invariant

  predicate CitesExisting(o: Opportunity, claims: map<ClaimId, Claim>, tenant: TenantId) {
    forall c | c in o.sourceClaimIds :: c in claims && claims[c].tenant == tenant && claims[c].org == o.org
  }

  predicate CleanTable(table: Table, claims: map<ClaimId, Claim>, tenant: TenantId, org: OrgId) {
    forall id | id in table && table[id].org == org :: CitesExisting(table[id], claims, tenant)
  }

  /** Every stored opportunity of the organization cites claims that exist and belong to it. */
  predicate Clean(y: System, tenant: TenantId, org: OrgId) {
    CleanTable(TableOf(y, tenant), y.ev.claims, tenant, org)
  }

  predicate ReconcilesFor(id: JobId, tenant: TenantId, org: OrgId) {
    id.jobType == PrivacyReconcile && id.tenant == tenant && id.key.PrivacyKey? && id.key.org == org
  }

  /** A reconcile job for the organization that has not succeeded and that no attempt has resolved since it was queued. */
  ghost predicate Owed(y: System, id: JobId, tenant: TenantId, org: OrgId) {
    && ReconcilesFor(id, tenant, org) && id in y.world.queue.rows && y.world.queue.rows[id].status != Succeeded
    && forall a | a in y.resolved :: a.id != id
  }

  ghost predicate CleanOrOwed(y: System, tenant: TenantId, org: OrgId) {
    Clean(y, tenant, org) || exists id :: Owed(y, id, tenant, org)
  }

  predicate PayloadOk(id: JobId, p: Payload) {
    id.jobType == PrivacyReconcile ==> id.key.PrivacyKey? && p == ReconcilePayload(id.key.org)
  }

  ghost predicate BooksOk(y: System) {
    && (forall id | id in y.world.queue.rows :: PayloadOk(id, y.world.queue.rows[id].payload))
    && (forall h | h in y.world.issued :: PayloadOk(h.id, h.payload) && (h.id.jobType == PrivacyReconcile ==> h.id in y.world.queue.rows))
    && (forall a | a in y.resolved :: a.id in y.world.queue.rows && a.id.jobType == PrivacyReconcile)
  }

  ghost predicate Sound(y: System) {
    && TablesOk(y.ev, y.members) && BooksOk(y)
    && forall t: TenantId, o: OrgId :: CleanOrOwed(y, t, o)
  }

  // -------------------------------------------------------------- resolving

  lemma CitedClaimsExist(ev: Tables, tenant: TenantId, org: OrgId, i: Inputs, o: Opportunity)
    requires Reads(ev, tenant, org, i) && WellFounded(o, org, i.claims)
    ensures CitesExisting(o, ev.claims, tenant)
  {
    forall c | c in o.sourceClaimIds
      ensures c in ev.claims && ev.claims[c].tenant == tenant && ev.claims[c].org == org
    {
      assert Cites(i.claims, c);
    }
  }

  lemma ResolveCleans(y: System, tenant: TenantId, org: OrgId, i: Inputs)
    requires Reads(y.ev, tenant, org, i)
    ensures Clean(AfterResolve(y, tenant, org, i, false), tenant, org)
  {
    var y' := AfterResolve(y, tenant, org, i, false);
    var out := Output(org, i);
    ResolvedIsWellFounded(org, i.claims, i.scores, i.overrides, i.now);
    forall id | id in TableOf(y', tenant) && TableOf(y', tenant)[id].org == org
      ensures CitesExisting(TableOf(y', tenant)[id], y.ev.claims, tenant)
    {
      ReplacedRows(TableOf(y, tenant), org, out, id);
      CitedClaimsExist(y.ev, tenant, org, i, TableOf(y', tenant)[id]);
    }
  }

  lemma ResolveKeepsOthers(y: System, tenant: TenantId, org: OrgId, i: Inputs, t: TenantId, o: OrgId)
    requires Reads(y.ev, tenant, org, i) && (t, o) != (tenant, org) && Clean(y, t, o)
    ensures Clean(AfterResolve(y, tenant, org, i, false), t, o)
  {
    var y' := AfterResolve(y, tenant, org, i, false);
    if t == tenant {
      ResolvedIsWellFounded(org, i.claims, i.scores, i.overrides, i.now);
      forall id | id in TableOf(y', t) && TableOf(y', t)[id].org == o
        ensures id in TableOf(y, t) && TableOf(y, t)[id] == TableOf(y', t)[id]
      {
        ReplacedRows(TableOf(y, tenant), org, Output(org, i), id);
      }
    }
  }

  lemma ResolveKeepsCleanOrOwed(y: System, tenant: TenantId, org: OrgId, i: Inputs, rolledBack: bool, t: TenantId, o: OrgId)
    requires Reads(y.ev, tenant, org, i) && CleanOrOwed(y, t, o)
    ensures CleanOrOwed(AfterResolve(y, tenant, org, i, rolledBack), t, o)
  {
    var y' := AfterResolve(y, tenant, org, i, rolledBack);
    if !rolledBack {
      if (t, o) == (tenant, org) {
        ResolveCleans(y, tenant, org, i);
      } else if Clean(y, t, o) {
        ResolveKeepsOthers(y, tenant, org, i, t, o);
      } else {
        var id :| Owed(y, id, t, o);
        assert Owed(y', id, t, o);
      }
    }
  }

  lemma CommitKeepsTables(ev: Tables, members: set<Membership>, tenant: TenantId, org: OrgId, added: map<ClaimId, Claim>)
    requires TablesOk(ev, members) && Fits(ev, tenant, org, added)
    ensures TablesOk(WithClaims(ev, added), members)
  {
  }

  lemma AddingClaimsKeeps(y: System, tenant: TenantId, org: OrgId, added: map<ClaimId, Claim>, t: TenantId, o: OrgId)
    requires Fits(y.ev, tenant, org, added) && CleanOrOwed(y, t, o)
    ensures CleanOrOwed(y.(ev := WithClaims(y.ev, added)), t, o)
  {
    var y' := y.(ev := WithClaims(y.ev, added));
    if Clean(y, t, o) {
      KeptClaimsStayClean(TableOf(y, t), y.ev.claims, y'.ev.claims, t, o);
    } else {
      var id :| Owed(y, id, t, o);
      assert Owed(y', id, t, o);
    }
  }

  /** A successful reconcile cleans its own organization, so marking its attempt costs nobody else their owed job. */
  lemma ReconcilingKeeps(y: System, a: Action, t: TenantId, o: OrgId)
    requires Sound(y) && a.Reconciling? && CanDo(y, a)
    ensures CleanOrOwed(Do(y, a), t, o)
  {
    hide Enabled, Writes, TablesOk, CleanTable;
    var h, y' := a.handle, Do(y, a);
    var tenant, org := h.id.tenant, OrgOf(h);
    assert PayloadOk(h.id, h.payload) && org == h.id.key.org;
    var resolvedOnly := AfterResolve(y, tenant, org, a.reconcileInputs, a.reconcileRolledBack);
    if Writes(y, tenant, org, a.reconcileInputs) && (t, o) == (tenant, org) {
      ResolveCleans(y, tenant, org, a.reconcileInputs);
      assert Clean(y', t, o);
    } else {
      ResolveKeepsCleanOrOwed(y, tenant, org, a.reconcileInputs, a.reconcileRolledBack, t, o);
      if Clean(resolvedOnly, t, o) {
        assert Clean(y', t, o);
      } else {
        var id :| Owed(resolvedOnly, id, t, o);
        assert Owed(y', id, t, o);
      }
    }
  }

  // ---------------------------------------------------------------- erasing

  lemma ReconcileJobsHaveNoUser(org: OrgId, user: UserId)
    ensures !OwnedByUser(ReconcilePayload(org), user)
  {
  }

  /** No erasure deletes a reconcile job, and the ones it inserts are new. */
  lemma EraseKeepsReconcileRows(y: System, a: Action, id: JobId)
    requires BooksOk(y) && a.Erase? && CanDo(y, a) && id.jobType == PrivacyReconcile && id in y.world.queue.rows
    ensures id in Do(y, a).world.queue.rows && Do(y, a).world.queue.rows[id] == y.world.queue.rows[id]
    ensures id !in ReconcileIds(a.eraseTenant, a.eraseUser, a.operation, PrivacyRepository.Affected(y.ev, a.eraseTenant, a.eraseUser))
  {
    assert PayloadOk(id, y.world.queue.rows[id].payload);
    ReconcileJobsHaveNoUser(id.key.org, a.eraseUser);
    var rows := WithoutUserJobs(y.world.queue.rows, a.eraseTenant, a.eraseUser);
    assert id in rows;
    var orgs := PrivacyRepository.Affected(y.ev, a.eraseTenant, a.eraseUser);
    assert !ReconcileClash(y.world.queue.rows, a.eraseTenant, a.eraseUser, a.operation, orgs);
  }

  lemma EraseKeepsBooks(y: System, a: Action)
    requires BooksOk(y) && a.Erase? && CanDo(y, a)
    ensures BooksOk(Do(y, a))
  {
    hide PrivacyRepository.Affected, EraseMember, Enabled, ReconcileClash;
    var y' := Do(y, a);
    forall id | id in y.world.queue.rows && id.jobType == PrivacyReconcile
      ensures id in y'.world.queue.rows
    {
      EraseKeepsReconcileRows(y, a, id);
    }
  }

  lemma EraseSparesOthers(ev: Tables, members: set<Membership>, tenant: TenantId, user: UserId, t: TenantId, o: OrgId)
    requires TablesOk(ev, members) && !(t == tenant && o in PrivacyRepository.Affected(ev, tenant, user))
    ensures forall c | c in ev.claims && ev.claims[c].tenant == t && ev.claims[c].org == o ::
      c in EraseMember(ev, tenant, user).claims && EraseMember(ev, tenant, user).claims[c] == ev.claims[c]
  {
    forall c | c in ev.claims && ev.claims[c].tenant == t && ev.claims[c].org == o
      ensures c in EraseMember(ev, tenant, user).claims
    {
      assert ev.claims[c].version in ev.versions;
    }
  }

  lemma KeptClaimsStayClean(table: Table, before: map<ClaimId, Claim>, after: map<ClaimId, Claim>, t: TenantId, o: OrgId)
    requires CleanTable(table, before, t, o)
    requires forall c | c in before && before[c].tenant == t && before[c].org == o :: c in after && after[c].tenant == t && after[c].org == o
    ensures CleanTable(table, after, t, o)
  {
    forall id | id in table && table[id].org == o
      ensures CitesExisting(table[id], after, t)
    {
      assert CitesExisting(table[id], before, t);
    }
  }

  /** An organization that loses evidence gets a new reconcile job, any other keeps what its opportunities cite. */
  lemma EraseKeeps(y: System, a: Action, t: TenantId, o: OrgId)
    requires Sound(y) && a.Erase? && CanDo(y, a)
    ensures CleanOrOwed(Do(y, a), t, o)
  {
    hide PrivacyRepository.Affected, EraseMember, TablesOk, Enabled, ReconcileClash;
    var y' := Do(y, a);
    var tenant, user := a.eraseTenant, a.eraseUser;
    var orgs := PrivacyRepository.Affected(y.ev, tenant, user);
    assert CleanOrOwed(y, t, o);
    if t == tenant && o in orgs {
      var id := ReconcileId(tenant, user, a.operation, o);
      if id in y.world.queue.rows { EraseKeepsReconcileRows(y, a, id); }
      assert id in ReconcileIds(tenant, user, a.operation, orgs);
      assert Owed(y', id, t, o);
    } else if Clean(y, t, o) {
      EraseSparesOthers(y.ev, y.members, tenant, user, t, o);
      KeptClaimsStayClean(TableOf(y, t), y.ev.claims, y'.ev.claims, t, o);
    } else {
      var id :| Owed(y, id, t, o);
      EraseKeepsReconcileRows(y, a, id);
      assert Owed(y', id, t, o);
    }
  }

  // ------------------------------------------------------------ queue steps

  lemma QueueKeepsRow(w: World, s: Step, id: JobId)
    requires Enabled(w, s) && !s.event.Erasing? && id in w.queue.rows && id.jobType == PrivacyReconcile
    requires s.event.Enqueueing? ==> s.event.input.id != id
    ensures id in QueueAfter(w, s).rows && QueueAfter(w, s).rows[id].payload == w.queue.rows[id].payload
  {
  }

  lemma QueueStepKeepsRow(y: System, s: Step, id: JobId)
    requires CanDo(y, QueueStep(s)) && id in y.world.queue.rows && id.jobType == PrivacyReconcile
    ensures id in After(y.world, s).queue.rows
    ensures After(y.world, s).queue.rows[id].payload == y.world.queue.rows[id].payload
  {
    QueueKeepsRow(y.world, s, id);
  }

  /** A reconcile job succeeds only through an attempt that has resolved. */
  lemma SucceedsOnlyResolved(y: System, s: Step, id: JobId)
    requires CanDo(y, QueueStep(s)) && id in y.world.queue.rows && id.jobType == PrivacyReconcile
    requires y.world.queue.rows[id].status != Succeeded && forall a | a in y.resolved :: a.id != id
    ensures id in After(y.world, s).queue.rows && After(y.world, s).queue.rows[id].status != Succeeded
  {
    assert s.event.Completing? ==> AttemptOf(s.event.handle).id == s.event.handle.id;
  }

  lemma QueueStepKeepsBooks(y: System, s: Step)
    requires BooksOk(y) && CanDo(y, QueueStep(s))
    ensures BooksOk(Do(y, QueueStep(s)))
  {
    var w, w' := y.world, After(y.world, s);
    forall id | id in w.queue.rows && id.jobType == PrivacyReconcile
      ensures id in w'.queue.rows && w'.queue.rows[id].payload == w.queue.rows[id].payload
    {
      QueueStepKeepsRow(y, s, id);
    }
    forall id | id in w'.queue.rows
      ensures PayloadOk(id, w'.queue.rows[id].payload)
    {
      if id in w.queue.rows { assert PayloadOk(id, w.queue.rows[id].payload); }
    }
  }

  lemma QueueStepKeeps(y: System, s: Step, t: TenantId, o: OrgId)
    requires Sound(y) && CanDo(y, QueueStep(s))
    ensures CleanOrOwed(Do(y, QueueStep(s)), t, o)
  {
    var y' := Do(y, QueueStep(s));
    assert CleanOrOwed(y, t, o);
    if Clean(y, t, o) {
      assert Clean(y', t, o);
    } else {
      var id :| Owed(y, id, t, o);
      SucceedsOnlyResolved(y, s, id);
      assert Owed(y', id, t, o);
    }
  }

  // ------------------------------------------------------------ every step

  lemma EvidenceStaysOk(y: System, a: Action)
    requires Sound(y) && CanDo(y, a)
    ensures TablesOk(Do(y, a).ev, Do(y, a).members)
  {
    match a
    case StageSource(s, source, v, org, contributor) => StageKeepsOk(y.ev, y.members, s, source, v, org, contributor);
    case CommitClaims(t, o, added, _) => CommitKeepsTables(y.ev, y.members, t, o, added);
    case Erase(t, u, _, _) => EraseAccountIsEraseSet(y.ev, y.members, t, u);
    case _ =>
  }

  lemma BooksStayOk(y: System, a: Action)
    requires Sound(y) && CanDo(y, a)
    ensures BooksOk(Do(y, a))
  {
    hide Enabled, After, EraseMember, TablesOk, Stage, CleanOrOwed, Writes;
    match a
    case QueueStep(s) => QueueStepKeepsBooks(y, s);
    case Erase(_, _, _, _) => EraseKeepsBooks(y, a);
    case Reconciling(h, _, _) => assert h.id in y.world.queue.rows;
    case _ =>
  }

  lemma StepKeepsCleanOrOwed(y: System, a: Action, t: TenantId, o: OrgId)
    requires Sound(y) && CanDo(y, a)
    ensures CleanOrOwed(Do(y, a), t, o)
  {
    var y' := Do(y, a);
    assert CleanOrOwed(y, t, o);
    match a
    case QueueStep(s) => QueueStepKeeps(y, s, t, o);
    case Erase(_, _, _, _) => EraseKeeps(y, a, t, o);
    case Reconciling(_, _, _) => ReconcilingKeeps(y, a, t, o);
    case Resolving(tenant, org, i, rolledBack) => ResolveKeepsCleanOrOwed(y, tenant, org, i, rolledBack, t, o);
    case CommitClaims(tenant, org, added, i) =>
      AddingClaimsKeeps(y, tenant, org, added, t, o);
      ResolveKeepsCleanOrOwed(y.(ev := WithClaims(y.ev, added)), tenant, org, i, false, t, o);
    case _ => UntouchedKeeps(y, y', t, o);
  }

  lemma UntouchedKeeps(y: System, y': System, t: TenantId, o: OrgId)
    requires CleanOrOwed(y, t, o)
    requires y'.world == y.world && y'.tables == y.tables && y'.resolved == y.resolved && y'.ev.claims == y.ev.claims
    ensures CleanOrOwed(y', t, o)
  {
    if Clean(y, t, o) {
      assert Clean(y', t, o);
    } else {
      var id :| Owed(y, id, t, o);
      assert Owed(y', id, t, o);
    }
  }

  lemma StepKeepsSound(y: System, a: Action)
    requires Sound(y) && CanDo(y, a)
    ensures Sound(Do(y, a))
  {
    EvidenceStaysOk(y, a);
    BooksStayOk(y, a);
    forall t: TenantId, o: OrgId
      ensures CleanOrOwed(Do(y, a), t, o)
    {
      StepKeepsCleanOrOwed(y, a, t, o);
    }
  }

  ghost predicate ValidHistory(history: seq<System>, actions: seq<Action>) {
    && |history| == |actions| + 1 && history[0] == Start
    && forall k {:trigger actions[k]} | 0 <= k < |actions| :: CanDo(history[k], actions[k]) && history[k + 1] == Do(history[k], actions[k])
  }

  lemma StartIsSound()
    ensures Sound(Start)
  {
    forall t: TenantId, o: OrgId
      ensures CleanOrOwed(Start, t, o)
    {
      assert Clean(Start, t, o);
    }
  }

  lemma HistoryStep(history: seq<System>, actions: seq<Action>, k: nat)
    requires ValidHistory(history, actions) && k < |actions|
    ensures CanDo(history[k], actions[k]) && history[k + 1] == Do(history[k], actions[k])
  {
    assert actions[k] == actions[k];
  }

  lemma {:induction false} SoundAlways(history: seq<System>, actions: seq<Action>, n: nat)
    requires ValidHistory(history, actions) && n < |history|
    ensures Sound(history[n])
  {
    if n == 0 {
      StartIsSound();
    } else {
      SoundAlways(history, actions, n - 1);
      HistoryStep(history, actions, n - 1);
      StepKeepsSound(history[n - 1], actions[n - 1]);
    }
  }

  /**
   In every reachable state an organization's opportunities cite only existing claims
   of that organization, or a reconcile job for it exists that has not succeeded.
   */
  lemma NoDanglingCitationWithoutReconcile(history: seq<System>, actions: seq<Action>, n: nat, tenant: TenantId, org: OrgId)
    requires ValidHistory(history, actions) && n < |history|
    ensures Clean(history[n], tenant, org) ||
      exists id :: ReconcilesFor(id, tenant, org) && id in history[n].world.queue.rows && history[n].world.queue.rows[id].status != Succeeded
  {
    SoundAlways(history, actions, n);
    assert CleanOrOwed(history[n], tenant, org);
  }

  /** Once all reconcile jobs of an organization have succeeded, no opportunity of it cites erased evidence. */
  lemma ReconciledMeansClean(history: seq<System>, actions: seq<Action>, n: nat, tenant: TenantId, org: OrgId)
    requires ValidHistory(history, actions) && n < |history|
    requires forall id | id in history[n].world.queue.rows && ReconcilesFor(id, tenant, org) :: history[n].world.queue.rows[id].status == Succeeded
    ensures Clean(history[n], tenant, org)
  {
    NoDanglingCitationWithoutReconcile(history, actions, n, tenant, org);
  }
}
