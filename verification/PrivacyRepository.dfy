/**
 eraseAccount as the transaction runs it: ordered deletes, loops over the
 orphaned versions, the job rows and the affected organizations, and a rollback
 when a reconcile job cannot be inserted.
 */
module PrivacyRepository {
  import opened Prelude
  import opened Jobs
  import opened Resolver
  import opened Evidence

  datatype ErasureResult = ErasureResult(
    membershipDeleted: bool, identityDeleted: bool, jobsDeleted: nat, contributionsRemoved: nat,
    privateSourceVersionsDeleted: nat, claimsDeleted: nat,
    affectedOrganizations: set<OrgId>, reconciliationJobs: set<JobId>)

  const NothingErased := ErasureResult(false, false, 0, 0, 0, 0, {}, {})

  function Affected(ev: Tables, tenant: TenantId, user: UserId): set<OrgId> {
    set v | v in Orphaned(ev, tenant, user) && v in ev.versions :: ev.versions[v].org
  }

  function UserJobs(rows: Rows, tenant: TenantId, user: UserId): set<JobId> {
    set id | id in rows && id.tenant == tenant && OwnedByUser(rows[id].payload, user)
  }

  function ClaimsOf(ev: Tables, tenant: TenantId, gone: set<VersionId>): set<ClaimId> {
    set c | c in ev.claims && ev.claims[c].tenant == tenant && ev.claims[c].version in gone
  }

  /** Audit rows are keyed by a hash; an erasure's row by tenant, user and operation. */
  datatype AuditId = ErasureAudit(tenant: TenantId, user: UserId, operation: string) | OtherAudit(id: string)

  /** A row of the audit or the override table, as far as an erasure is concerned. */
  datatype Signed = Signed(tenant: TenantId, actor: Option<UserId>)

  datatype Db = Db(
    ev: Tables, members: set<Membership>, users: set<UserId>, rows: Rows,
    audit: map<AuditId, Signed>, overrides: map<string, Signed>)

  predicate SignedBy(row: Signed, tenant: TenantId, user: UserId) { row.tenant == tenant && row.actor == Some(user) }

  function Anonymized<K>(rows: map<K, Signed>, tenant: TenantId, user: UserId): (r: map<K, Signed>)
    ensures r.Keys == rows.Keys
  {
    map k | k in rows :: if SignedBy(rows[k], tenant, user) then rows[k].(actor := None) else rows[k]
  }

  predicate WroteOverride(overrides: map<string, Signed>, tenant: TenantId, user: UserId) {
    exists o | o in overrides :: SignedBy(overrides[o], tenant, user)
  }

  predicate IsMember(db: Db, tenant: TenantId, user: UserId) { Membership(tenant, user) in db.members }

  predicate StillMember(members: set<Membership>, user: UserId) { exists m | m in members :: m.user == user }

  /**
   The transaction goes through unless a reconcile key is taken, the operation has already
   been used for an erasure of the user, or the actor column of the overrides must not be
   null (`actorRequired`, as SQLite declares it) and the user wrote an override.
   */
  predicate Commits(db: Db, tenant: TenantId, user: UserId, operation: string, actorRequired: bool) {
    IsMember(db, tenant, user) ==>
      && !ReconcileClash(db.rows, tenant, user, operation, Affected(db.ev, tenant, user))
      && ErasureAudit(tenant, user, operation) !in db.audit
      && !(actorRequired && WroteOverride(db.overrides, tenant, user))
  }

  /** The database after a committed erasure of a member. */
  function Erased(db: Db, tenant: TenantId, user: UserId, operation: string, now: nat): Db {
    var members := db.members - {Membership(tenant, user)};
    Db(EraseMember(db.ev, tenant, user), members,
       if StillMember(members, user) then db.users else db.users - {user},
       EraseJobs(db.rows, tenant, user, operation, Affected(db.ev, tenant, user), now),
       Anonymized(db.audit, tenant, user)[ErasureAudit(tenant, user, operation) := Signed(tenant, None)],
       Anonymized(db.overrides, tenant, user))
  }

  /** What the caller is told: each number counts the rows that were there before. */
  function Report(db: Db, tenant: TenantId, user: UserId, operation: string): ErasureResult {
    ErasureResult(
      true, user in db.users && !StillMember(db.members - {Membership(tenant, user)}, user),
      |UserJobs(db.rows, tenant, user)|, |ContributionsOf(db.ev, tenant, user)|,
      |Orphaned(db.ev, tenant, user)|, |ClaimsOf(db.ev, tenant, Orphaned(db.ev, tenant, user))|,
      Affected(db.ev, tenant, user), ReconcileIds(tenant, user, operation, Affected(db.ev, tenant, user)))
  }

  function ContributionsOf(ev: Tables, tenant: TenantId, user: UserId): set<Contribution> {
    set c | c in ev.contributors && c.tenant == tenant && c.user == user
  }

  /** A committed erasure leaves nothing of the member in the tenant, and the identity only if another tenant needs it. */
  lemma ErasureLeavesNothing(db: Db, tenant: TenantId, user: UserId, operation: string, now: nat)
    ensures
      var after := Erased(db, tenant, user, operation, now);
      && !IsMember(after, tenant, user) && ContributionsOf(after.ev, tenant, user) == {}
      && UserJobs(after.rows, tenant, user) == {}
      && (forall k | k in after.audit :: !SignedBy(after.audit[k], tenant, user))
      && (forall k | k in after.overrides :: !SignedBy(after.overrides[k], tenant, user))
      && (user in after.users <==> user in db.users && StillMember(after.members, user))
  {
  }

  /** Every organization that loses a version to a committed erasure has a queued reconcile job. */
  lemma LossIsReconciled(db: Db, tenant: TenantId, user: UserId, operation: string, now: nat, v: VersionId)
    requires v in db.ev.versions && v !in Erased(db, tenant, user, operation, now).ev.versions
    ensures
      var rows, org := Erased(db, tenant, user, operation, now).rows, db.ev.versions[v].org;
      var id := ReconcileId(tenant, user, operation, org);
      id in rows && rows[id].status == Queued && rows[id].payload == ReconcilePayload(org)
  {
    assert v in Orphaned(db.ev, tenant, user);
    assert db.ev.versions[v].org in Affected(db.ev, tenant, user);
  }

  /** A committed erasure leaves the rows of other members and of other tenants alone. */
  lemma ErasureSparesOthers(db: Db, tenant: TenantId, user: UserId, operation: string, actorRequired: bool, now: nat)
    requires Commits(db, tenant, user, operation, actorRequired) && IsMember(db, tenant, user)
    ensures
      var after := Erased(db, tenant, user, operation, now);
      && (forall m | m in db.members && m != Membership(tenant, user) :: m in after.members)
      && (forall c | c in db.ev.contributors && (c.tenant != tenant || c.user != user) :: c in after.ev.contributors)
      && (forall id | id in db.rows && id !in UserJobs(db.rows, tenant, user) :: id in after.rows && after.rows[id] == db.rows[id])
      && (forall k | k in db.audit && !SignedBy(db.audit[k], tenant, user) :: k in after.audit && after.audit[k] == db.audit[k])
      && (forall k | k in db.overrides && !SignedBy(db.overrides[k], tenant, user) :: after.overrides[k] == db.overrides[k])
      && after.overrides.Keys == db.overrides.Keys && after.users + {user} == db.users + {user}
  {
    var orgs := Affected(db.ev, tenant, user);
    hide Affected, EraseMember;
    assert Erased(db, tenant, user, operation, now).ev.contributors == WithoutContributor(db.ev, tenant, {user}) by {
      EraseMemberContributors(db.ev, tenant, user);
    }
    forall id | id in WithoutUserJobs(db.rows, tenant, user)
      ensures id !in ReconcileIds(tenant, user, operation, orgs)
    {
    }
  }

  lemma EraseMemberContributors(ev: Tables, tenant: TenantId, user: UserId)
    ensures EraseMember(ev, tenant, user).contributors == WithoutContributor(ev, tenant, {user})
  {
  }

  /** An operation serves one erasure of a user: repeated after the user has joined again, it is rolled back. */
  lemma RepeatedOperationRollsBack(db: Db, later: Db, tenant: TenantId, user: UserId, operation: string, actorRequired: bool, now: nat)
    requires Erased(db, tenant, user, operation, now).audit.Keys <= later.audit.Keys && IsMember(later, tenant, user)
    ensures !Commits(later, tenant, user, operation, actorRequired)
  {
    assert ErasureAudit(tenant, user, operation) in Erased(db, tenant, user, operation, now).audit.Keys;
  }

  // ------------------------- a committed erasure, read off the tables before and after

  predicate NamesUser(p: Payload, user: UserId) { "userId" in p && p["userId"] == Str(user) }

  /** The version is mail, chat or a screenshot of the tenant that the user contributed to, and nobody else did. */
  ghost predicate IsOnlyTheirs(ev: Tables, tenant: TenantId, user: UserId, v: VersionId) {
    && v in ev.versions && ev.versions[v].tenant == tenant
    && ev.versions[v].source in ev.sources && ev.sources[ev.versions[v].source].tenant == tenant
    && ev.sources[ev.versions[v].source].sourceType in {Gmail, GroupMe, Screenshot}
    && Contribution(tenant, v, user) in ev.contributors
    && forall c | c in ev.contributors && c.tenant == tenant && c.version == v :: c.user == user
  }

  /** Evidence: the versions that are only theirs go with their claims, then the tenant's sources without a version. */
  ghost predicate ErasesEvidence(before: Tables, after: Tables, tenant: TenantId, user: UserId) {
    && (forall v | v in before.versions :: v in after.versions <==> !IsOnlyTheirs(before, tenant, user, v))
    && (forall v | v in after.versions :: v in before.versions && after.versions[v] == before.versions[v])
    && (forall c | c in before.claims :: c in after.claims <==>
          !(before.claims[c].tenant == tenant && IsOnlyTheirs(before, tenant, user, before.claims[c].version)))
    && (forall c | c in after.claims :: c in before.claims && after.claims[c] == before.claims[c])
    && (forall s | s in before.sources :: s in after.sources <==>
          before.sources[s].tenant != tenant || exists v | v in after.versions :: after.versions[v].source == s)
    && (forall s | s in after.sources :: s in before.sources && after.sources[s] == before.sources[s])
    && (forall c :: c in after.contributors <==> c in before.contributors && !(c.tenant == tenant && c.user == user))
  }

  /** Jobs: those that name the user go, the `queued` ones come, each for the organization of its key. */
  ghost predicate ErasesJobs(before: Rows, after: Rows, tenant: TenantId, user: UserId, queued: set<JobId>, now: nat) {
    && (forall id :: id in after <==> id in queued || (id in before && !(id.tenant == tenant && NamesUser(before[id].payload, user))))
    && (forall id | id in queued :: id.key.PrivacyKey? &&
          after[id] == Row(map["organizationId" := Str(id.key.org)], Queued, 10, 0, 5, now, None, None, None, now, now))
    && (forall id | id in after && id !in queued :: after[id] == before[id])
  }

  ghost predicate LosesActor(before: Signed, after: Signed, tenant: TenantId, user: UserId) {
    after == if before.tenant == tenant && before.actor == Some(user) then Signed(tenant, None) else before
  }

  /** Identity and signatures: the identity stays for other memberships, signed rows stay without their actor. */
  ghost predicate ErasesIdentity(before: Db, after: Db, tenant: TenantId, user: UserId, operation: string) {
    && after.members == before.members - {Membership(tenant, user)}
    && (forall u :: u in after.users <==> u in before.users && (u == user ==> exists m | m in after.members :: m.user == user))
    && after.overrides.Keys == before.overrides.Keys && after.audit.Keys == before.audit.Keys + {ErasureAudit(tenant, user, operation)}
    && (forall k | k in before.overrides :: LosesActor(before.overrides[k], after.overrides[k], tenant, user))
    && (forall k | k in before.audit && k != ErasureAudit(tenant, user, operation) :: LosesActor(before.audit[k], after.audit[k], tenant, user))
    && after.audit[ErasureAudit(tenant, user, operation)] == Signed(tenant, None)
  }

  /** The report counts the rows that are gone. */
  ghost predicate Tells(result: ErasureResult, before: Db, after: Db, tenant: TenantId, user: UserId, operation: string) {
    && result.membershipDeleted
    && (result.identityDeleted <==> user in before.users && user !in after.users)
    && result.jobsDeleted == |set id | id in before.rows && id.tenant == tenant && NamesUser(before.rows[id].payload, user)|
    && result.contributionsRemoved == |before.ev.contributors - after.ev.contributors|
    && result.privateSourceVersionsDeleted == |before.ev.versions.Keys - after.ev.versions.Keys|
    && result.claimsDeleted == |before.ev.claims.Keys - after.ev.claims.Keys|
    && result.affectedOrganizations == (set v | v in before.ev.versions && v !in after.ev.versions :: before.ev.versions[v].org)
    && result.reconciliationJobs == set o | o in result.affectedOrganizations :: JobId(tenant, PrivacyReconcile, PrivacyKey(user, operation, o))
  }

  /** A reconcile job that the erasure would have to queue exists and is not one of the user's own jobs. */
  ghost predicate KeyIsTaken(db: Db, tenant: TenantId, user: UserId, operation: string) {
    exists v | IsOnlyTheirs(db.ev, tenant, user, v) ::
      var id := JobId(tenant, PrivacyReconcile, PrivacyKey(user, operation, db.ev.versions[v].org));
      id in db.rows && !NamesUser(db.rows[id].payload, user)
  }

  /** What stands in the way of an erasure: a used operation, a signature that must stay, or a taken reconcile key. */
  ghost predicate IsBlocked(db: Db, tenant: TenantId, user: UserId, operation: string, actorRequired: bool) {
    || ErasureAudit(tenant, user, operation) in db.audit
    || (actorRequired && exists k | k in db.overrides :: db.overrides[k].tenant == tenant && db.overrides[k].actor == Some(user))
    || KeyIsTaken(db, tenant, user, operation)
  }

  lemma OrphanedAreTheirs(ev: Tables, tenant: TenantId, user: UserId)
    ensures forall v :: v in Orphaned(ev, tenant, user) <==> IsOnlyTheirs(ev, tenant, user, v)
  {
    forall v | IsOnlyTheirs(ev, tenant, user, v)
      ensures v in Orphaned(ev, tenant, user)
    {
      assert Contribution(tenant, v, user) in ev.contributors;
    }
  }

  lemma ClashMeansTaken(db: Db, tenant: TenantId, user: UserId, operation: string)
    ensures ReconcileClash(db.rows, tenant, user, operation, Affected(db.ev, tenant, user)) <==> KeyIsTaken(db, tenant, user, operation)
  {
    OrphanedAreTheirs(db.ev, tenant, user);
    hide Orphaned;
    var orgs := Affected(db.ev, tenant, user);
    if ReconcileClash(db.rows, tenant, user, operation, orgs) {
      var o :| o in orgs && ReconcileId(tenant, user, operation, o) in WithoutUserJobs(db.rows, tenant, user);
      var v :| v in Orphaned(db.ev, tenant, user) && v in db.ev.versions && db.ev.versions[v].org == o;
      assert IsOnlyTheirs(db.ev, tenant, user, v);
    }
    if KeyIsTaken(db, tenant, user, operation) {
      var v :| IsOnlyTheirs(db.ev, tenant, user, v) &&
        var id := JobId(tenant, PrivacyReconcile, PrivacyKey(user, operation, db.ev.versions[v].org));
        id in db.rows && !NamesUser(db.rows[id].payload, user);
      assert db.ev.versions[v].org in orgs;
      assert ReconcileId(tenant, user, operation, db.ev.versions[v].org) in WithoutUserJobs(db.rows, tenant, user);
    }
  }

  lemma CommitsUnlessBlocked(db: Db, tenant: TenantId, user: UserId, operation: string, actorRequired: bool)
    ensures Commits(db, tenant, user, operation, actorRequired) <==>
      (Membership(tenant, user) in db.members ==> !IsBlocked(db, tenant, user, operation, actorRequired))
  {
    ClashMeansTaken(db, tenant, user, operation);
    hide KeyIsTaken, ReconcileClash, Affected;
  }

  lemma EvidenceIsErased(ev: Tables, tenant: TenantId, user: UserId)
    ensures ErasesEvidence(ev, EraseMember(ev, tenant, user), tenant, user)
    ensures ev.versions.Keys - EraseMember(ev, tenant, user).versions.Keys == Orphaned(ev, tenant, user)
    ensures ev.claims.Keys - EraseMember(ev, tenant, user).claims.Keys == ClaimsOf(ev, tenant, Orphaned(ev, tenant, user))
    ensures ev.contributors - EraseMember(ev, tenant, user).contributors == ContributionsOf(ev, tenant, user)
  {
    OrphanedAreTheirs(ev, tenant, user);
  }

  lemma JobsAreErased(rows: Rows, tenant: TenantId, user: UserId, operation: string, orgs: set<OrgId>, now: nat)
    ensures ErasesJobs(rows, EraseJobs(rows, tenant, user, operation, orgs, now), tenant, user, ReconcileIds(tenant, user, operation, orgs), now)
  {
  }

  lemma IdentityIsErased(db: Db, tenant: TenantId, user: UserId, operation: string, now: nat)
    ensures ErasesIdentity(db, Erased(db, tenant, user, operation, now), tenant, user, operation)
  {
  }

  lemma AffectedLostVersions(ev: Tables, after: map<VersionId, Version>, tenant: TenantId, user: UserId)
    requires ev.versions.Keys - after.Keys == Orphaned(ev, tenant, user)
    ensures Affected(ev, tenant, user) == set v | v in ev.versions && v !in after :: ev.versions[v].org
  {
    hide Orphaned;
    assert forall v :: v in Orphaned(ev, tenant, user) <==> v in ev.versions.Keys - after.Keys;
  }

  lemma CountedJobs(rows: Rows, tenant: TenantId, user: UserId)
    ensures UserJobs(rows, tenant, user) == set id | id in rows && id.tenant == tenant && NamesUser(rows[id].payload, user)
  {
  }

  /** The report is right about the tables. */
  lemma ReportTells(db: Db, tenant: TenantId, user: UserId, operation: string, now: nat)
    ensures Tells(Report(db, tenant, user, operation), db, Erased(db, tenant, user, operation, now), tenant, user, operation)
  {
    EvidenceIsErased(db.ev, tenant, user);
    AffectedLostVersions(db.ev, EraseMember(db.ev, tenant, user).versions, tenant, user);
    CountedJobs(db.rows, tenant, user);
    hide EraseMember, Orphaned, ClaimsOf, UserJobs, ErasesEvidence, EraseJobs, Anonymized, Affected, NamesUser, ContributionsOf;
  }

  // The tables while the loops are under way.

  function Dropping(ev: Tables, tenant: TenantId, done: set<VersionId>): Tables {
    ev.(versions := ev.versions - done, claims := ev.claims - ClaimsOf(ev, tenant, done))
  }

  lemma ClaimsOfOneMore(ev: Tables, tenant: TenantId, done: set<VersionId>, v: VersionId)
    requires v !in done
    ensures ClaimsOf(ev, tenant, done + {v}) == ClaimsOf(ev, tenant, done) + ClaimsOf(ev, tenant, {v})
    ensures |ClaimsOf(ev, tenant, done + {v})| == |ClaimsOf(ev, tenant, done)| + |ClaimsOf(ev, tenant, {v})|
    ensures ClaimsOf(Dropping(ev, tenant, done), tenant, {v}) == ClaimsOf(ev, tenant, {v})
  {
    assert ClaimsOf(ev, tenant, done) * ClaimsOf(ev, tenant, {v}) == {};
  }

  lemma DropOneMore(ev: Tables, tenant: TenantId, done: set<VersionId>, v: VersionId)
    requires v !in done
    ensures
      var now := Dropping(ev, tenant, done);
      && Dropping(ev, tenant, done + {v}) == now.(claims := now.claims - ClaimsOf(now, tenant, {v}), versions := now.versions - {v})
      && |ClaimsOf(ev, tenant, done + {v})| == |ClaimsOf(ev, tenant, done)| + |ClaimsOf(now, tenant, {v})|
  {
    ClaimsOfOneMore(ev, tenant, done, v);
    assert ev.versions - (done + {v}) == (ev.versions - done) - {v};
    var a, b := ClaimsOf(ev, tenant, done), ClaimsOf(ev, tenant, {v});
    assert ev.claims - (a + b) == (ev.claims - a) - b;
  }

  function DeletingJobs(rows: Rows, tenant: TenantId, user: UserId, done: set<JobId>): Rows {
    rows - UserJobs(rows, tenant, user) * done
  }

  lemma DeleteOneMore(rows: Rows, tenant: TenantId, user: UserId, done: set<JobId>, id: JobId)
    requires id in rows && id !in done
    ensures
      var now := DeletingJobs(rows, tenant, user, done);
      && id in now && now[id] == rows[id]
      && DeletingJobs(rows, tenant, user, done + {id}) == (if id in UserJobs(rows, tenant, user) then now - {id} else now)
      && |UserJobs(rows, tenant, user) * (done + {id})| == |UserJobs(rows, tenant, user) * done| + if id in UserJobs(rows, tenant, user) then 1 else 0
  {
    var mine := UserJobs(rows, tenant, user);
    assert mine * (done + {id}) == if id in mine then mine * done + {id} else mine * done;
  }

  lemma DeletedAll(rows: Rows, tenant: TenantId, user: UserId)
    ensures DeletingJobs(rows, tenant, user, {}) == rows
    ensures DeletingJobs(rows, tenant, user, rows.Keys) == WithoutUserJobs(rows, tenant, user)
    ensures UserJobs(rows, tenant, user) * rows.Keys == UserJobs(rows, tenant, user)
  {
  }

  lemma InsertOneMore(rows: Rows, tenant: TenantId, user: UserId, operation: string, done: set<OrgId>, o: OrgId, now: nat)
    requires o !in done
    ensures
      var id := ReconcileId(tenant, user, operation, o);
      && (id in InsertReconciles(rows, tenant, user, operation, done, now) <==> id in rows)
      && InsertReconciles(rows, tenant, user, operation, done + {o}, now) == InsertReconciles(rows, tenant, user, operation, done, now)[id := ReconcileRow(o, now)]
  {
    var id := ReconcileId(tenant, user, operation, o);
    assert ReconcileIds(tenant, user, operation, done + {o}) == ReconcileIds(tenant, user, operation, done) + {id};
  }

  class SqlitePrivacyRepository {
    var ev: Tables
    var members: set<Membership>
    var users: set<UserId>
    var rows: Rows
    var audit: map<AuditId, Signed>
    var overrides: map<string, Signed>
    const actorRequired: bool

    function View(): Db
      reads this
    {
      Db(ev, members, users, rows, audit, overrides)
    }

    method DeleteOrphans(tenant: TenantId, orphaned: set<VersionId>) returns (claimsDeleted: nat, versionsDeleted: nat)
      modifies this`ev
      ensures ev == Dropping(old(ev), tenant, orphaned)
      ensures claimsDeleted == |ClaimsOf(old(ev), tenant, orphaned)|
      ensures versionsDeleted == |orphaned|
    {
      var todo, done: set<VersionId> := orphaned, {};
      claimsDeleted, versionsDeleted := 0, 0;
      assert ClaimsOf(ev, tenant, {}) == {};
      assert Dropping(ev, tenant, {}) == ev;
      while todo != {}
        invariant done + todo == orphaned && done * todo == {}
        invariant ev == Dropping(old(ev), tenant, done)
        invariant claimsDeleted == |ClaimsOf(old(ev), tenant, done)|
        invariant versionsDeleted == |done|
      {
        var v :| v in todo;
        DropOneMore(old(ev), tenant, done, v);
        claimsDeleted := claimsDeleted + |ClaimsOf(ev, tenant, {v})|;
        ev := ev.(claims := ev.claims - ClaimsOf(ev, tenant, {v}), versions := ev.versions - {v});
        versionsDeleted := versionsDeleted + 1;
        todo, done := todo - {v}, done + {v};
      }
      assert done == orphaned;
    }

    /** Contributor links, orphaned private versions with their claims, then sources left empty. */
    method EraseEvidence(tenant: TenantId, user: UserId) returns (contributionsRemoved: nat, claimsDeleted: nat, versionsDeleted: nat)
      modifies this`ev
      ensures ev == EraseMember(old(ev), tenant, user)
      ensures contributionsRemoved == |ContributionsOf(old(ev), tenant, user)|
      ensures claimsDeleted == |ClaimsOf(old(ev), tenant, Orphaned(old(ev), tenant, user))|
      ensures versionsDeleted == |Orphaned(old(ev), tenant, user)|
    {
      var orphaned := Orphaned(ev, tenant, user);
      var mine := ContributionsOf(ev, tenant, user);
      contributionsRemoved := |mine|;
      ev := ev.(contributors := ev.contributors - mine);
      assert ClaimsOf(ev, tenant, orphaned) == ClaimsOf(old(ev), tenant, orphaned);
      claimsDeleted, versionsDeleted := DeleteOrphans(tenant, orphaned);
      ev := ev.(sources := map s | s in ev.sources && (ev.sources[s].tenant != tenant || HasVersion(ev.versions, s)) :: ev.sources[s]);
      ErasedTables(old(ev), ev, tenant, user);
    }

    method DeleteUserJobs(tenant: TenantId, user: UserId) returns (jobsDeleted: nat)
      modifies this`rows
      ensures rows == WithoutUserJobs(old(rows), tenant, user)
      ensures jobsDeleted == |UserJobs(old(rows), tenant, user)|
    {
      var todo, done: set<JobId> := rows.Keys, {};
      jobsDeleted := 0;
      DeletedAll(rows, tenant, user);
      while todo != {}
        invariant done + todo == old(rows).Keys && done * todo == {}
        invariant rows == DeletingJobs(old(rows), tenant, user, done)
        invariant jobsDeleted == |UserJobs(old(rows), tenant, user) * done|
      {
        var id :| id in todo;
        DeleteOneMore(old(rows), tenant, user, done, id);
        if id.tenant == tenant && OwnedByUser(rows[id].payload, user) {
          rows := rows - {id};
          jobsDeleted := jobsDeleted + 1;
        }
        todo, done := todo - {id}, done + {id};
      }
      assert done == old(rows).Keys;
    }

    /** Stops at the first key that is already taken. */
    method InsertReconcileJobs(tenant: TenantId, user: UserId, operation: string, orgs: set<OrgId>, now: nat) returns (ok: bool)
      modifies this`rows
      ensures ok <==> forall o | o in orgs :: ReconcileId(tenant, user, operation, o) !in old(rows)
      ensures ok ==> rows == InsertReconciles(old(rows), tenant, user, operation, orgs, now)
    {
      var todo, done: set<OrgId> := orgs, {};
      assert InsertReconciles(rows, tenant, user, operation, {}, now) == rows;
      while todo != {}
        invariant done + todo == orgs && done * todo == {}
        invariant forall o | o in done :: ReconcileId(tenant, user, operation, o) !in old(rows)
        invariant rows == InsertReconciles(old(rows), tenant, user, operation, done, now)
      {
        var o :| o in todo;
        InsertOneMore(old(rows), tenant, user, operation, done, o, now);
        if ReconcileId(tenant, user, operation, o) in rows { return false; }
        rows := rows[ReconcileId(tenant, user, operation, o) := ReconcileRow(o, now)];
        todo, done := todo - {o}, done + {o};
      }
      assert done == orgs;
      ok := true;
    }

    method Rollback(before: Db)
      modifies this
      ensures View() == before
    {
      ev, members, users, rows, audit, overrides := before.ev, before.members, before.users, before.rows, before.audit, before.overrides;
    }

    /** `ok` is false where the transaction throws and is rolled back. */
    method EraseAccount(tenant: TenantId, user: UserId, operation: string, now: nat) returns (ok: bool, result: ErasureResult)
      modifies this
      ensures ok <==> (Membership(tenant, user) in old(members) ==> !IsBlocked(old(View()), tenant, user, operation, actorRequired))
      ensures !ok || Membership(tenant, user) !in old(members) ==> View() == old(View()) && result == NothingErased
      ensures ok && Membership(tenant, user) in old(members) ==>
        && View() == Erased(old(View()), tenant, user, operation, now)
        && ErasesEvidence(old(ev), ev, tenant, user)
        && ErasesJobs(old(rows), rows, tenant, user, result.reconciliationJobs, now)
        && ErasesIdentity(old(View()), View(), tenant, user, operation)
        && Tells(result, old(View()), View(), tenant, user, operation)
    {
      ghost var before := View();
      ok, result := RunErasure(tenant, user, operation, now);
      CommitsUnlessBlocked(before, tenant, user, operation, actorRequired);
      EvidenceIsErased(before.ev, tenant, user);
      JobsAreErased(before.rows, tenant, user, operation, Affected(before.ev, tenant, user), now);
      IdentityIsErased(before, tenant, user, operation, now);
      ReportTells(before, tenant, user, operation, now);
      hide Commits, IsBlocked, ErasesEvidence, ErasesJobs, ErasesIdentity, Tells, EraseMember, EraseJobs, Affected, Anonymized;
    }

    /** The body of the transaction. */
    method RunErasure(tenant: TenantId, user: UserId, operation: string, now: nat) returns (ok: bool, result: ErasureResult)
      modifies this
      ensures ok <==> Commits(old(View()), tenant, user, operation, actorRequired)
      ensures View() == if IsMember(old(View()), tenant, user) && ok then Erased(old(View()), tenant, user, operation, now) else old(View())
      ensures result == if IsMember(old(View()), tenant, user) && ok then Report(old(View()), tenant, user, operation) else NothingErased
    {
      hide EraseMember, Affected, Anonymized, UserJobs, StillMember, WroteOverride;
      if Membership(tenant, user) !in members { return true, NothingErased; }
      var before := View();
      var orgs := Affected(ev, tenant, user);
      var contributionsRemoved, claimsDeleted, versionsDeleted := EraseEvidence(tenant, user);
      var jobsDeleted := DeleteUserJobs(tenant, user);
      audit := Anonymized(audit, tenant, user);
      if actorRequired && WroteOverride(overrides, tenant, user) {
        Rollback(before);
        return false, NothingErased;
      }
      overrides := Anonymized(overrides, tenant, user);
      members := members - {Membership(tenant, user)};
      var hasMembership := StillMember(members, user);
      var identityDeleted := !hasMembership && user in users;
      if !hasMembership { users := users - {user}; }
      ok := InsertReconcileJobs(tenant, user, operation, orgs, now);
      if !ok || ErasureAudit(tenant, user, operation) in audit {
        Rollback(before);
        return false, NothingErased;
      }
      audit := audit[ErasureAudit(tenant, user, operation) := Signed(tenant, None)];
      result := ErasureResult(true, identityDeleted, jobsDeleted, contributionsRemoved, versionsDeleted, claimsDeleted, orgs,
                              ReconcileIds(tenant, user, operation, orgs));
    }
  }

  lemma ErasedTables(before: Tables, after: Tables, tenant: TenantId, user: UserId)
    requires after.contributors == before.contributors - ContributionsOf(before, tenant, user)
    requires after.versions == before.versions - Orphaned(before, tenant, user)
    requires after.claims == before.claims - ClaimsOf(before, tenant, Orphaned(before, tenant, user))
    requires after.sources == map s | s in before.sources && (before.sources[s].tenant != tenant || HasVersion(after.versions, s)) :: before.sources[s]
    ensures after == EraseMember(before, tenant, user)
  {
    var expected := EraseMember(before, tenant, user);
    assert after.contributors == expected.contributors;
    assert after.versions == expected.versions;
    assert after.claims == expected.claims;
  }
}
