/**
 The evidence tables and what an account erasure does to them.
 */
module Evidence {
  import opened Prelude
  import opened Jobs
  import opened Resolver

  type SourceId = string
  type VersionId = string

  datatype Source = Source(tenant: TenantId, sourceType: SourceType)
  datatype Version = Version(tenant: TenantId, org: OrgId, source: SourceId)
  datatype Contribution = Contribution(tenant: TenantId, version: VersionId, user: UserId)
  datatype Membership = Membership(tenant: TenantId, user: UserId)

  datatype Tables = Tables(
    sources: map<SourceId, Source>, versions: map<VersionId, Version>,
    contributors: set<Contribution>, claims: map<ClaimId, Claim>)

  predicate IsPrivate(t: SourceType) { t == Gmail || t == GroupMe || t == Screenshot }

  /** The version's source is of a private kind. */
  predicate PrivateVersion(ev: Tables, v: VersionId) {
    && v in ev.versions && ev.versions[v].source in ev.sources
    && ev.sources[ev.versions[v].source].tenant == ev.versions[v].tenant
    && IsPrivate(ev.sources[ev.versions[v].source].sourceType)
  }

  function Contributors(ev: Tables, tenant: TenantId, v: VersionId): set<UserId> {
    set c | c in ev.contributors && c.tenant == tenant && c.version == v :: c.user
  }

  predicate HasVersion(versions: map<VersionId, Version>, s: SourceId) {
    exists v | v in versions :: versions[v].source == s
  }

  /** Private versions of the tenant that the user contributed to and nobody else still contributes to. */
  function Orphaned(ev: Tables, tenant: TenantId, user: UserId): set<VersionId> {
    set c | c in ev.contributors && c.tenant == tenant && c.user == user
            && PrivateVersion(ev, c.version) && ev.versions[c.version].tenant == tenant
            && (forall d | d in ev.contributors && d.tenant == tenant && d.version == c.version :: d.user == user)
          :: c.version
  }

  function DropVersions(ev: Tables, tenant: TenantId, gone: set<VersionId>): Tables {
    var versions := map v | v in ev.versions && !(ev.versions[v].tenant == tenant && v in gone) :: ev.versions[v];
    Tables(
      map s | s in ev.sources && (ev.sources[s].tenant != tenant || HasVersion(versions, s)) :: ev.sources[s],
      versions, ev.contributors,
      map c | c in ev.claims && !(ev.claims[c].tenant == tenant && ev.claims[c].version in gone) :: ev.claims[c])
  }

  function WithoutContributor(ev: Tables, tenant: TenantId, users: set<UserId>): set<Contribution> {
    set c | c in ev.contributors && !(c.tenant == tenant && c.user in users)
  }

  /** The evidence after erasing one member, step by step as the transaction does it. */
  function EraseMember(ev: Tables, tenant: TenantId, user: UserId): Tables {
    DropVersions(ev.(contributors := WithoutContributor(ev, tenant, {user})), tenant, Orphaned(ev, tenant, user))
  }

  // ------------------------------------------------------------- consistency

  predicate TablesOk(ev: Tables, members: set<Membership>) {
    && (forall v | v in ev.versions :: ev.versions[v].source in ev.sources && ev.sources[ev.versions[v].source].tenant == ev.versions[v].tenant)
    && (forall s | s in ev.sources :: HasVersion(ev.versions, s))
    && (forall c | c in ev.contributors :: c.version in ev.versions && ev.versions[c.version].tenant == c.tenant && Membership(c.tenant, c.user) in members)
    && (forall c | c in ev.claims ::
          && ev.claims[c].id == c && ev.claims[c].version in ev.versions
          && ev.versions[ev.claims[c].version].tenant == ev.claims[c].tenant && ev.versions[ev.claims[c].version].org == ev.claims[c].org)
  }

  /** stageSource: the source and the version appear together, with the contributor if there is one. */
  function Stage(ev: Tables, s: SourceId, source: Source, v: VersionId, org: OrgId, contributor: Option<UserId>): Tables {
    var sources := if s in ev.sources then ev.sources else ev.sources[s := source];
    var versions := if v in ev.versions then ev.versions else ev.versions[v := Version(source.tenant, org, s)];
    ev.(sources := sources, versions := versions,
        contributors := if contributor.Some? then ev.contributors + {Contribution(source.tenant, v, contributor.value)} else ev.contributors)
  }

  /** Ids are hashes of the tenant and what identifies the source or version, so equal ids mean equal rows. */
  predicate StableIds(ev: Tables, s: SourceId, source: Source, v: VersionId, org: OrgId) {
    && (s in ev.sources ==> ev.sources[s] == source)
    && (v in ev.versions ==> ev.versions[v] == Version(source.tenant, org, s) && s in ev.sources)
  }

  lemma StageKeepsSources(ev: Tables, s: SourceId, source: Source, v: VersionId, org: OrgId, contributor: Option<UserId>)
    requires StableIds(ev, s, source, v, org) && forall x | x in ev.sources :: HasVersion(ev.versions, x)
    ensures var ev' := Stage(ev, s, source, v, org, contributor); forall x | x in ev'.sources :: HasVersion(ev'.versions, x)
  {
    var ev' := Stage(ev, s, source, v, org, contributor);
    assert v in ev'.versions && ev'.versions[v].source == s;
    forall x | x in ev'.sources
      ensures HasVersion(ev'.versions, x)
    {
      if x in ev.sources {
        var y :| y in ev.versions && ev.versions[y].source == x;
        assert y in ev'.versions && ev'.versions[y].source == x;
      }
    }
  }

  lemma StageKeepsOk(ev: Tables, members: set<Membership>, s: SourceId, source: Source, v: VersionId, org: OrgId, contributor: Option<UserId>)
    requires TablesOk(ev, members) && StableIds(ev, s, source, v, org)
    requires contributor.Some? ==> Membership(source.tenant, contributor.value) in members
    ensures TablesOk(Stage(ev, s, source, v, org, contributor), members)
  {
    hide HasVersion;
    StageKeepsSources(ev, s, source, v, org, contributor);
  }

  /** Afterwards the version is there for its organization and source, its contributor is recorded, and nothing else has changed. */
  lemma StageRecords(ev: Tables, s: SourceId, source: Source, v: VersionId, org: OrgId, contributor: Option<UserId>)
    requires StableIds(ev, s, source, v, org)
    ensures
      var ev' := Stage(ev, s, source, v, org, contributor);
      && ev'.versions.Keys == ev.versions.Keys + {v} && ev'.versions[v] == Version(source.tenant, org, s)
      && ev'.sources.Keys == ev.sources.Keys + {s} && ev'.sources[s] == source
      && (contributor.Some? ==> Contributors(ev', source.tenant, v) == Contributors(ev, source.tenant, v) + {contributor.value})
      && (contributor.None? ==> ev'.contributors == ev.contributors)
      && (forall c | c in ev'.contributors && c !in ev.contributors :: c.tenant == source.tenant && c.version == v)
      && ev.contributors <= ev'.contributors && ev'.claims == ev.claims
      && (forall x | x in ev.versions :: ev'.versions[x] == ev.versions[x]) && (forall x | x in ev.sources :: ev'.sources[x] == ev.sources[x])
  {
    var ev' := Stage(ev, s, source, v, org, contributor);
    if contributor.Some? { assert Contribution(source.tenant, v, contributor.value) in ev'.contributors; }
  }

  // -------------------------------------------------------------- confluence

  /** Private versions that had contributors, all of whom are in `users`. */
  function Abandoned(ev: Tables, tenant: TenantId, users: set<UserId>): set<VersionId> {
    set v | v in ev.versions && ev.versions[v].tenant == tenant && PrivateVersion(ev, v)
            && Contributors(ev, tenant, v) != {} && Contributors(ev, tenant, v) <= users
  }

  /** The evidence after erasing a whole set of users at once. */
  function EraseSet(ev: Tables, tenant: TenantId, users: set<UserId>): Tables {
    DropVersions(ev.(contributors := WithoutContributor(ev, tenant, users)), tenant, Abandoned(ev, tenant, users))
  }

  lemma OrphanedIsAbandoned(ev: Tables, tenant: TenantId, user: UserId)
    ensures Orphaned(ev, tenant, user) == Abandoned(ev, tenant, {user})
  {
    forall v
      ensures v in Orphaned(ev, tenant, user) <==> v in Abandoned(ev, tenant, {user})
    {
      if v in Orphaned(ev, tenant, user) {
        assert user in Contributors(ev, tenant, v);
      }
      if v in Abandoned(ev, tenant, {user}) {
        var u :| u in Contributors(ev, tenant, v);
        assert Contribution(tenant, v, user) in ev.contributors;
        forall d | d in ev.contributors && d.tenant == tenant && d.version == v
          ensures d.user == user
        {
          assert d.user in Contributors(ev, tenant, v);
        }
      }
    }
  }

  lemma EraseSetContributors(ev: Tables, tenant: TenantId, users: set<UserId>, v: VersionId)
    ensures Contributors(EraseSet(ev, tenant, users), tenant, v) == Contributors(ev, tenant, v) - users
  {
  }

  lemma EraseSetKeepsOk(ev: Tables, members: set<Membership>, tenant: TenantId, users: set<UserId>)
    requires TablesOk(ev, members)
    ensures TablesOk(EraseSet(ev, tenant, users), members - set u | u in users :: Membership(tenant, u))
  {
    var ev' := EraseSet(ev, tenant, users);
    forall v | v in ev'.versions
      ensures ev'.versions[v].source in ev'.sources
    {
      assert HasVersion(ev'.versions, ev'.versions[v].source);
    }
    forall s | s in ev'.sources
      ensures HasVersion(ev'.versions, s)
    {
      if ev.sources[s].tenant != tenant {
        var v :| v in ev.versions && ev.versions[v].source == s;
        assert v in ev'.versions && ev'.versions[v].source == s;
      }
    }
    forall c | c in ev'.contributors
      ensures c.version in ev'.versions
    {
      assert c.tenant == tenant ==> c.user in Contributors(ev, tenant, c.version);
    }
  }

  lemma SurvivorStaysPrivate(ev: Tables, members: set<Membership>, tenant: TenantId, users: set<UserId>, v: VersionId)
    requires TablesOk(ev, members) && v in EraseSet(ev, tenant, users).versions
    ensures PrivateVersion(EraseSet(ev, tenant, users), v) == PrivateVersion(ev, v)
  {
    EraseSetKeepsOk(ev, members, tenant, users);
  }

  lemma SplitSubset(c: set<UserId>, a: set<UserId>, b: set<UserId>)
    ensures c != {} && c <= a + b <==> (c != {} && c <= a) || (c - a != {} && c - a <= b)
  {
    if c <= a + b && !(c <= a) {
      var x :| x in c && x !in a;
      assert x in c - a;
    }
  }

  /** A version abandoned by both sets together is abandoned by the first, or by the second once the first is erased. */
  lemma AbandonedInTwoSteps(ev: Tables, members: set<Membership>, tenant: TenantId, a: set<UserId>, b: set<UserId>)
    requires TablesOk(ev, members)
    ensures Abandoned(ev, tenant, a + b) == Abandoned(ev, tenant, a) + Abandoned(EraseSet(ev, tenant, a), tenant, b)
  {
    var ev' := EraseSet(ev, tenant, a);
    forall v
      ensures v in Abandoned(ev, tenant, a + b) <==> v in Abandoned(ev, tenant, a) || v in Abandoned(ev', tenant, b)
    {
      EraseSetContributors(ev, tenant, a, v);
      SplitSubset(Contributors(ev, tenant, v), a, b);
      if v in ev'.versions { SurvivorStaysPrivate(ev, members, tenant, a, v); }
    }
  }

  lemma DropInTwoSteps(ev: Tables, tenant: TenantId, a: set<VersionId>, b: set<VersionId>, kept: set<Contribution>)
    ensures DropVersions(DropVersions(ev, tenant, a).(contributors := kept), tenant, b) == DropVersions(ev, tenant, a + b).(contributors := kept)
  {
    var one, both := DropVersions(ev, tenant, a).(contributors := kept), DropVersions(ev, tenant, a + b).(contributors := kept);
    var two := DropVersions(one, tenant, b);
    assert two.versions == both.versions;
    assert two.claims == both.claims;
    forall s
      ensures s in two.sources <==> s in both.sources
    {
      if s in both.sources && HasVersion(both.versions, s) {
        var v :| v in both.versions && both.versions[v].source == s;
        assert v in one.versions && one.versions[v].source == s;
      }
    }
    assert two.sources == both.sources;
  }

  lemma EraseInTwoSteps(ev: Tables, members: set<Membership>, tenant: TenantId, a: set<UserId>, b: set<UserId>)
    requires TablesOk(ev, members)
    ensures EraseSet(EraseSet(ev, tenant, a), tenant, b) == EraseSet(ev, tenant, a + b)
  {
    AbandonedInTwoSteps(ev, members, tenant, a, b);
    var kept := WithoutContributor(ev, tenant, a + b);
    assert WithoutContributor(EraseSet(ev, tenant, a), tenant, b) == kept;
    DropInTwoSteps(ev.(contributors := WithoutContributor(ev, tenant, a)), tenant,
                   Abandoned(ev, tenant, a), Abandoned(EraseSet(ev, tenant, a), tenant, b), kept);
  }

  lemma EraseNobody(ev: Tables, members: set<Membership>, tenant: TenantId, users: set<UserId>)
    requires TablesOk(ev, members) && forall u | u in users :: Membership(tenant, u) !in members
    ensures EraseSet(ev, tenant, users) == ev
  {
    var ev' := EraseSet(ev, tenant, users);
    assert ev'.contributors == ev.contributors;
    forall v
      ensures v !in Abandoned(ev, tenant, users)
    {
      if Contributors(ev, tenant, v) != {} {
        var u :| u in Contributors(ev, tenant, v);
        assert u !in users;
      }
    }
    assert ev'.versions == ev.versions && ev'.claims == ev.claims;
    assert ev'.sources == ev.sources;
  }

  /** eraseAccount on the evidence: nothing happens for somebody who is not a member. */
  function EraseAccount(ev: Tables, members: set<Membership>, tenant: TenantId, user: UserId): Tables {
    if Membership(tenant, user) in members then EraseMember(ev, tenant, user) else ev
  }

  function EraseInOrder(ev: Tables, members: set<Membership>, tenant: TenantId, users: seq<UserId>): Tables
    decreases users
  {
    if users == [] then ev
    else EraseInOrder(EraseAccount(ev, members, tenant, users[0]), members - {Membership(tenant, users[0])}, tenant, users[1..])
  }

  lemma EraseAccountIsEraseSet(ev: Tables, members: set<Membership>, tenant: TenantId, user: UserId)
    requires TablesOk(ev, members)
    ensures EraseAccount(ev, members, tenant, user) == EraseSet(ev, tenant, {user})
    ensures TablesOk(EraseAccount(ev, members, tenant, user), members - {Membership(tenant, user)})
  {
    OrphanedIsAbandoned(ev, tenant, user);
    EraseSetKeepsOk(ev, members, tenant, {user});
    assert (set u | u in {user} :: Membership(tenant, u)) == {Membership(tenant, user)};
    if Membership(tenant, user) !in members { EraseNobody(ev, members, tenant, {user}); }
  }

  function Elements(users: seq<UserId>): set<UserId> { set u | u in users }

  /** Erasing users one after the other, in any order and with repetitions, leaves what erasing the whole set leaves. */
  lemma {:induction false} ErasureIsConfluent(ev: Tables, members: set<Membership>, tenant: TenantId, users: seq<UserId>)
    requires TablesOk(ev, members)
    ensures EraseInOrder(ev, members, tenant, users) == EraseSet(ev, tenant, Elements(users))
    decreases users
  {
    if users == [] {
      EraseNobody(ev, members, tenant, {});
      assert Elements(users) == {};
    } else {
      EraseAccountIsEraseSet(ev, members, tenant, users[0]);
      ErasureIsConfluent(EraseAccount(ev, members, tenant, users[0]), members - {Membership(tenant, users[0])}, tenant, users[1..]);
      EraseInTwoSteps(ev, members, tenant, {users[0]}, Elements(users[1..]));
      assert Elements(users) == {users[0]} + Elements(users[1..]);
    }
  }

  lemma OrderDoesNotMatter(ev: Tables, members: set<Membership>, tenant: TenantId, users: seq<UserId>, others: seq<UserId>)
    requires TablesOk(ev, members) && Elements(users) == Elements(others)
    ensures EraseInOrder(ev, members, tenant, users) == EraseInOrder(ev, members, tenant, others)
  {
    ErasureIsConfluent(ev, members, tenant, users);
    ErasureIsConfluent(ev, members, tenant, others);
  }

  /** The version is private, had contributors and all of them are in `users`, read off the tables. */
  ghost predicate IsAbandoned(ev: Tables, tenant: TenantId, users: set<UserId>, v: VersionId) {
    && v in ev.versions && ev.versions[v].tenant == tenant
    && ev.versions[v].source in ev.sources && ev.sources[ev.versions[v].source].sourceType in {Gmail, GroupMe, Screenshot}
    && (exists c | c in ev.contributors :: c.tenant == tenant && c.version == v)
    && (forall c | c in ev.contributors && c.tenant == tenant && c.version == v :: c.user in users)
  }

  lemma AbandonedAre(ev: Tables, members: set<Membership>, tenant: TenantId, users: set<UserId>, v: VersionId)
    requires TablesOk(ev, members)
    ensures v in Abandoned(ev, tenant, users) <==> IsAbandoned(ev, tenant, users, v)
  {
    var us := Contributors(ev, tenant, v);
    assert forall c | c in ev.contributors && c.tenant == tenant && c.version == v :: c.user in us;
    assert forall u | u in us :: Contribution(tenant, v, u) in ev.contributors;
    if IsAbandoned(ev, tenant, users, v) {
      var c :| c in ev.contributors && c.tenant == tenant && c.version == v;
      assert c.user in us;
    }
  }

  lemma SourcesLeft(ev: Tables, members: set<Membership>, tenant: TenantId, users: set<UserId>, s: SourceId)
    requires TablesOk(ev, members) && s in ev.sources
    ensures
      var ev' := EraseSet(ev, tenant, users);
      s !in ev'.sources <==> forall v | v in ev.versions && ev.versions[v].source == s :: v !in ev'.versions
  {
    var ev' := EraseSet(ev, tenant, users);
    assert HasVersion(ev.versions, s);
    if s in ev'.sources {
      EraseSetKeepsOk(ev, members, tenant, users);
      assert HasVersion(ev'.versions, s);
    }
  }

  /**
   Exactly which evidence goes: a version of the tenant iff it is private, had
   contributors and all of them are erased; its claims with it; a source iff all its
   versions went.  Other tenants keep everything.
   */
  lemma WhatErasureRemoves(ev: Tables, members: set<Membership>, tenant: TenantId, users: set<UserId>)
    requires TablesOk(ev, members)
    ensures
      var ev' := EraseSet(ev, tenant, users);
      && (forall v | v in ev.versions :: v !in ev'.versions <==> IsAbandoned(ev, tenant, users, v))
      && (forall c :: c in ev'.contributors <==> c in ev.contributors && !(c.tenant == tenant && c.user in users))
      && (forall c | c in ev.claims :: c !in ev'.claims <==> ev.claims[c].version !in ev'.versions)
      && (forall s | s in ev.sources :: s !in ev'.sources <==> forall v | v in ev.versions && ev.versions[v].source == s :: v !in ev'.versions)
      && ev'.versions.Keys <= ev.versions.Keys && ev'.claims.Keys <= ev.claims.Keys && ev'.sources.Keys <= ev.sources.Keys
      && (forall v | v in ev'.versions :: ev'.versions[v] == ev.versions[v])
  {
    var ev' := EraseSet(ev, tenant, users);
    forall v | v in ev.versions
      ensures v in Abandoned(ev, tenant, users) <==> IsAbandoned(ev, tenant, users, v)
    {
      AbandonedAre(ev, members, tenant, users, v);
    }
    forall s | s in ev.sources
      ensures s !in ev'.sources <==> forall v | v in ev.versions && ev.versions[v].source == s :: v !in ev'.versions
    {
      SourcesLeft(ev, members, tenant, users, s);
    }
    hide IsAbandoned, HasVersion;
  }
}
