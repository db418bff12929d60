/**
 When the global identity row goes.  Postgres keeps a counter of memberships per
 user with a trigger, SQLite looks for a remaining membership row.
 */
module Memberships {
  import opened Prelude
  import opened Jobs
  import opened Evidence

  /** The Postgres side: the users table with its counter column. */
  datatype Pg = Pg(counts: map<UserId, int>, members: set<Membership>)

  /** The SQLite side. */
  datatype Lite = Lite(users: set<UserId>, members: set<Membership>)

  datatype Event = SignIn(tenant: TenantId, user: UserId) | Erase(tenant: TenantId, user: UserId)

  /** The row trigger `memberships_adjust_user_count`. */
  function Adjust(counts: map<UserId, int>, user: UserId, delta: int): map<UserId, int> {
    if user in counts then counts[user := counts[user] + delta] else counts
  }

  function PgStep(p: Pg, e: Event): Pg {
    var m := Membership(e.tenant, e.user);
    match e
    case SignIn(_, u) =>
      var counts := if u in p.counts then p.counts else p.counts[u := 0];
      if m in p.members then p.(counts := counts)
      else Pg(Adjust(counts, u, 1), p.members + {m})
    case Erase(_, u) =>
      if m !in p.members then p
      else
        var counts := Adjust(p.counts, u, -1);
        Pg(if u in counts && counts[u] == 0 then counts - {u} else counts, p.members - {m})
  }

  function LiteStep(l: Lite, e: Event): Lite {
    var m := Membership(e.tenant, e.user);
    match e
    case SignIn(_, u) => Lite(l.users + {u}, l.members + {m})
    case Erase(_, u) =>
      if m !in l.members then l
      else
        var members := l.members - {m};
        Lite(if exists x | x in members :: x.user == u then l.users else l.users - {u}, members)
  }

  function Of(members: set<Membership>, user: UserId): set<Membership> {
    set m | m in members && m.user == user
  }

  /** The counter is the number of membership rows, and users with rows exist. */
  predicate CountsOk(p: Pg) {
    && (forall u | u in p.counts :: p.counts[u] == |Of(p.members, u)|)
    && (forall m | m in p.members :: m.user in p.counts)
  }

  predicate Twins(p: Pg, l: Lite) {
    p.members == l.members && p.counts.Keys == l.users
  }

  lemma AddingMember(members: set<Membership>, m: Membership, u: UserId)
    requires m !in members
    ensures |Of(members + {m}, u)| == |Of(members, u)| + if m.user == u then 1 else 0
  {
    assert Of(members + {m}, u) == if m.user == u then Of(members, u) + {m} else Of(members, u);
  }

  lemma RemovingMember(members: set<Membership>, m: Membership, u: UserId)
    requires m in members
    ensures |Of(members - {m}, u)| == |Of(members, u)| - if m.user == u then 1 else 0
  {
    assert Of(members - {m}, u) == if m.user == u then Of(members, u) - {m} else Of(members, u);
  }

  lemma SignInKeepsCounts(p: Pg, e: Event)
    requires CountsOk(p) && e.SignIn?
    ensures CountsOk(PgStep(p, e))
  {
    var m, p' := Membership(e.tenant, e.user), PgStep(p, e);
    if e.user !in p.counts { assert Of(p.members, e.user) == {}; }
    forall u | u in p'.counts
      ensures p'.counts[u] == |Of(p'.members, u)|
    {
      if m !in p.members { AddingMember(p.members, m, u); }
    }
  }

  lemma EraseKeepsCounts(p: Pg, e: Event)
    requires CountsOk(p) && e.Erase?
    ensures CountsOk(PgStep(p, e))
    ensures forall u | u in p.counts && u !in PgStep(p, e).counts :: u == e.user && Of(PgStep(p, e).members, u) == {}
  {
    var m, p' := Membership(e.tenant, e.user), PgStep(p, e);
    if m in p.members {
      forall u
        ensures |Of(p'.members, u)| == |Of(p.members, u)| - if e.user == u then 1 else 0
      {
        RemovingMember(p.members, m, u);
      }
      forall x | x in p'.members
        ensures x.user in p'.counts
      {
        assert x in Of(p'.members, x.user);
      }
    }
  }

  /** Both databases delete the identity in the same states. */
  lemma StepKeepsTwins(p: Pg, l: Lite, e: Event)
    requires CountsOk(p) && Twins(p, l)
    ensures CountsOk(PgStep(p, e)) && Twins(PgStep(p, e), LiteStep(l, e))
  {
    match e
    case SignIn(_, _) => SignInKeepsCounts(p, e);
    case Erase(_, user) =>
      EraseKeepsCounts(p, e);
      var p', l' := PgStep(p, e), LiteStep(l, e);
      assert p'.members == l'.members;
      if Membership(e.tenant, user) in p.members {
        assert Of(p'.members, user) == {} <==> !exists x | x in p'.members :: x.user == user;
        if Of(p'.members, user) != {} {
          var x :| x in Of(p'.members, user);
          assert x.user in p'.counts;
        } else {
          RemovingMember(p.members, Membership(e.tenant, user), user);
        }
        assert p'.counts.Keys == l'.users;
      }
  }

  function PgRun(events: seq<Event>): Pg {
    if events == [] then Pg(map[], {}) else PgStep(PgRun(events[..|events| - 1]), events[|events| - 1])
  }

  function LiteRun(events: seq<Event>): Lite {
    if events == [] then Lite({}, {}) else LiteStep(LiteRun(events[..|events| - 1]), events[|events| - 1])
  }

  /**
   After any run of sign-ins and erasures in any tenants the counter of every user
   equals the number of that user's membership rows, and both databases hold the
   same memberships and the same identities.
   */
  lemma {:induction false} CounterCountsMemberships(events: seq<Event>)
    ensures CountsOk(PgRun(events)) && Twins(PgRun(events), LiteRun(events))
    ensures forall u :: u in PgRun(events).counts <==> exists m | m in PgRun(events).members :: m.user == u
  {
    if events != [] {
      var before := events[..|events| - 1];
      CounterCountsMemberships(before);
      StepKeepsTwins(PgRun(before), LiteRun(before), events[|events| - 1]);
      IdentitiesAreMembers(PgRun(before), events[|events| - 1]);
    }
  }

  /** Who is a member: exactly those whose last event in the tenant is a sign-in, whatever happened elsewhere. */
  predicate SignedInLast(events: seq<Event>, m: Membership) {
    exists i | 0 <= i < |events| ::
      && events[i] == SignIn(m.tenant, m.user)
      && forall j | i < j < |events| :: events[j] != Erase(m.tenant, m.user)
  }

  lemma {:induction false} MembersSignedInLast(events: seq<Event>, m: Membership)
    ensures m in PgRun(events).members <==> SignedInLast(events, m)
  {
    if events != [] {
      var n := |events| - 1;
      var before, last := events[..n], events[n];
      MembersSignedInLast(before, m);
      if SignedInLast(before, m) && last != Erase(m.tenant, m.user) {
        var i :| 0 <= i < n && before[i] == SignIn(m.tenant, m.user) && forall j | i < j < n :: before[j] != Erase(m.tenant, m.user);
        assert events[i] == SignIn(m.tenant, m.user);
      }
      if last == SignIn(m.tenant, m.user) { assert events[n] == SignIn(m.tenant, m.user); }
      if SignedInLast(events, m) && last != SignIn(m.tenant, m.user) {
        var i :| 0 <= i < |events| && events[i] == SignIn(m.tenant, m.user) && forall j | i < j < |events| :: events[j] != Erase(m.tenant, m.user);
        assert before[i] == events[i];
      }
    }
  }

  lemma IdentitiesAreMembers(p: Pg, e: Event)
    requires CountsOk(p) && forall u :: u in p.counts <==> exists m | m in p.members :: m.user == u
    ensures forall u :: u in PgStep(p, e).counts <==> exists m | m in PgStep(p, e).members :: m.user == u
  {
    var p' := PgStep(p, e);
    if e.SignIn? { SignInKeepsCounts(p, e); } else { EraseKeepsCounts(p, e); }
    forall u
      ensures u in p'.counts <==> exists m | m in p'.members :: m.user == u
    {
      if u in p'.counts {
        if u in p.counts {
          var m :| m in p.members && m.user == u;
          if m !in p'.members {
            assert p'.counts[u] == |Of(p'.members, u)| && p'.counts[u] != 0;
            var x :| x in Of(p'.members, u);
            assert x in p'.members && x.user == u;
          }
        } else {
          assert Membership(e.tenant, u) in p'.members;
        }
      }
    }
  }
}
