/**
 Which row leaseNext picks, and how long a tenant can be passed over.
 */
module Fairness {
  import opened Prelude
  import opened Jobs
  import opened QueueRuns

  // ------------------------------------------- rank per tenant, then order

  ghost predicate FirstOfTenant(q: Queue, id: JobId, now: nat) {
    && id in q.rows && Ready(q.rows[id], now)
    && forall j | j in q.rows && Ready(q.rows[j], now) && j.tenant == id.tenant :: RowLeq(q.rows[id], q.rows[j])
  }

  /** `row_number() = 1`: one ready row for every tenant that has any, first in that tenant's order. */
  ghost predicate RanksFirst(q: Queue, picks: map<TenantId, JobId>, now: nat) {
    && (forall t | t in picks :: picks[t].tenant == t && FirstOfTenant(q, picks[t], now))
    && (forall j | j in q.rows && Ready(q.rows[j], now) :: j.tenant in picks)
  }

  /** The first of the ranked rows in the order across tenants. */
  ghost predicate FirstRanked(q: Queue, picks: map<TenantId, JobId>, id: JobId, now: nat)
    requires RanksFirst(q, picks, now)
  {
    && id.tenant in picks && picks[id.tenant] == id
    && forall t | t in picks :: Before(q, id, picks[t])
  }

  lemma RankedIsNext(q: Queue, picks: map<TenantId, JobId>, id: JobId, now: nat)
    requires RanksFirst(q, picks, now) && FirstRanked(q, picks, id, now)
    ensures IsNext(q, id, now)
  {
    forall j | j in q.rows && Ready(q.rows[j], now)
      ensures Before(q, id, j)
    {
      assert Before(q, id, picks[j.tenant]) && RowLeq(q.rows[picks[j.tenant]], q.rows[j]);
    }
  }

  /** Any non-empty set of rows has a least one in the order across tenants. */
  lemma {:induction false} LeastExists(q: Queue, ids: set<JobId>) returns (least: JobId)
    requires ids != {} && ids <= q.rows.Keys
    ensures least in ids && forall j | j in ids :: Before(q, least, j)
    decreases |ids|
  {
    var x :| x in ids;
    var rest := ids - {x};
    if rest == {} {
      least := x;
      assert ids == {x};
    } else {
      var y := LeastExists(q, rest);
      least := if Before(q, x, y) then x else y;
      forall j | j in ids
        ensures Before(q, least, j)
      {
        if j != x { assert j in rest; }
      }
    }
  }

  lemma NextExists(q: Queue, now: nat) returns (id: JobId)
    requires !NoneReady(q, now)
    ensures IsNext(q, id, now)
  {
    var ready := set j | j in q.rows && Ready(q.rows[j], now);
    var some :| some in q.rows && Ready(q.rows[some], now);
    assert some in ready;
    id := LeastExists(q, ready);
  }

  lemma NextIsFirstOfTenant(q: Queue, id: JobId, now: nat)
    requires IsNext(q, id, now)
    ensures FirstOfTenant(q, id, now)
  {
  }

  lemma FirstOfTenantExists(q: Queue, tenant: TenantId, now: nat)
    requires exists j :: j in q.rows && Ready(q.rows[j], now) && j.tenant == tenant
    ensures exists id: JobId :: id.tenant == tenant && FirstOfTenant(q, id, now)
  {
    var ready := set j | j in q.rows && Ready(q.rows[j], now) && j.tenant == tenant;
    var some :| some in q.rows && Ready(q.rows[some], now) && some.tenant == tenant;
    assert some in ready;
    var id := LeastExists(q, ready);
    forall j | j in q.rows && Ready(q.rows[j], now) && j.tenant == id.tenant
      ensures RowLeq(q.rows[id], q.rows[j])
    {
      assert j in ready;
    }
    assert id.tenant == tenant && FirstOfTenant(q, id, now);
  }

  ghost function SomeFirst(q: Queue, tenant: TenantId, now: nat): (id: JobId)
    requires exists j :: j in q.rows && Ready(q.rows[j], now) && j.tenant == tenant
    ensures id.tenant == tenant && FirstOfTenant(q, id, now)
  {
    FirstOfTenantExists(q, tenant, now);
    var id: JobId :| id.tenant == tenant && FirstOfTenant(q, id, now);
    id
  }

  /** Ranking inside tenants and then ordering across them picks exactly the least ready rows of the whole table. */
  lemma RankThenOrder(q: Queue, id: JobId, now: nat)
    ensures IsNext(q, id, now) <==> exists picks: map<TenantId, JobId> :: RanksFirst(q, picks, now) && FirstRanked(q, picks, id, now)
  {
    if IsNext(q, id, now) {
      NextIsFirstOfTenant(q, id, now);
      var tenants := set j | j in q.rows && Ready(q.rows[j], now) :: j.tenant;
      var picks := map t | t in tenants :: if t == id.tenant then id else SomeFirst(q, t, now);
      assert RanksFirst(q, picks, now);
      assert FirstRanked(q, picks, id, now);
    }
    forall picks: map<TenantId, JobId> | RanksFirst(q, picks, now) && FirstRanked(q, picks, id, now)
      ensures IsNext(q, id, now)
    {
      RankedIsNext(q, picks, id, now);
    }
  }

  // --------------------------------------------------------- bounded bypass

  predicate LeasesTenant(r: Run, k: nat, t: TenantId)
    requires k < |r.steps|
  {
    r.steps[k].event.Leasing? && r.steps[k].event.id.tenant == t
  }

  /** Tenants served by the steps from `i` up to `j`, in order. */
  function Served(r: Run, i: nat, j: nat): seq<TenantId>
    requires i <= j <= |r.steps|
  {
    if i == j then []
    else Served(r, i, j - 1) + if r.steps[j - 1].event.Leasing? then [r.steps[j - 1].event.id.tenant] else []
  }

  /** Some row of the tenant is ready at the moment step `k` is taken. */
  ghost predicate HasReady(r: Run, k: nat, t: TenantId)
    requires k < |r.steps| && |r.worlds| == |r.steps| + 1
  {
    exists id :: id in r.worlds[k].queue.rows && id.tenant == t && Ready(r.worlds[k].queue.rows[id], r.steps[k].now)
  }

  /** The row is neither leased nor cancelled nor deleted by step `k`. */
  predicate WaitsThrough(r: Run, k: nat, id: JobId)
    requires k < |r.steps| && |r.worlds| == |r.steps| + 1
  {
    && !(r.steps[k].event.Leasing? && r.steps[k].event.id == id)
    && id in r.worlds[k + 1].queue.rows && r.worlds[k + 1].queue.rows[id].status != Cancelled
  }

  lemma StepKeepsReady(w: World, s: Step, id: JobId)
    requires Inv(w) && Enabled(w, s) && id in w.queue.rows && Ready(w.queue.rows[id], s.now)
    requires !(s.event.Leasing? && s.event.id == id)
    requires id in After(w, s).queue.rows && After(w, s).queue.rows[id].status != Cancelled
    ensures Ready(After(w, s).queue.rows[id], s.now)
  {
    assert RowOk(id, w.queue.rows[id]);
  }

  lemma SweepKeepsReady(q: Queue, id: JobId, now: nat)
    requires id in q.rows && Ready(q.rows[id], now)
    ensures Swept(q, now).rows[id] == q.rows[id]
  {
  }

  lemma ReadyLater(row: Row, now: nat, later: nat)
    requires Ready(row, now) && now <= later
    ensures Ready(row, later)
  {
  }

  /** A ready row is passed over only for a tenant that was leased no later than its own. */
  lemma PassedOverFor(w: World, s: Step, id: JobId)
    requires Enabled(w, s) && s.event.Leasing? && id in w.queue.rows && Ready(w.queue.rows[id], s.now)
    ensures LastLeased(w.queue, s.event.id.tenant) <= LastLeased(w.queue, id.tenant)
  {
    SweepKeepsReady(w.queue, id, s.now);
    assert Before(Swept(w.queue, s.now), s.event.id, id);
  }

  lemma {:induction false} StaysReady(r: Run, id: JobId, i: nat, n: nat)
    requires ValidRun(r) && i <= n <= |r.steps| && id in r.worlds[i].queue.rows
    requires Ready(r.worlds[i].queue.rows[id], r.worlds[i].clock)
    requires forall k | i <= k < n :: WaitsThrough(r, k, id)
    ensures id in r.worlds[n].queue.rows && Ready(r.worlds[n].queue.rows[id], r.worlds[n].clock)
    decreases n - i
  {
    if n > i {
      StaysReady(r, id, i, n - 1);
      assert r.worlds[n - 1 + 1] == After(r.worlds[n - 1], r.steps[n - 1]);
      assert WaitsThrough(r, n - 1, id);
      InvAlways(r, n - 1);
      ReadyLater(r.worlds[n - 1].queue.rows[id], r.worlds[n - 1].clock, r.steps[n - 1].now);
      StepKeepsReady(r.worlds[n - 1], r.steps[n - 1], id);
    }
  }

  /** A tenant's lease clock moves only when that tenant is served. */
  lemma {:induction false} LeaseClockStill(r: Run, t: TenantId, i: nat, n: nat)
    requires ValidRun(r) && i <= n <= |r.steps|
    requires forall k | i <= k < n :: !LeasesTenant(r, k, t)
    ensures LastLeased(r.worlds[n].queue, t) == LastLeased(r.worlds[i].queue, t)
    decreases n - i
  {
    if n > i {
      LeaseClockStill(r, t, i, n - 1);
      assert r.worlds[n - 1 + 1] == After(r.worlds[n - 1], r.steps[n - 1]);
      assert !LeasesTenant(r, n - 1, t);
    }
  }

  lemma {:induction false} LeaseClockGrows(r: Run, t: TenantId, i: nat, n: nat)
    requires ValidRun(r) && i <= n <= |r.steps|
    ensures LastLeased(r.worlds[i].queue, t) <= LastLeased(r.worlds[n].queue, t) <= r.worlds[n].clock
    decreases n - i
  {
    InvAlways(r, n);
    if n > i {
      LeaseClockGrows(r, t, i, n - 1);
      assert r.worlds[n - 1 + 1] == After(r.worlds[n - 1], r.steps[n - 1]);
    }
  }

  lemma ServedClock(r: Run, k: nat, n: nat, t: TenantId)
    requires ValidRun(r) && k < n <= |r.steps| && LeasesTenant(r, k, t)
    ensures r.worlds[k].clock < LastLeased(r.worlds[n].queue, t)
  {
    assert r.worlds[k + 1] == After(r.worlds[k], r.steps[k]);
    LeaseClockGrows(r, t, k + 1, n);
  }

  /** Between two leases of one tenant, every other tenant that has a ready row at the second has been served. */
  lemma NoTenantTwice(r: Run, t: TenantId, k: nat, n: nat, other: TenantId)
    requires ValidRun(r) && k < n < |r.steps| && HasReady(r, n, t)
    requires forall m | k <= m <= n :: !LeasesTenant(r, m, t)
    requires LeasesTenant(r, k, other)
    ensures !LeasesTenant(r, n, other)
  {
    ServedClock(r, k, n, other);
    LeaseClockStill(r, t, k, n);
    LeaseClockGrows(r, t, k, k);
    if LeasesTenant(r, n, other) {
      assert Enabled(r.worlds[n], r.steps[n]);
      var id :| id in r.worlds[n].queue.rows && id.tenant == t && Ready(r.worlds[n].queue.rows[id], r.steps[n].now);
      PassedOverFor(r.worlds[n], r.steps[n], id);
    }
  }

  predicate NoDuplicates(s: seq<TenantId>) { forall a, b | 0 <= a < b < |s| :: s[a] != s[b] }

  lemma {:induction false} ServedBefore(r: Run, i: nat, j: nat, t: TenantId)
    requires i <= j <= |r.steps| && t in Served(r, i, j)
    ensures exists k :: i <= k < j && LeasesTenant(r, k, t)
    decreases j - i
  {
    if t in Served(r, i, j - 1) {
      ServedBefore(r, i, j - 1, t);
    } else {
      assert LeasesTenant(r, j - 1, t);
    }
  }

  lemma {:induction false} DistinctFit(s: seq<TenantId>, universe: set<TenantId>)
    requires NoDuplicates(s) && forall t | t in s :: t in universe
    ensures |s| <= |universe|
  {
    if s != [] {
      var last := s[|s| - 1];
      forall t | t in s[..|s| - 1]
        ensures t in universe - {last}
      {
      }
      DistinctFit(s[..|s| - 1], universe - {last});
    }
  }

  /** From step `i` up to `j` the tenant is not served although it has some ready row, not always the same, whenever a lease is granted. */
  ghost predicate PassedOver(r: Run, t: TenantId, i: nat, j: nat)
    requires i <= j <= |r.steps| && |r.worlds| == |r.steps| + 1
  {
    forall k | i <= k < j && r.steps[k].event.Leasing? :: !LeasesTenant(r, k, t) && HasReady(r, k, t)
  }

  lemma ServedAnew(r: Run, t: TenantId, i: nat, n: nat)
    requires ValidRun(r) && i <= n < |r.steps| && PassedOver(r, t, i, n + 1) && r.steps[n].event.Leasing?
    ensures r.steps[n].event.id.tenant !in Served(r, i, n)
  {
    var other := r.steps[n].event.id.tenant;
    if other in Served(r, i, n) {
      ServedBefore(r, i, n, other);
      var k :| i <= k < n && LeasesTenant(r, k, other);
      NoTenantTwice(r, t, k, n, other);
    }
  }

  lemma {:induction false} ServedAreDistinct(r: Run, t: TenantId, i: nat, j: nat)
    requires ValidRun(r) && i <= j <= |r.steps| && PassedOver(r, t, i, j)
    ensures NoDuplicates(Served(r, i, j)) && t !in Served(r, i, j)
    decreases j - i
  {
    assert |r.worlds| == |r.steps| + 1;
    hide ValidRun, HasReady;
    if j > i {
      ServedAreDistinct(r, t, i, j - 1);
      if r.steps[j - 1].event.Leasing? {
        ServedAnew(r, t, i, j - 1);
        assert !LeasesTenant(r, j - 1, t);
      }
    }
  }

  /**
   While a tenant continuously has some ready row and is not served, every other tenant
   is served at most once: the tenants served meanwhile are distinct and fewer than all.
   */
  lemma BoundedBypass(r: Run, t: TenantId, i: nat, j: nat, tenants: set<TenantId>)
    requires ValidRun(r) && i <= j <= |r.steps| && PassedOver(r, t, i, j)
    requires t in tenants
    requires forall k | i <= k < j && r.steps[k].event.Leasing? :: r.steps[k].event.id.tenant in tenants
    ensures NoDuplicates(Served(r, i, j))
    ensures forall other | other in Served(r, i, j) :: other in tenants && other != t
    ensures |Served(r, i, j)| < |tenants|
  {
    ServedAreDistinct(r, t, i, j);
    hide ValidRun, PassedOver, Served;
    forall other | other in Served(r, i, j)
      ensures other in tenants
    {
      ServedBefore(r, i, j, other);
    }
    DistinctFit(Served(r, i, j), tenants - {t});
  }

  /** One waiting row is enough: while it waits and its tenant is not served, its tenant has a ready row. */
  lemma WaitingRowKeepsTenantReady(r: Run, id: JobId, i: nat, j: nat)
    requires ValidRun(r) && i <= j <= |r.steps| && id in r.worlds[i].queue.rows
    requires Ready(r.worlds[i].queue.rows[id], r.worlds[i].clock)
    requires forall k | i <= k < j :: WaitsThrough(r, k, id) && !LeasesTenant(r, k, id.tenant)
    ensures PassedOver(r, id.tenant, i, j)
  {
    forall k | i <= k < j && r.steps[k].event.Leasing?
      ensures HasReady(r, k, id.tenant)
    {
      StaysReady(r, id, i, k);
      assert Enabled(r.worlds[k], r.steps[k]);
      ReadyLater(r.worlds[k].queue.rows[id], r.worlds[k].clock, r.steps[k].now);
    }
  }

  /** A lease goes to the tenant served longest ago; within it, and among tenants served equally long ago, to the lowest priority number, then to the oldest row. */
  lemma LeaseServesFirstInLine(r: Run, k: nat, other: JobId)
    requires ValidRun(r) && k < |r.steps| && r.steps[k].event.Leasing?
    requires other in r.worlds[k].queue.rows && Ready(r.worlds[k].queue.rows[other], r.steps[k].now)
    ensures
      var q, id := r.worlds[k].queue, r.steps[k].event.id;
      && id in q.rows && Ready(q.rows[id], r.steps[k].now)
      && LastLeased(q, id.tenant) <= LastLeased(q, other.tenant)
      && (LastLeased(q, id.tenant) == LastLeased(q, other.tenant) ==>
            && q.rows[id].priority <= q.rows[other].priority
            && (q.rows[id].priority == q.rows[other].priority ==> q.rows[id].createdAt <= q.rows[other].createdAt))
  {
    assert Enabled(r.worlds[k], r.steps[k]);
    SweepKeepsReady(r.worlds[k].queue, other, r.steps[k].now);
    assert Before(Swept(r.worlds[k].queue, r.steps[k].now), r.steps[k].event.id, other);
  }
}
