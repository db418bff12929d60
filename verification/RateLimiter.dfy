/**
 The in-memory rate limiter.  It keeps at most `maxBuckets` buckets in insertion
 order and is compared with a limiter that never forgets a bucket.
 */
module RateLimiter {

  datatype Bucket = Bucket(count: nat, resetAt: nat)
  datatype Answer = Answer(allowed: bool, remaining: nat, resetAt: nat)
  datatype Call = Call(key: string, limit: nat, windowMs: nat, now: nat)

  type Buckets = map<string, Bucket>

  // ------------------------------------------------------ one key, one call

  /** The bucket a call counts in: a fresh one when there is none or its window is over. */
  function Opened(bs: Buckets, c: Call): Bucket {
    if c.key !in bs || bs[c.key].resetAt <= c.now then Bucket(0, c.now + c.windowMs) else bs[c.key]
  }

  function Counted(bs: Buckets, c: Call): Bucket {
    Opened(bs, c).(count := Opened(bs, c).count + 1)
  }

  function AnswerFor(bs: Buckets, c: Call): Answer {
    var b := Counted(bs, c);
    Answer(b.count <= c.limit, if b.count <= c.limit then c.limit - b.count else 0, b.resetAt)
  }

  /** The limiter that never forgets. */
  function Unbounded(bs: Buckets, c: Call): Buckets { bs[c.key := Counted(bs, c)] }

  // ------------------------------------------------- the ordered, bounded map

  /** A JavaScript Map: the buckets and their keys in insertion order. */
  datatype Store = Store(order: seq<string>, buckets: Buckets)

  function Elements(order: seq<string>): set<string> { set k | k in order }

  predicate NoDuplicates(order: seq<string>) { forall i, j | 0 <= i < j < |order| :: order[i] != order[j] }

  predicate Valid(s: Store) {
    Elements(s.order) == s.buckets.Keys && NoDuplicates(s.order) && |s.order| == |s.buckets|
  }

  function Without(order: seq<string>, i: nat): seq<string>
    requires i < |order|
  {
    order[..i] + order[i + 1..]
  }

  function RemoveAt(s: Store, i: nat): Store
    requires i < |s.order|
  {
    Store(Without(s.order, i), s.buckets - {s.order[i]})
  }

  lemma WithoutElements(order: seq<string>, i: nat)
    requires i < |order| && NoDuplicates(order)
    ensures NoDuplicates(Without(order, i)) && Elements(Without(order, i)) == Elements(order) - {order[i]}
  {
    var r := Without(order, i);
    forall k
      ensures k in r <==> k in order && k != order[i]
    {
      if k in order && k != order[i] {
        var j :| 0 <= j < |order| && order[j] == k;
        assert k == if j < i then r[j] else r[j - 1];
      }
    }
  }

  lemma RemoveAtValid(s: Store, i: nat)
    requires Valid(s) && i < |s.order|
    ensures Valid(RemoveAt(s, i)) && |RemoveAt(s, i).order| == |s.order| - 1
  {
    WithoutElements(s.order, i);
    var r := RemoveAt(s, i);
    assert s.order[i] in Elements(s.order);
    assert r.buckets.Keys == s.buckets.Keys - {s.order[i]};
    assert |r.buckets.Keys| == |r.buckets| && |s.buckets.Keys| == |s.buckets|;
  }

  /** Map.set: an existing key keeps its place. */
  function Put(s: Store, key: string, b: Bucket): Store {
    Store(if key in s.buckets then s.order else s.order + [key], s.buckets[key := b])
  }

  lemma PutValid(s: Store, key: string, b: Bucket)
    requires Valid(s)
    ensures Valid(Put(s, key, b))
    ensures |Put(s, key, b).order| == |s.order| + if key in s.buckets then 0 else 1
  {
    var p := Put(s, key, b);
    assert key in s.buckets <==> key in Elements(s.order);
    assert p.buckets.Keys == s.buckets.Keys + {key};
    assert |p.buckets.Keys| == |p.buckets| && |s.buckets.Keys| == |s.buckets|;
  }

  predicate Expired(s: Store, key: string, now: nat) { key in s.buckets && s.buckets[key].resetAt <= now }

  /** The eviction of last resort; an empty key counts as no key and is left alone. */
  function DropFirst(s: Store): Store {
    if s.order == [] || s.order[0] == "" then s else RemoveAt(s, 0)
  }

  /** prune: walk the map in order, delete expired buckets until it fits, else drop the oldest. */
  function PruneFrom(s: Store, i: nat, now: nat, max: nat): Store
    requires i <= |s.order|
    decreases |s.order| - i
  {
    if i == |s.order| then DropFirst(s)
    else if Expired(s, s.order[i], now) then
      var r := RemoveAt(s, i);
      if |r.order| <= max then r else PruneFrom(r, i, now, max)
    else if |s.order| <= max then s
    else PruneFrom(s, i + 1, now, max)
  }

  function Bounded(s: Store, c: Call, max: nat): Store {
    var p := Put(s, c.key, Counted(s.buckets, c));
    if |p.order| > max then PruneFrom(p, 0, c.now, max) else p
  }

  /** The answer to a call: the call is counted in the key's open window, or opens a new one, and passes while the count is within the limit. */
  ghost predicate Answers(answer: Answer, bs: Buckets, c: Call) {
    var open := c.key in bs && c.now < bs[c.key].resetAt;
    var count := if open then bs[c.key].count + 1 else 1;
    && (answer.allowed <==> count <= c.limit)
    && answer.remaining == (if count <= c.limit then c.limit - count else 0)
    && answer.resetAt == if open then bs[c.key].resetAt else c.now + c.windowMs
  }

  /** The call's window is on record, a new key behind the others, and the other windows are as they were. */
  ghost predicate Recorded(before: Store, after: Store, c: Call, answer: Answer) {
    && after.order == (if c.key in before.buckets then before.order else before.order + [c.key])
    && after.buckets.Keys == before.buckets.Keys + {c.key} && after.buckets[c.key].resetAt == answer.resetAt
    && forall k | k in before.buckets && k != c.key :: after.buckets[k] == before.buckets[k]
  }

  lemma AnswersRightly(bs: Buckets, c: Call)
    ensures Answers(AnswerFor(bs, c), bs, c)
  {
  }

  lemma UnprunedCall(s: Store, c: Call, max: nat)
    requires |s.order| + (if c.key !in s.buckets then 1 else 0) <= max
    ensures Recorded(s, Bounded(s, c, max), c, AnswerFor(s.buckets, c))
  {
  }

  class InMemoryRateLimiter {
    var store: Store
    const maxBuckets: nat

    constructor (maxBuckets: nat)
      ensures this.maxBuckets == maxBuckets && store == Store([], map[]) && Valid(store)
    {
      this.maxBuckets := maxBuckets;
      store := Store([], map[]);
    }

    method Consume(c: Call) returns (answer: Answer)
      requires Valid(store)
      modifies this
      ensures Valid(store)
      ensures store == Bounded(old(store), c, maxBuckets)
      ensures answer == AnswerFor(old(store).buckets, c)
      ensures Answers(answer, old(store).buckets, c)
      ensures
        var isNew := c.key !in old(store).buckets;
        |old(store).order| + (if isNew then 1 else 0) <= maxBuckets ==> Recorded(old(store), store, c, answer)
    {
      if |store.order| + (if c.key !in store.buckets then 1 else 0) <= maxBuckets { UnprunedCall(store, c, maxBuckets); }
      AnswersRightly(store.buckets, c);
      hide Valid, Answers, Recorded;
      var bucket := if c.key in store.buckets then store.buckets[c.key] else Bucket(0, 0);
      if c.key !in store.buckets || bucket.resetAt <= c.now {
        bucket := Bucket(0, c.now + c.windowMs);
      }
      bucket := bucket.(count := bucket.count + 1);
      assert bucket == Counted(store.buckets, c);
      PutValid(store, c.key, bucket);
      store := Put(store, c.key, bucket);
      if |store.order| > maxBuckets { Prune(c.now); }
      answer := Answer(bucket.count <= c.limit, if bucket.count <= c.limit then c.limit - bucket.count else 0, bucket.resetAt);
    }

    method Prune(now: nat)
      requires Valid(store)
      modifies this
      ensures Valid(store) && store == PruneFrom(old(store), 0, now, maxBuckets)
      ensures |old(store).order| > maxBuckets ==> Pruned(old(store), store, now, maxBuckets)
    {
      if |store.order| > maxBuckets { PruneMeans(store, 0, now, maxBuckets); }
      hide Pruned;
      var i := 0;
      while i < |store.order|
        invariant i <= |store.order| && Valid(store)
        invariant PruneFrom(store, i, now, maxBuckets) == PruneFrom(old(store), 0, now, maxBuckets)
        decreases |store.order| - i
      {
        if Expired(store, store.order[i], now) {
          RemoveAtValid(store, i);
          store := RemoveAt(store, i);
          if |store.order| <= maxBuckets { return; }
        } else {
          if |store.order| <= maxBuckets { return; }
          i := i + 1;
        }
      }
      if store.order != [] && store.order[0] != "" {
        RemoveAtValid(store, 0);
        store := RemoveAt(store, 0);
      }
    }
  }

  // ------------------------------------------------------------ what prune does

  predicate NoneExpired(s: Store, upTo: nat, now: nat)
    requires upTo <= |s.order|
  {
    forall j | 0 <= j < upTo :: !Expired(s, s.order[j], now)
  }

  /** With one bucket too many, prune removes the oldest expired bucket, or the oldest bucket if none is expired. */
  lemma {:induction false} PruneRemovesOne(s: Store, i: nat, now: nat, max: nat) returns (j: nat)
    requires i <= |s.order| && |s.order| == max + 1 && NoneExpired(s, i, now)
    ensures j <= |s.order|
    ensures j < |s.order| ==> Expired(s, s.order[j], now) && PruneFrom(s, i, now, max) == RemoveAt(s, j)
    ensures j == |s.order| ==> NoneExpired(s, |s.order|, now) && PruneFrom(s, i, now, max) == DropFirst(s)
    decreases |s.order| - i
  {
    if i == |s.order| || Expired(s, s.order[i], now) { j := i; } else { j := PruneRemovesOne(s, i + 1, now, max); }
  }

  lemma PruneValid(p: Store, now: nat, max: nat) returns (j: nat)
    requires Valid(p) && |p.order| == max + 1
    ensures Valid(PruneFrom(p, 0, now, max))
    ensures j <= |p.order|
    ensures j < |p.order| ==> Expired(p, p.order[j], now) && PruneFrom(p, 0, now, max) == RemoveAt(p, j)
    ensures j == |p.order| <==> NoneExpired(p, |p.order|, now)
    ensures |PruneFrom(p, 0, now, max).order| == if j == |p.order| && p.order[0] == "" then max + 1 else max
  {
    j := PruneRemovesOne(p, 0, now, max);
    if j < |p.order| { RemoveAtValid(p, j); } else if p.order[0] != "" { RemoveAtValid(p, 0); }
  }

  /** The keys that are left stand in the order in which they stood. */
  ghost predicate KeepsOrder(before: seq<string>, after: seq<string>) {
    forall a, b | 0 <= a < b < |after| :: StandsBefore(before, after[a], after[b])
  }

  ghost predicate StandsBefore(order: seq<string>, x: string, y: string) {
    exists i, j :: 0 <= i < j < |order| && order[i] == x && order[j] == y
  }

  /**
   What prune leaves of a map that is too big, however much: no fewer than `max` buckets,
   unchanged and in order.  Expired buckets go first, the oldest first, and one stays only when
   the map fits exactly.  An open bucket goes only when no expired one is left, and then only
   the oldest, unless its key is empty.
   */
  ghost predicate Pruned(s: Store, p: Store, now: nat, max: nat) {
    && Valid(p) && Shrinks(s, p, max) && ExpiredGoFirst(s, p, now, max) && OpenGoLast(s, p, now)
    && (|p.order| > max ==> p.order[0] == "" || exists k | k in s.buckets :: k !in p.buckets && !Expired(s, k, now))
  }

  ghost predicate Shrinks(s: Store, p: Store, max: nat) {
    && KeepsOrder(s.order, p.order) && max <= |p.order|
    && forall k | k in p.buckets :: k in s.buckets && p.buckets[k] == s.buckets[k]
  }

  ghost predicate ExpiredGoFirst(s: Store, p: Store, now: nat, max: nat) {
    forall k | Expired(p, k, now) ::
      |p.order| == max && forall x | x in s.buckets && x !in p.buckets :: Expired(s, x, now) && StandsBefore(s.order, x, k)
  }

  ghost predicate OpenGoLast(s: Store, p: Store, now: nat) {
    forall k | k in s.buckets && k !in p.buckets && !Expired(s, k, now) ::
      k != "" && forall x | x in s.buckets && x != k && !Expired(s, x, now) :: x in p.buckets && StandsBefore(s.order, k, x)
  }

  lemma WithoutKeepsOrder(order: seq<string>, i: nat)
    requires i < |order|
    ensures KeepsOrder(order, Without(order, i))
  {
    var r := Without(order, i);
    forall a, b | 0 <= a < b < |r|
      ensures StandsBefore(order, r[a], r[b])
    {
      var x, y := if a < i then a else a + 1, if b < i then b else b + 1;
      assert order[x] == r[a] && order[y] == r[b];
    }
  }

  lemma StandsInLarger(order: seq<string>, r: seq<string>, x: string, y: string)
    requires KeepsOrder(order, r) && StandsBefore(r, x, y)
    ensures StandsBefore(order, x, y)
  {
  }

  lemma OrderKept(s: Store, i: nat, p: Store, max: nat)
    requires Valid(s) && i < |s.order| && Shrinks(RemoveAt(s, i), p, max)
    ensures Shrinks(s, p, max)
  {
    WithoutKeepsOrder(s.order, i);
    forall a, b | 0 <= a < b < |p.order|
      ensures StandsBefore(s.order, p.order[a], p.order[b])
    {
      StandsInLarger(s.order, Without(s.order, i), p.order[a], p.order[b]);
    }
  }

  lemma FirstExpiredStandsBefore(s: Store, i: nat, k: string, now: nat)
    requires Valid(s) && i < |s.order| && NoneExpired(s, i, now) && Expired(s, k, now) && k != s.order[i]
    ensures StandsBefore(s.order, s.order[i], k)
  {
    assert k in Elements(s.order);
    var j :| 0 <= j < |s.order| && s.order[j] == k;
    assert i < j;
  }

  lemma ExpiredStillGoFirst(s: Store, i: nat, p: Store, now: nat, max: nat)
    requires Valid(s) && i < |s.order| && Expired(s, s.order[i], now) && NoneExpired(s, i, now)
    requires Shrinks(RemoveAt(s, i), p, max) && ExpiredGoFirst(RemoveAt(s, i), p, now, max)
    ensures ExpiredGoFirst(s, p, now, max)
  {
    var r, gone := RemoveAt(s, i), s.order[i];
    WithoutKeepsOrder(s.order, i);
    hide KeepsOrder, Valid, NoneExpired, StandsBefore;
    forall k | Expired(p, k, now)
      ensures |p.order| == max && forall x | x in s.buckets && x !in p.buckets :: Expired(s, x, now) && StandsBefore(s.order, x, k)
    {
      assert k in r.buckets;
      FirstExpiredStandsBefore(s, i, k, now);
      forall x | x in s.buckets && x !in p.buckets && x != gone
        ensures Expired(s, x, now) && StandsBefore(s.order, x, k)
      {
        assert x in r.buckets;
        StandsInLarger(s.order, r.order, x, k);
      }
    }
  }

  lemma OpenStillGoLast(s: Store, i: nat, p: Store, now: nat)
    requires Valid(s) && i < |s.order| && Expired(s, s.order[i], now) && OpenGoLast(RemoveAt(s, i), p, now)
    ensures OpenGoLast(s, p, now)
  {
    var r := RemoveAt(s, i);
    WithoutKeepsOrder(s.order, i);
    hide KeepsOrder, Valid, StandsBefore;
    forall k, x | k in s.buckets && k !in p.buckets && !Expired(s, k, now) && x in s.buckets && x != k && !Expired(s, x, now)
      ensures x in p.buckets && StandsBefore(s.order, k, x)
    {
      assert k in r.buckets && x in r.buckets;
      StandsInLarger(s.order, r.order, k, x);
    }
    forall k | k in s.buckets && k !in p.buckets && !Expired(s, k, now)
      ensures k != ""
    {
      assert k in r.buckets;
    }
  }

  /** Pruning goes on as if an expired bucket that was first in line had never been there. */
  lemma PrunedAfterRemoval(s: Store, i: nat, p: Store, now: nat, max: nat)
    requires Valid(s) && i < |s.order| && Expired(s, s.order[i], now) && NoneExpired(s, i, now)
    requires Pruned(RemoveAt(s, i), p, now, max)
    ensures Pruned(s, p, now, max)
  {
    OrderKept(s, i, p, max);
    ExpiredStillGoFirst(s, i, p, now, max);
    OpenStillGoLast(s, i, p, now);
    hide Valid, Shrinks, ExpiredGoFirst, OpenGoLast, NoneExpired;
  }

  lemma FirstStandsBefore(s: Store, k: string)
    requires Valid(s) && k in s.buckets && k != s.order[0]
    ensures StandsBefore(s.order, s.order[0], k)
  {
    assert k in Elements(s.order);
    var j :| 0 <= j < |s.order| && s.order[j] == k;
  }

  lemma NobodyExpired(s: Store, k: string, now: nat)
    requires Valid(s) && NoneExpired(s, |s.order|, now) && k in s.buckets
    ensures !Expired(s, k, now)
  {
    assert k in Elements(s.order);
  }

  lemma KeepsItself(order: seq<string>)
    ensures KeepsOrder(order, order)
  {
    forall a, b | 0 <= a < b < |order|
      ensures StandsBefore(order, order[a], order[b])
    {
    }
  }

  lemma PrunedToItself(s: Store, now: nat, max: nat)
    requires Valid(s) && |s.order| > max && NoneExpired(s, |s.order|, now) && s.order[0] == ""
    ensures Pruned(s, s, now, max)
  {
    hide Valid, KeepsOrder, StandsBefore, NoneExpired;
    KeepsItself(s.order);
    forall k | Expired(s, k, now)
      ensures false
    {
      NobodyExpired(s, k, now);
    }
  }

  lemma FirstIsThere(s: Store)
    requires Valid(s) && s.order != []
    ensures s.order[0] in s.buckets
  {
    assert s.order[0] in Elements(s.order);
  }

  lemma PrunedOfFirst(s: Store, now: nat, max: nat)
    requires Valid(s) && |s.order| > max && NoneExpired(s, |s.order|, now) && s.order[0] != ""
    ensures Pruned(s, RemoveAt(s, 0), now, max)
  {
    hide Valid, KeepsOrder, StandsBefore, NoneExpired, Without;
    var p, first := RemoveAt(s, 0), s.order[0];
    RemoveAtValid(s, 0);
    WithoutKeepsOrder(s.order, 0);
    FirstIsThere(s);
    forall k | Expired(s, k, now)
      ensures false
    {
      NobodyExpired(s, k, now);
    }
    forall k | k in s.buckets && k != first
      ensures StandsBefore(s.order, first, k)
    {
      FirstStandsBefore(s, k);
    }
    assert forall k | Expired(p, k, now) :: Expired(s, k, now);
    assert first !in p.buckets && !Expired(s, first, now);
  }

  lemma PrunedByDropping(s: Store, now: nat, max: nat)
    requires Valid(s) && |s.order| > max && NoneExpired(s, |s.order|, now)
    ensures Pruned(s, DropFirst(s), now, max)
  {
    if s.order[0] == "" { PrunedToItself(s, now, max); } else { PrunedOfFirst(s, now, max); }
  }

  lemma PrunedEnough(s: Store, i: nat, now: nat, max: nat)
    requires Valid(s) && i < |s.order| && |s.order| == max + 1 && Expired(s, s.order[i], now) && NoneExpired(s, i, now)
    ensures Pruned(s, RemoveAt(s, i), now, max)
  {
    hide Valid, KeepsOrder, StandsBefore, NoneExpired, Without;
    var p := RemoveAt(s, i);
    RemoveAtValid(s, i);
    WithoutKeepsOrder(s.order, i);
    forall k | Expired(p, k, now)
      ensures StandsBefore(s.order, s.order[i], k)
    {
      FirstExpiredStandsBefore(s, i, k, now);
    }
  }

  lemma StillNoneExpired(s: Store, i: nat, now: nat)
    requires i < |s.order| && NoneExpired(s, i, now)
    ensures NoneExpired(RemoveAt(s, i), i, now)
  {
  }

  lemma {:induction false} PruneMeans(s: Store, i: nat, now: nat, max: nat)
    requires Valid(s) && i <= |s.order| && |s.order| > max && NoneExpired(s, i, now)
    ensures Pruned(s, PruneFrom(s, i, now, max), now, max)
    decreases |s.order| - i
  {
    if i == |s.order| {
      PrunedByDropping(s, now, max);
    } else if Expired(s, s.order[i], now) {
      RemoveAtValid(s, i);
      StillNoneExpired(s, i, now);
      hide Valid, Pruned, NoneExpired, Without;
      var r := RemoveAt(s, i);
      if |r.order| <= max {
        PrunedEnough(s, i, now, max);
      } else {
        PruneMeans(r, i, now, max);
        PrunedAfterRemoval(s, i, PruneFrom(r, i, now, max), now, max);
      }
    } else {
      hide Valid, Pruned;
      PruneMeans(s, i + 1, now, max);
    }
  }

  /**
   Exactly when a call leaves more than `maxBuckets` entries behind: the map was full,
   the key is new, nothing has expired, and the oldest key is the empty string.
   */
  lemma SizeBoundExactly(s: Store, c: Call, max: nat)
    requires Valid(s) && |s.order| <= max
    ensures
      var p := Put(s, c.key, Counted(s.buckets, c));
      |Bounded(s, c, max).order| <= max <==> !(|s.order| == max && c.key !in s.buckets && NoneExpired(p, |p.order|, c.now) && p.order[0] == "")
  {
    var p := Put(s, c.key, Counted(s.buckets, c));
    PutValid(s, c.key, Counted(s.buckets, c));
    if |p.order| > max { var _ := PruneValid(p, c.now, max); }
  }

  lemma {:induction false} PruneWithoutExpired(s: Store, i: nat, now: nat, max: nat)
    requires i <= |s.order| && |s.order| > max && NoneExpired(s, |s.order|, now)
    ensures PruneFrom(s, i, now, max) == DropFirst(s)
    decreases |s.order| - i
  {
    if i < |s.order| { PruneWithoutExpired(s, i + 1, now, max); }
  }

  /** Behind an open bucket for the empty key nothing is evicted, so the map grows with every new key, without bound. */
  lemma EmptyKeyStopsEviction(s: Store, c: Call, max: nat)
    requires Valid(s) && s.order != [] && s.order[0] == "" && NoneExpired(s, |s.order|, c.now)
    requires c.key !in s.buckets && c.windowMs > 0
    ensures Valid(Bounded(s, c, max)) && Bounded(s, c, max).order == s.order + [c.key]
    ensures NoneExpired(Bounded(s, c, max), |s.order| + 1, c.now)
  {
    var p := Put(s, c.key, Counted(s.buckets, c));
    PutValid(s, c.key, Counted(s.buckets, c));
    forall j | 0 <= j < |p.order|
      ensures !Expired(p, p.order[j], c.now)
    {
      if j < |s.order| { assert s.order[j] in Elements(s.order); }
    }
    if |p.order| > max { PruneWithoutExpired(p, 0, c.now, max); }
  }

  /** The bound fails for the empty key: one bucket allowed, two kept. */
  lemma EmptyKeyIsNeverEvicted()
    ensures
      var s := Store([""], map["" := Bucket(1, 10)]);
      Valid(s) && |Bounded(s, Call("a", 5, 10, 5), 1).order| == 2
  {
    EmptyKeyStopsEviction(Store([""], map["" := Bucket(1, 10)]), Call("a", 5, 10, 5), 1);
  }

  // ------------------------------------------------------------------- runs

  function UnboundedRun(calls: seq<Call>): Buckets {
    if calls == [] then map[] else Unbounded(UnboundedRun(calls[..|calls| - 1]), calls[|calls| - 1])
  }

  function BoundedRun(calls: seq<Call>, max: nat): Store {
    if calls == [] then Store([], map[]) else Bounded(BoundedRun(calls[..|calls| - 1], max), calls[|calls| - 1], max)
  }

  predicate TimeOrdered(calls: seq<Call>) {
    forall i, j | 0 <= i < j < |calls| :: calls[i].now <= calls[j].now
  }

  function Unexpired(bs: Buckets, now: nat): set<string> {
    set k | k in bs && bs[k].resetAt > now
  }

  /** Never more than `max` keys have an open window at the same time. */
  predicate FewOpenWindows(calls: seq<Call>, max: nat) {
    forall n | 0 < n <= |calls| :: |Unexpired(UnboundedRun(calls[..n]), calls[n - 1].now)| <= max
  }

  /** The bounded limiter has forgotten only buckets whose window is over. */
  ghost predicate Agrees(s: Store, bs: Buckets, now: nat) {
    && (forall k | k in s.buckets :: k in bs && bs[k] == s.buckets[k])
    && (forall k | k in bs && bs[k].resetAt > now :: k in s.buckets)
  }

  lemma AgreementGivesAnswers(s: Store, bs: Buckets, c: Call, before: nat)
    requires Agrees(s, bs, before) && before <= c.now
    ensures Counted(s.buckets, c) == Counted(bs, c) && AnswerFor(s.buckets, c) == AnswerFor(bs, c)
  {
  }

  lemma SomethingExpired(s: Store, bs: Buckets, now: nat, max: nat)
    requires Valid(s) && Agrees(s, bs, now) && |s.order| == max + 1 && |Unexpired(bs, now)| <= max
    ensures exists j | 0 <= j < |s.order| :: Expired(s, s.order[j], now)
  {
    var open := Unexpired(bs, now);
    if s.buckets.Keys <= open { Fewer(s.buckets.Keys, open); }
    var k :| k in s.buckets.Keys && k !in open;
    assert k in Elements(s.order);
    var j :| 0 <= j < |s.order| && s.order[j] == k;
    assert Expired(s, s.order[j], now);
  }

  lemma {:induction false} Fewer(a: set<string>, b: set<string>)
    requires a <= b
    ensures |a| <= |b|
  {
    if a != {} {
      var x :| x in a;
      Fewer(a - {x}, b - {x});
    }
  }

  lemma PuttingKeepsAgreement(s: Store, bs: Buckets, c: Call, before: nat)
    requires Agrees(s, bs, before) && before <= c.now
    ensures Agrees(Put(s, c.key, Counted(s.buckets, c)), Unbounded(bs, c), c.now)
  {
    AgreementGivesAnswers(s, bs, c, before);
  }

  lemma PruningKeepsAgreement(p: Store, bs: Buckets, now: nat, max: nat)
    requires Valid(p) && |p.order| == max + 1 && Agrees(p, bs, now) && |Unexpired(bs, now)| <= max
    ensures var s := PruneFrom(p, 0, now, max); Valid(s) && |s.order| <= max && Agrees(s, bs, now)
  {
    SomethingExpired(p, bs, now, max);
    var j := PruneValid(p, now, max);
  }

  lemma CallKeepsAgreement(s: Store, bs: Buckets, c: Call, before: nat, max: nat)
    requires Valid(s) && |s.order| <= max && Agrees(s, bs, before) && before <= c.now
    requires |Unexpired(Unbounded(bs, c), c.now)| <= max
    ensures var s' := Bounded(s, c, max); Valid(s') && |s'.order| <= max && Agrees(s', Unbounded(bs, c), c.now)
  {
    hide Valid, Agrees, Counted, Unexpired, Unbounded, PruneFrom;
    PuttingKeepsAgreement(s, bs, c, before);
    PutValid(s, c.key, Counted(s.buckets, c));
    var p := Put(s, c.key, Counted(s.buckets, c));
    if |p.order| > max { PruningKeepsAgreement(p, Unbounded(bs, c), c.now, max); }
  }

  /**
   As long as no more than `max` keys have an open window at once, the bounded
   limiter gives every caller the answer of the limiter that never forgets.
   */
  lemma {:induction false} BoundedAnswersLikeUnbounded(calls: seq<Call>, max: nat)
    requires TimeOrdered(calls) && FewOpenWindows(calls, max)
    ensures Valid(BoundedRun(calls, max)) && |BoundedRun(calls, max).order| <= max
    ensures calls != [] ==> Agrees(BoundedRun(calls, max), UnboundedRun(calls), calls[|calls| - 1].now)
    ensures calls != [] ==>
      var before, last := calls[..|calls| - 1], calls[|calls| - 1];
      AnswerFor(BoundedRun(before, max).buckets, last) == AnswerFor(UnboundedRun(before), last)
  {
    if calls != [] {
      var before, last := calls[..|calls| - 1], calls[|calls| - 1];
      assert FewOpenWindows(before, max) by {
        forall n | 0 < n <= |before|
          ensures |Unexpired(UnboundedRun(before[..n]), before[n - 1].now)| <= max
        {
          assert before[..n] == calls[..n];
        }
      }
      BoundedAnswersLikeUnbounded(before, max);
      assert calls[..|calls|] == calls;
      var t := if before == [] then 0 else before[|before| - 1].now;
      assert Agrees(BoundedRun(before, max), UnboundedRun(before), t);
      AgreementGivesAnswers(BoundedRun(before, max), UnboundedRun(before), last, t);
      CallKeepsAgreement(BoundedRun(before, max), UnboundedRun(before), last, t, max);
    }
  }

  // ------------------------------------------------------- twice the limit

  /** Calls for `key` that were allowed at times in [from, from + windowMs). */
  function AllowedIn(calls: seq<Call>, key: string, from: nat, windowMs: nat): nat {
    if calls == [] then 0
    else
      var before, last := calls[..|calls| - 1], calls[|calls| - 1];
      AllowedIn(before, key, from, windowMs)
      + if last.key == key && from <= last.now < from + windowMs && AnswerFor(UnboundedRun(before), last).allowed then 1 else 0
  }

  predicate FixedPolicy(calls: seq<Call>, key: string, limit: nat, windowMs: nat) {
    forall c | c in calls && c.key == key :: c.limit == limit && c.windowMs == windowMs
  }

  function LastTime(calls: seq<Call>): nat { if calls == [] then 0 else calls[|calls| - 1].now }

  function AtMost(n: nat, limit: nat): nat { if n <= limit then n else limit }

  /** Bound by the window the key is in: opened before the interval, inside it, or after it. */
  predicate WindowBound(bs: Buckets, key: string, limit: nat, windowMs: nat, from: nat, clock: nat, allowed: nat) {
    if key !in bs then allowed == 0
    else
      var b := bs[key];
      && windowMs <= b.resetAt <= clock + windowMs
      && (if b.resetAt < from + windowMs then allowed <= AtMost(b.count, limit)
          else if b.resetAt < from + 2 * windowMs then allowed <= limit + AtMost(b.count, limit)
          else allowed <= 2 * limit)
  }

  lemma {:induction false} NothingBeforeInterval(calls: seq<Call>, key: string, from: nat, windowMs: nat)
    requires forall c | c in calls :: c.now < from
    ensures AllowedIn(calls, key, from, windowMs) == 0
  {
    if calls != [] { NothingBeforeInterval(calls[..|calls| - 1], key, from, windowMs); }
  }

  lemma WindowBoundStep(bs: Buckets, c: Call, key: string, limit: nat, windowMs: nat, from: nat, clock: nat, allowed: nat)
    requires windowMs > 0 && WindowBound(bs, key, limit, windowMs, from, clock, allowed) && clock <= c.now
    requires c.key == key ==> c.limit == limit && c.windowMs == windowMs
    requires c.now < from ==> allowed == 0
    ensures WindowBound(Unbounded(bs, c), key, limit, windowMs, from, c.now,
              allowed + if c.key == key && from <= c.now < from + windowMs && AnswerFor(bs, c).allowed then 1 else 0)
  {
  }

  lemma {:induction false} WindowBoundAlways(calls: seq<Call>, key: string, limit: nat, windowMs: nat, from: nat)
    requires TimeOrdered(calls) && FixedPolicy(calls, key, limit, windowMs) && windowMs > 0
    ensures WindowBound(UnboundedRun(calls), key, limit, windowMs, from, LastTime(calls), AllowedIn(calls, key, from, windowMs))
  {
    if calls != [] {
      var before, last := calls[..|calls| - 1], calls[|calls| - 1];
      WindowBoundAlways(before, key, limit, windowMs, from);
      if last.now < from { NothingBeforeInterval(before, key, from, windowMs); }
      WindowBoundStep(UnboundedRun(before), last, key, limit, windowMs, from, LastTime(before), AllowedIn(before, key, from, windowMs));
    }
  }

  // ------------------------------------------------ the bounded limiter, key by key

  lemma {:induction false} PruneOnlyForgets(s: Store, i: nat, now: nat, max: nat)
    requires i <= |s.order|
    ensures forall k | k in PruneFrom(s, i, now, max).buckets :: k in s.buckets && PruneFrom(s, i, now, max).buckets[k] == s.buckets[k]
    decreases |s.order| - i
  {
    if i < |s.order| {
      if Expired(s, s.order[i], now) { PruneOnlyForgets(RemoveAt(s, i), i, now, max); } else { PruneOnlyForgets(s, i + 1, now, max); }
    }
  }

  /** Call `n` does not make the limiter forget `key` while its window is open. */
  predicate KeptBy(calls: seq<Call>, max: nat, key: string, n: nat)
    requires n < |calls|
  {
    var bs := Unbounded(BoundedRun(calls[..n], max).buckets, calls[n]);
    key in bs && bs[key].resetAt > calls[n].now ==> key in BoundedRun(calls[..n + 1], max).buckets
  }

  predicate Unevicted(calls: seq<Call>, max: nat, key: string) {
    forall n | 0 <= n < |calls| :: KeptBy(calls, max, key, n)
  }

  predicate KeyAgrees(s: Store, bs: Buckets, key: string, now: nat) {
    && (key in s.buckets ==> key in bs && bs[key] == s.buckets[key])
    && (key in bs && bs[key].resetAt > now ==> key in s.buckets)
  }

  lemma CallKeepsKey(s: Store, bs: Buckets, c: Call, before: nat, max: nat, key: string)
    requires KeyAgrees(s, bs, key, before) && before <= c.now
    requires
      var bs' := Unbounded(s.buckets, c);
      key in bs' && bs'[key].resetAt > c.now ==> key in Bounded(s, c, max).buckets
    ensures KeyAgrees(Bounded(s, c, max), Unbounded(bs, c), key, c.now)
    ensures c.key == key ==> AnswerFor(s.buckets, c) == AnswerFor(bs, c)
  {
    var p := Put(s, c.key, Counted(s.buckets, c));
    if |p.order| > max { PruneOnlyForgets(p, 0, c.now, max); }
  }

  /** Calls for `key` that the bounded limiter allowed at times in [from, from + windowMs). */
  function BoundedAllowedIn(calls: seq<Call>, max: nat, key: string, from: nat, windowMs: nat): nat {
    if calls == [] then 0
    else
      var before, last := calls[..|calls| - 1], calls[|calls| - 1];
      BoundedAllowedIn(before, max, key, from, windowMs)
      + if last.key == key && from <= last.now < from + windowMs && AnswerFor(BoundedRun(before, max).buckets, last).allowed then 1 else 0
  }

  lemma UnevictedPrefix(calls: seq<Call>, max: nat, key: string, n: nat)
    requires n <= |calls| && Unevicted(calls, max, key)
    ensures Unevicted(calls[..n], max, key)
  {
    forall m | 0 <= m < n
      ensures KeptBy(calls[..n], max, key, m)
    {
      assert KeptBy(calls, max, key, m);
      assert calls[..n][..m] == calls[..m] && calls[..n][..m + 1] == calls[..m + 1];
    }
  }

  /** A key that is never evicted is answered as if nothing were ever forgotten, whatever happens to other keys. */
  lemma {:induction false} UnevictedKeyIsExact(calls: seq<Call>, max: nat, key: string, from: nat, windowMs: nat)
    requires TimeOrdered(calls) && Unevicted(calls, max, key)
    ensures KeyAgrees(BoundedRun(calls, max), UnboundedRun(calls), key, LastTime(calls))
    ensures calls != [] && calls[|calls| - 1].key == key ==>
      var before, last := calls[..|calls| - 1], calls[|calls| - 1];
      AnswerFor(BoundedRun(before, max).buckets, last) == AnswerFor(UnboundedRun(before), last)
    ensures BoundedAllowedIn(calls, max, key, from, windowMs) == AllowedIn(calls, key, from, windowMs)
  {
    if calls != [] {
      var n := |calls| - 1;
      var before, last := calls[..n], calls[n];
      UnevictedPrefix(calls, max, key, n);
      UnevictedKeyIsExact(before, max, key, from, windowMs);
      assert calls[..n + 1] == calls;
      assert KeptBy(calls, max, key, n);
      CallKeepsKey(BoundedRun(before, max), UnboundedRun(before), last, LastTime(before), max, key);
    }
  }

  // ------------------------------------------------------------- one window

  predicate Opens(bs: Buckets, c: Call) { c.key !in bs || bs[c.key].resetAt <= c.now }

  /** Calls for the key from position `a` up to `n`. */
  function CallsFor(calls: seq<Call>, key: string, a: nat, n: nat): nat
    requires a <= n <= |calls|
  {
    if a == n then 0 else CallsFor(calls, key, a, n - 1) + if calls[n - 1].key == key then 1 else 0
  }

  /** The key's calls from `a` up to `n` come within one window length of the first. */
  predicate WithinWindow(calls: seq<Call>, key: string, windowMs: nat, a: nat, n: nat)
    requires a < n <= |calls|
  {
    forall i | a <= i < n && calls[i].key == key :: calls[i].windowMs == windowMs && calls[i].now < calls[a].now + windowMs
  }

  lemma {:induction false} WindowCounts(calls: seq<Call>, key: string, windowMs: nat, a: nat, n: nat)
    requires a < n <= |calls| && calls[a].key == key && Opens(UnboundedRun(calls[..a]), calls[a])
    requires WithinWindow(calls, key, windowMs, a, n)
    ensures key in UnboundedRun(calls[..n]) && UnboundedRun(calls[..n])[key] == Bucket(CallsFor(calls, key, a, n), calls[a].now + windowMs)
    decreases n - a
  {
    assert calls[..n][..n - 1] == calls[..n - 1];
    if a + 1 < n { WindowCounts(calls, key, windowMs, a, n - 1); }
  }

  lemma ExactAnswer(calls: seq<Call>, max: nat, key: string, n: nat)
    requires TimeOrdered(calls) && Unevicted(calls, max, key) && n < |calls| && calls[n].key == key
    ensures AnswerFor(BoundedRun(calls[..n], max).buckets, calls[n]) == AnswerFor(UnboundedRun(calls[..n]), calls[n])
  {
    UnevictedPrefix(calls, max, key, n + 1);
    UnevictedKeyIsExact(calls[..n + 1], max, key, 0, 0);
    assert calls[..n + 1][..n] == calls[..n];
  }

  lemma OpensAlike(calls: seq<Call>, max: nat, key: string, a: nat)
    requires TimeOrdered(calls) && Unevicted(calls, max, key) && a < |calls| && calls[a].key == key
    ensures Opens(BoundedRun(calls[..a], max).buckets, calls[a]) ==> Opens(UnboundedRun(calls[..a]), calls[a])
  {
    UnevictedPrefix(calls, max, key, a);
    UnevictedKeyIsExact(calls[..a], max, key, 0, 0);
  }

  /**
   In the bounded limiter and amid calls for other keys: a window that opens at call `a` lets
   exactly its first `limit` calls through, and tells each how many are left and when it ends.
   */
  lemma WindowLetsLimitThrough(calls: seq<Call>, max: nat, key: string, limit: nat, windowMs: nat, a: nat, n: nat)
    requires TimeOrdered(calls) && Unevicted(calls, max, key) && a <= n < |calls|
    requires calls[a].key == key && calls[n].key == key && calls[n].limit == limit && WithinWindow(calls, key, windowMs, a, n + 1)
    requires Opens(BoundedRun(calls[..a], max).buckets, calls[a])
    ensures
      var answer, earlier := AnswerFor(BoundedRun(calls[..n], max).buckets, calls[n]), CallsFor(calls, key, a, n);
      && (answer.allowed <==> earlier < limit)
      && answer.remaining == (if earlier < limit then limit - earlier - 1 else 0)
      && answer.resetAt == calls[a].now + windowMs
  {
    hide TimeOrdered, Unevicted, BoundedRun, UnboundedRun;
    ExactAnswer(calls, max, key, n);
    OpensAlike(calls, max, key, a);
    if a < n { WindowCounts(calls, key, windowMs, a, n); }
  }

  /** With a fixed limit and window, an unevicted key is let through at most twice the limit in any interval one window long. */
  lemma AtMostTwiceTheLimit(calls: seq<Call>, max: nat, key: string, limit: nat, windowMs: nat, from: nat)
    requires TimeOrdered(calls) && FixedPolicy(calls, key, limit, windowMs) && windowMs > 0
    requires Unevicted(calls, max, key)
    ensures BoundedAllowedIn(calls, max, key, from, windowMs) <= 2 * limit
  {
    WindowBoundAlways(calls, key, limit, windowMs, from);
    UnevictedKeyIsExact(calls, max, key, from, windowMs);
  }

  /** Over any run of calls with non-empty keys the limiter never keeps more than `max` buckets. */
  lemma {:induction false} NonEmptyKeysFit(calls: seq<Call>, max: nat)
    requires forall c | c in calls :: c.key != ""
    ensures Valid(BoundedRun(calls, max)) && |BoundedRun(calls, max).order| <= max && "" !in BoundedRun(calls, max).buckets
  {
    if calls != [] {
      var before, last := calls[..|calls| - 1], calls[|calls| - 1];
      NonEmptyKeysFit(before, max);
      var s := BoundedRun(before, max);
      var p := Put(s, last.key, Counted(s.buckets, last));
      PutValid(s, last.key, Counted(s.buckets, last));
      assert p.order != [] && p.order[0] in Elements(p.order);
      if |p.order| > max {
        var _ := PruneValid(p, last.now, max);
        PruneOnlyForgets(p, 0, last.now, max);
      }
    }
  }
}
