/**
 Recurring chains over whole queue runs: what their rows look like, and that a success
 leaves a later slot behind when workers queue the next slot before they complete.
 */
module Chains {
  import opened Prelude
  import opened Jobs
  import opened QueueRuns
  import opened Ownership
  import opened Scheduler

  // ----------------------------------------------------------- rows of a chain

  /** A scheduled job is a synchronization whose payload names the chain of its key. */
  predicate NamesChain(id: JobId, p: Payload) {
    id.key.ScheduledKey? ==>
      id.jobType == ConnectorSync && ChainOf(p) == id.key.chain && "recurring" in p && p["recurring"] == Bool(true)
  }

  ghost predicate OnlyChains(r: Run) {
    forall k | 0 <= k < |r.steps| && r.steps[k].event.Enqueueing? :: NamesChain(r.steps[k].event.input.id, r.steps[k].event.input.payload)
  }

  predicate ChainsOk(w: World) {
    && (forall id | id in w.queue.rows :: NamesChain(id, w.queue.rows[id].payload))
    && (forall h | h in w.issued :: NamesChain(h.id, h.payload))
  }

  /** Where a row's payload comes from: the row before, the enqueued input, redaction, or an erasure's reconcile job. */
  predicate PayloadFrom(rows: Rows, e: Event, id: JobId, p: Payload) {
    || (id in rows && p == rows[id].payload)
    || (e.Enqueueing? && e.input.id == id && p == e.input.payload)
    || (id in rows && id.jobType == IngestScreenshot)
    || id.key.PrivacyKey?
  }

  lemma SingleRowPayload(w: World, s: Step, id: JobId)
    requires Enabled(w, s) && id in After(w, s).queue.rows
    requires s.event.Enqueueing? || s.event.Renewing? || s.event.Completing? || s.event.Failing?
    ensures PayloadFrom(w.queue.rows, s.event, id, After(w, s).queue.rows[id].payload)
  {
    hide RedactedPayload, ErrorText;
  }

  lemma WholeTablePayload(w: World, s: Step, id: JobId)
    requires Enabled(w, s) && id in After(w, s).queue.rows
    requires s.event.Cancelling? || s.event.Leasing? || s.event.LeasingNothing? || s.event.Erasing?
    ensures PayloadFrom(w.queue.rows, s.event, id, After(w, s).queue.rows[id].payload)
  {
    hide NoneReady, Before, RedactedPayload, ReconcilePayload, ReconcileClash;
  }

  lemma StepKeepsChainRow(w: World, s: Step, id: JobId)
    requires Enabled(w, s) && (forall j | j in w.queue.rows :: NamesChain(j, w.queue.rows[j].payload))
    requires s.event.Enqueueing? ==> NamesChain(s.event.input.id, s.event.input.payload)
    requires id in After(w, s).queue.rows
    ensures NamesChain(id, After(w, s).queue.rows[id].payload)
  {
    if s.event.Cancelling? || s.event.Leasing? || s.event.LeasingNothing? || s.event.Erasing? {
      WholeTablePayload(w, s, id);
    } else {
      SingleRowPayload(w, s, id);
    }
    hide After, Enabled, ChainOf;
    if id in w.queue.rows { assert NamesChain(id, w.queue.rows[id].payload); }
  }

  lemma StepKeepsChains(w: World, s: Step)
    requires Enabled(w, s) && ChainsOk(w)
    requires s.event.Enqueueing? ==> NamesChain(s.event.input.id, s.event.input.payload)
    ensures ChainsOk(After(w, s))
  {
    var w' := After(w, s);
    forall id | id in w'.queue.rows
      ensures NamesChain(id, w'.queue.rows[id].payload)
    {
      StepKeepsChainRow(w, s, id);
    }
    if s.event.Leasing? { assert s.event.id in w'.queue.rows; }
  }

  lemma {:induction false} ChainsAlwaysOk(r: Run, n: nat)
    requires ValidRun(r) && OnlyChains(r) && n <= |r.steps|
    ensures ChainsOk(r.worlds[n])
  {
    if n > 0 {
      ChainsAlwaysOk(r, n - 1);
      assert r.worlds[n - 1 + 1] == After(r.worlds[n - 1], r.steps[n - 1]);
      StepKeepsChains(r.worlds[n - 1], r.steps[n - 1]);
    }
  }

  /** No step erases the user of the chain. */
  ghost predicate OwnerStays(r: Run, id: JobId)
    requires id.key.ScheduledKey?
  {
    forall k | 0 <= k < |r.steps| ::
      !(r.steps[k].event.Erasing? && r.steps[k].event.eraseTenant == id.tenant && r.steps[k].event.user == id.key.chain.user)
  }

  lemma StepKeepsRow(w: World, s: Step, id: JobId)
    requires Enabled(w, s) && ChainsOk(w) && id.key.ScheduledKey? && id in w.queue.rows
    requires !(s.event.Erasing? && s.event.eraseTenant == id.tenant && s.event.user == id.key.chain.user)
    ensures id in After(w, s).queue.rows
  {
    assert NamesChain(id, w.queue.rows[id].payload);
  }

  /** The rows of a chain are never deleted while its user stays. */
  lemma {:induction false} RowsPersist(r: Run, id: JobId, m: nat, n: nat)
    requires ValidRun(r) && OnlyChains(r) && id.key.ScheduledKey? && OwnerStays(r, id)
    requires m <= n <= |r.steps| && id in r.worlds[m].queue.rows
    ensures id in r.worlds[n].queue.rows
    decreases n - m
  {
    if m < n {
      RowsPersist(r, id, m, n - 1);
      ChainsAlwaysOk(r, n - 1);
      assert r.worlds[n - 1 + 1] == After(r.worlds[n - 1], r.steps[n - 1]);
      StepKeepsRow(r.worlds[n - 1], r.steps[n - 1], id);
    }
  }

  // ------------------------------------------------------- success moves on

  lemma StepSucceeds(w: World, s: Step, id: JobId)
    requires Enabled(w, s) && id in After(w, s).queue.rows && After(w, s).queue.rows[id].status == Succeeded
    ensures (id in w.queue.rows && w.queue.rows[id].status == Succeeded)
         || (s.event.Completing? && s.event.handle.id == id && Valid(w.queue.rows, s.event.handle, s.now))
  {
  }

  /** A job that has succeeded was completed at some step by a handle the queue accepted. */
  lemma {:induction false} SucceededByCompletion(r: Run, id: JobId, n: nat) returns (k: nat)
    requires ValidRun(r) && n <= |r.steps| && id in r.worlds[n].queue.rows && r.worlds[n].queue.rows[id].status == Succeeded
    ensures k < n && r.steps[k].event.Completing? && r.steps[k].event.handle.id == id && SettledBy(r, k, r.steps[k].event.handle)
  {
    assert n > 0;
    assert r.worlds[n - 1 + 1] == After(r.worlds[n - 1], r.steps[n - 1]);
    StepSucceeds(r.worlds[n - 1], r.steps[n - 1], id);
    if id in r.worlds[n - 1].queue.rows && r.worlds[n - 1].queue.rows[id].status == Succeeded {
      k := SucceededByCompletion(r, id, n - 1);
    } else {
      k := n - 1;
    }
  }

  /** Step `m` queues the slot after its own time for the chain of `id`. */
  ghost predicate QueuesNextSlot(r: Run, m: nat, id: JobId, interval: nat)
    requires interval > 0 && m < |r.steps| && id.key.ScheduledKey?
  {
    exists payload :: r.steps[m].event == Enqueueing(NextSync(id.tenant, id.key.chain, payload, interval, r.steps[m].now))
  }

  /** Before step `k` and under the lease that `h` comes from, the next slot was queued. */
  ghost predicate ScheduledBefore(r: Run, k: nat, h: Handle, interval: nat)
    requires ValidRun(r) && interval > 0 && k < |r.steps| && h.id.key.ScheduledKey?
  {
    exists i: nat, m: nat :: i < m < k && Carried(r, i, h, k) && QueuesNextSlot(r, m, h.id, interval)
  }

  predicate CompletesSlot(r: Run, k: nat)
    requires k < |r.steps| && |r.worlds| == |r.steps| + 1
  {
    r.steps[k].event.Completing? && r.steps[k].event.handle.id.key.ScheduledKey? && SettledBy(r, k, r.steps[k].event.handle)
  }

  /** A slot is completed only after its next slot was queued, unless it is among `declined`. */
  ghost predicate WorkersSchedule(r: Run, interval: nat, declined: set<JobId>)
    requires ValidRun(r) && interval > 0
  {
    forall k | 0 <= k < |r.steps| && CompletesSlot(r, k) ::
      r.steps[k].event.handle.id in declined || ScheduledBefore(r, k, r.steps[k].event.handle, interval)
  }

  function SlotId(id: JobId, slot: nat): JobId
    requires id.key.ScheduledKey?
  {
    JobId(id.tenant, ConnectorSync, ScheduledKey(id.key.chain, slot))
  }

  /** A slot queued under a lease is later than the slot that is worked on, and its row is there ever after. */
  lemma QueuedSlotIsLater(r: Run, i: nat, h: Handle, m: nat, k: nat, n: nat, interval: nat) returns (slot: nat)
    requires interval > 0 && ValidRun(r) && OnlyScheduler(r, interval) && OnlyChains(r)
    requires h.id.key.ScheduledKey? && OwnerStays(r, h.id)
    requires i < m < k < n <= |r.steps| && Carried(r, i, h, k) && SettledBy(r, k, h)
    requires QueuesNextSlot(r, m, h.id, interval)
    ensures h.id.key.slot < slot && SlotId(h.id, slot) in r.worlds[n].queue.rows
  {
    var now := r.steps[m].now;
    slot := now / interval + 1;
    HeldSinceLease(r, i, h, k);
    assert HeldAt(r, m, h);
    assert Enabled(r.worlds[m], r.steps[m]);
    NextSlotIsLater(r, m, h.id, interval, now);
    SlotArithmetic(interval, now);
    var payload :| r.steps[m].event == Enqueueing(NextSync(h.id.tenant, h.id.key.chain, payload, interval, now));
    ChainAdvances(r, m, h.id.tenant, h.id.key.chain, payload, interval);
    RowsPersist(r, SlotId(h.id, slot), m + 1, n);
  }

  /** A slot that succeeded and was not declined has left a later slot of its chain behind. */
  lemma SuccessLeavesLaterSlot(r: Run, id: JobId, n: nat, interval: nat, declined: set<JobId>) returns (slot: nat)
    requires interval > 0 && ValidRun(r) && OnlyScheduler(r, interval) && OnlyChains(r) && WorkersSchedule(r, interval, declined)
    requires id.key.ScheduledKey? && OwnerStays(r, id) && id !in declined
    requires n <= |r.steps| && id in r.worlds[n].queue.rows && r.worlds[n].queue.rows[id].status == Succeeded
    ensures id.key.slot < slot && SlotId(id, slot) in r.worlds[n].queue.rows
  {
    var k := SucceededByCompletion(r, id, n);
    var h := r.steps[k].event.handle;
    assert CompletesSlot(r, k);
    var i: nat, m: nat :| i < m < k && Carried(r, i, h, k) && QueuesNextSlot(r, m, h.id, interval);
    slot := QueuedSlotIsLater(r, i, h, m, k, n, interval);
  }
}
