/**
 The recurring synchronization chain on top of the queue: after each finished
 synchronization the next one is queued under a key that names its time slot.
 */
module Scheduler {
  import opened Prelude
  import opened Jobs
  import opened QueueRuns

  function TextOf(p: Payload, key: string): string { if key in p && p[key].Str? then p[key].s else "" }

  /** The chain that a synchronization payload names; a missing scope reads as the empty one. */
  function ChainOf(p: Payload): Chain { Chain(TextOf(p, "provider"), TextOf(p, "userId"), TextOf(p, "organizationId"), TextOf(p, "scope")) }

  /** What scheduleAfter enqueues at time `now` for a chain that is still connected. */
  function NextSync(tenant: TenantId, chain: Chain, payload: Payload, interval: nat, now: nat): EnqueueInput
    requires interval > 0
  {
    EnqueueInput(JobId(tenant, ConnectorSync, ScheduledKey(chain, (now + interval) / interval)),
                 payload["recurring" := Bool(true)], None, None, Some(now + interval))
  }

  /** scheduleAfter: nothing for a one-off synchronization or a revoked credential. */
  function ScheduleAfter(tenant: TenantId, payload: Payload, connected: bool, interval: nat, now: nat): Option<EnqueueInput>
    requires interval > 0
  {
    if "recurring" in payload && payload["recurring"] == Bool(false) then None
    else if !connected then None
    else Some(NextSync(tenant, ChainOf(payload), payload, interval, now))
  }

  predicate InSlot(slot: nat, interval: nat, t: nat) { slot * interval <= t < (slot + 1) * interval }

  lemma MulMonotone(a: nat, b: nat, c: nat)
    requires a <= b
    ensures a * c <= b * c
  {
  }

  lemma SlotArithmetic(interval: nat, t: nat)
    requires interval > 0
    ensures InSlot(t / interval, interval, t)
    ensures (t + interval) / interval == t / interval + 1
    ensures t < ((t + interval) / interval) * interval
  {
    assert t == (t / interval) * interval + t % interval;
    assert ((t + interval) / interval) * interval + (t + interval) % interval == t + interval;
    var d := (t + interval) / interval;
    var e := t / interval + 1;
    assert e * interval <= t + interval < (e + 1) * interval;
    if d < e { MulMonotone(d + 1, e, interval); }
    if d > e { MulMonotone(e + 1, d, interval); }
  }

  /** Scheduled keys are written by scheduleAfter alone, with one constant interval. */
  ghost predicate OnlyScheduler(r: Run, interval: nat)
    requires interval > 0
  {
    forall k {:trigger r.steps[k]} | 0 <= k < |r.steps| && r.steps[k].event.Enqueueing? && r.steps[k].event.input.id.key.ScheduledKey? ::
      var input, now := r.steps[k].event.input, r.steps[k].now;
      input.id.key.slot == (now + interval) / interval && input.availableAt == Some(now + interval)
  }

  /** A queued slot waits for its own time; a slot that was ever leased has begun. */
  predicate SlotOk(id: JobId, row: Row, interval: nat, clock: nat) {
    id.key.ScheduledKey? ==>
      && (row.status == Queued ==> InSlot(id.key.slot, interval, row.availableAt))
      && (row.status != Queued && row.status != Cancelled ==> id.key.slot * interval <= clock)
  }

  predicate SlotsOk(w: World, interval: nat) {
    forall id | id in w.queue.rows :: SlotOk(id, w.queue.rows[id], interval, w.clock)
  }

  lemma StepKeepsSlots(w: World, s: Step, interval: nat)
    requires interval > 0 && Enabled(w, s) && SlotsOk(w, interval)
    requires s.event.Enqueueing? && s.event.input.id.key.ScheduledKey? ==>
      s.event.input.id.key.slot == (s.now + interval) / interval && s.event.input.availableAt == Some(s.now + interval)
    ensures SlotsOk(After(w, s), interval)
  {
    SlotArithmetic(interval, s.now + interval);
    var w' := After(w, s);
    forall id | id in w'.queue.rows
      ensures SlotOk(id, w'.queue.rows[id], interval, w'.clock)
    {
      if id in w.queue.rows { assert SlotOk(id, w.queue.rows[id], interval, w.clock); }
    }
  }

  lemma {:induction false} SlotsAlwaysOk(r: Run, interval: nat, n: nat)
    requires interval > 0 && ValidRun(r) && OnlyScheduler(r, interval) && n <= |r.steps|
    ensures SlotsOk(r.worlds[n], interval)
  {
    if n > 0 {
      SlotsAlwaysOk(r, interval, n - 1);
      assert r.worlds[n - 1 + 1] == After(r.worlds[n - 1], r.steps[n - 1]);
      StepKeepsSlots(r.worlds[n - 1], r.steps[n - 1], interval);
    }
  }

  /**
   Scheduling never runs into a slot that is being worked on or is finished: whatever
   happened before, the slot right after `now` ends up as one queued row that becomes
   available inside that slot, and no slot that has already begun is touched.
   */
  lemma ChainAdvances(r: Run, k: nat, tenant: TenantId, chain: Chain, payload: Payload, interval: nat)
    requires interval > 0 && ValidRun(r) && OnlyScheduler(r, interval) && k < |r.steps|
    requires r.steps[k].event == Enqueueing(NextSync(tenant, chain, payload, interval, r.steps[k].now))
    ensures
      var now, rows, rows' := r.steps[k].now, r.worlds[k].queue.rows, r.worlds[k + 1].queue.rows;
      var id := JobId(tenant, ConnectorSync, ScheduledKey(chain, now / interval + 1));
      && (id in rows ==> rows[id].status == Queued || rows[id].status == Cancelled)
      && id in rows' && rows'[id].status == Queued
      && now < rows'[id].availableAt && InSlot(now / interval + 1, interval, rows'[id].availableAt)
      && (forall j | j in rows && j != id :: j in rows' && rows'[j] == rows[j])
      && rows'.Keys == rows.Keys + {id}
  {
    var w, s := r.worlds[k], r.steps[k];
    assert r.worlds[k + 1] == After(w, s);
    SlotArithmetic(interval, s.now);
    SlotsAlwaysOk(r, interval, k);
    SlotsAlwaysOk(r, interval, k + 1);
    var id := s.event.input.id;
    assert id in w.queue.rows ==> SlotOk(id, w.queue.rows[id], interval, w.clock);
    assert SlotOk(id, r.worlds[k + 1].queue.rows[id], interval, r.worlds[k + 1].clock);
  }

  /** A worker that runs the job of one slot schedules a strictly later slot. */
  lemma NextSlotIsLater(r: Run, n: nat, id: JobId, interval: nat, now: nat)
    requires interval > 0 && ValidRun(r) && OnlyScheduler(r, interval) && n <= |r.steps| && r.worlds[n].clock <= now
    requires id in r.worlds[n].queue.rows && id.key.ScheduledKey? && r.worlds[n].queue.rows[id].status == Running
    ensures id.key.slot < (now + interval) / interval
  {
    SlotsAlwaysOk(r, interval, n);
    assert SlotOk(id, r.worlds[n].queue.rows[id], interval, r.worlds[n].clock);
    SlotArithmetic(interval, now);
    var next := (now + interval) / interval;
    if next <= id.key.slot { MulMonotone(next, id.key.slot, interval); }
  }
}
