/**
 One pass of the worker loop, as the calls it makes on the queue once its job has been
 processed and its heartbeat has stopped.
 */
module Worker {
  import opened Prelude
  import opened Jobs
  import opened QueueRuns
  import opened Scheduler

  /** How processing ended; a connector synchronization that went through yields its parsed payload. */
  datatype Processing = Threw(error: string) | Went(recurring: Option<Payload>)

  /** What scheduleAfter meets: the credential vault's answer, and whether the enqueue call fails. */
  datatype Vault = VaultFails(error: string) | Vault(connected: bool, enqueueFails: Option<string>)

  /** What `leaseNext`, processing, `heartbeat.stop` and the scheduler answer to the worker. */
  datatype Answers = Answers(
    leased: Option<Handle>, processing: Processing, stopped: Option<Handle>, vault: Vault, interval: nat, scheduledAt: nat)

  /** The fields that survive parsing the payload of a synchronization. */
  const SyncFields := {"provider", "userId", "organizationId", "scope", "recurring"}

  function Parsed(p: Payload): Payload { map k | k in p && k in SyncFields :: p[k] }

  /** A synchronization that went through yields its payload, no other job does. */
  predicate Processes(job: Handle, p: Processing) {
    p.Went? ==> p.recurring == if job.id.jobType == ConnectorSync then Some(Parsed(job.payload)) else None
  }

  predicate Settlement(e: Event) { e.Completing? || e.Failing? }

  /** Processing asks for a next slot and the vault answers that the credential is gone. */
  predicate Declined(a: Answers) {
    && a.processing.Went? && a.processing.recurring.Some?
    && !OneOff(a.processing.recurring.value) && a.vault.Vault? && !a.vault.connected
  }

  predicate OneOff(p: Payload) { "recurring" in p && p["recurring"] == Bool(false) }

  /** The synchronization that must be queued before the job may complete, if any. */
  function FollowUp(a: Answers, owned: Handle): Option<EnqueueInput>
    requires a.interval > 0
  {
    if a.processing.Threw? || a.processing.recurring.None? then None
    else ScheduleAfter(owned.id.tenant, a.processing.recurring.value, a.vault.Vault? && a.vault.connected, a.interval, a.scheduledAt)
  }

  /** The error that the pass settles with, if any: of processing, of the vault, or of the enqueue call. */
  function Trouble(a: Answers, owned: Handle): Option<string>
    requires a.interval > 0
  {
    if a.processing.Threw? then Some(a.processing.error)
    else if a.processing.recurring.None? || OneOff(a.processing.recurring.value) then None
    else if a.vault.VaultFails? then Some(a.vault.error)
    else if FollowUp(a, owned).Some? then a.vault.enqueueFails
    else None
  }

  /** The enqueue, complete and fail calls of a pass, in order. */
  function Calls(a: Answers): seq<Event>
    requires a.interval > 0
  {
    if a.leased.None? || a.stopped.None? then []
    else
      var owned := a.stopped.value;
      var next, trouble := FollowUp(a, owned), Trouble(a, owned);
      (if next.Some? then [Enqueueing(next.value)] else [])
      + [if trouble.Some? then Failing(owned, trouble.value) else Completing(owned)]
  }

  method Pass(a: Answers) returns (calls: seq<Event>)
    requires a.interval > 0
    ensures calls == Calls(a)
  {
    calls := [];
    if a.leased.None? { return; }
    var processingError: Option<string> := if a.processing.Threw? then Some(a.processing.error) else None;
    var recurringPayload: Option<Payload> := if a.processing.Went? then a.processing.recurring else None;
    if a.stopped.None? { return; }
    var owned := a.stopped.value;
    if processingError.None? && recurringPayload.Some? {
      var payload := recurringPayload.value;
      if !("recurring" in payload && payload["recurring"] == Bool(false)) {
        match a.vault {
          case VaultFails(error) => processingError := Some(error);
          case Vault(connected, enqueueFails) =>
            if connected {
              calls := [Enqueueing(NextSync(owned.id.tenant, ChainOf(payload), payload, a.interval, a.scheduledAt))];
              processingError := enqueueFails;
            }
        }
      }
    }
    if processingError.Some? {
      calls := calls + [Failing(owned, processingError.value)];
    } else {
      calls := calls + [Completing(owned)];
    }
  }

  /** The payload has this text under the key. */
  predicate Says(p: Payload, key: string, text: string) { key in p && p[key] == Str(text) }

  /** The next run of a synchronization: the same payload, now recurring, under the slot after `now` of the chain that it names. */
  ghost predicate QueuesNext(input: EnqueueInput, tenant: TenantId, p: Payload, interval: nat, now: nat)
    requires interval > 0
  {
    && input.id.tenant == tenant && input.id.jobType == ConnectorSync && input.id.key.ScheduledKey?
    && input.id.key.slot == now / interval + 1 && input.availableAt == Some(now + interval)
    && input.payload == p["recurring" := Bool(true)] && input.priority == None && input.maxAttempts == None
    && var chain := input.id.key.chain;
    && (forall x | Says(p, "provider", x) :: chain.provider == x) && (forall x | Says(p, "userId", x) :: chain.user == x)
    && (forall x | Says(p, "organizationId", x) :: chain.org == x) && (forall x | Says(p, "scope", x) :: chain.scope == x)
    && ("scope" !in p ==> chain.scope == "")
  }

  /**
   What a pass makes of the answers it gets.  It queues the next synchronization exactly when
   processing yielded one that is not one-off and the credential is still there, and it fails
   with the first error it met: of processing, of the vault, or of the enqueue call.
   */
  lemma PassMakes(a: Answers)
    requires a.interval > 0 && a.leased.Some? && a.stopped.Some?
    ensures
      var calls, owned := Calls(a), a.stopped.value;
      var due := a.processing.Went? && a.processing.recurring.Some? && !("recurring" in a.processing.recurring.value && a.processing.recurring.value["recurring"] == Bool(false));
      && (calls[0].Enqueueing? <==> due && a.vault.Vault? && a.vault.connected)
      && (calls[0].Enqueueing? ==> |calls| == 2 && QueuesNext(calls[0].input, owned.id.tenant, a.processing.recurring.value, a.interval, a.scheduledAt))
      && (!calls[0].Enqueueing? ==> |calls| == 1)
      && var last := calls[|calls| - 1];
      && (a.processing.Threw? ==> last == Failing(owned, a.processing.error))
      && (due && a.vault.VaultFails? ==> last == Failing(owned, a.vault.error))
      && (calls[0].Enqueueing? && a.vault.enqueueFails.Some? ==> last == Failing(owned, a.vault.enqueueFails.value))
      && (a.processing.Went? && !due ==> last == Completing(owned))
      && (due && a.vault.Vault? && (a.vault.connected ==> a.vault.enqueueFails.None?) ==> last == Completing(owned))
  {
    SlotArithmetic(a.interval, a.scheduledAt);
  }

  /**
   A pass settles at most once, last, and with the handle that stop returned.  It completes
   exactly when processing went through and the next slot, unless none is due or the vault
   declined it, was queued by a call that did not fail.
   */
  lemma PassOrder(a: Answers)
    requires a.interval > 0
    ensures a.leased.None? || a.stopped.None? <==> Calls(a) == []
    ensures Calls(a) != [] ==>
      var calls, owned := Calls(a), a.stopped.value;
      var last := calls[|calls| - 1];
      && Settlement(last) && last.handle == owned
      && (forall k | 0 <= k < |calls| - 1 :: calls[k].Enqueueing?) && |calls| <= 2
      && (last.Completing? <==>
            && a.processing.Went?
            && (a.processing.recurring.None? || OneOff(a.processing.recurring.value) || Declined(a)
                || (a.vault.Vault? && a.vault.enqueueFails.None?
                    && calls[0] == Enqueueing(NextSync(owned.id.tenant, ChainOf(a.processing.recurring.value), a.processing.recurring.value, a.interval, a.scheduledAt)))))
  {
  }

  /** Parsing keeps the chain and whether the synchronization is recurring. */
  lemma ParsedKeepsChain(p: Payload)
    ensures ChainOf(Parsed(p)) == ChainOf(p) && OneOff(Parsed(p)) == OneOff(p)
    ensures ChainOf(p["recurring" := Bool(true)]) == ChainOf(p)
  {
  }
}
