/**
 Any number of workers together.  Each pass leases a job, keeps it with its heartbeat,
 and then makes the calls of module Worker with the handle that its heartbeat returned;
 passes, heartbeats and everybody else's queue calls interleave freely, and a pass may
 stop for ever at any point.
 */
module Fleet {
  import opened Prelude
  import opened Jobs
  import opened QueueRuns
  import opened Ownership
  import opened Scheduler
  import opened Worker
  import opened Chains
  import opened Heartbeat

  datatype Beat = Beat(fields: Fields, calls: seq<Call>, phase: Phase, refused: bool)

  /** The answers that decide a pass's calls, how many it has made, and the step at which its enqueue call took effect. */
  datatype Plan = Plan(answers: Answers, made: nat, queuedAt: nat)

  datatype Duty = Duty(lease: nat, leased: Handle, beat: Beat, plan: Option<Plan>)

  /** `declined` records the jobs for which the vault answered that the credential is gone. */
  datatype Fleet = Fleet(run: Run, duties: map<nat, Duty>, declined: set<JobId>)

  datatype Move =
    | Others(step: Step)
    | TakeJob(pass: nat, step: Step)
    | Beats(pass: nat, action: Action)
    | Settles(pass: nat, answers: Answers)
    | Makes(pass: nat, now: nat)
    | Drops(pass: nat)

  const Idle := Fleet(Run([Empty], []), map[], {})

  function View(run: Run, d: Duty): System { System(run, d.beat.fields, d.beat.calls, d.beat.phase, d.beat.refused) }

  function Update(d: Duty, y: System): Duty { d.(beat := Beat(y.fields, y.calls, y.phase, y.refused)) }

  function LastWorld(run: Run): World
    requires |run.worlds| == |run.steps| + 1
  {
    run.worlds[|run.steps|]
  }

  /** Steps that are not made by a pass: clients, revocations, erasures and idle workers; none of them writes a scheduled key. */
  predicate ByOthers(e: Event) {
    (e.Enqueueing? && !e.input.id.key.ScheduledKey?) || e.Cancelling? || e.LeasingNothing? || e.Erasing?
  }

  ghost predicate Planned(f: Fleet, p: nat) {
    && p in f.duties && f.duties[p].plan.Some? && f.duties[p].plan.value.answers.interval > 0
    && f.duties[p].plan.value.made < |Calls(f.duties[p].plan.value.answers)|
  }

  function NextCall(f: Fleet, p: nat): Event
    requires Planned(f, p)
  {
    Calls(f.duties[p].plan.value.answers)[f.duties[p].plan.value.made]
  }

  ghost predicate CanMove(f: Fleet, m: Move, interval: nat)
    requires ValidRun(f.run)
  {
    match m
    case Others(s) => ByOthers(s.event) && Enabled(LastWorld(f.run), s)
    case TakeJob(p, s) => p !in f.duties && s.event.Leasing? && Enabled(LastWorld(f.run), s)
    case Beats(p, a) => p in f.duties && !a.Elsewhere? && CanDo(View(f.run, f.duties[p]), a)
    case Settles(p, a) =>
      && p in f.duties && f.duties[p].plan.None? && f.duties[p].beat.phase.Stopped?
      && a.leased == Some(f.duties[p].leased) && a.stopped == f.duties[p].beat.phase.job
      && a.interval == interval && Processes(f.duties[p].leased, a.processing)
    case Makes(p, now) =>
      && Planned(f, p) && Enabled(LastWorld(f.run), Step(now, NextCall(f, p)))
      && (NextCall(f, p).Enqueueing? ==> now == f.duties[p].plan.value.answers.scheduledAt)
    case Drops(p) =>  // the call fails without taking effect
      && Planned(f, p)
      && (NextCall(f, p).Enqueueing? ==> f.duties[p].plan.value.answers.vault.Vault? && f.duties[p].plan.value.answers.vault.enqueueFails.Some?)
  }

  ghost function Moved(f: Fleet, m: Move, interval: nat): Fleet
    requires ValidRun(f.run) && CanMove(f, m, interval)
  {
    match m
    case Others(s) => f.(run := Extend(f.run, s))
    case TakeJob(p, s) =>
      var h := Returned(LastWorld(f.run), s).value;
      f.(run := Extend(f.run, s),
         duties := f.duties[p := Duty(|f.run.steps|, h, Beat(Fields(h, true, false, false), [], Working, false), None)])
    case Beats(p, a) =>
      var y := Do(View(f.run, f.duties[p]), a);
      f.(run := y.run, duties := f.duties[p := Update(f.duties[p], y)])
    case Settles(p, a) =>
      f.(duties := f.duties[p := f.duties[p].(plan := Some(Plan(a, 0, 0)))],
         declined := if Declined(a) then f.declined + {f.duties[p].leased.id} else f.declined)
    case Makes(p, now) =>
      var plan := f.duties[p].plan.value;
      f.(run := Extend(f.run, Step(now, NextCall(f, p))),
         duties := f.duties[p := f.duties[p].(plan := Some(plan.(made := plan.made + 1,
                     queuedAt := if NextCall(f, p).Enqueueing? then |f.run.steps| else plan.queuedAt)))])
    case Drops(p) =>
      var plan := f.duties[p].plan.value;
      f.(duties := f.duties[p := f.duties[p].(plan := Some(plan.(made := plan.made + 1)))])
  }

  // ---------------------------------------------------------------- invariant

  ghost predicate PlanOk(run: Run, d: Duty, plan: Plan, declined: set<JobId>, interval: nat) {
    var a := plan.answers;
    && d.beat.phase.Stopped? && a.leased == Some(d.leased) && a.stopped == d.beat.phase.job
    && a.interval == interval && interval > 0 && Processes(d.leased, a.processing)
    && (Declined(a) ==> d.leased.id in declined)
    && plan.made <= |Calls(a)|
    && (plan.made >= 1 && Calls(a)[0].Enqueueing? && a.vault.Vault? && a.vault.enqueueFails.None? ==>
          d.lease < plan.queuedAt < |run.steps| && run.steps[plan.queuedAt] == Step(a.scheduledAt, Calls(a)[0]))
  }

  ghost predicate DutyOk(run: Run, d: Duty, declined: set<JobId>, interval: nat) {
    && Sound(View(run, d), d.lease)
    && d.leased in LastWorld(run).issued && run.steps[d.lease].event.Leasing? && d.leased.id == run.steps[d.lease].event.id
    && (d.plan.Some? ==> PlanOk(run, d, d.plan.value, declined, interval))
  }

  ghost predicate RunOk(run: Run, declined: set<JobId>, interval: nat) {
    && ValidRun(run) && interval > 0
    && OnlyScheduler(run, interval) && OnlyChains(run) && WorkersSchedule(run, interval, declined)
  }

  ghost predicate FleetOk(f: Fleet, interval: nat) {
    && RunOk(f.run, f.declined, interval)
    && forall p | p in f.duties :: DutyOk(f.run, f.duties[p], f.declined, interval)
  }

  // ---------------------------------------------------------- one more step

  lemma EarlierScheduledBefore(run: Run, s: Step, k: nat, h: Handle, interval: nat)
    requires interval > 0 && ValidRun(run) && Enabled(LastWorld(run), s) && ValidRun(Extend(run, s)) && k < |run.steps| && h.id.key.ScheduledKey?
    requires ScheduledBefore(run, k, h, interval)
    ensures ScheduledBefore(Extend(run, s), k, h, interval)
  {
    var r' := Extend(run, s);
    var i: nat, m: nat :| i < m < k && Carried(run, i, h, k) && QueuesNextSlot(run, m, h.id, interval);
    CarriedInExtension(run, s, i, h, k);
    assert r'.steps[m] == run.steps[m];
    assert QueuesNextSlot(r', m, h.id, interval);
  }

  /** What a step must satisfy for the run to stay in order. */
  ghost predicate InOrder(run: Run, s: Step, declined: set<JobId>, interval: nat)
    requires ValidRun(run) && Enabled(LastWorld(run), s) && ValidRun(Extend(run, s)) && interval > 0
  {
    && (s.event.Enqueueing? ==> NamesChain(s.event.input.id, s.event.input.payload))
    && (s.event.Enqueueing? && s.event.input.id.key.ScheduledKey? ==>
          s.event.input.id.key.slot == (s.now + interval) / interval && s.event.input.availableAt == Some(s.now + interval))
    && (s.event.Completing? && s.event.handle.id.key.ScheduledKey? ==>
          s.event.handle.id in declined || ScheduledBefore(Extend(run, s), |run.steps|, s.event.handle, interval))
  }

  lemma ExtendKeepsSchedule(run: Run, s: Step, declined: set<JobId>, interval: nat)
    requires RunOk(run, declined, interval) && Enabled(LastWorld(run), s) && ValidRun(Extend(run, s)) && InOrder(run, s, declined, interval)
    ensures WorkersSchedule(Extend(run, s), interval, declined)
  {
    var r' := Extend(run, s);
    forall k | 0 <= k < |r'.steps| && CompletesSlot(r', k)
      ensures r'.steps[k].event.handle.id in declined || ScheduledBefore(r', k, r'.steps[k].event.handle, interval)
    {
      if k < |run.steps| {
        assert r'.steps[k] == run.steps[k] && r'.worlds[k] == run.worlds[k];
        assert CompletesSlot(run, k);
        var h := run.steps[k].event.handle;
        if h.id !in declined { EarlierScheduledBefore(run, s, k, h, interval); }
      }
    }
  }

  lemma ExtendKeepsRunOk(run: Run, s: Step, declined: set<JobId>, interval: nat)
    requires RunOk(run, declined, interval) && Enabled(LastWorld(run), s)
    requires ValidRun(Extend(run, s)) ==> InOrder(run, s, declined, interval)
    ensures RunOk(Extend(run, s), declined, interval)
  {
    ExtendIsValid(run, s);
    ExtendKeepsSchedule(run, s, declined, interval);
    var r' := Extend(run, s);
    assert forall k | 0 <= k < |run.steps| :: r'.steps[k] == run.steps[k];
  }

  /** A duty is not disturbed by a step of somebody else. */
  lemma ExtendKeepsDuty(run: Run, s: Step, d: Duty, declined: set<JobId>, interval: nat)
    requires ValidRun(run) && Enabled(LastWorld(run), s) && DutyOk(run, d, declined, interval)
    ensures DutyOk(Extend(run, s), d, declined, interval)
  {
    ElsewhereKeepsSound(View(run, d), s, d.lease);
    assert forall k | 0 <= k < |run.steps| :: Extend(run, s).steps[k] == run.steps[k];
  }

  lemma OthersKeep(f: Fleet, s: Step, interval: nat)
    requires FleetOk(f, interval) && CanMove(f, Others(s), interval)
    ensures FleetOk(Moved(f, Others(s), interval), interval)
  {
    ExtendKeepsRunOk(f.run, s, f.declined, interval);
    forall p | p in f.duties
      ensures DutyOk(Extend(f.run, s), f.duties[p], f.declined, interval)
    {
      ExtendKeepsDuty(f.run, s, f.duties[p], f.declined, interval);
    }
  }

  lemma TakingKeeps(f: Fleet, p: nat, s: Step, interval: nat)
    requires FleetOk(f, interval) && CanMove(f, TakeJob(p, s), interval)
    ensures FleetOk(Moved(f, TakeJob(p, s), interval), interval)
  {
    var f' := Moved(f, TakeJob(p, s), interval);
    ExtendKeepsRunOk(f.run, s, f.declined, interval);
    forall q | q in f'.duties
      ensures DutyOk(f'.run, f'.duties[q], f'.declined, interval)
    {
      if q == p {
        assert f'.run.steps[|f.run.steps|] == s && f'.run.worlds[|f.run.steps|] == LastWorld(f.run);
        BeginsSound(View(f'.run, f'.duties[p]), |f.run.steps|);
      } else {
        ExtendKeepsDuty(f.run, s, f.duties[q], f.declined, interval);
      }
    }
  }

  lemma BeatingKeepsDuty(run: Run, d: Duty, a: Action, declined: set<JobId>, interval: nat)
    requires ValidRun(run) && DutyOk(run, d, declined, interval) && !a.Elsewhere? && CanDo(View(run, d), a)
    ensures var y := Do(View(run, d), a); DutyOk(y.run, Update(d, y), declined, interval)
  {
    var y := Do(View(run, d), a);
    StepKeepsSound(View(run, d), a, d.lease);
    if d.plan.Some? { StoppedDoesNothing(View(run, d), a, d.lease); }
    assert y == View(y.run, Update(d, y));
    assert forall k | 0 <= k < |run.steps| :: y.run.steps[k] == run.steps[k];
  }

  /** The step that a heartbeat's action takes on the queue, if it takes one. */
  function RenewalOf(d: Duty, a: Action): Option<Step> {
    if a.Execute? && a.k < |d.beat.calls| && d.beat.calls[a.k].Sent? then Some(Step(a.now, Renewing(d.beat.calls[a.k].handle))) else None
  }

  lemma BeatingRun(run: Run, d: Duty, a: Action)
    requires ValidRun(run) && !a.Elsewhere? && CanDo(View(run, d), a)
    ensures RenewalOf(d, a).None? ==> Do(View(run, d), a).run == run
    ensures RenewalOf(d, a).Some? ==>
      Enabled(LastWorld(run), RenewalOf(d, a).value) && Do(View(run, d), a).run == Extend(run, RenewalOf(d, a).value)
  {
  }

  lemma BeatingKeeps(f: Fleet, p: nat, a: Action, interval: nat)
    requires FleetOk(f, interval) && CanMove(f, Beats(p, a), interval)
    ensures FleetOk(Moved(f, Beats(p, a), interval), interval)
  {
    var f', s := Moved(f, Beats(p, a), interval), RenewalOf(f.duties[p], a);
    hide RunOk, DutyOk, Do, CanDo, Enabled;
    BeatingRun(f.run, f.duties[p], a);
    if s.Some? { ExtendKeepsRunOk(f.run, s.value, f.declined, interval); }
    forall q | q in f'.duties
      ensures DutyOk(f'.run, f'.duties[q], f'.declined, interval)
    {
      if q == p {
        BeatingKeepsDuty(f.run, f.duties[p], a, f.declined, interval);
      } else if s.Some? {
        ExtendKeepsDuty(f.run, s.value, f.duties[q], f.declined, interval);
      }
    }
  }

  lemma DecliningKeepsRun(run: Run, declined: set<JobId>, more: set<JobId>, interval: nat)
    requires RunOk(run, declined, interval) && declined <= more
    ensures RunOk(run, more, interval)
  {
    hide ValidRun, OnlyScheduler, OnlyChains, ScheduledBefore, CompletesSlot;
  }

  lemma DecliningKeepsDuty(run: Run, d: Duty, declined: set<JobId>, more: set<JobId>, interval: nat)
    requires DutyOk(run, d, declined, interval) && declined <= more
    ensures DutyOk(run, d, more, interval)
  {
    hide Sound;
  }

  lemma PlanningKeepsDuty(run: Run, d: Duty, a: Answers, declined: set<JobId>, interval: nat)
    requires DutyOk(run, d, declined, interval) && d.beat.phase.Stopped?
    requires a.leased == Some(d.leased) && a.stopped == d.beat.phase.job
    requires a.interval == interval && interval > 0 && Processes(d.leased, a.processing)
    requires Declined(a) ==> d.leased.id in declined
    ensures DutyOk(run, d.(plan := Some(Plan(a, 0, 0))), declined, interval)
  {
    hide Sound;
  }

  lemma DroppingKeepsDuty(run: Run, d: Duty, declined: set<JobId>, interval: nat)
    requires DutyOk(run, d, declined, interval) && d.plan.Some? && d.plan.value.made < |Calls(d.plan.value.answers)|
    requires
      var plan := d.plan.value;
      Calls(plan.answers)[plan.made].Enqueueing? ==> plan.answers.vault.Vault? && plan.answers.vault.enqueueFails.Some?
    ensures DutyOk(run, d.(plan := Some(d.plan.value.(made := d.plan.value.made + 1))), declined, interval)
  {
    hide Sound;
  }

  lemma SettlingKeeps(f: Fleet, p: nat, a: Answers, interval: nat)
    requires FleetOk(f, interval) && CanMove(f, Settles(p, a), interval)
    ensures FleetOk(Moved(f, Settles(p, a), interval), interval)
  {
    var f' := Moved(f, Settles(p, a), interval);
    assert interval > 0;
    hide RunOk, DutyOk, Enabled, ValidRun, CanDo, Do, Extend;
    DecliningKeepsRun(f.run, f.declined, f'.declined, interval);
    forall q | q in f'.duties
      ensures DutyOk(f'.run, f'.duties[q], f'.declined, interval)
    {
      DecliningKeepsDuty(f.run, f.duties[q], f.declined, f'.declined, interval);
      if q == p { PlanningKeepsDuty(f.run, f.duties[p], a, f'.declined, interval); }
    }
  }

  lemma DroppingKeeps(f: Fleet, p: nat, interval: nat)
    requires FleetOk(f, interval) && CanMove(f, Drops(p), interval)
    ensures FleetOk(Moved(f, Drops(p), interval), interval)
  {
    var f' := Moved(f, Drops(p), interval);
    hide RunOk, DutyOk, Calls, Enabled, ValidRun, CanDo, Do, Extend;
    forall q | q in f'.duties
      ensures DutyOk(f'.run, f'.duties[q], f'.declined, interval)
    {
      if q == p { DroppingKeepsDuty(f.run, f.duties[p], f.declined, interval); }
    }
  }

  // ------------------------------------------------------ the calls of a pass

  /** What a pass queues is a slot of the chain that its payload names. */
  lemma FollowUpNamesChain(a: Answers, owned: Handle)
    requires a.interval > 0 && FollowUp(a, owned).Some?
    ensures NamesChain(FollowUp(a, owned).value.id, FollowUp(a, owned).value.payload)
  {
    ParsedKeepsChain(a.processing.recurring.value);
  }

  /** A chain's job that a pass may complete is declined, or its next slot has been queued under the pass's lease. */
  lemma CompletionIsScheduled(run: Run, d: Duty, s: Step, declined: set<JobId>, interval: nat)
    requires RunOk(run, declined, interval) && DutyOk(run, d, declined, interval) && d.plan.Some?
    requires d.plan.value.made < |Calls(d.plan.value.answers)| && s.event == Calls(d.plan.value.answers)[d.plan.value.made]
    requires s.event.Completing? && s.event.handle.id.key.ScheduledKey?
    requires Enabled(LastWorld(run), s) && ValidRun(Extend(run, s))
    ensures s.event.handle.id in declined || ScheduledBefore(Extend(run, s), |run.steps|, s.event.handle, interval)
  {
    var a, owned, r' := d.plan.value.answers, s.event.handle, Extend(run, s);
    PassOrder(a);
    CarriedKeepsId(run, d.lease, owned, |run.steps|);
    ChainsAlwaysOk(run, |run.steps|);
    assert NamesChain(d.leased.id, d.leased.payload);
    ParsedKeepsChain(d.leased.payload);
    if owned.id !in declined {
      var m := d.plan.value.queuedAt;
      assert r'.steps[m] == run.steps[m];
      assert QueuesNextSlot(r', m, owned.id, interval);
      CarriedInExtension(run, s, d.lease, owned, |run.steps|);
    }
  }

  lemma CallIsInOrder(run: Run, d: Duty, s: Step, declined: set<JobId>, interval: nat)
    requires RunOk(run, declined, interval) && DutyOk(run, d, declined, interval) && d.plan.Some?
    requires d.plan.value.made < |Calls(d.plan.value.answers)| && s.event == Calls(d.plan.value.answers)[d.plan.value.made]
    requires s.event.Enqueueing? ==> s.now == d.plan.value.answers.scheduledAt
    requires Enabled(LastWorld(run), s) && ValidRun(Extend(run, s))
    ensures InOrder(run, s, declined, interval)
  {
    if s.event.Enqueueing? {
      FollowUpNamesChain(d.plan.value.answers, d.plan.value.answers.stopped.value);
    } else if s.event.Completing? && s.event.handle.id.key.ScheduledKey? {
      CompletionIsScheduled(run, d, s, declined, interval);
    }
  }

  lemma MakingKeepsDuty(run: Run, d: Duty, s: Step, declined: set<JobId>, interval: nat)
    requires ValidRun(run) && DutyOk(run, d, declined, interval) && d.plan.Some?
    requires d.plan.value.made < |Calls(d.plan.value.answers)| && s.event == Calls(d.plan.value.answers)[d.plan.value.made]
    requires s.event.Enqueueing? ==> s.now == d.plan.value.answers.scheduledAt
    requires Enabled(LastWorld(run), s)
    ensures
      var plan := d.plan.value;
      var plan' := plan.(made := plan.made + 1, queuedAt := if s.event.Enqueueing? then |run.steps| else plan.queuedAt);
      DutyOk(Extend(run, s), d.(plan := Some(plan')), declined, interval)
  {
    PassOrder(d.plan.value.answers);
    ExtendKeepsDuty(run, s, d, declined, interval);
    hide Sound, Calls, Enabled;
  }

  lemma MakingKeeps(f: Fleet, p: nat, now: nat, interval: nat)
    requires FleetOk(f, interval) && CanMove(f, Makes(p, now), interval)
    ensures FleetOk(Moved(f, Makes(p, now), interval), interval)
  {
    var f' := Moved(f, Makes(p, now), interval);
    var s := Step(now, NextCall(f, p));
    ExtendIsValid(f.run, s);
    hide RunOk, DutyOk, Calls, Enabled, ValidRun, CanDo, Do;
    CallIsInOrder(f.run, f.duties[p], s, f.declined, interval);
    ExtendKeepsRunOk(f.run, s, f.declined, interval);
    forall q | q in f'.duties
      ensures DutyOk(f'.run, f'.duties[q], f'.declined, interval)
    {
      if q == p {
        MakingKeepsDuty(f.run, f.duties[p], s, f.declined, interval);
      } else {
        ExtendKeepsDuty(f.run, s, f.duties[q], f.declined, interval);
      }
    }
  }

  // ---------------------------------------------------------------- every run

  lemma MoveKeepsOk(f: Fleet, m: Move, interval: nat)
    requires FleetOk(f, interval) && CanMove(f, m, interval)
    ensures FleetOk(Moved(f, m, interval), interval)
  {
    hide FleetOk, CanMove, Moved;
    match m
    case Others(s) => OthersKeep(f, s, interval);
    case TakeJob(p, s) => TakingKeeps(f, p, s, interval);
    case Beats(p, a) => BeatingKeeps(f, p, a, interval);
    case Settles(p, a) => SettlingKeeps(f, p, a, interval);
    case Makes(p, now) => MakingKeeps(f, p, now, interval);
    case Drops(p) => DroppingKeeps(f, p, interval);
  }

  ghost predicate ValidFleetRun(history: seq<Fleet>, moves: seq<Move>, interval: nat) {
    && |history| == |moves| + 1 && history[0] == Idle
    && forall k {:trigger moves[k]} | 0 <= k < |moves| ::
         ValidRun(history[k].run) && CanMove(history[k], moves[k], interval) && history[k + 1] == Moved(history[k], moves[k], interval)
  }

  lemma FleetStep(history: seq<Fleet>, moves: seq<Move>, interval: nat, k: nat)
    requires ValidFleetRun(history, moves, interval) && k < |moves|
    ensures ValidRun(history[k].run) && CanMove(history[k], moves[k], interval)
    ensures history[k + 1] == Moved(history[k], moves[k], interval)
  {
    assert moves[k] == moves[k];
  }

  /** Whatever the interleaving, the queue only sees runs in which slots are queued before they are completed. */
  lemma {:induction false} FleetAlwaysOk(history: seq<Fleet>, moves: seq<Move>, interval: nat, n: nat)
    requires interval > 0 && ValidFleetRun(history, moves, interval) && n < |history|
    ensures FleetOk(history[n], interval)
  {
    if n > 0 {
      FleetAlwaysOk(history, moves, interval, n - 1);
      FleetStep(history, moves, interval, n - 1);
      hide ValidFleetRun, FleetOk, CanMove, Moved;
      MoveKeepsOk(history[n - 1], moves[n - 1], interval);
    }
  }

  /**
   A recurring chain does not die of success: if the latest slot of a chain has succeeded, the
   credential vault answered for that very job that the credential is gone.  Otherwise the
   latest slot is still queued, running or to be retried, or it was cancelled or dead-lettered.
   */
  lemma ChainNeverEndsInSuccess(history: seq<Fleet>, moves: seq<Move>, interval: nat, n: nat, id: JobId)
    requires interval > 0 && ValidFleetRun(history, moves, interval) && n < |history| && ValidRun(history[n].run)
    requires id.key.ScheduledKey? && OwnerStays(history[n].run, id) && id in LastWorld(history[n].run).queue.rows
    requires forall slot: nat :: SlotId(id, slot) in LastWorld(history[n].run).queue.rows ==> slot <= id.key.slot
    ensures LastWorld(history[n].run).queue.rows[id].status == Succeeded ==> id in history[n].declined
  {
    var f := history[n];
    FleetAlwaysOk(history, moves, interval, n);
    if LastWorld(f.run).queue.rows[id].status == Succeeded && id !in f.declined {
      var slot := SuccessLeavesLaterSlot(f.run, id, |f.run.steps|, interval, f.declined);
    }
  }
}
