/**
 The lease heartbeat of one worker, interleaved with everything else that
 happens on the queue.  A renewal is a call that is sent, may or may not be
 executed by the database, and is answered or fails; ticks, answers and the stop
 sequence interleave freely with it.
 */
module Heartbeat {
  import opened Prelude
  import opened Jobs
  import opened QueueRuns
  import opened Ownership

  /** What `renewLease` gives back to the heartbeat. */
  datatype Reply = Granted(handle: Handle) | Refused | Threw

  datatype Fields = Fields(current: Handle, timer: bool, renewal: bool, lost: bool)

  function OnTick(f: Fields): Fields {
    if f.renewal || f.lost then f else f.(renewal := true)
  }

  function OnReply(f: Fields, reply: Reply, now: nat): Fields {
    match reply
    case Granted(h) => f.(current := h)
    case Refused => f.(lost := true)
    case Threw => if f.current.leasedUntil.None? || f.current.leasedUntil.value <= now then f.(lost := true) else f
  }

  /** Remaining time at which `stop` renews once more. */
  const FINAL_RENEWAL_MS := Min(5000, LEASE_MS / 3)

  predicate NeedsFinalRenewal(f: Fields, now: nat) {
    f.current.leasedUntil.Some? && f.current.leasedUntil.value - now <= FINAL_RENEWAL_MS
  }

  /** The heartbeat object, one method for each uninterrupted stretch of the source. */
  class JobLeaseHeartbeat {
    var current: Handle
    var timer: bool
    var renewal: bool
    var lost: bool

    function View(): Fields
      reads this
    {
      Fields(current, timer, renewal, lost)
    }

    constructor (job: Handle)
      ensures View() == Fields(job, false, false, false)
    {
      current, timer, renewal, lost := job, false, false, false;
    }

    method Start()
      modifies this
      ensures View() == old(View()).(timer := true)
    {
      if timer { return; }
      timer := true;
    }

    /** Returns the handle it sends for renewal, if it starts one. */
    method BeginRenewal() returns (sent: Option<Handle>)
      modifies this
      ensures View() == OnTick(old(View()))
      ensures sent == if old(renewal || lost) then None else Some(old(current))
      ensures renewal == (old(renewal) || !old(lost)) && current == old(current) && timer == old(timer) && lost == old(lost)
    {
      if renewal || lost { return None; }
      renewal := true;
      sent := Some(current);
    }

    method Renewed(reply: Reply, fromTick: bool, now: nat)
      modifies this
      ensures View() == (if fromTick then OnReply(old(View()), reply, now).(renewal := false) else OnReply(old(View()), reply, now))
      ensures current == (if reply.Granted? then reply.handle else old(current)) && timer == old(timer)
      ensures lost == (old(lost) || reply.Refused? || (reply.Threw? && (old(current).leasedUntil.Some? ==> old(current).leasedUntil.value <= now)))
      ensures renewal == (old(renewal) && !fromTick)
    {
      match reply {
        case Granted(h) => current := h;
        case Refused => lost := true;
        case Threw =>
          if current.leasedUntil.None? || current.leasedUntil.value <= now { lost := true; }
      }
      if fromTick { renewal := false; }
    }

    method BeginStop()
      modifies this
      ensures View() == old(View()).(timer := false)
    {
      timer := false;
    }

    /** After the pending renewal: decide whether to give up, renew once more, or hand the job back. */
    method DecideStop(now: nat) returns (gaveUp: bool, renewAgain: bool)
      ensures gaveUp <==> lost || current.leasedUntil.None?
      ensures renewAgain <==> !gaveUp && NeedsFinalRenewal(View(), now)
      ensures renewAgain <==> !lost && current.leasedUntil.Some? && current.leasedUntil.value <= now + 5000
    {
      gaveUp := lost || current.leasedUntil.None?;
      renewAgain := false;
      if !gaveUp {
        var remaining := current.leasedUntil.value - now;
        renewAgain := remaining <= FINAL_RENEWAL_MS;
      }
    }
  }

  // ------------------------------------------------------ the whole system

  datatype Call = Sent(handle: Handle, fromTick: bool) | Answered(reply: Reply, fromTick: bool)

  datatype Phase = Working | AwaitingRenewal | FinalRenewal | Stopped(job: Option<Handle>)

  /** `calls` are the renewals in flight; `refused` records that an answer refused one. */
  datatype System = System(run: Run, fields: Fields, calls: seq<Call>, phase: Phase, refused: bool)

  datatype Action =
    | Elsewhere(step: Step)
    | Tick
    | Execute(k: nat, now: nat, answerLost: bool)
    | Break(k: nat)
    | Deliver(k: nat, now: nat)
    | Stop
    | Decide(now: nat)

  ghost function Extend(r: Run, s: Step): Run
    requires ValidRun(r) && Enabled(r.worlds[|r.steps|], s)
  {
    Run(r.worlds + [After(r.worlds[|r.steps|], s)], r.steps + [s])
  }

  ghost predicate CanDo(y: System, a: Action)
    requires ValidRun(y.run)
  {
    var last := y.run.worlds[|y.run.steps|];
    match a
    case Elsewhere(s) => Enabled(last, s)
    case Tick => y.fields.timer
    case Execute(k, now, _) => k < |y.calls| && y.calls[k].Sent? && Enabled(last, Step(now, Renewing(y.calls[k].handle)))
    case Break(k) => k < |y.calls| && y.calls[k].Sent?
    case Deliver(k, now) => k < |y.calls| && y.calls[k].Answered? && last.clock <= now
    case Stop => y.phase == Working
    case Decide(now) => y.phase == AwaitingRenewal && !y.fields.renewal && last.clock <= now
  }

  ghost function Do(y: System, a: Action): System
    requires ValidRun(y.run) && CanDo(y, a)
  {
    var last := y.run.worlds[|y.run.steps|];
    match a
    case Elsewhere(s) => y.(run := Extend(y.run, s))
    case Tick =>
      y.(fields := OnTick(y.fields),
         calls := if OnTick(y.fields) == y.fields then y.calls else y.calls + [Sent(y.fields.current, true)])
    case Execute(k, now, answerLost) =>
      var h := y.calls[k].handle;
      var s := Step(now, Renewing(h));
      var reply := if answerLost then Threw else if Valid(last.queue.rows, h, now) then Granted(RenewedHandle(h, LEASE_MS, now)) else Refused;
      y.(run := Extend(y.run, s), calls := y.calls[k := Answered(reply, y.calls[k].fromTick)])
    case Break(k) => y.(calls := y.calls[k := Answered(Threw, y.calls[k].fromTick)])
    case Deliver(k, now) =>
      var c := y.calls[k];
      var f := OnReply(y.fields, c.reply, now);
      y.(fields := if c.fromTick then f.(renewal := false) else f,
         calls := y.calls[..k] + y.calls[k + 1..],
         phase := if c.fromTick then y.phase else Stopped(if f.lost then None else Some(f.current)),
         refused := y.refused || c.reply == Refused)
    case Stop => y.(fields := y.fields.(timer := false), phase := AwaitingRenewal)
    case Decide(now) =>
      if y.fields.lost || y.fields.current.leasedUntil.None? then y.(phase := Stopped(None))
      else if NeedsFinalRenewal(y.fields, now) then y.(calls := y.calls + [Sent(y.fields.current, false)], phase := FinalRenewal)
      else y.(phase := Stopped(Some(y.fields.current)))
  }

  /** The worker has just leased a job at step `lease` and started its heartbeat. */
  ghost predicate Begins(y: System, lease: nat) {
    && ValidRun(y.run) && |y.run.steps| == lease + 1 && y.run.steps[lease].event.Leasing?
    && y.fields == Fields(Returned(y.run.worlds[lease], y.run.steps[lease]).value, true, false, false)
    && y.calls == [] && y.phase == Working && !y.refused
  }

  // ------------------------------------------------------------- invariant

  ghost predicate CallOk(y: System, lease: nat, c: Call)
    requires ValidRun(y.run)
  {
    match c
    case Sent(h, _) => h == y.fields.current
    case Answered(Granted(h), _) => Carried(y.run, lease, h, |y.run.steps|)
    case Answered(_, _) => true
  }

  ghost predicate Sound(y: System, lease: nat) {
    && ValidRun(y.run) && lease < |y.run.steps|
    && Carried(y.run, lease, y.fields.current, |y.run.steps|)
    && |y.calls| <= 1
    && (y.fields.renewal <==> |y.calls| == 1 && y.calls[0].fromTick)
    && (y.phase == FinalRenewal <==> |y.calls| == 1 && !y.calls[0].fromTick)
    && (y.fields.timer ==> y.phase == Working)
    && (forall c | c in y.calls :: CallOk(y, lease, c))
    && (y.refused ==> y.fields.lost)
    && (y.phase.Stopped? ==> |y.calls| == 0)
    && (y.phase.Stopped? && y.phase.job.Some? ==> !y.fields.lost && y.phase.job.value == y.fields.current)
  }

  lemma ExtendIsValid(r: Run, s: Step)
    requires ValidRun(r) && Enabled(r.worlds[|r.steps|], s)
    ensures ValidRun(Extend(r, s))
  {
    var e := Extend(r, s);
    forall k {:trigger e.steps[k]} | 0 <= k < |e.steps|
      ensures Enabled(e.worlds[k], e.steps[k]) && e.worlds[k + 1] == After(e.worlds[k], e.steps[k])
    {
      if k < |r.steps| { assert e.steps[k] == r.steps[k]; }
    }
  }

  lemma {:induction false} CarriedInExtension(r: Run, s: Step, i: nat, h: Handle, n: nat)
    requires ValidRun(r) && Enabled(r.worlds[|r.steps|], s) && n <= |r.steps| && ValidRun(Extend(r, s))
    ensures Carried(Extend(r, s), i, h, n) == Carried(r, i, h, n)
    decreases n
  {
    if i < n {
      var e := Extend(r, s);
      assert e.steps[n - 1] == r.steps[n - 1] && e.worlds[n - 1] == r.worlds[n - 1];
      CarriedInExtension(r, s, i, h, n - 1);
      if r.steps[n - 1].event.Renewing? { CarriedInExtension(r, s, i, r.steps[n - 1].event.handle, n - 1); }
    }
  }

  lemma CarriedOn(r: Run, s: Step, i: nat, h: Handle)
    requires ValidRun(r) && Enabled(r.worlds[|r.steps|], s) && Carried(r, i, h, |r.steps|)
    ensures ValidRun(Extend(r, s)) && Carried(Extend(r, s), i, h, |r.steps| + 1)
  {
    ExtendIsValid(r, s);
    CarriedInExtension(r, s, i, h, |r.steps|);
  }

  lemma RenewalIsCarried(r: Run, h: Handle, i: nat, now: nat)
    requires ValidRun(r) && Enabled(r.worlds[|r.steps|], Step(now, Renewing(h))) && Carried(r, i, h, |r.steps|)
    requires Valid(r.worlds[|r.steps|].queue.rows, h, now)
    ensures ValidRun(Extend(r, Step(now, Renewing(h))))
    ensures Carried(Extend(r, Step(now, Renewing(h))), i, RenewedHandle(h, LEASE_MS, now), |r.steps| + 1)
  {
    ExtendIsValid(r, Step(now, Renewing(h)));
    CarriedInExtension(r, Step(now, Renewing(h)), i, h, |r.steps|);
  }

  lemma ElsewhereKeepsSound(y: System, s: Step, lease: nat)
    requires Sound(y, lease) && CanDo(y, Elsewhere(s))
    ensures Sound(Do(y, Elsewhere(s)), lease)
  {
    var y' := Do(y, Elsewhere(s));
    CarriedOn(y.run, s, lease, y.fields.current);
    forall c | c in y'.calls
      ensures CallOk(y', lease, c)
    {
      assert CallOk(y, lease, c);
      if c.Answered? && c.reply.Granted? { CarriedOn(y.run, s, lease, c.reply.handle); }
    }
  }

  lemma ExecuteKeepsSound(y: System, a: Action, lease: nat)
    requires Sound(y, lease) && CanDo(y, a) && a.Execute?
    ensures Sound(Do(y, a), lease)
  {
    var h := y.calls[a.k].handle;
    assert CallOk(y, lease, y.calls[a.k]);
    CarriedOn(y.run, Step(a.now, Renewing(h)), lease, h);
    if Valid(y.run.worlds[|y.run.steps|].queue.rows, h, a.now) { RenewalIsCarried(y.run, h, lease, a.now); }
  }

  lemma StepKeepsSound(y: System, a: Action, lease: nat)
    requires Sound(y, lease) && CanDo(y, a)
    ensures Sound(Do(y, a), lease)
  {
    match a
    case Elsewhere(s) => ElsewhereKeepsSound(y, s, lease);
    case Execute(_, _, _) => ExecuteKeepsSound(y, a, lease);
    case Deliver(k, _) => assert CallOk(y, lease, y.calls[k]);
    case _ =>
  }

  lemma BeginsSound(y: System, lease: nat)
    requires Begins(y, lease)
    ensures Sound(y, lease)
  {
    assert Carried(y.run, lease, y.fields.current, |y.run.steps|);
  }

  lemma StoppedDoesNothing(y: System, a: Action, lease: nat)
    requires Sound(y, lease) && y.phase.Stopped? && !a.Elsewhere?
    ensures !CanDo(y, a)
  {
  }

  ghost predicate ValidHistory(history: seq<System>, actions: seq<Action>, lease: nat) {
    && |history| == |actions| + 1 && Begins(history[0], lease)
    && forall k {:trigger actions[k]} | 0 <= k < |actions| ::
         ValidRun(history[k].run) && CanDo(history[k], actions[k]) && history[k + 1] == Do(history[k], actions[k])
  }

  lemma HistoryStep(history: seq<System>, actions: seq<Action>, lease: nat, k: nat)
    requires ValidHistory(history, actions, lease) && k < |actions|
    ensures ValidRun(history[k].run) && CanDo(history[k], actions[k]) && history[k + 1] == Do(history[k], actions[k])
  {
    assert actions[k] == actions[k];
  }

  lemma {:induction false} SoundAlways(history: seq<System>, actions: seq<Action>, lease: nat, n: nat)
    requires ValidHistory(history, actions, lease) && n < |history|
    ensures Sound(history[n], lease)
  {
    if n == 0 {
      BeginsSound(history[0], lease);
    } else {
      SoundAlways(history, actions, lease, n - 1);
      HistoryStep(history, actions, lease, n - 1);
      StepKeepsSound(history[n - 1], actions[n - 1], lease);
    }
  }

  /**
   Under every interleaving at most one renewal is in flight, none is once the
   heartbeat has stopped, a refused renewal means that no handle is returned, and a
   returned handle comes from the worker's own lease.
   */
  lemma HeartbeatIsSafe(history: seq<System>, actions: seq<Action>, lease: nat, n: nat)
    requires ValidHistory(history, actions, lease) && n < |history|
    ensures ValidRun(history[n].run)
    ensures |history[n].calls| <= 1
    ensures history[n].phase.Stopped? ==> history[n].calls == []
    ensures history[n].refused && history[n].phase.Stopped? ==> history[n].phase.job == None
    ensures history[n].phase.Stopped? && history[n].phase.job.Some? ==>
      Carried(history[n].run, lease, history[n].phase.job.value, |history[n].run.steps|)
  {
    SoundAlways(history, actions, lease, n);
  }

  /**
   What `stop` does once no renewal is pending: it gives up a lost lease, hands back a handle
   with more than five seconds left, and sends any other handle for renewal once more; the
   answer to that decides.
   */
  lemma StopDecides(history: seq<System>, actions: seq<Action>, lease: nat, k: nat)
    requires ValidHistory(history, actions, lease) && k < |actions|
    ensures
      var y, y' := history[k], history[k + 1];
      && y.fields.current.leasedUntil.Some?
      && (actions[k].Decide? ==>
            var h, now := y.fields.current, actions[k].now;
            && y'.fields == y.fields && y'.run == y.run
            && (y.fields.lost ==> y'.phase == Stopped(None) && y'.calls == [])
            && (!y.fields.lost && h.leasedUntil.value > now + 5000 ==> y'.phase == Stopped(Some(h)) && y'.calls == [])
            && (!y.fields.lost && h.leasedUntil.value <= now + 5000 ==> y'.phase == FinalRenewal && y'.calls == [Sent(h, false)]))
      && (y.phase == FinalRenewal && y'.phase != FinalRenewal ==>
            && actions[k].Deliver? && |y.calls| == 1 && y.calls[0].Answered?
            && y'.phase == Stopped(
                 match y.calls[0].reply
                 case Granted(h) => if y.fields.lost then None else Some(h)
                 case Refused => None
                 case Threw => if y.fields.lost || y.fields.current.leasedUntil.value <= actions[k].now then None else Some(y.fields.current)))
  {
    SoundAlways(history, actions, lease, k);
    HistoryStep(history, actions, lease, k);
    CarriedIsIssued(history[k].run, lease, history[k].fields.current, |history[k].run.steps|);
  }

  /** A settlement accepted with the handle that `stop` returned ends an unbroken hold of the job since the worker's lease. */
  lemma StoppedWorkerSettlesItsOwnLease(history: seq<System>, actions: seq<Action>, lease: nat, n: nat, s: Step)
    requires ValidHistory(history, actions, lease) && n < |history|
    requires history[n].phase.Stopped? && history[n].phase.job.Some?
    requires ValidRun(history[n].run) && Enabled(history[n].run.worlds[|history[n].run.steps|], s)
    requires (s.event.Completing? || s.event.Failing?) && s.event.handle == history[n].phase.job.value
    requires Valid(history[n].run.worlds[|history[n].run.steps|].queue.rows, s.event.handle, s.now)
    ensures ValidRun(Extend(history[n].run, s))
    ensures
      var r, j := Extend(history[n].run, s), |history[n].run.steps|;
      var h := s.event.handle;
      && (forall k | lease < k <= j :: HeldAt(r, k, h))
      && (forall k | lease < k < j :: !LeasesJob(r, k, h.id) && !SettlesJob(r, k, h.id))
  {
    var r0 := history[n].run;
    HeartbeatIsSafe(history, actions, lease, n);
    ExtendIsValid(r0, s);
    CarriedInExtension(r0, s, lease, s.event.handle, |r0.steps|);
    assert Extend(r0, s).worlds[|r0.steps|] == r0.worlds[|r0.steps|];
    ExclusiveOwnership(Extend(r0, s), lease, s.event.handle, |r0.steps|);
  }

  // -------------------------------------------- the token is never mislaid

  /** The database grants a renewal and the answer does not reach the worker. */
  ghost predicate LosesAnswer(y: System, a: Action)
    requires ValidRun(y.run)
  {
    a.Execute? && a.answerLost && CanDo(y, a) && Valid(y.run.worlds[|y.run.steps|].queue.rows, y.calls[a.k].handle, a.now)
  }

  /** Nobody else renews this worker's handles. */
  ghost predicate LeavesAlone(y: System, a: Action, lease: nat)
    requires ValidRun(y.run)
  {
    a.Elsewhere? && a.step.event.Renewing? ==> !Carried(y.run, lease, a.step.event.handle, |y.run.steps|)
  }

  ghost predicate Faithful(y: System, a: Action, lease: nat)
    requires ValidRun(y.run)
  {
    !LosesAnswer(y, a) && LeavesAlone(y, a, lease)
  }

  ghost predicate HoldsNow(y: System, g: Handle)
    requires ValidRun(y.run)
  {
    Holds(y.run.worlds[|y.run.steps|].queue.rows, g)
  }

  predicate OnItsWay(y: System, g: Handle) {
    |y.calls| == 1 && y.calls[0].Answered? && y.calls[0].reply == Granted(g)
  }

  /** Any handle of the lease that holds the row is the one the heartbeat has, or is in an answer on its way to it. */
  ghost predicate Knows(y: System, lease: nat) {
    && Sound(y, lease)
    && (forall g | Carried(y.run, lease, g, |y.run.steps|) && HoldsNow(y, g) :: g == y.fields.current || OnItsWay(y, g))
    && (|y.calls| == 1 && y.calls[0].Answered? && y.calls[0].reply.Granted? ==> !HoldsNow(y, y.fields.current))
  }

  /** A handle that a step does not newly create and that holds after the step held before it. */
  lemma HeldBeforeExtension(r: Run, s: Step, i: nat, g: Handle)
    requires ValidRun(r) && Enabled(r.worlds[|r.steps|], s) && Carried(r, i, g, |r.steps|)
    requires Holds(After(r.worlds[|r.steps|], s).queue.rows, g)
    ensures Holds(r.worlds[|r.steps|].queue.rows, g)
    ensures After(r.worlds[|r.steps|], s).queue.rows[g.id] == r.worlds[|r.steps|].queue.rows[g.id]
  {
    InvAlways(r, |r.steps|);
    CarriedIsIssued(r, i, g, |r.steps|);
    assert HandleOk(r.worlds[|r.steps|], g);
    HeldBeforeStep(r.worlds[|r.steps|], s, g);
  }

  lemma RenewalDropsOldToken(r: Run, h: Handle, i: nat, now: nat)
    requires ValidRun(r) && Enabled(r.worlds[|r.steps|], Step(now, Renewing(h))) && Carried(r, i, h, |r.steps|)
    ensures Valid(r.worlds[|r.steps|].queue.rows, h, now) ==> !Holds(After(r.worlds[|r.steps|], Step(now, Renewing(h))).queue.rows, h)
  {
    InvAlways(r, |r.steps|);
    CarriedIsIssued(r, i, h, |r.steps|);
    assert HandleOk(r.worlds[|r.steps|], h);
  }

  lemma NewlyCarried(r: Run, s: Step, i: nat, g: Handle)
    requires ValidRun(r) && Enabled(r.worlds[|r.steps|], s) && ValidRun(Extend(r, s)) && i < |r.steps|
    requires Carried(Extend(r, s), i, g, |r.steps| + 1) && !Carried(r, i, g, |r.steps|)
    ensures s.event.Renewing? && Carried(r, i, s.event.handle, |r.steps|)
    ensures Returned(r.worlds[|r.steps|], s) == Some(g)
  {
    var e := Extend(r, s);
    assert e.steps[|r.steps|] == s && e.worlds[|r.steps|] == r.worlds[|r.steps|];
    CarriedInExtension(r, s, i, g, |r.steps|);
    if s.event.Renewing? { CarriedInExtension(r, s, i, s.event.handle, |r.steps|); }
  }

  lemma ElsewhereKeepsKnows(y: System, s: Step, lease: nat)
    requires Knows(y, lease) && CanDo(y, Elsewhere(s)) && Faithful(y, Elsewhere(s), lease)
    ensures Knows(Do(y, Elsewhere(s)), lease)
  {
    var y' := Do(y, Elsewhere(s));
    ElsewhereKeepsSound(y, s, lease);
    ExtendIsValid(y.run, s);
    forall g | Carried(y'.run, lease, g, |y'.run.steps|) && HoldsNow(y', g)
      ensures g == y'.fields.current || OnItsWay(y', g)
    {
      if !Carried(y.run, lease, g, |y.run.steps|) { NewlyCarried(y.run, s, lease, g); }
      HeldBeforeExtension(y.run, s, lease, g);
      assert HoldsNow(y, g);
    }
    if HoldsNow(y', y.fields.current) { HeldBeforeExtension(y.run, s, lease, y.fields.current); }
  }

  lemma ExecuteKeepsKnows(y: System, a: Action, lease: nat)
    requires Knows(y, lease) && CanDo(y, a) && a.Execute? && Faithful(y, a, lease)
    ensures Knows(Do(y, a), lease)
  {
    var y', h := Do(y, a), y.calls[a.k].handle;
    var s := Step(a.now, Renewing(h));
    assert CallOk(y, lease, y.calls[a.k]);
    ExecuteKeepsSound(y, a, lease);
    ExtendIsValid(y.run, s);
    forall g | Carried(y'.run, lease, g, |y'.run.steps|) && HoldsNow(y', g)
      ensures g == y'.fields.current || OnItsWay(y', g)
    {
      if Carried(y.run, lease, g, |y.run.steps|) {
        HeldBeforeExtension(y.run, s, lease, g);
        assert HoldsNow(y, g);
      } else {
        NewlyCarried(y.run, s, lease, g);
      }
    }
    RenewalDropsOldToken(y.run, h, lease, a.now);
  }

  lemma StepKeepsKnows(y: System, a: Action, lease: nat)
    requires Knows(y, lease) && CanDo(y, a) && Faithful(y, a, lease)
    ensures Knows(Do(y, a), lease)
  {
    match a
    case Elsewhere(s) => ElsewhereKeepsKnows(y, s, lease);
    case Execute(_, _, _) => ExecuteKeepsKnows(y, a, lease);
    case _ => StepKeepsSound(y, a, lease);
  }

  ghost predicate Undisturbed(history: seq<System>, actions: seq<Action>, lease: nat) {
    && |history| == |actions| + 1
    && forall k {:trigger actions[k]} | 0 <= k < |actions| :: ValidRun(history[k].run) && LeavesAlone(history[k], actions[k], lease)
  }

  lemma {:induction false} KnowsAlways(history: seq<System>, actions: seq<Action>, lease: nat, n: nat)
    requires ValidHistory(history, actions, lease) && n < |history| && Undisturbed(history, actions, lease)
    requires forall m | 0 <= m < n :: !LosesAnswer(history[m], actions[m])
    ensures Knows(history[n], lease)
  {
    if n == 0 {
      SoundAlways(history, actions, lease, 0);
    } else {
      KnowsAlways(history, actions, lease, n - 1);
      HistoryStep(history, actions, lease, n - 1);
      StepKeepsKnows(history[n - 1], actions[n - 1], lease);
    }
  }

  /** The worker's handle no longer holds the row, and no answer on its way brings one that does. */
  ghost predicate Mislaid(y: System, lease: nat) {
    && Sound(y, lease) && !HoldsNow(y, y.fields.current)
    && forall c | c in y.calls :: c.Sent? || !c.reply.Granted?
  }

  lemma LosingMislays(y: System, a: Action, lease: nat)
    requires Sound(y, lease) && LosesAnswer(y, a)
    ensures Mislaid(Do(y, a), lease)
  {
    assert CallOk(y, lease, y.calls[a.k]);
    ExecuteKeepsSound(y, a, lease);
    RenewalDropsOldToken(y.run, y.calls[a.k].handle, lease, a.now);
  }

  lemma StepKeepsMislaid(y: System, a: Action, lease: nat)
    requires Mislaid(y, lease) && CanDo(y, a)
    ensures Mislaid(Do(y, a), lease)
  {
    StepKeepsSound(y, a, lease);
    var y', h := Do(y, a), y.fields.current;
    match a
    case Elsewhere(s) =>
      if HoldsNow(y', h) { HeldBeforeExtension(y.run, s, lease, h); }
    case Execute(k, now, _) =>
      assert CallOk(y, lease, y.calls[k]);
      if HoldsNow(y', h) { HeldBeforeExtension(y.run, Step(now, Renewing(h)), lease, h); }
    case _ =>
  }

  lemma {:induction false} MislaidForEver(history: seq<System>, actions: seq<Action>, lease: nat, m: nat, n: nat)
    requires ValidHistory(history, actions, lease) && m < n < |history| && ValidRun(history[m].run) && LosesAnswer(history[m], actions[m])
    ensures Mislaid(history[n], lease)
    decreases n
  {
    assert |history| == |actions| + 1;
    HistoryStep(history, actions, lease, n - 1);
    hide ValidHistory, Mislaid, Do, CanDo, Sound, LosesAnswer;
    if m == n - 1 {
      SoundAlways(history, actions, lease, m);
      LosingMislays(history[m], actions[m], lease);
    } else {
      MislaidForEver(history, actions, lease, m, n - 1);
      StepKeepsMislaid(history[n - 1], actions[n - 1], lease);
    }
  }

  /**
   While the lease lives, with `g` as its token, a handle returned by `stop` is that token
   exactly if no answer of a granted renewal was lost on the way; otherwise the queue refuses it.
   */
  lemma StopReturnsLiveToken(history: seq<System>, actions: seq<Action>, lease: nat, n: nat, g: Handle)
    requires ValidHistory(history, actions, lease) && n < |history| && Undisturbed(history, actions, lease)
    requires history[n].phase.Stopped? && history[n].phase.job.Some?
    requires ValidRun(history[n].run) && Carried(history[n].run, lease, g, |history[n].run.steps|) && HoldsNow(history[n], g)
    ensures history[n].phase.job == Some(g) <==> forall m | 0 <= m < n :: !LosesAnswer(history[m], actions[m])
    ensures history[n].phase.job != Some(g) ==> !HoldsNow(history[n], history[n].phase.job.value)
  {
    if forall m | 0 <= m < n :: !LosesAnswer(history[m], actions[m]) {
      KnowsAlways(history, actions, lease, n);
    } else {
      var m :| 0 <= m < n && LosesAnswer(history[m], actions[m]);
      MislaidForEver(history, actions, lease, m, n);
    }
  }
}
