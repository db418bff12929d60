/**
 The life of a source version under any interleaving of ingest calls, each of
 which may crash between two of its database steps.
 */
module Ingestion {
  import opened Prelude
  import opened Resolver
  import Evidence

  type VersionId = Evidence.VersionId

  datatype VersionStatus = Received | WaitingQueued | InProcess | Done | Retryable | TerminalFailed

  /** How far a version has got: its status columns and the claims stored for it. */
  datatype Progress = Progress(status: VersionStatus, attempts: nat, claims: set<ClaimId>)

  type Versions = map<VersionId, Progress>

  const MAX_EXTRACTIONS := 5

  // ---------------------------------------------------- the store's updates

  function Inserted(vs: Versions, v: VersionId): Versions { if v in vs then vs else vs[v := Progress(Received, 0, {})] }

  predicate ShouldProcess(vs: Versions, v: VersionId) {
    v !in vs || vs[v].status == Received || vs[v].status == Retryable
  }

  function Staged(vs: Versions, v: VersionId): Versions {
    if ShouldProcess(vs, v) then Inserted(vs, v)[v := Inserted(vs, v)[v].(status := WaitingQueued)] else vs
  }

  predicate CanStart(vs: Versions, v: VersionId) {
    v in vs && (vs[v].status == WaitingQueued || vs[v].status == Retryable || vs[v].status == Received)
  }

  function Started(vs: Versions, v: VersionId): Versions
    requires CanStart(vs, v)
  {
    vs[v := vs[v].(status := InProcess, attempts := vs[v].attempts + 1)]
  }

  function WithSuccess(vs: Versions, v: VersionId, claims: set<ClaimId>): Versions {
    if v in vs then vs[v := vs[v].(status := Done, claims := vs[v].claims + claims)] else vs
  }

  function WithFailure(vs: Versions, v: VersionId, attempt: nat): Versions {
    if v in vs then vs[v := vs[v].(status := if attempt < MAX_EXTRACTIONS then Retryable else TerminalFailed)] else vs
  }

  class VersionStore {
    var versions: Versions

    method StageSource(v: VersionId) returns (shouldProcess: bool)
      modifies this
      ensures shouldProcess == ShouldProcess(old(versions), v) && versions == Staged(old(versions), v)
      ensures shouldProcess <==> v !in old(versions) || old(versions)[v].status == Received || old(versions)[v].status == Retryable
      ensures !shouldProcess ==> versions == old(versions)
      ensures shouldProcess ==> versions == old(versions)[v := if v in old(versions) then old(versions)[v].(status := WaitingQueued) else Progress(WaitingQueued, 0, {})]
    {
      if v !in versions { versions := versions[v := Progress(Received, 0, {})]; }
      shouldProcess := versions[v].status == Received || versions[v].status == Retryable;
      if shouldProcess { versions := versions[v := versions[v].(status := WaitingQueued)]; }
    }

    /** `attempt` is None where the source throws. */
    method MarkSourceProcessing(v: VersionId) returns (attempt: Option<nat>)
      modifies this
      ensures attempt.Some? <==> v in old(versions) && old(versions)[v].status in {WaitingQueued, Retryable, Received}
      ensures attempt.None? ==> versions == old(versions)
      ensures attempt.Some? <==> CanStart(old(versions), v)
      ensures attempt.Some? ==> versions == Started(old(versions), v)
      ensures attempt.Some? ==>
        && attempt.value == old(versions)[v].attempts + 1
        && versions == old(versions)[v := old(versions)[v].(status := InProcess, attempts := attempt.value)]
    {
      if v !in versions || !(versions[v].status == WaitingQueued || versions[v].status == Retryable || versions[v].status == Received) {
        return None;
      }
      versions := versions[v := versions[v].(status := InProcess, attempts := versions[v].attempts + 1)];
      attempt := Some(versions[v].attempts);
    }

    /**
     Claims, the organization's opportunities and success in one transaction.  Claims for a
     version that is gone break the foreign key, and `resolves` is false where storing the
     opportunities fails; either rolls everything back.
     */
    method CommitClaims(v: VersionId, claims: set<ClaimId>, resolves: bool) returns (ok: bool)
      modifies this
      ensures ok <==> (v in old(versions) || claims == {}) && resolves
      ensures versions == if ok then WithSuccess(old(versions), v, claims) else old(versions)
      ensures !ok || v !in old(versions) ==> versions == old(versions)
      ensures ok && v in old(versions) ==> versions == old(versions)[v := old(versions)[v].(status := Done, claims := old(versions)[v].claims + claims)]
    {
      ok := (v in versions || claims == {}) && resolves;
      if ok && v in versions { versions := versions[v := versions[v].(status := Done, claims := versions[v].claims + claims)]; }
    }

    method MarkSourceFailed(v: VersionId, attempt: nat)
      modifies this
      ensures versions == WithFailure(old(versions), v, attempt)
      ensures v !in old(versions) ==> versions == old(versions)
      ensures v in old(versions) ==> versions == old(versions)[v := old(versions)[v].(status := if attempt < 5 then Retryable else TerminalFailed)]
    {
      if v in versions {
        versions := versions[v := versions[v].(status := if attempt < MAX_EXTRACTIONS then Retryable else TerminalFailed)];
      }
    }

    /** One ingest call without a crash; `extracted` is None when the extractor throws, `resolves` is false when the resolve does. */
    method Ingest(v: VersionId, extracted: Option<set<ClaimId>>, resolves: bool) returns (processed: bool, threw: bool)
      modifies this
      ensures v in old(versions) && old(versions)[v].status !in {Received, Retryable} ==> versions == old(versions) && !processed && !threw
      ensures v !in old(versions) || old(versions)[v].status in {Received, Retryable} ==>
        var was := if v in old(versions) then old(versions)[v] else Progress(Received, 0, {});
        && threw == (extracted.None? || !resolves) && processed == !threw
        && versions.Keys == old(versions).Keys + {v} && versions[v].attempts == was.attempts + 1
        && (processed ==> versions[v].status == Done && versions[v].claims == was.claims + extracted.value)
        && (threw ==> versions[v].claims == was.claims && versions[v].status == if was.attempts + 1 < 5 then Retryable else TerminalFailed)
      ensures forall u | u != v && u in old(versions) :: u in versions && versions[u] == old(versions)[u]
    {
      processed, threw := false, false;
      var shouldProcess := StageSource(v);
      if !shouldProcess { return; }
      var attempt := MarkSourceProcessing(v);
      if extracted.Some? { processed := CommitClaims(v, extracted.value, resolves); }
      if !processed {
        MarkSourceFailed(v, attempt.value);
        threw := true;
      }
    }
  }

  // ------------------------------------------------------------ interleavings

  type CallId = nat

  datatype Phase = HasStaged(version: VersionId) | Extracting(version: VersionId, attempt: nat) | Finished

  /** `extractions` and `commits` count what happened to a version since its row was inserted. */
  datatype State = State(versions: Versions, calls: map<CallId, Phase>, extractions: map<VersionId, nat>, commits: map<VersionId, nat>)

  const Start := State(map[], map[], map[], map[])

  datatype Action =
    | Begin(call: CallId, version: VersionId)
    | Mark(call: CallId)
    | Commit(call: CallId, claims: set<ClaimId>)
    | Fail(call: CallId)
    | Crash(call: CallId)
    | EraseVersion(version: VersionId)

  function Count(m: map<VersionId, nat>, v: VersionId): nat { if v in m then m[v] else 0 }

  predicate Active(p: Phase, v: VersionId) { !p.Finished? && p.version == v }

  predicate InFlight(s: State, v: VersionId) { exists c | c in s.calls :: Active(s.calls[c], v) }

  predicate CanDo(s: State, a: Action) {
    match a
    case Begin(c, _) => c !in s.calls
    case Mark(c) => c in s.calls && s.calls[c].HasStaged?
    case Commit(c, claims) => c in s.calls && s.calls[c].Extracting? && (s.calls[c].version in s.versions || claims == {})
    case Fail(c) => c in s.calls && s.calls[c].Extracting?
    case Crash(c) => c in s.calls
    case EraseVersion(v) => v in s.versions
  }

  function Do(s: State, a: Action): State
    requires CanDo(s, a)
  {
    match a
    case Begin(c, v) =>
      s.(versions := Staged(s.versions, v),
         calls := s.calls[c := if ShouldProcess(s.versions, v) then HasStaged(v) else Finished])
    case Mark(c) =>
      var v := s.calls[c].version;
      if CanStart(s.versions, v) then
        s.(versions := Started(s.versions, v), calls := s.calls[c := Extracting(v, s.versions[v].attempts + 1)],
           extractions := s.extractions[v := Count(s.extractions, v) + 1])
      else s.(calls := s.calls[c := Finished])
    case Commit(c, claims) =>
      var v := s.calls[c].version;
      s.(versions := WithSuccess(s.versions, v, claims), calls := s.calls[c := Finished],
         commits := s.commits[v := Count(s.commits, v) + 1])
    case Fail(c) =>
      s.(versions := WithFailure(s.versions, s.calls[c].version, s.calls[c].attempt), calls := s.calls[c := Finished])
    case Crash(c) => s.(calls := s.calls[c := Finished])
    case EraseVersion(v) =>
      s.(versions := s.versions - {v}, extractions := s.extractions - {v}, commits := s.commits - {v})
  }

  predicate VersionOk(s: State, v: VersionId, row: Progress) {
    && row.attempts == Count(s.extractions, v) <= MAX_EXTRACTIONS
    && (row.status == Received ==> row.attempts == 0)
    && (row.status == WaitingQueued || row.status == Retryable ==> row.attempts < MAX_EXTRACTIONS)
    && (row.status == InProcess || row.status == Done ==> 1 <= row.attempts)
    && (row.claims != {} ==> row.status == Done)
    && Count(s.commits, v) == if row.status == Done then 1 else 0
  }

  /** A call in flight finds its version in the state it left it in. */
  predicate CallOk(s: State, p: Phase) {
    match p
    case HasStaged(v) => v in s.versions && s.versions[v].status == WaitingQueued
    case Extracting(v, attempt) => v in s.versions && s.versions[v].status == InProcess && s.versions[v].attempts == attempt
    case Finished => true
  }

  predicate Alone(s: State, c: CallId, d: CallId)
    requires c in s.calls && d in s.calls
  {
    !s.calls[c].Finished? && !s.calls[d].Finished? && s.calls[c].version == s.calls[d].version ==> c == d
  }

  predicate Inv(s: State) {
    && (forall v | v in s.versions :: VersionOk(s, v, s.versions[v]))
    && s.extractions.Keys <= s.versions.Keys && s.commits.Keys <= s.versions.Keys
    && (forall c | c in s.calls :: CallOk(s, s.calls[c]))
    && (forall c, d | c in s.calls && d in s.calls :: Alone(s, c, d))
  }

  predicate Polite(s: State, a: Action) { a.EraseVersion? ==> !InFlight(s, a.version) }

  lemma StepKeepsVersions(s: State, a: Action, v: VersionId)
    requires Inv(s) && CanDo(s, a) && v in Do(s, a).versions
    ensures VersionOk(Do(s, a), v, Do(s, a).versions[v])
  {
    if v in s.versions { assert VersionOk(s, v, s.versions[v]); }
    if !a.Begin? && !a.EraseVersion? { assert CallOk(s, s.calls[a.call]); }
  }

  lemma StepKeepsCalls(s: State, a: Action, c: CallId)
    requires Inv(s) && CanDo(s, a) && Polite(s, a) && c in Do(s, a).calls
    ensures CallOk(Do(s, a), Do(s, a).calls[c])
  {
    if c in s.calls {
      assert CallOk(s, s.calls[c]);
      if a.EraseVersion? {
        assert !Active(s.calls[c], a.version);
      } else if !a.Begin? {
        assert Alone(s, c, a.call);
      }
    }
  }

  lemma StepKeepsAlone(s: State, a: Action, c: CallId, d: CallId)
    requires Inv(s) && CanDo(s, a) && c in Do(s, a).calls && d in Do(s, a).calls
    ensures Alone(Do(s, a), c, d)
  {
    if c in s.calls { assert CallOk(s, s.calls[c]); }
    if d in s.calls { assert CallOk(s, s.calls[d]); }
    if c in s.calls && d in s.calls { assert Alone(s, c, d); }
  }

  lemma StepKeepsInv(s: State, a: Action)
    requires Inv(s) && CanDo(s, a) && Polite(s, a)
    ensures Inv(Do(s, a))
  {
    var s' := Do(s, a);
    forall v | v in s'.versions
      ensures VersionOk(s', v, s'.versions[v])
    {
      StepKeepsVersions(s, a, v);
    }
    forall c | c in s'.calls
      ensures CallOk(s', s'.calls[c])
    {
      StepKeepsCalls(s, a, c);
    }
    forall c, d | c in s'.calls && d in s'.calls
      ensures Alone(s', c, d)
    {
      StepKeepsAlone(s, a, c, d);
    }
    assert !a.Begin? && !a.EraseVersion? ==> CallOk(s, s.calls[a.call]);
  }

  datatype Run = Run(states: seq<State>, actions: seq<Action>)

  ghost predicate ValidRun(r: Run) {
    && |r.states| == |r.actions| + 1 && r.states[0] == Start
    && forall k {:trigger r.actions[k]} | 0 <= k < |r.actions| :: CanDo(r.states[k], r.actions[k]) && r.states[k + 1] == Do(r.states[k], r.actions[k])
  }

  /** No version is erased while a call is working on it. */
  ghost predicate ErasesOnlyIdle(r: Run)
    requires ValidRun(r)
  {
    forall k {:trigger r.actions[k]} | 0 <= k < |r.actions| :: Polite(r.states[k], r.actions[k])
  }

  lemma {:induction false} InvAlways(r: Run, n: nat)
    requires ValidRun(r) && ErasesOnlyIdle(r) && n < |r.states|
    ensures Inv(r.states[n])
  {
    if n > 0 {
      InvAlways(r, n - 1);
      assert r.states[n - 1 + 1] == Do(r.states[n - 1], r.actions[n - 1]);
      StepKeepsInv(r.states[n - 1], r.actions[n - 1]);
    }
  }

  /**
   Whatever the interleaving and wherever calls crash: one version is worked on by at
   most one call at a time, is extracted at most five times, has claims only once it
   has succeeded, and then by exactly one committed attempt.
   */
  lemma OneProcessorAtATime(r: Run, n: nat, v: VersionId, c: CallId, d: CallId)
    requires ValidRun(r) && ErasesOnlyIdle(r) && n < |r.states|
    ensures c in r.states[n].calls && d in r.states[n].calls && Active(r.states[n].calls[c], v) && Active(r.states[n].calls[d], v) ==> c == d
    ensures Count(r.states[n].extractions, v) <= 5
    ensures Count(r.states[n].commits, v) <= 1
    ensures v in r.states[n].versions && r.states[n].versions[v].claims != {} ==>
      r.states[n].versions[v].status == Done && Count(r.states[n].commits, v) == 1
  {
    var s := r.states[n];
    InvAlways(r, n);
    if v in s.versions { assert VersionOk(s, v, s.versions[v]); }
    if c in s.calls && d in s.calls { assert Alone(s, c, d); }
  }

  predicate Settled(status: VersionStatus) { status == Done || status == TerminalFailed }

  /** A version without a call on it is never taken up again when it succeeded, failed for good, or was left behind by a crash. */
  lemma {:induction false} LeftBehindForEver(r: Run, v: VersionId, m: nat, n: nat)
    requires ValidRun(r) && m <= n < |r.states| && v in r.states[m].versions && !InFlight(r.states[m], v)
    requires var st := r.states[m].versions[v].status; Settled(st) || st == WaitingQueued || st == InProcess
    requires forall k | m <= k < n :: r.actions[k] != EraseVersion(v)
    ensures v in r.states[n].versions && r.states[n].versions[v] == r.states[m].versions[v] && !InFlight(r.states[n], v)
    decreases n - m
  {
    if m < n {
      LeftBehindForEver(r, v, m, n - 1);
      var s, a := r.states[n - 1], r.actions[n - 1];
      assert r.states[n - 1 + 1] == Do(s, a);
      forall c | c in r.states[n].calls
        ensures !Active(r.states[n].calls[c], v)
      {
        if c in s.calls { assert !Active(s.calls[c], v); }
      }
      if !a.Begin? && !a.EraseVersion? { assert !Active(s.calls[a.call], v); }
    }
  }

  /**
   The condition on erasures is exact: from any state in which an extraction is under
   way, erasing its version lets a new call work on the same version beside it.
   */
  lemma ErasedInFlightIsWorkedOnTwice(s: State, first: CallId, second: CallId, v: VersionId)
    requires first in s.calls && s.calls[first].Extracting? && s.calls[first].version == v && v in s.versions && second !in s.calls
    ensures
      var s1 := Do(s, EraseVersion(v));
      CanDo(s1, Begin(second, v)) &&
      var s2 := Do(s1, Begin(second, v));
      CanDo(s2, Mark(second)) &&
      var s3 := Do(s2, Mark(second));
      Active(s3.calls[first], v) && Active(s3.calls[second], v) && first != second && s3.calls[second].Extracting?
  {
  }
}
