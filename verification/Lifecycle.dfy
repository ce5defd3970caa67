/** The tenant phases and their transition table. */
module Phases {
  datatype Phase = Pending | Planning | Applying | Ready | Degraded | Failed | Deleting | Deleted

  function LegalFrom(p: Phase): seq<Phase> {
    match p
    case Pending => [Planning]
    case Planning => [Applying, Ready]
    case Applying => [Ready, Degraded]
    case Ready => [Planning, Deleting]
    case Degraded => [Planning, Failed, Deleting]
    case Failed => [Planning]
    case Deleting => [Deleted, Degraded]
    case Deleted => []
  }

  predicate IsLegal(from: Phase, to: Phase) { to in LegalFrom(from) }
}

/** A tenant's observed status: every call sequence. */
module Lifecycle {
  import opened Common
  import opened Phases
  import opened Backoff

  datatype Status = Status(
    phase: Phase, observedGeneration: nat, actualStateHash: Option<string>, lastError: Option<string>,
    consecutiveFailures: nat, lastReconciledAt: Option<int>, nextAttemptAt: Option<int>, lastTransitionAt: int)

  function Create(now: int): Status { Status(Pending, 0, None, None, 0, None, None, now) }

  datatype Call =
    | BeginPlanning(now: int)
    | BeginApplying(now: int)
    | MarkReady(now: int, observed: nat, hash: Option<string>)
    | MarkDegraded(now: int, error: string, jitter: Jitter)
    | MarkFailed(now: int)
    | BeginDeleting(now: int)
    | MarkDeleted(now: int)

  function TargetOf(c: Call): Phase {
    match c
    case BeginPlanning(_) => Planning
    case BeginApplying(_) => Applying
    case MarkReady(_, _, _) => Ready
    case MarkDegraded(_, _, _) => Degraded
    case MarkFailed(_) => Failed
    case BeginDeleting(_) => Deleting
    case MarkDeleted(_) => Deleted
  }

  /** The call gets past its guard and its transition check. */
  predicate Enters(s: Status, c: Call) {
    IsLegal(s.phase, TargetOf(c)) && (c.MarkFailed? ==> IsExhausted(s.consecutiveFailures))
  }

  /** It returns normally. A bad jitter is only noticed after the other fields have changed. */
  predicate Succeeds(s: Status, c: Call) { Enters(s, c) && (c.MarkDegraded? ==> Accepted(c.jitter)) }

  /** The status afterwards, thrown or not. */
  function After(round: Rounding, s: Status, c: Call): Status {
    if !Enters(s, c) then s
    else
      var t := s.(phase := TargetOf(c), lastTransitionAt := c.now);
      match c
      case BeginPlanning(_) => t.(nextAttemptAt := None)
      case BeginApplying(_) => t
      case MarkReady(now, observed, hash) =>
        t.(observedGeneration := observed, actualStateHash := hash, lastError := None, consecutiveFailures := 0,
           nextAttemptAt := None, lastReconciledAt := Some(now))
      case MarkDegraded(now, error, jitter) =>
        var u := t.(lastError := Some(error), consecutiveFailures := s.consecutiveFailures + 1,
                    lastReconciledAt := Some(now));
        (match DelayFor(round, u.consecutiveFailures, jitter)
         case None => u
         case Some(delay) => u.(nextAttemptAt := Some(now + delay)))
      case MarkFailed(_) => t.(nextAttemptAt := None)
      case BeginDeleting(_) => t
      case MarkDeleted(_) => t.(nextAttemptAt := None)
  }

  predicate IsRetryDue(s: Status, now: int) { s.nextAttemptAt.None? || s.nextAttemptAt.value <= now }

  function Run(round: Rounding, created: int, calls: seq<Call>): Status {
    if calls == [] then Create(created)
    else After(round, Run(round, created, calls[..|calls| - 1]), calls[|calls| - 1])
  }

  // ----- What every sequence of calls keeps

  ghost predicate Inv(s: Status) {
    && (s.phase in {Ready, Pending} ==> s.consecutiveFailures == 0)
    && (s.phase == Failed ==> s.consecutiveFailures >= MAX_ATTEMPTS)
    && (s.phase == Degraded ==> s.nextAttemptAt.Some? && s.consecutiveFailures >= 1)
    && (s.nextAttemptAt.Some? ==> s.phase in {Degraded, Deleting})
  }

  ghost predicate Jittered(calls: seq<Call>) {
    forall i | 0 <= i < |calls| :: calls[i].MarkDegraded? ==> Accepted(calls[i].jitter)
  }

  lemma AfterKeepsInv(round: Rounding, s: Status, c: Call)
    requires Inv(s) && (c.MarkDegraded? ==> Accepted(c.jitter))
    ensures Inv(After(round, s, c))
    ensures s.phase == Deleted ==> After(round, s, c) == s
  {
  }

  /** Degradations since the last success, read off the history of calls alone. */
  function Tally(round: Rounding, created: int, calls: seq<Call>): nat {
    if calls == [] then 0
    else
      var init, last := calls[..|calls| - 1], calls[|calls| - 1];
      if !Succeeds(Run(round, created, init), last) then Tally(round, created, init)
      else if last.MarkReady? then 0
      else if last.MarkDegraded? then Tally(round, created, init) + 1
      else Tally(round, created, init)
  }

  lemma {:induction false} EveryRun(round: Rounding, created: int, calls: seq<Call>)
    requires Jittered(calls)
    ensures Inv(Run(round, created, calls))
    ensures Run(round, created, calls).consecutiveFailures == Tally(round, created, calls)
  {
    if calls != [] {
      var init := calls[..|calls| - 1];
      EveryRun(round, created, init);
      AfterKeepsInv(round, Run(round, created, init), calls[|calls| - 1]);
    }
  }

  lemma RunSnoc(round: Rounding, created: int, calls: seq<Call>, c: Call)
    ensures Run(round, created, []) == Create(created)
    ensures Run(round, created, calls + [c]) == After(round, Run(round, created, calls), c)
  {
    hide After;
    assert (calls + [c])[..|calls|] == calls;
  }

  lemma DeletedStays(round: Rounding, s: Status, c: Call)
    requires s.phase == Deleted
    ensures After(round, s, c) == s
  {
  }

  /** Deleted is never left. */
  lemma {:induction false} DeletedIsFinal(round: Rounding, created: int, calls: seq<Call>, more: seq<Call>)
    requires Run(round, created, calls).phase == Deleted
    ensures Run(round, created, calls + more) == Run(round, created, calls)
    decreases |more|
  {
    if more == [] {
      assert calls + more == calls;
    } else {
      hide Run, After;
      var init, last := more[..|more| - 1], more[|more| - 1];
      DeletedIsFinal(round, created, calls, init);
      assert calls + more == (calls + init) + [last];
      RunSnoc(round, created, calls + init, last);
      DeletedStays(round, Run(round, created, calls), last);
    }
  }

  /** With a jitter the guard refuses the call throws half way: the failure is counted, but the
      retry it should schedule is missing unless one was already scheduled. */
  lemma BadJitterLosesTheRetry(round: Rounding, s: Status, now: int, error: string, jitter: Jitter)
    requires Inv(s) && IsLegal(s.phase, Degraded)
    ensures Inv(After(round, s, MarkDegraded(now, error, jitter))) <==> Accepted(jitter) || s.nextAttemptAt.Some?
    ensures After(round, s, MarkDegraded(now, error, jitter)).consecutiveFailures == s.consecutiveFailures + 1
  {
  }

  /** Three calls on a new status, the last with a jitter such as 1.0, leave it Degraded for good: no retry
      is scheduled. */
  lemma DegradedWithoutRetry(round: Rounding, created: int, error: string, jitter: Jitter) returns (calls: seq<Call>)
    requires !Accepted(jitter)
    ensures |calls| == 3 && calls[2] == MarkDegraded(created, error, jitter)
    ensures var s := Run(round, created, calls);
      s.phase == Degraded && s.nextAttemptAt.None? && s.consecutiveFailures == 1 && !Inv(s)
  {
    hide Run;
    calls := [];
    RunSnoc(round, created, calls, BeginPlanning(created));
    calls := calls + [BeginPlanning(created)];
    RunSnoc(round, created, calls, BeginApplying(created));
    calls := calls + [BeginApplying(created)];
    RunSnoc(round, created, calls, MarkDegraded(created, error, jitter));
    calls := calls + [MarkDegraded(created, error, jitter)];
  }

  // ----- The time the retry budget takes

  /** A monotone clock, no deletion, jitters in range, and planning from Degraded only when the retry is due. */
  ghost predicate Disciplined(round: Rounding, created: int, calls: seq<Call>) {
    calls == [] ||
    var init, last := calls[..|calls| - 1], calls[|calls| - 1];
    && Disciplined(round, created, init) && LastTime(created, init) <= last.now
    && !last.BeginDeleting? && (last.MarkDegraded? ==> Accepted(last.jitter) && last.jitter.Finite?)
    && var s := Run(round, created, init);
      last.BeginPlanning? && s.phase == Degraded ==> IsRetryDue(s, last.now)
  }

  function LastTime(created: int, calls: seq<Call>): int { if calls == [] then created else calls[|calls| - 1].now }

  /** When the current streak of failures began. */
  function StreakStart(round: Rounding, created: int, calls: seq<Call>): Option<int> {
    if calls == [] then None
    else
      var init, last := calls[..|calls| - 1], calls[|calls| - 1];
      var s := Run(round, created, init);
      NextStart(s, StreakStart(round, created, init), last)
  }

  function NextStart(s: Status, start: Option<int>, c: Call): Option<int> {
    if !Succeeds(s, c) then start
    else if c.MarkReady? then None
    else if c.MarkDegraded? && s.consecutiveFailures == 0 then Some(c.now)
    else start
  }

  /** How much of the least total wait has passed since the streak began. */
  ghost predicate Waited(s: Status, start: Option<int>, now: int) {
    s.consecutiveFailures > 0 ==>
      && start.Some?
      && now >= start.value + LeastWait(if s.consecutiveFailures > 8 then 7 else s.consecutiveFailures - 1)
      && (s.phase == Degraded && s.consecutiveFailures <= 7 ==>
            s.nextAttemptAt.Some? && s.nextAttemptAt.value >= start.value + LeastWait(s.consecutiveFailures))
      && (s.phase in {Planning, Applying} && s.consecutiveFailures <= 7 ==>
            now >= start.value + LeastWait(s.consecutiveFailures))
      && s.phase !in {Deleting, Deleted}
  }

  lemma {:induction false} DisciplinedIsJittered(round: Rounding, created: int, calls: seq<Call>)
    requires Disciplined(round, created, calls)
    ensures Jittered(calls)
  {
    hide Run, IsRetryDue;
    if calls != [] { DisciplinedIsJittered(round, created, calls[..|calls| - 1]); }
  }

  lemma {:induction false} DisciplinedWaits(round: Rounding, created: int, calls: seq<Call>)
    requires Rounds(round) && Disciplined(round, created, calls)
    ensures Run(round, created, calls).phase !in {Deleting, Deleted}
    ensures Waited(Run(round, created, calls), StreakStart(round, created, calls), LastTime(created, calls))
  {
    assert Waited(Create(created), None, created);
    hide After, Waited, NextStart, Rounds, Inv, Jittered, IsRetryDue;
    if calls != [] {
      var init, last := calls[..|calls| - 1], calls[|calls| - 1];
      DisciplinedIsJittered(round, created, init);
      EveryRun(round, created, init);
      DisciplinedWaits(round, created, init);
      WaitedStep(round, Run(round, created, init), StreakStart(round, created, init), LastTime(created, init), last);
    }
  }

  /** One disciplined call. */
  lemma WaitedStep(round: Rounding, s: Status, start: Option<int>, now: int, c: Call)
    requires Inv(s) && Waited(s, start, now) && now <= c.now
    requires Rounds(round) && s.phase !in {Deleting, Deleted} && !c.BeginDeleting?
    requires c.MarkDegraded? ==> Accepted(c.jitter) && c.jitter.Finite?
    requires c.BeginPlanning? && s.phase == Degraded ==> IsRetryDue(s, c.now)
    ensures After(round, s, c).phase !in {Deleting, Deleted}
    ensures Waited(After(round, s, c), NextStart(s, start, c), c.now)
  {
    hide DelayFor, LeastWait, Shortest, Rounds;
    if c.MarkDegraded? && Enters(s, c) {
      FailedStep(round, s, start, now, c);
    }
  }

  /** One more failure: the delay it schedules is at least the shortest one. */
  lemma FailedStep(round: Rounding, s: Status, start: Option<int>, now: int, c: Call)
    requires Inv(s) && Waited(s, start, now) && now <= c.now && Rounds(round)
    requires c.MarkDegraded? && Enters(s, c) && Accepted(c.jitter) && c.jitter.Finite?
    ensures Waited(After(round, s, c), NextStart(s, start, c), c.now)
  {
    hide DelayFor, LeastWait, Shortest, Rounds;
    DelayBand(round, s.consecutiveFailures + 1, c.jitter);
    LeastWaitNext(s.consecutiveFailures);
  }

  lemma LeastWaitNext(n: nat)
    ensures LeastWait(n + 1) == LeastWait(n) + Shortest(n + 1) && LeastWait(0) == 0
  {
  }

  /** The eighth consecutive failure comes at least 1876 seconds after the first. */
  lemma BudgetTakesTime(round: Rounding, created: int, calls: seq<Call>)
    requires Rounds(round) && Disciplined(round, created, calls)
    requires Run(round, created, calls).consecutiveFailures >= MAX_ATTEMPTS
    ensures StreakStart(round, created, calls).Some?
    ensures LastTime(created, calls) - StreakStart(round, created, calls).value >= 1876 * SECOND
  {
    DisciplinedWaits(round, created, calls);
    LeastWaitOfSeven();
  }

  // ----- The status as an object

  lemma ThrowsIffRefused(round: Rounding, attempt: int, jitter: Jitter)
    requires attempt >= 1
    ensures DelayFor(round, attempt, jitter).Some? <==> Accepted(jitter)
  {
  }

  class TenantStatus {
    /** The floating-point arithmetic the delays are computed with. */
    const round: Rounding
    var phase: Phase
    var observedGeneration: nat
    var actualStateHash: Option<string>
    var lastError: Option<string>
    var consecutiveFailures: nat
    var lastReconciledAt: Option<int>
    var nextAttemptAt: Option<int>
    var lastTransitionAt: int

    function Value(): Status
      reads this
    {
      Status(phase, observedGeneration, actualStateHash, lastError, consecutiveFailures,
             lastReconciledAt, nextAttemptAt, lastTransitionAt)
    }

    constructor (now: int, round: Rounding)
      ensures Value() == Create(now) && this.round == round
    {
      this.round := round;
      phase, observedGeneration, actualStateHash, lastError := Pending, 0, None, None;
      consecutiveFailures, lastReconciledAt, nextAttemptAt, lastTransitionAt := 0, None, None, now;
    }

    method Transition(to: Phase, now: int) returns (ok: bool)
      modifies this`phase, this`lastTransitionAt
      ensures ok <==> IsLegal(old(phase), to)
      ensures if ok then phase == to && lastTransitionAt == now
              else phase == old(phase) && lastTransitionAt == old(lastTransitionAt)
    {
      ok := IsLegal(phase, to);
      if ok {
        phase, lastTransitionAt := to, now;
      }
    }

    method BeginPlanning(now: int) returns (ok: bool)
      modifies this
      ensures Value() == After(round, old(Value()), Call.BeginPlanning(now))
      ensures ok <==> Succeeds(old(Value()), Call.BeginPlanning(now))
    {
      ok := Transition(Planning, now);
      if ok {
        nextAttemptAt := None;
      }
    }

    method BeginApplying(now: int) returns (ok: bool)
      modifies this
      ensures Value() == After(round, old(Value()), Call.BeginApplying(now))
      ensures ok <==> Succeeds(old(Value()), Call.BeginApplying(now))
    {
      ok := Transition(Applying, now);
    }

    method MarkReady(observed: nat, hash: Option<string>, now: int) returns (ok: bool)
      modifies this
      ensures Value() == After(round, old(Value()), Call.MarkReady(now, observed, hash))
      ensures ok <==> Succeeds(old(Value()), Call.MarkReady(now, observed, hash))
    {
      ok := Transition(Ready, now);
      if ok {
        observedGeneration, actualStateHash, lastError := observed, hash, None;
        consecutiveFailures, nextAttemptAt, lastReconciledAt := 0, None, Some(now);
      }
    }

    method MarkDegraded(error: string, now: int, jitter: Jitter) returns (ok: bool)
      modifies this
      ensures Value() == After(round, old(Value()), Call.MarkDegraded(now, error, jitter))
      ensures ok <==> Succeeds(old(Value()), Call.MarkDegraded(now, error, jitter))
    {
      hide DelayFor, Accepted;
      ok := Transition(Degraded, now);
      if ok {
        ThrowsIffRefused(round, consecutiveFailures + 1, jitter);
        lastError, consecutiveFailures, lastReconciledAt := Some(error), consecutiveFailures + 1, Some(now);
        var delay := DelayFor(round, consecutiveFailures, jitter);
        if delay.None? {
          return false;
        }
        nextAttemptAt := Some(now + delay.value);
      }
    }

    method MarkFailed(now: int) returns (ok: bool)
      modifies this
      ensures Value() == After(round, old(Value()), Call.MarkFailed(now))
      ensures ok <==> Succeeds(old(Value()), Call.MarkFailed(now))
    {
      if !IsExhausted(consecutiveFailures) {
        return false;
      }
      ok := Transition(Failed, now);
      if ok {
        nextAttemptAt := None;
      }
    }

    method BeginDeleting(now: int) returns (ok: bool)
      modifies this
      ensures Value() == After(round, old(Value()), Call.BeginDeleting(now))
      ensures ok <==> Succeeds(old(Value()), Call.BeginDeleting(now))
    {
      ok := Transition(Deleting, now);
    }

    method MarkDeleted(now: int) returns (ok: bool)
      modifies this
      ensures Value() == After(round, old(Value()), Call.MarkDeleted(now))
      ensures ok <==> Succeeds(old(Value()), Call.MarkDeleted(now))
    {
      ok := Transition(Deleted, now);
      if ok {
        nextAttemptAt := None;
      }
    }
  }
}
