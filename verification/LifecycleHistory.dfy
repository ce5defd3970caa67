/** Every field of a tenant's status, read off the history of calls. */
module LifecycleHistory {
  import opened Common
  import opened Phases
  import opened Backoff
  import opened Lifecycle

  /** The calls that got past their transition check, oldest first. */
  function EnteredCalls(round: Rounding, created: int, calls: seq<Call>): seq<Call> {
    if calls == [] then []
    else
      var before, last := EnteredCalls(round, created, calls[..|calls| - 1]), calls[|calls| - 1];
      if Enters(StatusOf(round, created, before), last) then before + [last] else before
  }

  /** The latest of the calls that p holds of. */
  function Latest(calls: seq<Call>, p: Call -> bool): (r: Option<Call>)
    ensures r.Some? ==> p(r.value)
  {
    if calls == [] then None
    else if p(calls[|calls| - 1]) then Some(calls[|calls| - 1])
    else Latest(calls[..|calls| - 1], p)
  }

  predicate IsReady(c: Call) { c.MarkReady? }

  predicate IsSettled(c: Call) { c.MarkReady? || c.MarkDegraded? }

  predicate IsAny(c: Call) { true }

  /** What schedules a retry or takes it away. */
  predicate IsScheduling(c: Call) {
    match c
    case MarkDegraded(_, _, jitter) => Accepted(jitter)
    case BeginApplying(_) => false
    case BeginDeleting(_) => false
    case _ => true
  }

  /** How many degradations came after the latest Ready. */
  function Failures(calls: seq<Call>): nat {
    if calls == [] || calls[|calls| - 1].MarkReady? then 0
    else Failures(calls[..|calls| - 1]) + if calls[|calls| - 1].MarkDegraded? then 1 else 0
  }

  /** The retry the calls leave scheduled: by the latest degradation, unless something cleared it since. */
  function Retry(round: Rounding, calls: seq<Call>): Option<int>
    decreases |calls|
  {
    if calls == [] then None
    else
      var last := calls[|calls| - 1];
      if !IsScheduling(last) then Retry(round, calls[..|calls| - 1])
      else if !last.MarkDegraded? then None
      else match DelayFor(round, Failures(calls), last.jitter)
        case None => None
        case Some(delay) => Some(last.now + delay)
  }

  /** The status these calls lead to, field by field. */
  function StatusOf(round: Rounding, created: int, calls: seq<Call>): Status {
    var ready, settled, any := Latest(calls, IsReady), Latest(calls, IsSettled), Latest(calls, IsAny);
    Status(
      if any.None? then Pending else TargetOf(any.value),
      if ready.None? then 0 else ready.value.observed,
      if ready.None? then None else ready.value.hash,
      if settled.Some? && settled.value.MarkDegraded? then Some(settled.value.error) else None,
      Failures(calls),
      if settled.None? then None else Some(settled.value.now),
      Retry(round, calls),
      if any.None? then created else any.value.now)
  }

  lemma LatestSnoc(calls: seq<Call>, c: Call, p: Call -> bool)
    ensures Latest(calls + [c], p) == if p(c) then Some(c) else Latest(calls, p)
  {
    assert (calls + [c])[..|calls|] == calls;
  }

  lemma FailuresSnoc(round: Rounding, calls: seq<Call>, c: Call)
    ensures Failures(calls + [c]) == if c.MarkReady? then 0 else Failures(calls) + if c.MarkDegraded? then 1 else 0
    ensures !IsScheduling(c) ==> Retry(round, calls + [c]) == Retry(round, calls)
  {
    assert (calls + [c])[..|calls|] == calls;
  }

  /** One more call that enters. */
  lemma OneMore(round: Rounding, created: int, calls: seq<Call>, c: Call)
    requires var s := StatusOf(round, created, calls); Enters(s, c)
    ensures After(round, StatusOf(round, created, calls), c) == StatusOf(round, created, calls + [c])
  {
    hide DelayFor, Latest, Failures, Retry, IsLegal, Accepted;
    if c.MarkDegraded? { ThrowsIffRefused(round, Failures(calls) + 1, c.jitter); }
    LatestSnoc(calls, c, IsReady);
    LatestSnoc(calls, c, IsSettled);
    LatestSnoc(calls, c, IsAny);
    FailuresSnoc(round, calls, c);
    RetrySnoc(round, calls, c);
  }

  lemma RetrySnoc(round: Rounding, calls: seq<Call>, c: Call)
    ensures Retry(round, calls + [c]) ==
      if !IsScheduling(c) then Retry(round, calls)
      else if !c.MarkDegraded? then None
      else match DelayFor(round, Failures(calls) + 1, c.jitter)
        case None => None
        case Some(delay) => Some(c.now + delay)
  {
    hide DelayFor;
    FailuresSnoc(round, calls, c);
  }

  /** Over every call sequence: the phase is the target of the latest entered call; the observed generation
      and the state hash are those of the latest Ready; the error is that of the latest degradation unless a
      Ready came after it; and so on for every field. */
  lemma {:induction false} RunIsHistory(round: Rounding, created: int, calls: seq<Call>)
    ensures Run(round, created, calls) == StatusOf(round, created, EnteredCalls(round, created, calls))
  {
    if calls != [] {
      var init, last := calls[..|calls| - 1], calls[|calls| - 1];
      RunIsHistory(round, created, init);
      var entered := EnteredCalls(round, created, init);
      hide Enters, After, StatusOf;
      if Enters(Run(round, created, init), last) {
        OneMore(round, created, entered, last);
      } else {
        NotEntered(round, Run(round, created, init), last);
      }
    }
  }

  lemma NotEntered(round: Rounding, s: Status, c: Call)
    requires !Enters(s, c)
    ensures After(round, s, c) == s
  {
  }

  /** A tenant is given up exactly when it is Degraded and has degraded at least 8 times since the latest
      Ready; every other call enters exactly when its transition is legal. */
  lemma GivesUpAfterEight(round: Rounding, created: int, calls: seq<Call>, c: Call)
    ensures var s, entered := Run(round, created, calls), EnteredCalls(round, created, calls);
      && s.consecutiveFailures == Failures(entered)
      && (Enters(s, c) <==>
            if c.MarkFailed? then s.phase == Degraded && Failures(entered) >= 8 else IsLegal(s.phase, TargetOf(c)))
  {
    hide Run, EnteredCalls, Failures, Retry, Latest;
    RunIsHistory(round, created, calls);
    EntriesOfPhases(Run(round, created, calls).phase);
  }

  // ----- The transition table

  /** Where each phase can be entered from. */
  lemma EntriesOfPhases(from: Phase)
    ensures !IsLegal(from, Pending)
    ensures IsLegal(from, Planning) <==> from in {Pending, Ready, Degraded, Failed}
    ensures IsLegal(from, Applying) <==> from == Planning
    ensures IsLegal(from, Ready) <==> from in {Planning, Applying}
    ensures IsLegal(from, Degraded) <==> from in {Applying, Deleting}
    ensures IsLegal(from, Failed) <==> from == Degraded
    ensures IsLegal(from, Deleting) <==> from in {Ready, Degraded}
    ensures IsLegal(from, Deleted) <==> from == Deleting
  {
  }

  /** After a degradation with an accepted jitter the retry falls due exactly when its delay has passed. */
  lemma RetryFallsDue(round: Rounding, created: int, calls: seq<Call>, c: Call, now: int)
    requires c.MarkDegraded? && Accepted(c.jitter) && Enters(Run(round, created, calls), c)
    ensures var n := Run(round, created, calls).consecutiveFailures + 1;
      && DelayFor(round, n, c.jitter).Some?
      && (IsRetryDue(After(round, Run(round, created, calls), c), now) <==>
            now >= c.now + DelayFor(round, n, c.jitter).value)
  {
    hide DelayFor, Run;
    ThrowsIffRefused(round, Run(round, created, calls).consecutiveFailures + 1, c.jitter);
  }
}
