/** Retrying a settled reconcile run: every detail read advances the retry by one scripted
    step until it settles. */
module ReconcileRuns {
  import opened Common

  datatype ChangeOutcome = Applied | Failing | Retrying | Applying | Pending | Skipped

  datatype RunOutcome = RunApplying | RunApplied | Other(name: string)

  datatype Note = InFlight | Queued | Text(text: string)

  datatype Change = Change(
    index: int, description: string, note: Option<Note>, durationMs: Option<int>, outcome: ChangeOutcome)

  datatype RunDetail = RunDetail(
    id: string, outcome: RunOutcome, startedAt: int, finishedAt: Option<int>, durationMs: int,
    changes: seq<Change>, changeOutcomes: seq<ChangeOutcome>, retryOf: Option<string>, log: seq<int>)

  /** One scripted step: a log line, new outcomes by change index, the duration, and what it settles as. */
  datatype LiveStep = LiveStep(
    offsetMs: int, changes: map<int, ChangeOutcome>, durationMs: int, finish: Option<RunOutcome>)

  const CHANGE_MS: int := 180
  const READ_MS: int := 500

  function Outcomes(changes: seq<Change>): seq<ChangeOutcome> {
    seq(|changes|, i requires 0 <= i < |changes| => changes[i].outcome)
  }

  // ----- advanceLive

  function AdvanceChange(c: Change, step: LiveStep): Change {
    if c.index !in step.changes then c
    else
      var o := step.changes[c.index];
      c.(outcome := o,
         note := if o == Applied then (if c.note in {Some(InFlight), Some(Queued)} then None else c.note)
                 else if o == Applying then Some(InFlight) else c.note,
         durationMs := if o == Applied && c.durationMs.None? then Some(CHANGE_MS) else c.durationMs)
  }

  function AdvanceRun(run: RunDetail, step: LiveStep): RunDetail {
    var changes := seq(|run.changes|, i requires 0 <= i < |run.changes| => AdvanceChange(run.changes[i], step));
    var next := run.(changes := changes, changeOutcomes := Outcomes(changes), durationMs := step.durationMs,
                     log := run.log + [run.startedAt + step.offsetMs]);
    if step.finish.None? then next
    else next.(outcome := step.finish.value, finishedAt := Some(run.startedAt + step.durationMs))
  }

  // ----- retryRun

  function FirstRun(original: RunDetail, id: string, now: int): RunDetail {
    var changes := seq(|original.changes|, i requires 0 <= i < |original.changes| =>
      Change(original.changes[i].index, original.changes[i].description,
             Some(if i == 0 then InFlight else Queued), None, if i == 0 then Applying else Pending));
    RunDetail(id, RunApplying, now, None, 120, changes, Outcomes(changes), Some(original.id), [now, now])
  }

  /** The k-th step: read the actual state, apply one change each, settle. */
  function StepAt(changes: seq<Change>, k: nat): LiveStep
    requires k < |changes| + 2
  {
    if k == 0 then LiveStep(READ_MS, map[], READ_MS, None)
    else if k <= |changes| then
      var at := READ_MS + CHANGE_MS * k;
      var done := map[changes[k - 1].index := Applied];
      LiveStep(at, if k < |changes| then done[changes[k].index := Applying] else done, at, None)
    else
      var total := READ_MS + CHANGE_MS * |changes| + 60;
      LiveStep(total, map[], total, Some(RunApplied))
  }

  method RetryScript(changes: seq<Change>) returns (steps: seq<LiveStep>)
    ensures |steps| == |changes| + 2 && forall k | 0 <= k < |steps| :: steps[k] == StepAt(changes, k)
  {
    steps := [LiveStep(READ_MS, map[], READ_MS, None)];
    for i := 0 to |changes|
      invariant |steps| == i + 1 && forall k | 0 <= k <= i :: steps[k] == StepAt(changes, k)
    {
      var at := READ_MS + CHANGE_MS * (i + 1);
      var outcomes := map[changes[i].index := Applied];
      if i + 1 < |changes| {
        outcomes := outcomes[changes[i + 1].index := Applying];
      }
      steps := steps + [LiveStep(at, outcomes, at, None)];
    }
    var total := READ_MS + CHANGE_MS * |changes| + 60;
    steps := steps + [LiveStep(total, map[], total, Some(RunApplied))];
  }

  // ----- The course of one retry

  ghost predicate DistinctIndexes(changes: seq<Change>) {
    forall i, j | 0 <= i < j < |changes| :: changes[i].index != changes[j].index
  }

  /** The retry after k reads. */
  function After(first: RunDetail, k: nat): RunDetail
    requires k <= |first.changes| + 2
  {
    if k == 0 then first else AdvanceRun(After(first, k - 1), StepAt(first.changes, k - 1))
  }

  function AppliedCount(n: nat, k: nat): nat { if k == 0 then 0 else Min(k - 1, n) }

  function DurationAfter(n: nat, k: nat): int {
    if k == 0 then 120 else if k <= n + 1 then READ_MS + CHANGE_MS * (k - 1) else READ_MS + CHANGE_MS * n + 60
  }

  /** Change i of a retry: applied with its duration, in flight, or queued. */
  function ExpectedChange(c: Change, i: nat, applied: nat): Change {
    if i < applied then Change(c.index, c.description, None, Some(CHANGE_MS), Applied)
    else Change(c.index, c.description, Some(if i == applied then InFlight else Queued), None,
                if i == applied then Applying else Pending)
  }

  /** A retry after k reads: an applied prefix, at most one change applying, the rest pending. */
  ghost predicate StepShape(original: RunDetail, id: string, now: int, run: RunDetail, k: nat) {
    var n := |original.changes|;
    && |run.changes| == n
    && (forall i | 0 <= i < n :: run.changes[i] == ExpectedChange(original.changes[i], i, AppliedCount(n, k)))
    && run.changeOutcomes == Outcomes(run.changes)
    && run.id == id && run.retryOf == Some(original.id) && run.startedAt == now
    && run.durationMs == DurationAfter(n, k)
    && run.outcome == (if k == n + 2 then RunApplied else RunApplying)
    && run.finishedAt == (if k == n + 2 then Some(now + run.durationMs) else None)
    && |run.log| == 2 + k && run.log[0] == run.log[1] == now
    && forall j | 2 <= j < 2 + k :: run.log[j] == now + DurationAfter(n, j - 1)
  }

  lemma {:induction false} CourseOfRetry(original: RunDetail, id: string, now: int, k: nat)
    requires DistinctIndexes(original.changes) && k <= |original.changes| + 2
    ensures StepShape(original, id, now, After(FirstRun(original, id, now), k), k)
  {
    hide StepShape, FirstRun, AdvanceRun, StepAt, DistinctIndexes;
    var first := FirstRun(original, id, now);
    if k == 0 {
      FirstShape(original, id, now);
    } else {
      SameScript(original, first, id, now, k - 1);
      CourseOfRetry(original, id, now, k - 1);
      NextShape(original, id, now, After(first, k - 1), k);
    }
  }

  lemma FirstShape(original: RunDetail, id: string, now: int)
    ensures StepShape(original, id, now, FirstRun(original, id, now), 0)
  {
  }

  /** The script looks at the indexes of the changes only. */
  lemma SameScript(original: RunDetail, first: RunDetail, id: string, now: int, k: nat)
    requires first == FirstRun(original, id, now) && k < |original.changes| + 2
    ensures |first.changes| == |original.changes| && StepAt(first.changes, k) == StepAt(original.changes, k)
  {
  }

  lemma NextShape(original: RunDetail, id: string, now: int, before: RunDetail, k: nat)
    requires DistinctIndexes(original.changes) && 0 < k <= |original.changes| + 2
    requires StepShape(original, id, now, before, k - 1)
    ensures StepShape(original, id, now, AdvanceRun(before, StepAt(original.changes, k - 1)), k)
  {
    hide StepAt, DistinctIndexes, AdvanceChange, ExpectedChange, Outcomes;
    var n := |original.changes|;
    ScriptedFinish(original.changes, k - 1);
    var step := StepAt(original.changes, k - 1);
    var run := AdvanceRun(before, step);
    forall i | 0 <= i < n ensures run.changes[i] == ExpectedChange(original.changes[i], i, AppliedCount(n, k)) {
      assert run.changes[i] == AdvanceChange(before.changes[i], step);
      NextChange(original.changes, k, i);
    }
  }

  lemma NextChange(changes: seq<Change>, k: nat, i: nat)
    requires DistinctIndexes(changes) && 0 < k <= |changes| + 2 && i < |changes|
    ensures AdvanceChange(ExpectedChange(changes[i], i, AppliedCount(|changes|, k - 1)), StepAt(changes, k - 1)) ==
            ExpectedChange(changes[i], i, AppliedCount(|changes|, k))
  {
    hide StepAt, DistinctIndexes;
    ScriptedOutcome(changes, k - 1, i);
  }

  lemma ScriptedFinish(changes: seq<Change>, k: nat)
    requires k < |changes| + 2
    ensures StepAt(changes, k).durationMs == StepAt(changes, k).offsetMs == DurationAfter(|changes|, k + 1)
    ensures StepAt(changes, k).finish == if k == |changes| + 1 then Some(RunApplied) else None
  {
  }

  /** A step names exactly the change it completes and the one it starts. */
  lemma ScriptedOutcome(changes: seq<Change>, k: nat, i: nat)
    requires DistinctIndexes(changes) && k < |changes| + 2 && i < |changes|
    ensures var named := StepAt(changes, k).changes;
      && (changes[i].index in named <==> 1 <= k <= |changes| && (i == k - 1 || i == k))
      && (changes[i].index in named ==> named[changes[i].index] == if i == k - 1 then Applied else Applying)
  {
    if 1 <= k <= |changes| {
      if i < k - 1 { assert changes[i].index != changes[k - 1].index; }
      if i > k - 1 { assert changes[k - 1].index != changes[i].index; }
      if k < |changes| {
        if i < k { assert changes[i].index != changes[k].index; }
        if i > k { assert changes[k].index != changes[i].index; }
      }
    }
  }

  /** The shown duration never goes back. */
  lemma DurationGrows(n: nat, j: nat, k: nat)
    requires j <= k <= n + 2
    ensures DurationAfter(n, j) <= DurationAfter(n, k)
  {
  }

  // ----- The store

  /** A retry is where its reads have brought it, and its script is intact. */
  ghost predicate OnCourse(first: RunDetail, run: RunDetail, script: seq<LiveStep>, step: nat, readCount: nat) {
    var n := |first.changes|;
    && |script| == n + 2 && (forall k | 0 <= k < n + 2 :: script[k] == StepAt(first.changes, k))
    && step == Min(readCount, n + 2) && run == After(first, step)
  }

  lemma OneMoreRead(first: RunDetail, run: RunDetail, script: seq<LiveStep>, step: nat, readCount: nat)
    requires OnCourse(first, run, script, step, readCount)
    ensures if step < |script| then OnCourse(first, AdvanceRun(run, script[step]), script, step + 1, readCount + 1)
            else OnCourse(first, run, script, step, readCount + 1)
  {
  }

  datatype RetryResult = Accepted(runId: string) | NotFound | StillInFlight

  /** The store; origin and readCount are history: the run a retry repeats and when it was
      accepted, and how often it was read since. */
  datatype State = State(
    runs: map<string, RunDetail>, liveStep: map<string, nat>, scripts: map<string, seq<LiveStep>>,
    retriesByKey: map<string, string>, origin: map<string, (RunDetail, int)>, readCount: map<string, nat>)

  function StepOf(s: State, id: string): nat { if id in s.liveStep then s.liveStep[id] else 0 }

  function Script(changes: seq<Change>): seq<LiveStep> {
    seq(|changes| + 2, k requires 0 <= k < |changes| + 2 => StepAt(changes, k))
  }

  /** getRun on a known run: an unsettled run with script left takes one step. */
  function AfterRead(s: State, id: string): State
    requires id in s.runs
  {
    var run, i := s.runs[id], StepOf(s, id);
    var t := if run.finishedAt.None? && id in s.scripts && i < |s.scripts[id]|
             then s.(liveStep := s.liveStep[id := i + 1], runs := s.runs[id := AdvanceRun(run, s.scripts[id][i])])
             else s;
    if id in s.readCount then t.(readCount := s.readCount[id := s.readCount[id] + 1]) else t
  }

  /** retryRun, with the fresh id it draws. */
  function AfterRetry(s: State, runId: string, key: string, newId: string, now: int): (State, RetryResult) {
    if key in s.retriesByKey then (s, Accepted(s.retriesByKey[key]))
    else if runId !in s.runs then (s, NotFound)
    else if s.runs[runId].finishedAt.None? then (s, StillInFlight)
    else
      var run := FirstRun(s.runs[runId], newId, now);
      (s.(runs := s.runs[newId := run], scripts := s.scripts[newId := Script(run.changes)],
          retriesByKey := s.retriesByKey[key := newId],
          origin := s.origin[newId := (s.runs[runId], now)], readCount := s.readCount[newId := 0]),
       Accepted(newId))
  }

  ghost predicate RetryOk(s: State, id: string) {
    && id in s.origin && id in s.runs && id in s.scripts && id in s.readCount
    && OnCourse(FirstRun(s.origin[id].0, id, s.origin[id].1), s.runs[id], s.scripts[id], StepOf(s, id), s.readCount[id])
  }

  ghost predicate Inv(s: State) {
    && s.scripts.Keys <= s.runs.Keys && s.liveStep.Keys <= s.runs.Keys
    && s.readCount.Keys == s.origin.Keys && s.origin.Keys <= s.runs.Keys
    && (forall key | key in s.retriesByKey :: s.retriesByKey[key] in s.origin)
    && (forall id | id in s.origin :: RetryOk(s, id))
  }

  /** A known key answers its run; otherwise an unknown run is not found, an unsettled one is refused, and a
      settled one is retried under the new id. */
  lemma RetryIsAnswered(s: State, runId: string, key: string, newId: string, now: int)
    ensures var (t, r) := AfterRetry(s, runId, key, newId, now);
      var known, settled := key in s.retriesByKey, runId in s.runs && s.runs[runId].finishedAt.Some?;
      && (known ==> r == Accepted(s.retriesByKey[key]) && t == s)
      && (r == NotFound <==> !known && runId !in s.runs)
      && (r == StillInFlight <==> !known && runId in s.runs && !settled)
      && (!known && settled ==>
            && r == Accepted(newId) && t.retriesByKey == s.retriesByKey[key := newId]
            && newId in t.runs && StepShape(s.runs[runId], newId, now, t.runs[newId], 0)
            && forall o | o in s.runs && o != newId :: o in t.runs && t.runs[o] == s.runs[o])
      && (!r.Accepted? ==> t == s)
  {
  }

  /** A retry settles as Applied with exactly its (number of changes + 2)-th read; when the change
      indexes are distinct, its changes are at any time an applied prefix, one applying, the rest pending. */
  lemma RetryCourse(s: State, id: string)
    requires Inv(s) && id in s.origin
    ensures var (original, now) := s.origin[id];
      var n := |original.changes|;
      && id in s.runs && id in s.readCount
      && (s.runs[id].finishedAt.Some? <==> s.readCount[id] >= n + 2)
      && (s.runs[id].outcome == RunApplied <==> s.readCount[id] >= n + 2)
      && s.runs[id].changeOutcomes == Outcomes(s.runs[id].changes)
      && (DistinctIndexes(original.changes) ==> StepShape(original, id, now, s.runs[id], Min(s.readCount[id], n + 2)))
  {
    assert RetryOk(s, id);
    var (original, now) := s.origin[id];
    SettledLast(original, id, now, StepOf(s, id));
    if DistinctIndexes(original.changes) {
      CourseOfRetry(original, id, now, StepOf(s, id));
    }
  }

  lemma {:induction false} SettledLast(original: RunDetail, id: string, now: int, k: nat)
    requires k <= |original.changes| + 2
    ensures var run := After(FirstRun(original, id, now), k);
      && (run.finishedAt.Some? <==> k == |original.changes| + 2)
      && run.outcome == (if k == |original.changes| + 2 then RunApplied else RunApplying)
      && run.changeOutcomes == Outcomes(run.changes)
  {
    if k > 0 { SettledLast(original, id, now, k - 1); }
  }

  /** A retry on course is unsettled exactly while its script has steps left. */
  lemma UnsettledHasSteps(original: RunDetail, id: string, now: int, run: RunDetail, script: seq<LiveStep>, step: nat,
                          readCount: nat)
    requires OnCourse(FirstRun(original, id, now), run, script, step, readCount)
    ensures run.finishedAt.None? <==> step < |script|
  {
    hide After, Outcomes;
    SettledLast(original, id, now, step);
  }

  lemma ReadRetryOk(s: State, id: string)
    requires RetryOk(s, id)
    ensures RetryOk(AfterRead(s, id), id)
  {
    hide FirstRun, OnCourse, AdvanceRun;
    var (original, now) := s.origin[id];
    UnsettledHasSteps(original, id, now, s.runs[id], s.scripts[id], StepOf(s, id), s.readCount[id]);
    OneMoreRead(FirstRun(original, id, now), s.runs[id], s.scripts[id], StepOf(s, id), s.readCount[id]);
  }

  lemma ReadLeavesOthers(s: State, id: string, o: string)
    requires RetryOk(s, o) && id in s.runs && o != id
    ensures RetryOk(AfterRead(s, id), o)
  {
    hide OnCourse, FirstRun, AdvanceRun;
  }

  lemma ReadKeepsInv(s: State, id: string)
    requires Inv(s) && id in s.runs
    ensures Inv(AfterRead(s, id))
  {
    hide OnCourse, FirstRun, AdvanceRun, RetryOk, StepOf;
    var t := AfterRead(s, id);
    forall o | o in t.origin ensures RetryOk(t, o) {
      if o == id { ReadRetryOk(s, id); } else { ReadLeavesOthers(s, id, o); }
    }
  }

  lemma StartsOnCourse(first: RunDetail)
    ensures OnCourse(first, first, Script(first.changes), 0, 0)
  {
  }

  lemma RetryKeepsOthers(s: State, o: string, runId: string, key: string, newId: string, now: int)
    requires RetryOk(s, o) && newId !in s.runs
    ensures RetryOk(AfterRetry(s, runId, key, newId, now).0, o)
  {
    hide OnCourse, FirstRun, Script;
  }

  lemma NewRetryOk(s: State, runId: string, key: string, newId: string, now: int)
    requires newId !in s.liveStep && key !in s.retriesByKey && runId in s.runs && s.runs[runId].finishedAt.Some?
    ensures RetryOk(AfterRetry(s, runId, key, newId, now).0, newId)
  {
    StartsOnCourse(FirstRun(s.runs[runId], newId, now));
    hide OnCourse, FirstRun, Script;
  }

  lemma RetryKeepsInv(s: State, runId: string, key: string, newId: string, now: int)
    requires Inv(s) && newId !in s.runs
    ensures Inv(AfterRetry(s, runId, key, newId, now).0)
  {
    hide OnCourse, FirstRun, Script, RetryOk, StepOf;
    var t := AfterRetry(s, runId, key, newId, now).0;
    forall o | o in t.origin ensures RetryOk(t, o) {
      if o in s.origin {
        RetryKeepsOthers(s, o, runId, key, newId, now);
      } else {
        NewRetryOk(s, runId, key, newId, now);
      }
    }
  }

  // ----- Every sequence of calls

  datatype Call = Read(id: string) | Retry(runId: string, key: string, newId: string, now: int)

  function AfterCall(s: State, c: Call): State {
    match c
    case Read(id) => if id in s.runs then AfterRead(s, id) else s
    case Retry(runId, key, newId, now) => AfterRetry(s, runId, key, newId, now).0
  }

  function AfterCalls(s: State, calls: seq<Call>): State
    decreases |calls|
  {
    if calls == [] then s else AfterCalls(AfterCall(s, calls[0]), calls[1..])
  }

  /** A drawn id is redrawn until no run has it. */
  predicate Legal(s: State, calls: seq<Call>)
    decreases |calls|
  {
    calls == [] || ((calls[0].Retry? ==> calls[0].newId !in s.runs) && Legal(AfterCall(s, calls[0]), calls[1..]))
  }

  /** Nothing a call sequence does takes a run, a retry or a used key away, or moves a settled run. */
  ghost predicate Extends(s: State, t: State) {
    && s.runs.Keys <= t.runs.Keys
    && (forall id | id in s.runs && s.runs[id].finishedAt.Some? :: id in t.runs && t.runs[id] == s.runs[id])
    && (forall id | id in s.origin :: id in t.origin && t.origin[id] == s.origin[id])
    && (forall key | key in s.retriesByKey :: key in t.retriesByKey && t.retriesByKey[key] == s.retriesByKey[key])
  }

  lemma CallExtends(s: State, c: Call)
    requires Inv(s) && (c.Retry? ==> c.newId !in s.runs)
    ensures Inv(AfterCall(s, c)) && Extends(s, AfterCall(s, c))
  {
    hide Inv, Extends, AfterRead, AfterRetry;
    match c
    case Read(id) =>
      if id in s.runs { ReadKeepsInv(s, id); ReadExtends(s, id); } else { ExtendsRefl(s); }
    case Retry(runId, key, newId, now) =>
      RetryKeepsInv(s, runId, key, newId, now);
      OriginsAreRuns(s);
      RetryExtends(s, runId, key, newId, now);
  }

  lemma OriginsAreRuns(s: State)
    requires Inv(s)
    ensures s.origin.Keys <= s.runs.Keys
  {
  }

  lemma ExtendsRefl(s: State)
    ensures Extends(s, s)
  {
  }

  lemma ExtendsTrans(s: State, t: State, u: State)
    requires Extends(s, t) && Extends(t, u)
    ensures Extends(s, u)
  {
  }

  lemma ReadExtends(s: State, id: string)
    requires id in s.runs
    ensures Extends(s, AfterRead(s, id))
  {
    hide AdvanceRun, StepOf;
  }

  lemma RetryExtends(s: State, runId: string, key: string, newId: string, now: int)
    requires s.origin.Keys <= s.runs.Keys && newId !in s.runs
    ensures Extends(s, AfterRetry(s, runId, key, newId, now).0)
  {
    hide FirstRun, Script;
  }

  lemma {:induction false} CallsExtend(s: State, calls: seq<Call>)
    requires Inv(s) && Legal(s, calls)
    ensures Inv(AfterCalls(s, calls)) && Extends(s, AfterCalls(s, calls))
    decreases |calls|
  {
    hide Inv, Extends, AfterCall;
    if calls == [] {
      ExtendsRefl(s);
    } else {
      CallExtends(s, calls[0]);
      CallsExtend(AfterCall(s, calls[0]), calls[1..]);
      ExtendsTrans(s, AfterCall(s, calls[0]), AfterCalls(s, calls));
    }
  }

  /** Once a key is accepted, sending it again at any later time answers the same run and changes
      nothing, whatever it is sent for. */
  lemma ReplayedKeyChangesNothing(s: State, runId: string, key: string, newId: string, now: int, between: seq<Call>,
                                  runId': string, newId': string, now': int)
    requires Inv(s) && newId !in s.runs
    requires var (t, r) := AfterRetry(s, runId, key, newId, now); r.Accepted? && Legal(t, between)
    ensures var (t, r) := AfterRetry(s, runId, key, newId, now);
      var later := AfterCalls(t, between);
      AfterRetry(later, runId', key, newId', now') == (later, r)
  {
    hide Inv, FirstRun, Script, AfterCalls, Legal;
    RetryKeepsInv(s, runId, key, newId, now);
    CallsExtend(AfterRetry(s, runId, key, newId, now).0, between);
  }

  function ReadsOf(calls: seq<Call>, id: string): nat {
    if calls == [] then 0 else (if calls[0] == Read(id) then 1 else 0) + ReadsOf(calls[1..], id)
  }

  lemma OneCallCounted(s: State, c: Call, id: string)
    requires id in s.runs && id in s.readCount && (c.Retry? ==> c.newId !in s.runs)
    ensures var t := AfterCall(s, c);
      id in t.runs && id in t.readCount && t.readCount[id] == s.readCount[id] + if c == Read(id) then 1 else 0
  {
    hide AfterRead, AfterRetry;
    match c
    case Read(o) => if o in s.runs { ReadCounted(s, o, id); }
    case Retry(runId, key, newId, now) => RetryCounted(s, runId, key, newId, now, id);
  }

  lemma ReadCounted(s: State, o: string, id: string)
    requires id in s.runs && id in s.readCount && o in s.runs
    ensures var t := AfterRead(s, o);
      id in t.runs && id in t.readCount && t.readCount[id] == s.readCount[id] + if o == id then 1 else 0
  {
    hide AdvanceRun, StepOf;
  }

  lemma RetryCounted(s: State, runId: string, key: string, newId: string, now: int, id: string)
    requires id in s.runs && id in s.readCount && newId !in s.runs
    ensures var t := AfterRetry(s, runId, key, newId, now).0;
      id in t.runs && id in t.readCount && t.readCount[id] == s.readCount[id]
  {
    hide FirstRun, Script;
  }

  lemma {:induction false} ReadsAreCounted(s: State, calls: seq<Call>, id: string)
    requires id in s.runs && id in s.readCount && Legal(s, calls)
    ensures var t := AfterCalls(s, calls); id in t.readCount && t.readCount[id] == s.readCount[id] + ReadsOf(calls, id)
    decreases |calls|
  {
    hide AfterCall;
    if calls != [] {
      OneCallCounted(s, calls[0], id);
      ReadsAreCounted(AfterCall(s, calls[0]), calls[1..], id);
    }
  }

  /** An accepted retry of a run with n changes is settled, as Applied, exactly when n + 2 reads of
      it have been made, whatever other reads and retries happen in between. */
  lemma RetrySettles(s: State, runId: string, key: string, newId: string, now: int, calls: seq<Call>)
    requires Inv(s) && newId !in s.runs && key !in s.retriesByKey && runId in s.runs && s.runs[runId].finishedAt.Some?
    requires Legal(AfterRetry(s, runId, key, newId, now).0, calls)
    ensures var t := AfterCalls(AfterRetry(s, runId, key, newId, now).0, calls);
      var n, readings := |s.runs[runId].changes|, ReadsOf(calls, newId);
      && newId in t.runs
      && (t.runs[newId].finishedAt.Some? <==> readings >= n + 2)
      && (t.runs[newId].outcome == RunApplied <==> readings >= n + 2)
      && (DistinctIndexes(s.runs[runId].changes) ==>
            StepShape(s.runs[runId], newId, now, t.runs[newId], Min(readings, n + 2)))
  {
    hide Inv, FirstRun, Script, AfterCalls, Legal, StepShape, DistinctIndexes, Outcomes, ReadsOf;
    var accepted := AfterRetry(s, runId, key, newId, now).0;
    RetryKeepsInv(s, runId, key, newId, now);
    CallsExtend(accepted, calls);
    ReadsAreCounted(accepted, calls, newId);
    RetryCourse(AfterCalls(accepted, calls), newId);
  }

  class Store {
    var runs: map<string, RunDetail>
    var liveStep: map<string, nat>
    var scripts: map<string, seq<LiveStep>>
    var retriesByKey: map<string, string>
    ghost var origin: map<string, (RunDetail, int)>
    ghost var readCount: map<string, nat>

    ghost function Value(): State
      reads this
    {
      State(runs, liveStep, scripts, retriesByKey, origin, readCount)
    }

    /** Seeded with the fixture runs and scripts. */
    constructor (runs: map<string, RunDetail>, scripts: map<string, seq<LiveStep>>)
      requires scripts.Keys <= runs.Keys
      ensures Value() == State(runs, map[], scripts, map[], map[], map[]) && Inv(Value())
    {
      this.runs, this.scripts := runs, scripts;
      liveStep, retriesByKey, origin, readCount := map[], map[], map[], map[];
    }

    method AdvanceLive(run: RunDetail, id: string) returns (next: RunDetail)
      requires id in runs && runs[id] == run
      modifies this`runs, this`liveStep
      ensures id in runs && next == runs[id]
      ensures var s := old(Value());
        if id in scripts && StepOf(s, id) < |scripts[id]|
        then && runs == old(runs)[id := AdvanceRun(run, scripts[id][StepOf(s, id)])]
             && liveStep == old(liveStep)[id := StepOf(s, id) + 1]
        else runs == old(runs) && liveStep == old(liveStep)
    {
      if id !in scripts {
        return run;
      }
      var i := if id in liveStep then liveStep[id] else 0;
      if i >= |scripts[id]| {
        return run;
      }
      liveStep := liveStep[id := i + 1];
      next := AdvanceRun(run, scripts[id][i]);
      runs := runs[id := next];
    }

    /** The detail read. */
    method GetRun(id: string) returns (run: Option<RunDetail>)
      modifies this
      ensures Value() == if id in old(runs) then AfterRead(old(Value()), id) else old(Value())
      ensures run == if id in runs then Some(runs[id]) else None
    {
      hide AdvanceRun;
      if id !in runs {
        return None;
      }
      var current := runs[id];
      if current.finishedAt.None? {
        current := AdvanceLive(current, id);
      }
      if id in readCount { readCount := readCount[id := readCount[id] + 1]; }
      return Some(current);
    }

    method RetryRun(runId: string, key: string, newId: string, now: int) returns (r: RetryResult)
      modifies this
      ensures (Value(), r) == AfterRetry(old(Value()), runId, key, newId, now)
    {
      if key in retriesByKey {
        return Accepted(retriesByKey[key]);
      }
      if runId !in runs {
        return NotFound;
      }
      var original := runs[runId];
      if original.finishedAt.None? {
        return StillInFlight;
      }
      hide FirstRun, StepAt;
      var run := FirstRun(original, newId, now);
      var script := RetryScript(run.changes);
      assert script == Script(run.changes);
      hide Script;
      runs := runs[newId := run];
      scripts := scripts[newId := script];
      retriesByKey := retriesByKey[key := newId];
      origin, readCount := origin[newId := (original, now)], readCount[newId := 0];
      return Accepted(newId);
    }
  }
}
