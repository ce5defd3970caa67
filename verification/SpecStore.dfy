/** One copy of a tenant's spec state: conditional saves under an idempotency key, and restores. Once
    a save holds its copy it suspends between appending its version and recording its response. */
module SpecStore {
  import opened Common

  datatype Status = Current | Applied | Superseded

  /** Described stands for the line counts of the diff between two bodies. */
  datatype Summary = Seeded(text: string) | Described(before: string, after: string) | RestoreOf(generation: int)

  datatype Version = Version(
    generation: int, author: string, createdAt: int, hash: string, summary: Summary, status: Status, body: string)

  datatype Response = Response(generation: int, runId: string)

  /** The body hash and the validator, which also sees the applied body. */
  datatype Env = Env(hash: string -> string, valid: (string, Option<string>) -> bool)

  /** versions is newest first; inFlight holds, by generation, the keys of the suspended saves. */
  datatype State = State(
    versions: seq<Version>, current: int, observed: int, byKey: map<string, Response>, inFlight: map<int, string>)

  function StatusOf(generation: int, current: int, observed: int): Status {
    if generation == current then Current else if generation == observed then Applied else Superseded
  }

  function Find(versions: seq<Version>, generation: int): (r: Option<Version>)
    ensures r.Some? ==> r.value in versions && r.value.generation == generation
    ensures r.None? ==> forall v <- versions :: v.generation != generation
  {
    if versions == [] then None
    else if versions[0].generation == generation then Some(versions[0])
    else Find(versions[1..], generation)
  }

  function CurrentVersion(versions: seq<Version>, current: int): Version
    requires versions != []
  {
    match Find(versions, current) case Some(v) => v case None => versions[0]
  }

  function AppliedBody(s: State): Option<string> {
    match Find(s.versions, s.observed) case Some(v) => Some(v.body) case None => None
  }

  /** What a first access builds for a tenant at the given generation. */
  function SeedOf(versions: seq<Version>, generation: int, observed: int): State {
    State(versions, if versions == [] then generation else versions[0].generation, observed, map[], map[])
  }

  // ----- saveSpec

  datatype Save = Save(
    body: string, ifMatch: Option<int>, key: string, author: string, now: int, restoreOf: Option<int>)

  datatype Answer = Ok(response: Response) | Refused(status: int) | Appended(generation: int) | Threw

  /** Without an earlier version there is nothing to describe the change from. */
  predicate Describable(s: State, q: Save) { s.versions != [] || q.restoreOf.Some? }

  function SummaryOf(s: State, q: Save): Summary
    requires Describable(s, q)
  {
    if q.restoreOf.Some? then RestoreOf(q.restoreOf.value)
    else Described(CurrentVersion(s.versions, s.current).body, q.body)
  }

  function NewVersion(env: Env, s: State, q: Save): Version
    requires Describable(s, q)
  {
    Version(s.current + 1, q.author, q.now, env.hash(q.body), SummaryOf(s, q), Current, q.body)
  }

  function Restatus(versions: seq<Version>, current: int, observed: int): seq<Version> {
    seq(|versions|, i requires 0 <= i < |versions| =>
      versions[i].(status := StatusOf(versions[i].generation, current, observed)))
  }

  function Append(env: Env, s: State, q: Save): State
    requires Describable(s, q)
  {
    s.(versions := [NewVersion(env, s, q)] + Restatus(s.versions, s.current + 1, s.observed),
       current := s.current + 1,
       inFlight := s.inFlight[s.current + 1 := q.key])
  }

  /** A save up to the point where it waits for its reconcile run. */
  function Begin(env: Env, s: State, q: Save): (State, Answer) {
    if q.key in s.byKey then (s, Ok(s.byKey[q.key]))
    else if q.ifMatch.None? then (s, Refused(428))
    else if q.ifMatch.value != s.current then (s, Refused(412))
    else if !env.valid(q.body, AppliedBody(s)) then (s, Refused(400))
    else if !Describable(s, q) then (s, Threw)
    else (Append(env, s, q), Appended(s.current + 1))
  }

  /** The rest of the save that appended a generation: its response is recorded under its key. */
  function Finish(s: State, generation: int, runId: string): State {
    if generation !in s.inFlight then s
    else s.(byKey := s.byKey[s.inFlight[generation] := Response(generation, runId)],
            inFlight := s.inFlight - {generation})
  }

  // ----- What every run keeps

  /** Generations current down to 1, each with its status and the hash of its body. */
  ghost predicate Listed(env: Env, s: State) {
    && s.current >= 0 && |s.versions| == s.current
    && (forall i | 0 <= i < |s.versions| ::
         && s.versions[i].generation == s.current - i
         && s.versions[i].status == StatusOf(s.current - i, s.current, s.observed)
         && s.versions[i].hash == env.hash(s.versions[i].body))
  }

  ghost predicate Answered(s: State) {
    && (forall g | g in s.inFlight :: 1 <= g <= s.current)
    && (forall k | k in s.byKey :: 1 <= s.byKey[k].generation <= s.current && s.byKey[k].generation !in s.inFlight)
  }

  ghost predicate Inv(env: Env, s: State) { Listed(env, s) && Answered(s) }

  /** What a generation says, whatever its status. */
  function Content(s: State, generation: int): Version
    requires 1 <= generation <= s.current == |s.versions|
  {
    s.versions[s.current - generation].(status := Superseded)
  }

  /** A key has an answer and no save under it is still suspended. */
  predicate Final(s: State, key: string) { key in s.byKey && forall g | g in s.inFlight :: s.inFlight[g] != key }

  /** The later state t keeps every version and every final answer of s. */
  ghost predicate Keeps(s: State, t: State) {
    && |s.versions| == s.current <= t.current == |t.versions| && t.observed == s.observed
    && (forall g | 1 <= g <= s.current :: Content(t, g) == Content(s, g))
    && s.byKey.Keys <= t.byKey.Keys
    && (forall k | Final(s, k) :: Final(t, k) && t.byKey[k] == s.byKey[k])
  }

  lemma FindsGeneration(env: Env, s: State, g: int)
    requires Listed(env, s)
    ensures Find(s.versions, g) == if 1 <= g <= s.current then Some(s.versions[s.current - g]) else None
  {
    var found := Find(s.versions, g);
    if 1 <= g <= s.current { assert s.versions[s.current - g] in s.versions; }
    if found.Some? {
      var i :| 0 <= i < |s.versions| && s.versions[i] == found.value;
    }
  }

  /** Only the head is current; of the others only the observed generation is applied. */
  lemma OnlyHeadIsCurrent(env: Env, s: State, i: nat)
    requires Listed(env, s) && i < |s.versions|
    ensures s.versions[i].status == Current <==> i == 0
    ensures s.versions[i].status == Applied <==> i > 0 && s.versions[i].generation == s.observed
    ensures CurrentVersion(s.versions, s.current) == s.versions[0]
  {
    FindsGeneration(env, s, s.current);
  }

  lemma AppendKeeps(env: Env, s: State, q: Save)
    requires Inv(env, s) && q.key !in s.byKey && Describable(s, q)
    ensures Inv(env, Append(env, s, q)) && Keeps(s, Append(env, s, q))
  {
    AppendLists(env, s, q);
    AppendContents(env, s, q);
    hide Listed, Content, NewVersion, Restatus;
  }

  lemma AppendLists(env: Env, s: State, q: Save)
    requires Listed(env, s) && Describable(s, q)
    ensures Listed(env, Append(env, s, q))
  {
    hide SummaryOf;
    var t := Append(env, s, q);
    forall i | 0 < i < |t.versions|
      ensures t.versions[i].generation == t.current - i
      ensures t.versions[i].status == StatusOf(t.current - i, t.current, t.observed)
      ensures t.versions[i].hash == env.hash(t.versions[i].body)
    {
      assert s.versions[i - 1].generation == s.current - (i - 1);
    }
  }

  lemma AppendContents(env: Env, s: State, q: Save)
    requires Listed(env, s) && Describable(s, q)
    ensures var t := Append(env, s, q);
      |t.versions| == t.current && forall g | 1 <= g <= s.current :: Content(t, g) == Content(s, g)
  {
    hide SummaryOf, StatusOf;
  }

  lemma BeginKeeps(env: Env, s: State, q: Save)
    requires Inv(env, s)
    ensures Inv(env, Begin(env, s, q).0) && Keeps(s, Begin(env, s, q).0)
  {
    hide Append, AppliedBody, Find;
    if Begin(env, s, q).1.Appended? { AppendKeeps(env, s, q); }
  }

  lemma FinishKeeps(env: Env, s: State, generation: int, runId: string)
    requires Inv(env, s)
    ensures Inv(env, Finish(s, generation, runId)) && Keeps(s, Finish(s, generation, runId))
  {
  }

  datatype Event = Begins(save: Save) | Finishes(generation: int, runId: string)

  function After(env: Env, s: State, e: Event): State {
    match e
    case Begins(q) => Begin(env, s, q).0
    case Finishes(generation, runId) => Finish(s, generation, runId)
  }

  function Applier(env: Env): (State, Event) -> State { (s, e) => After(env, s, e) }

  function AfterAll(env: Env, s: State, events: seq<Event>): State { Fold(Applier(env), s, events) }

  lemma EventKeeps(env: Env, s: State, e: Event)
    requires Inv(env, s)
    ensures Inv(env, After(env, s, e)) && Keeps(s, After(env, s, e))
  {
    hide Inv, Keeps, Begin, Finish;
    match e
    case Begins(q) => BeginKeeps(env, s, q);
    case Finishes(generation, runId) => FinishKeeps(env, s, generation, runId);
  }

  lemma KeepsRefl(env: Env, s: State)
    requires Inv(env, s)
    ensures Keeps(s, s)
  {
  }

  lemma KeepsTrans(s: State, t: State, u: State)
    requires Keeps(s, t) && Keeps(t, u)
    ensures Keeps(s, u)
  {
  }

  /** Over every interleaving of saves on one copy: its list stays exactly current..1, and its
      versions and final answers never change. */
  lemma {:induction false} CopyKeeps(env: Env, s: State, events: seq<Event>)
    requires Inv(env, s)
    ensures Inv(env, AfterAll(env, s, events)) && Keeps(s, AfterAll(env, s, events))
    decreases |events|
  {
    hide Inv, Keeps, After;
    if events == [] {
      KeepsRefl(env, s);
    } else {
      var init := events[..|events| - 1];
      CopyKeeps(env, s, init);
      EventKeeps(env, AfterAll(env, s, init), events[|events| - 1]);
      KeepsTrans(s, AfterAll(env, s, init), AfterAll(env, s, events));
    }
  }

  // ----- Single saves

  /** A save appends exactly when its key is new, its If-Match is current and its body is valid;
      then the next generation carries its body, hash and author. */
  lemma AppendsExactlyWhen(env: Env, s: State, q: Save)
    requires Inv(env, s)
    ensures var (t, a) := Begin(env, s, q);
      && (a.Appended? <==>
           (&& q.key !in s.byKey && q.ifMatch == Some(s.current)
            && env.valid(q.body, AppliedBody(s)) && Describable(s, q)))
      && (!a.Appended? ==> t == s)
      && (a.Appended? ==>
           && a.generation == t.current == s.current + 1 == |t.versions|
           && t.versions[0].body == q.body && t.versions[0].hash == env.hash(q.body)
           && t.versions[0].author == q.author && t.versions[0].generation == t.current
           && t.versions[0].createdAt == q.now && t.versions[0].status == Current
           && (q.restoreOf.None? ==> t.versions[0].summary == Described(Content(s, s.current).body, q.body))
           && (forall g | 1 <= g <= s.current :: Content(t, g) == Content(s, g)))
    ensures AppliedBody(s) == if 1 <= s.observed <= s.current then Some(Content(s, s.observed).body) else None
  {
    FindsGeneration(env, s, s.observed);
    if Describable(s, q) { AppendContents(env, s, q); }
    hide SummaryOf, AppliedBody, Find, Restatus;
  }

  /** What a save is told, in the order of the tests: the recorded response of a known key, 428 without an
      If-Match, 412 for a stale one, 400 for an invalid body. */
  lemma SaveIsAnswered(env: Env, s: State, q: Save)
    requires Inv(env, s)
    ensures var a := Begin(env, s, q).1;
      var known, matches := q.key in s.byKey, q.ifMatch == Some(s.current);
      var body := if 1 <= s.observed <= s.current then Some(Content(s, s.observed).body) else None;
      && (a.Ok? <==> known) && (known ==> a == Ok(s.byKey[q.key]))
      && (a == Refused(428) <==> !known && q.ifMatch.None?)
      && (a == Refused(412) <==> !known && q.ifMatch.Some? && !matches)
      && (a == Refused(400) <==> !known && matches && !env.valid(q.body, body))
      && (a == Threw <==> !known && matches && env.valid(q.body, body) && s.current == 0 && q.restoreOf.None?)
      && (a == Appended(s.current + 1) <==>
            !known && matches && env.valid(q.body, body) && (s.current > 0 || q.restoreOf.Some?))
  {
    FindsGeneration(env, s, s.observed);
    hide Append, Find;
  }

  // ----- Replays

  function AnswerAfter(env: Env, s: State, events: seq<Event>, key: string): Option<Response> {
    var t := AfterAll(env, s, events);
    if key in t.byKey then Some(t.byKey[key]) else None
  }

  /** A final answer is what every later save under the key gets, and that save appends nothing. */
  lemma ReplayedKey(env: Env, s: State, events: seq<Event>, q: Save)
    requires Inv(env, s) && Final(s, q.key)
    ensures var t := AfterAll(env, s, events); Begin(env, t, q) == (t, Ok(s.byKey[q.key]))
  {
    CopyKeeps(env, s, events);
  }

  lemma OneEvent(env: Env, s: State, e: Event)
    ensures AfterAll(env, s, [e]) == After(env, s, e)
  {
    assert [e][..|[e]| - 1] == [];
    assert Fold(Applier(env), s, []) == s;
  }

  /** A recorded answer lasts for every continuation if and only if no save under its key is
      still suspended. */
  lemma AnswerLastsIffFinal(env: Env, s: State, key: string)
    requires Inv(env, s) && key in s.byKey
    ensures Final(s, key) <==> forall events :: AnswerAfter(env, s, events, key) == Some(s.byKey[key])
  {
    if Final(s, key) {
      forall events ensures AnswerAfter(env, s, events, key) == Some(s.byKey[key]) {
        CopyKeeps(env, s, events);
      }
    } else {
      var g :| g in s.inFlight && s.inFlight[g] == key;
      var events := [Finishes(g, "")];
      OneEvent(env, s, events[0]);
      assert AnswerAfter(env, s, events, key) == Some(Response(g, ""));
    }
  }

  /** Two saves under one new key both append when the second carries the first one's generation
      and starts before the first has recorded its response. */
  lemma SameKeyAppendsTwice(env: Env, s: State, q: Save)
    requires Inv(env, s) && q.key !in s.byKey && q.ifMatch == Some(s.current) && Describable(s, q)
    requires env.valid(q.body, AppliedBody(s)) && env.valid(q.body, AppliedBody(Append(env, s, q)))
    ensures var (t, a) := Begin(env, s, q);
      var (u, b) := Begin(env, t, q.(ifMatch := Some(t.current)));
      a == Appended(s.current + 1) && b == Appended(s.current + 2) && u.current == s.current + 2
  {
    hide AppliedBody, SummaryOf;
  }

  // ----- restoreVersion

  datatype RestoreStart = Stop(status: int) | Starts(save: Save)

  /** A restore up to its save: the body and If-Match are those of this moment. */
  function StartRestore(s: State, generation: int, key: string, author: string, now: int): RestoreStart {
    match Find(s.versions, generation)
    case None => Stop(404)
    case Some(v) =>
      if generation == s.current then Stop(409)
      else Starts(Save(v.body, Some(s.current), key, author, now, Some(generation)))
  }

  lemma StartsExactlyWhen(env: Env, s: State, generation: int, key: string, author: string, now: int)
    requires Inv(env, s)
    ensures var r := StartRestore(s, generation, key, author, now);
      && (r == Stop(404) <==> !(1 <= generation <= s.current)) && (r == Stop(409) <==> generation == s.current >= 1)
      && (r.Starts? <==> 1 <= generation < s.current)
      && (r.Starts? ==>
            && r.save.body == Content(s, generation).body && r.save.ifMatch == Some(s.current)
            && r.save.restoreOf == Some(generation) && r.save.key == key)
  {
    FindsGeneration(env, s, generation);
  }

  /** A repeated restore is never "already current": it gets the first one's answer. */
  lemma RepeatedRestore(env: Env, s: State, generation: int, key: string, events: seq<Event>, author: string, now: int)
    requires Inv(env, s) && 1 <= generation < s.current && Final(s, key)
    ensures var t := AfterAll(env, s, events);
      var start := StartRestore(t, generation, key, author, now);
      start.Starts? && Begin(env, t, start.save) == (t, Ok(s.byKey[key]))
  {
    CopyKeeps(env, s, events);
    var t := AfterAll(env, s, events);
    StartsExactlyWhen(env, t, generation, key, author, now);
    ReplayedKey(env, s, events, StartRestore(t, generation, key, author, now).save);
  }

  /** A failed save inside a restore answers 404 or 400. */
  function RestoreStatus(status: int): int { if status == 404 then 404 else 400 }

  class TenantSpecs {
    const env: Env
    var versions: seq<Version>
    var currentGeneration: int
    const observedGeneration: int
    var byKey: map<string, Response>
    ghost var inFlight: map<int, string>

    ghost function Value(): State
      reads this
    {
      State(versions, currentGeneration, observedGeneration, byKey, inFlight)
    }

    ghost predicate Valid()
      reads this
    {
      Inv(env, Value())
    }

    /** Seeded from the tenant: its versions, newest first, or none. */
    constructor (env: Env, versions: seq<Version>, generation: int, observed: int)
      requires Listed(env, SeedOf(versions, generation, observed))
      ensures Valid() && Value() == SeedOf(versions, generation, observed) && this.env == env
    {
      this.env, this.versions, this.observedGeneration := env, versions, observed;
      currentGeneration := if versions == [] then generation else versions[0].generation;
      byKey, inFlight := map[], map[];
    }

    method BeginSave(q: Save) returns (a: Answer)
      requires Valid()
      modifies this
      ensures Valid() && (Value(), a) == Begin(env, old(Value()), q)
    {
      BeginKeeps(env, Value(), q);
      hide Inv, Listed, Find;
      if q.key in byKey {
        return Ok(byKey[q.key]);
      }
      if q.ifMatch.None? {
        return Refused(428);
      }
      if q.ifMatch.value != currentGeneration {
        return Refused(412);
      }
      var observed := Find(versions, observedGeneration);
      if !env.valid(q.body, if observed.Some? then Some(observed.value.body) else None) {
        return Refused(400);
      }
      var generation := currentGeneration + 1;
      var summary;
      if q.restoreOf.Some? {
        summary := RestoreOf(q.restoreOf.value);
      } else if versions == [] {
        return Threw;
      } else {
        summary := Described(CurrentVersion(versions, currentGeneration).body, q.body);
      }
      var version := Version(generation, q.author, q.now, env.hash(q.body), summary, Current, q.body);
      versions := [version] + Restatus(versions, generation, observedGeneration);
      currentGeneration := generation;
      inFlight := inFlight[generation := q.key];
      return Appended(generation);
    }

    method FinishSave(key: string, generation: int, runId: string) returns (r: Response)
      requires Valid() && generation in inFlight && inFlight[generation] == key
      modifies this
      ensures Valid() && Value() == Finish(old(Value()), generation, runId) && r == Response(generation, runId)
    {
      FinishKeeps(env, Value(), generation, runId);
      hide Inv;
      r := Response(generation, runId);
      byKey := byKey[key := r];
      inFlight := inFlight - {generation};
    }

    /** A save with no other save between its two halves; runId is what the reconcile queue answers. */
    method SaveSpec(q: Save, runId: string) returns (a: Answer)
      requires Valid()
      modifies this
      ensures Valid() && !a.Appended?
      ensures var (t, b) := Begin(env, old(Value()), q);
        if b.Appended? then Value() == Finish(t, b.generation, runId) && a == Ok(Response(b.generation, runId))
        else Value() == t && a == b
    {
      hide Inv, AppliedBody;
      a := BeginSave(q);
      if a.Appended? {
        var r := FinishSave(q.key, a.generation, runId);
        a := Ok(r);
      }
    }

    method RestoreVersion(generation: int, key: string, author: string, now: int, runId: string) returns (a: Answer)
      requires Valid()
      modifies this
      ensures Valid() && !a.Appended?
      ensures var s := old(Value());
        match StartRestore(s, generation, key, author, now)
        case Stop(status) => a == Refused(status) && Value() == s
        case Starts(q) =>
          var (t, b) := Begin(env, s, q);
          && (b.Refused? ==> a == Refused(400) && Value() == s) && (b.Threw? ==> a == b && Value() == s)
          && (b.Ok? ==> a == b && Value() == s)
          && (b.Appended? ==> a == Ok(Response(b.generation, runId)) && Value() == Finish(t, b.generation, runId))
    {
      hide Inv, AppliedBody, Append, Finish;
      var source := Find(versions, generation);
      if source.None? {
        return Refused(404);
      }
      if generation == currentGeneration {
        return Refused(409);
      }
      a := SaveSpec(Save(source.value.body, Some(currentGeneration), key, author, now, Some(generation)), runId);
      if a.Refused? {
        a := Refused(RestoreStatus(a.status));
      }
    }
  }

  /** The map entry of one tenant, as a first access fills it. */
  class SpecMap {
    var entry: TenantSpecs?

    constructor ()
      ensures entry == null
    {
      entry := null;
    }

    /** The second half of a lookup that found nothing: sets a fresh copy, whatever the entry is by now. */
    method Seed(env: Env, versions: seq<Version>, generation: int, observed: int) returns (state: TenantSpecs)
      requires Listed(env, SeedOf(versions, generation, observed))
      modifies this
      ensures fresh(state) && entry == state && state.Value() == SeedOf(versions, generation, observed)
      ensures state.Valid() && state.env == env
    {
      state := new TenantSpecs(env, versions, generation, observed);
      entry := state;
    }
  }
}
