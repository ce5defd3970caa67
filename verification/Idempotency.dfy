/** The Idempotency-Key middleware and its store: requests interleave at every await, and
    the primary key (actor, key) is the only guard. */
module Idempotency {
  import opened Common

  type RequestId = nat

  const KEY_MAX_LENGTH: nat := 128

  /** 24 hours in ticks. */
  const TIME_TO_LIVE: nat := 864_000_000_000

  datatype Call = Call(mutation: bool, actor: string, key: string, hash: string)

  datatype Response = Response(status: int, contentType: Option<string>, body: Option<string>)

  datatype Record = Record(
    actor: string, key: string, requestHash: string,
    status: int, contentType: Option<string>, body: Option<string>, createdAt: int, expiresAt: int)

  predicate IsExpired(r: Record, now: int) { r.expiresAt <= now }

  function Lower(c: char): char { if 'A' <= c <= 'Z' then c - 'A' + 'a' else c }

  predicate IsJson(contentType: Option<string>) {
    contentType.Some? &&
    var s := contentType.value;
    exists i | 0 <= i <= |s| - 4 :: JsonAt(s, i)
  }

  predicate JsonAt(s: string, i: nat)
    requires i + 4 <= |s|
  {
    Lower(s[i]) == 'j' && Lower(s[i + 1]) == 's' && Lower(s[i + 2]) == 'o' && Lower(s[i + 3]) == 'n'
  }

  /** Only non-empty JSON bodies are kept. */
  function StoredBody(r: Response): Option<string> {
    if r.body.Some? && r.body.value != "" && IsJson(r.contentType) then r.body else None
  }

  function RecordOf(call: Call, r: Response, now: int): Record {
    Record(call.actor, call.key, call.hash, r.status, r.contentType, StoredBody(r), now, now + TIME_TO_LIVE)
  }

  // ----- Requests in flight

  datatype Storing = Stored | Dropped | Skipped

  /** When a request looked its key up and found nothing live: the clock and the step count. */
  datatype Miss = Miss(at: int, step: nat)

  datatype Outcome =
    | PassedThrough
    | BadKey
    | Reused
    | Replayed(status: int, contentType: Option<string>, body: Option<string>)
    | Ran(response: Response, miss: Miss, storing: Storing)
    | Threw(miss: Miss)

  datatype Session =
    | Started(call: Call)
    | Executing(call: Call, miss: Miss)
    | Executed(call: Call, response: Response, miss: Miss)
    | Finished(call: Call, outcome: Outcome)

  /** A row, with the step that inserted it and the request it came from. */
  datatype Entry = Entry(record: Record, step: nat, origin: RequestId)

  type Table = map<(string, string), Entry>

  datatype State = State(now: int, steps: nat, table: Table, sessions: map<RequestId, Session>)

  function Initial(now: int): State { State(now, 0, map[], map[]) }

  function KeyOf(call: Call): (string, string) { (call.actor, call.key) }

  /** FindAsync: the live row for the pair. */
  function Find(table: Table, key: (string, string), now: int): Option<Record> {
    if key !in table || IsExpired(table[key].record, now) then None else Some(table[key].record)
  }

  /** Up to and including the lookup. */
  function AfterFind(call: Call, table: Table, now: int, step: nat): Session {
    if !call.mutation then Finished(call, PassedThrough)
    else if call.key == "" || |call.key| > KEY_MAX_LENGTH then Finished(call, BadKey)
    else match Find(table, KeyOf(call), now)
      case None => Executing(call, Miss(now, step))
      case Some(r) =>
        if r.requestHash != call.hash then Finished(call, Reused)
        else Finished(call, Replayed(r.status, r.contentType, r.body))
  }

  /** StoreAsync: the first writer wins; a collision, or a save that fails, is swallowed. */
  function AfterStore(id: RequestId, call: Call, r: Response, miss: Miss, s: State, fails: bool): (Table, Session) {
    if r.status >= 500 then (s.table, Finished(call, Ran(r, miss, Skipped)))
    else if fails || KeyOf(call) in s.table then (s.table, Finished(call, Ran(r, miss, Dropped)))
    else (s.table[KeyOf(call) := Entry(RecordOf(call, r, s.now), s.steps, id)], Finished(call, Ran(r, miss, Stored)))
  }

  datatype Step =
    | Begin(id: RequestId, call: Call)
    | FindKey(id: RequestId)
    | Execute(id: RequestId, response: Response)
    | Throw(id: RequestId)
    | Store(id: RequestId, fails: bool)
    | Tick(ticks: nat)

  function Enact(s: State, step: Step): State {
    match step
    case Begin(id, call) => if id in s.sessions then s else s.(sessions := s.sessions[id := Started(call)])
    case FindKey(id) =>
      if id in s.sessions && s.sessions[id].Started?
      then s.(sessions := s.sessions[id := AfterFind(s.sessions[id].call, s.table, s.now, s.steps)]) else s
    case Execute(id, r) =>
      if id in s.sessions && s.sessions[id].Executing?
      then s.(sessions := s.sessions[id := Executed(s.sessions[id].call, r, s.sessions[id].miss)]) else s
    case Throw(id) =>
      if id in s.sessions && s.sessions[id].Executing?
      then s.(sessions := s.sessions[id := Finished(s.sessions[id].call, Threw(s.sessions[id].miss))]) else s
    case Store(id, fails) =>
      if id in s.sessions && s.sessions[id].Executed? then
        var x := s.sessions[id];
        var (table, session) := AfterStore(id, x.call, x.response, x.miss, s, fails);
        s.(table := table, sessions := s.sessions[id := session])
      else s
    case Tick(d) => s.(now := s.now + d)
  }

  function Next(s: State, step: Step): State { Enact(s, step).(steps := s.steps + 1) }

  function Run(s: State, steps: seq<Step>): State {
    if steps == [] then s else Next(Run(s, steps[..|steps| - 1]), steps[|steps| - 1])
  }

  // ----- What every run keeps

  /** The miss of a request that went on to run the handler. */
  function MissOf(s: Session): Option<Miss> {
    match s
    case Executing(_, m) => Some(m)
    case Executed(_, _, m) => Some(m)
    case Finished(_, Ran(_, m, _)) => Some(m)
    case Finished(_, Threw(m)) => Some(m)
    case _ => None
  }

  /** A row is the stored answer of the execution it names, inserted after that request's lookup. */
  ghost predicate RowOk(s: State, key: (string, string)) {
    key in s.table &&
    var e := s.table[key];
    && e.step < s.steps && e.origin in s.sessions
    && var x := s.sessions[e.origin];
       && x.Finished? && x.outcome.Ran? && x.outcome.storing.Stored?
       && KeyOf(x.call) == key && x.outcome.response.status < 500
       && e.record == RecordOf(x.call, x.outcome.response, e.record.createdAt)
       && x.outcome.miss.step < e.step
  }

  /** A request that ran the handler looked before the row of its key was inserted, or
      after it had expired. */
  ghost predicate MissOk(s: State, call: Call, m: Miss) {
    && m.step < s.steps && m.at <= s.now
    && (KeyOf(call) in s.table ==>
          m.step < s.table[KeyOf(call)].step || IsExpired(s.table[KeyOf(call)].record, m.at))
  }

  /** A replay repeats the row of its key, for the same request. */
  ghost predicate ReplayOk(s: State, x: Session)
    requires x.Finished? && x.outcome.Replayed?
  {
    KeyOf(x.call) in s.table &&
    var r := s.table[KeyOf(x.call)].record;
    r.requestHash == x.call.hash && x.outcome == Replayed(r.status, r.contentType, r.body)
  }

  /** Outages are not stored; a stored answer is the row of its key. */
  ghost predicate StoringOk(s: State, id: RequestId, x: Session)
    requires x.Finished? && x.outcome.Ran?
  {
    && (x.outcome.storing.Skipped? <==> x.outcome.response.status >= 500)
    && (x.outcome.storing.Stored? ==> KeyOf(x.call) in s.table && s.table[KeyOf(x.call)].origin == id)
  }

  ghost predicate SessionOk(s: State, id: RequestId, x: Session) {
    && (MissOf(x).Some? ==> MissOk(s, x.call, MissOf(x).value))
    && (x.Finished? && x.outcome.Replayed? ==> ReplayOk(s, x))
    && (x.Finished? && x.outcome.Ran? ==> StoringOk(s, id, x))
  }

  ghost predicate Inv(s: State) {
    (forall key | key in s.table :: RowOk(s, key)) && (forall id | id in s.sessions :: SessionOk(s, id, s.sessions[id]))
  }

  /** Rows are never changed and never removed; finished requests stay as they are. */
  lemma StepKeepsRows(s: State, step: Step)
    ensures forall key | key in s.table :: key in Next(s, step).table && Next(s, step).table[key] == s.table[key]
    ensures forall id | id in s.sessions && s.sessions[id].Finished? ::
      id in Next(s, step).sessions && Next(s, step).sessions[id] == s.sessions[id]
  {
  }

  /** A request that a step does not touch keeps its facts, whatever the step inserts. */
  lemma UntouchedKept(s: State, step: Step, id: RequestId, x: Session)
    requires SessionOk(s, id, x)
    ensures SessionOk(Next(s, step), id, x)
  {
    StepKeepsRows(s, step);
    hide IsJson, StoredBody;
    if MissOf(x).Some? && step.Store? && KeyOf(x.call) !in s.table && KeyOf(x.call) in Next(s, step).table {
      assert Next(s, step).table[KeyOf(x.call)].step == s.steps;
    }
  }

  lemma TouchedKept(s: State, step: Step, id: RequestId)
    requires Inv(s) && id in Next(s, step).sessions
    requires id !in s.sessions || Next(s, step).sessions[id] != s.sessions[id]
    ensures SessionOk(Next(s, step), id, Next(s, step).sessions[id])
  {
    hide IsJson, StoredBody, RowOk;
    if id in s.sessions { assert SessionOk(s, id, s.sessions[id]); }
  }

  lemma RowKept(s: State, step: Step, key: (string, string))
    requires Inv(s) && key in Next(s, step).table
    ensures RowOk(Next(s, step), key)
  {
    hide IsJson, StoredBody;
    if key in s.table {
      StepKeepsRows(s, step);
      assert RowOk(s, key);
    } else {
      assert SessionOk(s, step.id, s.sessions[step.id]);
    }
  }

  lemma NextKeepsInv(s: State, step: Step)
    requires Inv(s)
    ensures Inv(Next(s, step))
  {
    hide RowOk, SessionOk, Next;
    var t := Next(s, step);
    forall key | key in t.table ensures RowOk(t, key) {
      RowKept(s, step, key);
    }
    forall id | id in t.sessions ensures SessionOk(t, id, t.sessions[id]) {
      if id in s.sessions && t.sessions[id] == s.sessions[id] {
        UntouchedKept(s, step, id, s.sessions[id]);
      } else {
        TouchedKept(s, step, id);
      }
    }
  }

  lemma {:induction false} RunKeepsInv(now: int, steps: seq<Step>)
    ensures Inv(Run(Initial(now), steps))
  {
    if steps != [] {
      RunKeepsInv(now, steps[..|steps| - 1]);
      NextKeepsInv(Run(Initial(now), steps[..|steps| - 1]), steps[|steps| - 1]);
    }
  }

  // ----- What clients may rely on

  /** Every replay is the answer of one earlier execution of the same request by the same
      actor under the same key, with its body if that was JSON. */
  lemma ReplaysAreFaithful(now: int, steps: seq<Step>, id: RequestId)
    requires var s := Run(Initial(now), steps);
      id in s.sessions && s.sessions[id].Finished? && s.sessions[id].outcome.Replayed?
    ensures var s := Run(Initial(now), steps);
      exists o | o in s.sessions ::
        var x, y := s.sessions[id], s.sessions[o];
        && y.Finished? && y.outcome.Ran? && y.outcome.storing.Stored?
        && KeyOf(y.call) == KeyOf(x.call) && y.call.hash == x.call.hash
        && var r := y.outcome.response;
          x.outcome == Replayed(r.status, r.contentType, StoredBody(r))
  {
    hide Run, StoredBody;
    var s := Run(Initial(now), steps);
    RunKeepsInv(now, steps);
    var key := KeyOf(s.sessions[id].call);
    assert SessionOk(s, id, s.sessions[id]);
    assert RowOk(s, key);
    assert s.table[key].origin in s.sessions;
  }

  /** Two requests that both ran the handler under one key, neither looking after the row
      expired, both looked before that row was inserted: they raced. */
  lemma TwoExecutionsRaced(now: int, steps: seq<Step>, a: RequestId, b: RequestId, key: (string, string))
    requires var s := Run(Initial(now), steps);
      && key in s.table && a in s.sessions && b in s.sessions
      && KeyOf(s.sessions[a].call) == key && KeyOf(s.sessions[b].call) == key
      && MissOf(s.sessions[a]).Some? && MissOf(s.sessions[b]).Some?
      && !IsExpired(s.table[key].record, MissOf(s.sessions[a]).value.at)
      && !IsExpired(s.table[key].record, MissOf(s.sessions[b]).value.at)
    ensures var s := Run(Initial(now), steps);
      && MissOf(s.sessions[a]).value.step < s.table[key].step
      && MissOf(s.sessions[b]).value.step < s.table[key].step
  {
    hide Run;
    var s := Run(Initial(now), steps);
    RunKeepsInv(now, steps);
    assert SessionOk(s, a, s.sessions[a]) && SessionOk(s, b, s.sessions[b]);
  }

  /** And if a finished execution left no row at all, its store was skipped or dropped. */
  lemma NoRowMeansNotStored(now: int, steps: seq<Step>, a: RequestId)
    requires var s := Run(Initial(now), steps);
      && a in s.sessions && s.sessions[a].Finished? && s.sessions[a].outcome.Ran?
      && KeyOf(s.sessions[a].call) !in s.table
    ensures !Run(Initial(now), steps).sessions[a].outcome.storing.Stored?
  {
    hide Run;
    var s := Run(Initial(now), steps);
    RunKeepsInv(now, steps);
    assert SessionOk(s, a, s.sessions[a]);
  }

  // ----- An expired key is never honoured again

  lemma {:induction false} RunKeepsRows(s: State, steps: seq<Step>, key: (string, string))
    requires key in s.table
    ensures key in Run(s, steps).table && Run(s, steps).table[key] == s.table[key]
    ensures s.now <= Run(s, steps).now
  {
    if steps != [] {
      RunKeepsRows(s, steps[..|steps| - 1], key);
      StepKeepsRows(Run(s, steps[..|steps| - 1]), steps[|steps| - 1]);
    }
  }

  /** The expired row stays and blocks every later insert, so from then on every request
      under the key runs the handler and none is ever replayed. */
  lemma ExpiredKeyAlwaysRuns(s: State, steps: seq<Step>, id: RequestId, key: (string, string))
    requires key in s.table && IsExpired(s.table[key].record, s.now)
    requires var t := Run(s, steps);
      && id in t.sessions && t.sessions[id].Started? && KeyOf(t.sessions[id].call) == key
      && t.sessions[id].call.mutation && 0 < |key.1| <= KEY_MAX_LENGTH
    ensures Next(Run(s, steps), FindKey(id)).sessions[id].Executing?
    ensures key in Run(s, steps).table && Run(s, steps).table[key] == s.table[key]
  {
    RunKeepsRows(s, steps, key);
  }

  lemma RunSnoc(s: State, steps: seq<Step>, step: Step)
    ensures Run(s, []) == s && Run(s, steps + [step]) == Next(Run(s, steps), step)
  {
    assert (steps + [step])[..|steps|] == steps;
  }

  /** A day after its answer was stored the same request, sent again, runs the handler again, and its
      own answer is dropped: the row is still the first one. */
  lemma RunsAgainAfterADay(now: int, call: Call, r: Response, r': Response) returns (steps: seq<Step>)
    requires call.mutation && 0 < |call.key| <= KEY_MAX_LENGTH && r.status < 500 && r'.status < 500
    ensures var s := Run(Initial(now), steps);
      && 1 in s.sessions && s.sessions[1] == Finished(call, Ran(r, Miss(now, 1), Stored))
      && 2 in s.sessions && s.sessions[2] == Finished(call, Ran(r', Miss(now + TIME_TO_LIVE, 6), Dropped))
      && KeyOf(call) in s.table && s.table[KeyOf(call)].origin == 1
  {
    hide Run, RecordOf;
    steps := FirstDay(now, call, r);
    RunSnoc(Initial(now), steps, Begin(2, call));
    steps := steps + [Begin(2, call)];
    RunSnoc(Initial(now), steps, FindKey(2));
    steps := steps + [FindKey(2)];
    RunSnoc(Initial(now), steps, Execute(2, r'));
    steps := steps + [Execute(2, r')];
    RunSnoc(Initial(now), steps, Store(2, false));
    steps := steps + [Store(2, false)];
  }

  lemma FirstDay(now: int, call: Call, r: Response) returns (steps: seq<Step>)
    requires call.mutation && 0 < |call.key| <= KEY_MAX_LENGTH && r.status < 500
    ensures Run(Initial(now), steps) ==
      State(now + TIME_TO_LIVE, 5, map[KeyOf(call) := Entry(RecordOf(call, r, now), 3, 1)],
            map[1 := Finished(call, Ran(r, Miss(now, 1), Stored))])
    ensures RecordOf(call, r, now).expiresAt == now + TIME_TO_LIVE
  {
    hide Run, StoredBody;
    steps := [];
    RunSnoc(Initial(now), steps, Begin(1, call));
    steps := steps + [Begin(1, call)];
    RunSnoc(Initial(now), steps, FindKey(1));
    steps := steps + [FindKey(1)];
    RunSnoc(Initial(now), steps, Execute(1, r));
    steps := steps + [Execute(1, r)];
    RunSnoc(Initial(now), steps, Store(1, false));
    steps := steps + [Store(1, false)];
    RunSnoc(Initial(now), steps, Tick(TIME_TO_LIVE));
    steps := steps + [Tick(TIME_TO_LIVE)];
  }

  // ----- The middleware, one request from start to end

  class IdempotencyStore {
    var table: Table

    constructor ()
      ensures table == map[]
    {
      table := map[];
    }

    method FindAsync(actor: string, key: string, now: int) returns (record: Option<Record>)
      ensures record == Find(table, (actor, key), now)
    {
      if (actor, key) !in table {
        return None;
      }
      var found := table[(actor, key)].record;
      return if IsExpired(found, now) then None else Some(found);
    }

    method StoreAsync(record: Record, step: nat, origin: RequestId, fails: bool) returns (stored: bool)
      modifies this
      ensures stored <==> !fails && (record.actor, record.key) !in old(table)
      ensures table ==
        if stored then old(table)[(record.actor, record.key) := Entry(record, step, origin)] else old(table)
    {
      stored := false;
      if !fails && (record.actor, record.key) !in table {
        table := table[(record.actor, record.key) := Entry(record, step, origin)];
        stored := true;
      }
    }
  }

  /** Runs undisturbed, the request takes the lookup step and, unless that answered it, the
      execute and store steps. */
  method Invoke(store: IdempotencyStore, id: RequestId, call: Call, handler: Response,
                findAt: int, findStep: nat, storeAt: int, storeStep: nat, fails: bool) returns (outcome: Outcome)
    modifies store
    ensures var found := AfterFind(call, old(store.table), findAt, findStep);
      if found.Executing?
      then (store.table, Finished(call, outcome)) ==
           AfterStore(id, call, handler, found.miss, State(storeAt, storeStep, old(store.table), map[]), fails)
      else found == Finished(call, outcome) && store.table == old(store.table)
  {
    hide IsJson;
    if !call.mutation {
      return PassedThrough;
    }
    if |call.key| == 0 {
      return BadKey;
    }
    if |call.key| > KEY_MAX_LENGTH {
      return BadKey;
    }
    var existing := store.FindAsync(call.actor, call.key, findAt);
    if existing.Some? {
      var r := existing.value;
      if r.requestHash != call.hash {
        return Reused;
      }
      return Replayed(r.status, r.contentType, r.body);
    }
    var miss := Miss(findAt, findStep);
    if handler.status < 500 {
      var stored := store.StoreAsync(RecordOf(call, handler, storeAt), storeStep, id, fails);
      return Ran(handler, miss, if stored then Stored else Dropped);
    }
    return Ran(handler, miss, Skipped);
  }
}
