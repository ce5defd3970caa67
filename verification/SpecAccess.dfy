/** The spec store behind its first access: every call looks its state up, and a call that finds none
    awaits the tenant and sets a fresh copy. Saves, restores and reads interleave at every await. */
module SpecAccess {
  import opened Common
  import opened FirstAccess
  import opened SpecStore

  /** A restore becomes a save; from is the copy whose version it restores. */
  datatype Request =
    | SaveCall(q: Save, from: Option<nat>)
    | RestoreCall(generation: int, key: string, author: string, now: int)
    | ReadCall

  datatype Session =
    | Missed(req: Request)
    | Holds(req: Request, copy: nat)
    | Waits(q: Save, copy: nat, generation: int)
    | Saved(q: Save, copy: nat, generation: int, runId: string)
    | Answered(req: Request, answer: Answer)
    | Shown(copy: nat)

  /** moves is history: the seedings, appends and recordings so far. */
  datatype World = World(site: Site<State>, sessions: map<nat, Session>, moves: seq<Move<Event>>)

  const INITIAL: World := World(Site([], None), map[], [])

  /** Seed carries whether the tenant was found. */
  datatype Step =
    | CallSave(id: nat, q: Save)
    | CallRestore(id: nat, generation: int, key: string, author: string, now: int)
    | CallRead(id: nat)
    | Seed(id: nat, found: bool)
    | Go(id: nat)
    | Record(id: nat, runId: string)

  function Look(site: Site<State>, req: Request): Session {
    match site.entry
    case None => Missed(req)
    case Some(c) => Holds(req, c)
  }

  function Become(w: World, id: nat, x: Session): World { w.(sessions := w.sessions[id := x]) }

  function Act(env: Env, seed: State, w: World, m: Move<Event>, id: nat, x: Session): World {
    World(Moved(Applier(env), seed, w.site, m), w.sessions[id := x], w.moves + [m])
  }

  /** A restore reports a refused save as 404 or 400. */
  function Reported(from: Option<nat>, a: Answer): Answer {
    if from.Some? && a.Refused? then Refused(RestoreStatus(a.status)) else a
  }

  /** The stretch of a call that holds its copy, up to its next await. */
  function Proceed(env: Env, seed: State, w: World, id: nat, req: Request, c: nat): World
    requires c < |w.site.copies|
  {
    match req
    case RestoreCall(g, key, author, now) =>
      (match StartRestore(w.site.copies[c], g, key, author, now)
       case Stop(status) => Become(w, id, Answered(req, Refused(status)))
       case Starts(q) => Become(w, id, Look(w.site, SaveCall(q, Some(c)))))
    case ReadCall => Become(w, id, Shown(c))
    case SaveCall(q, from) =>
      var a := Begin(env, w.site.copies[c], q).1;
      if a.Appended? then Act(env, seed, w, Acts(c, Begins(q)), id, Waits(q, c, a.generation))
      else Become(w, id, Answered(req, Reported(from, a)))
  }

  function Next(env: Env, seed: State, w: World, step: Step): World {
    if step.id !in w.sessions && (step.Seed? || step.Go? || step.Record?) then w
    else match step
      case CallSave(id, q) => if id in w.sessions then w else Become(w, id, Look(w.site, SaveCall(q, None)))
      case CallRestore(id, g, key, author, now) =>
        if id in w.sessions then w else Become(w, id, Look(w.site, RestoreCall(g, key, author, now)))
      case CallRead(id) => if id in w.sessions then w else Become(w, id, Look(w.site, ReadCall))
      case Seed(id, found) =>
        var x := w.sessions[id];
        if !x.Missed? then w
        else if !found then Become(w, id, Answered(x.req, Refused(404)))
        else Act(env, seed, w, Seeds, id, Holds(x.req, |w.site.copies|))
      case Go(id) =>
        var x := w.sessions[id];
        if x.Holds? && x.copy < |w.site.copies| then Proceed(env, seed, w, id, x.req, x.copy) else w
      case Record(id, runId) =>
        var x := w.sessions[id];
        if !x.Waits? then w
        else Act(env, seed, w, Acts(x.copy, Finishes(x.generation, runId)), id, Saved(x.q, x.copy, x.generation, runId))
  }

  function Run(env: Env, seed: State, w: World, steps: seq<Step>): World {
    if steps == [] then w else Next(env, seed, Run(env, seed, w, steps[..|steps| - 1]), steps[|steps| - 1])
  }

  // ----- What every step keeps

  ghost predicate SeedOk(env: Env, seed: State) {
    Listed(env, seed) && seed.byKey == map[] && seed.inFlight == map[]
  }

  /** The copy's generation g is what q saved. */
  ghost predicate HasSave(env: Env, s: State, g: int, q: Save) {
    && 1 <= g <= s.current == |s.versions|
    && var v := Content(s, g);
      v.body == q.body && v.hash == env.hash(q.body) && v.author == q.author && v.createdAt == q.now
  }

  /** A restore's save carries the body its copy has at the restored generation. */
  ghost predicate RequestOk(site: Site<State>, req: Request) {
    req.SaveCall? && req.from.Some? ==>
      && req.from.value < |site.copies| && req.q.restoreOf.Some? && req.q.ifMatch.Some?
      && var s, g := site.copies[req.from.value], req.q.restoreOf.value;
        && 1 <= g <= s.current == |s.versions| && g < req.q.ifMatch.value
        && req.q.body == Content(s, g).body
  }

  ghost predicate SessionOk(env: Env, seed: State, site: Site<State>, x: Session) {
    match x
    case Missed(req) => RequestOk(site, req)
    case Holds(req, c) =>
      c < |site.copies| && RequestOk(site, req) && (req.SaveCall? && req.from.Some? ==> req.from.value <= c)
    case Waits(q, c, g) =>
      && c < |site.copies| && g > seed.current && HasSave(env, site.copies[c], g, q)
      && g in site.copies[c].inFlight && site.copies[c].inFlight[g] == q.key
    case Saved(q, c, g, _) =>
      c < |site.copies| && g > seed.current && HasSave(env, site.copies[c], g, q) && q.key in site.copies[c].byKey
    case Answered(_, _) => true
    case Shown(c) => c < |site.copies|
  }

  /** Two suspended saves never share a version. */
  ghost predicate Apart(x: Session, y: Session) {
    x.Waits? && y.Waits? ==> x.copy != y.copy || x.generation != y.generation
  }

  /** This save recorded the response under its key. */
  predicate RecordedBy(x: Session, c: nat, key: string, r: Response) {
    x.Saved? && x.copy == c && x.q.key == key && r == Response(x.generation, x.runId)
  }

  ghost predicate Recorded(w: World, c: nat, key: string)
    requires c < |w.site.copies| && key in w.site.copies[c].byKey
  {
    exists id | id in w.sessions :: RecordedBy(w.sessions[id], c, key, w.site.copies[c].byKey[key])
  }

  ghost predicate CopyOk(env: Env, seed: State, s: State) { SpecStore.Inv(env, s) && Keeps(seed, s) }

  ghost predicate SiteOk(env: Env, seed: State, w: World) {
    && w.site == MovedAll(Applier(env), seed, w.moves) && Lawful(w.moves)
    && (forall c | 0 <= c < |w.site.copies| :: CopyOk(env, seed, w.site.copies[c]))
  }

  ghost predicate SessionsOk(env: Env, seed: State, w: World) {
    && (forall id | id in w.sessions :: SessionOk(env, seed, w.site, w.sessions[id]))
    && (forall a, b | a in w.sessions && b in w.sessions && a != b :: Apart(w.sessions[a], w.sessions[b]))
  }

  ghost predicate AnswersOk(w: World) {
    forall c, k | 0 <= c < |w.site.copies| && k in w.site.copies[c].byKey :: Recorded(w, c, k)
  }

  ghost predicate Inv(env: Env, seed: State, w: World) {
    SiteOk(env, seed, w) && SessionsOk(env, seed, w) && AnswersOk(w)
  }

  ghost predicate SiteKeeps(s: Site<State>, t: Site<State>) {
    |s.copies| <= |t.copies| && forall c | 0 <= c < |s.copies| :: Keeps(s.copies[c], t.copies[c])
  }

  /** A move on an existing copy. */
  ghost predicate Fits(site: Site<State>, m: Move<Event>) { m.Acts? ==> m.copy < |site.copies| }

  lemma SiteAfter(env: Env, seed: State, w: World, m: Move<Event>, id: nat, x: Session)
    requires SeedOk(env, seed) && SiteOk(env, seed, w) && Fits(w.site, m)
    ensures SiteOk(env, seed, Act(env, seed, w, m, id, x)) && SiteKeeps(w.site, Act(env, seed, w, m, id, x).site)
  {
    var t := Act(env, seed, w, m, id, x);
    EntryIsLast(Applier(env), seed, w.moves);
    assert t.moves[..|t.moves| - 1] == w.moves;
    hide SpecStore.Inv, Keeps, MovedAll, Lawful, Seedings;
    forall c | 0 <= c < |t.site.copies|
      ensures CopyOk(env, seed, t.site.copies[c]) && (c < |w.site.copies| ==> Keeps(w.site.copies[c], t.site.copies[c]))
    {
      if c == |w.site.copies| {
        SeedIsOk(env, seed);
      } else {
        assert CopyOk(env, seed, w.site.copies[c]);
        CopyAfter(env, seed, w.site.copies[c], m);
      }
    }
    SnocMoves(env, seed, w, m);
  }

  lemma SeedIsOk(env: Env, seed: State)
    requires SeedOk(env, seed)
    ensures CopyOk(env, seed, seed)
  {
  }

  lemma SnocMoves(env: Env, seed: State, w: World, m: Move<Event>)
    requires w.site == MovedAll(Applier(env), seed, w.moves) && Lawful(w.moves) && Fits(w.site, m)
    ensures Moved(Applier(env), seed, w.site, m) == MovedAll(Applier(env), seed, w.moves + [m]) && Lawful(w.moves + [m])
  {
    EntryIsLast(Applier(env), seed, w.moves);
    assert (w.moves + [m])[..|w.moves|] == w.moves;
  }

  lemma CopyAfter(env: Env, seed: State, s: State, m: Move<Event>)
    requires CopyOk(env, seed, s)
    ensures Keeps(s, s)
    ensures m.Acts? ==> CopyOk(env, seed, After(env, s, m.event)) && Keeps(s, After(env, s, m.event))
  {
    KeepsRefl(env, s);
    hide SpecStore.Inv, Keeps, After;
    if m.Acts? {
      EventKeeps(env, s, m.event);
      KeepsTrans(seed, s, After(env, s, m.event));
    }
  }

  lemma HasSaveKept(env: Env, s: State, t: State, g: int, q: Save)
    requires HasSave(env, s, g, q) && Keeps(s, t)
    ensures HasSave(env, t, g, q)
  {
  }

  lemma RequestKept(s: Site<State>, t: Site<State>, req: Request)
    requires RequestOk(s, req) && SiteKeeps(s, t)
    ensures RequestOk(t, req)
  {
    if req.SaveCall? && req.from.Some? {
      var c, g := req.from.value, req.q.restoreOf.value;
      assert Keeps(s.copies[c], t.copies[c]);
      assert Content(t.copies[c], g) == Content(s.copies[c], g);
      hide Keeps;
    }
  }

  /** An event other than its own recording leaves a suspended save suspended. */
  lemma StillSuspended(env: Env, s: State, e: Event, g: int)
    requires SpecStore.Inv(env, s) && g in s.inFlight && !(e.Finishes? && e.generation == g)
    ensures g in After(env, s, e).inFlight && After(env, s, e).inFlight[g] == s.inFlight[g]
  {
    hide AppliedBody, Restatus, NewVersion;
  }

  lemma SessionMoved(env: Env, seed: State, w: World, m: Move<Event>, id: nat, x: Session, y: Session)
    requires SeedOk(env, seed) && SiteOk(env, seed, w) && Fits(w.site, m) && SessionOk(env, seed, w.site, y)
    requires !(m.Acts? && m.event.Finishes? && y.Waits? && y.copy == m.copy && y.generation == m.event.generation)
    ensures SessionOk(env, seed, Act(env, seed, w, m, id, x).site, y)
  {
    SiteAfter(env, seed, w, m, id, x);
    var t := Act(env, seed, w, m, id, x);
    hide SiteOk, HasSave, RequestOk, SeedOk;
    if y.Missed? || y.Holds? {
      RequestKept(w.site, t.site, y.req);
    } else if y.Waits? || y.Saved? {
      assert Keeps(w.site.copies[y.copy], t.site.copies[y.copy]);
      HasSaveKept(env, w.site.copies[y.copy], t.site.copies[y.copy], y.generation, y.q);
      if y.Waits? && m.Acts? && m.copy == y.copy {
        CopyIsValid(env, seed, w, y.copy);
        StillSuspended(env, w.site.copies[y.copy], m.event, y.generation);
      }
      GrownFrom(w.site.copies[y.copy], t.site.copies[y.copy]);
      hide Keeps, After;
    }
  }

  lemma CopyIsValid(env: Env, seed: State, w: World, c: nat)
    requires SiteOk(env, seed, w) && c < |w.site.copies|
    ensures SpecStore.Inv(env, w.site.copies[c]) && Keeps(seed, w.site.copies[c])
  {
  }

  /** The session of a call that has not recorded a response may change. */
  ghost predicate Unsaved(w: World, id: nat) { id in w.sessions ==> !w.sessions[id].Saved? }

  lemma BecomeKeeps(env: Env, seed: State, w: World, id: nat, x: Session)
    requires Inv(env, seed, w) && Unsaved(w, id) && SessionOk(env, seed, w.site, x) && !x.Waits?
    ensures Inv(env, seed, Become(w, id, x))
  {
    hide SessionOk, CopyOk, MovedAll, Lawful;
    var t := Become(w, id, x);
    forall c, k | 0 <= c < |t.site.copies| && k in t.site.copies[c].byKey ensures Recorded(t, c, k) {
      RecordedStays(w, t, c, k, id);
    }
  }

  /** What another call recorded stays recorded. */
  lemma RecordedStays(w: World, t: World, c: nat, k: string, id: nat)
    requires c < |w.site.copies| && c < |t.site.copies| && k in w.site.copies[c].byKey && k in t.site.copies[c].byKey
    requires w.site.copies[c].byKey[k] == t.site.copies[c].byKey[k]
    requires Recorded(w, c, k) && Unsaved(w, id)
    requires forall o | o in w.sessions && o != id :: o in t.sessions && t.sessions[o] == w.sessions[o]
    ensures Recorded(t, c, k)
  {
    var o :| o in w.sessions && RecordedBy(w.sessions[o], c, k, w.site.copies[c].byKey[k]);
    assert o in t.sessions && RecordedBy(t.sessions[o], c, k, t.site.copies[c].byKey[k]);
  }

  lemma SessionsAfter(env: Env, seed: State, w: World, m: Move<Event>, id: nat, x: Session)
    requires SeedOk(env, seed) && Inv(env, seed, w) && Fits(w.site, m)
    requires SessionOk(env, seed, Act(env, seed, w, m, id, x).site, x)
    requires forall o | o in w.sessions && o != id :: Apart(x, w.sessions[o]) && Apart(w.sessions[o], x)
    requires m.Acts? && m.event.Finishes? ==>
      forall o | o in w.sessions && o != id && w.sessions[o].Waits? ::
        w.sessions[o].copy != m.copy || w.sessions[o].generation != m.event.generation
    ensures SessionsOk(env, seed, Act(env, seed, w, m, id, x))
  {
    var t := Act(env, seed, w, m, id, x);
    forall o | o in t.sessions ensures SessionOk(env, seed, t.site, t.sessions[o]) {
      if o != id { SessionMoved(env, seed, w, m, id, x, w.sessions[o]); }
    }
    hide SessionOk, Moved;
  }

  /** An answer of the next state was there before, or is the one this call records. */
  ghost predicate AnswerFrom(s: Site<State>, t: Site<State>, c: nat, k: string, x: Session)
    requires c < |t.copies| && k in t.copies[c].byKey
  {
    || (c < |s.copies| && k in s.copies[c].byKey && s.copies[c].byKey[k] == t.copies[c].byKey[k])
    || RecordedBy(x, c, k, t.copies[c].byKey[k])
  }

  lemma AnswersAfter(w: World, t: World, id: nat)
    requires AnswersOk(w) && Unsaved(w, id) && id in t.sessions
    requires forall o | o in w.sessions && o != id :: o in t.sessions && t.sessions[o] == w.sessions[o]
    requires forall c, k | 0 <= c < |t.site.copies| && k in t.site.copies[c].byKey ::
      AnswerFrom(w.site, t.site, c, k, t.sessions[id])
    ensures AnswersOk(t)
  {
    forall c, k | 0 <= c < |t.site.copies| && k in t.site.copies[c].byKey ensures Recorded(t, c, k) {
      assert AnswerFrom(w.site, t.site, c, k, t.sessions[id]);
      if !RecordedBy(t.sessions[id], c, k, t.site.copies[c].byKey[k]) { RecordedStays(w, t, c, k, id); }
    }
  }

  lemma SeedKeeps(env: Env, seed: State, w: World, id: nat, req: Request)
    requires SeedOk(env, seed) && Inv(env, seed, w) && id in w.sessions && w.sessions[id] == Missed(req)
    ensures Inv(env, seed, Act(env, seed, w, Seeds, id, Holds(req, |w.site.copies|)))
  {
    var x := Holds(req, |w.site.copies|);
    var t := Act(env, seed, w, Seeds, id, x);
    SiteAfter(env, seed, w, Seeds, id, x);
    SeededSession(env, seed, w, id, req);
    hide SessionOk, SiteOk;
    SessionsAfter(env, seed, w, Seeds, id, x);
    AnswersAfter(w, t, id);
  }

  lemma SeededSession(env: Env, seed: State, w: World, id: nat, req: Request)
    requires SeedOk(env, seed) && Inv(env, seed, w) && id in w.sessions && w.sessions[id] == Missed(req)
    ensures var x := Holds(req, |w.site.copies|); SessionOk(env, seed, Act(env, seed, w, Seeds, id, x).site, x)
  {
    var x := Holds(req, |w.site.copies|);
    SiteAfter(env, seed, w, Seeds, id, x);
    assert SessionOk(env, seed, w.site, Missed(req));
    RequestKept(w.site, Act(env, seed, w, Seeds, id, x).site, req);
    hide SiteOk, Keeps;
  }

  /** The version a save appends. */
  lemma AppendedHas(env: Env, s: State, q: Save)
    requires SpecStore.Inv(env, s) && Begin(env, s, q).1.Appended?
    ensures var t, g := Begin(env, s, q).0, Begin(env, s, q).1.generation;
      && g == s.current + 1 && HasSave(env, t, g, q) && g in t.inFlight && t.inFlight[g] == q.key
      && t.byKey == s.byKey
  {
    hide AppliedBody, SummaryOf, StatusOf;
  }

  lemma AppendedSession(env: Env, seed: State, w: World, id: nat, q: Save, c: nat)
    requires SiteOk(env, seed, w) && c < |w.site.copies| && Begin(env, w.site.copies[c], q).1.Appended?
    ensures var x := Waits(q, c, w.site.copies[c].current + 1);
      var t := Act(env, seed, w, Acts(c, Begins(q)), id, x);
      && Begin(env, w.site.copies[c], q).1.generation == x.generation
      && SessionOk(env, seed, t.site, x) && t.site.copies[c].byKey == w.site.copies[c].byKey
  {
    CopyIsValid(env, seed, w, c);
    AppendedHas(env, w.site.copies[c], q);
    GrownFrom(seed, w.site.copies[c]);
    hide SiteOk, Begin, HasSave, Keeps, SpecStore.Inv;
  }

  lemma GrownFrom(s: State, t: State)
    requires Keeps(s, t)
    ensures s.current <= t.current && s.byKey.Keys <= t.byKey.Keys
  {
  }

  /** A new version is no other call's. */
  lemma NewIsApart(env: Env, seed: State, site: Site<State>, c: nat, q: Save, y: Session)
    requires SessionOk(env, seed, site, y) && c < |site.copies|
    ensures var x := Waits(q, c, site.copies[c].current + 1); Apart(x, y) && Apart(y, x)
  {
  }

  lemma AppendStep(env: Env, seed: State, w: World, id: nat, q: Save, from: Option<nat>, c: nat)
    requires SeedOk(env, seed) && Inv(env, seed, w) && id in w.sessions && w.sessions[id] == Holds(SaveCall(q, from), c)
    requires c < |w.site.copies| && Begin(env, w.site.copies[c], q).1.Appended?
    ensures Inv(env, seed, Proceed(env, seed, w, id, SaveCall(q, from), c))
  {
    AppendedSession(env, seed, w, id, q, c);
    hide SessionOk, SiteOk, Begin, Apart;
    var x, m := Waits(q, c, w.site.copies[c].current + 1), Acts(c, Begins(q));
    SiteAfter(env, seed, w, m, id, x);
    forall o | o in w.sessions && o != id ensures Apart(x, w.sessions[o]) && Apart(w.sessions[o], x) {
      NewIsApart(env, seed, w.site, c, q, w.sessions[o]);
    }
    SessionsAfter(env, seed, w, m, id, x);
    AnswersAfter(w, Act(env, seed, w, m, id, x), id);
  }

  lemma RecordedSession(env: Env, seed: State, w: World, id: nat, q: Save, c: nat, g: int, runId: string)
    requires SeedOk(env, seed) && SiteOk(env, seed, w) && SessionOk(env, seed, w.site, Waits(q, c, g))
    ensures var x := Saved(q, c, g, runId);
      var t := Act(env, seed, w, Acts(c, Finishes(g, runId)), id, x);
      SessionOk(env, seed, t.site, x) && t.site.copies[c].byKey == w.site.copies[c].byKey[q.key := Response(g, runId)]
  {
    var x, m := Saved(q, c, g, runId), Acts(c, Finishes(g, runId));
    SiteAfter(env, seed, w, m, id, x);
    var s, t := w.site.copies[c], Act(env, seed, w, m, id, x).site.copies[c];
    assert Keeps(s, t);
    HasSaveKept(env, s, t, g, q);
    hide SiteOk, Keeps, HasSave, SeedOk;
  }

  lemma RecordStep(env: Env, seed: State, w: World, id: nat, q: Save, c: nat, g: int, runId: string)
    requires SeedOk(env, seed) && Inv(env, seed, w) && id in w.sessions && w.sessions[id] == Waits(q, c, g)
    ensures Inv(env, seed, Act(env, seed, w, Acts(c, Finishes(g, runId)), id, Saved(q, c, g, runId)))
  {
    var x, m := Saved(q, c, g, runId), Acts(c, Finishes(g, runId));
    assert SessionOk(env, seed, w.site, w.sessions[id]);
    assert c < |w.site.copies|;
    RecordedSession(env, seed, w, id, q, c, g, runId);
    hide SessionOk, SiteOk, After;
    SiteAfter(env, seed, w, m, id, x);
    forall o | o in w.sessions && o != id && w.sessions[o].Waits?
      ensures w.sessions[o].copy != c || w.sessions[o].generation != g
    {
      assert Apart(w.sessions[id], w.sessions[o]);
    }
    SessionsAfter(env, seed, w, m, id, x);
    AnswersAfter(w, Act(env, seed, w, m, id, x), id);
  }

  lemma ProceedKeeps(env: Env, seed: State, w: World, id: nat, req: Request, c: nat)
    requires SeedOk(env, seed) && Inv(env, seed, w) && id in w.sessions && w.sessions[id] == Holds(req, c)
    requires c < |w.site.copies|
    ensures Inv(env, seed, Proceed(env, seed, w, id, req, c))
  {
    match req
    case SaveCall(q, from) =>
      if Begin(env, w.site.copies[c], q).1.Appended? {
        AppendStep(env, seed, w, id, q, from, c);
      } else {
        BecomeKeeps(env, seed, w, id, Answered(req, Reported(from, Begin(env, w.site.copies[c], q).1)));
      }
    case ReadCall => BecomeKeeps(env, seed, w, id, Shown(c));
    case RestoreCall(g, key, author, now) =>
      match StartRestore(w.site.copies[c], g, key, author, now) {
        case Stop(status) => BecomeKeeps(env, seed, w, id, Answered(req, Refused(status)));
        case Starts(q) =>
          RestoreLooks(env, seed, w, c, g, key, author, now);
          BecomeKeeps(env, seed, w, id, Look(w.site, SaveCall(q, Some(c))));
      }
  }

  lemma RestoreLooks(env: Env, seed: State, w: World, c: nat, g: int, key: string, author: string, now: int)
    requires SiteOk(env, seed, w) && c < |w.site.copies| && StartRestore(w.site.copies[c], g, key, author, now).Starts?
    ensures var q := StartRestore(w.site.copies[c], g, key, author, now).save;
      var x := Look(w.site, SaveCall(q, Some(c))); SessionOk(env, seed, w.site, x) && x.Holds?
  {
    CopyIsValid(env, seed, w, c);
    StartsExactlyWhen(env, w.site.copies[c], g, key, author, now);
    EntryIsLast(Applier(env), seed, w.moves);
    hide SiteOk, StartRestore, Keeps;
  }

  lemma LookIsOk(env: Env, seed: State, w: World, req: Request)
    requires SiteOk(env, seed, w) && (req.SaveCall? ==> req.from.None?)
    ensures SessionOk(env, seed, w.site, Look(w.site, req)) && !Look(w.site, req).Waits?
  {
    EntryIsLast(Applier(env), seed, w.moves);
  }

  lemma NextKeepsInv(env: Env, seed: State, w: World, step: Step)
    requires SeedOk(env, seed) && Inv(env, seed, w)
    ensures Inv(env, seed, Next(env, seed, w, step))
  {
    hide Inv, Proceed, Act, Become, SessionOk, SeedOk;
    match step
    case CallSave(id, q) => if id !in w.sessions { CallKeeps(env, seed, w, id, SaveCall(q, None)); }
    case CallRestore(id, g, key, author, now) =>
      if id !in w.sessions { CallKeeps(env, seed, w, id, RestoreCall(g, key, author, now)); }
    case CallRead(id) => if id !in w.sessions { CallKeeps(env, seed, w, id, ReadCall); }
    case Seed(id, found) =>
      if id in w.sessions && w.sessions[id].Missed? {
        SeedKeeps(env, seed, w, id, w.sessions[id].req);
        NoTenantKeeps(env, seed, w, id);
      }
    case Go(id) =>
      if id in w.sessions && w.sessions[id].Holds? && w.sessions[id].copy < |w.site.copies| {
        ProceedKeeps(env, seed, w, id, w.sessions[id].req, w.sessions[id].copy);
      }
    case Record(id, runId) =>
      if id in w.sessions && w.sessions[id].Waits? {
        var x := w.sessions[id];
        RecordStep(env, seed, w, id, x.q, x.copy, x.generation, runId);
      }
  }

  lemma CallKeeps(env: Env, seed: State, w: World, id: nat, req: Request)
    requires Inv(env, seed, w) && id !in w.sessions && (req.SaveCall? ==> req.from.None?)
    ensures Inv(env, seed, Become(w, id, Look(w.site, req)))
  {
    LookIsOk(env, seed, w, req);
    BecomeKeeps(env, seed, w, id, Look(w.site, req));
  }

  lemma NoTenantKeeps(env: Env, seed: State, w: World, id: nat)
    requires Inv(env, seed, w) && id in w.sessions && w.sessions[id].Missed?
    ensures Inv(env, seed, Become(w, id, Answered(w.sessions[id].req, Refused(404))))
  {
    BecomeKeeps(env, seed, w, id, Answered(w.sessions[id].req, Refused(404)));
  }

  lemma {:induction false} RunKeepsInv(env: Env, seed: State, w: World, steps: seq<Step>)
    requires SeedOk(env, seed) && Inv(env, seed, w)
    ensures Inv(env, seed, Run(env, seed, w, steps))
  {
    hide Inv, SeedOk, Next;
    if steps != [] {
      RunKeepsInv(env, seed, w, steps[..|steps| - 1]);
      NextKeepsInv(env, seed, Run(env, seed, w, steps[..|steps| - 1]), steps[|steps| - 1]);
    }
  }

  /** What a run from the start can lead to. */
  ghost predicate Reachable(env: Env, seed: State, w: World) { exists steps :: w == Run(env, seed, INITIAL, steps) }

  lemma ReachableInv(env: Env, seed: State, w: World)
    requires SeedOk(env, seed) && Reachable(env, seed, w)
    ensures Inv(env, seed, w)
  {
    var steps :| w == Run(env, seed, INITIAL, steps);
    RunKeepsInv(env, seed, INITIAL, steps);
  }
}
