/** What calls may rely on once first accesses can overlap. */
module SpecAccessTheorems {
  import opened Common
  import opened FirstAccess
  import opened SpecStore
  import opened SpecAccess

  /** The state the next lookup finds. */
  function Visible(w: World): State
    requires w.site.entry.Some? && w.site.entry.value < |w.site.copies|
  {
    w.site.copies[w.site.entry.value]
  }

  lemma EntryFacts(env: Env, seed: State, w: World)
    requires SiteOk(env, seed, w)
    ensures |w.site.copies| == Seedings(w.moves)
    ensures w.site.entry == if w.site.copies == [] then None else Some(|w.site.copies| - 1)
  {
    EntryIsLast(Applier(env), seed, w.moves);
  }

  // ----- Every copy is kept

  lemma SameSiteKeeps(env: Env, seed: State, w: World)
    requires SiteOk(env, seed, w)
    ensures SiteKeeps(w.site, w.site)
  {
    forall c | 0 <= c < |w.site.copies| ensures Keeps(w.site.copies[c], w.site.copies[c]) {
      CopyIsValid(env, seed, w, c);
      KeepsRefl(env, w.site.copies[c]);
    }
  }

  lemma SiteKeepsTrans(s: Site<State>, t: Site<State>, u: Site<State>)
    requires SiteKeeps(s, t) && SiteKeeps(t, u)
    ensures SiteKeeps(s, u)
  {
    forall c | 0 <= c < |s.copies| ensures Keeps(s.copies[c], u.copies[c]) {
      KeepsTrans(s.copies[c], t.copies[c], u.copies[c]);
    }
  }

  lemma NextKeepsCopies(env: Env, seed: State, w: World, step: Step)
    requires SeedOk(env, seed) && SpecAccess.Inv(env, seed, w)
    ensures SiteKeeps(w.site, Next(env, seed, w, step).site)
  {
    SameSiteKeeps(env, seed, w);
    var t := Next(env, seed, w, step);
    if t.moves != w.moves {
      var x := w.sessions[step.id];
      assert SessionOk(env, seed, w.site, x);
      hide SeedOk, SiteOk, SiteKeeps, Begin, Moved;
      SiteAfter(env, seed, w, t.moves[|w.moves|], step.id, t.sessions[step.id]);
    }
  }

  lemma {:induction false} RunKeepsCopies(env: Env, seed: State, w: World, steps: seq<Step>)
    requires SeedOk(env, seed) && SpecAccess.Inv(env, seed, w)
    ensures SpecAccess.Inv(env, seed, Run(env, seed, w, steps)) && SiteKeeps(w.site, Run(env, seed, w, steps).site)
  {
    hide SpecAccess.Inv, SeedOk, Next, SiteKeeps;
    RunKeepsInv(env, seed, w, steps);
    if steps == [] {
      InvSite(env, seed, w);
      SameSiteKeeps(env, seed, w);
    } else {
      var before := Run(env, seed, w, steps[..|steps| - 1]);
      RunKeepsCopies(env, seed, w, steps[..|steps| - 1]);
      NextKeepsCopies(env, seed, before, steps[|steps| - 1]);
      SiteKeepsTrans(w.site, before.site, Run(env, seed, w, steps).site);
    }
  }

  lemma InvSite(env: Env, seed: State, w: World)
    requires SpecAccess.Inv(env, seed, w)
    ensures SiteOk(env, seed, w)
  {
  }

  // ----- The visible state

  /** No call is still awaiting the tenant after finding no entry. */
  ghost predicate NoneSeeding(w: World) { forall id | id in w.sessions :: !w.sessions[id].Missed? }

  lemma StaysSeeded(env: Env, seed: State, w: World, step: Step)
    requires w.site.entry.Some? && NoneSeeding(w)
    ensures var t := Next(env, seed, w, step); NoneSeeding(t) && t.site.entry == w.site.entry
  {
    hide Begin, StartRestore;
  }

  lemma {:induction false} EntryStays(env: Env, seed: State, w: World, steps: seq<Step>)
    requires w.site.entry.Some? && NoneSeeding(w)
    ensures var t := Run(env, seed, w, steps); NoneSeeding(t) && t.site.entry == w.site.entry
  {
    hide Next, NoneSeeding;
    if steps != [] {
      EntryStays(env, seed, w, steps[..|steps| - 1]);
      StaysSeeded(env, seed, Run(env, seed, w, steps[..|steps| - 1]), steps[|steps| - 1]);
    }
  }

  /** An answer means a version beyond the seed. */
  lemma AnsweredIsLater(env: Env, seed: State, w: World, c: nat)
    requires SpecAccess.Inv(env, seed, w) && c < |w.site.copies|
    ensures w.site.copies[c].byKey != map[] ==> seed.current < w.site.copies[c].current
  {
    var u := w.site.copies[c];
    if u.byKey != map[] {
      var k :| k in u.byKey;
      assert Recorded(w, c, k);
      var id :| id in w.sessions && RecordedBy(w.sessions[id], c, k, u.byKey[k]);
      assert SessionOk(env, seed, w.site, w.sessions[id]);
    }
  }

  /** A copy nobody has appended to says no more than any other copy. */
  lemma UntouchedIsKept(env: Env, seed: State, w: World, c: nat, s: State)
    requires SpecAccess.Inv(env, seed, w) && c < |w.site.copies| && w.site.copies[c].current == seed.current
    requires Keeps(seed, s)
    ensures Keeps(w.site.copies[c], s)
  {
    var u := w.site.copies[c];
    CopyIsValid(env, seed, w, c);
    AnsweredIsLater(env, seed, w, c);
    hide SiteOk, SessionsOk, AnswersOk;
    assert forall g | 1 <= g <= u.current :: Content(u, g) == Content(seed, g);
  }

  ghost predicate KeepsVisible(env: Env, seed: State, w: World, steps: seq<Step>)
    requires w.site.entry.Some? && w.site.entry.value < |w.site.copies|
  {
    var t := Run(env, seed, w, steps);
    t.site.entry.Some? && t.site.entry.value < |t.site.copies| && Keeps(Visible(w), Visible(t))
  }

  /** Every continuation keeps the visible versions and final answers, exactly when no call is still
      seeding or nobody has appended to the visible copy yet. */
  lemma EveryRunKeepsIff(env: Env, seed: State, w: World)
    requires SeedOk(env, seed) && Reachable(env, seed, w) && w.site.copies != []
    ensures w.site.entry == Some(|w.site.copies| - 1)
    ensures (forall steps :: KeepsVisible(env, seed, w, steps)) <==>
            (NoneSeeding(w) || Visible(w).current == seed.current)
  {
    hide Run, SeedOk, Reachable;
    ReachableInv(env, seed, w);
    EntryFacts(env, seed, w);
    if NoneSeeding(w) || Visible(w).current == seed.current {
      forall steps ensures KeepsVisible(env, seed, w, steps) {
        VisibleKept(env, seed, w, steps);
      }
    } else {
      var id :| id in w.sessions && w.sessions[id].Missed?;
      RunSnoc(env, seed, w, [], Seed(id, true));
      assert [] + [Seed(id, true)] == [Seed(id, true)];
      SeededOver(env, seed, w, id);
      assert !KeepsVisible(env, seed, w, [Seed(id, true)]);
    }
  }

  /** A seeding shows the bare seed again. */
  lemma SeededOver(env: Env, seed: State, w: World, id: nat)
    requires SpecAccess.Inv(env, seed, w) && id in w.sessions && w.sessions[id].Missed?
    requires w.site.entry.Some? && w.site.entry.value < |w.site.copies| && Visible(w).current != seed.current
    ensures var t := Next(env, seed, w, Seed(id, true));
      t.site.entry == Some(|w.site.copies|) && |t.site.copies| == |w.site.copies| + 1 && Visible(t) == seed
      && !Keeps(Visible(w), Visible(t))
  {
    CopyIsValid(env, seed, w, w.site.entry.value);
  }

  lemma VisibleKept(env: Env, seed: State, w: World, steps: seq<Step>)
    requires SeedOk(env, seed) && SpecAccess.Inv(env, seed, w)
    requires w.site.entry.Some? && w.site.entry.value < |w.site.copies|
    requires NoneSeeding(w) || Visible(w).current == seed.current
    ensures KeepsVisible(env, seed, w, steps)
  {
    var t := Run(env, seed, w, steps);
    RunKeepsCopies(env, seed, w, steps);
    EntryFacts(env, seed, t);
    if NoneSeeding(w) {
      EntryStays(env, seed, w, steps);
    } else {
      CopyIsValid(env, seed, t, t.site.entry.value);
      UntouchedIsKept(env, seed, w, w.site.entry.value, Visible(t));
    }
    hide SpecAccess.Inv, Keeps, Run;
  }

  /** The visible state is built by the appends and recordings made on its copy; these are all that were
      ever made exactly when no seeding replaced a copy on which a save appended, before or after. */
  lemma VisibleIsBuiltByAllIff(env: Env, seed: State, w: World)
    requires SeedOk(env, seed) && Reachable(env, seed, w) && w.site.copies != []
    ensures var c := |w.site.copies| - 1;
      && w.site.entry == Some(c) && Visible(w) == AfterAll(env, seed, EventsOn(c, w.moves))
      && (EventsOn(c, w.moves) == Events(w.moves) <==> forall m <- w.moves :: m.Acts? ==> !Replaced(m.copy, w.moves))
  {
    hide Reachable, SeedOk, SpecAccess.Inv, Replaced, Fold, EventsOn, Events, Seedings, MovedAll, Lawful, CopyOk;
    ReachableInv(env, seed, w);
    InvSite(env, seed, w);
    EntryFacts(env, seed, w);
    EntryIsBuiltByAllIff(Applier(env), seed, w.moves);
  }

  // ----- Acknowledged saves

  function KeyOf(x: Session): Option<string> {
    match x
    case Missed(req) => RequestKey(req)
    case Holds(req, _) => RequestKey(req)
    case Waits(q, _, _) => Some(q.key)
    case Saved(q, _, _, _) => Some(q.key)
    case Answered(_, _) => None
    case Shown(_) => None
  }

  function RequestKey(req: Request): Option<string> {
    match req
    case SaveCall(q, _) => Some(q.key)
    case RestoreCall(_, key, _, _) => Some(key)
    case ReadCall => None
  }

  /** The visible state has the save's version and answers its key. */
  ghost predicate Kept(env: Env, w: World, x: Session)
    requires x.Saved?
  {
    && w.site.entry.Some? && w.site.entry.value < |w.site.copies|
    && HasSave(env, Visible(w), x.generation, x.q)
    && x.q.key in Visible(w).byKey && Visible(w).byKey[x.q.key] == Response(x.generation, x.runId)
  }

  ghost predicate OwnKey(w: World, id: nat)
    requires id in w.sessions
  {
    forall o | o in w.sessions && o != id :: KeyOf(w.sessions[o]) != KeyOf(w.sessions[id])
  }

  /** Only the copy it appended to answers the key of a save. */
  lemma AnsweredOnItsCopy(env: Env, seed: State, w: World, id: nat, c: nat)
    requires SpecAccess.Inv(env, seed, w) && id in w.sessions && w.sessions[id].Saved? && OwnKey(w, id)
    requires c < |w.site.copies|
    ensures var x, s := w.sessions[id], w.site.copies[c];
      && (x.q.key in s.byKey <==> c == x.copy)
      && (c == x.copy ==> s.byKey[x.q.key] == Response(x.generation, x.runId) && HasSave(env, s, x.generation, x.q))
  {
    var x := w.sessions[id];
    assert SessionOk(env, seed, w.site, x);
    hide SiteOk, SessionsOk, HasSave;
    forall o | o in w.sessions && o != id && w.sessions[o].Saved? ensures w.sessions[o].q.key != x.q.key {
      assert KeyOf(w.sessions[o]) != KeyOf(x);
    }
    if x.q.key in w.site.copies[c].byKey { OnlyRecorder(w, c, x.q.key, id); }
  }

  /** An acknowledged save under a key of its own is kept exactly when no seeding replaced the copy it
      appended to. */
  lemma SavedKeptIff(env: Env, seed: State, w: World, id: nat)
    requires SeedOk(env, seed) && Reachable(env, seed, w) && id in w.sessions && w.sessions[id].Saved? && OwnKey(w, id)
    ensures Kept(env, w, w.sessions[id]) <==> !Replaced(w.sessions[id].copy, w.moves)
  {
    hide Reachable, SeedOk, SpecAccess.Inv, SiteOk, HasSave, Replaced, Seedings, OwnKey, MovedAll, Lawful;
    ReachableInv(env, seed, w);
    CopyExists(env, seed, w, id);
    InvSite(env, seed, w);
    EntryFacts(env, seed, w);
    ReplacedIffLaterSeeding(w.sessions[id].copy, w.moves);
    AnsweredOnItsCopy(env, seed, w, id, |w.site.copies| - 1);
  }

  lemma CopyExists(env: Env, seed: State, w: World, id: nat)
    requires SpecAccess.Inv(env, seed, w) && id in w.sessions && w.sessions[id].Saved?
    ensures w.sessions[id].copy < |w.site.copies|
  {
    assert SessionOk(env, seed, w.site, w.sessions[id]);
  }

  lemma OnlyRecorder(w: World, c: nat, key: string, id: nat)
    requires AnswersOk(w) && c < |w.site.copies| && key in w.site.copies[c].byKey && id in w.sessions
    requires forall o | o in w.sessions && o != id && w.sessions[o].Saved? :: w.sessions[o].q.key != key
    ensures RecordedBy(w.sessions[id], c, key, w.site.copies[c].byKey[key])
  {
    assert Recorded(w, c, key);
  }

  /** A repeated save replays exactly when it runs on the copy the first one appended to. */
  lemma RepeatReplaysIff(env: Env, seed: State, w: World, id: nat, again: nat)
    requires SeedOk(env, seed) && Reachable(env, seed, w) && id in w.sessions && w.sessions[id].Saved?
    requires again in w.sessions && w.sessions[again].Holds? && w.sessions[again].req.SaveCall?
    requires w.sessions[again].req.q.key == w.sessions[id].q.key
    requires forall o | o in w.sessions && o != id && w.sessions[o].Saved? ::
      w.sessions[o].q.key != w.sessions[id].q.key
    ensures var x, y := w.sessions[id], w.sessions[again];
      && y.copy < |w.site.copies|
      && (Begin(env, w.site.copies[y.copy], y.req.q) == (w.site.copies[y.copy], Ok(Response(x.generation, x.runId)))
          <==> y.copy == x.copy)
  {
    hide Reachable, SeedOk;
    ReachableInv(env, seed, w);
    var x, y := w.sessions[id], w.sessions[again];
    assert SessionOk(env, seed, w.site, x) && SessionOk(env, seed, w.site, y);
    if x.q.key in w.site.copies[y.copy].byKey { OnlyRecorder(w, y.copy, x.q.key, id); }
    hide SpecAccess.Inv, HasSave, RequestOk, AppliedBody, Append;
  }

  /** A restore that appends has the body of the restored generation on the copy it started from. On
      the copy it saved to, that generation has the same body as long as the first copy was not replaced
      or the generation is a seeded one. */
  lemma RestoreCopies(env: Env, seed: State, w: World, id: nat, q: Save, from: nat, c: nat, g: int)
    requires SeedOk(env, seed) && Reachable(env, seed, w) && id in w.sessions && q.restoreOf == Some(g)
    requires w.sessions[id] == Holds(SaveCall(q, Some(from)), c) && c < |w.site.copies| && from < |w.site.copies|
    requires Begin(env, w.site.copies[c], q).1.Appended?
    ensures var s, t := w.site.copies[from], Begin(env, w.site.copies[c], q).0;
      && 1 <= g <= s.current == |s.versions| && g < t.current == |t.versions|
      && t.versions[0].body == Content(s, g).body && t.versions[0].summary == RestoreOf(g)
      && Content(t, g) == Content(w.site.copies[c], g)
      && (!Replaced(from, w.moves) || g <= seed.current ==> t.versions[0].body == Content(t, g).body)
  {
    hide Reachable, SeedOk, SiteOk, Replaced, Keeps, SpecStore.Inv, Begin, Seedings, AnswersOk, AppliedBody;
    hide Describable;
    ReachableInv(env, seed, w);
    var s, u := w.site.copies[from], w.site.copies[c];
    assert SessionOk(env, seed, w.site, w.sessions[id]);
    CopyIsValid(env, seed, w, c);
    CopyIsValid(env, seed, w, from);
    AppendsExactlyWhen(env, u, q);
    EntryFacts(env, seed, w);
    ReplacedIffLaterSeeding(from, w.moves);
    HeadSummary(env, u, q);
    if g <= seed.current { SameSeed(seed, s, u, g); }
  }

  lemma HeadSummary(env: Env, s: State, q: Save)
    requires Begin(env, s, q).1.Appended? && q.restoreOf.Some?
    ensures Begin(env, s, q).0.versions[0].summary == RestoreOf(q.restoreOf.value)
  {
    hide AppliedBody, Restatus;
  }

  lemma SameSeed(seed: State, s: State, t: State, g: int)
    requires Keeps(seed, s) && Keeps(seed, t) && 1 <= g <= seed.current
    ensures Content(s, g) == Content(t, g)
  {
  }

  // ----- Two overlapping first saves

  lemma RunSnoc(env: Env, seed: State, w: World, steps: seq<Step>, step: Step)
    ensures Run(env, seed, w, []) == w
    ensures Run(env, seed, w, steps + [step]) == Next(env, seed, Run(env, seed, w, steps), step)
  {
    assert (steps + [step])[..|steps|] == steps;
  }

  /** Both saves miss the entry, each seeds a copy of its own, both append and both are acknowledged at
      the same generation; only the second is visible and the first key is not answered. */
  lemma FirstSaveIsLost(env: Env, seed: State, q: Save, r: Save) returns (steps: seq<Step>)
    requires SeedOk(env, seed) && q.key != r.key
    requires Begin(env, seed, q).1.Appended? && Begin(env, seed, r).1.Appended?
    ensures var w := Run(env, seed, INITIAL, steps);
      && 1 in w.sessions && w.sessions[1] == Saved(q, 0, seed.current + 1, "a")
      && 2 in w.sessions && w.sessions[2] == Saved(r, 1, seed.current + 1, "b")
      && w.site.entry == Some(1) && |w.site.copies| == 2 && Visible(w).current == seed.current + 1
      && |Visible(w).versions| == seed.current + 1 && Visible(w).versions[0].body == r.body
      && q.key !in Visible(w).byKey
  {
    hide Run, Begin, Finish, SeedOk, StartRestore, BothSeeded, OneAppended;
    SavedAlone(env, seed, q, "a");
    SavedAlone(env, seed, r, "b");
    steps := OverlappingLooks(env, seed, q, r);
    RunSnoc(env, seed, INITIAL, steps, Go(1));
    steps := steps + [Go(1)];
    GoOne(env, seed, q, r);
    RunSnoc(env, seed, INITIAL, steps, Go(2));
    steps := steps + [Go(2)];
    GoTwo(env, seed, q, r);
    hide Proceed;
    RunSnoc(env, seed, INITIAL, steps, Record(1, "a"));
    steps := steps + [Record(1, "a")];
    RunSnoc(env, seed, INITIAL, steps, Record(2, "b"));
    steps := steps + [Record(2, "b")];
  }

  /** Both calls hold a copy of their own. */
  function BothSeeded(seed: State, q: Save, r: Save): World {
    World(Site([seed, seed], Some(1)),
          map[1 := Holds(SaveCall(q, None), 0), 2 := Holds(SaveCall(r, None), 1)], [Seeds, Seeds])
  }

  lemma OverlappingLooks(env: Env, seed: State, q: Save, r: Save) returns (steps: seq<Step>)
    ensures Run(env, seed, INITIAL, steps) == BothSeeded(seed, q, r)
  {
    hide Run, Begin, Finish, StartRestore;
    steps := [];
    RunSnoc(env, seed, INITIAL, steps, CallSave(1, q));
    steps := steps + [CallSave(1, q)];
    RunSnoc(env, seed, INITIAL, steps, CallSave(2, r));
    steps := steps + [CallSave(2, r)];
    RunSnoc(env, seed, INITIAL, steps, Seed(1, true));
    steps := steps + [Seed(1, true)];
    RunSnoc(env, seed, INITIAL, steps, Seed(2, true));
    steps := steps + [Seed(2, true)];
  }

  function OneAppended(env: Env, seed: State, q: Save, r: Save): World {
    World(Site([Begin(env, seed, q).0, seed], Some(1)),
          map[1 := Waits(q, 0, seed.current + 1), 2 := Holds(SaveCall(r, None), 1)],
          [Seeds, Seeds, Acts(0, Begins(q))])
  }

  function BothAppended(env: Env, seed: State, q: Save, r: Save): World {
    World(Site([Begin(env, seed, q).0, Begin(env, seed, r).0], Some(1)),
          map[1 := Waits(q, 0, seed.current + 1), 2 := Waits(r, 1, seed.current + 1)],
          [Seeds, Seeds, Acts(0, Begins(q)), Acts(1, Begins(r))])
  }

  /** The first call appends to the copy nobody will find. */
  lemma GoOne(env: Env, seed: State, q: Save, r: Save)
    requires Begin(env, seed, q).1 == Appended(seed.current + 1)
    ensures Next(env, seed, BothSeeded(seed, q, r), Go(1)) == OneAppended(env, seed, q, r)
  {
    hide Begin;
  }

  lemma GoTwo(env: Env, seed: State, q: Save, r: Save)
    requires Begin(env, seed, r).1 == Appended(seed.current + 1)
    ensures Next(env, seed, OneAppended(env, seed, q, r), Go(2)) == BothAppended(env, seed, q, r)
  {
    hide Begin;
  }

  /** A save on a copy of its own. */
  lemma SavedAlone(env: Env, seed: State, q: Save, runId: string)
    requires SeedOk(env, seed) && Begin(env, seed, q).1.Appended?
    ensures Begin(env, seed, q).1 == Appended(seed.current + 1)
    ensures var t := Finish(Begin(env, seed, q).0, seed.current + 1, runId);
      && t.current == seed.current + 1 == |t.versions| && t.versions[0].body == q.body
      && t.byKey == map[q.key := Response(seed.current + 1, runId)]
  {
    AppendsExactlyWhen(env, seed, q);
    hide AppliedBody, SummaryOf, Restatus;
  }

  /** In every run and on every copy only the head is current, and of the others only the observed
      generation is applied. */
  lemma OnlyHeadIsCurrent(env: Env, seed: State, w: World, c: nat, i: nat)
    requires SeedOk(env, seed) && Reachable(env, seed, w) && c < |w.site.copies| && i < |w.site.copies[c].versions|
    ensures var s := w.site.copies[c];
      && (s.versions[i].status == Current <==> i == 0)
      && (s.versions[i].status == Applied <==> i > 0 && s.versions[i].generation == seed.observed)
  {
    hide Reachable, SeedOk;
    ReachableInv(env, seed, w);
    CopyIsValid(env, seed, w, c);
    SpecStore.OnlyHeadIsCurrent(env, w.site.copies[c], i);
  }

  /** A call that finds no entry is answered 404 exactly when the tenant is not found; otherwise it holds a
      fresh copy of the seed, which is now the entry. */
  lemma SeedingAnswers(env: Env, seed: State, w: World, id: nat, found: bool)
    requires id in w.sessions && w.sessions[id].Missed?
    ensures var t, req := Next(env, seed, w, Seed(id, found)), w.sessions[id].req;
      && (t.sessions[id] == Answered(req, Refused(404)) <==> !found)
      && (!found ==> t.site == w.site)
      && (found ==>
            && t.sessions[id] == Holds(req, |w.site.copies|) && t.site.entry == Some(|w.site.copies|)
            && t.site.copies == w.site.copies + [seed])
  {
  }

  /** A call works on the copy that is the entry when it looks. */
  lemma CallsLookOnce(env: Env, seed: State, w: World, id: nat, step: Step)
    requires id == step.id && id !in w.sessions && (step.CallSave? || step.CallRestore? || step.CallRead?)
    ensures var t := Next(env, seed, w, step);
      && t.site == w.site && id in t.sessions
      && (match t.sessions[id]
          case Missed(req) => w.site.entry.None? && Asks(step, req)
          case Holds(req, c) => w.site.entry == Some(c) && Asks(step, req)
          case _ => false)
  {
  }

  predicate Asks(step: Step, req: Request) {
    match step
    case CallSave(_, q) => req == SaveCall(q, None)
    case CallRestore(_, g, key, author, now) => req == RestoreCall(g, key, author, now)
    case CallRead(_) => req == ReadCall
    case _ => false
  }

  /** A read shows the copy it looked up, whatever is the entry by now. A restore of an earlier generation takes body
      and If-Match from the copy it looked up, and its save then looks again. */
  lemma ReadsAndRestores(env: Env, seed: State, w: World, id: nat, c: nat)
    requires id in w.sessions && w.sessions[id].Holds? && w.sessions[id].copy == c < |w.site.copies|
    requires SpecStore.Inv(env, w.site.copies[c])
    ensures var s, t := w.site.copies[c], Next(env, seed, w, Go(id));
      match w.sessions[id].req
      case ReadCall => t.sessions[id] == Shown(c) && t.site == w.site
      case RestoreCall(g, key, author, now) =>
        && t.site == w.site
        && (if !(1 <= g <= s.current) then t.sessions[id] == Answered(w.sessions[id].req, Refused(404))
            else if g == s.current then t.sessions[id] == Answered(w.sessions[id].req, Refused(409))
            else
              var save := SaveCall(Save(Content(s, g).body, Some(s.current), key, author, now, Some(g)), Some(c));
              t.sessions[id] == if w.site.entry.None? then Missed(save) else Holds(save, w.site.entry.value))
      case SaveCall(_, _) => true
  {
    var req := w.sessions[id].req;
    if req.RestoreCall? { FindsGeneration(env, w.site.copies[c], req.generation); }
    hide SpecStore.Inv, Begin, Moved;
  }

  /** A refused save inside a restore is answered 404 or 400, never 412 or 428; outside one as it is. */
  lemma RefusalsAreReported(env: Env, seed: State, w: World, id: nat, q: Save, from: Option<nat>, c: nat)
    requires id in w.sessions && w.sessions[id] == Holds(SaveCall(q, from), c) && c < |w.site.copies|
    requires Begin(env, w.site.copies[c], q).1.Refused?
    ensures var status, t := Begin(env, w.site.copies[c], q).1.status, Next(env, seed, w, Go(id));
      && t.site == w.site
      && t.sessions[id] ==
         Answered(SaveCall(q, from), Refused(if from.None? || status == 404 then status else 400))
  {
    hide Begin;
  }
}
