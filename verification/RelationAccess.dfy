/** The relation store behind its first access: a batch that finds no store awaits the tenant and sets
    a fresh one, so overlapping first batches may each write to a store of their own. */
module RelationAccess {
  import opened Common
  import opened FirstAccess
  import opened Relations
  import ModelSummary

  /** A batch to write, or a listing. */
  datatype Job = Write(req: Request) | Read

  datatype Session =
    | Missed(job: Job)
    | Holds(job: Job, copy: nat)
    | Applied(req: Request, copy: nat)
    | Refused(req: Request)
    | Shown(copy: nat)
    | NoTenant(job: Job)

  /** moves is history: the seedings and the accepted batches so far. */
  datatype World = World(site: Site<State>, sessions: map<nat, Session>, moves: seq<Move<Batch>>)

  const INITIAL: World := World(Site([], None), map[], [])

  /** Seed carries whether the tenant was found. */
  datatype Step = Call(id: nat, job: Job) | Seed(id: nat, found: bool) | Go(id: nat, now: int)

  function Look(site: Site<State>, job: Job): Session {
    match site.entry
    case None => Missed(job)
    case Some(c) => Holds(job, c)
  }

  function Act(model: ModelSummary.Model, seed: State, w: World, m: Move<Batch>, id: nat, x: Session): World {
    World(Moved(Writer(model), seed, w.site, m), w.sessions[id := x], w.moves + [m])
  }

  function Next(model: ModelSummary.Model, seed: State, w: World, step: Step): World {
    match step
    case Call(id, job) => if id in w.sessions then w else w.(sessions := w.sessions[id := Look(w.site, job)])
    case Seed(id, found) =>
      if id !in w.sessions || !w.sessions[id].Missed? then w
      else if !found then w.(sessions := w.sessions[id := NoTenant(w.sessions[id].job)])
      else Act(model, seed, w, Seeds, id, Holds(w.sessions[id].job, |w.site.copies|))
    case Go(id, now) =>
      if id !in w.sessions || !w.sessions[id].Holds? then w
      else if w.sessions[id].job.Read? then w.(sessions := w.sessions[id := Shown(w.sessions[id].copy)])
      else
        var req, c := w.sessions[id].job.req, w.sessions[id].copy;
        if Acceptable(model, req) then Act(model, seed, w, Acts(c, Batch(req, now)), id, Applied(req, c))
        else w.(sessions := w.sessions[id := Refused(req)])
  }

  function Run(model: ModelSummary.Model, seed: State, w: World, steps: seq<Step>): World {
    if steps == [] then w else Next(model, seed, Run(model, seed, w, steps[..|steps| - 1]), steps[|steps| - 1])
  }

  // ----- What every run keeps

  ghost predicate Inv(model: ModelSummary.Model, seed: State, w: World) {
    && w.site == MovedAll(Writer(model), seed, w.moves) && Lawful(w.moves)
    && (forall id | id in w.sessions && (w.sessions[id].Holds? || w.sessions[id].Applied?) ::
          w.sessions[id].copy < |w.site.copies|)
  }

  lemma ActKeeps(model: ModelSummary.Model, seed: State, w: World, m: Move<Batch>, id: nat, x: Session)
    requires Inv(model, seed, w) && (m.Acts? ==> m.copy < |w.site.copies|)
    requires x.Holds? || x.Applied? ==> x.copy < |w.site.copies| + if m.Seeds? then 1 else 0
    ensures Inv(model, seed, Act(model, seed, w, m, id, x))
  {
    EntryIsLast(Writer(model), seed, w.moves);
    assert (w.moves + [m])[..|w.moves|] == w.moves;
  }

  lemma NextKeepsInv(model: ModelSummary.Model, seed: State, w: World, step: Step)
    requires Inv(model, seed, w)
    ensures Inv(model, seed, Next(model, seed, w, step))
  {
    hide Acceptable, MovedAll, Lawful, Moved;
    match step
    case Call(id, job) => EntryIsLast(Writer(model), seed, w.moves);
    case Seed(id, found) =>
      if id in w.sessions && w.sessions[id].Missed? {
        ActKeeps(model, seed, w, Seeds, id, Holds(w.sessions[id].job, |w.site.copies|));
      }
    case Go(id, now) =>
      if id in w.sessions && w.sessions[id].Holds? && w.sessions[id].job.Write? {
        var req, c := w.sessions[id].job.req, w.sessions[id].copy;
        ActKeeps(model, seed, w, Acts(c, Batch(req, now)), id, Applied(req, c));
      }
  }

  lemma {:induction false} RunKeepsInv(model: ModelSummary.Model, seed: State, w: World, steps: seq<Step>)
    requires Inv(model, seed, w)
    ensures Inv(model, seed, Run(model, seed, w, steps))
  {
    hide Next, Inv;
    if steps != [] {
      RunKeepsInv(model, seed, w, steps[..|steps| - 1]);
      NextKeepsInv(model, seed, Run(model, seed, w, steps[..|steps| - 1]), steps[|steps| - 1]);
    }
  }

  lemma RunFromStart(model: ModelSummary.Model, seed: State, steps: seq<Step>)
    ensures Inv(model, seed, Run(model, seed, INITIAL, steps))
  {
    RunKeepsInv(model, seed, INITIAL, steps);
  }

  /** In every run, each copy, the visible one included, is the seed with the batches accepted on it, so
      it keeps triples and ids unique, the rows off the record and the reserved triples. */
  lemma EveryCopyKeeps(model: ModelSummary.Model, seed: State, steps: seq<Step>, c: nat)
    requires Relations.Inv(seed) && c < |Run(model, seed, INITIAL, steps).site.copies|
    ensures var w := Run(model, seed, INITIAL, steps);
      && w.site.copies[c] == WriteAll(model, seed, EventsOn(c, w.moves))
      && Relations.Inv(w.site.copies[c]) && Kindred(model, seed, w.site.copies[c])
  {
    hide Run, Relations.Inv, Kindred;
    var w := Run(model, seed, INITIAL, steps);
    RunFromStart(model, seed, steps);
    EntryIsLast(Writer(model), seed, w.moves);
    CopyIsHistory(Writer(model), seed, w.moves, c);
    EveryBatchKeeps(model, seed, EventsOn(c, w.moves));
  }

  /** A batch or listing works on the store that is the entry when it looks, or on the one it seeds itself, whatever
      has become the entry since; without the tenant it is answered as not found. */
  lemma CallsKeepTheirStore(model: ModelSummary.Model, seed: State, w: World, id: nat, job: Job, found: bool, now: int)
    requires id !in w.sessions
    ensures var t := Next(model, seed, w, Call(id, job));
      && t.sessions[id] == (if w.site.entry.Some? then Holds(job, w.site.entry.value) else Missed(job))
      && (w.site.entry.None? ==>
            Next(model, seed, t, Seed(id, found)).sessions[id] ==
            if found then Holds(job, |w.site.copies|) else NoTenant(job))
    ensures forall u: World, c | id in u.sessions && u.sessions[id] == Holds(job, c) ::
      WorksOn(model, job, c, Next(model, seed, u, Go(id, now)).sessions[id])
  {
    hide Acceptable;
  }

  ghost predicate WorksOn(model: ModelSummary.Model, job: Job, c: nat, x: Session) {
    match job
    case Read => x == Shown(c)
    case Write(req) => x == if Acceptable(model, req) then Applied(req, c) else Refused(req)
  }

  function Visible(w: World): State
    requires w.site.entry.Some? && w.site.entry.value < |w.site.copies|
  {
    w.site.copies[w.site.entry.value]
  }

  /** The visible store is built by the batches accepted on it; these are all the accepted ones exactly
      when no seeding replaced a store on which a batch was accepted, before or after. */
  lemma VisibleIsBuiltByAllIff(model: ModelSummary.Model, seed: State, steps: seq<Step>)
    requires Run(model, seed, INITIAL, steps).site.copies != []
    ensures var w := Run(model, seed, INITIAL, steps);
      var c := |w.site.copies| - 1;
      && w.site.entry == Some(c) && Visible(w) == WriteAll(model, seed, EventsOn(c, w.moves))
      && (EventsOn(c, w.moves) == Events(w.moves) <==> forall m <- w.moves :: m.Acts? ==> !Replaced(m.copy, w.moves))
  {
    hide Run, MovedAll, Lawful, Seedings, EventsOn, Events, Replaced, Fold;
    var w := Run(model, seed, INITIAL, steps);
    RunFromStart(model, seed, steps);
    EntryIsLast(Writer(model), seed, w.moves);
    EntryIsBuiltByAllIff(Writer(model), seed, w.moves);
  }

  // ----- What the visible store is safe from

  /** No call is still awaiting the tenant after finding no store. */
  ghost predicate NoneSeeding(w: World) { forall id | id in w.sessions :: !w.sessions[id].Missed? }

  /** t has the stores of s unchanged, and beyond them only bare seeds. */
  ghost predicate Untouched(seed: State, s: Site<State>, t: Site<State>) {
    && |s.copies| <= |t.copies|
    && forall c | 0 <= c < |t.copies| :: t.copies[c] == if c < |s.copies| then s.copies[c] else seed
  }

  /** One step: no batch is accepted and no store changes, or one is. */
  lemma StepEvents(model: ModelSummary.Model, seed: State, w: World, step: Step)
    ensures var t := Next(model, seed, w, step);
      |Events(t.moves)| > |Events(w.moves)| || (Events(t.moves) == Events(w.moves) && Untouched(seed, w.site, t.site))
  {
    hide Acceptable;
    var t := Next(model, seed, w, step);
    if t.moves != w.moves { assert t.moves[..|t.moves| - 1] == w.moves; }
  }

  lemma {:induction false} QuietRun(model: ModelSummary.Model, seed: State, w: World, steps: seq<Step>)
    ensures var t := Run(model, seed, w, steps);
      |Events(t.moves)| > |Events(w.moves)| || (Events(t.moves) == Events(w.moves) && Untouched(seed, w.site, t.site))
  {
    hide Next, Events;
    if steps != [] {
      QuietRun(model, seed, w, steps[..|steps| - 1]);
      StepEvents(model, seed, Run(model, seed, w, steps[..|steps| - 1]), steps[|steps| - 1]);
    }
  }

  lemma {:induction false} EntryStays(model: ModelSummary.Model, seed: State, w: World, steps: seq<Step>)
    requires w.site.entry.Some? && NoneSeeding(w)
    ensures var t := Run(model, seed, w, steps); t.site.entry == w.site.entry && NoneSeeding(t)
  {
    hide Acceptable;
    if steps != [] { EntryStays(model, seed, w, steps[..|steps| - 1]); }
  }

  /** If no further batch is accepted, the visible store stays as it is. */
  ghost predicate Stays(model: ModelSummary.Model, seed: State, w: World, steps: seq<Step>)
    requires w.site.entry.Some? && w.site.entry.value < |w.site.copies|
  {
    var t := Run(model, seed, w, steps);
    Events(t.moves) == Events(w.moves) ==>
      t.site.entry.Some? && t.site.entry.value < |t.site.copies| && Visible(t) == Visible(w)
  }

  /** After any run, every continuation that accepts no further batch leaves the visible store as it is,
      exactly when no call is still seeding or the visible store still equals the seed. */
  lemma VisibleStaysIff(model: ModelSummary.Model, seed: State, before: seq<Step>)
    requires Run(model, seed, INITIAL, before).site.copies != []
    ensures var w := Run(model, seed, INITIAL, before);
      && w.site.entry == Some(|w.site.copies| - 1)
      && ((forall steps :: Stays(model, seed, w, steps)) <==> NoneSeeding(w) || Visible(w) == seed)
  {
    hide Run, Stays;
    var w := Run(model, seed, INITIAL, before);
    RunFromStart(model, seed, before);
    EntryIsLast(Writer(model), seed, w.moves);
    if NoneSeeding(w) || Visible(w) == seed {
      forall steps ensures Stays(model, seed, w, steps) {
        SafeStays(model, seed, w, steps);
      }
    } else {
      var id :| id in w.sessions && w.sessions[id].Missed?;
      SeededOver(model, seed, w, id);
    }
  }

  lemma SafeStays(model: ModelSummary.Model, seed: State, w: World, steps: seq<Step>)
    requires Inv(model, seed, w) && w.site.copies != [] && w.site.entry == Some(|w.site.copies| - 1)
    requires NoneSeeding(w) || Visible(w) == seed
    ensures Stays(model, seed, w, steps)
  {
    hide Run, Events, NoneSeeding;
    var t := Run(model, seed, w, steps);
    QuietRun(model, seed, w, steps);
    RunKeepsInv(model, seed, w, steps);
    EntryIsLast(Writer(model), seed, t.moves);
    if NoneSeeding(w) { EntryStays(model, seed, w, steps); }
  }

  lemma SeededOver(model: ModelSummary.Model, seed: State, w: World, id: nat)
    requires w.site.entry.Some? && w.site.entry.value < |w.site.copies| && Visible(w) != seed
    requires id in w.sessions && w.sessions[id].Missed?
    ensures !Stays(model, seed, w, [Seed(id, true)])
  {
    var steps := [Seed(id, true)];
    RunSnoc(model, seed, w, [], Seed(id, true));
    assert [] + steps == steps;
    StepEvents(model, seed, w, Seed(id, true));
    assert (w.moves + [Seeds])[..|w.moves|] == w.moves;
    hide Run;
  }

  // ----- Two overlapping first batches

  lemma RunSnoc(model: ModelSummary.Model, seed: State, w: World, steps: seq<Step>, step: Step)
    ensures Run(model, seed, w, []) == w
    ensures Run(model, seed, w, steps + [step]) == Next(model, seed, Run(model, seed, w, steps), step)
  {
    assert (steps + [step])[..|steps|] == steps;
  }

  /** Both batches miss the store and both are accepted; what only the first wrote is not visible. */
  lemma FirstBatchIsLost(model: ModelSummary.Model, seed: State, a: Request, b: Request, t: Triple)
    returns (steps: seq<Step>)
    requires Acceptable(model, a) && Acceptable(model, b)
    requires t in a.writes && t !in b.writes && t !in Triples(seed.items)
    ensures var w := Run(model, seed, INITIAL, steps);
      && 1 in w.sessions && w.sessions[1] == Applied(a, 0) && 2 in w.sessions && w.sessions[2] == Applied(b, 1)
      && w.site.entry == Some(1) && |w.site.copies| == 2
      && t in Triples(w.site.copies[0].items) && t !in Triples(Visible(w).items)
  {
    BatchTriples(seed, a, 0);
    BatchTriples(seed, b, 0);
    hide Run, Acceptable, AfterBatch, Triples;
    steps := [];
    RunSnoc(model, seed, INITIAL, steps, Call(1, Write(a)));
    steps := steps + [Call(1, Write(a))];
    RunSnoc(model, seed, INITIAL, steps, Call(2, Write(b)));
    steps := steps + [Call(2, Write(b))];
    RunSnoc(model, seed, INITIAL, steps, Seed(1, true));
    steps := steps + [Seed(1, true)];
    RunSnoc(model, seed, INITIAL, steps, Seed(2, true));
    steps := steps + [Seed(2, true)];
    RunSnoc(model, seed, INITIAL, steps, Go(1, 0));
    steps := steps + [Go(1, 0)];
    RunSnoc(model, seed, INITIAL, steps, Go(2, 0));
    steps := steps + [Go(2, 0)];
  }
}
