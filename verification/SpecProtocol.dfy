/** Creating tenants and writing specs as concurrent requests: every await of a handler
    is a point where other requests may run, and unique indexes are the only guard. */
module SpecProtocol {
  import opened Common
  import opened Canonical
  import opened SpecHash
  import opened Database

  type RequestId = nat

  type Sha = seq<Token> -> Digest

  datatype Request =
    | Create(slug: string, displayName: string, spec: Json, actor: string, newId: Id, now: int)
    | Update(tenantId: Id, ifMatch: Option<int>, spec: Json, actor: string, now: int)

  datatype Answer =
    | Created(tenantId: Id, generation: nat, hash: Digest)
    | Written(tenantId: Id, generation: nat, hash: Digest, changed: bool)
    | Invalid
    | PreconditionRequired
    | PreconditionFailed(currentGeneration: nat)
    | NotFound
    | Conflict
    | Fault

  /** How far a request has got, with what it has read so far. */
  datatype Session =
    | Fresh(req: Request)
    | SlugFree(req: Request)
    | Loaded(req: Request, tenant: TenantRow)
    | Differs(req: Request, tenant: TenantRow)
    | Done(req: Request, answer: Answer)

  datatype State = State(db: Db, sessions: map<RequestId, Session>)

  const INITIAL: State := State(EMPTY, map[])

  // ----- The handlers, await by await

  /** TenantSlug.TryCreate: 3 to 63 lowercase letters, digits or inner hyphens; the
      pattern's end anchor also accepts one final line feed. */
  predicate ValidSlug(s: string) {
    3 <= |s| <= 63 &&
    var core := if s[|s| - 1] == '\n' then s[..|s| - 1] else s;
    && (forall c <- core :: 'a' <= c <= 'z' || '0' <= c <= '9' || c == '-')
    && core[0] != '-' && core[|core| - 1] != '-'
  }

  /** The row with the highest generation. */
  function FindLatest(specs: seq<SpecRow>, tenantId: Id): Option<SpecRow> {
    if specs == [] then None
    else
      var row := specs[|specs| - 1];
      var best := FindLatest(specs[..|specs| - 1], tenantId);
      if row.tenantId == tenantId && (best.None? || best.value.generation <= row.generation) then Some(row) else best
  }

  function NewSpec(sha: Sha, req: Request, tenantId: Id, generation: nat): SpecRow {
    SpecRow(tenantId, generation, Canonicalise(req.spec), Of(sha, req.spec), req.actor, req.now)
  }

  function CreateEntries(sha: Sha, req: Request): seq<Entry>
    requires req.Create?
  {
    var spec := NewSpec(sha, req, req.newId, 1);
    [AddTenant(req.newId, TenantRow(req.slug, req.displayName, 1, req.now, None)), AddStatus(req.newId),
     AddSpec(spec), AddOutbox(OutboxRow(req.newId, 1, spec.hash))]
  }

  function UpdateEntries(sha: Sha, req: Request, tenant: TenantRow): seq<Entry>
    requires req.Update?
  {
    var spec := NewSpec(sha, req, req.tenantId, tenant.generation + 1);
    [ModifyTenant(req.tenantId, tenant, tenant.(generation := tenant.generation + 1)),
     AddSpec(spec), AddOutbox(OutboxRow(req.tenantId, tenant.generation + 1, spec.hash))]
  }

  /** One uninterrupted stretch of a handler. */
  function Advance(sha: Sha, id: RequestId, db: Db, s: Session): (Db, Session) {
    match s
    case Fresh(req) =>
      if req.Create? then
        if !ValidSlug(req.slug) || IsBlank(req.displayName) || !req.spec.Object? then (db, Done(req, Invalid))
        else if SlugTaken(db, req.slug) then (db, Done(req, Conflict))
        else (db, SlugFree(req))
      else
        if !req.spec.Object? then (db, Done(req, Invalid))
        else if req.ifMatch.None? then (db, Done(req, PreconditionRequired))
        else if req.tenantId !in db.tenants || db.tenants[req.tenantId].deletedAt.Some? then (db, Done(req, NotFound))
        else if db.tenants[req.tenantId].generation != req.ifMatch.value
        then (db, Done(req, PreconditionFailed(db.tenants[req.tenantId].generation)))
        else (db, Loaded(req, db.tenants[req.tenantId]))
    case Loaded(req, tenant) =>
      if req.Create? then (db, s)
      else
        var latest := FindLatest(db.specs, req.tenantId);
        if latest.Some? && Matches(sha, latest.value.hash, req.spec)
        then (db, Done(req, Written(req.tenantId, tenant.generation, latest.value.hash, false)))
        else (db, Differs(req, tenant))
    case Differs(req, tenant) =>
      if req.Create? then (db, s)
      else if Bump(tenant).None? || IsBlank(req.actor) then (db, Done(req, Fault))
      else (match Save(db, UpdateEntries(sha, req, tenant), req.actor, id)
            case None => (db, Done(req, Fault))
            case Some(next) =>
              (next, Done(req, Written(req.tenantId, tenant.generation + 1, Of(sha, req.spec), true))))
    case SlugFree(req) =>
      if req.Update? then (db, s)
      else if IsBlank(req.actor) then (db, Done(req, Fault))
      else (match Save(db, CreateEntries(sha, req), req.actor, id)
            case None => (db, Done(req, Fault))
            case Some(next) => (next, Done(req, Created(req.newId, 1, Of(sha, req.spec)))))
    case Done(_, _) => (db, s)
  }

  datatype Step =
    | Begin(id: RequestId, req: Request)
    | Go(id: RequestId)
    | Abort(id: RequestId)
    | DeleteTenant(tenantId: Id, at: int)
    | RenameTenant(tenantId: Id, name: string)

  function Next(sha: Sha, s: State, step: Step): State {
    match step
    case Begin(id, req) => if id in s.sessions then s else s.(sessions := s.sessions[id := Fresh(req)])
    case Go(id) =>
      if id !in s.sessions then s
      else var (db, session) := Advance(sha, id, s.db, s.sessions[id]); State(db, s.sessions[id := session])
    case Abort(id) =>
      if id !in s.sessions || s.sessions[id].Done? then s
      else s.(sessions := s.sessions[id := Done(s.sessions[id].req, Fault)])
    case DeleteTenant(t, at) => if t !in s.db.tenants then s else Modify(s, t, Delete(s.db.tenants[t], at))
    case RenameTenant(t, name) => if t !in s.db.tenants then s else Modify(s, t, Rename(s.db.tenants[t], name))
  }

  /** Another unit of work of the domain changes a tenant in place. */
  function Modify(s: State, t: Id, after: Option<TenantRow>): State
    requires t in s.db.tenants
  {
    if after.None? then s
    else match Save(s.db, [ModifyTenant(t, s.db.tenants[t], after.value)], "system", 0)
      case None => s
      case Some(next) => s.(db := next)
  }

  function Run(sha: Sha, s: State, steps: seq<Step>): State {
    if steps == [] then s else Next(sha, Run(sha, s, steps[..|steps| - 1]), steps[|steps| - 1])
  }

  // ----- Counting rows

  function SpecCount(rows: seq<SpecRow>, t: Id, g: nat): nat {
    if rows == [] then 0
    else SpecCount(rows[..|rows| - 1], t, g) +
         (var r := rows[|rows| - 1]; if r.tenantId == t && r.generation == g then 1 else 0)
  }

  function OutboxCount(rows: seq<OutboxRow>, t: Id, g: nat): nat {
    if rows == [] then 0
    else OutboxCount(rows[..|rows| - 1], t, g) +
         (var r := rows[|rows| - 1]; if r.tenantId == t && r.generation == g then 1 else 0)
  }

  function AuditCount(rows: seq<AuditRow>, t: Id, a: Action): nat {
    if rows == [] then 0
    else AuditCount(rows[..|rows| - 1], t, a) +
         (var r := rows[|rows| - 1]; if r.tenantId == t && r.action == a then 1 else 0)
  }

  function StatusCount(rows: seq<Id>, t: Id): nat {
    if rows == [] then 0 else StatusCount(rows[..|rows| - 1], t) + (if rows[|rows| - 1] == t then 1 else 0)
  }

  /** Whether the tenant has reached that generation. */
  function Reached(db: Db, t: Id, g: nat): nat {
    if t in db.tenants && 1 <= g <= db.tenants[t].generation then 1 else 0
  }

  /** The history is complete and exact: each generation 1..current of each tenant has one
      spec row, one outbox row and one audit row, and there are no others; each tenant has
      one status row and one TenantCreated row; slugs are unique; hashes are honest. */
  ghost predicate Exact(sha: Sha, db: Db) {
    SpecsExact(db) && OutboxExact(db) && AuditExact(db) && TenantsExact(db) && HashesHonest(sha, db)
  }

  ghost predicate SpecsExact(db: Db) {
    forall t: Id, g: nat :: SpecCount(db.specs, t, g) == Reached(db, t, g)
  }

  ghost predicate OutboxExact(db: Db) {
    forall t: Id, g: nat :: OutboxCount(db.outbox, t, g) == Reached(db, t, g)
  }

  ghost predicate AuditExact(db: Db) {
    && (forall t: Id, g: nat :: AuditCount(db.audit, t, SpecUpdated(g)) == Reached(db, t, g))
    && (forall t: Id :: AuditCount(db.audit, t, TenantCreated) == if t in db.tenants then 1 else 0)
  }

  ghost predicate TenantsExact(db: Db) {
    && (forall t: Id :: StatusCount(db.statuses, t) == if t in db.tenants then 1 else 0)
    && (forall t, u | t in db.tenants && u in db.tenants && db.tenants[t].slug == db.tenants[u].slug :: t == u)
    && (forall t | t in db.tenants :: db.tenants[t].generation >= 1)
  }

  ghost predicate HashesHonest(sha: Sha, db: Db) {
    (forall r <- db.specs :: r.hash == sha(r.json)) && (forall m <- db.outbox :: Announces(db, m))
  }

  /** A message names the hash of the spec version it announces. */
  ghost predicate Announces(db: Db, m: OutboxRow) {
    exists r <- db.specs :: r.tenantId == m.tenantId && r.generation == m.generation && r.hash == m.hash
  }
}
