/** The tables behind the tenant handlers, one SaveChanges over them, and the audit
    interceptor that rides along with it. */
module Database {
  import opened Common
  import opened Canonical
  import opened SpecHash

  type Id = nat

  datatype TenantRow = TenantRow(
    slug: string, displayName: string, generation: nat, createdAt: int, deletedAt: Option<int>)

  datatype SpecRow = SpecRow(
    tenantId: Id, generation: nat, json: seq<Token>, hash: Digest, createdBy: string, createdAt: int)

  /** A tenant.spec.written message. */
  datatype OutboxRow = OutboxRow(tenantId: Id, generation: nat, hash: Digest)

  datatype Action = TenantCreated | TenantRenamed | TenantDeleteRequested | SpecUpdated(generation: nat)

  datatype AuditRow = AuditRow(tenantId: Id, action: Action, actor: string, requestId: nat)

  /** tenants is keyed by its primary key; the other tables are lists of rows. */
  datatype Db = Db(
    tenants: map<Id, TenantRow>, statuses: seq<Id>, specs: seq<SpecRow>, outbox: seq<OutboxRow>, audit: seq<AuditRow>)

  const EMPTY: Db := Db(map[], [], [], [], [])

  // ----- The tenant aggregate

  /** Null when the tenant is deleted: the method throws. */
  function Bump(t: TenantRow): Option<TenantRow> {
    if t.deletedAt.Some? then None else Some(t.(generation := t.generation + 1))
  }

  function Delete(t: TenantRow, at: int): Option<TenantRow> {
    if t.deletedAt.Some? then None else Some(t.(deletedAt := Some(at)))
  }

  predicate IsBlank(s: string) { forall c <- s :: c in " \t\r\n" }

  function Rename(t: TenantRow, name: string): Option<TenantRow> {
    if IsBlank(name) || t.deletedAt.Some? then None else Some(t.(displayName := name))
  }

  // ----- Staged entries and their audit rows

  /** What the change tracker holds. A modified tenant carries the values it was loaded with. */
  datatype Entry =
    | AddTenant(id: Id, row: TenantRow)
    | ModifyTenant(id: Id, before: TenantRow, after: TenantRow)
    | AddStatus(id: Id)
    | AddSpec(spec: SpecRow)
    | AddOutbox(message: OutboxRow)

  /** The audit row of one entry. A bare generation bump has none: the row of the new
      spec version reports it. */
  function AuditOf(e: Entry, actor: string, requestId: nat): Option<AuditRow> {
    match e
    case AddTenant(id, _) => Some(AuditRow(id, TenantCreated, actor, requestId))
    case ModifyTenant(id, before, after) =>
      if before.deletedAt != after.deletedAt && after.deletedAt.Some?
      then Some(AuditRow(id, TenantDeleteRequested, actor, requestId))
      else if before.displayName != after.displayName then Some(AuditRow(id, TenantRenamed, actor, requestId))
      else None
    case AddSpec(spec) => Some(AuditRow(spec.tenantId, SpecUpdated(spec.generation), actor, requestId))
    case AddStatus(_) => None
    case AddOutbox(_) => None
  }

  function AuditAll(entries: seq<Entry>, actor: string, requestId: nat): seq<AuditRow> {
    if entries == [] then []
    else
      var rest := AuditAll(entries[1..], actor, requestId);
      match AuditOf(entries[0], actor, requestId)
      case None => rest
      case Some(row) => [row] + rest
  }

  /** The interceptor: one pass over the tracked entries. */
  method Append(entries: seq<Entry>, actor: string, requestId: nat) returns (events: seq<AuditRow>)
    ensures events == AuditAll(entries, actor, requestId)
  {
    hide AuditOf;
    events := [];
    for i := 0 to |entries|
      invariant events + AuditAll(entries[i..], actor, requestId) == AuditAll(entries, actor, requestId)
    {
      assert entries[i..][1..] == entries[i + 1..];
      var audit := AuditOf(entries[i], actor, requestId);
      if audit.Some? {
        events := events + [audit.value];
      }
    }
  }

  // ----- SaveChanges

  predicate SlugTaken(db: Db, slug: string) { exists t <- db.tenants.Keys :: db.tenants[t].slug == slug }

  predicate HasSpec(db: Db, tenantId: Id, generation: nat) {
    exists s <- db.specs :: s.tenantId == tenantId && s.generation == generation
  }

  /** An UPDATE sets the changed columns of whatever the row holds by now. */
  function Merge(current: TenantRow, before: TenantRow, after: TenantRow): TenantRow {
    current.(generation := if before.generation != after.generation then after.generation else current.generation,
             displayName := if before.displayName != after.displayName then after.displayName else current.displayName,
             deletedAt := if before.deletedAt != after.deletedAt then after.deletedAt else current.deletedAt)
  }

  /** One row, checked against primary keys, unique indexes and foreign keys. */
  function Apply(db: Db, e: Entry): Option<Db> {
    match e
    case AddTenant(id, row) =>
      if id in db.tenants || SlugTaken(db, row.slug) then None
      else Some(db.(tenants := db.tenants[id := row]))
    case ModifyTenant(id, before, after) =>
      if id !in db.tenants then None
      else Some(db.(tenants := db.tenants[id := Merge(db.tenants[id], before, after)]))
    case AddStatus(id) =>
      if id in db.statuses || id !in db.tenants then None else Some(db.(statuses := db.statuses + [id]))
    case AddSpec(spec) =>
      if spec.tenantId !in db.tenants || HasSpec(db, spec.tenantId, spec.generation) then None
      else Some(db.(specs := db.specs + [spec]))
    case AddOutbox(m) =>
      if m.tenantId !in db.tenants then None else Some(db.(outbox := db.outbox + [m]))
  }

  function ApplyAll(db: Db, entries: seq<Entry>): Option<Db>
    decreases |entries|
  {
    if entries == [] then Some(db)
    else match Apply(db, entries[0])
      case None => None
      case Some(next) => ApplyAll(next, entries[1..])
  }

  /** All rows and their audit rows land together, or none does. */
  function Save(db: Db, entries: seq<Entry>, actor: string, requestId: nat): Option<Db> {
    match ApplyAll(db, entries)
    case None => None
    case Some(next) => Some(next.(audit := next.audit + AuditAll(entries, actor, requestId)))
  }

  /** One handler's unit of work. */
  class UnitOfWork {
    var db: Db
    var staged: seq<Entry>

    constructor (db: Db)
      ensures this.db == db && staged == []
    {
      this.db, staged := db, [];
    }

    method Stage(e: Entry)
      modifies this`staged
      ensures staged == old(staged) + [e]
    {
      staged := staged + [e];
    }

    method SaveChanges(actor: string, requestId: nat) returns (ok: bool)
      modifies this
      ensures ok <==> Save(old(db), old(staged), actor, requestId).Some?
      ensures db == if ok then Save(old(db), old(staged), actor, requestId).value else old(db)
      ensures staged == []
    {
      var events := Append(staged, actor, requestId);
      var next := db;
      var entries := staged;
      staged := [];
      for i := 0 to |entries|
        invariant db == old(db) && entries == old(staged) && staged == []
        invariant ApplyAll(next, entries[i..]) == ApplyAll(old(db), entries)
      {
        assert entries[i..][1..] == entries[i + 1..];
        var applied := Apply(next, entries[i]);
        if applied.None? {
          return false;
        }
        next := applied.value;
      }
      db := next.(audit := next.audit + events);
      return true;
    }
  }
}
