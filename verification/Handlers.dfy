/** The committing part of the two handlers as it runs: a tracked tenant is bumped in
    place, rows are staged in order on the unit of work, one SaveChanges commits them. */
module Handlers {
  import opened Common
  import opened Canonical
  import opened SpecHash
  import opened Database
  import opened SpecProtocol

  /** The tracked tenant aggregate; a method that throws returns false. */
  class Tenant {
    var row: TenantRow

    constructor (row: TenantRow)
      ensures this.row == row
    {
      this.row := row;
    }

    method BumpGeneration() returns (ok: bool)
      modifies this
      ensures ok <==> old(row).deletedAt.None?
      ensures row == if ok then old(row).(generation := old(row).generation + 1) else old(row)
    {
      if row.deletedAt.Some? {
        return false;
      }
      row := row.(generation := row.generation + 1);
      return true;
    }

    method MarkDeleted(at: int) returns (ok: bool)
      modifies this
      ensures ok <==> old(row).deletedAt.None?
      ensures row == if ok then old(row).(deletedAt := Some(at)) else old(row)
    {
      if row.deletedAt.Some? {
        return false;
      }
      row := row.(deletedAt := Some(at));
      return true;
    }
  }

  /** From the bump to the answer of an update whose document differs from the latest. */
  method CommitUpdate(sha: Sha, id: RequestId, req: Request, tenant: Tenant, uow: UnitOfWork) returns (answer: Answer)
    requires req.Update? && uow.staged == []
    modifies tenant, uow
    ensures (uow.db, Done(req, answer)) == Advance(sha, id, old(uow.db), Differs(req, old(tenant.row)))
  {
    hide Save, Canonicalise;
    var loaded := tenant.row;
    var bumped := tenant.BumpGeneration();
    if !bumped || IsBlank(req.actor) {
      return Fault;
    }
    var spec := NewSpec(sha, req, req.tenantId, tenant.row.generation);
    uow.Stage(ModifyTenant(req.tenantId, loaded, tenant.row));
    uow.Stage(AddSpec(spec));
    uow.Stage(AddOutbox(OutboxRow(req.tenantId, tenant.row.generation, spec.hash)));
    assert uow.staged == UpdateEntries(sha, req, loaded);
    var saved := uow.SaveChanges(req.actor, id);
    if !saved {
      return Fault;
    }
    return Written(req.tenantId, tenant.row.generation, spec.hash, true);
  }

  /** From the free slug to the answer of a create. */
  method CommitCreate(sha: Sha, id: RequestId, req: Request, uow: UnitOfWork) returns (answer: Answer)
    requires req.Create? && uow.staged == []
    modifies uow
    ensures (uow.db, Done(req, answer)) == Advance(sha, id, old(uow.db), SlugFree(req))
  {
    hide Save, Canonicalise;
    if IsBlank(req.actor) {
      return Fault;
    }
    var tenant := new Tenant(TenantRow(req.slug, req.displayName, 0, req.now, None));
    var bumped := tenant.BumpGeneration();
    var spec := NewSpec(sha, req, req.newId, tenant.row.generation);
    uow.Stage(AddTenant(req.newId, tenant.row));
    uow.Stage(AddStatus(req.newId));
    uow.Stage(AddSpec(spec));
    uow.Stage(AddOutbox(OutboxRow(req.newId, tenant.row.generation, spec.hash)));
    assert uow.staged == CreateEntries(sha, req);
    var saved := uow.SaveChanges(req.actor, id);
    if !saved {
      return Fault;
    }
    return Created(req.newId, tenant.row.generation, spec.hash);
  }
}
