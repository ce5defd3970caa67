/** What every interleaving of create and update requests keeps. */
module SpecTheorems {
  import opened Common
  import opened Canonical
  import opened CanonicalTheorems
  import opened SpecHash
  import opened Database
  import opened SpecProtocol

  // ----- What one SaveChanges of each handler does

  function AfterUpdate(sha: Sha, id: RequestId, db: Db, req: Request, tenant: TenantRow): Db
    requires req.Update? && req.tenantId in db.tenants
  {
    var g, spec := tenant.generation + 1, NewSpec(sha, req, req.tenantId, tenant.generation + 1);
    Db(db.tenants[req.tenantId := db.tenants[req.tenantId].(generation := g)], db.statuses, db.specs + [spec],
       db.outbox + [OutboxRow(req.tenantId, g, spec.hash)],
       db.audit + [AuditRow(req.tenantId, SpecUpdated(g), req.actor, id)])
  }

  function AfterCreate(sha: Sha, id: RequestId, db: Db, req: Request): Db
    requires req.Create?
  {
    var spec := NewSpec(sha, req, req.newId, 1);
    Db(db.tenants[req.newId := TenantRow(req.slug, req.displayName, 1, req.now, None)], db.statuses + [req.newId],
       db.specs + [spec], db.outbox + [OutboxRow(req.newId, 1, spec.hash)],
       db.audit + [AuditRow(req.newId, TenantCreated, req.actor, id),
                   AuditRow(req.newId, SpecUpdated(1), req.actor, id)])
  }

  lemma ApplyCons(db: Db, e: Entry, rest: seq<Entry>)
    ensures ApplyAll(db, [e] + rest) == match Apply(db, e) case None => None case Some(x) => ApplyAll(x, rest)
    ensures rest == [] ==> ApplyAll(db, [e] + rest) == Apply(db, e)
  {
    hide Apply;
    assert ([e] + rest)[1..] == rest;
  }

  lemma AuditCons(e: Entry, rest: seq<Entry>, actor: string, id: RequestId)
    ensures AuditAll([e] + rest, actor, id) ==
      match AuditOf(e, actor, id) case None => AuditAll(rest, actor, id) case Some(r) => [r] + AuditAll(rest, actor, id)
    ensures AuditAll([], actor, id) == []
  {
    hide AuditOf;
    assert ([e] + rest)[1..] == rest;
  }

  lemma SameSpecs(db: Db, db': Db, t: Id, g: nat)
    requires db.specs == db'.specs
    ensures HasSpec(db, t, g) <==> HasSpec(db', t, g)
  {
  }

  lemma UpdateSaved(sha: Sha, id: RequestId, db: Db, req: Request, tenant: TenantRow)
    requires req.Update?
    ensures Save(db, UpdateEntries(sha, req, tenant), req.actor, id) ==
      if req.tenantId !in db.tenants || HasSpec(db, req.tenantId, tenant.generation + 1) then None
      else Some(AfterUpdate(sha, id, db, req, tenant))
  {
    hide Canonicalise, Of, ApplyAll, AuditAll;
    var t, g := req.tenantId, tenant.generation + 1;
    var spec := NewSpec(sha, req, t, g);
    var e0, e1, e2 := ModifyTenant(t, tenant, tenant.(generation := g)), AddSpec(spec),
                      AddOutbox(OutboxRow(t, g, spec.hash));
    assert UpdateEntries(sha, req, tenant) == [e0] + ([e1] + ([e2] + []));
    AuditCons(e2, [], req.actor, id);
    AuditCons(e1, [e2] + [], req.actor, id);
    AuditCons(e0, [e1] + ([e2] + []), req.actor, id);
    assert AuditAll(UpdateEntries(sha, req, tenant), req.actor, id) == [AuditRow(t, SpecUpdated(g), req.actor, id)];
    ApplyCons(db, e0, [e1] + ([e2] + []));
    if t in db.tenants {
      var db1 := Apply(db, e0).value;
      ApplyCons(db1, e1, [e2] + []);
      SameSpecs(db, db1, t, g);
      if !HasSpec(db1, t, g) {
        ApplyCons(Apply(db1, e1).value, e2, []);
        var db3 := Apply(Apply(db1, e1).value, e2).value;
        assert ApplyAll(db, UpdateEntries(sha, req, tenant)) == Some(db3);
        assert db3.(audit := AfterUpdate(sha, id, db, req, tenant).audit) == AfterUpdate(sha, id, db, req, tenant);
      }
    }
  }

  lemma CreateSaved(sha: Sha, id: RequestId, db: Db, req: Request)
    requires req.Create?
    ensures Save(db, CreateEntries(sha, req), req.actor, id) ==
      if req.newId in db.tenants || SlugTaken(db, req.slug) || req.newId in db.statuses || HasSpec(db, req.newId, 1)
      then None
      else Some(AfterCreate(sha, id, db, req))
  {
    hide Canonicalise, Of, ApplyAll, AuditAll;
    var t := req.newId;
    var spec := NewSpec(sha, req, t, 1);
    var e0, e1, e2, e3 := AddTenant(t, TenantRow(req.slug, req.displayName, 1, req.now, None)), AddStatus(t),
                          AddSpec(spec), AddOutbox(OutboxRow(t, 1, spec.hash));
    assert CreateEntries(sha, req) == [e0] + ([e1] + ([e2] + ([e3] + [])));
    AuditCons(e3, [], req.actor, id);
    AuditCons(e2, [e3] + [], req.actor, id);
    AuditCons(e1, [e2] + ([e3] + []), req.actor, id);
    AuditCons(e0, [e1] + ([e2] + ([e3] + [])), req.actor, id);
    assert AuditAll(CreateEntries(sha, req), req.actor, id) ==
           [AuditRow(t, TenantCreated, req.actor, id), AuditRow(t, SpecUpdated(1), req.actor, id)];
    ApplyCons(db, e0, [e1] + ([e2] + ([e3] + [])));
    if Apply(db, e0).Some? {
      var db1 := Apply(db, e0).value;
      ApplyCons(db1, e1, [e2] + ([e3] + []));
      if Apply(db1, e1).Some? {
        var db2 := Apply(db1, e1).value;
        ApplyCons(db2, e2, [e3] + []);
        SameSpecs(db, db2, t, 1);
        if !HasSpec(db, t, 1) {
          ApplyCons(Apply(db2, e2).value, e3, []);
          var db4 := Apply(Apply(db2, e2).value, e3).value;
          assert ApplyAll(db, CreateEntries(sha, req)) == Some(db4);
          assert db4.(audit := AfterCreate(sha, id, db, req).audit) == AfterCreate(sha, id, db, req);
        }
      }
    }
  }

  lemma ModifySaved(db: Db, t: Id, after: TenantRow)
    requires t in db.tenants && after.generation == db.tenants[t].generation && after.slug == db.tenants[t].slug
    ensures var e := ModifyTenant(t, db.tenants[t], after);
      Save(db, [e], "system", 0) ==
        Some(db.(tenants := db.tenants[t := Merge(db.tenants[t], db.tenants[t], after)],
                 audit := db.audit + OptionSeq(AuditOf(e, "system", 0))))
  {
    var e := ModifyTenant(t, db.tenants[t], after);
    assert [e] == [e] + [];
    ApplyCons(db, e, []);
    AuditCons(e, [], "system", 0);
    assert AuditAll([e], "system", 0) == OptionSeq(AuditOf(e, "system", 0));
  }

  function OptionSeq<T>(x: Option<T>): seq<T> { if x.None? then [] else [x.value] }

  // ----- Counts

  lemma {:induction false} SpecCountPositive(rows: seq<SpecRow>, t: Id, g: nat)
    ensures SpecCount(rows, t, g) > 0 <==> exists r <- rows :: r.tenantId == t && r.generation == g
  {
    if rows != [] {
      var init, last := rows[..|rows| - 1], rows[|rows| - 1];
      SpecCountPositive(init, t, g);
      assert rows == init + [last];
    }
  }

  lemma {:induction false} StatusCountPositive(rows: seq<Id>, t: Id)
    ensures StatusCount(rows, t) > 0 <==> t in rows
  {
    if rows != [] {
      StatusCountPositive(rows[..|rows| - 1], t);
      assert rows == rows[..|rows| - 1] + [rows[|rows| - 1]];
    }
  }

  lemma AuditCountSnoc(rows: seq<AuditRow>, r: AuditRow, t: Id, a: Action)
    ensures AuditCount(rows + [r], t, a) == AuditCount(rows, t, a) + (if r.tenantId == t && r.action == a then 1 else 0)
  {
    assert (rows + [r])[..|rows|] == rows;
  }

  lemma SpecCountSnoc(rows: seq<SpecRow>, r: SpecRow, t: Id, g: nat)
    ensures SpecCount(rows + [r], t, g) ==
      SpecCount(rows, t, g) + (if r.tenantId == t && r.generation == g then 1 else 0)
  {
    assert (rows + [r])[..|rows|] == rows;
  }

  lemma OutboxCountSnoc(rows: seq<OutboxRow>, r: OutboxRow, t: Id, g: nat)
    ensures OutboxCount(rows + [r], t, g) ==
      OutboxCount(rows, t, g) + (if r.tenantId == t && r.generation == g then 1 else 0)
  {
    assert (rows + [r])[..|rows|] == rows;
  }

  lemma StatusCountSnoc(rows: seq<Id>, r: Id, t: Id)
    ensures StatusCount(rows + [r], t) == StatusCount(rows, t) + (if r == t then 1 else 0)
  {
    assert (rows + [r])[..|rows|] == rows;
  }

  /** In an exact history the index refuses generation g exactly when it was reached. */
  lemma IndexKnowsReached(sha: Sha, db: Db, t: Id, g: nat)
    requires Exact(sha, db)
    ensures HasSpec(db, t, g) <==> Reached(db, t, g) == 1
    ensures t in db.statuses <==> t in db.tenants
  {
    SpecCountPositive(db.specs, t, g);
    StatusCountPositive(db.statuses, t);
    assert SpecCount(db.specs, t, g) == Reached(db, t, g);
    assert StatusCount(db.statuses, t) == (if t in db.tenants then 1 else 0);
  }

  // ----- Every commit keeps the history exact

  lemma HashesGrow(sha: Sha, db: Db, next: Db, spec: SpecRow)
    requires HashesHonest(sha, db) && spec.hash == sha(spec.json)
    requires next.specs == db.specs + [spec]
    requires next.outbox == db.outbox + [OutboxRow(spec.tenantId, spec.generation, spec.hash)]
    ensures HashesHonest(sha, next)
  {
    forall m | m in next.outbox ensures Announces(next, m) {
      if m in db.outbox {
        var r :| r in db.specs && r.tenantId == m.tenantId && r.generation == m.generation && r.hash == m.hash;
        assert r in next.specs;
      } else {
        assert spec in next.specs;
      }
    }
  }

  lemma UpdateKeepsExact(sha: Sha, id: RequestId, db: Db, req: Request, tenant: TenantRow)
    requires Exact(sha, db) && req.Update? && req.tenantId in db.tenants
    requires db.tenants[req.tenantId].generation == tenant.generation
    ensures Exact(sha, AfterUpdate(sha, id, db, req, tenant))
  {
    hide Canonicalise, SpecCount, OutboxCount, AuditCount, StatusCount;
    var next := AfterUpdate(sha, id, db, req, tenant);
    HashesGrow(sha, db, next, NewSpec(sha, req, req.tenantId, tenant.generation + 1));
    hide HashesHonest, NewSpec, Of;
    forall t: Id, g: nat
      ensures SpecCount(next.specs, t, g) == Reached(next, t, g)
      ensures OutboxCount(next.outbox, t, g) == Reached(next, t, g)
      ensures AuditCount(next.audit, t, SpecUpdated(g)) == Reached(next, t, g)
    {
      UpdateCounts(sha, id, db, req, tenant, t, g);
    }
    forall t: Id ensures AuditCount(next.audit, t, TenantCreated) == if t in next.tenants then 1 else 0 {
      UpdateCounts(sha, id, db, req, tenant, t, 1);
    }
  }

  lemma UpdateCounts(sha: Sha, id: RequestId, db: Db, req: Request, tenant: TenantRow, t: Id, g: nat)
    requires Exact(sha, db) && req.Update? && req.tenantId in db.tenants
    requires db.tenants[req.tenantId].generation == tenant.generation
    ensures var next := AfterUpdate(sha, id, db, req, tenant);
      && SpecCount(next.specs, t, g) == OutboxCount(next.outbox, t, g) == AuditCount(next.audit, t, SpecUpdated(g)) ==
         Reached(next, t, g)
      && AuditCount(next.audit, t, TenantCreated) == if t in next.tenants then 1 else 0
  {
    hide SpecCount, OutboxCount, AuditCount, StatusCount, HashesHonest, Canonicalise, Of;
    var spec := NewSpec(sha, req, req.tenantId, tenant.generation + 1);
    var row := AuditRow(req.tenantId, SpecUpdated(tenant.generation + 1), req.actor, id);
    SpecCountSnoc(db.specs, spec, t, g);
    OutboxCountSnoc(db.outbox, OutboxRow(req.tenantId, tenant.generation + 1, spec.hash), t, g);
    AuditCountSnoc(db.audit, row, t, SpecUpdated(g));
    AuditCountSnoc(db.audit, row, t, TenantCreated);
  }

  lemma CreateKeepsExact(sha: Sha, id: RequestId, db: Db, req: Request)
    requires Exact(sha, db) && req.Create? && req.newId !in db.tenants && !SlugTaken(db, req.slug)
    ensures Exact(sha, AfterCreate(sha, id, db, req))
  {
    hide Canonicalise, SpecCount, OutboxCount, AuditCount, StatusCount;
    var next := AfterCreate(sha, id, db, req);
    HashesGrow(sha, db, next, NewSpec(sha, req, req.newId, 1));
    hide HashesHonest, NewSpec, Of;
    forall t: Id, g: nat
      ensures SpecCount(next.specs, t, g) == Reached(next, t, g)
      ensures OutboxCount(next.outbox, t, g) == Reached(next, t, g)
      ensures AuditCount(next.audit, t, SpecUpdated(g)) == Reached(next, t, g)
    {
      CreateCounts(sha, id, db, req, t, g);
    }
    forall t: Id
      ensures AuditCount(next.audit, t, TenantCreated) == if t in next.tenants then 1 else 0
      ensures StatusCount(next.statuses, t) == if t in next.tenants then 1 else 0
    {
      CreateCounts(sha, id, db, req, t, 1);
    }
  }

  lemma CreateCounts(sha: Sha, id: RequestId, db: Db, req: Request, t: Id, g: nat)
    requires Exact(sha, db) && req.Create? && req.newId !in db.tenants
    ensures var next := AfterCreate(sha, id, db, req);
      && SpecCount(next.specs, t, g) == OutboxCount(next.outbox, t, g) == AuditCount(next.audit, t, SpecUpdated(g)) ==
         Reached(next, t, g)
      && AuditCount(next.audit, t, TenantCreated) == StatusCount(next.statuses, t) == if t in next.tenants then 1 else 0
  {
    hide SpecCount, OutboxCount, AuditCount, StatusCount, HashesHonest, Canonicalise, Of;
    var next := AfterCreate(sha, id, db, req);
    var spec := NewSpec(sha, req, req.newId, 1);
    var row0, row1 := AuditRow(req.newId, TenantCreated, req.actor, id),
                      AuditRow(req.newId, SpecUpdated(1), req.actor, id);
    assert next.audit == (db.audit + [row0]) + [row1];
    SpecCountSnoc(db.specs, spec, t, g);
    OutboxCountSnoc(db.outbox, OutboxRow(req.newId, 1, spec.hash), t, g);
    AuditCountSnoc(db.audit, row0, t, SpecUpdated(g));
    AuditCountSnoc(db.audit + [row0], row1, t, SpecUpdated(g));
    AuditCountSnoc(db.audit, row0, t, TenantCreated);
    AuditCountSnoc(db.audit + [row0], row1, t, TenantCreated);
    StatusCountSnoc(db.statuses, req.newId, t);
  }

  /** What renaming or deleting leaves alone. */
  ghost predicate SameButFor(db: Db, next: Db, e: Entry) {
    && next.specs == db.specs && next.outbox == db.outbox && next.statuses == db.statuses
    && next.audit == db.audit + OptionSeq(AuditOf(e, "system", 0)) && next.tenants.Keys == db.tenants.Keys
    && forall t | t in db.tenants ::
         next.tenants[t].generation == db.tenants[t].generation && next.tenants[t].slug == db.tenants[t].slug
  }

  lemma ModifyFacts(s: State, t: Id, after: TenantRow)
    requires t in s.db.tenants
    requires after.generation == s.db.tenants[t].generation && after.slug == s.db.tenants[t].slug
    ensures SameButFor(s.db, Modify(s, t, Some(after)).db, ModifyTenant(t, s.db.tenants[t], after))
    ensures Modify(s, t, Some(after)).sessions == s.sessions
  {
    hide Save, AuditOf, OptionSeq;
    ModifySaved(s.db, t, after);
  }

  lemma ModifyKeepsExact(sha: Sha, s: State, t: Id, after: TenantRow)
    requires Exact(sha, s.db) && t in s.db.tenants
    requires after.generation == s.db.tenants[t].generation && after.slug == s.db.tenants[t].slug
    ensures Exact(sha, Modify(s, t, Some(after)).db)
    ensures Grows(s.db, Modify(s, t, Some(after)).db) && Modify(s, t, Some(after)).sessions == s.sessions
  {
    hide Modify, Exact;
    ModifyFacts(s, t, after);
    ExactIfSame(sha, s.db, Modify(s, t, Some(after)).db, ModifyTenant(t, s.db.tenants[t], after));
    hide AuditOf;
  }

  lemma ExactIfSame(sha: Sha, db: Db, next: Db, e: Entry)
    requires Exact(sha, db) && SameButFor(db, next, e) && e.ModifyTenant?
    ensures Exact(sha, next)
  {
    hide AuditOf, HashesHonest, SpecCount, OutboxCount, AuditCount, StatusCount;
    assert forall u: Id, g: nat :: Reached(next, u, g) == Reached(db, u, g);
    hide Reached;
    forall u: Id, a: Action | a.SpecUpdated? || a.TenantCreated?
      ensures AuditCount(next.audit, u, a) == AuditCount(db.audit, u, a)
    {
      ModifyAuditsNothing(db.audit, e, u, a);
    }
    SameHashes(sha, db, next);
  }

  /** Renaming or deleting adds no SpecUpdated or TenantCreated row. */
  lemma ModifyAuditsNothing(rows: seq<AuditRow>, e: Entry, u: Id, a: Action)
    requires e.ModifyTenant? && (a.SpecUpdated? || a.TenantCreated?)
    ensures AuditCount(rows + OptionSeq(AuditOf(e, "system", 0)), u, a) == AuditCount(rows, u, a)
  {
    var audit := AuditOf(e, "system", 0);
    if audit.Some? {
      AuditCountSnoc(rows, audit.value, u, a);
    } else {
      assert rows + OptionSeq(audit) == rows;
    }
  }

  lemma SameHashes(sha: Sha, db: Db, next: Db)
    requires HashesHonest(sha, db) && next.specs == db.specs && next.outbox == db.outbox
    ensures HashesHonest(sha, next)
  {
    forall m | m in next.outbox ensures Announces(next, m) {
      assert Announces(db, m);
    }
  }

  // ----- What each request may rely on, and what its answer means

  /** Nothing is ever taken back. */
  ghost predicate Grows(db: Db, next: Db) {
    && (forall r <- db.specs :: r in next.specs)
    && (forall r <- db.audit :: r in next.audit)
    && (forall t | t in db.tenants ::
          && t in next.tenants && db.tenants[t].generation <= next.tenants[t].generation
          && db.tenants[t].slug == next.tenants[t].slug)
  }

  ghost predicate SessionOk(sha: Sha, db: Db, id: RequestId, s: Session) {
    match s
    case Fresh(_) => true
    case SlugFree(req) => req.Create?
    case Loaded(req, tenant) => LoadedOk(db, req, tenant)
    case Differs(req, tenant) => LoadedOk(db, req, tenant)
    case Done(req, answer) => AnswerOk(sha, db, id, req, answer)
  }

  ghost predicate LoadedOk(db: Db, req: Request, tenant: TenantRow) {
    && req.Update? && req.tenantId in db.tenants && req.ifMatch == Some(tenant.generation)
    && 1 <= tenant.generation <= db.tenants[req.tenantId].generation && tenant.deletedAt.None?
  }

  /** An answer that reports a write names the generation after the caller's own If-Match,
      and the database holds the caller's own document there, under the caller's request id.
      An answer that reports no change names a stored hash equal to the caller's. A failed
      precondition names a generation the tenant has had that is not the caller's If-Match; a
      conflict means that the slug is taken; a refusal, that the request itself was refused. A
      fault can be a failed save or an aborted request. */
  ghost predicate AnswerOk(sha: Sha, db: Db, id: RequestId, req: Request, answer: Answer) {
    match answer
    case Created(t, g, h) =>
      && req.Create? && t == req.newId && g == 1 && h == Of(sha, req.spec)
      && NewSpec(sha, req, t, 1) in db.specs && AuditRow(t, SpecUpdated(1), req.actor, id) in db.audit
      && t in db.tenants && db.tenants[t].slug == req.slug
    case Written(t, g, h, changed) =>
      && req.Update? && t == req.tenantId && h == Of(sha, req.spec)
      && if changed then
           && g > 1 && req.ifMatch == Some(g - 1)
           && NewSpec(sha, req, t, g) in db.specs && AuditRow(t, SpecUpdated(g), req.actor, id) in db.audit
         else
           req.ifMatch == Some(g) && exists r <- db.specs :: r.tenantId == t && r.hash == h && g <= r.generation
    case PreconditionFailed(c) =>
      && req.Update? && req.ifMatch.Some? && req.ifMatch.value != c
      && req.tenantId in db.tenants && 1 <= c <= db.tenants[req.tenantId].generation
    case PreconditionRequired => req.Update? && req.ifMatch.None?
    case Conflict => req.Create? && SlugTaken(db, req.slug)
    case NotFound => req.Update? && req.spec.Object? && req.ifMatch.Some?
    case Invalid => if req.Create? then !ValidSlug(req.slug) || IsBlank(req.displayName) || !req.spec.Object?
                    else !req.spec.Object?
    case Fault => true
  }

  ghost predicate Inv(sha: Sha, s: State) {
    Exact(sha, s.db) && forall id | id in s.sessions :: SessionOk(sha, s.db, id, s.sessions[id])
  }

  lemma SessionGrows(sha: Sha, db: Db, next: Db, id: RequestId, s: Session)
    requires Grows(db, next) && SessionOk(sha, db, id, s)
    ensures SessionOk(sha, next, id, s)
  {
    hide Of, NewSpec;
    if s.Done? && s.answer.Written? && !s.answer.changed {
      var a := s.answer;
      var r :| r in db.specs && r.tenantId == a.tenantId && r.hash == a.hash && a.generation <= r.generation;
      assert r in next.specs;
    }
  }

  // ----- The commit of an update

  /** The index lets the commit through exactly when no other write has happened since the
      tenant was read: the generation at commit time still is the If-Match. */
  lemma CommitIffUnraced(sha: Sha, id: RequestId, db: Db, req: Request, tenant: TenantRow)
    requires Exact(sha, db) && LoadedOk(db, req, tenant)
    ensures Save(db, UpdateEntries(sha, req, tenant), req.actor, id).Some? <==>
            req.ifMatch == Some(db.tenants[req.tenantId].generation)
    ensures var saved := Save(db, UpdateEntries(sha, req, tenant), req.actor, id);
      saved.Some? ==>
        && saved.value == AfterUpdate(sha, id, db, req, tenant)
        && saved.value.tenants[req.tenantId].generation == req.ifMatch.value + 1
        && Exact(sha, saved.value) && Grows(db, saved.value)
  {
    hide Exact, Save, NewSpec, HasSpec;
    UpdateSaved(sha, id, db, req, tenant);
    IndexKnowsReached(sha, db, req.tenantId, tenant.generation + 1);
    if db.tenants[req.tenantId].generation == tenant.generation {
      UpdateKeepsExact(sha, id, db, req, tenant);
    }
  }

  /** An editor who had loaded the tenant when another write committed is answered with a fault, not
      with 412: exactly when the generation has moved since the load. */
  lemma LoserGetsFault(sha: Sha, id: RequestId, db: Db, req: Request, tenant: TenantRow)
    requires Exact(sha, db) && LoadedOk(db, req, tenant) && !IsBlank(req.actor)
    ensures var answer := Advance(sha, id, db, Differs(req, tenant)).1.answer;
      && (answer == Fault <==> req.ifMatch != Some(db.tenants[req.tenantId].generation))
      && (answer != Fault ==> answer == Written(req.tenantId, tenant.generation + 1, Of(sha, req.spec), true))
  {
    hide Exact, Save, IsBlank;
    CommitIffUnraced(sha, id, db, req, tenant);
  }

  lemma CreateCommits(sha: Sha, id: RequestId, db: Db, req: Request)
    requires Exact(sha, db) && req.Create?
    ensures var saved := Save(db, CreateEntries(sha, req), req.actor, id);
      && (saved.Some? <==> req.newId !in db.tenants && !SlugTaken(db, req.slug))
      && (saved.Some? ==>
            && saved.value == AfterCreate(sha, id, db, req) && Exact(sha, saved.value) && Grows(db, saved.value))
  {
    hide Exact, Save, NewSpec, HasSpec, SlugTaken;
    CreateSaved(sha, id, db, req);
    IndexKnowsReached(sha, db, req.newId, 1);
    if req.newId !in db.tenants && !SlugTaken(db, req.slug) {
      CreateKeepsExact(sha, id, db, req);
    }
  }

  // ----- Every step, every run

  /** A step of one request keeps the history exact and its own answer true. */
  ghost predicate StepOk(sha: Sha, id: RequestId, db: Db, s: Session) {
    var (next, t) := Advance(sha, id, db, s);
    Exact(sha, next) && Grows(db, next) && SessionOk(sha, next, id, t)
  }

  lemma CommitStep(sha: Sha, id: RequestId, db: Db, req: Request, tenant: TenantRow)
    requires Exact(sha, db) && LoadedOk(db, req, tenant)
    ensures StepOk(sha, id, db, Differs(req, tenant))
  {
    hide Exact, Save, Canonicalise, Of, IsBlank;
    CommitIffUnraced(sha, id, db, req, tenant);
  }

  lemma CreateStep(sha: Sha, id: RequestId, db: Db, req: Request)
    requires Exact(sha, db) && req.Create?
    ensures StepOk(sha, id, db, SlugFree(req))
  {
    hide Exact, Save, Canonicalise, Of, IsBlank;
    CreateCommits(sha, id, db, req);
  }

  lemma LoadStep(sha: Sha, id: RequestId, db: Db, req: Request, tenant: TenantRow)
    requires Exact(sha, db) && LoadedOk(db, req, tenant)
    ensures StepOk(sha, id, db, Loaded(req, tenant))
  {
    hide Exact, Save, Canonicalise, Of, FindLatest;
    NoOpAnswer(sha, db, req, tenant);
  }

  lemma FreshStep(sha: Sha, id: RequestId, db: Db, req: Request)
    requires Exact(sha, db)
    ensures StepOk(sha, id, db, Fresh(req))
  {
    hide Exact, ValidSlug, IsBlank, SlugTaken;
    if req.Update? && req.tenantId in db.tenants { GenerationsStartAtOne(sha, db, req.tenantId); }
  }

  lemma AdvanceKeepsInv(sha: Sha, id: RequestId, db: Db, s: Session)
    requires Exact(sha, db) && SessionOk(sha, db, id, s)
    ensures StepOk(sha, id, db, s)
  {
    match s
    case Differs(req, tenant) => CommitStep(sha, id, db, req, tenant);
    case SlugFree(req) => CreateStep(sha, id, db, req);
    case Loaded(req, tenant) => LoadStep(sha, id, db, req, tenant);
    case Fresh(req) => FreshStep(sha, id, db, req);
    case Done(_, _) =>
  }

  lemma GenerationsStartAtOne(sha: Sha, db: Db, t: Id)
    requires Exact(sha, db) && t in db.tenants
    ensures db.tenants[t].generation >= 1
  {
  }

  lemma {:induction false} LatestIsStored(specs: seq<SpecRow>, t: Id)
    ensures var latest := FindLatest(specs, t);
      && (latest.Some? ==> latest.value in specs && latest.value.tenantId == t)
      && (forall r <- specs | r.tenantId == t :: latest.Some? && r.generation <= latest.value.generation)
  {
    if specs != [] {
      LatestIsStored(specs[..|specs| - 1], t);
      assert specs == specs[..|specs| - 1] + [specs[|specs| - 1]];
    }
  }

  /** The latest spec is the one at the tenant's current generation. */
  lemma LatestIsCurrent(sha: Sha, db: Db, t: Id)
    requires Exact(sha, db) && t in db.tenants
    ensures FindLatest(db.specs, t).Some? && FindLatest(db.specs, t).value.generation == db.tenants[t].generation
  {
    LatestIsStored(db.specs, t);
    var g, latest := db.tenants[t].generation, FindLatest(db.specs, t);
    SpecCountPositive(db.specs, t, g);
    assert SpecCount(db.specs, t, g) == Reached(db, t, g) == 1;
    var r :| r in db.specs && r.tenantId == t && r.generation == g;
    SpecCountPositive(db.specs, t, latest.value.generation);
    assert SpecCount(db.specs, t, latest.value.generation) == Reached(db, t, latest.value.generation);
  }

  /** A no-change answer is about the current document, but names the generation read
      earlier: the two agree exactly when no write came in between. */
  lemma NoOpAnswer(sha: Sha, db: Db, req: Request, tenant: TenantRow)
    requires Exact(sha, db) && LoadedOk(db, req, tenant)
    ensures var latest := FindLatest(db.specs, req.tenantId);
      && latest.Some? && latest.value in db.specs && latest.value.tenantId == req.tenantId
      && latest.value.generation == db.tenants[req.tenantId].generation
      && (latest.value.generation == tenant.generation <==> req.ifMatch == Some(db.tenants[req.tenantId].generation))
  {
    LatestIsStored(db.specs, req.tenantId);
    LatestIsCurrent(sha, db, req.tenantId);
  }

  /** In every run, a loaded update whose document is the current one up to key order is answered
      "unchanged" and writes nothing; unless the digest collides, any other document goes on to be written. */
  lemma ResavedIsNoOp(sha: Sha, steps: seq<Step>, id: RequestId, req: Request, tenant: TenantRow, stored: Json)
    requires var s := Run(sha, INITIAL, steps);
      && id in s.sessions && s.sessions[id] == Loaded(req, tenant) && req.Update?
      && var latest := FindLatest(s.db.specs, req.tenantId);
        latest.Some? && latest.value.json == Canonicalise(stored)
    ensures var s := Run(sha, INITIAL, steps);
      var latest := FindLatest(s.db.specs, req.tenantId).value;
      && req.tenantId in s.db.tenants && latest.generation == s.db.tenants[req.tenantId].generation
      && (Same(stored, req.spec) ==>
            Advance(sha, id, s.db, Loaded(req, tenant)) ==
            (s.db, Done(req, Written(req.tenantId, tenant.generation, latest.hash, false))))
      && (!Same(stored, req.spec) && !Collides(sha, Canonicalise(stored), Canonicalise(req.spec)) ==>
            Advance(sha, id, s.db, Loaded(req, tenant)) == (s.db, Differs(req, tenant)))
  {
    hide Run, FindLatest, Canonicalise, Same;
    var s := Run(sha, INITIAL, steps);
    RunKeepsInv(sha, steps);
    assert SessionOk(sha, s.db, id, s.sessions[id]);
    LatestIsStored(s.db.specs, req.tenantId);
    LatestIsCurrent(sha, s.db, req.tenantId);
    CanonicalDecidesSame(stored, req.spec);
  }

  lemma NextKeepsInv(sha: Sha, s: State, step: Step)
    requires Inv(sha, s)
    ensures Inv(sha, Next(sha, s, step)) && Grows(s.db, Next(sha, s, step).db)
  {
    hide Exact, Advance, Save;
    var next := Next(sha, s, step);
    match step
    case Begin(id, req) =>
    case Go(id) =>
      if id in s.sessions { AdvanceKeepsInv(sha, id, s.db, s.sessions[id]); }
    case Abort(id) =>
    case DeleteTenant(t, at) =>
      if t in s.db.tenants && Delete(s.db.tenants[t], at).Some? {
        ModifyKeepsExact(sha, s, t, Delete(s.db.tenants[t], at).value);
      }
    case RenameTenant(t, name) =>
      if t in s.db.tenants && Rename(s.db.tenants[t], name).Some? {
        ModifyKeepsExact(sha, s, t, Rename(s.db.tenants[t], name).value);
      }
    assert Exact(sha, next.db) && Grows(s.db, next.db);
    forall id | id in next.sessions ensures SessionOk(sha, next.db, id, next.sessions[id]) {
      if id in s.sessions { SessionGrows(sha, s.db, next.db, id, s.sessions[id]); }
    }
  }

  /** Over every interleaving of any number of requests. */
  lemma {:induction false} RunKeepsInv(sha: Sha, steps: seq<Step>)
    ensures Inv(sha, Run(sha, INITIAL, steps))
  {
    if steps != [] {
      RunKeepsInv(sha, steps[..|steps| - 1]);
      NextKeepsInv(sha, Run(sha, INITIAL, steps[..|steps| - 1]), steps[|steps| - 1]);
    }
  }

  // ----- No lost update

  lemma {:induction false} TwoRowsCountTwice(rows: seq<AuditRow>, p: AuditRow, q: AuditRow)
    requires p in rows && q in rows && p != q && p.tenantId == q.tenantId && p.action == q.action
    ensures AuditCount(rows, p.tenantId, p.action) >= 2
  {
    var init, last := rows[..|rows| - 1], rows[|rows| - 1];
    assert rows == init + [last];
    if last == p {
      OneRowCounts(init, q);
    } else if last == q {
      OneRowCounts(init, p);
    } else {
      TwoRowsCountTwice(init, p, q);
    }
  }

  lemma {:induction false} OneRowCounts(rows: seq<AuditRow>, p: AuditRow)
    requires p in rows
    ensures AuditCount(rows, p.tenantId, p.action) >= 1
  {
    var init, last := rows[..|rows| - 1], rows[|rows| - 1];
    assert rows == init + [last];
    if last != p { OneRowCounts(init, p); }
  }

  /** The generation a finished request wrote, if any. */
  function Wrote(s: Session): Option<(Id, nat)> {
    match s
    case Done(_, Created(t, g, _)) => Some((t, g))
    case Done(_, Written(t, g, _, true)) => Some((t, g))
    case _ => None
  }

  /** Of any number of requests racing from the same generation, at most one commits. */
  lemma AtMostOneWrites(sha: Sha, steps: seq<Step>, a: RequestId, b: RequestId)
    requires var s := Run(sha, INITIAL, steps);
      a in s.sessions && b in s.sessions && Wrote(s.sessions[a]).Some? && Wrote(s.sessions[a]) == Wrote(s.sessions[b])
    ensures a == b
  {
    var s := Run(sha, INITIAL, steps);
    RunKeepsInv(sha, steps);
    var (t, g) := Wrote(s.sessions[a]).value;
    var p := AuditRow(t, SpecUpdated(g), s.sessions[a].req.actor, a);
    var q := AuditRow(t, SpecUpdated(g), s.sessions[b].req.actor, b);
    assert SessionOk(sha, s.db, a, s.sessions[a]) && SessionOk(sha, s.db, b, s.sessions[b]);
    assert p in s.db.audit && q in s.db.audit;
    assert AuditCount(s.db.audit, t, SpecUpdated(g)) == Reached(s.db, t, g);
    if p != q {
      TwoRowsCountTwice(s.db.audit, p, q);
    }
  }

  /** Of any number of creates racing for one slug, at most one is answered Created. */
  lemma OneCreatePerSlug(sha: Sha, steps: seq<Step>, a: RequestId, b: RequestId)
    requires var s := Run(sha, INITIAL, steps);
      && a in s.sessions && s.sessions[a].Done? && s.sessions[a].answer.Created? && s.sessions[a].req.Create?
      && b in s.sessions && s.sessions[b].Done? && s.sessions[b].answer.Created? && s.sessions[b].req.Create?
      && s.sessions[a].req.slug == s.sessions[b].req.slug
    ensures a == b
  {
    hide Run, SpecsExact, OutboxExact, AuditExact, HashesHonest;
    var s := Run(sha, INITIAL, steps);
    RunKeepsInv(sha, steps);
    assert SessionOk(sha, s.db, a, s.sessions[a]) && SessionOk(sha, s.db, b, s.sessions[b]);
    AtMostOneWrites(sha, steps, a, b);
  }

  /** A request that reports a write at n edited from n - 1, n - 1 was the generation when
      it committed, and n now holds its own document. */
  lemma WriteIsUnraced(sha: Sha, id: RequestId, db: Db, session: Session, t: Id, n: nat)
    requires Exact(sha, db) && SessionOk(sha, db, id, session) && !session.Done?
    requires var after := Advance(sha, id, db, session).1;
      && after.Done? && after.answer.Written? && after.answer.changed
      && after.answer.tenantId == t && after.answer.generation == n
    ensures var req, next := session.req, Advance(sha, id, db, session).0;
      && req.Update? && req.tenantId == t && req.ifMatch == Some(n - 1)
      && t in db.tenants && db.tenants[t].generation == n - 1
      && t in next.tenants && next.tenants[t].generation == n
      && next.specs == db.specs + [NewSpec(sha, req, t, n)]
  {
    hide Exact, Save, Canonicalise;
    if session.Differs? {
      CommitIffUnraced(sha, id, db, session.req, session.tenant);
    }
  }

  lemma NoLostUpdate(sha: Sha, steps: seq<Step>, id: RequestId, t: Id, n: nat)
    requires var s := Run(sha, INITIAL, steps);
      id in s.sessions && !s.sessions[id].Done? && Wrote(Advance(sha, id, s.db, s.sessions[id]).1) == Some((t, n))
    ensures var s := Run(sha, INITIAL, steps);
      var req, next := s.sessions[id].req, Advance(sha, id, s.db, s.sessions[id]).0;
      && (req.Create? ==> t !in s.db.tenants && n == 1)
      && (req.Update? ==> t in s.db.tenants && req.ifMatch == Some(n - 1) && s.db.tenants[t].generation == n - 1)
      && t in next.tenants && next.tenants[t].generation == n
      && next.specs == s.db.specs + [NewSpec(sha, req, t, n)]
  {
    hide Exact, Save, Canonicalise, Run;
    var s := Run(sha, INITIAL, steps);
    RunKeepsInv(sha, steps);
    var session := s.sessions[id];
    assert SessionOk(sha, s.db, id, session);
    if session.SlugFree? {
      CreateCommits(sha, id, s.db, session.req);
    } else {
      WriteIsUnraced(sha, id, s.db, session, t, n);
    }
  }

  // ----- Two runs in which a request is overtaken after it has loaded the tenant

  lemma RunSnoc(sha: Sha, steps: seq<Step>, step: Step)
    ensures Run(sha, INITIAL, []) == INITIAL
    ensures Run(sha, INITIAL, steps + [step]) == Next(sha, Run(sha, INITIAL, steps), step)
  {
    assert (steps + [step])[..|steps|] == steps;
  }

  function Edit(spec: Json): Request { Update(7, Some(1), spec, "ann", 0) }

  /** A tenant is created with the first document; request 2 has loaded generation 1 when request 3 writes
      the second document as generation 2. */
  lemma Overtaken(sha: Sha, first: Json, second: Json, other: Json) returns (steps: seq<Step>, tenant: TenantRow)
    requires first.Object? && second.Object? && other.Object? && Of(sha, first) != Of(sha, second)
    ensures var s := Run(sha, INITIAL, steps);
      && 2 in s.sessions && s.sessions[2] == Loaded(Edit(other), tenant)
      && tenant.generation == 1 && tenant.deletedAt.None? && 7 in s.db.tenants
      && s.db.specs == [NewSpec(sha, Create("abc", "Abc", first, "ann", 7, 0), 7, 1), NewSpec(sha, Edit(second), 7, 2)]
  {
    hide Run, Of, Canonicalise, Save, Advance, SlugTaken;
    var create, edit, mine := Create("abc", "Abc", first, "ann", 7, 0), Edit(second), Edit(other);
    StaleCreate(sha, create);
    var db := AfterCreate(sha, 1, EMPTY, create);
    tenant := db.tenants[7];
    Loads(sha, db, mine);
    Loads(sha, db, edit);
    Writes(sha, db, edit, NewSpec(sha, create, 7, 1));
    steps := [];
    RunSnoc(sha, steps, Begin(1, create));
    steps := steps + [Begin(1, create)];
    RunSnoc(sha, steps, Go(1));
    steps := steps + [Go(1)];
    RunSnoc(sha, steps, Go(1));
    steps := steps + [Go(1)];
    RunSnoc(sha, steps, Begin(2, mine));
    steps := steps + [Begin(2, mine)];
    RunSnoc(sha, steps, Go(2));
    steps := steps + [Go(2)];
    RunSnoc(sha, steps, Begin(3, edit));
    steps := steps + [Begin(3, edit)];
    RunSnoc(sha, steps, Go(3));
    steps := steps + [Go(3)];
    RunSnoc(sha, steps, Go(3));
    steps := steps + [Go(3)];
    RunSnoc(sha, steps, Go(3));
    steps := steps + [Go(3)];
  }

  /** Request 2, sending the second document too, is told "unchanged at generation 1", where the first
      document is stored. */
  lemma StaleNoOp(sha: Sha, first: Json, second: Json) returns (steps: seq<Step>)
    requires first.Object? && second.Object? && Of(sha, first) != Of(sha, second)
    ensures var s := Run(sha, INITIAL, steps);
      && 2 in s.sessions && s.sessions[2].Done?
      && s.sessions[2].answer == Written(7, 1, Of(sha, second), false)
      && exists r <- s.db.specs :: r.tenantId == 7 && r.generation == 1 && r.hash != Of(sha, second)
  {
    hide Run, Of, Canonicalise, Save, Advance, FindLatest;
    var tenant;
    steps, tenant := Overtaken(sha, first, second, second);
    var s := Run(sha, INITIAL, steps);
    Compares(sha, s.db, Edit(second), tenant);
    RunSnoc(sha, steps, Go(2));
    steps := steps + [Go(2)];
    assert s.db.specs[0] in s.db.specs;
  }

  /** Request 2, sending a third document with If-Match 1, is answered with a fault and nothing is written. */
  lemma LoserRun(sha: Sha, first: Json, second: Json, third: Json) returns (steps: seq<Step>)
    requires first.Object? && second.Object? && third.Object?
    requires Of(sha, first) != Of(sha, second) && Of(sha, third) != Of(sha, second)
    ensures var s := Run(sha, INITIAL, steps);
      && 2 in s.sessions && s.sessions[2] == Done(Edit(third), Fault)
      && |s.db.specs| == 2 && s.db.specs[1] == NewSpec(sha, Edit(second), 7, 2)
  {
    hide Run, Of, Canonicalise, Save, Advance, FindLatest;
    var tenant;
    steps, tenant := Overtaken(sha, first, second, third);
    var s := Run(sha, INITIAL, steps);
    Compares(sha, s.db, Edit(third), tenant);
    Loses(sha, s.db, Edit(third), tenant);
    RunSnoc(sha, steps, Go(2));
    steps := steps + [Go(2)];
    RunSnoc(sha, steps, Go(2));
    steps := steps + [Go(2)];
  }

  lemma LiteralsAreValid()
    ensures ValidSlug("abc") && !IsBlank("Abc") && !IsBlank("ann")
  {
    assert "Abc"[0] == 'A' && "ann"[0] == 'a';
    assert 'A' in "Abc" && 'a' in "ann" && 'A' !in " \t\r\n" && 'a' !in " \t\r\n";
  }

  lemma StaleCreate(sha: Sha, create: Request)
    requires create.Create? && create.spec.Object? && create == Create("abc", "Abc", create.spec, "ann", 7, 0)
    ensures Advance(sha, 1, EMPTY, Fresh(create)) == (EMPTY, SlugFree(create))
    ensures var db := AfterCreate(sha, 1, EMPTY, create);
      && Advance(sha, 1, EMPTY, SlugFree(create)) == (db, Done(create, Created(7, 1, Of(sha, create.spec))))
      && db.specs == [NewSpec(sha, create, 7, 1)] && 7 in db.tenants
      && db.tenants[7].generation == 1 && db.tenants[7].deletedAt.None?
  {
    LiteralsAreValid();
    hide Canonicalise, Of, Save, ValidSlug, IsBlank;
    CreateSaved(sha, 1, EMPTY, create);
  }

  lemma Loads(sha: Sha, db: Db, edit: Request)
    requires edit.Update? && edit.spec.Object? && edit == Edit(edit.spec)
    requires 7 in db.tenants && db.tenants[7].generation == 1 && db.tenants[7].deletedAt.None?
    ensures forall id :: Advance(sha, id, db, Fresh(edit)) == (db, Loaded(edit, db.tenants[7]))
  {
    hide Canonicalise, Of, Save;
  }

  lemma Writes(sha: Sha, db: Db, edit: Request, spec: SpecRow)
    requires edit.Update? && edit.spec.Object? && edit == Edit(edit.spec)
    requires db.specs == [spec] && spec.tenantId == 7 && spec.generation == 1 && spec.hash != Of(sha, edit.spec)
    requires 7 in db.tenants && db.tenants[7].generation == 1 && db.tenants[7].deletedAt.None?
    ensures Advance(sha, 3, db, Loaded(edit, db.tenants[7])) == (db, Differs(edit, db.tenants[7]))
    ensures var next := AfterUpdate(sha, 3, db, edit, db.tenants[7]);
      && Advance(sha, 3, db, Differs(edit, db.tenants[7])) ==
         (next, Done(edit, Written(7, 2, Of(sha, edit.spec), true)))
      && next.specs == [spec, NewSpec(sha, edit, 7, 2)] && 7 in next.tenants
  {
    LiteralsAreValid();
    hide Canonicalise, Of, Save, ValidSlug, IsBlank;
    UpdateSaved(sha, 3, db, edit, db.tenants[7]);
    var one := [spec];
    assert one[..|one| - 1] == [];
    assert FindLatest(one, 7) == Some(spec);
  }

  /** The comparison with the row written meanwhile. */
  lemma Compares(sha: Sha, db: Db, mine: Request, tenant: TenantRow)
    requires mine == Edit(mine.spec) && |db.specs| == 2 && tenant.generation == 1
    requires db.specs[0].tenantId == db.specs[1].tenantId == 7
    requires db.specs[0].generation == 1 && db.specs[1].generation == 2
    ensures var same := db.specs[1].hash == Of(sha, mine.spec);
      Advance(sha, 2, db, Loaded(mine, tenant)) ==
      (db, if same then Done(mine, Written(7, 1, db.specs[1].hash, false)) else Differs(mine, tenant))
  {
    hide Canonicalise, Of, Save;
    var one, two := [db.specs[0]], db.specs;
    assert one[..|one| - 1] == [] && two[..|two| - 1] == one;
    assert FindLatest(one, 7) == Some(db.specs[0]);
    assert FindLatest(two, 7) == Some(db.specs[1]);
  }

  lemma Loses(sha: Sha, db: Db, mine: Request, tenant: TenantRow)
    requires mine == Edit(mine.spec) && |db.specs| == 2 && db.specs[1].tenantId == 7 && db.specs[1].generation == 2
    requires tenant.generation == 1
    ensures Advance(sha, 2, db, Differs(mine, tenant)) == (db, Done(mine, Fault))
  {
    hide Canonicalise, Of, Save, IsBlank;
    assert db.specs[1] in db.specs;
    UpdateSaved(sha, 2, db, mine, tenant);
  }
}
