/** What each step of a create, an update, a rename or a deletion answers and does, said over the
    request and the tables. */
module SpecAnswers {
  import opened Common
  import opened Canonical
  import opened SpecHash
  import opened Database
  import opened SpecProtocol
  import opened SpecTheorems

  // ----- Slugs

  predicate SlugEnd(c: char) { 'a' <= c <= 'z' || '0' <= c <= '9' }

  /** A letter or digit at both ends, and those or hyphens between. */
  predicate SlugCore(s: string) {
    && s != [] && SlugEnd(s[0]) && SlugEnd(s[|s| - 1])
    && forall i | 0 <= i < |s| :: SlugEnd(s[i]) || s[i] == '-'
  }

  /** Accepted slugs are 3 to 63 characters: a core, or a core and one line feed. */
  lemma ValidSlugMeans(s: string)
    ensures ValidSlug(s) <==>
      3 <= |s| <= 63 && (SlugCore(s) || (s[|s| - 1] == '\n' && SlugCore(s[..|s| - 1])))
  {
    if 3 <= |s| <= 63 {
      var core := if s[|s| - 1] == '\n' then s[..|s| - 1] else s;
      if ValidSlug(s) {
        forall i | 0 <= i < |core| ensures SlugEnd(core[i]) || core[i] == '-' {
          assert core[i] in core;
        }
      }
    }
  }

  // ----- The first step

  /** The tenant exists and is not deleted. */
  predicate Live(db: Db, t: Id) { t in db.tenants && db.tenants[t].deletedAt.None? }

  /** An update: its document, its If-Match, its tenant and the generation decide, in that order. */
  lemma UpdateIsAnswered(sha: Sha, id: RequestId, db: Db, req: Request)
    requires req.Update?
    ensures var (next, s) := Advance(sha, id, db, Fresh(req));
      var held := Live(db, req.tenantId);
      && next == db
      && (s == Done(req, Invalid) <==> !req.spec.Object?)
      && (s == Done(req, PreconditionRequired) <==> req.spec.Object? && req.ifMatch.None?)
      && (s == Done(req, NotFound) <==> req.spec.Object? && req.ifMatch.Some? && !held)
      && (forall c :: s == Done(req, PreconditionFailed(c)) <==>
            (&& req.spec.Object? && req.ifMatch.Some? && held
             && c == db.tenants[req.tenantId].generation && req.ifMatch.value != c))
      && (s.Loaded? <==> req.spec.Object? && held && req.ifMatch == Some(db.tenants[req.tenantId].generation))
      && (s.Loaded? ==> s == Loaded(req, db.tenants[req.tenantId]))
  {
  }

  /** A create: a refused slug, name or document, then a taken slug. */
  lemma CreateIsAnswered(sha: Sha, id: RequestId, db: Db, req: Request)
    requires req.Create?
    ensures var (next, s) := Advance(sha, id, db, Fresh(req));
      var refused := !ValidSlug(req.slug) || IsBlank(req.displayName) || !req.spec.Object?;
      var taken := exists t | t in db.tenants :: db.tenants[t].slug == req.slug;
      && next == db
      && (s == Done(req, Invalid) <==> refused)
      && (s == Done(req, Conflict) <==> !refused && taken)
      && (s == SlugFree(req) <==> !refused && !taken)
  {
    hide ValidSlug, IsBlank;
  }

  // ----- The commit

  /** A create that found its slug free commits unless its author is blank or its id or slug was taken
      meanwhile; the tenant is the requested one, at generation 1. */
  lemma CreateCommitAnswers(sha: Sha, id: RequestId, db: Db, req: Request)
    requires Exact(sha, db) && req.Create?
    ensures var (next, s) := Advance(sha, id, db, SlugFree(req));
      var fails := IsBlank(req.actor) || req.newId in db.tenants
                   || exists t | t in db.tenants :: db.tenants[t].slug == req.slug;
      && (s == Done(req, Fault) <==> fails) && (fails ==> next == db)
      && (!fails ==>
            && s == Done(req, Created(req.newId, 1, sha(Canonicalise(req.spec))))
            && req.newId in next.tenants
            && next.tenants[req.newId] == TenantRow(req.slug, req.displayName, 1, req.now, None)
            && next.tenants.Keys == db.tenants.Keys + {req.newId}
            && next.specs == db.specs + [OwnRow(sha, req, req.newId, 1)])
  {
    hide Exact, Save, IsBlank, Canonicalise;
    CreateCommits(sha, id, db, req);
  }

  /** An update whose document differs commits unless its author is blank or the generation moved. */
  lemma UpdateCommitAnswers(sha: Sha, id: RequestId, db: Db, req: Request, tenant: TenantRow)
    requires Exact(sha, db) && LoadedOk(db, req, tenant)
    ensures var (next, s) := Advance(sha, id, db, Differs(req, tenant));
      var t, n := req.tenantId, tenant.generation + 1;
      var fails := IsBlank(req.actor) || req.ifMatch != Some(db.tenants[t].generation);
      && (s == Done(req, Fault) <==> fails) && (fails ==> next == db)
      && (!fails ==>
            && s == Done(req, Written(t, n, sha(Canonicalise(req.spec)), true))
            && next.tenants == db.tenants[t := db.tenants[t].(generation := n)]
            && next.specs == db.specs + [OwnRow(sha, req, t, n)])
  {
    hide Exact, Save, IsBlank, Canonicalise;
    CommitIffUnraced(sha, id, db, req, tenant);
  }

  /** The spec row a request writes, field by field. */
  function OwnRow(sha: Sha, req: Request, t: Id, n: nat): SpecRow {
    SpecRow(t, n, Canonicalise(req.spec), sha(Canonicalise(req.spec)), req.actor, req.now)
  }

  // ----- Renaming and deleting

  /** How many audit rows of a kind one unit of work adds for a tenant. */
  lemma DeletionIsAudited(s: State, t: Id, at: int, sha: Sha)
    requires t in s.db.tenants
    ensures var row, db := s.db.tenants[t], Next(sha, s, DeleteTenant(t, at)).db;
      if row.deletedAt.Some? then db == s.db
      else
        && db.tenants == s.db.tenants[t := row.(deletedAt := Some(at))]
        && db.audit == s.db.audit + [AuditRow(t, TenantDeleteRequested, "system", 0)]
        && db.specs == s.db.specs && db.outbox == s.db.outbox
  {
    if s.db.tenants[t].deletedAt.None? { ModifySaved(s.db, t, Delete(s.db.tenants[t], at).value); }
  }

  lemma RenameIsAudited(s: State, t: Id, name: string, sha: Sha)
    requires t in s.db.tenants
    ensures var row, db := s.db.tenants[t], Next(sha, s, RenameTenant(t, name)).db;
      if IsBlank(name) || row.deletedAt.Some? then db == s.db
      else
        && db.tenants == s.db.tenants[t := row.(displayName := name)]
        && db.audit == (if name == row.displayName then s.db.audit
                        else s.db.audit + [AuditRow(t, TenantRenamed, "system", 0)])
        && db.specs == s.db.specs && db.outbox == s.db.outbox
  {
    hide IsBlank;
    if !IsBlank(name) && s.db.tenants[t].deletedAt.None? { ModifySaved(s.db, t, Rename(s.db.tenants[t], name).value); }
  }
}
