/** The junction repository object over its table. */
module JunctionRepository {
  import opened Options
  import opened CompositeIds
  import opened JunctionIntegration

  /** The differ's view of a row: its composite id and its columns. */
  datatype Projection = Projection(id: string, row: JunctionRow)

  class JunctionIntegrationRepository {
    const cfg: JunctionConfig
    var rows: seq<JunctionRow>
    var parents: Parents

    constructor (cfg: JunctionConfig)
      ensures this.cfg == cfg && rows == [] && parents == map[]
    {
      this.cfg, rows, parents := cfg, [], map[];
    }

    /** The first row with this identity tuple, as LIMIT 1 or the unique constraint finds it. */
    method Locate(leftId: string, rightId: string, role: Option<string>) returns (at: nat)
      ensures at == Position(cfg, rows, leftId, rightId, role)
    {
      at := 0;
      while at < |rows| && !Matches(cfg, rows[at], leftId, rightId, role)
        invariant at <= Position(cfg, rows, leftId, rightId, role)
      {
        at := at + 1;
      }
    }

    method IntegrationUpsertOne(w: JunctionWrite, provider: string, now: int)
      returns (saved: Result<Projection, UnresolvedParent>)
      modifies this`rows
      ensures var r := Upsert(cfg, old(rows), parents, w, provider, now);
        && saved.Ok? == r.Ok?
        && (r.Ok? ==> rows == r.value && saved.value.row == Written(cfg, old(rows), parents, w, provider, now))
        && (r.Ok? ==> saved.value.id == IdOf(cfg, w))
        && (r.Err? ==> saved.error == r.error && rows == old(rows))
      ensures saved.Ok? <==> Usable(parents, Left, w.left, provider) && Usable(parents, Right, w.right, provider)
      ensures saved.Err? ==>
        && rows == old(rows)
        && saved.error == if !Usable(parents, Left, w.left, provider) then UnresolvedParent(Left, w.left)
                          else UnresolvedParent(Right, w.right)
      ensures saved.Ok? ==>
        UpsertOutcome(cfg, old(rows), rows, parents[(Left, provider, w.left)], parents[(Right, provider, w.right)],
                      w.role, now, saved.value.row)
      ensures saved.Ok? && !cfg.hasRole ==> saved.value.id == w.left + "::" + w.right
      ensures saved.Ok? && cfg.hasRole ==>
        saved.value.id == w.left + "::" + w.right + "::" + if w.role.Some? then w.role.value else "null"
    {
      UpsertSpelledOut(cfg, rows, parents, w, provider, now);
      var left := ResolveStrict(parents, Left, w.left, provider);
      if left.Err? { return Err(left.error); }
      var right := ResolveStrict(parents, Right, w.right, provider);
      if right.Err? { return Err(right.error); }
      var at := Locate(left.value, right.value, w.role);
      if at < |rows| {
        if cfg.timestamps { rows := rows[at := rows[at].(updatedAt := Some(now))]; }
      } else {
        var stamp := if cfg.timestamps then Some(now) else None;
        rows := rows + [JunctionRow(left.value, right.value, if cfg.hasRole then w.role else None, stamp)];
      }
      assert rows == Upsert(cfg, old(rows), parents, w, provider, now).value;
      saved := Ok(Projection(ProjectedId(w.left, w.right, rows[at]), rows[at]));
    }

    /** The projection's id takes the role from the stored row. */
    function ProjectedId(left: string, right: string, row: JunctionRow): string
      reads this
    {
      var role := if row.role.Some? then row.role else Some("null");
      BuildCompositeExternalId(Parsed(left, right, if cfg.hasRole then role else None))
    }

    method FindByExternalIdProjected(externalId: string, provider: string) returns (found: Option<Projection>)
      ensures found.Some? == Find(cfg, rows, parents, externalId, provider).Some?
      ensures found.Some? ==>
        found.value.row == Find(cfg, rows, parents, externalId, provider).value && found.value.id == externalId
      ensures (forall p :: !Reads(externalId, cfg.hasRole, p)) ==> found.None?
      ensures forall p :: Reads(externalId, cfg.hasRole, p) ==>
        if KnownBoth(parents, p, provider) then
          var leftId, rightId := parents[(Left, provider, p.left)], parents[(Right, provider, p.right)];
          && (found.None? <==> forall k :: 0 <= k < |rows| ==> !Relates(cfg, rows[k], leftId, rightId, p.role))
          && (found.Some? ==>
                exists k :: FirstRelating(cfg, rows, leftId, rightId, p.role, k) && rows[k] == found.value.row)
        else found.None?
    {
      FindSpelledOut(cfg, rows, parents, externalId, provider);
      var parsed := ParseCompositeExternalId(externalId, cfg.hasRole);
      if parsed.None? { return None; }
      var left := ResolveLoose(parents, Left, parsed.value.left, provider);
      if left.None? { return None; }
      var right := ResolveLoose(parents, Right, parsed.value.right, provider);
      if right.None? { return None; }
      var at := Locate(left.value, right.value, parsed.value.role);
      if at == |rows| { return None; }
      BuildAfterParse(externalId, cfg.hasRole);
      found := Some(Projection(ProjectedId(parsed.value.left, parsed.value.right, rows[at]), rows[at]));
    }

    /** Hard-deletes every row with the identity; answers the id when there was one. */
    method SoftDeleteByExternalId(externalId: string, provider: string) returns (id: Option<string>)
      modifies this`rows
      ensures rows == Delete(cfg, old(rows), parents, externalId, provider)
      ensures id == if Find(cfg, old(rows), parents, externalId, provider).Some? then Some(externalId) else None
      ensures id == if |rows| < |old(rows)| then Some(externalId) else None
      ensures forall row :: row in rows <==>
        && row in old(rows)
        && forall p ::
          Reads(externalId, cfg.hasRole, p) && KnownBoth(parents, p, provider) ==>
            !Relates(cfg, row, parents[(Left, provider, p.left)], parents[(Right, provider, p.right)], p.role)
    {
      forall row ensures row in Delete(cfg, rows, parents, externalId, provider) <==>
          && row in rows
          && forall p ::
            Reads(externalId, cfg.hasRole, p) && KnownBoth(parents, p, provider) ==>
              !Relates(cfg, row, parents[(Left, provider, p.left)], parents[(Right, provider, p.right)], p.role)
      {
        DeleteSpelledOut(cfg, rows, parents, externalId, provider, row);
      }
      var parsed := ParseCompositeExternalId(externalId, cfg.hasRole);
      if parsed.None? { return None; }
      var left := ResolveLoose(parents, Left, parsed.value.left, provider);
      if left.None? { return None; }
      var right := ResolveLoose(parents, Right, parsed.value.right, provider);
      if right.None? { return None; }
      var key := Parsed(left.value, right.value, parsed.value.role);
      var at := Locate(left.value, right.value, parsed.value.role);
      id := if at < |rows| then Some(externalId) else None;
      rows := Without(cfg, rows, key);
    }
  }
}
