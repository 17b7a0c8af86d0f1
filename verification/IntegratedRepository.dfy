/** The repository object over the entity's table. */
module IntegratedRepository {
  import opened Options
  import opened IntegrationUpsert

  class IntegratedEntityRepository {
    const cfg: UpsertConfig
    var rows: Rows
    var parents: Parents

    constructor (cfg: UpsertConfig)
      ensures this.cfg == cfg && rows == [] && parents == map[]
    {
      this.cfg, rows, parents := cfg, [], map[];
    }

    method ResolveOne(r: FkResolver, w: Write, provider: string) returns (id: Result<Cell, UpsertError>)
      ensures id == ResolveFk(rows, parents, r, w, provider)
      ensures id.Ok? ==> id.value == Resolved(rows, parents, r, w, provider)
      ensures id.Err? <==> r.strict && Resolved(rows, parents, r, w, provider).None?
      ensures id.Err? ==>
        if exists v :: NamesParent(w, r.writeKey, v)
        then id.error == UnresolvedParent(r.column, w.fields[r.writeKey].value)
        else id.error == MissingParent(r.column)
    {
      assert (exists v :: NamesParent(w, r.writeKey, v)) <==> Present(w, r.writeKey) by {
        if Present(w, r.writeKey) { assert NamesParent(w, r.writeKey, w.fields[r.writeKey].value); }
      }
      if !Present(w, r.writeKey) {
        if r.strict { return Err(MissingParent(r.column)); }
        return Ok(None);
      }
      var parentExternalId := w.fields[r.writeKey].value;
      var found: Cell := None;
      match r.refTable {
        case Self =>
          var i := 0;
          while i < |rows| && found.None?
            invariant i <= |rows| && (found.None? ==> i <= Position(rows, provider, parentExternalId))
            invariant found.Some? ==> found == FindId(rows, provider, parentExternalId)
          {
            if Identified(rows[i], provider, parentExternalId) {
              PositionIs(rows, provider, parentExternalId, i);
              found := Some(rows[i].id);
            }
            i := i + 1;
          }
        case Other(t) =>
          if (t, provider, parentExternalId) in parents { found := Some(parents[(t, provider, parentExternalId)]); }
      }
      if found.None? && r.strict { return Err(UnresolvedParent(r.column, parentExternalId)); }
      id := Ok(found);
    }

    method ResolveFks(w: Write, provider: string) returns (fks: Result<map<string, Cell>, UpsertError>)
      ensures fks == ResolveAll(rows, parents, cfg.fkResolvers, w, provider)
    {
      var rs := cfg.fkResolvers;
      var resolved: map<string, Cell> := map[];
      for i := 0 to |rs|
        invariant ResolveAll(rows, parents, rs[..i], w, provider) == Ok(resolved)
      {
        var fk := ResolveOne(rs[i], w, provider);
        assert rs[..i + 1][..i] == rs[..i];
        if fk.Err? {
          FailsFrom(rows, parents, rs, i + 1, w, provider, fk.error);
          return Err(fk.error);
        }
        resolved := resolved[rs[i].column := fk.value];
      }
      assert rs[..|rs|] == rs;
      fks := Ok(resolved);
    }

    /** The defined write columns of this write. */
    method CopiedThrough(w: Write) returns (copyThrough: map<string, Cell>)
      ensures copyThrough == CopyThrough(w, cfg.writeColumns)
    {
      copyThrough := map[];
      for i := 0 to |cfg.writeColumns|
        invariant copyThrough == CopyThrough(w, cfg.writeColumns[..i])
      {
        var col := cfg.writeColumns[i];
        if col in w.fields { copyThrough := copyThrough[col := w.fields[col]]; }
      }
      assert cfg.writeColumns[..|cfg.writeColumns|] == cfg.writeColumns;
    }

    /** Resolves the foreign keys, then inserts or updates; a failed resolution writes nothing. */
    method IntegrationUpsertOne(w: Write, provider: string, id: string, now: int)
      returns (saved: Result<Row, UpsertError>)
      modifies this`rows
      ensures var r := Upsert(cfg, old(rows), parents, w, provider, id, now);
        && saved.Ok? == r.Ok?
        && (r.Ok? ==> rows == r.value && saved.value == rows[Target(old(rows), w, provider)])
        && (r.Err? ==> saved.error == r.error && rows == old(rows))
    {
      var fks := ResolveFks(w, provider);
      if fks.Err? { return Err(fks.error); }
      ResolvedKeys(rows, parents, cfg.fkResolvers, w, provider);
      var copyThrough := CopiedThrough(w);
      var at := FindConflict(w, provider);
      if at == |rows| {
        var stamp := if cfg.timestamps then Some(now) else None;
        rows := rows + [Row(id, Some(provider), w.externalId, copyThrough, fks.value, None, stamp)];
      } else {
        var resolvedNow := SetOfFks(cfg.fkResolvers, fks.value);
        rows := rows[at := rows[at].(columns := rows[at].columns + copyThrough,
                                     fks := rows[at].fks + resolvedNow,
                                     updatedAt := if cfg.timestamps then Some(now) else rows[at].updatedAt)];
      }
      saved := Ok(rows[at]);
    }

    /** The row the unique index reports as conflicting, or the number of rows. */
    method FindConflict(w: Write, provider: string) returns (at: nat)
      ensures at == Target(rows, w, provider)
    {
      at := if w.externalId.Some? then Position(rows, provider, w.externalId.value) else |rows|;
    }

    /** The foreign keys resolved this time: the only ones an update may write. */
    method SetOfFks(rs: seq<FkResolver>, resolved: map<string, Cell>) returns (written: map<string, Cell>)
      requires resolved.Keys == ColumnsOf(rs)
      ensures written == map c | c in resolved && resolved[c].Some? :: resolved[c]
    {
      written := map[];
      for i := 0 to |rs|
        invariant forall k :: 0 <= k < i && resolved[rs[k].column].Some? ==> rs[k].column in written
        invariant forall c :: c in written ==> c in resolved && resolved[c].Some? && written[c] == resolved[c]
      {
        assert rs[i] in rs && rs[i].column in ColumnsOf(rs);
        if resolved[rs[i].column].Some? { written := written[rs[i].column := resolved[rs[i].column]]; }
      }
      forall c | c in resolved && resolved[c].Some? ensures c in written {
        var r :| r in rs && r.column == c;
        var k :| 0 <= k < |rs| && rs[k] == r;
      }
    }

    method FindByExternalIdProjected(externalId: string, provider: string) returns (row: Option<Row>)
      ensures row.None? <==> forall k :: 0 <= k < |rows| ==> !Identified(rows[k], provider, externalId)
      ensures row.Some? ==> row.value in rows && Identified(row.value, provider, externalId)
    {
      for i := 0 to |rows|
        invariant forall k :: 0 <= k < i ==> !Identified(rows[k], provider, externalId)
      {
        if Identified(rows[i], provider, externalId) { return Some(rows[i]); }
      }
      row := None;
    }

    /** UPDATE ... WHERE (provider, externalId): with one row per identity that is at most one row. */
    method SoftDeleteByExternalId(externalId: string, provider: string, now: int) returns (id: Cell)
      requires OnePerIdentity(rows)
      modifies this`rows
      ensures rows == SoftDelete(cfg, old(rows), externalId, provider, now)
      ensures id == FindId(old(rows), provider, externalId)
    {
      id := None;
      ghost var at := Position(rows, provider, externalId);
      ghost var before := rows;
      for i := 0 to |rows|
        invariant |rows| == |before| && (forall k :: i <= k < |rows| ==> rows[k] == before[k])
        invariant forall k :: 0 <= k < i ==> rows[k] == if k == at then Removed(cfg, before[k], now) else before[k]
        invariant id == if at < i then Some(before[at].id) else None
      {
        if Identified(rows[i], provider, externalId) {
          if id.None? { id := Some(rows[i].id); }
          rows := rows[i := Removed(cfg, rows[i], now)];
        }
      }
    }

    /** One transaction: the first failing input undoes the ones before it. */
    method IntegrationUpsert(inputs: seq<Input>, now: int) returns (saved: Result<seq<Row>, UpsertError>)
      modifies this`rows
      ensures var r := Batch(cfg, old(rows), parents, inputs, now);
        && saved.Ok? == r.Ok?
        && rows == (if r.Ok? then r.value else old(rows))
        && (saved.Ok? ==> saved.value == BatchRows(cfg, old(rows), parents, inputs, now))
    {
      if inputs == [] { return Ok([]); }
      var begin := rows;
      var out: seq<Row> := [];
      for i := 0 to |inputs|
        invariant Batch(cfg, begin, parents, inputs[..i], now) == Ok(rows)
        invariant out == BatchRows(cfg, begin, parents, inputs[..i], now)
      {
        assert inputs[..i + 1][..i] == inputs[..i];
        if Skipped(inputs[i]) { continue; }
        var one := IntegrationUpsertOne(inputs[i].write, inputs[i].provider.value, inputs[i].id, now);
        if one.Err? {
          BatchFailsFrom(cfg, begin, parents, inputs, i + 1, now);
          rows := begin;
          return Err(one.error);
        }
        out := out + [one.value];
      }
      assert inputs[..|inputs|] == inputs;
      saved := Ok(out);
    }
  }

  lemma {:induction false} ResolvedKeys(rows: Rows, parents: Parents, rs: seq<FkResolver>, w: Write, provider: string)
    requires ResolveAll(rows, parents, rs, w, provider).Ok?
    ensures ResolveAll(rows, parents, rs, w, provider).value.Keys == ColumnsOf(rs)
  {
    if rs != [] {
      var n := |rs| - 1;
      ResolvedKeys(rows, parents, rs[..n], w, provider);
      ColumnsOfMore(rs[..n], rs[n]);
      assert rs == rs[..n] + [rs[n]];
    }
  }

  lemma {:induction false} FailsFrom(rows: Rows, parents: Parents, rs: seq<FkResolver>, i: nat, w: Write,
      provider: string, e: UpsertError)
    requires i <= |rs| && ResolveAll(rows, parents, rs[..i], w, provider) == Err(e)
    ensures ResolveAll(rows, parents, rs, w, provider) == Err(e)
    decreases |rs|
  {
    if i == |rs| {
      assert rs[..i] == rs;
    } else {
      var n := |rs| - 1;
      assert rs[..n][..i] == rs[..i];
      FailsFrom(rows, parents, rs[..n], i, w, provider, e);
    }
  }

  lemma {:induction false} BatchFailsFrom(cfg: UpsertConfig, rows: Rows, parents: Parents, inputs: seq<Input>,
      i: nat, now: int)
    requires i <= |inputs| && Batch(cfg, rows, parents, inputs[..i], now).Err?
    ensures Batch(cfg, rows, parents, inputs, now).Err?
    decreases |inputs|
  {
    if i == |inputs| {
      assert inputs[..i] == inputs;
    } else {
      var n := |inputs| - 1;
      assert inputs[..n][..i] == inputs[..i];
      BatchFailsFrom(cfg, rows, parents, inputs[..n], i, now);
    }
  }
}
