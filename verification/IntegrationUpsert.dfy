/** Inbound integration writes. */
module IntegrationUpsert {
  import opened Options

  /** A column's value; None is NULL. */
  type Cell = Option<string>

  datatype Row = Row(
    id: string,
    provider: Cell,
    externalId: Cell,
    columns: map<string, Cell>,
    fks: map<string, Cell>,
    deletedAt: Option<int>,
    updatedAt: Option<int>)

  /** The entity's rows in insertion order. */
  type Rows = seq<Row>

  /** Ids of rows in other tables, by table, provider and external id. */
  type Parents = map<(string, string, string), string>

  datatype RefTable = Self | Other(name: string)

  datatype FkResolver = FkResolver(column: string, writeKey: string, refTable: RefTable, strict: bool)

  datatype UpsertConfig = UpsertConfig(
    writeColumns: seq<string>,
    fkResolvers: seq<FkResolver>,
    softDelete: bool,
    timestamps: bool)

  /** A canonical write: a key that is missing from `fields` is undefined. */
  datatype Write = Write(externalId: Cell, fields: map<string, Cell>)

  datatype UpsertError = MissingParent(column: string) | UnresolvedParent(column: string, externalId: string)

  /** The unique index on (provider, externalId); NULLs never match. */
  predicate Identified(r: Row, provider: string, externalId: string) {
    r.provider == Some(provider) && r.externalId == Some(externalId)
  }

  /** The position of the matching row, or the number of rows. */
  function Position(rows: Rows, provider: string, externalId: string): (i: nat)
    ensures i <= |rows| && (i < |rows| ==> Identified(rows[i], provider, externalId))
    ensures forall k :: 0 <= k < i ==> !Identified(rows[k], provider, externalId)
  {
    if rows == [] then 0
    else if Identified(rows[0], provider, externalId) then 0
    else
      assert forall k :: 0 < k < |rows| ==> rows[k] == rows[1..][k - 1];
      1 + Position(rows[1..], provider, externalId)
  }

  /** The first match is the only candidate for the position. */
  lemma PositionIs(rows: Rows, provider: string, externalId: string, i: nat)
    requires i <= |rows| && (i < |rows| ==> Identified(rows[i], provider, externalId))
    requires forall k :: 0 <= k < i ==> !Identified(rows[k], provider, externalId)
    ensures Position(rows, provider, externalId) == i
  {
  }

  function FindId(rows: Rows, provider: string, externalId: string): Cell {
    var i := Position(rows, provider, externalId);
    if i < |rows| then Some(rows[i].id) else None
  }

  /** Null, undefined and the empty string all count as absent. */
  predicate Present(w: Write, key: string) {
    key in w.fields && w.fields[key].Some? && w.fields[key].value != ""
  }

  function Resolved(rows: Rows, parents: Parents, r: FkResolver, w: Write, provider: string): Cell {
    if !Present(w, r.writeKey) then None
    else match r.refTable
      case Self => FindId(rows, provider, w.fields[r.writeKey].value)
      case Other(t) =>
        var key := (t, provider, w.fields[r.writeKey].value);
        if key in parents then Some(parents[key]) else None
  }

  function ResolveFk(rows: Rows, parents: Parents, r: FkResolver, w: Write,
      provider: string): Result<Cell, UpsertError>
  {
    if !Present(w, r.writeKey) then (if r.strict then Err(MissingParent(r.column)) else Ok(None))
    else
      var id := Resolved(rows, parents, r, w, provider);
      if id.None? && r.strict then Err(UnresolvedParent(r.column, w.fields[r.writeKey].value)) else Ok(id)
  }

  function ResolveAll(rows: Rows, parents: Parents, rs: seq<FkResolver>, w: Write,
      provider: string): Result<map<string, Cell>, UpsertError>
  {
    if rs == [] then Ok(map[])
    else
      var n := |rs| - 1;
      var before := ResolveAll(rows, parents, rs[..n], w, provider);
      if before.Err? then before
      else
        var id := ResolveFk(rows, parents, rs[n], w, provider);
        if id.Err? then Err(id.error) else Ok(before.value[rs[n].column := id.value])
  }

  /** The defined write columns; undefined ones are left out of the statement. */
  function CopyThrough(w: Write, columns: seq<string>): map<string, Cell> {
    map c | c in columns && c in w.fields :: w.fields[c]
  }

  /** Only what was resolved this time is written over an existing row. */
  function NoClobber(current: map<string, Cell>, resolved: map<string, Cell>): map<string, Cell> {
    current + map c | c in resolved && resolved[c].Some? :: resolved[c]
  }

  function Inserted(cfg: UpsertConfig, w: Write, provider: string, resolved: map<string, Cell>, id: string,
      now: int): Row
  {
    Row(id, Some(provider), w.externalId, CopyThrough(w, cfg.writeColumns), resolved, None,
        if cfg.timestamps then Some(now) else None)
  }

  function Updated(cfg: UpsertConfig, r: Row, w: Write, resolved: map<string, Cell>, now: int): Row {
    r.(columns := r.columns + CopyThrough(w, cfg.writeColumns),
       fks := NoClobber(r.fks, resolved),
       updatedAt := if cfg.timestamps then Some(now) else r.updatedAt)
  }

  /** Where the write lands; without an external id nothing can conflict. */
  function Target(rows: Rows, w: Write, provider: string): (i: nat)
    ensures i <= |rows|
  {
    if w.externalId.Some? then Position(rows, provider, w.externalId.value) else |rows|
  }

  function Upsert(cfg: UpsertConfig, rows: Rows, parents: Parents, w: Write, provider: string, id: string,
      now: int): Result<Rows, UpsertError>
  {
    var resolved := ResolveAll(rows, parents, cfg.fkResolvers, w, provider);
    if resolved.Err? then Err(resolved.error)
    else
      var i := Target(rows, w, provider);
      if i < |rows| then Ok(rows[i := Updated(cfg, rows[i], w, resolved.value, now)])
      else Ok(rows + [Inserted(cfg, w, provider, resolved.value, id, now)])
  }

  function Removed(cfg: UpsertConfig, r: Row, now: int): Row {
    if cfg.softDelete then r.(deletedAt := Some(now), updatedAt := Some(now))
    else r.(externalId := None, provider := None, updatedAt := Some(now))
  }

  function SoftDelete(cfg: UpsertConfig, rows: Rows, externalId: string, provider: string, now: int): Rows {
    var i := Position(rows, provider, externalId);
    if i < |rows| then rows[i := Removed(cfg, rows[i], now)] else rows
  }

  /** One input of a batch, with the id its row would get. */
  datatype Input = Input(provider: Cell, write: Write, id: string)

  predicate Skipped(x: Input) {
    x.write.externalId.None? || x.write.externalId.value == "" || x.provider.None? || x.provider.value == ""
  }

  /** The batch inside its transaction: each input sees the ones before it. */
  function Batch(cfg: UpsertConfig, rows: Rows, parents: Parents, inputs: seq<Input>,
      now: int): Result<Rows, UpsertError>
  {
    if inputs == [] then Ok(rows)
    else
      var n := |inputs| - 1;
      var before := Batch(cfg, rows, parents, inputs[..n], now);
      if before.Err? || Skipped(inputs[n]) then before
      else Upsert(cfg, before.value, parents, inputs[n].write, inputs[n].provider.value, inputs[n].id, now)
  }

  /** The rows a committed batch answers with: each kept input's row as that input left it. */
  function BatchRows(cfg: UpsertConfig, rows: Rows, parents: Parents, inputs: seq<Input>, now: int): seq<Row>
    requires Batch(cfg, rows, parents, inputs, now).Ok?
  {
    if inputs == [] then []
    else
      var n := |inputs| - 1;
      var before := Batch(cfg, rows, parents, inputs[..n], now).value;
      var out := BatchRows(cfg, rows, parents, inputs[..n], now);
      if Skipped(inputs[n]) then out
      else
        var after := Batch(cfg, rows, parents, inputs, now).value;
        out + [after[Target(before, inputs[n].write, inputs[n].provider.value)]]
  }

  /** The inputs that name both a provider and an external id. */
  function Kept(inputs: seq<Input>): seq<Input> {
    if inputs == [] then []
    else
      var n := |inputs| - 1;
      if Skipped(inputs[n]) then Kept(inputs[..n]) else Kept(inputs[..n]) + [inputs[n]]
  }

  // ---------------------------------------------------------------- runs

  datatype Db = Db(rows: Rows, parents: Parents)

  datatype Op =
    | UpsertOp(write: Write, provider: string, id: string)
    | DeleteOp(externalId: string, provider: string)
    | BatchOp(inputs: seq<Input>)
    | ParentsChange(parents: Parents)

  datatype Event = Event(op: Op, at: int)

  /** A failing transaction leaves the rows as they were. */
  function Step(cfg: UpsertConfig, db: Db, e: Event): Db {
    match e.op
    case UpsertOp(w, provider, id) =>
      var r := Upsert(cfg, db.rows, db.parents, w, provider, id, e.at);
      if r.Ok? then db.(rows := r.value) else db
    case DeleteOp(externalId, provider) => db.(rows := SoftDelete(cfg, db.rows, externalId, provider, e.at))
    case BatchOp(inputs) =>
      var r := Batch(cfg, db.rows, db.parents, inputs, e.at);
      if r.Ok? then db.(rows := r.value) else db
    case ParentsChange(parents) => db.(parents := parents)
  }

  function Run(cfg: UpsertConfig, db: Db, events: seq<Event>): Db {
    if events == [] then db else Step(cfg, Run(cfg, db, events[..|events| - 1]), events[|events| - 1])
  }

  ghost predicate OnePerIdentity(rows: Rows) {
    forall j, k :: 0 <= j < k < |rows| && rows[j].provider.Some? && rows[j].externalId.Some? ==>
      rows[j].provider != rows[k].provider || rows[j].externalId != rows[k].externalId
  }

  /** Rows only get added; a row keeps its id and every foreign key it has, and its identity unless
      a delete clears it. */
  ghost predicate Evolves(before: Rows, after: Rows) {
    && |before| <= |after|
    && forall k :: 0 <= k < |before| ==> RowEvolves(before[k], after[k])
  }

  ghost predicate RowEvolves(a: Row, b: Row) {
    && a.id == b.id
    && (forall c :: c in a.fks && a.fks[c].Some? ==> c in b.fks && b.fks[c].Some?)
    && (a.deletedAt.Some? ==> b.deletedAt.Some?)
    && ((b.provider == a.provider && b.externalId == a.externalId) || (b.provider.None? && b.externalId.None?))
  }

  lemma UpsertKeeps(cfg: UpsertConfig, rows: Rows, parents: Parents, w: Write, provider: string, id: string, now: int)
    requires OnePerIdentity(rows)
    ensures var r := Upsert(cfg, rows, parents, w, provider, id, now);
      r.Ok? ==> OnePerIdentity(r.value) && Evolves(rows, r.value)
  {
  }

  lemma DeleteKeeps(cfg: UpsertConfig, rows: Rows, externalId: string, provider: string, now: int)
    requires OnePerIdentity(rows)
    ensures OnePerIdentity(SoftDelete(cfg, rows, externalId, provider, now))
    ensures Evolves(rows, SoftDelete(cfg, rows, externalId, provider, now))
  {
  }

  lemma EvolvesFurther(a: Rows, b: Rows, c: Rows)
    requires Evolves(a, b) && Evolves(b, c)
    ensures Evolves(a, c)
  {
    forall k | 0 <= k < |a| ensures RowEvolves(a[k], c[k]) {
      assert RowEvolves(a[k], b[k]) && RowEvolves(b[k], c[k]);
    }
  }

  lemma {:induction false} BatchKeeps(cfg: UpsertConfig, rows: Rows, parents: Parents, inputs: seq<Input>, now: int)
    requires OnePerIdentity(rows)
    ensures var r := Batch(cfg, rows, parents, inputs, now);
      r.Ok? ==> OnePerIdentity(r.value) && Evolves(rows, r.value)
  {
    if inputs != [] {
      var n := |inputs| - 1;
      BatchKeeps(cfg, rows, parents, inputs[..n], now);
      var before := Batch(cfg, rows, parents, inputs[..n], now);
      if before.Ok? && !Skipped(inputs[n]) {
        UpsertKeeps(cfg, before.value, parents, inputs[n].write, inputs[n].provider.value, inputs[n].id, now);
        var after := Upsert(cfg, before.value, parents, inputs[n].write, inputs[n].provider.value, inputs[n].id, now);
        if after.Ok? { EvolvesFurther(rows, before.value, after.value); }
      }
    }
  }

  lemma StepKeeps(cfg: UpsertConfig, db: Db, e: Event)
    requires OnePerIdentity(db.rows)
    ensures OnePerIdentity(Step(cfg, db, e).rows) && Evolves(db.rows, Step(cfg, db, e).rows)
  {
    match e.op
    case UpsertOp(w, provider, id) => UpsertKeeps(cfg, db.rows, db.parents, w, provider, id, e.at);
    case DeleteOp(externalId, provider) => DeleteKeeps(cfg, db.rows, externalId, provider, e.at);
    case BatchOp(inputs) => BatchKeeps(cfg, db.rows, db.parents, inputs, e.at);
    case ParentsChange(_) =>
  }

  /** Over any sequence of upserts, batches and deletes, with the parents changing in between: at
      most one row per (provider, externalId), and no row ever loses a foreign key, its id or a
      deletion mark. */
  lemma {:induction false} AlwaysOnePerIdentity(cfg: UpsertConfig, db: Db, events: seq<Event>)
    requires OnePerIdentity(db.rows)
    ensures OnePerIdentity(Run(cfg, db, events).rows) && Evolves(db.rows, Run(cfg, db, events).rows)
  {
    if events != [] {
      var n := |events| - 1;
      AlwaysOnePerIdentity(cfg, db, events[..n]);
      StepKeeps(cfg, Run(cfg, db, events[..n]), events[n]);
      EvolvesFurther(db.rows, Run(cfg, db, events[..n]).rows, Run(cfg, db, events).rows);
    }
  }

  // ---------------------------------------------------------------- repeating a write

  /** No later resolver writes the same column. */
  predicate Decides(rs: seq<FkResolver>, k: nat)
    requires k < |rs|
  {
    forall j :: k < j < |rs| ==> rs[j].column != rs[k].column
  }

  function ColumnsOf(rs: seq<FkResolver>): set<string> {
    set r | r in rs :: r.column
  }

  lemma ColumnsOfMore(rs: seq<FkResolver>, r: FkResolver)
    ensures ColumnsOf(rs + [r]) == ColumnsOf(rs) + {r.column}
  {
    assert forall x :: x in rs + [r] <==> x in rs || x == r;
  }

  ghost predicate StrictMet(rows: Rows, parents: Parents, rs: seq<FkResolver>, w: Write, provider: string) {
    forall k :: 0 <= k < |rs| && rs[k].strict ==> Resolved(rows, parents, rs[k], w, provider).Some?
  }

  ghost predicate CellsResolved(rows: Rows, parents: Parents, rs: seq<FkResolver>, w: Write, provider: string,
      m: map<string, Cell>)
  {
    && m.Keys == ColumnsOf(rs)
    && forall k :: 0 <= k < |rs| && Decides(rs, k) && rs[k].column in m ==>
      m[rs[k].column] == Resolved(rows, parents, rs[k], w, provider)
  }

  lemma ResolveFkExactly(rows: Rows, parents: Parents, r: FkResolver, w: Write, provider: string)
    ensures var id := ResolveFk(rows, parents, r, w, provider);
      && (id.Ok? <==> (r.strict ==> Resolved(rows, parents, r, w, provider).Some?))
      && (id.Ok? ==> id.value == Resolved(rows, parents, r, w, provider))
  {
  }

  lemma OneMoreResolved(rows: Rows, parents: Parents, rs: seq<FkResolver>, r: FkResolver, w: Write,
      provider: string, m: map<string, Cell>)
    requires CellsResolved(rows, parents, rs, w, provider, m)
    ensures CellsResolved(rows, parents, rs + [r], w, provider, m[r.column := Resolved(rows, parents, r, w, provider)])
  {
    var all := rs + [r];
    ColumnsOfMore(rs, r);
    assert all[|rs|] == r && forall k :: 0 <= k < |rs| ==> all[k] == rs[k];
    forall k | 0 <= k < |rs| && Decides(all, k) ensures Decides(rs, k) && rs[k].column != r.column {
      assert all[|rs|].column != all[k].column;
      assert forall j :: k < j < |rs| ==> all[j] == rs[j];
    }
  }

  /** Resolution fails exactly when a strict parent is missing or unknown, and otherwise maps each
      column to its parent. */
  lemma {:induction false} ResolveAllExactly(rows: Rows, parents: Parents, rs: seq<FkResolver>, w: Write,
      provider: string)
    ensures ResolveAll(rows, parents, rs, w, provider).Ok? <==> StrictMet(rows, parents, rs, w, provider)
    ensures ResolveAll(rows, parents, rs, w, provider).Ok? ==>
      CellsResolved(rows, parents, rs, w, provider, ResolveAll(rows, parents, rs, w, provider).value)
  {
    if rs != [] {
      var n := |rs| - 1;
      var before := ResolveAll(rows, parents, rs[..n], w, provider);
      ResolveAllExactly(rows, parents, rs[..n], w, provider);
      ResolveFkExactly(rows, parents, rs[n], w, provider);
      assert rs == rs[..n] + [rs[n]];
      StrictMetMore(rows, parents, rs[..n], rs[n], w, provider);
      if before.Ok? { OneMoreResolved(rows, parents, rs[..n], rs[n], w, provider, before.value); }
    }
  }

  lemma StrictMetMore(rows: Rows, parents: Parents, rs: seq<FkResolver>, r: FkResolver, w: Write, provider: string)
    ensures StrictMet(rows, parents, rs + [r], w, provider) <==>
      StrictMet(rows, parents, rs, w, provider) && (r.strict ==> Resolved(rows, parents, r, w, provider).Some?)
  {
    var all := rs + [r];
    assert all[|rs|] == r && forall k :: 0 <= k < |rs| ==> all[k] == rs[k];
  }

  lemma PositionSame(before: Rows, after: Rows, provider: string, p: string)
    requires |before| == |after|
    requires forall k :: 0 <= k < |before| ==>
      before[k].id == after[k].id && before[k].provider == after[k].provider &&
        before[k].externalId == after[k].externalId
    ensures FindId(after, provider, p) == FindId(before, provider, p)
  {
    var i := Position(before, provider, p);
    assert forall k :: 0 <= k < i ==> !Identified(before[k], provider, p);
    PositionIs(after, provider, p, i);
  }

  lemma PositionAppended(before: Rows, r: Row, provider: string, p: string)
    ensures FindId(before + [r], provider, p) ==
      if Position(before, provider, p) < |before| then FindId(before, provider, p)
      else if Identified(r, provider, p) then Some(r.id) else None
  {
    var i := Position(before, provider, p);
    var after := before + [r];
    assert forall k :: 0 <= k < i ==> after[k] == before[k] && !Identified(before[k], provider, p);
    if i < |before| {
      assert after[i] == before[i];
      PositionIs(after, provider, p, i);
    } else {
      assert after[i] == r;
      PositionIs(after, provider, p, if Identified(r, provider, p) then i else i + 1);
    }
  }

  /** The write names itself as the parent of one of its columns. */
  predicate OwnParent(r: FkResolver, w: Write) {
    r.refTable == Self && Present(w, r.writeKey) && w.fields[r.writeKey] == w.externalId
  }

  /** A write changes how a column resolves exactly when it creates the very parent it names. */
  lemma ResolvesAgain(cfg: UpsertConfig, rows: Rows, parents: Parents, r: FkResolver, w: Write, provider: string,
      id: string, now: int)
    requires Upsert(cfg, rows, parents, w, provider, id, now).Ok?
    ensures var after := Upsert(cfg, rows, parents, w, provider, id, now).value;
      Resolved(after, parents, r, w, provider) ==
        if OwnParent(r, w) && Target(rows, w, provider) == |rows| then Some(id)
        else Resolved(rows, parents, r, w, provider)
  {
    var after := Upsert(cfg, rows, parents, w, provider, id, now).value;
    var i := Target(rows, w, provider);
    if Present(w, r.writeKey) && r.refTable == Self {
      var p := w.fields[r.writeKey].value;
      if i < |rows| {
        PositionSame(rows, after, provider, p);
      } else {
        PositionAppended(rows, after[|rows|], provider, p);
      }
    }
  }

  ghost predicate SameButStamp(a: Rows, b: Rows) {
    |a| == |b| && forall k :: 0 <= k < |a| ==> a[k] == b[k].(updatedAt := a[k].updatedAt)
  }

  ghost predicate NamesItself(cfg: UpsertConfig, w: Write) {
    exists k :: 0 <= k < |cfg.fkResolvers| && Decides(cfg.fkResolvers, k) && OwnParent(cfg.fkResolvers[k], w)
  }

  lemma SecondLands(cfg: UpsertConfig, rows: Rows, parents: Parents, w: Write, provider: string, id: string, now: int)
    requires w.externalId.Some? && Upsert(cfg, rows, parents, w, provider, id, now).Ok?
    ensures Target(Upsert(cfg, rows, parents, w, provider, id, now).value, w, provider) == Target(rows, w, provider)
  {
    var after := Upsert(cfg, rows, parents, w, provider, id, now).value;
    var i := Target(rows, w, provider);
    assert forall k :: 0 <= k < i ==> after[k] == rows[k] && !Identified(rows[k], provider, w.externalId.value);
    PositionIs(after, provider, w.externalId.value, i);
  }

  /** Without an external id every write adds a row. */
  lemma AnonymousRepeats(cfg: UpsertConfig, rows: Rows, parents: Parents, w: Write, provider: string, id: string,
      now: int,
      id2: string, later: int)
    requires w.externalId.None? && Upsert(cfg, rows, parents, w, provider, id, now).Ok?
    ensures var first := Upsert(cfg, rows, parents, w, provider, id, now).value;
      var again := Upsert(cfg, first, parents, w, provider, id2, later);
      again.Ok? ==> |again.value| == |first| + 1
  {
  }

  lemma RepeatSucceeds(cfg: UpsertConfig, rows: Rows, parents: Parents, w: Write, provider: string, id: string,
      now: int)
    requires Upsert(cfg, rows, parents, w, provider, id, now).Ok?
    ensures var first := Upsert(cfg, rows, parents, w, provider, id, now).value;
      var rs := cfg.fkResolvers;
      && ResolveAll(rows, parents, rs, w, provider).Ok? && ResolveAll(first, parents, rs, w, provider).Ok?
      && CellsResolved(rows, parents, rs, w, provider, ResolveAll(rows, parents, rs, w, provider).value)
      && CellsResolved(first, parents, rs, w, provider, ResolveAll(first, parents, rs, w, provider).value)
  {
    var first, rs := Upsert(cfg, rows, parents, w, provider, id, now).value, cfg.fkResolvers;
    ResolveAllExactly(rows, parents, rs, w, provider);
    ResolveAllExactly(first, parents, rs, w, provider);
    forall k | 0 <= k < |rs| && rs[k].strict ensures Resolved(first, parents, rs[k], w, provider).Some? {
      ResolvesAgain(cfg, rows, parents, rs[k], w, provider, id, now);
    }
  }

  /** With an external id: the repeat differs exactly if the first write created its own parent. */
  lemma IdentifiedRepeats(cfg: UpsertConfig, rows: Rows, parents: Parents, w: Write, provider: string, id: string,
      now: int,
      id2: string, later: int)
    requires w.externalId.Some?
    requires Upsert(cfg, rows, parents, w, provider, id, now).Ok?
    ensures var first := Upsert(cfg, rows, parents, w, provider, id, now).value;
      var again := Upsert(cfg, first, parents, w, provider, id2, later);
      again.Ok? && (SameButStamp(first, again.value) <==> Target(rows, w, provider) < |rows| || !NamesItself(cfg, w))
  {
    var first, rs := Upsert(cfg, rows, parents, w, provider, id, now).value, cfg.fkResolvers;
    RepeatSucceeds(cfg, rows, parents, w, provider, id, now);
    SecondLands(cfg, rows, parents, w, provider, id, now);
    var m1, m2 := ResolveAll(rows, parents, rs, w, provider).value, ResolveAll(first, parents, rs, w, provider).value;
    if Target(rows, w, provider) < |rows| || !NamesItself(cfg, w) {
      forall k | 0 <= k < |rs| && Decides(rs, k) && rs[k].column in m1
        ensures rs[k].column in m2 && m1[rs[k].column] == m2[rs[k].column] {
        ResolvesAgain(cfg, rows, parents, rs[k], w, provider, id, now);
      }
      SameCells(rs, m1, m2);
      RepeatSame(cfg, rows, w, provider, m1, id, now, later);
    } else {
      var k :| 0 <= k < |rs| && Decides(rs, k) && OwnParent(rs[k], w);
      ResolvesAgain(cfg, rows, parents, rs[k], w, provider, id, now);
      assert rs[k] in rs && rs[k].column in ColumnsOf(rs);
      RepeatDiffers(cfg, rows, parents, w, provider, id, now, id2, later, rs[k].column, m1, m2);
    }
  }

  /** Repeating a write with unchanged parents succeeds again and touches nothing but updatedAt,
      exactly when the write has an external id and the first one did not create a row that one of
      its own columns refers to. */
  lemma RepeatExactly(cfg: UpsertConfig, rows: Rows, parents: Parents, w: Write, provider: string, id: string, now: int,
      id2: string, later: int)
    requires Upsert(cfg, rows, parents, w, provider, id, now).Ok?
    ensures var first := Upsert(cfg, rows, parents, w, provider, id, now).value;
      var again := Upsert(cfg, first, parents, w, provider, id2, later);
      again.Ok? && (SameButStamp(first, again.value) <==>
                      w.externalId.Some? && (Target(rows, w, provider) < |rows| || !NamesItself(cfg, w)))
  {
    RepeatSucceeds(cfg, rows, parents, w, provider, id, now);
    if w.externalId.Some? { IdentifiedRepeats(cfg, rows, parents, w, provider, id, now, id2, later); }
    else { AnonymousRepeats(cfg, rows, parents, w, provider, id, now, id2, later); }
  }

  lemma SameCells(rs: seq<FkResolver>, a: map<string, Cell>, b: map<string, Cell>)
    requires a.Keys == ColumnsOf(rs) == b.Keys
    requires forall k :: 0 <= k < |rs| && Decides(rs, k) && rs[k].column in a ==> a[rs[k].column] == b[rs[k].column]
    ensures a == b
  {
    forall c | c in a ensures a[c] == b[c] {
      var r :| r in rs && r.column == c;
      var k :| 0 <= k < |rs| && rs[k] == r;
      var last := LastDecides(rs, k);
      assert a[rs[last].column] == b[rs[last].column];
    }
  }

  lemma {:induction false} LastDecides(rs: seq<FkResolver>, k: nat) returns (last: nat)
    requires k < |rs|
    ensures last < |rs| && rs[last].column == rs[k].column && Decides(rs, last)
    decreases |rs| - k
  {
    last := k;
    if !Decides(rs, k) {
      var j :| k < j < |rs| && rs[j].column == rs[k].column;
      last := LastDecides(rs, j);
    }
  }

  lemma RepeatSame(cfg: UpsertConfig, rows: Rows, w: Write, provider: string, m: map<string, Cell>, id: string,
      now: int, later: int)
    requires w.externalId.Some?
    ensures var i := Target(rows, w, provider);
      var once := if i < |rows| then Updated(cfg, rows[i], w, m, now) else Inserted(cfg, w, provider, m, id, now);
      Updated(cfg, once, w, m, later).(updatedAt := once.updatedAt) == once
  {
    var i := Target(rows, w, provider);
    var once := if i < |rows| then Updated(cfg, rows[i], w, m, now) else Inserted(cfg, w, provider, m, id, now);
    assert Updated(cfg, once, w, m, later).columns == once.columns;
    assert Updated(cfg, once, w, m, later).fks == once.fks;
  }

  lemma RepeatDiffers(cfg: UpsertConfig, rows: Rows, parents: Parents, w: Write, provider: string, id: string,
      now: int, id2: string, later: int,
                      column: string, m1: map<string, Cell>, m2: map<string, Cell>)
    requires w.externalId.Some? && Target(rows, w, provider) == |rows|
    requires ResolveAll(rows, parents, cfg.fkResolvers, w, provider) == Ok(m1)
    requires Upsert(cfg, rows, parents, w, provider, id, now).Ok?
    requires var first := Upsert(cfg, rows, parents, w, provider, id, now).value;
      ResolveAll(first, parents, cfg.fkResolvers, w, provider) == Ok(m2) && Target(first, w, provider) == |rows|
    requires column in m1 && m1[column].None? && column in m2 && m2[column].Some?
    ensures var first := Upsert(cfg, rows, parents, w, provider, id, now).value;
      !SameButStamp(first, Upsert(cfg, first, parents, w, provider, id2, later).value)
  {
    var first := Upsert(cfg, rows, parents, w, provider, id, now).value;
    var again := Upsert(cfg, first, parents, w, provider, id2, later).value;
    assert first[|rows|].fks[column].None? && again[|rows|].fks[column].Some?;
  }

  // ---------------------------------------------------------------- deletes and batches

  /** After a soft delete the row is still found and a later write updates it without reviving it;
      after a clearing delete it is not found and a later write adds a new row beside it. */
  lemma DeletedThenWritten(cfg: UpsertConfig, rows: Rows, parents: Parents, w: Write, provider: string, id: string,
      at: int, later: int)
    requires OnePerIdentity(rows) && w.externalId.Some? && Position(rows, provider, w.externalId.value) < |rows|
    ensures var i := Position(rows, provider, w.externalId.value);
      var gone := SoftDelete(cfg, rows, w.externalId.value, provider, at);
      var written := Upsert(cfg, gone, parents, w, provider, id, later);
      && (FindId(gone, provider, w.externalId.value) == if cfg.softDelete then Some(rows[i].id) else None)
      && (written.Ok? ==>
            && written.value[i].id == rows[i].id
            && (if cfg.softDelete then |written.value| == |rows| && written.value[i].deletedAt == Some(at)
                else |written.value| == |rows| + 1 && written.value[i] == gone[i] && written.value[|rows|].id == id))
  {
    var ext := w.externalId.value;
    var i := Position(rows, provider, ext);
    var gone := SoftDelete(cfg, rows, ext, provider, at);
    assert forall k :: 0 <= k < i ==> !Identified(rows[k], provider, ext);
    assert forall k :: i < k < |rows| ==> !Identified(rows[k], provider, ext);
    PositionIs(gone, provider, ext, if cfg.softDelete then i else |gone|);
  }

  ghost predicate Shows(r: Row, cfg: UpsertConfig, w: Write) {
    forall c :: c in cfg.writeColumns && c in w.fields ==> c in r.columns && r.columns[c] == w.fields[c]
  }

  predicate SameIdentity(a: Input, b: Input) {
    a.provider == b.provider && a.write.externalId == b.write.externalId
  }

  ghost predicate Reflected(cfg: UpsertConfig, rows: Rows, x: Input)
    requires !Skipped(x)
  {
    var i := Position(rows, x.provider.value, x.write.externalId.value);
    i < |rows| && Shows(rows[i], cfg, x.write)
  }

  lemma WrittenNow(cfg: UpsertConfig, rows: Rows, parents: Parents, x: Input, now: int)
    requires !Skipped(x) && Upsert(cfg, rows, parents, x.write, x.provider.value, x.id, now).Ok?
    ensures Reflected(cfg, Upsert(cfg, rows, parents, x.write, x.provider.value, x.id, now).value, x)
  {
    SecondLands(cfg, rows, parents, x.write, x.provider.value, x.id, now);
  }

  lemma WrittenEarlier(cfg: UpsertConfig, rows: Rows, parents: Parents, x: Input, y: Input, now: int)
    requires !Skipped(x) && !Skipped(y) && !SameIdentity(x, y) && Reflected(cfg, rows, x)
    requires Upsert(cfg, rows, parents, y.write, y.provider.value, y.id, now).Ok?
    ensures Reflected(cfg, Upsert(cfg, rows, parents, y.write, y.provider.value, y.id, now).value, x)
  {
    var after := Upsert(cfg, rows, parents, y.write, y.provider.value, y.id, now).value;
    var provider, ext := x.provider.value, x.write.externalId.value;
    var i := Position(rows, provider, ext);
    assert after[i] == rows[i];
    forall k | 0 <= k < i ensures !Identified(after[k], provider, ext) { assert !Identified(rows[k], provider, ext); }
    PositionIs(after, provider, ext, i);
  }

  /** A committed batch has a row for every input with an identity, showing the last write to it. */
  lemma {:induction false} BatchCommitsAll(cfg: UpsertConfig, rows: Rows, parents: Parents, inputs: seq<Input>,
      now: int, k: nat)
    requires k < |inputs| && !Skipped(inputs[k]) && Batch(cfg, rows, parents, inputs, now).Ok?
    requires forall j :: k < j < |inputs| ==> !SameIdentity(inputs[k], inputs[j])
    ensures Reflected(cfg, Batch(cfg, rows, parents, inputs, now).value, inputs[k])
    decreases |inputs|
  {
    var n := |inputs| - 1;
    var before := Batch(cfg, rows, parents, inputs[..n], now).value;
    if k == n {
      WrittenNow(cfg, before, parents, inputs[n], now);
    } else {
      BatchCommitsAll(cfg, rows, parents, inputs[..n], now, k);
      if !Skipped(inputs[n]) { WrittenEarlier(cfg, before, parents, inputs[k], inputs[n], now); }
    }
  }

  /** A batch answers with one row per kept input, in order: the row of its identity, with its columns. */
  lemma {:induction false} BatchAnswers(cfg: UpsertConfig, rows: Rows, parents: Parents, inputs: seq<Input>,
      now: int, k: nat)
    requires Batch(cfg, rows, parents, inputs, now).Ok?
    ensures |BatchRows(cfg, rows, parents, inputs, now)| == |Kept(inputs)|
    ensures k < |Kept(inputs)| ==>
      var x, r := Kept(inputs)[k], BatchRows(cfg, rows, parents, inputs, now)[k];
      r.provider == x.provider && r.externalId == x.write.externalId && Shows(r, cfg, x.write)
    decreases |inputs|
  {
    if inputs != [] {
      var n := |inputs| - 1;
      BatchAnswers(cfg, rows, parents, inputs[..n], now, k);
    }
  }

  // ---------------------------------------------------------------- spelled out

  /** The parent's external id the write names for a resolver, if it names one. */
  ghost predicate NamesParent(w: Write, key: string, externalId: string) {
    key in w.fields && w.fields[key] == Some(externalId) && externalId != ""
  }

  /** A column resolves to the id of the parent the write names: the first row of the entity itself with
      that identity, or the known row of the other table. */
  lemma ResolvedMeans(rows: Rows, parents: Parents, r: FkResolver, w: Write, provider: string)
    ensures (forall v: string :: !NamesParent(w, r.writeKey, v)) ==> Resolved(rows, parents, r, w, provider) == None
    ensures forall v: string, id: string :: NamesParent(w, r.writeKey, v) && r.refTable == Self ==>
      (Resolved(rows, parents, r, w, provider) == Some(id) <==> FirstWith(rows, provider, v, id))
    ensures forall v: string, id: string, t: string :: NamesParent(w, r.writeKey, v) && r.refTable == Other(t) ==>
      (Resolved(rows, parents, r, w, provider) == Some(id) <==>
        (t, provider, v) in parents && parents[(t, provider, v)] == id)
  {
    if Present(w, r.writeKey) {
      var v := w.fields[r.writeKey].value;
      assert NamesParent(w, r.writeKey, v);
      forall id: string ensures FindId(rows, provider, v) == Some(id) <==> FirstWith(rows, provider, v, id) {
        FindsFirst(rows, provider, v, id);
      }
    }
  }

  ghost predicate FirstWith(rows: Rows, provider: string, externalId: string, id: string) {
    exists k :: 0 <= k < |rows|
      && rows[k].provider == Some(provider) && rows[k].externalId == Some(externalId) && rows[k].id == id
      && forall j :: 0 <= j < k ==> rows[j].provider != Some(provider) || rows[j].externalId != Some(externalId)
  }

  lemma FindsFirst(rows: Rows, provider: string, externalId: string, id: string)
    ensures FindId(rows, provider, externalId) == Some(id) <==> FirstWith(rows, provider, externalId, id)
  {
    if FirstWith(rows, provider, externalId, id) {
      var k :| 0 <= k < |rows|
        && rows[k].provider == Some(provider) && rows[k].externalId == Some(externalId) && rows[k].id == id
        && forall j :: 0 <= j < k ==> rows[j].provider != Some(provider) || rows[j].externalId != Some(externalId);
      PositionIs(rows, provider, externalId, k);
    }
    if FindId(rows, provider, externalId) == Some(id) {
      var k := Position(rows, provider, externalId);
      assert forall j :: 0 <= j < k ==> !Identified(rows[j], provider, externalId);
    }
  }

  /** What the write says about the columns is in b, what it does not is as in a. */
  ghost predicate ColumnsWritten(cfg: UpsertConfig, w: Write, a: map<string, Cell>, b: map<string, Cell>) {
    forall c: string ::
      if c in cfg.writeColumns && c in w.fields then c in b && b[c] == w.fields[c]
      else (c in b <==> c in a) && (c in a ==> b[c] == a[c])
  }

  /** Each column with a resolved parent holds exactly that parent, every other foreign key is as before. */
  ghost predicate KeysWritten(rows: Rows, parents: Parents, rs: seq<FkResolver>, w: Write, provider: string,
      a: map<string, Cell>, b: map<string, Cell>)
  {
    && (forall k :: 0 <= k < |rs| && Decides(rs, k) ==>
          var c, parent := rs[k].column, Resolved(rows, parents, rs[k], w, provider);
          if parent.Some? then c in b && b[c] == parent else (c in b <==> c in a) && (c in a ==> b[c] == a[c]))
    && (forall c :: (forall k :: 0 <= k < |rs| ==> rs[k].column != c) ==>
          (c in b <==> c in a) && (c in a ==> b[c] == a[c]))
  }

  lemma ColumnIs(rs: seq<FkResolver>, c: string)
    ensures c in ColumnsOf(rs) <==> exists k :: 0 <= k < |rs| && rs[k].column == c
  {
    if c in ColumnsOf(rs) {
      var r :| r in rs && r.column == c;
      var k :| 0 <= k < |rs| && rs[k] == r;
    }
    if k :| 0 <= k < |rs| && rs[k].column == c { assert rs[k] in rs; }
  }

  lemma NoClobberWrites(rows: Rows, parents: Parents, rs: seq<FkResolver>, w: Write, provider: string,
      a: map<string, Cell>, m: map<string, Cell>)
    requires CellsResolved(rows, parents, rs, w, provider, m)
    ensures KeysWritten(rows, parents, rs, w, provider, a, NoClobber(a, m))
  {
    var b := NoClobber(a, m);
    forall k | 0 <= k < |rs| && Decides(rs, k)
      ensures var c, parent := rs[k].column, Resolved(rows, parents, rs[k], w, provider);
        if parent.Some? then c in b && b[c] == parent else (c in b <==> c in a) && (c in a ==> b[c] == a[c])
    {
      assert rs[k] in rs && rs[k].column in ColumnsOf(rs);
    }
    forall c | forall k :: 0 <= k < |rs| ==> rs[k].column != c ensures c !in m { ColumnIs(rs, c); }
  }

  /** A write that lands on a row leaves the other rows alone; in its row it writes the columns it defines
      and the parents it resolved, and nothing else but the stamp. */
  lemma UpdateSpelledOut(cfg: UpsertConfig, rows: Rows, parents: Parents, w: Write, provider: string, id: string,
      now: int, i: nat)
    requires Upsert(cfg, rows, parents, w, provider, id, now).Ok? && OnePerIdentity(rows)
    requires i < |rows| && w.externalId.Some?
    requires rows[i].provider == Some(provider) && rows[i].externalId == w.externalId
    ensures var after := Upsert(cfg, rows, parents, w, provider, id, now).value;
      && |after| == |rows| && (forall k :: 0 <= k < |rows| && k != i ==> after[k] == rows[k])
      && after[i].id == rows[i].id && after[i].provider == Some(provider) && after[i].externalId == w.externalId
      && after[i].deletedAt == rows[i].deletedAt
      && after[i].updatedAt == (if cfg.timestamps then Some(now) else rows[i].updatedAt)
      && ColumnsWritten(cfg, w, rows[i].columns, after[i].columns)
      && KeysWritten(rows, parents, cfg.fkResolvers, w, provider, rows[i].fks, after[i].fks)
  {
    assert forall k :: 0 <= k < i ==> !Identified(rows[k], provider, w.externalId.value);
    PositionIs(rows, provider, w.externalId.value, i);
    ResolveAllExactly(rows, parents, cfg.fkResolvers, w, provider);
    NoClobberWrites(rows, parents, cfg.fkResolvers, w, provider, rows[i].fks,
                    ResolveAll(rows, parents, cfg.fkResolvers, w, provider).value);
  }

  lemma ResolvedKeysWritten(rows: Rows, parents: Parents, rs: seq<FkResolver>, w: Write, provider: string,
      m: map<string, Cell>)
    requires CellsResolved(rows, parents, rs, w, provider, m)
    ensures KeysWritten(rows, parents, rs, w, provider, map c | c in m :: None, m)
  {
    forall c | forall k :: 0 <= k < |rs| ==> rs[k].column != c ensures c !in m { ColumnIs(rs, c); }
    forall k | 0 <= k < |rs| && Decides(rs, k)
      ensures rs[k].column in m && m[rs[k].column] == Resolved(rows, parents, rs[k], w, provider)
    {
      assert rs[k] in rs && rs[k].column in ColumnsOf(rs);
    }
  }

  /** Any other write adds one row: its identity, exactly the columns it defines, and each key column with
      the parent it resolved or null. */
  lemma InsertSpelledOut(cfg: UpsertConfig, rows: Rows, parents: Parents, w: Write, provider: string, id: string,
      now: int)
    requires Upsert(cfg, rows, parents, w, provider, id, now).Ok?
    requires forall k :: 0 <= k < |rows| ==>
      w.externalId.None? || rows[k].provider != Some(provider) || rows[k].externalId != w.externalId
    ensures var after := Upsert(cfg, rows, parents, w, provider, id, now).value;
      && |after| == |rows| + 1 && after[..|rows|] == rows
      && var r := after[|rows|];
         && r.id == id && r.provider == Some(provider) && r.externalId == w.externalId && r.deletedAt.None?
         && r.updatedAt == (if cfg.timestamps then Some(now) else None)
         && ColumnsWritten(cfg, w, map[], r.columns)
         && (forall c :: c in r.fks <==> exists k :: 0 <= k < |cfg.fkResolvers| && cfg.fkResolvers[k].column == c)
         && KeysWritten(rows, parents, cfg.fkResolvers, w, provider,
                        map c | c in r.fks :: None, r.fks)
  {
    if w.externalId.Some? { PositionIs(rows, provider, w.externalId.value, |rows|); }
    ResolveAllExactly(rows, parents, cfg.fkResolvers, w, provider);
    var m := ResolveAll(rows, parents, cfg.fkResolvers, w, provider).value;
    ResolvedKeysWritten(rows, parents, cfg.fkResolvers, w, provider, m);
    forall c ensures c in m <==> exists k :: 0 <= k < |cfg.fkResolvers| && cfg.fkResolvers[k].column == c {
      ColumnIs(cfg.fkResolvers, c);
    }
  }

  /** A delete touches the one row of the identity: a soft one marks it, the other clears its identity. */
  lemma DeleteSpelledOut(cfg: UpsertConfig, rows: Rows, externalId: string, provider: string, now: int)
    requires OnePerIdentity(rows)
    ensures var after := SoftDelete(cfg, rows, externalId, provider, now);
      |after| == |rows| && forall k :: 0 <= k < |rows| ==>
        after[k] ==
          if rows[k].provider != Some(provider) || rows[k].externalId != Some(externalId) then rows[k]
          else if cfg.softDelete then rows[k].(deletedAt := Some(now), updatedAt := Some(now))
          else rows[k].(externalId := None, provider := None, updatedAt := Some(now))
  {
    var i := Position(rows, provider, externalId);
    assert forall k :: 0 <= k < i ==> !Identified(rows[k], provider, externalId);
  }

  /** One more input of a batch: without a provider or an external id it changes and answers nothing,
      otherwise it is one more upsert and one more row in the answer. */
  lemma BatchInput(cfg: UpsertConfig, rows: Rows, parents: Parents, inputs: seq<Input>, x: Input, now: int)
    requires Batch(cfg, rows, parents, inputs, now).Ok?
    ensures var named := x.provider.Some? && x.provider.value != ""
        && x.write.externalId.Some? && x.write.externalId.value != "";
      var before := Batch(cfg, rows, parents, inputs, now).value;
      Batch(cfg, rows, parents, inputs + [x], now) ==
        if named then Upsert(cfg, before, parents, x.write, x.provider.value, x.id, now) else Ok(before)
    ensures Batch(cfg, rows, parents, inputs + [x], now).Ok? ==>
      var named := x.provider.Some? && x.provider.value != ""
        && x.write.externalId.Some? && x.write.externalId.value != "";
      && |BatchRows(cfg, rows, parents, inputs + [x], now)| ==
           |BatchRows(cfg, rows, parents, inputs, now)| + (if named then 1 else 0)
      && BatchRows(cfg, rows, parents, inputs, now) <= BatchRows(cfg, rows, parents, inputs + [x], now)
  {
    assert (inputs + [x])[..|inputs + [x]| - 1] == inputs;
  }
}
