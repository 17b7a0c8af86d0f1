/** Junction rows and their composite ids. */
module JunctionIntegration {
  import opened Options
  import opened Delimited
  import opened CompositeIds

  datatype Side = Left | Right

  /** Ids of the parents' rows, by side, provider and external id. */
  type Parents = map<(Side, string, string), string>

  datatype JunctionRow = JunctionRow(leftId: string, rightId: string, role: Option<string>, updatedAt: Option<int>)

  datatype JunctionConfig = JunctionConfig(hasRole: bool, timestamps: bool)

  datatype JunctionWrite = JunctionWrite(left: string, right: string, role: Option<string>)

  datatype UnresolvedParent = UnresolvedParent(side: Side, externalId: string)

  /** A parent row has one external id. */
  ghost predicate OneIdEach(parents: Parents) {
    forall k, l :: k in parents && l in parents && k.0 == l.0 && parents[k] == parents[l] ==> k == l
  }

  function ResolveLoose(parents: Parents, side: Side, externalId: string, provider: string): Option<string> {
    if externalId != "" && (side, provider, externalId) in parents then Some(parents[(side, provider, externalId)])
    else None
  }

  function ResolveStrict(parents: Parents, side: Side, externalId: string,
      provider: string): Result<string, UnresolvedParent>
  {
    var id := ResolveLoose(parents, side, externalId, provider);
    if id.None? || id.value == "" then Err(UnresolvedParent(side, externalId)) else Ok(id.value)
  }

  /** The identity tuple; a role-less junction ignores the role. */
  predicate Matches(cfg: JunctionConfig, r: JunctionRow, leftId: string, rightId: string, role: Option<string>) {
    r.leftId == leftId && r.rightId == rightId && (cfg.hasRole ==> role.Some? && r.role == role)
  }

  function Position(cfg: JunctionConfig, rows: seq<JunctionRow>, leftId: string, rightId: string,
      role: Option<string>): (i: nat)
    ensures i <= |rows| && (i < |rows| ==> Matches(cfg, rows[i], leftId, rightId, role))
    ensures forall k :: 0 <= k < i ==> !Matches(cfg, rows[k], leftId, rightId, role)
  {
    if rows == [] then 0
    else if Matches(cfg, rows[0], leftId, rightId, role) then 0
    else
      assert forall k :: 0 < k < |rows| ==> rows[k] == rows[1..][k - 1];
      1 + Position(cfg, rows[1..], leftId, rightId, role)
  }

  /** The composite id a write is known by; a null role prints as the word. */
  function IdOf(cfg: JunctionConfig, w: JunctionWrite): string {
    var role := if w.role.Some? then w.role else Some("null");
    BuildCompositeExternalId(Parsed(w.left, w.right, if cfg.hasRole then role else None))
  }

  function Stored(cfg: JunctionConfig, leftId: string, rightId: string, role: Option<string>, now: int): JunctionRow {
    JunctionRow(leftId, rightId, if cfg.hasRole then role else None, if cfg.timestamps then Some(now) else None)
  }

  function Touched(cfg: JunctionConfig, r: JunctionRow, now: int): JunctionRow {
    if cfg.timestamps then r.(updatedAt := Some(now)) else r
  }

  function Upsert(cfg: JunctionConfig, rows: seq<JunctionRow>, parents: Parents, w: JunctionWrite,
      provider: string, now: int): Result<seq<JunctionRow>, UnresolvedParent>
  {
    var left := ResolveStrict(parents, Left, w.left, provider);
    if left.Err? then Err(left.error)
    else
      var right := ResolveStrict(parents, Right, w.right, provider);
      if right.Err? then Err(right.error)
      else
        var i := Position(cfg, rows, left.value, right.value, w.role);
        if i < |rows| then Ok(rows[i := Touched(cfg, rows[i], now)])
        else Ok(rows + [Stored(cfg, left.value, right.value, w.role, now)])
  }

  /** The parents' ids and the role a composite id stands for. */
  function Key(cfg: JunctionConfig, parents: Parents, externalId: string, provider: string): Option<Parsed> {
    var parsed := ParseCompositeExternalId(externalId, cfg.hasRole);
    if parsed.None? then None
    else
      var left := ResolveLoose(parents, Left, parsed.value.left, provider);
      var right := ResolveLoose(parents, Right, parsed.value.right, provider);
      if left.None? || right.None? then None else Some(Parsed(left.value, right.value, parsed.value.role))
  }

  function Find(cfg: JunctionConfig, rows: seq<JunctionRow>, parents: Parents, externalId: string,
      provider: string): Option<JunctionRow>
  {
    var key := Key(cfg, parents, externalId, provider);
    if key.None? then None
    else
      var i := Position(cfg, rows, key.value.left, key.value.right, key.value.role);
      if i < |rows| then Some(rows[i]) else None
  }

  function Without(cfg: JunctionConfig, rows: seq<JunctionRow>, key: Parsed): (r: seq<JunctionRow>)
    ensures forall x :: x in r <==> x in rows && !Matches(cfg, x, key.left, key.right, key.role)
    ensures |r| <= |rows|
    ensures |r| == |rows| <==> forall x :: x in rows ==> !Matches(cfg, x, key.left, key.right, key.role)
  {
    if rows == [] then []
    else (if Matches(cfg, rows[0], key.left, key.right, key.role) then [] else [rows[0]]) + Without(cfg, rows[1..], key)
  }

  function Delete(cfg: JunctionConfig, rows: seq<JunctionRow>, parents: Parents, externalId: string,
      provider: string): seq<JunctionRow>
  {
    var key := Key(cfg, parents, externalId, provider);
    if key.None? then rows else Without(cfg, rows, key.value)
  }

  /** What makes a composite id readable. */
  ghost predicate Addressable(cfg: JunctionConfig, w: JunctionWrite) {
    && (cfg.hasRole ==> w.role.Some? && w.role.value != "")
    && Clean([w.left, w.right] + (if cfg.hasRole && w.role.Some? then [w.role.value] else []), COLONS)
  }

  /** The row a successful write leaves for its identity. */
  function Written(cfg: JunctionConfig, rows: seq<JunctionRow>, parents: Parents, w: JunctionWrite,
      provider: string, now: int): (r: JunctionRow)
    requires Upsert(cfg, rows, parents, w, provider, now).Ok?
  {
    var leftId := ResolveStrict(parents, Left, w.left, provider).value;
    var rightId := ResolveStrict(parents, Right, w.right, provider).value;
    var i := Position(cfg, rows, leftId, rightId, w.role);
    Upsert(cfg, rows, parents, w, provider, now).value[i]
  }

  lemma KeyOfWrite(cfg: JunctionConfig, parents: Parents, w: JunctionWrite, provider: string)
    requires OneIdEach(parents)
    requires ResolveStrict(parents, Left, w.left, provider).Ok? && ResolveStrict(parents, Right, w.right, provider).Ok?
    ensures var key := Key(cfg, parents, IdOf(cfg, w), provider);
      (key.Some? && key.value.left == ResolveStrict(parents, Left, w.left, provider).value
       && key.value.right == ResolveStrict(parents, Right, w.right, provider).value
       && (cfg.hasRole ==> key.value.role == w.role)) <==> Addressable(cfg, w)
  {
    var p := Parsed(w.left, w.right, if cfg.hasRole then (if w.role.Some? then w.role else Some("null")) else None);
    ParseAfterBuildExactly(p);
    var parsed := ParseCompositeExternalId(IdOf(cfg, w), cfg.hasRole);
    if parsed.Some? { BuildAfterParse(IdOf(cfg, w), cfg.hasRole); }
  }

  /** A junction just written is found again by its returned id exactly when the id's parts are
      readable; otherwise the lookup finds nothing or another row. */
  lemma FoundAgainExactly(cfg: JunctionConfig, rows: seq<JunctionRow>, parents: Parents, w: JunctionWrite,
      provider: string, now: int)
    requires OneIdEach(parents) && Upsert(cfg, rows, parents, w, provider, now).Ok?
    ensures var after := Upsert(cfg, rows, parents, w, provider, now).value;
      Find(cfg, after, parents, IdOf(cfg, w), provider) == Some(Written(cfg, rows, parents, w, provider, now)) <==>
        Addressable(cfg, w)
  {
    KeyOfWrite(cfg, parents, w, provider);
  }

  lemma OthersStay(cfg: JunctionConfig, rows: seq<JunctionRow>, parents: Parents, w: JunctionWrite,
      provider: string, now: int, r: JunctionRow)
    requires Upsert(cfg, rows, parents, w, provider, now).Ok? && (cfg.hasRole ==> w.role.Some?)
    requires !SharesIdentity(cfg, parents, w, provider, r)
    ensures r in Upsert(cfg, rows, parents, w, provider, now).value <==> r in rows
  {
    var after := Upsert(cfg, rows, parents, w, provider, now).value;
    if r in after {
      var k :| 0 <= k < |after| && after[k] == r;
      assert k < |rows| && after[k] == rows[k];
    }
    if r in rows {
      var k :| 0 <= k < |rows| && rows[k] == r;
      assert after[k] == rows[k];
    }
  }

  /** Deleting by the returned id removes the row, and nothing with another identity. */
  lemma AbsentAfterDelete(cfg: JunctionConfig, rows: seq<JunctionRow>, parents: Parents, w: JunctionWrite,
      provider: string, now: int)
    requires OneIdEach(parents) && Upsert(cfg, rows, parents, w, provider, now).Ok? && Addressable(cfg, w)
    ensures var after := Upsert(cfg, rows, parents, w, provider, now).value;
      var gone := Delete(cfg, after, parents, IdOf(cfg, w), provider);
      && Find(cfg, gone, parents, IdOf(cfg, w), provider).None?
      && Written(cfg, rows, parents, w, provider, now) !in gone
      && (forall r :: r in gone <==> r in rows && !SharesIdentity(cfg, parents, w, provider, r))
  {
    KeyOfWrite(cfg, parents, w, provider);
    var after := Upsert(cfg, rows, parents, w, provider, now).value;
    var gone := Delete(cfg, after, parents, IdOf(cfg, w), provider);
    forall r ensures r in gone <==> r in rows && !SharesIdentity(cfg, parents, w, provider, r) {
      if !SharesIdentity(cfg, parents, w, provider, r) { OthersStay(cfg, rows, parents, w, provider, now, r); }
    }
  }

  /** The row is the one this write addresses. */
  predicate SharesIdentity(cfg: JunctionConfig, parents: Parents, w: JunctionWrite, provider: string, r: JunctionRow) {
    var left, right := ResolveStrict(parents, Left, w.left, provider), ResolveStrict(parents, Right, w.right, provider);
    left.Ok? && right.Ok? && Matches(cfg, r, left.value, right.value, w.role)
  }

  // ---------------------------------------------------------------- one call, spelled out

  /** The parent is there under this external id. */
  predicate Known(parents: Parents, side: Side, externalId: string, provider: string) {
    externalId != "" && (side, provider, externalId) in parents
  }

  predicate KnownBoth(parents: Parents, p: Parsed, provider: string) {
    Known(parents, Left, p.left, provider) && Known(parents, Right, p.right, provider)
  }

  /** A write needs the parent, and with an id that is not empty. */
  predicate Usable(parents: Parents, side: Side, externalId: string, provider: string) {
    Known(parents, side, externalId, provider) && parents[(side, provider, externalId)] != ""
  }

  /** The row relates these two parents, in this role if the junction has roles. */
  predicate Relates(cfg: JunctionConfig, r: JunctionRow, leftId: string, rightId: string, role: Option<string>) {
    if !cfg.hasRole then r.leftId == leftId && r.rightId == rightId
    else role.Some? && r.leftId == leftId && r.rightId == rightId && r.role == Some(role.value)
  }

  ghost predicate FirstRelating(cfg: JunctionConfig, rows: seq<JunctionRow>, leftId: string, rightId: string,
      role: Option<string>, k: int)
  {
    && 0 <= k < |rows| && Relates(cfg, rows[k], leftId, rightId, role)
    && forall j :: 0 <= j < k ==> !Relates(cfg, rows[j], leftId, rightId, role)
  }

  /** A write that finds its parents either touches the first row that relates them in its role or, if there
      is none, adds one at the end. */
  ghost predicate UpsertOutcome(cfg: JunctionConfig, before: seq<JunctionRow>, after: seq<JunctionRow>, leftId: string,
      rightId: string, role: Option<string>, now: int, row: JunctionRow)
  {
    if k :| FirstRelating(cfg, before, leftId, rightId, role, k) then
      && row == (if cfg.timestamps then before[k].(updatedAt := Some(now)) else before[k])
      && after == before[k := row]
    else
      && row.leftId == leftId && row.rightId == rightId && row.role == (if cfg.hasRole then role else None)
      && row.updatedAt == (if cfg.timestamps then Some(now) else None)
      && after == before + [row]
  }

  lemma PositionMeans(cfg: JunctionConfig, rows: seq<JunctionRow>, leftId: string, rightId: string,
      role: Option<string>, k: int)
    ensures FirstRelating(cfg, rows, leftId, rightId, role, k) <==>
      k == Position(cfg, rows, leftId, rightId, role) && k < |rows|
  {
    forall r ensures Relates(cfg, r, leftId, rightId, role) <==> Matches(cfg, r, leftId, rightId, role) {}
  }

  lemma UpsertSpelledOut(cfg: JunctionConfig, rows: seq<JunctionRow>, parents: Parents, w: JunctionWrite,
      provider: string, now: int)
    ensures var r := Upsert(cfg, rows, parents, w, provider, now);
      if !Usable(parents, Left, w.left, provider) then r == Err(UnresolvedParent(Left, w.left))
      else if !Usable(parents, Right, w.right, provider) then r == Err(UnresolvedParent(Right, w.right))
      else
        && r.Ok?
        && UpsertOutcome(cfg, rows, r.value, parents[(Left, provider, w.left)], parents[(Right, provider, w.right)],
                         w.role, now, Written(cfg, rows, parents, w, provider, now))
  {
    if Usable(parents, Left, w.left, provider) && Usable(parents, Right, w.right, provider) {
      var leftId, rightId := parents[(Left, provider, w.left)], parents[(Right, provider, w.right)];
      var i := Position(cfg, rows, leftId, rightId, w.role);
      PositionMeans(cfg, rows, leftId, rightId, w.role, i);
      forall k | FirstRelating(cfg, rows, leftId, rightId, w.role, k) ensures k == i {
        PositionMeans(cfg, rows, leftId, rightId, w.role, k);
      }
    }
  }

  /** A lookup answers the first row that relates the parents the id names, in the role it names; it answers
      nothing if the id does not read as parts, or names an unknown parent. */
  lemma FindSpelledOut(cfg: JunctionConfig, rows: seq<JunctionRow>, parents: Parents, externalId: string,
      provider: string)
    ensures (forall p :: !Reads(externalId, cfg.hasRole, p)) ==> Find(cfg, rows, parents, externalId, provider).None?
    ensures forall p :: Reads(externalId, cfg.hasRole, p) ==>
      var r := Find(cfg, rows, parents, externalId, provider);
      if KnownBoth(parents, p, provider) then
        var leftId, rightId := parents[(Left, provider, p.left)], parents[(Right, provider, p.right)];
        && (r.None? <==> forall k :: 0 <= k < |rows| ==> !Relates(cfg, rows[k], leftId, rightId, p.role))
        && (r.Some? ==> exists k :: FirstRelating(cfg, rows, leftId, rightId, p.role, k) && rows[k] == r.value)
      else r.None?
  {
    var parsed := ParseCompositeExternalId(externalId, cfg.hasRole);
    if parsed.Some? { ParsesExactly(externalId, cfg.hasRole, parsed.value); }
    forall p | Reads(externalId, cfg.hasRole, p) ensures parsed == Some(p) {
      ParsesExactly(externalId, cfg.hasRole, p);
    }
    var key := Key(cfg, parents, externalId, provider);
    if key.Some? {
      var i := Position(cfg, rows, key.value.left, key.value.right, key.value.role);
      PositionMeans(cfg, rows, key.value.left, key.value.right, key.value.role, i);
      forall k ensures 0 <= k < |rows| ==> (Relates(cfg, rows[k], key.value.left, key.value.right, key.value.role)
                       <==> Matches(cfg, rows[k], key.value.left, key.value.right, key.value.role)) {}
    }
  }

  /** A delete removes the rows that relate the parents the id names, in the role it names, and no others. */
  lemma DeleteSpelledOut(cfg: JunctionConfig, rows: seq<JunctionRow>, parents: Parents, externalId: string,
      provider: string, row: JunctionRow)
    ensures row in Delete(cfg, rows, parents, externalId, provider) <==>
      && row in rows
      && forall p ::
        Reads(externalId, cfg.hasRole, p) && KnownBoth(parents, p, provider) ==>
          !Relates(cfg, row, parents[(Left, provider, p.left)], parents[(Right, provider, p.right)], p.role)
  {
    var parsed := ParseCompositeExternalId(externalId, cfg.hasRole);
    if parsed.Some? { ParsesExactly(externalId, cfg.hasRole, parsed.value); }
    forall p | Reads(externalId, cfg.hasRole, p) ensures parsed == Some(p) {
      ParsesExactly(externalId, cfg.hasRole, p);
    }
  }

  // ---------------------------------------------------------------- runs

  datatype Op =
    | UpsertOp(write: JunctionWrite, provider: string)
    | DeleteOp(externalId: string, provider: string)
    | ParentsChange(parents: Parents)

  datatype Event = Event(op: Op, at: int)

  datatype Db = Db(rows: seq<JunctionRow>, parents: Parents)

  function Step(cfg: JunctionConfig, db: Db, e: Event): Db {
    match e.op
    case UpsertOp(w, provider) =>
      var r := Upsert(cfg, db.rows, db.parents, w, provider, e.at);
      if r.Ok? then db.(rows := r.value) else db
    case DeleteOp(externalId, provider) => db.(rows := Delete(cfg, db.rows, db.parents, externalId, provider))
    case ParentsChange(parents) => db.(parents := parents)
  }

  function Run(cfg: JunctionConfig, db: Db, events: seq<Event>): Db {
    if events == [] then db else Step(cfg, Run(cfg, db, events[..|events| - 1]), events[|events| - 1])
  }

  /** The unique constraint over (left, right) or (left, right, role); a null role never conflicts. */
  ghost predicate OnePerTuple(cfg: JunctionConfig, rows: seq<JunctionRow>) {
    forall j, k :: 0 <= j < k < |rows| ==> !Matches(cfg, rows[k], rows[j].leftId, rows[j].rightId, rows[j].role)
  }

  lemma {:induction false} WithoutKeeps(cfg: JunctionConfig, rows: seq<JunctionRow>, key: Parsed)
    requires OnePerTuple(cfg, rows)
    ensures OnePerTuple(cfg, Without(cfg, rows, key))
  {
    if rows != [] {
      var rest := Without(cfg, rows[1..], key);
      WithoutKeeps(cfg, rows[1..], key);
      forall k | 0 <= k < |rest| ensures !Matches(cfg, rest[k], rows[0].leftId, rows[0].rightId, rows[0].role) {
        assert rest[k] in rows[1..];
        var m :| 0 <= m < |rows[1..]| && rows[1..][m] == rest[k];
        assert rows[m + 1] == rest[k];
      }
    }
  }

  lemma StepKeeps(cfg: JunctionConfig, db: Db, e: Event)
    requires OnePerTuple(cfg, db.rows)
    ensures OnePerTuple(cfg, Step(cfg, db, e).rows)
  {
    match e.op
    case UpsertOp(w, provider) =>
    case DeleteOp(externalId, provider) =>
      var key := Key(cfg, db.parents, externalId, provider);
      if key.Some? { WithoutKeeps(cfg, db.rows, key.value); }
    case ParentsChange(_) =>
  }

  /** Upserts update in place: over any run the identity stays unique. */
  lemma {:induction false} AlwaysOnePerTuple(cfg: JunctionConfig, db: Db, events: seq<Event>)
    requires OnePerTuple(cfg, db.rows)
    ensures OnePerTuple(cfg, Run(cfg, db, events).rows)
  {
    if events != [] {
      AlwaysOnePerTuple(cfg, db, events[..|events| - 1]);
      StepKeeps(cfg, Run(cfg, db, events[..|events| - 1]), events[|events| - 1]);
    }
  }

  // ---------------------------------------------------------------- found until deleted

  /** The id names the parents with these ids, and its lookup finds their row. */
  ghost predicate Findable(cfg: JunctionConfig, db: Db, w: JunctionWrite, provider: string, leftId: string,
      rightId: string)
  {
    var r := Find(cfg, db.rows, db.parents, IdOf(cfg, w), provider);
    r.Some? && Matches(cfg, r.value, leftId, rightId, w.role)
  }

  predicate Resolves(parents: Parents, w: JunctionWrite, provider: string, leftId: string, rightId: string) {
    && ResolveLoose(parents, Left, w.left, provider) == Some(leftId)
    && ResolveLoose(parents, Right, w.right, provider) == Some(rightId)
  }

  /** Neither a delete of this id nor a change of its parents. */
  predicate Spares(cfg: JunctionConfig, e: Event, w: JunctionWrite, provider: string, leftId: string, rightId: string) {
    match e.op
    case UpsertOp(_, _) => true
    case DeleteOp(externalId, other) => externalId != IdOf(cfg, w) || other != provider
    case ParentsChange(parents) => Resolves(parents, w, provider, leftId, rightId)
  }

  ghost predicate ParentsOk(db: Db, events: seq<Event>) {
    && OneIdEach(db.parents)
    && forall k :: 0 <= k < |events| && events[k].op.ParentsChange? ==> OneIdEach(events[k].op.parents)
  }

  /** The tuple stands for this identity. */
  predicate Names(cfg: JunctionConfig, key: Option<Parsed>, w: JunctionWrite, leftId: string, rightId: string) {
    key.Some? && key.value.left == leftId && key.value.right == rightId && (cfg.hasRole ==> key.value.role == w.role)
  }

  predicate Kept(cfg: JunctionConfig, rows: seq<JunctionRow>, w: JunctionWrite, leftId: string, rightId: string) {
    exists k :: 0 <= k < |rows| && Matches(cfg, rows[k], leftId, rightId, w.role)
  }

  lemma FindableMeans(cfg: JunctionConfig, db: Db, w: JunctionWrite, provider: string, leftId: string, rightId: string)
    ensures Findable(cfg, db, w, provider, leftId, rightId) <==>
      && Names(cfg, Key(cfg, db.parents, IdOf(cfg, w), provider), w, leftId, rightId)
      && Kept(cfg, db.rows, w, leftId, rightId)
  {
    var key := Key(cfg, db.parents, IdOf(cfg, w), provider);
    if key.Some? {
      var i := Position(cfg, db.rows, key.value.left, key.value.right, key.value.role);
      if i < |db.rows| && Matches(cfg, db.rows[i], leftId, rightId, w.role) {
        assert Kept(cfg, db.rows, w, leftId, rightId);
      }
    }
  }

  /** Two ids that stand for the same identity are the same id of the same provider. */
  lemma OneIdPerIdentity(cfg: JunctionConfig, parents: Parents, x: string, p: string, y: string, q: string)
    requires OneIdEach(parents)
    requires var k, l := Key(cfg, parents, x, p), Key(cfg, parents, y, q);
      k.Some? && l.Some? && k.value.left == l.value.left && k.value.right == l.value.right
      && (cfg.hasRole ==> k.value.role == l.value.role)
    ensures x == y && p == q
  {
    var a, b := ParseCompositeExternalId(x, cfg.hasRole).value, ParseCompositeExternalId(y, cfg.hasRole).value;
    BuildAfterParse(x, cfg.hasRole);
    BuildAfterParse(y, cfg.hasRole);
    assert (Left, p, a.left) == (Left, q, b.left);
    assert (Right, p, a.right) == (Right, q, b.right);
    assert a == b;
  }

  lemma KeyWithParents(cfg: JunctionConfig, parents: Parents, w: JunctionWrite, provider: string,
      leftId: string, rightId: string)
    requires Addressable(cfg, w) && w.left != "" && w.right != ""
    ensures Names(cfg, Key(cfg, parents, IdOf(cfg, w), provider), w, leftId, rightId) <==>
      Resolves(parents, w, provider, leftId, rightId)
  {
    ParseAfterBuildExactly(Parsed(w.left, w.right, if cfg.hasRole then w.role else None));
  }

  lemma DeleteSpares(cfg: JunctionConfig, db: Db, externalId: string, other: string, w: JunctionWrite, provider: string,
      leftId: string, rightId: string)
    requires OneIdEach(db.parents) && Findable(cfg, db, w, provider, leftId, rightId)
    ensures Kept(cfg, Delete(cfg, db.rows, db.parents, externalId, other), w, leftId, rightId) <==>
      externalId != IdOf(cfg, w) || other != provider
  {
    FindableMeans(cfg, db, w, provider, leftId, rightId);
    var key := Key(cfg, db.parents, externalId, other);
    var gone := Delete(cfg, db.rows, db.parents, externalId, other);
    if key.Some? && Names(cfg, key, w, leftId, rightId) {
      OneIdPerIdentity(cfg, db.parents, externalId, other, IdOf(cfg, w), provider);
      forall k | 0 <= k < |gone| ensures !Matches(cfg, gone[k], leftId, rightId, w.role) { assert gone[k] in gone; }
    } else {
      var k :| 0 <= k < |db.rows| && Matches(cfg, db.rows[k], leftId, rightId, w.role);
      assert db.rows[k] in gone;
      var m :| 0 <= m < |gone| && gone[m] == db.rows[k];
    }
  }

  lemma UpsertSpares(cfg: JunctionConfig, rows: seq<JunctionRow>, parents: Parents, v: JunctionWrite,
      other: string, now: int,
      w: JunctionWrite, leftId: string, rightId: string)
    requires Upsert(cfg, rows, parents, v, other, now).Ok? && Kept(cfg, rows, w, leftId, rightId)
    ensures Kept(cfg, Upsert(cfg, rows, parents, v, other, now).value, w, leftId, rightId)
  {
    var k :| 0 <= k < |rows| && Matches(cfg, rows[k], leftId, rightId, w.role);
    assert Matches(cfg, Upsert(cfg, rows, parents, v, other, now).value[k], leftId, rightId, w.role);
  }

  lemma SparedExactly(cfg: JunctionConfig, db: Db, e: Event, w: JunctionWrite, provider: string,
      leftId: string, rightId: string)
    requires Addressable(cfg, w) && w.left != "" && w.right != "" && ParentsOk(db, [e])
    requires Findable(cfg, db, w, provider, leftId, rightId)
    ensures Findable(cfg, Step(cfg, db, e), w, provider, leftId, rightId) <==>
      Spares(cfg, e, w, provider, leftId, rightId)
  {
    FindableMeans(cfg, db, w, provider, leftId, rightId);
    FindableMeans(cfg, Step(cfg, db, e), w, provider, leftId, rightId);
    match e.op
    case UpsertOp(v, other) =>
      if Upsert(cfg, db.rows, db.parents, v, other, e.at).Ok? {
        UpsertSpares(cfg, db.rows, db.parents, v, other, e.at, w, leftId, rightId);
      }
    case DeleteOp(externalId, other) => DeleteSpares(cfg, db, externalId, other, w, provider, leftId, rightId);
    case ParentsChange(parents) => KeyWithParents(cfg, parents, w, provider, leftId, rightId);
  }

  /** At the end of the run and of each of its prefixes. */
  ghost predicate FoundThroughout(cfg: JunctionConfig, db: Db, events: seq<Event>, w: JunctionWrite, provider: string,
      leftId: string, rightId: string)
  {
    && Findable(cfg, Run(cfg, db, events), w, provider, leftId, rightId)
    && (events != [] ==> FoundThroughout(cfg, db, events[..|events| - 1], w, provider, leftId, rightId))
  }

  predicate AllSpare(cfg: JunctionConfig, events: seq<Event>, w: JunctionWrite, provider: string,
      leftId: string, rightId: string)
  {
    forall k :: 0 <= k < |events| ==> Spares(cfg, events[k], w, provider, leftId, rightId)
  }

  lemma {:induction false} ParentsStayOk(cfg: JunctionConfig, db: Db, events: seq<Event>)
    requires ParentsOk(db, events)
    ensures OneIdEach(Run(cfg, db, events).parents)
  {
    if events != [] { ParentsStayOk(cfg, db, events[..|events| - 1]); }
  }

  lemma SpareSnoc(cfg: JunctionConfig, events: seq<Event>, w: JunctionWrite, provider: string, leftId: string,
      rightId: string)
    requires events != []
    ensures var n := |events| - 1;
      AllSpare(cfg, events, w, provider, leftId, rightId) <==>
        AllSpare(cfg, events[..n], w, provider, leftId, rightId) && Spares(cfg, events[n], w, provider, leftId, rightId)
  {
  }

  lemma LastEvent(cfg: JunctionConfig, db: Db, events: seq<Event>, w: JunctionWrite, provider: string,
      leftId: string, rightId: string)
    requires Addressable(cfg, w) && w.left != "" && w.right != "" && ParentsOk(db, events) && events != []
    requires Findable(cfg, Run(cfg, db, events[..|events| - 1]), w, provider, leftId, rightId)
    ensures Findable(cfg, Run(cfg, db, events), w, provider, leftId, rightId) <==>
      Spares(cfg, events[|events| - 1], w, provider, leftId, rightId)
  {
    var n := |events| - 1;
    ParentsStayOk(cfg, db, events[..n]);
    SparedExactly(cfg, Run(cfg, db, events[..n]), events[n], w, provider, leftId, rightId);
  }

  lemma {:induction false} FoundWhileSpared(cfg: JunctionConfig, db: Db, events: seq<Event>,
      w: JunctionWrite, provider: string,
      leftId: string, rightId: string)
    requires Addressable(cfg, w) && w.left != "" && w.right != "" && ParentsOk(db, events)
    requires Findable(cfg, db, w, provider, leftId, rightId)
    ensures FoundThroughout(cfg, db, events, w, provider, leftId, rightId) <==>
      AllSpare(cfg, events, w, provider, leftId, rightId)
  {
    if events != [] {
      var n := |events| - 1;
      FoundWhileSpared(cfg, db, events[..n], w, provider, leftId, rightId);
      SpareSnoc(cfg, events, w, provider, leftId, rightId);
      if FoundThroughout(cfg, db, events[..n], w, provider, leftId, rightId) {
        LastEvent(cfg, db, events, w, provider, leftId, rightId);
      }
    }
  }

  lemma NotFoundFromTheStart(cfg: JunctionConfig, db: Db, events: seq<Event>, w: JunctionWrite, provider: string,
      leftId: string, rightId: string)
    requires !Findable(cfg, db, w, provider, leftId, rightId)
    ensures !FoundThroughout(cfg, db, events, w, provider, leftId, rightId)
  {
  }

  lemma FindableAfterUpsert(cfg: JunctionConfig, db: Db, w: JunctionWrite, provider: string, now: int)
    requires OneIdEach(db.parents) && Upsert(cfg, db.rows, db.parents, w, provider, now).Ok?
    ensures var leftId := ResolveStrict(db.parents, Left, w.left, provider).value;
      var rightId := ResolveStrict(db.parents, Right, w.right, provider).value;
      Findable(cfg, Step(cfg, db, Event(UpsertOp(w, provider), now)), w, provider, leftId, rightId) <==>
        Addressable(cfg, w)
  {
    var leftId := ResolveStrict(db.parents, Left, w.left, provider).value;
    var rightId := ResolveStrict(db.parents, Right, w.right, provider).value;
    var after := Step(cfg, db, Event(UpsertOp(w, provider), now));
    KeyOfWrite(cfg, db.parents, w, provider);
    FindableMeans(cfg, after, w, provider, leftId, rightId);
    if Addressable(cfg, w) {
      var i := Position(cfg, db.rows, leftId, rightId, w.role);
      assert Matches(cfg, after.rows[i], leftId, rightId, w.role);
    }
  }

  /** A junction just written is found by its returned id, as the row of its parents, at every point of
      a run exactly when the id's parts are readable and the run neither deletes that id nor changes
      what its parents resolve to. */
  lemma StaysFoundExactly(cfg: JunctionConfig, db: Db, w: JunctionWrite, provider: string, now: int, events: seq<Event>)
    requires Upsert(cfg, db.rows, db.parents, w, provider, now).Ok? && ParentsOk(db, events)
    ensures var leftId := ResolveStrict(db.parents, Left, w.left, provider).value;
      var rightId := ResolveStrict(db.parents, Right, w.right, provider).value;
      FoundThroughout(cfg, Step(cfg, db, Event(UpsertOp(w, provider), now)), events, w, provider, leftId, rightId) <==>
      Addressable(cfg, w) && AllSpare(cfg, events, w, provider, leftId, rightId)
  {
    var leftId := ResolveStrict(db.parents, Left, w.left, provider).value;
    var rightId := ResolveStrict(db.parents, Right, w.right, provider).value;
    var after := Step(cfg, db, Event(UpsertOp(w, provider), now));
    FindableAfterUpsert(cfg, db, w, provider, now);
    if Addressable(cfg, w) { FoundWhileSpared(cfg, after, events, w, provider, leftId, rightId); }
    else { NotFoundFromTheStart(cfg, after, events, w, provider, leftId, rightId); }
  }
}
