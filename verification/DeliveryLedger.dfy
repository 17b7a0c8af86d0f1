/** The delivery ledger's two backends. */
module DeliveryLedger {
  import opened Options
  import opened Delimited
  import CompositeIds

  datatype Status = Pending | Delivered | Skipped | Failed

  datatype Record = Record(
    id: string,
    eventId: string,
    triggerId: string,
    wrapperRunId: Option<string>,
    userRunId: Option<string>,
    status: Status,
    skipReason: Option<string>,
    error: Option<string>,
    tenantId: Option<string>,
    attemptedAt: int,
    deliveredAt: Option<int>)

  /** A Map's entry; entries keep insertion order and there is one per key. */
  datatype Entry = Entry(key: string, record: Record)

  datatype Mark =
    | ToDelivered(userRunId: string, at: int)
    | ToSkipped(reason: string)
    | ToFailed(error: string)

  datatype LedgerError =
    | UniqueConstraint(eventId: string, triggerId: string)
    | PrimaryKey(id: string)
    | UnknownDelivery(id: string)
    | BadWindow

  function Key(eventId: string, triggerId: string): string {
    eventId + "::" + triggerId
  }

  function Marked(r: Record, m: Mark): Record {
    match m
    case ToDelivered(run, at) => r.(status := Delivered, userRunId := Some(run), deliveredAt := Some(at))
    case ToSkipped(reason) => r.(status := Skipped, skipReason := Some(reason))
    case ToFailed(error) => r.(status := Failed, error := Some(error))
  }

  /** The event id can be read back from the key exactly when it neither holds the delimiter nor
      ends in a colon; a UUID does neither. */
  lemma KeyReadsBackExactly(eventId: string, triggerId: string)
    ensures var k := Key(eventId, triggerId);
      k[..Index(k, CompositeIds.COLONS)] == eventId <==> Leads(eventId, CompositeIds.COLONS)
  {
    assert Text(CompositeIds.COLONS) == "::";
    IndexAfterPart(eventId, triggerId, CompositeIds.COLONS);
    assert Key(eventId, triggerId) == eventId + Text(CompositeIds.COLONS) + triggerId;
    assert Key(eventId, triggerId)[..|eventId|] == eventId;
  }

  lemma KeyInjective(e1: string, t1: string, e2: string, t2: string)
    requires Leads(e1, CompositeIds.COLONS) && Leads(e2, CompositeIds.COLONS) && Key(e1, t1) == Key(e2, t2)
    ensures e1 == e2 && t1 == t2
  {
    KeyReadsBackExactly(e1, t1);
    KeyReadsBackExactly(e2, t2);
    assert Key(e1, t1)[|e1| + 2..] == t1 && Key(e2, t2)[|e2| + 2..] == t2;
  }

  // ---------------------------------------------------------------- the map

  function At(entries: seq<Entry>, key: string): (i: nat)
    ensures i <= |entries| && (i < |entries| ==> entries[i].key == key)
    ensures forall k :: 0 <= k < i ==> entries[k].key != key
  {
    if entries == [] || entries[0].key == key then 0
    else
      assert forall k :: 0 < k < |entries| ==> entries[k] == entries[1..][k - 1];
      1 + At(entries[1..], key)
  }

  function ById(entries: seq<Entry>, id: string): (i: nat)
    ensures i <= |entries| && (i < |entries| ==> entries[i].record.id == id)
    ensures forall k :: 0 <= k < i ==> entries[k].record.id != id
  {
    if entries == [] || entries[0].record.id == id then 0
    else
      assert forall k :: 0 < k < |entries| ==> entries[k] == entries[1..][k - 1];
      1 + ById(entries[1..], id)
  }

  function MapInsert(entries: seq<Entry>, r: Record): Result<seq<Entry>, LedgerError> {
    if At(entries, Key(r.eventId, r.triggerId)) < |entries| then Err(UniqueConstraint(r.eventId, r.triggerId))
    else Ok(entries + [Entry(Key(r.eventId, r.triggerId), r)])
  }

  function MapMark(entries: seq<Entry>, id: string, m: Mark): Result<seq<Entry>, LedgerError> {
    var i := ById(entries, id);
    if i == |entries| then Err(UnknownDelivery(id))
    else Ok(entries[i := entries[i].(record := Marked(entries[i].record, m))])
  }

  // ---------------------------------------------------------------- the table

  predicate Conflicts(rows: seq<Record>, r: Record) {
    exists k :: 0 <= k < |rows| && rows[k].eventId == r.eventId && rows[k].triggerId == r.triggerId
  }

  predicate IdTaken(rows: seq<Record>, id: string) {
    exists k :: 0 <= k < |rows| && rows[k].id == id
  }

  /** ON CONFLICT (event_id, trigger_id) DO NOTHING; a taken primary key still fails. */
  function TableInsert(rows: seq<Record>, r: Record): Result<seq<Record>, LedgerError> {
    if Conflicts(rows, r) then Ok(rows)
    else if IdTaken(rows, r.id) then Err(PrimaryKey(r.id))
    else Ok(rows + [r])
  }

  /** UPDATE ... WHERE id; no row is no error. */
  function TableMark(rows: seq<Record>, id: string, m: Mark): (after: seq<Record>)
    ensures |after| == |rows|
    ensures forall k :: 0 <= k < |rows| ==> after[k] == if rows[k].id == id then Marked(rows[k], m) else rows[k]
  {
    if rows == [] then []
    else [if rows[0].id == id then Marked(rows[0], m) else rows[0]] + TableMark(rows[1..], id, m)
  }

  // ---------------------------------------------------------------- twins

  datatype Op = Insert(record: Record) | MarkAs(id: string, mark: Mark)

  /** A throwing call leaves the map as it was. */
  function MapStep(entries: seq<Entry>, op: Op): seq<Entry> {
    var r := match op case Insert(rec) => MapInsert(entries, rec) case MarkAs(id, m) => MapMark(entries, id, m);
    if r.Ok? then r.value else entries
  }

  function TableStep(rows: seq<Record>, op: Op): seq<Record> {
    match op
    case Insert(rec) => (var r := TableInsert(rows, rec); if r.Ok? then r.value else rows)
    case MarkAs(id, m) => TableMark(rows, id, m)
  }

  predicate Throws(entries: seq<Entry>, op: Op) {
    match op case Insert(rec) => MapInsert(entries, rec).Err? case MarkAs(id, m) => MapMark(entries, id, m).Err?
  }

  /** No row is inserted or updated. */
  predicate TouchesNothing(rows: seq<Record>, op: Op) {
    match op case Insert(rec) => Conflicts(rows, rec) || IdTaken(rows, rec.id) case MarkAs(id, _) => !IdTaken(rows, id)
  }

  function RunMap(ops: seq<Op>): seq<Entry> {
    if ops == [] then [] else MapStep(RunMap(ops[..|ops| - 1]), ops[|ops| - 1])
  }

  function RunTable(ops: seq<Op>): seq<Record> {
    if ops == [] then [] else TableStep(RunTable(ops[..|ops| - 1]), ops[|ops| - 1])
  }

  /** Inserts carry fresh random ids and events have UUIDs. */
  ghost predicate Wellformed(ops: seq<Op>) {
    && (forall k :: 0 <= k < |ops| && ops[k].Insert? ==> Leads(ops[k].record.eventId, CompositeIds.COLONS))
    && (forall j, k :: 0 <= j < k < |ops| && ops[j].Insert? && ops[k].Insert? ==> ops[j].record.id != ops[k].record.id)
  }

  ghost predicate Twins(entries: seq<Entry>, rows: seq<Record>) {
    && |entries| == |rows|
    && (forall k :: 0 <= k < |rows| ==> entries[k] == Entry(Key(rows[k].eventId, rows[k].triggerId), rows[k]))
    && (forall k :: 0 <= k < |rows| ==> Leads(rows[k].eventId, CompositeIds.COLONS))
    && (forall j, k :: 0 <= j < k < |rows| ==> rows[j].id != rows[k].id)
  }

  ghost predicate Acceptable(rows: seq<Record>, op: Op) {
    op.Insert? ==> Leads(op.record.eventId, CompositeIds.COLONS) && !IdTaken(rows, op.record.id)
  }

  lemma SameConflict(entries: seq<Entry>, rows: seq<Record>, r: Record)
    requires Twins(entries, rows) && Leads(r.eventId, CompositeIds.COLONS)
    ensures At(entries, Key(r.eventId, r.triggerId)) < |entries| <==> Conflicts(rows, r)
  {
    var i := At(entries, Key(r.eventId, r.triggerId));
    if i < |entries| {
      KeyInjective(rows[i].eventId, rows[i].triggerId, r.eventId, r.triggerId);
    }
    if Conflicts(rows, r) {
      var k :| 0 <= k < |rows| && rows[k].eventId == r.eventId && rows[k].triggerId == r.triggerId;
      assert entries[k].key == Key(r.eventId, r.triggerId);
    }
  }

  lemma StepsAgree(entries: seq<Entry>, rows: seq<Record>, op: Op)
    requires Twins(entries, rows) && Acceptable(rows, op)
    ensures Twins(MapStep(entries, op), TableStep(rows, op))
    ensures Throws(entries, op) <==> TouchesNothing(rows, op)
  {
    match op
    case Insert(rec) => SameConflict(entries, rows, rec);
    case MarkAs(id, m) => MarksAgree(entries, rows, id, m);
  }

  /** With unique ids the table update touches the one row with the id, or none. */
  lemma MarksOneRow(rows: seq<Record>, id: string, m: Mark, i: nat)
    requires i <= |rows| && forall k :: 0 <= k < |rows| && k != i ==> rows[k].id != id
    requires i < |rows| ==> rows[i].id == id
    ensures TableMark(rows, id, m) == if i < |rows| then rows[i := Marked(rows[i], m)] else rows
    ensures IdTaken(rows, id) <==> i < |rows|
  {
  }

  lemma MarkedTwins(entries: seq<Entry>, rows: seq<Record>, m: Mark, i: nat)
    requires Twins(entries, rows) && i < |rows|
    ensures Twins(entries[i := entries[i].(record := Marked(entries[i].record, m))], rows[i := Marked(rows[i], m)])
  {
  }

  lemma MarksAgree(entries: seq<Entry>, rows: seq<Record>, id: string, m: Mark)
    requires Twins(entries, rows)
    ensures Twins(MapStep(entries, MarkAs(id, m)), TableMark(rows, id, m))
    ensures MapMark(entries, id, m).Err? <==> !IdTaken(rows, id)
  {
    var i := ById(entries, id);
    forall k | 0 <= k < |rows| && k != i ensures rows[k].id != id {
      assert entries[k].record == rows[k];
      if i < |rows| { assert entries[i].record == rows[i]; }
    }
    MarksOneRow(rows, id, m, i);
    if i < |rows| { MarkedTwins(entries, rows, m, i); }
  }

  ghost predicate InsertedId(ops: seq<Op>, id: string) {
    exists j :: 0 <= j < |ops| && ops[j].Insert? && ops[j].record.id == id
  }

  lemma IdsOfStep(rows: seq<Record>, op: Op, k: nat)
    requires k < |TableStep(rows, op)|
    ensures if k < |rows| then TableStep(rows, op)[k].id == rows[k].id
            else op.Insert? && op.record.id == TableStep(rows, op)[k].id
  {
  }

  lemma {:induction false} IdsComeFromInserts(ops: seq<Op>, k: nat)
    requires k < |RunTable(ops)|
    ensures InsertedId(ops, RunTable(ops)[k].id)
  {
    var n := |ops| - 1;
    var rows := RunTable(ops[..n]);
    IdsOfStep(rows, ops[n], k);
    if k < |rows| {
      IdsComeFromInserts(ops[..n], k);
      var j :| 0 <= j < n && ops[..n][j].Insert? && ops[..n][j].record.id == rows[k].id;
      assert ops[j] == ops[..n][j];
    }
  }

  lemma FreshInsert(ops: seq<Op>, n: nat)
    requires Wellformed(ops) && n < |ops| && ops[n].Insert?
    ensures !IdTaken(RunTable(ops[..n]), ops[n].record.id)
  {
    forall k | 0 <= k < |RunTable(ops[..n])| ensures RunTable(ops[..n])[k].id != ops[n].record.id {
      IdsComeFromInserts(ops[..n], k);
      var j :| 0 <= j < n && ops[..n][j].Insert? && ops[..n][j].record.id == RunTable(ops[..n])[k].id;
      assert ops[j] == ops[..n][j];
    }
  }

  /** Over any sequence of inserts and transitions both backends hold the same records in the same
      order, and the map's methods throw exactly where the table's touch nothing. */
  lemma {:induction false} BackendsAgree(ops: seq<Op>)
    requires Wellformed(ops)
    ensures Twins(RunMap(ops), RunTable(ops))
    ensures ops != [] ==>
      (Throws(RunMap(ops[..|ops| - 1]), ops[|ops| - 1]) <==> TouchesNothing(RunTable(ops[..|ops| - 1]), ops[|ops| - 1]))
  {
    if ops != [] {
      var n := |ops| - 1;
      BackendsAgree(ops[..n]);
      if ops[n].Insert? { FreshInsert(ops, n); }
      StepsAgree(RunMap(ops[..n]), RunTable(ops[..n]), ops[n]);
    }
  }
}
