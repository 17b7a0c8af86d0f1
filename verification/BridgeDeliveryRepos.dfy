/** The two ledger repositories as objects. */
module BridgeDeliveryRepos {
  import opened Options
  import opened DeliveryLedger
  import opened Tenants

  datatype StatusHistogram = StatusHistogram(pending: nat, delivered: nat, skipped: nat, failed: nat)

  predicate InWindow(r: Record, cutoffMs: real, tenant: TenantFilter) {
    r.attemptedAt as real >= cutoffMs && Allows(tenant, r.tenantId)
  }

  /** Positions of the records in the window that have a status. */
  ghost function With(entries: seq<Entry>, status: Status, cutoffMs: real,
      tenant: TenantFilter): set<nat>
  {
    set k: nat | k < |entries| && InWindow(entries[k].record, cutoffMs, tenant) && entries[k].record.status == status
  }

  lemma WithMeans(entries: seq<Entry>, status: Status, cutoffMs: real, tenant: TenantFilter)
    ensures var seen := set k: nat |
        && k < |entries| && entries[k].record.attemptedAt as real >= cutoffMs
        && (tenant.NullTenant? ==> entries[k].record.tenantId.None?)
        && (tenant.OneTenant? ==> entries[k].record.tenantId == Some(tenant.id));
      With(entries, status, cutoffMs, tenant) == set k | k in seen && entries[k].record.status == status
  {
  }

  lemma OneMoreEntry(entries: seq<Entry>, e: Entry, status: Status, cutoffMs: real, tenant: TenantFilter)
    ensures |With(entries + [e], status, cutoffMs, tenant)| ==
      |With(entries, status, cutoffMs, tenant)| +
      if InWindow(e.record, cutoffMs, tenant) && e.record.status == status then 1 else 0
  {
    var all := entries + [e];
    if InWindow(e.record, cutoffMs, tenant) && e.record.status == status {
      assert With(all, status, cutoffMs, tenant) == With(entries, status, cutoffMs, tenant) + {|entries|};
    } else {
      assert With(all, status, cutoffMs, tenant) == With(entries, status, cutoffMs, tenant);
    }
  }

  /** The entry at k is the first that has this id. */
  ghost predicate FirstWith(entries: seq<Entry>, id: string, k: int) {
    0 <= k < |entries| && entries[k].record.id == id && forall j :: 0 <= j < k ==> entries[j].record.id != id
  }

  class MemoryBridgeDeliveryRepo {
    var deliveries: seq<Entry>

    constructor ()
      ensures deliveries == []
    {
      deliveries := [];
    }

    method InsertDelivery(row: Record) returns (r: Result<(), LedgerError>)
      modifies this
      ensures r.Err? <==> exists k ::
        0 <= k < |old(deliveries)| && old(deliveries)[k].key == row.eventId + "::" + row.triggerId
      ensures r.Err? ==> r.error == UniqueConstraint(row.eventId, row.triggerId) && deliveries == old(deliveries)
      ensures r.Ok? ==> deliveries == old(deliveries) + [Entry(row.eventId + "::" + row.triggerId, row)]
      ensures deliveries == MapStep(old(deliveries), Insert(row))
    {
      var k := Key(row.eventId, row.triggerId);
      if At(deliveries, k) < |deliveries| {
        assert deliveries[At(deliveries, k)].key == k;
        return Err(UniqueConstraint(row.eventId, row.triggerId));
      }
      deliveries := deliveries + [Entry(k, row)];
      r := Ok(());
    }

    /** A lookup by pair, exact as long as event ids are readable from their keys. */
    method FindDelivery(eventId: string, triggerId: string) returns (r: Option<Record>)
      ensures r.Some? <==> exists k :: 0 <= k < |deliveries| && deliveries[k].key == eventId + "::" + triggerId
      ensures r.Some? ==> exists k ::
        0 <= k < |deliveries| && deliveries[k] == Entry(eventId + "::" + triggerId, r.value)
    {
      var i := At(deliveries, Key(eventId, triggerId));
      r := if i < |deliveries| then Some(deliveries[i].record) else None;
      assert i < |deliveries| ==> deliveries[i] == Entry(Key(eventId, triggerId), deliveries[i].record);
    }

    method FindDeliveryById(id: string) returns (r: Option<Record>)
      ensures r.None? <==> forall k :: 0 <= k < |deliveries| ==> deliveries[k].record.id != id
      ensures r.Some? ==> r.value.id == id && exists k :: 0 <= k < |deliveries| && deliveries[k].record == r.value
    {
      for i := 0 to |deliveries|
        invariant forall k :: 0 <= k < i ==> deliveries[k].record.id != id
      {
        if deliveries[i].record.id == id { return Some(deliveries[i].record); }
      }
      r := None;
    }

    /** The record with this id, or a throw: transitions are only for known rows. */
    method FindById(id: string) returns (i: Result<nat, LedgerError>)
      ensures i.Ok? ==> FirstWith(deliveries, id, i.value)
      ensures i.Err? ==> forall k :: 0 <= k < |deliveries| ==> deliveries[k].record.id != id
      ensures i == if i.Ok? then Ok(ById(deliveries, id)) else Err(UnknownDelivery(id))
    {
      for k := 0 to |deliveries|
        invariant forall j :: 0 <= j < k ==> deliveries[j].record.id != id
      {
        if deliveries[k].record.id == id { return Ok(k); }
      }
      i := Err(UnknownDelivery(id));
    }

    method MarkDelivered(id: string, userRunId: string, now: int) returns (r: Result<(), LedgerError>)
      modifies this
      ensures r.Err? <==> forall k :: 0 <= k < |old(deliveries)| ==> old(deliveries)[k].record.id != id
      ensures r.Err? ==> deliveries == old(deliveries)
      ensures r.Ok? ==> exists k ::
        && FirstWith(old(deliveries), id, k)
        && var e := old(deliveries)[k];
           var record := e.record.(status := Delivered, userRunId := Some(userRunId), deliveredAt := Some(now));
           deliveries == old(deliveries)[k := Entry(e.key, record)]
      ensures deliveries == MapStep(old(deliveries), MarkAs(id, ToDelivered(userRunId, now)))
    {
      var i := FindById(id);
      if i.Err? { return Err(i.error); }
      var record := deliveries[i.value].record;
      record := record.(status := Delivered);
      record := record.(userRunId := Some(userRunId));
      record := record.(deliveredAt := Some(now));
      deliveries := deliveries[i.value := deliveries[i.value].(record := record)];
      r := Ok(());
    }

    method MarkSkipped(id: string, reason: string) returns (r: Result<(), LedgerError>)
      modifies this
      ensures r.Err? <==> forall k :: 0 <= k < |old(deliveries)| ==> old(deliveries)[k].record.id != id
      ensures r.Err? ==> deliveries == old(deliveries)
      ensures r.Ok? ==> exists k ::
        && FirstWith(old(deliveries), id, k)
        && var e := old(deliveries)[k];
           deliveries == old(deliveries)[k := Entry(e.key, e.record.(status := Skipped, skipReason := Some(reason)))]
      ensures deliveries == MapStep(old(deliveries), MarkAs(id, ToSkipped(reason)))
    {
      var i := FindById(id);
      if i.Err? { return Err(i.error); }
      var record := deliveries[i.value].record;
      record := record.(status := Skipped);
      record := record.(skipReason := Some(reason));
      deliveries := deliveries[i.value := deliveries[i.value].(record := record)];
      r := Ok(());
    }

    method MarkFailed(id: string, error: string) returns (r: Result<(), LedgerError>)
      modifies this
      ensures r.Err? <==> forall k :: 0 <= k < |old(deliveries)| ==> old(deliveries)[k].record.id != id
      ensures r.Err? ==> deliveries == old(deliveries)
      ensures r.Ok? ==> exists k ::
        && FirstWith(old(deliveries), id, k)
        && var e := old(deliveries)[k];
           deliveries == old(deliveries)[k := Entry(e.key, e.record.(status := Failed, error := Some(error)))]
      ensures deliveries == MapStep(old(deliveries), MarkAs(id, ToFailed(error)))
    {
      var i := FindById(id);
      if i.Err? { return Err(i.error); }
      var record := deliveries[i.value].record;
      record := record.(status := Failed);
      record := record.(error := Some(error));
      deliveries := deliveries[i.value := deliveries[i.value].(record := record)];
      r := Ok(());
    }

    /** Counts by status within the window and tenant filter. */
    method GetStatusHistogram(windowHours: real, tenant: TenantFilter, nowMs: int)
      returns (h: Result<StatusHistogram, LedgerError>)
      ensures h.Ok? <==> windowHours > 0.0
      ensures h.Ok? ==>
        var seen := set k: nat |
          && k < |deliveries|
          && deliveries[k].record.attemptedAt as real >= nowMs as real - windowHours * 3600000.0
          && (tenant.NullTenant? ==> deliveries[k].record.tenantId.None?)
          && (tenant.OneTenant? ==> deliveries[k].record.tenantId == Some(tenant.id));
        && h.value.pending == |set k | k in seen && deliveries[k].record.status == Pending|
        && h.value.delivered == |set k | k in seen && deliveries[k].record.status == Delivered|
        && h.value.skipped == |set k | k in seen && deliveries[k].record.status == Skipped|
        && h.value.failed == |set k | k in seen && deliveries[k].record.status == Failed|
    {
      if windowHours <= 0.0 { return Err(BadWindow); }
      var cutoffMs := nowMs as real - windowHours * 3600000.0;
      var pending, delivered, skipped, failed := 0, 0, 0, 0;
      for i := 0 to |deliveries|
        invariant pending == |With(deliveries[..i], Pending, cutoffMs, tenant)|
        invariant delivered == |With(deliveries[..i], Delivered, cutoffMs, tenant)|
        invariant skipped == |With(deliveries[..i], Skipped, cutoffMs, tenant)|
        invariant failed == |With(deliveries[..i], Failed, cutoffMs, tenant)|
      {
        var record := deliveries[i].record;
        assert deliveries[..i + 1] == deliveries[..i] + [deliveries[i]];
        OneMoreEntry(deliveries[..i], deliveries[i], Pending, cutoffMs, tenant);
        OneMoreEntry(deliveries[..i], deliveries[i], Delivered, cutoffMs, tenant);
        OneMoreEntry(deliveries[..i], deliveries[i], Skipped, cutoffMs, tenant);
        OneMoreEntry(deliveries[..i], deliveries[i], Failed, cutoffMs, tenant);
        if record.attemptedAt as real < cutoffMs { continue; }
        if tenant.NullTenant? && record.tenantId.Some? { continue; }
        if tenant.OneTenant? && record.tenantId != Some(tenant.id) { continue; }
        match record.status {
          case Pending => pending := pending + 1;
          case Delivered => delivered := delivered + 1;
          case Skipped => skipped := skipped + 1;
          case Failed => failed := failed + 1;
        }
      }
      assert deliveries[..|deliveries|] == deliveries;
      WithMeans(deliveries, Pending, cutoffMs, tenant);
      WithMeans(deliveries, Delivered, cutoffMs, tenant);
      WithMeans(deliveries, Skipped, cutoffMs, tenant);
      WithMeans(deliveries, Failed, cutoffMs, tenant);
      h := Ok(StatusHistogram(pending, delivered, skipped, failed));
    }

    method Clear()
      modifies this
      ensures deliveries == []
    {
      deliveries := [];
    }
  }

  class DrizzleBridgeDeliveryRepo {
    var rows: seq<Record>

    constructor ()
      ensures rows == []
    {
      rows := [];
    }

    /** A conflict on the pair is a silent no-op. */
    method InsertDelivery(row: Record) returns (r: Result<(), LedgerError>)
      modifies this
      ensures rows == TableStep(old(rows), Insert(row))
      ensures (exists k :: 0 <= k < |old(rows)| && old(rows)[k].eventId == row.eventId
                           && old(rows)[k].triggerId == row.triggerId) ==> r.Ok? && rows == old(rows)
      ensures r.Err? ==> r == Err(PrimaryKey(row.id)) && rows == old(rows)
                         && exists k :: 0 <= k < |old(rows)| && old(rows)[k].id == row.id
      ensures (forall k :: 0 <= k < |old(rows)| ==>
                 old(rows)[k].id != row.id
                 && !(old(rows)[k].eventId == row.eventId && old(rows)[k].triggerId == row.triggerId)) ==>
        r.Ok? && rows == old(rows) + [row]
    {
      if Conflicts(rows, row) { return Ok(()); }
      if IdTaken(rows, row.id) { return Err(PrimaryKey(row.id)); }
      rows := rows + [row];
      r := Ok(());
    }

    method MarkDelivered(id: string, userRunId: string, now: int)
      modifies this
      ensures rows == TableStep(old(rows), MarkAs(id, ToDelivered(userRunId, now)))
      ensures |rows| == |old(rows)| && forall k :: 0 <= k < |rows| ==>
        rows[k] == if old(rows)[k].id != id then old(rows)[k]
                   else old(rows)[k].(status := Delivered, userRunId := Some(userRunId), deliveredAt := Some(now))
    {
      Update(id, ToDelivered(userRunId, now));
    }

    method MarkSkipped(id: string, reason: string)
      modifies this
      ensures rows == TableStep(old(rows), MarkAs(id, ToSkipped(reason)))
      ensures |rows| == |old(rows)| && forall k :: 0 <= k < |rows| ==>
        rows[k] == if old(rows)[k].id != id then old(rows)[k]
                   else old(rows)[k].(status := Skipped, skipReason := Some(reason))
    {
      Update(id, ToSkipped(reason));
    }

    method MarkFailed(id: string, error: string)
      modifies this
      ensures rows == TableStep(old(rows), MarkAs(id, ToFailed(error)))
      ensures |rows| == |old(rows)| && forall k :: 0 <= k < |rows| ==>
        rows[k] == if old(rows)[k].id != id then old(rows)[k]
                   else old(rows)[k].(status := Failed, error := Some(error))
    {
      Update(id, ToFailed(error));
    }

    /** UPDATE ... SET ... WHERE id = $1. */
    method Update(id: string, m: Mark)
      modifies this
      ensures rows == TableMark(old(rows), id, m)
    {
      ghost var before := rows;
      for i := 0 to |rows|
        invariant |rows| == |before| && (forall k :: i <= k < |rows| ==> rows[k] == before[k])
        invariant forall k :: 0 <= k < i ==> rows[k] == if before[k].id == id then Marked(before[k], m) else before[k]
      {
        if rows[i].id == id { rows := rows[i := Marked(rows[i], m)]; }
      }
    }
  }
}
