/** listEvents: filter, sort, seek, cut a page. */
module KeysetPaging {
  import opened Options
  import opened Tenants
  import opened TextOrder

  /** The fields of a published event that listing looks at; the optional ones are metadata. */
  datatype BusEvent = BusEvent(
    id: string,
    kind: string,
    occurredAt: int,
    pool: Option<string>,
    direction: Option<string>,
    rootRunId: Option<string>,
    tenantId: Option<string>,
    audit: bool,
    scheduleSlot: Option<string>)

  datatype Keyset = Keyset(occurredAt: int, id: string)

  function KeyOf(e: BusEvent): Keyset { Keyset(e.occurredAt, e.id) }

  /** Listing order: later first, then larger id first. */
  predicate Before(a: Keyset, b: Keyset) {
    a.occurredAt > b.occurredAt || (a.occurredAt == b.occurredAt && Less(b.id, a.id))
  }

  // ---------------------------------------------------------------- filter

  datatype Query = Query(
    poolId: Option<string>,
    direction: Option<string>,
    rootRunId: Option<string>,
    since: Option<int>,
    tenant: TenantFilter)

  /** An absent or empty filter string filters nothing. */
  predicate FieldMatches(filter: Option<string>, field: Option<string>) {
    filter.None? || filter.value == "" || field == filter
  }

  predicate Matches(q: Query, e: BusEvent) {
    && FieldMatches(q.poolId, e.pool)
    && FieldMatches(q.direction, e.direction)
    && FieldMatches(q.rootRunId, e.rootRunId)
    && (q.since.Some? ==> e.occurredAt >= q.since.value)
    && Allows(q.tenant, e.tenantId)
  }

  function Matched(log: seq<BusEvent>, q: Query): (r: seq<BusEvent>)
    ensures forall e :: e in r <==> e in log && Matches(q, e)
  {
    if log == [] then []
    else (if Matches(q, log[0]) then [log[0]] else []) + Matched(log[1..], q)
  }

  // ---------------------------------------------------------------- sort

  ghost predicate Listed(s: seq<BusEvent>) {
    forall j, k :: 0 <= j < k < |s| ==> Before(KeyOf(s[j]), KeyOf(s[k]))
  }

  ghost predicate UniqueIds(log: seq<BusEvent>) {
    forall j, k :: 0 <= j < k < |log| ==> log[j].id != log[k].id
  }

  function Insert(e: BusEvent, s: seq<BusEvent>): (r: seq<BusEvent>)
    ensures multiset(r) == multiset(s) + multiset{e}
  {
    if s == [] || Before(KeyOf(e), KeyOf(s[0])) then [e] + s
    else
      var r := [s[0]] + Insert(e, s[1..]);
      assert s == [s[0]] + s[1..];
      r
  }

  /** The library sort under the comparator; with unique ids the result is determined by it. */
  function Sorted(s: seq<BusEvent>): (r: seq<BusEvent>)
    ensures multiset(r) == multiset(s)
  {
    if s == [] then []
    else
      assert s == [s[0]] + s[1..];
      Insert(s[0], Sorted(s[1..]))
  }

  lemma BeforeTransitive(a: Keyset, b: Keyset, c: Keyset)
    requires Before(a, b) && Before(b, c)
    ensures Before(a, c)
  {
    if a.occurredAt == b.occurredAt == c.occurredAt { Transitive(c.id, b.id, a.id); }
  }

  lemma BeforeTotal(a: Keyset, b: Keyset)
    ensures a == b || Before(a, b) || Before(b, a)
    ensures !(Before(a, b) && Before(b, a)) && !Before(a, a)
  {
    Trichotomy(a.id, b.id);
    Trichotomy(a.id, a.id);
  }

  lemma {:induction false} InsertListed(e: BusEvent, s: seq<BusEvent>)
    requires Listed(s) && forall x :: x in s ==> x.id != e.id
    ensures Listed(Insert(e, s))
  {
    if s != [] {
      BeforeTotal(KeyOf(e), KeyOf(s[0]));
      if Before(KeyOf(e), KeyOf(s[0])) {
        forall k | 0 <= k < |s| ensures Before(KeyOf(e), KeyOf(s[k])) {
          if k > 0 { BeforeTransitive(KeyOf(e), KeyOf(s[0]), KeyOf(s[k])); }
        }
      } else {
        assert s[0] in s && s[0].id != e.id;
        InsertListed(e, s[1..]);
        var rest := Insert(e, s[1..]);
        forall k | 0 <= k < |rest| ensures Before(KeyOf(s[0]), KeyOf(rest[k])) {
          assert rest[k] in multiset(rest);
          assert rest[k] == e || rest[k] in s[1..];
        }
      }
    }
  }

  lemma {:induction false} SortedListed(s: seq<BusEvent>)
    requires UniqueIds(s)
    ensures Listed(Sorted(s))
  {
    if s != [] {
      SortedListed(s[1..]);
      forall x | x in Sorted(s[1..]) ensures x.id != s[0].id {
        assert x in multiset(Sorted(s[1..]));
        assert x in s[1..];
      }
      InsertListed(s[0], Sorted(s[1..]));
    }
  }

  lemma {:induction false} MatchedUnique(log: seq<BusEvent>, q: Query)
    requires UniqueIds(log)
    ensures UniqueIds(Matched(log, q))
  {
    if log != [] {
      MatchedUnique(log[1..], q);
      var rest := Matched(log[1..], q);
      forall k | 0 <= k < |rest| ensures rest[k].id != log[0].id {
        assert rest[k] in log[1..];
      }
    }
  }

  /** The whole listing of a query. */
  function Listing(log: seq<BusEvent>, q: Query): seq<BusEvent> {
    Sorted(Matched(log, q))
  }

  lemma ListingShape(log: seq<BusEvent>, q: Query)
    requires UniqueIds(log)
    ensures Listed(Listing(log, q))
    ensures forall e :: e in Listing(log, q) <==> e in log && Matches(q, e)
  {
    MatchedUnique(log, q);
    SortedListed(Matched(log, q));
    forall e ensures e in Listing(log, q) <==> e in Matched(log, q) {
      assert e in multiset(Listing(log, q)) <==> e in multiset(Matched(log, q));
    }
  }

  // ---------------------------------------------------------------- seek and cut

  /** The event comes after the cursor; every event does when there is none. */
  predicate Beyond(cursor: Option<Keyset>, e: BusEvent) {
    cursor.None? || Before(cursor.value, KeyOf(e))
  }

  function Seek(s: seq<BusEvent>, cursor: Option<Keyset>): (r: seq<BusEvent>)
    ensures forall e :: e in r <==> e in s && Beyond(cursor, e)
  {
    if cursor.None? then s
    else if s == [] then []
    else (if Before(cursor.value, KeyOf(s[0])) then [s[0]] else []) + Seek(s[1..], cursor)
  }

  lemma {:induction false} SeekListed(s: seq<BusEvent>, cursor: Option<Keyset>)
    requires Listed(s)
    ensures Listed(Seek(s, cursor))
  {
    if cursor.Some? && s != [] {
      SeekListed(s[1..], cursor);
      var rest := Seek(s[1..], cursor);
      forall k | 0 <= k < |rest| ensures Before(KeyOf(s[0]), KeyOf(rest[k])) {
        assert rest[k] in s[1..];
      }
    }
  }

  const DEFAULT_EVENT_LIST_LIMIT := 50
  const MAX_EVENT_LIST_LIMIT := 200

  /** None stands for a missing or non-finite limit: the default size. Any other limit is cut down to
      a whole number and moved into range by no more than needed. */
  function ClampEventLimit(limit: Option<real>): (r: nat)
    ensures 1 <= r <= 200
    ensures limit.None? ==> r == 50
    ensures limit.Some? && 1.0 <= limit.value < 201.0 ==> r as real <= limit.value < (r + 1) as real
    ensures limit.Some? && limit.value < 1.0 ==> r == 1
    ensures limit.Some? && limit.value >= 201.0 ==> r == 200
  {
    if limit.None? then DEFAULT_EVENT_LIST_LIMIT
    else
      var floored := limit.value.Floor;
      if floored < 1 then 1 else if floored > MAX_EVENT_LIST_LIMIT then MAX_EVENT_LIST_LIMIT else floored
  }

  datatype Page = Page(items: seq<BusEvent>, nextCursor: Option<Keyset>)

  /** A cursor that does not decode counts as no cursor, so it is None here. */
  function ListEvents(log: seq<BusEvent>, q: Query, cursor: Option<Keyset>, limit: Option<real>): Page {
    Cut(Seek(Listing(log, q), cursor), ClampEventLimit(limit))
  }

  /** The first n events, and a cursor at the last of them if there are more. */
  function Cut(seeked: seq<BusEvent>, n: nat): Page
    requires n >= 1
  {
    if |seeked| > n then Page(seeked[..n], Some(KeyOf(seeked[n - 1]))) else Page(seeked, None)
  }

  // ---------------------------------------------------------------- following the cursor

  /** One request of a reader, and the events published before its next one. */
  datatype Call = Call(limit: Option<real>, appended: seq<BusEvent>)

  /** All events a reader gets that follows nextCursor through the calls. */
  function Follow(log: seq<BusEvent>, q: Query, cursor: Option<Keyset>, calls: seq<Call>): seq<BusEvent>
    decreases |calls|
  {
    if calls == [] then []
    else
      var page := ListEvents(log, q, cursor, calls[0].limit);
      if page.nextCursor.None? then page.items
      else page.items + Follow(log + calls[0].appended, q, page.nextCursor, calls[1..])
  }

  /** The reader got to a page without a next cursor. */
  predicate Finished(log: seq<BusEvent>, q: Query, cursor: Option<Keyset>, calls: seq<Call>)
    decreases |calls|
  {
    calls != [] &&
    (var page := ListEvents(log, q, cursor, calls[0].limit);
     page.nextCursor.None? || Finished(log + calls[0].appended, q, page.nextCursor, calls[1..]))
  }

  function Grown(log: seq<BusEvent>, calls: seq<Call>): seq<BusEvent>
    decreases |calls|
  {
    if calls == [] then log else Grown(log + calls[0].appended, calls[1..])
  }

  lemma {:induction false} GrownPrefix(log: seq<BusEvent>, calls: seq<Call>)
    ensures |log| <= |Grown(log, calls)| && Grown(log, calls)[..|log|] == log
    decreases |calls|
  {
    if calls != [] {
      GrownPrefix(log + calls[0].appended, calls[1..]);
      var g := Grown(log, calls);
      assert g[..|log|] == g[..|log + calls[0].appended|][..|log|];
    }
  }

  lemma PrefixUnique(log: seq<BusEvent>, calls: seq<Call>)
    requires UniqueIds(Grown(log, calls))
    ensures UniqueIds(log)
  {
    GrownPrefix(log, calls);
    var g := Grown(log, calls);
    assert forall k :: 0 <= k < |log| ==> log[k] == g[k];
  }

  lemma SeekedShape(log: seq<BusEvent>, q: Query, cursor: Option<Keyset>)
    requires UniqueIds(log)
    ensures Listed(Seek(Listing(log, q), cursor))
    ensures forall e :: e in Seek(Listing(log, q), cursor) <==> e in log && Matches(q, e) && Beyond(cursor, e)
  {
    ListingShape(log, q);
    SeekListed(Listing(log, q), cursor);
  }

  /** A page of a sorted list: sorted, and what it leaves out lies past its last item. */
  ghost predicate PageOf(page: Page, s: seq<BusEvent>) {
    && Listed(page.items)
    && (forall e :: e in page.items ==> e in s)
    && (page.nextCursor.Some? ==> page.items != [] && page.nextCursor.value == KeyOf(page.items[|page.items| - 1]))
    && (forall e :: e in s && e !in page.items ==>
          page.nextCursor.Some? && Before(page.nextCursor.value, KeyOf(e)))
  }

  lemma CutShape(s: seq<BusEvent>, n: nat)
    requires Listed(s) && n >= 1
    ensures PageOf(Cut(s, n), s)
  {
    if |s| > n {
      forall e | e in s && e !in s[..n] ensures Before(KeyOf(s[n - 1]), KeyOf(e)) {
        var k :| 0 <= k < |s| && s[k] == e;
        assert k >= n by { assert forall m :: 0 <= m < n ==> s[..n][m] == s[m]; }
      }
    }
  }

  /** The items of a page in listing order, all past the cursor, and everything past the cursor that
      it leaves out past the next cursor. */
  ghost predicate PageFits(page: Page, log: seq<BusEvent>, q: Query, cursor: Option<Keyset>) {
    && Listed(page.items)
    && (forall e :: e in page.items ==> e in log && Matches(q, e) && Beyond(cursor, e))
    && (page.nextCursor.Some? ==> page.items != [] && page.nextCursor.value == KeyOf(page.items[|page.items| - 1]))
    && (forall e :: e in log && Matches(q, e) && Beyond(cursor, e) && e !in page.items ==>
          page.nextCursor.Some? && Before(page.nextCursor.value, KeyOf(e)))
  }

  lemma PageFitsFrom(page: Page, s: seq<BusEvent>, log: seq<BusEvent>, q: Query, cursor: Option<Keyset>)
    requires PageOf(page, s)
    requires forall e :: e in s <==> e in log && Matches(q, e) && Beyond(cursor, e)
    ensures PageFits(page, log, q, cursor)
  {
  }

  lemma PageShape(log: seq<BusEvent>, q: Query, cursor: Option<Keyset>, limit: Option<real>)
    requires UniqueIds(log)
    ensures PageFits(ListEvents(log, q, cursor, limit), log, q, cursor)
  {
    var s := Seek(Listing(log, q), cursor);
    SeekedShape(log, q, cursor);
    CutShape(s, ClampEventLimit(limit));
    PageFitsFrom(Cut(s, ClampEventLimit(limit)), s, log, q, cursor);
  }

  ghost predicate Past(s: seq<BusEvent>, cursor: Option<Keyset>) {
    cursor.Some? ==> forall e :: e in s ==> Before(cursor.value, KeyOf(e))
  }

  lemma JoinPages(items: seq<BusEvent>, rest: seq<BusEvent>, cursor: Option<Keyset>)
    requires Listed(items) && Listed(rest) && items != [] && Past(items, cursor)
    requires Past(rest, Some(KeyOf(items[|items| - 1])))
    ensures Listed(items + rest) && Past(items + rest, cursor)
  {
    var last := KeyOf(items[|items| - 1]);
    forall j, k | 0 <= j < |items| && 0 <= k < |rest| ensures Before(KeyOf(items[j]), KeyOf(rest[k])) {
      assert rest[k] in rest;
      if j < |items| - 1 { BeforeTransitive(KeyOf(items[j]), last, KeyOf(rest[k])); }
    }
    forall e | cursor.Some? && e in rest ensures Before(cursor.value, KeyOf(e)) {
      assert items[|items| - 1] in items;
      BeforeTransitive(cursor.value, last, KeyOf(e));
    }
  }

  /** The events got come in strict listing order past the cursor, all match, and if the reader
      finished they include every matching event past the cursor that was in the log at first. */
  ghost predicate Covers(log: seq<BusEvent>, grown: seq<BusEvent>, q: Query, cursor: Option<Keyset>,
      got: seq<BusEvent>, finished: bool)
  {
    && Listed(got) && Past(got, cursor)
    && (forall e :: e in got ==> e in grown && Matches(q, e))
    && (finished ==> forall e :: e in log && Matches(q, e) && Beyond(cursor, e) ==> e in got)
  }

  lemma InGrown(log: seq<BusEvent>, calls: seq<Call>)
    ensures forall e :: e in log ==> e in Grown(log, calls)
  {
    GrownPrefix(log, calls);
    forall e | e in log ensures e in Grown(log, calls) { assert e in Grown(log, calls)[..|log|]; }
  }

  lemma CoverStep(log: seq<BusEvent>, later: seq<BusEvent>, grown: seq<BusEvent>, q: Query,
      cursor: Option<Keyset>, page: Page, rest: seq<BusEvent>, finished: bool)
    requires log <= later && (forall e :: e in log ==> e in grown)
    requires page.nextCursor.Some? && PageFits(page, log, q, cursor)
    requires Covers(later, grown, q, page.nextCursor, rest, finished)
    ensures Covers(log, grown, q, cursor, page.items + rest, finished)
  {
    JoinPages(page.items, rest, cursor);
    forall e | e in log ensures e in later { var k :| 0 <= k < |log| && log[k] == e; assert later[k] == e; }
  }

  /** Whatever the page limits and whatever is appended between the calls: the reader's events come
      in strict listing order, so none twice; all of them match; and a reader that finishes got every
      matching event that was there at the start. */
  lemma {:induction false} PagesCoverOnce(log: seq<BusEvent>, q: Query, cursor: Option<Keyset>, calls: seq<Call>)
    requires UniqueIds(Grown(log, calls))
    ensures Covers(log, Grown(log, calls), q, cursor, Follow(log, q, cursor, calls), Finished(log, q, cursor, calls))
    decreases |calls|
  {
    if calls != [] {
      PrefixUnique(log, calls);
      InGrown(log, calls);
      var page := ListEvents(log, q, cursor, calls[0].limit);
      PageShape(log, q, cursor, calls[0].limit);
      if page.nextCursor.Some? {
        var later := log + calls[0].appended;
        PagesCoverOnce(later, q, page.nextCursor, calls[1..]);
        CoverStep(log, later, Grown(log, calls), q, cursor, page, Follow(later, q, page.nextCursor, calls[1..]),
                  Finished(later, q, page.nextCursor, calls[1..]));
      }
    }
  }

  lemma NoneTwice(log: seq<BusEvent>, q: Query, calls: seq<Call>, j: int, k: int)
    requires UniqueIds(Grown(log, calls))
    requires 0 <= j < k < |Follow(log, q, None, calls)|
    ensures Follow(log, q, None, calls)[j].id != Follow(log, q, None, calls)[k].id
  {
    PagesCoverOnce(log, q, None, calls);
    var got := Follow(log, q, None, calls);
    BeforeTotal(KeyOf(got[j]), KeyOf(got[k]));
    if got[j].id == got[k].id {
      SameIdSameEvent(Grown(log, calls), got[j], got[k]);
    }
  }

  lemma SameIdSameEvent(log: seq<BusEvent>, a: BusEvent, b: BusEvent)
    requires UniqueIds(log) && a in log && b in log && a.id == b.id
    ensures a == b
  {
  }

  ghost predicate NoAppends(calls: seq<Call>) {
    forall k :: 0 <= k < |calls| ==> calls[k].appended == []
  }

  lemma {:induction false} ListedUnique(a: seq<BusEvent>, b: seq<BusEvent>)
    requires Listed(a) && Listed(b) && forall e :: e in a <==> e in b
    ensures a == b
  {
    assert |b| > 0 ==> b[0] in b;
    if a == [] {
      assert b == [];
    } else {
      assert a[0] in a;
      if a[0] != b[0] {
        assert Before(KeyOf(b[0]), KeyOf(a[0]));
        assert Before(KeyOf(a[0]), KeyOf(b[0]));
        BeforeTotal(KeyOf(a[0]), KeyOf(b[0]));
      }
      TailMembers(a);
      TailMembers(b);
      ListedUnique(a[1..], b[1..]);
      assert a == [a[0]] + a[1..] && b == [b[0]] + b[1..];
    }
  }

  lemma TailMembers(s: seq<BusEvent>)
    requires Listed(s) && s != []
    ensures forall e :: e in s[1..] <==> e in s && e != s[0]
  {
    BeforeTotal(KeyOf(s[0]), KeyOf(s[0]));
    forall e | e in s[1..] ensures e != s[0] {
      var k :| 0 <= k < |s[1..]| && s[1..][k] == e;
      assert Before(KeyOf(s[0]), KeyOf(s[k + 1]));
    }
  }

  lemma {:induction false} UnchangedLog(log: seq<BusEvent>, calls: seq<Call>)
    requires NoAppends(calls)
    ensures Grown(log, calls) == log
    decreases |calls|
  {
    if calls != [] {
      assert calls[0].appended == [];
      assert log + calls[0].appended == log;
      UnchangedLog(log, calls[1..]);
    }
  }

  /** Without appends the pages of a reader that finishes concatenate to the listing. */
  lemma PagesConcatenateToListing(log: seq<BusEvent>, q: Query, calls: seq<Call>)
    requires UniqueIds(log) && NoAppends(calls) && Finished(log, q, None, calls)
    ensures Follow(log, q, None, calls) == Listing(log, q)
  {
    UnchangedLog(log, calls);
    PagesCoverOnce(log, q, None, calls);
    ListingShape(log, q);
    ListedUnique(Follow(log, q, None, calls), Listing(log, q));
  }

  lemma {:induction false} SeekPast(s: seq<BusEvent>, i: int)
    requires Listed(s) && 0 <= i < |s|
    ensures Seek(s, Some(KeyOf(s[i]))) == s[i + 1..]
  {
    if i == 0 {
      BeforeTotal(KeyOf(s[0]), KeyOf(s[0]));
      SeekAll(s[1..], KeyOf(s[0]));
    } else {
      BeforeTotal(KeyOf(s[0]), KeyOf(s[i]));
      SeekPast(s[1..], i - 1);
      assert s[1..][i - 1] == s[i] && s[1..][i..] == s[i + 1..];
    }
  }

  lemma {:induction false} SeekAll(s: seq<BusEvent>, key: Keyset)
    requires forall k :: 0 <= k < |s| ==> Before(key, KeyOf(s[k]))
    ensures Seek(s, Some(key)) == s
  {
    if s != [] { SeekAll(s[1..], key); }
  }

  /** Where a reader stands in the listing: at the start, or just past some event of it. */
  ghost predicate StandsAt(s: seq<BusEvent>, cursor: Option<Keyset>, i: int) {
    (cursor.None? && i == 0) || (cursor.Some? && 0 < i <= |s| && cursor.value == KeyOf(s[i - 1]))
  }

  lemma PageFrom(log: seq<BusEvent>, q: Query, cursor: Option<Keyset>, limit: Option<real>, i: int)
    requires Listed(Listing(log, q)) && StandsAt(Listing(log, q), cursor, i)
    ensures var page := ListEvents(log, q, cursor, limit); var n := ClampEventLimit(limit);
      page.nextCursor.Some? ==> i + n < |Listing(log, q)| && StandsAt(Listing(log, q), page.nextCursor, i + n)
  {
    var s := Listing(log, q);
    if cursor.Some? { SeekPast(s, i - 1); }
    assert Seek(s, cursor) == s[i..];
    CutFrom(s, i, ClampEventLimit(limit));
  }

  lemma CutFrom(s: seq<BusEvent>, i: nat, n: nat)
    requires i <= |s| && n >= 1
    ensures var page := Cut(s[i..], n); page.nextCursor.Some? ==> i + n < |s| && StandsAt(s, page.nextCursor, i + n)
  {
  }

  /** Without appends every page but the last makes progress, so a reader finishes within as many
      calls as there are events left, plus one. */
  lemma {:induction false} QuietReaderFinishes(log: seq<BusEvent>, q: Query, cursor: Option<Keyset>,
      calls: seq<Call>, i: int)
    requires Listed(Listing(log, q)) && NoAppends(calls) && StandsAt(Listing(log, q), cursor, i)
    requires |calls| > |Listing(log, q)| - i && calls != []
    ensures Finished(log, q, cursor, calls)
    decreases |calls|
  {
    PageFrom(log, q, cursor, calls[0].limit, i);
    var page := ListEvents(log, q, cursor, calls[0].limit);
    if page.nextCursor.Some? {
      assert calls[0].appended == [];
      assert log + calls[0].appended == log;
      QuietReaderFinishes(log, q, page.nextCursor, calls[1..], i + ClampEventLimit(calls[0].limit));
    }
  }

  // ---------------------------------------------------------------- spelled out

  /** a comes first: it occurred later, or at the same instant and has the larger id. */
  ghost predicate Newer(a: BusEvent, b: BusEvent) {
    a.occurredAt > b.occurredAt || (a.occurredAt == b.occurredAt && Less(b.id, a.id))
  }

  ghost predicate NewestFirst(items: seq<BusEvent>) {
    forall j, k :: 0 <= j < k < |items| ==> Newer(items[j], items[k])
  }

  /** What each filter of the query asks; an empty string asks nothing. */
  ghost predicate Asked(q: Query, e: BusEvent) {
    && (q.poolId.None? || q.poolId == Some("") || e.pool == q.poolId)
    && (q.direction.None? || q.direction == Some("") || e.direction == q.direction)
    && (q.rootRunId.None? || q.rootRunId == Some("") || e.rootRunId == q.rootRunId)
    && (q.since.None? || q.since.value <= e.occurredAt)
    && (q.tenant == AnyTenant || (q.tenant == NullTenant && e.tenantId == None)
        || (q.tenant.OneTenant? && e.tenantId == Some(q.tenant.id)))
  }

  /** Past the position a cursor names. */
  ghost predicate After(cursor: Option<Keyset>, e: BusEvent) {
    cursor.None? || cursor.value.occurredAt > e.occurredAt
    || (cursor.value.occurredAt == e.occurredAt && Less(e.id, cursor.value.id))
  }

  lemma AskedMeans(q: Query, e: BusEvent)
    ensures Asked(q, e) <==> Matches(q, e)
  {
  }

  lemma CutSize(s: seq<BusEvent>, n: nat)
    requires n >= 1
    ensures |Cut(s, n).items| <= n && (Cut(s, n).nextCursor.Some? ==> |Cut(s, n).items| == n)
  {
  }

  lemma FitsMeans(page: Page, log: seq<BusEvent>, q: Query, cursor: Option<Keyset>)
    requires PageFits(page, log, q, cursor)
    ensures NewestFirst(page.items)
    ensures forall e :: e in page.items ==> e in log && Asked(q, e) && After(cursor, e)
    ensures forall e :: e in log && Asked(q, e) && After(cursor, e) && e !in page.items ==>
      && page.items != [] && Newer(page.items[|page.items| - 1], e)
      && var last := page.items[|page.items| - 1]; page.nextCursor == Some(Keyset(last.occurredAt, last.id))
  {
    assert forall j, k :: 0 <= j < k < |page.items| ==> Before(KeyOf(page.items[j]), KeyOf(page.items[k]));
    forall e ensures Asked(q, e) <==> Matches(q, e) { AskedMeans(q, e); }
  }

  /** A page: what was asked for and lies past the cursor, newest first and larger id first on a tie; and
      whatever of that it leaves out comes after its last item, which the next cursor names. */
  lemma PageSpelledOut(log: seq<BusEvent>, q: Query, cursor: Option<Keyset>, limit: Option<real>)
    requires UniqueIds(log)
    ensures var page := ListEvents(log, q, cursor, limit);
      && NewestFirst(page.items)
      && (forall e :: e in page.items ==> e in log && Asked(q, e) && After(cursor, e))
      && (forall e :: e in log && Asked(q, e) && After(cursor, e) && e !in page.items ==>
            && page.items != [] && Newer(page.items[|page.items| - 1], e)
            && var last := page.items[|page.items| - 1]; page.nextCursor == Some(Keyset(last.occurredAt, last.id)))
      && |page.items| <= ClampEventLimit(limit)
      && (page.nextCursor.Some? ==>
            |page.items| == ClampEventLimit(limit)
            && exists e :: e in log && Asked(q, e) && After(cursor, e) && e !in page.items)
  {
    PageShape(log, q, cursor, limit);
    FitsMeans(ListEvents(log, q, cursor, limit), log, q, cursor);
    CutSize(Seek(Listing(log, q), cursor), ClampEventLimit(limit));
    MoreLeft(log, q, cursor, ClampEventLimit(limit));
  }

  /** There is a next cursor only if something is left. */
  lemma MoreLeft(log: seq<BusEvent>, q: Query, cursor: Option<Keyset>, n: nat)
    requires UniqueIds(log) && n >= 1
    ensures var page := Cut(Seek(Listing(log, q), cursor), n);
      page.nextCursor.Some? ==> exists e :: e in log && Asked(q, e) && After(cursor, e) && e !in page.items
  {
    var s := Seek(Listing(log, q), cursor);
    SeekedShape(log, q, cursor);
    if Cut(s, n).nextCursor.Some? {
      CutLeaves(s, n);
      AskedMeans(q, s[n]);
    }
  }

  lemma CutLeaves(s: seq<BusEvent>, n: nat)
    requires n >= 1 && Listed(s) && Cut(s, n).nextCursor.Some?
    ensures |s| > n && s[n] in s && s[n] !in Cut(s, n).items
  {
    forall k | 0 <= k < n ensures s[k] != s[n] {
      assert Before(KeyOf(s[k]), KeyOf(s[n]));
      BeforeTotal(KeyOf(s[k]), KeyOf(s[k]));
    }
  }

  lemma CoversMeans(log: seq<BusEvent>, grown: seq<BusEvent>, q: Query, cursor: Option<Keyset>, got: seq<BusEvent>,
      finished: bool)
    requires Covers(log, grown, q, cursor, got, finished)
    ensures NewestFirst(got)
    ensures forall e :: e in got ==> e in grown && Asked(q, e) && After(cursor, e)
    ensures finished ==> forall e :: e in log && Asked(q, e) && After(cursor, e) ==> e in got
  {
    assert forall j, k :: 0 <= j < k < |got| ==> Before(KeyOf(got[j]), KeyOf(got[k]));
    forall e ensures Asked(q, e) <==> Matches(q, e) { AskedMeans(q, e); }
  }

  /** A reader that follows the cursor gets what was asked for, newest first; and if it finished, all of
      it that was there at the start and lies past its first cursor. */
  lemma PagesSpelledOut(log: seq<BusEvent>, q: Query, cursor: Option<Keyset>, calls: seq<Call>)
    requires UniqueIds(Grown(log, calls))
    ensures var got := Follow(log, q, cursor, calls);
      && NewestFirst(got)
      && (forall e :: e in got ==> e in Grown(log, calls) && Asked(q, e) && After(cursor, e))
      && (Finished(log, q, cursor, calls) ==> forall e :: e in log && Asked(q, e) && After(cursor, e) ==> e in got)
  {
    PagesCoverOnce(log, q, cursor, calls);
    CoversMeans(log, Grown(log, calls), q, cursor, Follow(log, q, cursor, calls), Finished(log, q, cursor, calls));
  }
}
