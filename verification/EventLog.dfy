/**
 * The append-only event log: idempotent recording, and paging backwards by cursor while rows are being
 * added. A row is named by its number, the database's `seq`.
 */
module EventLog {
  import Sequences

  datatype Option<+T> = None | Some(value: T)

  datatype Event = Event(eventId: string, eventType: string, deviceId: Option<string>, correlationId: string)

  type Table = map<nat, Event>

  // ----- recording -----

  const AUDITED_TYPES := {
    "device.registered", "device.online", "device.offline",
    "device.command.created", "device.command.completed", "device.state.changed"}

  const AUDITED_PREFIXES := ["device.ota.", "device.alert.", "agent.", "security."]

  predicate IsAudited(eventType: string) {
    eventType in AUDITED_TYPES || exists i | 0 <= i < |AUDITED_PREFIXES| :: AUDITED_PREFIXES[i] <= eventType
  }

  ghost predicate Holds(table: Table, eventId: string) {
    exists n :: n in table && table[n].eventId == eventId
  }

  /** The insert that ignores an event already recorded; `number` is the fresh number it drew. */
  ghost function Record(table: Table, number: nat, event: Event): Table {
    if !IsAudited(event.eventType) || Holds(table, event.eventId) then table else table[number := event]
  }

  datatype Delivery = Delivery(number: nat, event: Event)

  /** Numbers are drawn from a database sequence, so no two inserts draw the same one. */
  ghost predicate FreshNumbers(table: Table, deliveries: seq<Delivery>) {
    && (forall i | 0 <= i < |deliveries| :: deliveries[i].number !in table)
    && (forall i, j | 0 <= i < j < |deliveries| :: deliveries[i].number != deliveries[j].number)
  }

  ghost function Recorded(table: Table, deliveries: seq<Delivery>): Table
    decreases |deliveries|
  {
    if deliveries == [] then table
    else Recorded(Record(table, deliveries[0].number, deliveries[0].event), deliveries[1..])
  }

  ghost predicate UniqueIds(table: Table) {
    forall m, n | m in table && n in table && table[m].eventId == table[n].eventId :: m == n
  }

  predicate Extends(small: Table, large: Table) {
    small.Keys <= large.Keys && forall n | n in small :: large[n] == small[n]
  }

  /** However often events are delivered: rows are never changed, and each audited event has exactly one row. */
  lemma {:induction false} RecordedOnce(table: Table, deliveries: seq<Delivery>)
    requires UniqueIds(table) && FreshNumbers(table, deliveries)
    ensures var after := Recorded(table, deliveries);
      && UniqueIds(after) && Extends(table, after)
      && (forall i | 0 <= i < |deliveries| && IsAudited(deliveries[i].event.eventType) :: Holds(after, deliveries[i].event.eventId))
      && (forall n | n in after && n !in table ::
            IsAudited(after[n].eventType) && exists i | 0 <= i < |deliveries| :: deliveries[i] == Delivery(n, after[n]))
    decreases |deliveries|
  {
    if deliveries != [] {
      var d, rest := deliveries[0], deliveries[1..];
      var next := Record(table, d.number, d.event);
      RecordStep(table, deliveries);
      RecordedOnce(next, rest);
      var after := Recorded(table, deliveries);
      HoldsStays(next, after, d.event.eventId);
      forall i | 0 <= i < |deliveries| && IsAudited(deliveries[i].event.eventType)
        ensures Holds(after, deliveries[i].event.eventId)
      {
        if i > 0 { assert deliveries[i] == rest[i - 1]; }
      }
      forall n | n in after && n !in table
        ensures IsAudited(after[n].eventType) && exists i | 0 <= i < |deliveries| :: deliveries[i] == Delivery(n, after[n])
      {
        if n in next {
          assert deliveries[0] == Delivery(n, after[n]);
        } else {
          var i :| 0 <= i < |rest| && rest[i] == Delivery(n, after[n]);
          assert deliveries[i + 1] == Delivery(n, after[n]);
        }
      }
    }
  }

  lemma RecordStep(table: Table, deliveries: seq<Delivery>)
    requires UniqueIds(table) && FreshNumbers(table, deliveries) && deliveries != []
    ensures var d := deliveries[0]; var next := Record(table, d.number, d.event);
      && UniqueIds(next) && Extends(table, next) && FreshNumbers(next, deliveries[1..])
      && (IsAudited(d.event.eventType) ==> Holds(next, d.event.eventId))
  {
    var d, rest := deliveries[0], deliveries[1..];
    var next := Record(table, d.number, d.event);
    forall i | 0 <= i < |rest| ensures rest[i].number !in next {
      assert rest[i] == deliveries[i + 1];
    }
    if IsAudited(d.event.eventType) && !Holds(table, d.event.eventId) {
      assert d.number in next && next[d.number].eventId == d.event.eventId;
    }
  }

  lemma HoldsStays(small: Table, large: Table, eventId: string)
    requires Extends(small, large)
    ensures Holds(small, eventId) ==> Holds(large, eventId)
  {
    if Holds(small, eventId) {
      var n :| n in small && small[n].eventId == eventId;
      assert n in large && large[n].eventId == eventId;
    }
  }

  predicate StartsWith(text: string, prefix: string) {
    |prefix| <= |text| && text[..|prefix|] == prefix
  }

  /** Which kinds of event are recorded: six by name, four whole families, and no other. */
  lemma AuditedExactly(eventType: string)
    ensures IsAudited(eventType) <==>
      || eventType == "device.registered" || eventType == "device.online" || eventType == "device.offline"
      || eventType == "device.command.created" || eventType == "device.command.completed"
      || eventType == "device.state.changed"
      || StartsWith(eventType, "device.ota.") || StartsWith(eventType, "device.alert.")
      || StartsWith(eventType, "agent.") || StartsWith(eventType, "security.")
  {
    assert AUDITED_PREFIXES[0] == "device.ota." && AUDITED_PREFIXES[1] == "device.alert.";
    assert AUDITED_PREFIXES[2] == "agent." && AUDITED_PREFIXES[3] == "security.";
  }

  // ----- one page -----

  /** A filter that is absent or empty selects everything. */
  datatype Query = Query(deviceId: Option<string>, eventType: Option<string>, correlationId: Option<string>)

  predicate Given(filter: Option<string>) {
    filter.Some? && filter.value != ""
  }

  predicate Matches(q: Query, e: Event) {
    && (Given(q.deviceId) ==> e.deviceId == q.deviceId)
    && (Given(q.eventType) ==> Some(e.eventType) == q.eventType)
    && (Given(q.correlationId) ==> Some(e.correlationId) == q.correlationId)
  }

  function Selected(table: Table, q: Query, before: Option<nat>): set<nat> {
    set n | n in table && Matches(q, table[n]) && (before.Some? ==> n < before.value)
  }

  ghost predicate IsMax(s: set<nat>, m: nat) {
    m in s && forall n | n in s :: n <= m
  }

  lemma {:induction false} MaxExists(s: set<nat>)
    requires s != {}
    ensures exists m :: IsMax(s, m)
    decreases |s|
  {
    var k :| k in s;
    var rest := s - {k};
    assert forall n | n in s :: n == k || n in rest;
    if rest == {} {
      assert IsMax(s, k);
    } else {
      MaxExists(rest);
      var m :| IsMax(rest, m);
      assert IsMax(s, if m < k then k else m);
    }
  }

  ghost function Max(s: set<nat>): (m: nat)
    requires s != {}
    ensures IsMax(s, m)
  {
    MaxExists(s);
    var m :| IsMax(s, m);
    m
  }

  /** The numbers, the newest first. */
  ghost function Descending(s: set<nat>): seq<nat>
    decreases |s|
  {
    if s == {} then [] else [Max(s)] + Descending(s - {Max(s)})
  }

  predicate Falling(a: seq<nat>) {
    forall i, j | 0 <= i < j < |a| :: a[i] > a[j]
  }

  predicate SameItems(a: seq<nat>, s: set<nat>) {
    (forall n | n in a :: n in s) && (forall n | n in s :: n in a)
  }

  lemma PrependFalling(m: nat, a: seq<nat>)
    requires Falling(a) && forall n | n in a :: n < m
    ensures Falling([m] + a)
  {
    var b := [m] + a;
    forall i, j | 0 <= i < j < |b| ensures b[i] > b[j] {
      assert b[j] == a[j - 1] && a[j - 1] in a;
    }
  }

  lemma {:induction false} DescendingIsSorted(s: set<nat>)
    ensures Falling(Descending(s)) && SameItems(Descending(s), s)
    decreases |s|
  {
    if s != {} {
      var m := Max(s);
      DescendingIsSorted(s - {m});
      PrependFalling(m, Descending(s - {m}));
    }
  }

  lemma TailItems(a: seq<nat>, s: set<nat>)
    requires a != [] && Falling(a) && SameItems(a, s)
    ensures Falling(a[1..]) && SameItems(a[1..], s - {a[0]}) && IsMax(s, a[0])
  {
    var tail := a[1..];
    assert a == [a[0]] + tail;
    forall n | n in tail ensures n < a[0] && n in s {
      var i :| 0 <= i < |tail| && tail[i] == n;
      assert a[i + 1] == n;
    }
  }

  /** A falling list is determined by what it holds. */
  lemma {:induction false} FallingIsUnique(a: seq<nat>, s: set<nat>)
    requires Falling(a) && SameItems(a, s)
    ensures a == Descending(s)
    decreases |a|
  {
    if a == [] {
      assert s == {};
    } else {
      TailItems(a, s);
      assert a[0] == Max(s);
      FallingIsUnique(a[1..], s - {a[0]});
    }
  }

  datatype Page = Page(items: seq<nat>, next: Option<nat>)

  /** `find`: one row more than the limit is read, to know whether there is a next page. */
  ghost function Find(table: Table, q: Query, limit: nat, before: Option<nat>): Page
    requires limit >= 1
  {
    var all := Descending(Selected(table, q, before));
    if |all| > limit then Page(all[..limit], Some(all[limit - 1])) else Page(all, None)
  }

  /** A page holds the newest matching rows before the cursor; the next cursor is its last row, and what is left lies below. */
  lemma PageSplits(table: Table, q: Query, limit: nat, before: Option<nat>)
    requires limit >= 1
    ensures var page := Find(table, q, limit, before);
      && Falling(page.items) && |page.items| <= limit
      && (forall n | n in page.items :: n in Selected(table, q, before))
      && (page.next.None? ==> page.items == Descending(Selected(table, q, before)))
      && (page.next.Some? ==>
            && |page.items| == limit && page.next.value == page.items[limit - 1]
            && (before.Some? ==> page.next.value < before.value)
            && Selected(table, q, page.next) != {}
            && Descending(Selected(table, q, before)) == page.items + Descending(Selected(table, q, page.next)))
  {
    var all := Descending(Selected(table, q, before));
    DescendingIsSorted(Selected(table, q, before));
    if |all| > limit {
      CutFalling(all, limit);
      LeftIsBelow(table, q, before, all, limit);
      DescendingIsSorted(Selected(table, q, Some(all[limit - 1])));
      assert all[limit..][0] in Selected(table, q, Some(all[limit - 1]));
    }
  }

  lemma CutFalling(all: seq<nat>, k: nat)
    requires Falling(all) && k < |all|
    ensures Falling(all[..k]) && (forall n | n in all[..k] :: n in all)
    ensures all == all[..k] + all[k..]
  {
  }

  lemma LeftIsBelow(table: Table, q: Query, before: Option<nat>, all: seq<nat>, limit: nat)
    requires 1 <= limit < |all| && Falling(all) && SameItems(all, Selected(table, q, before))
    ensures all[limit..] == Descending(Selected(table, q, Some(all[limit - 1])))
    ensures all[limit - 1] in all
  {
    var left, below := all[limit..], Selected(table, q, Some(all[limit - 1]));
    forall n | n in left ensures n in below {
      var i :| 0 <= i < |left| && left[i] == n;
      assert all[limit + i] == n && n in all;
    }
    forall n | n in below ensures n in left {
      assert n in Selected(table, q, before) by { assert all[limit - 1] in all; }
      var i :| 0 <= i < |all| && all[i] == n;
      assert i >= limit;
      assert left[i - limit] == n;
    }
    FallingIsUnique(left, below);
  }

  // ----- following the cursor -----

  /** The table as each request finds it: rows may have been added since the one before. */
  ghost predicate Grows(tables: seq<Table>) {
    forall i, j | 0 <= i <= j < |tables| :: Extends(tables[i], tables[j])
  }

  /** The cursor becomes null within these requests. */
  ghost predicate Ends(tables: seq<Table>, q: Query, limit: nat, before: Option<nat>)
    requires limit >= 1
    decreases |tables|
  {
    tables != [] && var page := Find(tables[0], q, limit, before); page.next.Some? ==> Ends(tables[1..], q, limit, page.next)
  }

  /** All items, page after page. */
  ghost function Collected(tables: seq<Table>, q: Query, limit: nat, before: Option<nat>): seq<nat>
    requires limit >= 1
    decreases |tables|
  {
    if tables == [] then []
    else
      var page := Find(tables[0], q, limit, before);
      page.items + (if page.next.Some? then Collected(tables[1..], q, limit, page.next) else [])
  }

  lemma GrowsTail(tables: seq<Table>)
    requires Grows(tables) && tables != []
    ensures Grows(tables[1..]) && Extends(tables[0], tables[|tables| - 1])
  {
    var tail := tables[1..];
    forall i, j | 0 <= i <= j < |tail| ensures Extends(tail[i], tail[j]) {
      assert tail[i] == tables[i + 1] && tail[j] == tables[j + 1];
    }
  }

  /** However the log grows meanwhile: strictly falling, so no row twice, and only matching rows before the cursor. */
  lemma {:induction false} CollectedFalls(tables: seq<Table>, q: Query, limit: nat, before: Option<nat>)
    requires limit >= 1 && Grows(tables) && tables != []
    ensures var r := Collected(tables, q, limit, before);
      Falling(r) && forall n | n in r :: n in Selected(tables[|tables| - 1], q, before)
    decreases |tables|
  {
    var page, r, last := Find(tables[0], q, limit, before), Collected(tables, q, limit, before), tables[|tables| - 1];
    PageSplits(tables[0], q, limit, before);
    GrowsTail(tables);
    if page.next.Some? && |tables| > 1 {
      var rest := Collected(tables[1..], q, limit, page.next);
      CollectedFalls(tables[1..], q, limit, page.next);
      assert tables[1..][|tables| - 2] == last;
      JoinFalling(page.items, rest);
    } else {
      assert r == page.items + [];
      SelectedGrows(tables[0], last, q, before);
    }
  }

  lemma JoinFalling(a: seq<nat>, b: seq<nat>)
    requires a != [] && Falling(a) && Falling(b) && forall n | n in b :: n < a[|a| - 1]
    ensures Falling(a + b)
  {
    forall i, j | 0 <= i < j < |a + b| ensures (a + b)[i] > (a + b)[j] {
      if j >= |a| {
        assert b[j - |a|] in b && b[j - |a|] < a[|a| - 1];
        if i < |a| - 1 { assert a[i] > a[|a| - 1]; }
      }
    }
  }

  lemma SelectedGrows(small: Table, large: Table, q: Query, before: Option<nat>)
    requires Extends(small, large)
    ensures Selected(small, q, before) <= Selected(large, q, before)
  {
  }

  /** Every matching row that was present at the first request is returned. */
  lemma {:induction false} CollectedMissesNone(tables: seq<Table>, q: Query, limit: nat, before: Option<nat>)
    requires limit >= 1 && Grows(tables) && Ends(tables, q, limit, before)
    ensures forall n | n in Selected(tables[0], q, before) :: n in Collected(tables, q, limit, before)
    decreases |tables|
  {
    var page := Find(tables[0], q, limit, before);
    PageSplits(tables[0], q, limit, before);
    DescendingIsSorted(Selected(tables[0], q, before));
    if page.next.Some? {
      GrowsTail(tables);
      DescendingIsSorted(Selected(tables[0], q, page.next));
      assert Extends(tables[0], tables[1]);
      SelectedGrows(tables[0], tables[1], q, page.next);
      CollectedMissesNone(tables[1..], q, limit, page.next);
    }
  }

  // ----- what the filters select -----

  /** A filter that is absent or empty asks for nothing; any other asks for this very value. */
  predicate Asked(filter: Option<string>, value: Option<string>) {
    filter == None || filter == Some("") || filter == value
  }

  /** Row `n` of the table is what the query asks for: below the cursor, and as each of the three filters says. */
  predicate AsAsked(table: Table, q: Query, before: Option<nat>, n: nat) {
    && n in table && (before == None || n < before.value)
    && Asked(q.deviceId, table[n].deviceId)
    && Asked(q.eventType, Some(table[n].eventType))
    && Asked(q.correlationId, Some(table[n].correlationId))
  }

  lemma SelectedAsAsked(table: Table, q: Query, before: Option<nat>, n: nat)
    ensures n in Selected(table, q, before) <==> AsAsked(table, q, before, n)
  {
  }

  /**
   * A page holds rows as asked only, newest first and at most `limit`; a row as asked that is not on it
   * is older than all of it, and then there is a next page.
   */
  lemma PageAsAsked(table: Table, q: Query, limit: nat, before: Option<nat>)
    requires limit >= 1
    ensures var page := Find(table, q, limit, before);
      && |page.items| <= limit && Falling(page.items)
      && (forall n | n in page.items :: AsAsked(table, q, before, n))
      && (forall n | AsAsked(table, q, before, n) && n !in page.items ::
            page.next.Some? && forall m | m in page.items :: n < m)
  {
    var page := Find(table, q, limit, before);
    PageSplits(table, q, limit, before);
    forall n | n in page.items ensures AsAsked(table, q, before, n) {
      SelectedAsAsked(table, q, before, n);
    }
    forall n | AsAsked(table, q, before, n) && n !in page.items
      ensures page.next.Some? && forall m | m in page.items :: n < m
    {
      SelectedAsAsked(table, q, before, n);
      LeftIsOlder(table, q, limit, before, n);
    }
  }

  lemma LeftIsOlder(table: Table, q: Query, limit: nat, before: Option<nat>, n: nat)
    requires limit >= 1 && n in Selected(table, q, before) && n !in Find(table, q, limit, before).items
    ensures var page := Find(table, q, limit, before); page.next.Some? && forall m | m in page.items :: n < m
  {
    var all := Descending(Selected(table, q, before));
    DescendingIsSorted(Selected(table, q, before));
    if |all| > limit {
      forall i | 0 <= i < limit ensures all[i] != n {
        assert all[..limit][i] == all[i];
      }
      TakenAreNewer(all, limit, n);
    }
  }

  lemma TakenAreNewer(all: seq<nat>, limit: nat, n: nat)
    requires Falling(all) && n in all && forall i | 0 <= i < limit && i < |all| :: all[i] != n
    ensures |all| > limit ==> forall m | m in all[..limit] :: n < m
  {
    var j :| 0 <= j < |all| && all[j] == n;
    if |all| > limit {
      forall m | m in all[..limit] ensures n < m {
        var i :| 0 <= i < limit && all[i] == m;
      }
    }
  }

  /** All pages together: only rows as asked, strictly falling, and every row as asked of the first request. */
  lemma CollectedAsAsked(tables: seq<Table>, q: Query, limit: nat, before: Option<nat>)
    requires limit >= 1 && Grows(tables) && Ends(tables, q, limit, before)
    ensures var r := Collected(tables, q, limit, before);
      && Falling(r)
      && (forall n | n in r :: AsAsked(tables[|tables| - 1], q, before, n))
      && (forall n | AsAsked(tables[0], q, before, n) :: n in r)
  {
    var r := Collected(tables, q, limit, before);
    CollectedFalls(tables, q, limit, before);
    CollectedMissesNone(tables, q, limit, before);
    forall n | n in r ensures AsAsked(tables[|tables| - 1], q, before, n) {
      SelectedAsAsked(tables[|tables| - 1], q, before, n);
    }
    forall n | AsAsked(tables[0], q, before, n) ensures n in r {
      SelectedAsAsked(tables[0], q, before, n);
    }
  }

  /** No matching row below a page's cursor turned up between that page and the next. */
  ghost predicate NoneLate(tables: seq<Table>, q: Query, limit: nat, before: Option<nat>)
    requires limit >= 1 && Ends(tables, q, limit, before)
    decreases |tables|
  {
    var page := Find(tables[0], q, limit, before);
    page.next.Some? ==>
      && |tables| > 1 && Selected(tables[1], q, page.next) == Selected(tables[0], q, page.next)
      && NoneLate(tables[1..], q, limit, page.next)
  }

  /**
   * The pages together are exactly the matching rows of the first request, newest first, if and only if
   * no matching row turned up late below a cursor (a number drawn early but committed late).
   */
  lemma {:induction false} CollectedExactly(tables: seq<Table>, q: Query, limit: nat, before: Option<nat>)
    requires limit >= 1 && Grows(tables) && Ends(tables, q, limit, before)
    ensures Collected(tables, q, limit, before) == Descending(Selected(tables[0], q, before)) <==> NoneLate(tables, q, limit, before)
    decreases |tables|
  {
    var page := Find(tables[0], q, limit, before);
    PageSplits(tables[0], q, limit, before);
    if page.next.Some? {
      GrowsTail(tables);
      var rest := Collected(tables[1..], q, limit, page.next);
      var below, later := Selected(tables[0], q, page.next), Selected(tables[1], q, page.next);
      CollectedExactly(tables[1..], q, limit, page.next);
      CollectedMissesNone(tables[1..], q, limit, page.next);
      SelectedGrows(tables[0], tables[1], q, page.next);
      RestExactly(page.items, rest, below, later);
    }
  }

  lemma RestExactly(items: seq<nat>, rest: seq<nat>, below: set<nat>, later: set<nat>)
    requires below <= later && forall n | n in later :: n in rest
    ensures items + rest == items + Descending(below) <==> later == below && rest == Descending(later)
  {
    var d := Descending(below);
    Sequences.SameHead(items, rest, d);
    if later == below {
      assert Descending(later) == d;
    } else {
      var n :| n in later && n !in below;
      DescendingIsSorted(below);
      assert n in rest && n !in d;
    }
  }

  const EVERYTHING := Query(None, None, None)

  function LateTables(e: Event): seq<Table> {
    var before, after := map[2 := e, 3 := e], map[1 := e, 2 := e, 3 := e];
    [before, after, after, after]
  }

  /** The failing run: row 1, drawn early and committed after the first page, is returned by a later page. */
  lemma LateRowIsReturned(e: Event)
    ensures Grows(LateTables(e)) && Ends(LateTables(e), EVERYTHING, 1, None)
    ensures Collected(LateTables(e), EVERYTHING, 1, None) != Descending(Selected(LateTables(e)[0], EVERYTHING, None))
    ensures 1 in Collected(LateTables(e), EVERYTHING, 1, None)
  {
    var tables := LateTables(e);
    var page := Find(tables[0], EVERYTHING, 1, None);
    assert Selected(tables[0], EVERYTHING, None) == {2, 3};
    PageSplits(tables[0], EVERYTHING, 1, None);
    PairDescends();
    assert page == Page([3], Some(3));
    PagingEnds(tables, EVERYTHING, 1, None);
    assert 1 in Selected(tables[1], EVERYTHING, Some(3)) && 1 !in Selected(tables[0], EVERYTHING, Some(3));
    CollectedExactly(tables, EVERYTHING, 1, None);
    GrowsTail(tables);
    CollectedMissesNone(tables[1..], EVERYTHING, 1, Some(3));
  }

  lemma PairDescends()
    ensures Descending({2, 3}) == [3, 2]
  {
    FallingIsUnique([3, 2], {2, 3});
  }

  /** Every row added after the first request has a higher number than every row present then. */
  ghost predicate AppendsAbove(tables: seq<Table>) {
    forall i, m, n | 0 < i < |tables| && m in tables[0] && n in tables[i] && n !in tables[0] :: m < n
  }

  ghost predicate SameBelow(tables: seq<Table>, c: nat) {
    forall i, n | 0 <= i < |tables| && n in tables[i] && n < c :: n in tables[0]
  }

  lemma {:induction false} SameBelowMeansNoneLate(tables: seq<Table>, q: Query, limit: nat, before: Option<nat>)
    requires limit >= 1 && Grows(tables) && Ends(tables, q, limit, before)
    requires var page := Find(tables[0], q, limit, before); page.next.Some? ==> SameBelow(tables, page.next.value)
    ensures NoneLate(tables, q, limit, before)
    decreases |tables|
  {
    var page := Find(tables[0], q, limit, before);
    if page.next.Some? {
      PageSplits(tables[0], q, limit, before);
      GrowsTail(tables);
      assert Extends(tables[0], tables[1]);
      var tail, page' := tables[1..], Find(tables[1], q, limit, page.next);
      PageSplits(tables[1], q, limit, page.next);
      forall n | n in Selected(tables[1], q, page.next) ensures n in Selected(tables[0], q, page.next) {
        assert n in tables[1] && n < page.next.value && n in tables[0];
      }
      assert Selected(tables[1], q, page.next) == Selected(tables[0], q, page.next);
      if page'.next.Some? {
        forall i, n | 0 <= i < |tail| && n in tail[i] && n < page'.next.value ensures n in tail[0] {
          assert tail[i] == tables[i + 1] && n in tables[0];
        }
      }
      SameBelowMeansNoneLate(tail, q, limit, page.next);
    }
  }

  /** With rows only ever appended at the top, following the cursor returns exactly the matching rows of the first request. */
  lemma PagingIsExact(tables: seq<Table>, q: Query, limit: nat)
    requires limit >= 1 && Grows(tables) && Ends(tables, q, limit, None) && AppendsAbove(tables)
    ensures Collected(tables, q, limit, None) == Descending(Selected(tables[0], q, None))
  {
    var page := Find(tables[0], q, limit, None);
    PageSplits(tables[0], q, limit, None);
    if page.next.Some? {
      var c := page.next.value;
      assert c in page.items && c in tables[0];
      assert forall i, n | 0 < i < |tables| && n in tables[i] && n !in tables[0] :: c < n;
    }
    SameBelowMeansNoneLate(tables, q, limit, None);
    CollectedExactly(tables, q, limit, None);
  }

  /** The cursor strictly falls, so the client needs at most as many further requests as the cursor's value. */
  lemma {:induction false} PagingEnds(tables: seq<Table>, q: Query, limit: nat, before: Option<nat>)
    requires limit >= 1 && tables != []
    requires var page := Find(tables[0], q, limit, before); page.next.Some? ==> page.next.value < |tables|
    ensures Ends(tables, q, limit, before)
    decreases |tables|
  {
    var page := Find(tables[0], q, limit, before);
    PageSplits(tables[0], q, limit, before);
    if page.next.Some? {
      assert page.next.value > 0 by {
        var n :| n in Selected(tables[0], q, page.next);
      }
      PageSplits(tables[1], q, limit, page.next);
      PagingEnds(tables[1..], q, limit, page.next);
    }
  }
}
