/**
 * The listing projector (`transformData`): one pass over the fetched repair orders that
 * builds the board's three buckets, the calendar's date-keyed buckets and the flat list.
 */
module Listing {
  import opened Js
  import opened Status

  /** The fields of a nested `repair_order_details` row the projector reads. */
  datatype DetailRow = DetailRow(description: Option<string>, colour: Option<string>)

  /** The fields of a nested `customer_vehicles` row the projector reads. */
  datatype VehicleRow = VehicleRow(year: Option<string>, make: Option<string>, model: Option<string>)

  /** A nested `customers` row with its vehicles. */
  datatype CustomerRow = CustomerRow(vehicles: Option<seq<VehicleRow>>)

  /** A fetched `repair_orders` row with its nested relations. */
  datatype OrderRow = OrderRow(
    id: string,
    status: Option<string>,
    title: Option<string>,
    createdAt: Option<string>,
    details: Option<seq<DetailRow>>,
    customer: Option<CustomerRow>)

  /** The query result handed to the projector: an array of rows, or anything else. */
  datatype Input = NotAnArray | Rows(rows: seq<OrderRow>)

  /** A display item (`RepairOrderItem`); `status` is the item's board column. */
  datatype Item = Item(
    id: string,
    title: string,
    vehicle: string,
    date: string,
    status: Column,
    statusColor: string,
    description: string,
    customColor: string)

  /** The board's three buckets. */
  datatype Board = Board(todo: seq<Item>, inProgress: seq<Item>, done: seq<Item>) {

    function Get(c: Column): seq<Item> {
      match c
      case Todo => todo
      case InProgress => inProgress
      case Done => done
    }

    function Set(c: Column, items: seq<Item>): (b: Board)
      ensures b.Get(c) == items
      ensures forall d :: d != c ==> b.Get(d) == Get(d)
    {
      match c
      case Todo => this.(todo := items)
      case InProgress => this.(inProgress := items)
      case Done => this.(done := items)
    }

    function Size(): nat {
      |todo| + |inProgress| + |done|
    }
  }

  /** The three projections. */
  datatype Projection = Projection(board: Board, calendar: map<string, seq<Item>>, list: seq<Item>)

  const EMPTY_BOARD: Board := Board([], [], [])
  const UNKNOWN_VEHICLE: string := "Unknown vehicle"
  const UNTITLED: string := "Untitled"

  /** `xs?.[0]` */
  function First<T>(xs: Option<seq<T>>): Option<T> {
    if xs.Some? && |xs.value| > 0 then Some(xs.value[0]) else None
  }

  function FirstDetail(order: OrderRow): Option<DetailRow> {
    First(order.details)
  }

  function FirstVehicle(order: OrderRow): Option<VehicleRow> {
    if order.customer.Some? then First(order.customer.value.vehicles) else None
  }

  function DetailDescription(order: OrderRow): Option<string> {
    if FirstDetail(order).Some? then FirstDetail(order).value.description else None
  }

  /** The vehicle text: trimmed "year make model" of the first vehicle, or the placeholder. */
  function VehicleLabel(v: Option<VehicleRow>): string {
    if v.None? then UNKNOWN_VEHICLE
    else
      var s := Trim(Join3(Show(v.value.year), Show(v.value.make), Show(v.value.model)));
      if s == "" then UNKNOWN_VEHICLE else s
  }

  /** The key a date string is bucketed under in the calendar: the part before the first "T". */
  function DateKey(date: string): string {
    BeforeFirst(date, 'T')
  }

  /** The display item built for one order; `now` stands for `new Date().toISOString()`. */
  function ToItem(now: string, order: OrderRow): Item {
    var column := MapStatus(order.status);
    var customColor := if FirstDetail(order).Some? then OrEmpty(FirstDetail(order).value.colour) else "";
    Item(
      order.id,
      Or(DetailDescription(order), Or(order.title, UNTITLED)),
      VehicleLabel(FirstVehicle(order)),
      Or(order.createdAt, now),
      column,
      StatusColor(ColumnKey(column)),
      OrEmpty(DetailDescription(order)),
      customColor)
  }

  /** The items of the rows; `nows[i]` is the clock reading taken while building row `i`,
      since each row without a creation time reads the clock afresh. */
  function Items(nows: seq<string>, rows: seq<OrderRow>): (items: seq<Item>)
    requires |nows| == |rows|
    ensures |items| == |rows|
  {
    seq(|rows|, i requires 0 <= i < |rows| => ToItem(nows[i], rows[i]))
  }

  // ---------------------------------------------------------------------------
  // Reference definitions of the buckets

  /** The items of `items` in column `c`, in order. */
  function InColumn(items: seq<Item>, c: Column): (r: seq<Item>)
    ensures |r| <= |items|
    ensures forall x :: x in r <==> x in items && x.status == c
  {
    if items == [] then []
    else
      var last := items[|items| - 1];
      InColumn(items[..|items| - 1], c) + (if last.status == c then [last] else [])
  }

  /** The items of `items` whose date key is `k`, in order. */
  function WithKey(items: seq<Item>, k: string): (r: seq<Item>)
    ensures |r| <= |items|
    ensures forall x :: x in r <==> x in items && DateKey(x.date) == k
  {
    if items == [] then []
    else
      var last := items[|items| - 1];
      WithKey(items[..|items| - 1], k) + (if DateKey(last.date) == k then [last] else [])
  }

  /** The set of date keys of `items`. */
  function KeySet(items: seq<Item>): (ks: set<string>)
    ensures forall x :: x in items ==> DateKey(x.date) in ks
  {
    if items == [] then {}
    else KeySet(items[..|items| - 1]) + {DateKey(items[|items| - 1].date)}
  }

  /** The board the projector is meant to build from `items`. */
  function BoardOf(items: seq<Item>): Board {
    Board(InColumn(items, Todo), InColumn(items, InProgress), InColumn(items, Done))
  }

  /** The calendar the projector is meant to build from `items`. */
  function CalendarOf(items: seq<Item>): map<string, seq<Item>> {
    map k | k in KeySet(items) :: WithKey(items, k)
  }

  // ---------------------------------------------------------------------------
  // The projector

  /** `transformData`: a non-array input gives empty projections; otherwise one `forEach`
      over the rows appends each row's item to its board bucket, its calendar bucket and
      the list. */
  method TransformData(nows: seq<string>, input: Input) returns (p: Projection)
    requires input.Rows? ==> |nows| == |input.rows|
    ensures input.NotAnArray? ==> p == Projection(EMPTY_BOARD, map[], [])
    ensures input.Rows? ==> p.list == Items(nows, input.rows)
    ensures p.board == BoardOf(p.list)
    ensures p.calendar == CalendarOf(p.list)
  {
    if input.NotAnArray? {
      return Projection(EMPTY_BOARD, map[], []);
    }
    var rows := input.rows;
    var board := EMPTY_BOARD;
    var calendar: map<string, seq<Item>> := map[];
    var list: seq<Item> := [];
    var i := 0;
    while i < |rows|
      invariant 0 <= i <= |rows|
      invariant list == Items(nows[..i], rows[..i])
      invariant board == BoardOf(list)
      invariant calendar == CalendarOf(list)
    {
      var item := ToItem(nows[i], rows[i]);
      var key := DateKey(item.date);
      PushBoard(list, item);
      PushCalendar(list, item);
      board := board.Set(item.status, board.Get(item.status) + [item]);
      var bucket := if key in calendar then calendar[key] else [];
      calendar := calendar[key := bucket + [item]];
      ItemsAppend(nows, rows, i);
      list := list + [item];
      i := i + 1;
    }
    assert rows[..|rows|] == rows && nows[..|nows|] == nows;
    p := Projection(board, calendar, list);
  }

  /** The loop body of `TransformData` keeps the board equal to its reference definition. */
  lemma PushBoard(list: seq<Item>, item: Item)
    ensures var b := BoardOf(list);
      BoardOf(list + [item]) == b.Set(item.status, b.Get(item.status) + [item])
  {
    var list' := list + [item];
    assert list'[..|list'| - 1] == list;
  }

  /** The loop body of `TransformData` keeps the calendar equal to its reference definition. */
  lemma PushCalendar(list: seq<Item>, item: Item)
    ensures var cal := CalendarOf(list);
      var key := DateKey(item.date);
      CalendarOf(list + [item]) == cal[key := (if key in cal then cal[key] else []) + [item]]
  {
    var cal, cal'' := CalendarOf(list), CalendarOf(list + [item]);
    var key := DateKey(item.date);
    var cal' := cal[key := (if key in cal then cal[key] else []) + [item]];
    KeySetAppend(list, item);
    assert cal''.Keys == cal'.Keys;
    forall k | k in cal'
      ensures cal''[k] == cal'[k]
    {
      WithKeyAppend(list, item, k);
      if k == key {
        CalendarLookup(list, key);
      }
    }
  }

  lemma KeySetAppend(list: seq<Item>, item: Item)
    ensures KeySet(list + [item]) == KeySet(list) + {DateKey(item.date)}
  {
    assert (list + [item])[..|list|] == list;
  }

  lemma WithKeyAppend(list: seq<Item>, item: Item, k: string)
    ensures WithKey(list + [item], k) == WithKey(list, k) + (if DateKey(item.date) == k then [item] else [])
  {
    assert (list + [item])[..|list|] == list;
  }

  lemma ItemsAppend(nows: seq<string>, rows: seq<OrderRow>, i: nat)
    requires |nows| == |rows| && i < |rows|
    ensures Items(nows[..i + 1], rows[..i + 1]) == Items(nows[..i], rows[..i]) + [ToItem(nows[i], rows[i])]
  {
    var a, b := Items(nows[..i + 1], rows[..i + 1]), Items(nows[..i], rows[..i]) + [ToItem(nows[i], rows[i])];
    forall j | 0 <= j < |a|
      ensures a[j] == b[j]
    {
      assert rows[..i + 1][j] == rows[j];
      assert nows[..i + 1][j] == nows[j];
    }
  }

  lemma WithKeyAbsent(items: seq<Item>, k: string)
    requires k !in KeySet(items)
    ensures WithKey(items, k) == []
  {
  }

  // ---------------------------------------------------------------------------
  // Properties of the projections

  /** The board's buckets partition the list: their sizes add up to the number of items. */
  lemma {:induction false} BoardPartitionsList(items: seq<Item>)
    ensures BoardOf(items).Size() == |items|
  {
    if items != [] {
      BoardPartitionsList(items[..|items| - 1]);
    }
  }

  /** Each item sits in the bucket of its own status, and in no other. */
  lemma BoardPlacesByStatus(items: seq<Item>, x: Item, c: Column)
    requires x in items
    ensures x in BoardOf(items).Get(c) <==> x.status == c
  {
  }

  /** A bucket lookup for a date key: the bucket, or nothing when the key is absent. */
  lemma CalendarLookup(items: seq<Item>, k: string)
    ensures (if k in CalendarOf(items) then CalendarOf(items)[k] else []) == WithKey(items, k)
  {
    if k !in KeySet(items) {
      WithKeyAbsent(items, k);
    }
  }

  /** Every item is in the calendar bucket of its own date key, and every bucket holds only
      items of its own key. */
  lemma CalendarPlacesByKey(items: seq<Item>, x: Item, k: string)
    requires x in items
    ensures DateKey(x.date) in CalendarOf(items)
    ensures x in CalendarOf(items)[DateKey(x.date)]
    ensures k in CalendarOf(items) && x in CalendarOf(items)[k] ==> k == DateKey(x.date)
  {
  }

  /** The distinct date keys of `items`, in order of first appearance. */
  function DistinctKeys(items: seq<Item>): (ks: seq<string>)
    ensures forall i, j :: 0 <= i < j < |ks| ==> ks[i] != ks[j]
    ensures forall k :: k in ks <==> k in KeySet(items)
  {
    if items == [] then []
    else
      var prefix := items[..|items| - 1];
      var k := DateKey(items[|items| - 1].date);
      var ks := DistinctKeys(prefix);
      assert KeySet(items) == KeySet(prefix) + {k} by {
        assert items == prefix + [items[|items| - 1]];
      }
      if k in ks then ks else ks + [k]
  }

  /** The sizes of the buckets `WithKey(items, k)` for the keys `ks`, added up. */
  function BucketSizes(ks: seq<string>, items: seq<Item>): nat {
    if ks == [] then 0
    else BucketSizes(ks[..|ks| - 1], items) + |WithKey(items, ks[|ks| - 1])|
  }

  /** Adding the last item grows the bucket of its key, if that key is listed, by one. */
  lemma {:induction false} BucketSizesGrow(ks: seq<string>, items: seq<Item>)
    requires items != []
    requires forall i, j :: 0 <= i < j < |ks| ==> ks[i] != ks[j]
    ensures BucketSizes(ks, items) == BucketSizes(ks, items[..|items| - 1])
            + (if DateKey(items[|items| - 1].date) in ks then 1 else 0)
  {
    if ks != [] {
      var prefix, last := ks[..|ks| - 1], ks[|ks| - 1];
      var key := DateKey(items[|items| - 1].date);
      BucketSizesGrow(prefix, items);
      assert ks == prefix + [last];
      assert key in ks <==> key in prefix || key == last;
      if key == last {
        forall i | 0 <= i < |prefix|
          ensures prefix[i] != key
        {
          assert prefix[i] == ks[i];
        }
      }
    }
  }

  /** Summed over the distinct keys, the calendar's bucket sizes equal the number of items:
      every item is counted in exactly one bucket. */
  lemma {:induction false} CalendarCountsEveryItemOnce(items: seq<Item>)
    ensures BucketSizes(DistinctKeys(items), items) == |items|
  {
    if items != [] {
      var prefix := items[..|items| - 1];
      var k := DateKey(items[|items| - 1].date);
      var ks := DistinctKeys(prefix);
      CalendarCountsEveryItemOnce(prefix);
      BucketSizesGrow(ks, items);
      if k !in ks {
        NewKeyBucket(ks, items);
      }
    }
  }

  /** A key seen for the first time adds a bucket holding just the new item. */
  lemma NewKeyBucket(ks: seq<string>, items: seq<Item>)
    requires items != []
    requires DateKey(items[|items| - 1].date) !in KeySet(items[..|items| - 1])
    ensures var k := DateKey(items[|items| - 1].date);
      BucketSizes(ks + [k], items) == BucketSizes(ks, items) + 1
  {
    var k := DateKey(items[|items| - 1].date);
    var ks' := ks + [k];
    assert ks'[..|ks'| - 1] == ks;
    WithKeyAbsent(items[..|items| - 1], k);
  }

  /** The list keeps the input's length and order: item `i` is built from row `i`, and its
      date is the row's creation time or, failing that, the clock reading of that row. */
  lemma ListFollowsRows(nows: seq<string>, rows: seq<OrderRow>, i: int)
    requires |nows| == |rows| && 0 <= i < |rows|
    ensures |Items(nows, rows)| == |rows|
    ensures Items(nows, rows)[i].id == rows[i].id
    ensures Items(nows, rows)[i].status == MapStatus(rows[i].status)
    ensures Items(nows, rows)[i].date == if Truthy(rows[i].createdAt) then rows[i].createdAt.value else nows[i]
  {
  }

  /** The item's title is the first detail's description, else the order's title, else
      "Untitled"; its colour is the colour of its column. */
  lemma ItemTitleAndColor(now: string, order: OrderRow)
    ensures var item := ToItem(now, order);
      && (Truthy(DetailDescription(order)) ==> item.title == DetailDescription(order).value)
      && (!Truthy(DetailDescription(order)) && Truthy(order.title) ==> item.title == order.title.value)
      && (!Truthy(DetailDescription(order)) && !Truthy(order.title) ==> item.title == UNTITLED)
      && item.statusColor == ColumnColor(item.status)
      && item.statusColor in {RED_HEX, YELLOW_HEX, GREEN_HEX}
  {
    ColumnRoundTrip(MapStatus(order.status));
  }

  /** The vehicle text is never empty: with no vehicle, or with year, make and model all
      blank, it is the placeholder; otherwise it is "year make model" trimmed. */
  lemma VehicleLabelSpec(v: Option<VehicleRow>)
    ensures VehicleLabel(v) != ""
    ensures v.None? ==> VehicleLabel(v) == UNKNOWN_VEHICLE
    ensures v.Some? ==>
      var a, b, c := Show(v.value.year), Show(v.value.make), Show(v.value.model);
      && (AllSpace(a) && AllSpace(b) && AllSpace(c) ==> VehicleLabel(v) == UNKNOWN_VEHICLE)
      && (!(AllSpace(a) && AllSpace(b) && AllSpace(c)) ==> VehicleLabel(v) == Trim(Join3(a, b, c)))
  {
    if v.Some? {
      var a, b, c := Show(v.value.year), Show(v.value.make), Show(v.value.model);
      var j := Join3(a, b, c);
      TrimEmptyIff(j);
      JoinBlankIff(a, b, c);
    }
  }

  /** "a b c" is all white space exactly when each of the three parts is. */
  lemma JoinBlankIff(a: string, b: string, c: string)
    ensures AllSpace(Join3(a, b, c)) <==> AllSpace(a) && AllSpace(b) && AllSpace(c)
  {
    assert Join3(a, b, c) == a + " " + b + " " + c;
    assert AllSpace(" ");
    if AllSpace(a) && AllSpace(b) && AllSpace(c) {
      AllSpaceAppend(a, " ");
      AllSpaceAppend(a + " ", b);
      AllSpaceAppend(a + " " + b, " ");
      AllSpaceAppend(a + " " + b + " ", c);
    }
    if AllSpace(Join3(a, b, c)) {
      AllSpaceSplit(a + " " + b + " ", c);
      AllSpaceSplit(a + " " + b, " ");
      AllSpaceSplit(a + " ", b);
      AllSpaceSplit(a, " ");
    }
  }
}
