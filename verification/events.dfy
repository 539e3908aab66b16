/**
  The prepared event table every engine reads: one row per view or
  purchase, with the hour band and the day-time bucket derived from the
  event's hour and weekday. Also the catalogue of product ids, counting
  of rows, and the human-readable product label.
 */
module Events {
  import opened Common
  import opened DayTime

  /** An event after column clean-up; the timestamp is already split into hour and weekday. */
  datatype RawEvent = RawEvent(
    session: SessionId, product: ProductId, category: Category,
    brand: string, name: string, hour: Hour, weekday: WeekdayIndex)

  /** An event with the engineered time columns. */
  datatype PreparedEvent = PreparedEvent(
    session: SessionId, product: ProductId, category: Category,
    brand: string, name: string, hour: Hour,
    weekday: string,    // the weekday's name
    range: Band,        // the hour band
    dayTime: string)    // weekday name, "_", band label

  function MinHour(raw: seq<RawEvent>): (m: Hour)
    requires |raw| > 0
    ensures exists i :: 0 <= i < |raw| && raw[i].hour == m
    ensures forall i :: 0 <= i < |raw| ==> m <= raw[i].hour
  {
    if |raw| == 1 then raw[0].hour
    else
      var m := MinHour(raw[1..]);
      assert forall i :: 1 <= i < |raw| ==> raw[i] == raw[1..][i - 1];
      if raw[0].hour <= m then raw[0].hour else m
  }

  function MaxHour(raw: seq<RawEvent>): (m: Hour)
    requires |raw| > 0
    ensures exists i :: 0 <= i < |raw| && raw[i].hour == m
    ensures forall i :: 0 <= i < |raw| ==> raw[i].hour <= m
  {
    if |raw| == 1 then raw[0].hour
    else
      var m := MaxHour(raw[1..]);
      assert forall i :: 1 <= i < |raw| ==> raw[i] == raw[1..][i - 1];
      if raw[0].hour >= m then raw[0].hour else m
  }

  lemma IncreasingBins(minHour: int, maxHour: int)
    ensures Increasing(Bins(minHour, maxHour)) <==> minHour <= 3 && maxHour >= 20
  {
    var bins := Bins(minHour, maxHour);
    assert bins[0] == minHour - 1 && bins[1] == 3 && bins[5] == 19 && bins[6] == maxHour;
  }

  function PrepareOne(e: RawEvent): PreparedEvent {
    var b := BandOf(e.hour);
    PreparedEvent(e.session, e.product, e.category, e.brand, e.name, e.hour,
                  WeekdayName(e.weekday), b, DayTimeLabel(e.weekday, b))
  }

  /**
    The feature-engineering step: cut the hours into the six bands using
    edges that depend on the smallest and largest observed hour, then build
    the bucket label. `pd.cut` raises when those edges do not increase,
    which happens exactly when no hour is at most 3 or no hour is at least 20.
    An empty table has no smallest or largest hour: both outer edges are NaN,
    and pd.cut rejects them as duplicate edges.
   */
  function Prepare(raw: seq<RawEvent>): (r: Result<seq<PreparedEvent>>)
    ensures r.Err? <==>
      (forall i :: 0 <= i < |raw| ==> raw[i].hour > 3) || (forall i :: 0 <= i < |raw| ==> raw[i].hour < 20)
    ensures r.Err? ==> r.error == BinsNotIncreasing
    ensures r.Ok? ==> |r.value| == |raw|
    ensures r.Ok? ==> forall i :: 0 <= i < |raw| ==> RowPrepared(raw[i], r.value[i], Bins(MinHour(raw), MaxHour(raw)))
  {
    if |raw| == 0 then Err(BinsNotIncreasing)
    else
      EdgesIncreaseWhenHoursReach(raw);
      if !Increasing(Bins(MinHour(raw), MaxHour(raw))) then Err(BinsNotIncreasing)
      else
      var prepared := PrepareAll(raw);
      RowsPrepared(raw, prepared);
      Ok(prepared)
  }

  /**
    A prepared row keeps the raw row's columns, and adds the weekday name,
    a band whose bin holds the hour, and the bucket label built from them.
   */
  predicate RowPrepared(e: RawEvent, p: PreparedEvent, bins: seq<int>)
    requires |bins| == 7
  {
    && p.session == e.session && p.product == e.product && p.category == e.category
    && p.brand == e.brand && p.name == e.name && p.hour == e.hour
    && InBin(e.hour, p.range, bins)
    && p.weekday == WeekdayName(e.weekday)
    && p.dayTime == DayTimeLabel(e.weekday, p.range)
  }

  /** `PrepareOne` applied to every row. */
  function PrepareAll(raw: seq<RawEvent>): (r: seq<PreparedEvent>)
    ensures |r| == |raw| && forall i :: 0 <= i < |raw| ==> r[i] == PrepareOne(raw[i])
  {
    if |raw| == 0 then [] else [PrepareOne(raw[0])] + PrepareAll(raw[1..])
  }

  lemma {:induction false} RowsPrepared(raw: seq<RawEvent>, prepared: seq<PreparedEvent>)
    requires |raw| > 0 && Increasing(Bins(MinHour(raw), MaxHour(raw)))
    requires |prepared| == |raw| && forall i :: 0 <= i < |raw| ==> prepared[i] == PrepareOne(raw[i])
    ensures forall i :: 0 <= i < |raw| ==> RowPrepared(raw[i], prepared[i], Bins(MinHour(raw), MaxHour(raw)))
  {
    HoursInTheirBins(raw);
  }

  /** The edges increase exactly when some hour is at most 3 and some hour is at least 20. */
  lemma {:induction false} EdgesIncreaseWhenHoursReach(raw: seq<RawEvent>)
    requires |raw| > 0
    ensures Increasing(Bins(MinHour(raw), MaxHour(raw))) <==>
      (exists i :: 0 <= i < |raw| && raw[i].hour <= 3) && (exists i :: 0 <= i < |raw| && raw[i].hour >= 20)
  {
    IncreasingBins(MinHour(raw), MaxHour(raw));
  }

  /** Once the edges increase, every hour of the table falls in the band `BandOf` names. */
  lemma {:induction false} HoursInTheirBins(raw: seq<RawEvent>)
    requires |raw| > 0 && Increasing(Bins(MinHour(raw), MaxHour(raw)))
    ensures forall i :: 0 <= i < |raw| ==> InBin(raw[i].hour, BandOf(raw[i].hour), Bins(MinHour(raw), MaxHour(raw)))
  {
    forall i | 0 <= i < |raw| ensures InBin(raw[i].hour, BandOf(raw[i].hour), Bins(MinHour(raw), MaxHour(raw))) {
      BandOfIsTheOnlyBin(raw[i].hour, MinHour(raw), MaxHour(raw));
    }
  }

  /** Every prepared row carries the band its hour names. */
  ghost predicate BandsFollowHours(events: seq<PreparedEvent>) {
    forall i :: 0 <= i < |events| ==> events[i].range == BandOf(events[i].hour)
  }

  lemma PreparedBandsFollowHours(raw: seq<RawEvent>)
    requires Prepare(raw).Ok?
    ensures BandsFollowHours(Prepare(raw).value)
  {
    var r := Prepare(raw).value;
    forall i | 0 <= i < |r| ensures r[i].range == BandOf(r[i].hour) {
      BandOfIsTheOnlyBin(raw[i].hour, MinHour(raw), MaxHour(raw));
    }
  }

  /** The number of rows `pick` accepts. */
  function CountWhere(events: seq<PreparedEvent>, pick: PreparedEvent -> bool): nat {
    if |events| == 0 then 0
    else CountWhere(events[..|events| - 1], pick) + (if pick(events[|events| - 1]) then 1 else 0)
  }

  /** The positions of the rows `pick` accepts. */
  ghost function RowsWhere(events: seq<PreparedEvent>, pick: PreparedEvent -> bool): set<nat> {
    set i | 0 <= i < |events| && pick(events[i])
  }

  /** Counting rows agrees with the size of the set of matching positions. */
  lemma {:induction false} CountWhereIsRowCount(events: seq<PreparedEvent>, pick: PreparedEvent -> bool)
    ensures CountWhere(events, pick) == |RowsWhere(events, pick)|
  {
    if |events| > 0 {
      var n := |events| - 1;
      var init := events[..n];
      CountWhereIsRowCount(init, pick);
      assert forall i :: 0 <= i < n ==> init[i] == events[i];
      if pick(events[n]) {
        assert RowsWhere(events, pick) == RowsWhere(init, pick) + {n};
      } else {
        assert RowsWhere(events, pick) == RowsWhere(init, pick);
      }
    }
  }

  /** A row is counted exactly when one exists. */
  lemma {:induction false} CountWherePositive(events: seq<PreparedEvent>, pick: PreparedEvent -> bool)
    ensures CountWhere(events, pick) > 0 <==> exists i :: 0 <= i < |events| && pick(events[i])
  {
    if |events| > 0 {
      var n := |events| - 1;
      CountWherePositive(events[..n], pick);
      assert forall i :: 0 <= i < n ==> events[..n][i] == events[i];
    }
  }

  function ProductsOf(events: seq<PreparedEvent>): (r: seq<ProductId>)
    ensures |r| == |events| && forall i :: 0 <= i < |events| ==> r[i] == events[i].product
  {
    seq(|events|, i requires 0 <= i < |events| => events[i].product)
  }

  function SessionsOf(events: seq<PreparedEvent>): (r: seq<SessionId>)
    ensures |r| == |events| && forall i :: 0 <= i < |events| ==> r[i] == events[i].session
  {
    seq(|events|, i requires 0 <= i < |events| => events[i].session)
  }

  function CategoriesOf(events: seq<PreparedEvent>): (r: seq<Category>)
    ensures |r| == |events| && forall i :: 0 <= i < |events| ==> r[i] == events[i].category
  {
    seq(|events|, i requires 0 <= i < |events| => events[i].category)
  }

  /** `df_prep["PRODUCTID"].unique()`: each product id once, in order of appearance. */
  function Catalogue(events: seq<PreparedEvent>): (r: seq<ProductId>)
    ensures Distinct(r)
    ensures forall p :: p in r <==> exists i :: 0 <= i < |events| && events[i].product == p
  {
    Dedupe(ProductsOf(events))
  }

  /** Each session id once, in order of appearance. */
  function Sessions(events: seq<PreparedEvent>): (r: seq<SessionId>)
    ensures Distinct(r)
    ensures forall s :: s in r <==> exists i :: 0 <= i < |events| && events[i].session == s
  {
    Dedupe(SessionsOf(events))
  }

  /** Each category once, in order of appearance. */
  function Categories(events: seq<PreparedEvent>): (r: seq<Category>)
    ensures Distinct(r)
    ensures forall c :: c in r <==> exists i :: 0 <= i < |events| && events[i].category == c
  {
    Dedupe(CategoriesOf(events))
  }

  /** The first row `pick` accepts. */
  function FirstWhere(events: seq<PreparedEvent>, pick: PreparedEvent -> bool): (r: Option<nat>)
    ensures r.None? <==> forall i :: 0 <= i < |events| ==> !pick(events[i])
    ensures r.Some? ==> r.value < |events| && pick(events[r.value])
    ensures r.Some? ==> forall i :: 0 <= i < r.value ==> !pick(events[i])
  {
    if |events| == 0 then None
    else if pick(events[0]) then Some(0)
    else match FirstWhere(events[1..], pick)
      case None => None
      case Some(i) => Some(i + 1)
  }

  /** The first row about product `p`, the one `.values[0]` reads. */
  function FirstRowOf(events: seq<PreparedEvent>, p: ProductId): (r: Option<nat>)
    ensures r.None? <==> p !in Catalogue(events)
    ensures r.Some? ==> r.value < |events| && events[r.value].product == p
    ensures r.Some? ==> forall i :: 0 <= i < r.value ==> events[i].product != p
  {
    FirstWhere(events, (e: PreparedEvent) => e.product == p)
  }

  function Join(parts: seq<string>, sep: string): string {
    if |parts| == 0 then ""
    else if |parts| == 1 then parts[0]
    else parts[0] + sep + Join(parts[1..], sep)
  }

  /** The text `product_name` shows for row `e`: the brand is left out when it is the filler "None". */
  function LabelOf(e: PreparedEvent): string {
    (if e.brand == "None" then "" else e.brand + ", ") + e.category + ", " + e.name + ", " + e.product
  }

  /**
    `product_name`: brand, category, name and id of the product's first row,
    joined by ", ", with the brand left out when it is the filler "None".
   */
  function ProductLabel(events: seq<PreparedEvent>, p: ProductId): (r: Result<string>)
    ensures r.Err? <==> p !in Catalogue(events)
    ensures r.Err? ==> r.error == UnknownProduct
    ensures r.Ok? ==> FirstRowOf(events, p).Some? && r.value == LabelOf(events[FirstRowOf(events, p).value])
  {
    match FirstRowOf(events, p)
    case None => Err(UnknownProduct)
    case Some(i) =>
      var e := events[i];
      LabelFields(e);
      Ok(Join(ShownFields(e), ", "))
  }

  /** The fields `product_name` joins: brand, category, name and id, without a "None" brand. */
  function ShownFields(e: PreparedEvent): seq<string> {
    var fields := [e.brand, e.category, e.name, e.product];
    if e.brand == "None" then fields[1..] else fields
  }

  lemma LabelFields(e: PreparedEvent)
    ensures Join(ShownFields(e), ", ") == LabelOf(e)
  {
    var shown := ShownFields(e);
    assert Join(shown[|shown| - 2..], ", ") == e.name + ", " + e.product;
    assert Join(shown[|shown| - 3..], ", ") == e.category + ", " + e.name + ", " + e.product;
    if e.brand != "None" {
      assert shown[1..] == shown[|shown| - 3..];
    } else {
      assert shown == shown[|shown| - 3..];
    }
  }
}
