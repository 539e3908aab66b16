/**
  The day-time bucket of an event: its hour falls into one of six fixed
  hour bands, its weekday index is named, and the two are joined by "_"
  into a label such as "MONDAY_8_11".
 */
module DayTime {
  import opened Common

  type Hour = h: int | 0 <= h < 24
  type WeekdayIndex = d: int | 0 <= d < 7

  datatype Band = Band0To3 | Band4To7 | Band8To11 | Band12To15 | Band16To19 | Band20To23

  /** The six bands in the order of the bins. */
  const Bands: seq<Band> := [Band0To3, Band4To7, Band8To11, Band12To15, Band16To19, Band20To23]

  function BandIndex(b: Band): (i: nat)
    ensures i < 6 && Bands[i] == b
  {
    match b
    case Band0To3 => 0
    case Band4To7 => 1
    case Band8To11 => 2
    case Band12To15 => 3
    case Band16To19 => 4
    case Band20To23 => 5
  }

  function BandLabel(b: Band): string {
    match b
    case Band0To3 => "0_3"
    case Band4To7 => "4_7"
    case Band8To11 => "8_11"
    case Band12To15 => "12_15"
    case Band16To19 => "16_19"
    case Band20To23 => "20_23"
  }

  /**
    The bin edges handed to `pd.cut`: one below the smallest observed hour,
    the fixed inner edges 3, 7, 11, 15, 19, and the largest observed hour.
   */
  function Bins(minHour: int, maxHour: int): seq<int> {
    [minHour - 1, 3, 7, 11, 15, 19, maxHour]
  }

  /** `pd.cut` accepts only strictly increasing edges. */
  predicate Increasing(bins: seq<int>) {
    forall i :: 0 <= i < |bins| - 1 ==> bins[i] < bins[i + 1]
  }

  /** Bins are right-closed: band `b` holds the hours in (edge b, edge b+1]. */
  predicate InBin(h: int, b: Band, bins: seq<int>)
    requires |bins| == 7
  {
    bins[BandIndex(b)] < h <= bins[BandIndex(b) + 1]
  }

  /** The band the fixed inner edges give an hour. */
  function BandOf(h: int): Band {
    if h <= 3 then Band0To3
    else if h <= 7 then Band4To7
    else if h <= 11 then Band8To11
    else if h <= 15 then Band12To15
    else if h <= 19 then Band16To19
    else Band20To23
  }

  /**
    Once the edges increase, every hour between the smallest and the largest
    observed hour lies in exactly one bin, the one `BandOf` names.
   */
  lemma BandOfIsTheOnlyBin(h: int, minHour: int, maxHour: int)
    requires Increasing(Bins(minHour, maxHour))
    requires minHour <= h <= maxHour
    ensures InBin(h, BandOf(h), Bins(minHour, maxHour))
    ensures forall b :: InBin(h, b, Bins(minHour, maxHour)) ==> b == BandOf(h)
  {
    var bins := Bins(minHour, maxHour);
    forall b | InBin(h, b, bins) ensures b == BandOf(h) {
      var i := BandIndex(b);
      assert bins[i] < h <= bins[i + 1];
    }
  }

  function WeekdayName(d: WeekdayIndex): string {
    match d
    case 0 => "MONDAY"
    case 1 => "TUESDAY"
    case 2 => "WEDNESDAY"
    case 3 => "THURSDAY"
    case 4 => "FRIDAY"
    case 5 => "SATURDAY"
    case 6 => "SUNDAY"
  }

  /** The bucket label: weekday name, "_", band label. */
  function DayTimeLabel(d: WeekdayIndex, b: Band): string {
    WeekdayName(d) + "_" + BandLabel(b)
  }

  /** Position of the first occurrence of `c` in `s`. */
  function FirstIndex(s: string, c: char): (r: Option<nat>)
    ensures r.Some? ==> r.value < |s| && s[r.value] == c && c !in s[..r.value]
    ensures r.None? ==> c !in s
  {
    if |s| == 0 then None
    else if s[0] == c then Some(0)
    else match FirstIndex(s[1..], c)
      case None => None
      case Some(i) =>
        assert s[..i + 1] == [s[0]] + s[1..][..i];
        Some(i + 1)
  }

  function WeekdayNamed(name: string): Option<WeekdayIndex> {
    if name == "MONDAY" then Some(0)
    else if name == "TUESDAY" then Some(1)
    else if name == "WEDNESDAY" then Some(2)
    else if name == "THURSDAY" then Some(3)
    else if name == "FRIDAY" then Some(4)
    else if name == "SATURDAY" then Some(5)
    else if name == "SUNDAY" then Some(6)
    else None
  }

  function BandLabelled(text: string): Option<Band> {
    if text == "0_3" then Some(Band0To3)
    else if text == "4_7" then Some(Band4To7)
    else if text == "8_11" then Some(Band8To11)
    else if text == "12_15" then Some(Band12To15)
    else if text == "16_19" then Some(Band16To19)
    else if text == "20_23" then Some(Band20To23)
    else None
  }

  /** Reads a bucket label back: the weekday is everything before the first "_". */
  function ParseDayTimeLabel(s: string): Option<(WeekdayIndex, Band)> {
    match FirstIndex(s, '_')
    case None => None
    case Some(i) =>
      match (WeekdayNamed(s[..i]), BandLabelled(s[i + 1..]))
      case (Some(d), Some(b)) => Some((d, b))
      case _ => None
  }

  lemma WeekdayNameRoundTrip(d: WeekdayIndex)
    ensures WeekdayNamed(WeekdayName(d)) == Some(d)
    ensures '_' !in WeekdayName(d)
  {
  }

  lemma {:induction false} FirstIndexAfterPrefix(a: string, c: char, b: string)
    requires c !in a
    ensures FirstIndex(a + [c] + b, c) == Some(|a|)
  {
    if |a| > 0 {
      assert (a + [c] + b)[1..] == a[1..] + [c] + b;
      FirstIndexAfterPrefix(a[1..], c, b);
    }
  }

  /** Labels are decodable, so two buckets share a label only if they are the same bucket. */
  lemma DayTimeLabelRoundTrip(d: WeekdayIndex, b: Band)
    ensures ParseDayTimeLabel(DayTimeLabel(d, b)) == Some((d, b))
  {
    var name := WeekdayName(d);
    WeekdayNameRoundTrip(d);
    FirstIndexAfterPrefix(name, '_', BandLabel(b));
    var s := DayTimeLabel(d, b);
    assert s == name + ['_'] + BandLabel(b);
    assert s[..|name|] == name;
    assert s[|name| + 1..] == BandLabel(b);
  }

  lemma DayTimeLabelInjective(d1: WeekdayIndex, b1: Band, d2: WeekdayIndex, b2: Band)
    requires DayTimeLabel(d1, b1) == DayTimeLabel(d2, b2)
    ensures d1 == d2 && b1 == b2
  {
    DayTimeLabelRoundTrip(d1, b1);
    DayTimeLabelRoundTrip(d2, b2);
  }
}
