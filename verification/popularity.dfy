/**
  The popularity engine (`bestseller_same_diff_cat_day_time`): best sellers
  of the current day-time bucket, the top product of each other category
  first, then the best sellers of the added product's own category.
 */
module Popularity {
  import opened Common
  import opened DayTime
  import opened Events
  import opened Ranking

  /** The wall clock at the moment of the call. */
  datatype Clock = Clock(hour: Hour, weekday: WeekdayIndex)

  /**
    `create_current_time`: the weekday name of the clock joined to the band
    stored on the first row observed at the clock's hour; that row must exist.
   */
  function CurrentDayTime(events: seq<PreparedEvent>, clock: Clock): (r: Result<string>)
    ensures r.Ok? <==> exists i :: 0 <= i < |events| && events[i].hour == clock.hour
    ensures r.Err? ==> r.error == HourNotObserved
    ensures r.Ok? ==> exists i :: 0 <= i < |events| && events[i].hour == clock.hour &&
                                  r.value == DayTimeLabel(clock.weekday, events[i].range)
  {
    match FirstWhere(events, (e: PreparedEvent) => e.hour == clock.hour)
    case None => Err(HourNotObserved)
    case Some(i) => Ok(DayTimeLabel(clock.weekday, events[i].range))
  }

  /** On a prepared table the current bucket is the clock's weekday and the band of the clock's hour. */
  lemma CurrentDayTimeIsClockBucket(events: seq<PreparedEvent>, clock: Clock)
    requires BandsFollowHours(events)
    requires exists i :: 0 <= i < |events| && events[i].hour == clock.hour
    ensures CurrentDayTime(events, clock) == Ok(DayTimeLabel(clock.weekday, BandOf(clock.hour)))
  {
  }

  /** The row falls in bucket `bucket` and category `c`. */
  predicate InBucket(e: PreparedEvent, bucket: string, c: Category) {
    e.dayTime == bucket && e.category == c
  }

  /** The row is a sale of product `p` of category `c` in bucket `bucket`. */
  predicate Sold(e: PreparedEvent, bucket: string, c: Category, p: ProductId) {
    InBucket(e, bucket, c) && e.product == p
  }

  /** Some row is a sale of `p` of category `c` in bucket `bucket`. */
  ghost predicate SoldAny(events: seq<PreparedEvent>, bucket: string, c: Category, p: ProductId) {
    exists k :: 0 <= k < |events| && Sold(events[k], bucket, c, p)
  }

  /** The COUNT column of the (bucket, category, product) aggregate. */
  function SalesCount(events: seq<PreparedEvent>, bucket: string, c: Category, p: ProductId): nat {
    CountWhere(events, (e: PreparedEvent) => Sold(e, bucket, c, p))
  }

  /** The aggregate counts a product exactly when it was sold in that bucket and category. */
  lemma SalesCountPositive(events: seq<PreparedEvent>, bucket: string, c: Category, p: ProductId)
    ensures SalesCount(events, bucket, c, p) > 0 <==> SoldAny(events, bucket, c, p)
  {
    CountWherePositive(events, (e: PreparedEvent) => Sold(e, bucket, c, p));
  }

  function BucketRows(events: seq<PreparedEvent>, bucket: string, c: Category): seq<PreparedEvent> {
    Filter(events, (e: PreparedEvent) => InBucket(e, bucket, c))
  }

  /** The products of category `c` sold in bucket `bucket`, each once. */
  function BucketProducts(events: seq<PreparedEvent>, bucket: string, c: Category): (r: seq<ProductId>)
    ensures Distinct(r)
  {
    Dedupe(ProductsOf(BucketRows(events, bucket, c)))
  }

  lemma BucketProductsMembership(events: seq<PreparedEvent>, bucket: string, c: Category, q: ProductId)
    ensures q in BucketProducts(events, bucket, c) <==> SoldAny(events, bucket, c, q)
  {
    var rows := BucketRows(events, bucket, c);
    var names := ProductsOf(rows);
    if q in BucketProducts(events, bucket, c) {
      var j :| 0 <= j < |names| && names[j] == q;
      assert rows[j] in rows;
      var k :| 0 <= k < |events| && events[k] == rows[j];
      assert Sold(events[k], bucket, c, q);
    }
    if SoldAny(events, bucket, c, q) {
      var k :| 0 <= k < |events| && Sold(events[k], bucket, c, q);
      assert events[k] in rows;
      var j :| 0 <= j < |rows| && rows[j] == events[k];
      assert names[j] == q;
    }
  }

  function SalesKey(events: seq<PreparedEvent>, bucket: string, c: Category): ProductId -> real {
    (q: ProductId) => SalesCount(events, bucket, c, q) as real
  }

  /** The products of the bucket and category, best seller first. */
  function RankedBucketProducts(events: seq<PreparedEvent>, bucket: string, c: Category): (r: seq<ProductId>)
    ensures Distinct(r)
    ensures forall q :: q in r <==> q in BucketProducts(events, bucket, c)
    ensures SortedDesc(r, SalesKey(events, bucket, c))
  {
    SortKeepsElements(BucketProducts(events, bucket, c), SalesKey(events, bucket, c));
    SortDesc(BucketProducts(events, bucket, c), SalesKey(events, bucket, c))
  }

  /** The head of the ranked list sells at least as often as any product of that bucket and category. */
  lemma RankedHeadIsBest(events: seq<PreparedEvent>, bucket: string, c: Category, q: ProductId)
    requires |RankedBucketProducts(events, bucket, c)| > 0
    ensures SalesCount(events, bucket, c, q) <= SalesCount(events, bucket, c, RankedBucketProducts(events, bucket, c)[0])
  {
    var ranked := RankedBucketProducts(events, bucket, c);
    SalesCountPositive(events, bucket, c, q);
    BucketProductsMembership(events, bucket, c, q);
    if q in ranked {
      var j :| 0 <= j < |ranked| && ranked[j] == q;
      if j > 0 {
        assert SalesKey(events, bucket, c)(ranked[0]) >= SalesKey(events, bucket, c)(ranked[j]);
      }
    }
  }

  /** `groupby("CATEGORY").head(1)` of the sorted aggregate: a best seller of the category in the bucket. */
  function TopSeller(events: seq<PreparedEvent>, bucket: string, c: Category): (top: ProductId)
    requires |BucketProducts(events, bucket, c)| > 0
    ensures SoldAny(events, bucket, c, top)
    ensures forall q :: SalesCount(events, bucket, c, q) <= SalesCount(events, bucket, c, top)
  {
    var ranked := RankedBucketProducts(events, bucket, c);
    assert ranked[0] in BucketProducts(events, bucket, c);
    BucketProductsMembership(events, bucket, c, ranked[0]);
    forall q ensures SalesCount(events, bucket, c, q) <= SalesCount(events, bucket, c, ranked[0]) {
      RankedHeadIsBest(events, bucket, c, q);
    }
    ranked[0]
  }

  /** One entry of the different-category list. */
  datatype Pick = Pick(category: Category, product: ProductId, count: nat)

  /** The pick is a best seller of its category in the bucket, with its count. */
  ghost predicate CategoryBest(events: seq<PreparedEvent>, bucket: string, x: Pick) {
    && x.count == SalesCount(events, bucket, x.category, x.product)
    && x.count > 0
    && forall q :: SalesCount(events, bucket, x.category, q) <= x.count
  }

  function PickOf(events: seq<PreparedEvent>, bucket: string, c: Category): (x: Pick)
    requires |BucketProducts(events, bucket, c)| > 0
    ensures x.category == c && CategoryBest(events, bucket, x)
  {
    var top := TopSeller(events, bucket, c);
    SalesCountPositive(events, bucket, c, top);
    Pick(c, top, SalesCount(events, bucket, c, top))
  }

  /** The categories, other than `purchased`, that sold anything in the bucket. */
  ghost predicate OtherBucketCategory(events: seq<PreparedEvent>, bucket: string, purchased: Category, c: Category) {
    c != purchased && exists k :: 0 <= k < |events| && InBucket(events[k], bucket, c)
  }

  function BucketCategories(events: seq<PreparedEvent>, bucket: string): seq<Category> {
    Dedupe(CategoriesOf(Filter(events, (e: PreparedEvent) => e.dayTime == bucket)))
  }

  /** The categories other than `purchased` that sold in the bucket, each once. */
  function OtherCategories(events: seq<PreparedEvent>, bucket: string, purchased: Category): (r: seq<Category>)
    ensures Distinct(r)
  {
    FilterKeepsDistinct(BucketCategories(events, bucket), (c: Category) => c != purchased);
    Filter(BucketCategories(events, bucket), (c: Category) => c != purchased)
  }

  lemma OtherCategoriesMembership(events: seq<PreparedEvent>, bucket: string, purchased: Category, c: Category)
    ensures c in OtherCategories(events, bucket, purchased) <==> OtherBucketCategory(events, bucket, purchased, c)
    ensures c in OtherCategories(events, bucket, purchased) ==> |BucketProducts(events, bucket, c)| > 0
  {
    var rows := Filter(events, (e: PreparedEvent) => e.dayTime == bucket);
    var cats := CategoriesOf(rows);
    if c in OtherCategories(events, bucket, purchased) {
      var j :| 0 <= j < |cats| && cats[j] == c;
      assert rows[j] in rows;
      var k :| 0 <= k < |events| && events[k] == rows[j];
      assert InBucket(events[k], bucket, c);
      assert Sold(events[k], bucket, c, events[k].product);
      BucketProductsMembership(events, bucket, c, events[k].product);
    }
    if OtherBucketCategory(events, bucket, purchased, c) {
      var k :| 0 <= k < |events| && InBucket(events[k], bucket, c);
      assert events[k] in rows;
      var j :| 0 <= j < |rows| && rows[j] == events[k];
      assert cats[j] == c;
    }
  }

  function PicksOf(events: seq<PreparedEvent>, bucket: string, cats: seq<Category>): (r: seq<Pick>)
    requires forall c :: c in cats ==> |BucketProducts(events, bucket, c)| > 0
    ensures |r| == |cats|
    ensures forall i :: 0 <= i < |cats| ==> r[i].category == cats[i] && CategoryBest(events, bucket, r[i])
  {
    seq(|cats|, i requires 0 <= i < |cats| => PickOf(events, bucket, cats[i]))
  }

  function PickCount(x: Pick): real {
    x.count as real
  }

  function PickCategories(picks: seq<Pick>): (r: seq<Category>)
    ensures |r| == |picks| && forall i :: 0 <= i < |picks| ==> r[i] == picks[i].category
  {
    seq(|picks|, i requires 0 <= i < |picks| => picks[i].category)
  }

  function PickProducts(picks: seq<Pick>): (r: seq<ProductId>)
    ensures |r| == |picks| && forall i :: 0 <= i < |picks| ==> r[i] == picks[i].product
  {
    seq(|picks|, i requires 0 <= i < |picks| => picks[i].product)
  }

  /** The picks of all other categories, one per category, higher counts first. */
  function RankedPicks(events: seq<PreparedEvent>, bucket: string, purchased: Category): (r: seq<Pick>)
    ensures SortedDesc(r, PickCount)
    ensures |r| == |OtherCategories(events, bucket, purchased)|
    ensures forall x :: x in r ==> OtherBucketCategory(events, bucket, purchased, x.category) && CategoryBest(events, bucket, x)
    ensures forall c :: OtherBucketCategory(events, bucket, purchased, c) ==> c in PickCategories(r)
    ensures Distinct(PickCategories(r))
  {
    var cats := OtherCategories(events, bucket, purchased);
    forall c | c in cats ensures |BucketProducts(events, bucket, c)| > 0 {
      OtherCategoriesMembership(events, bucket, purchased, c);
    }
    var picks := PicksOf(events, bucket, cats);
    var r := SortDesc(picks, PickCount);
    RankedPicksFacts(events, bucket, purchased, cats, picks, r);
    r
  }

  lemma RankedPicksFacts(events: seq<PreparedEvent>, bucket: string, purchased: Category,
                         cats: seq<Category>, picks: seq<Pick>, r: seq<Pick>)
    requires cats == OtherCategories(events, bucket, purchased)
    requires forall c :: c in cats ==> |BucketProducts(events, bucket, c)| > 0
    requires picks == PicksOf(events, bucket, cats)
    requires multiset(r) == multiset(picks)
    ensures |r| == |cats|
    ensures forall x :: x in r ==> OtherBucketCategory(events, bucket, purchased, x.category) && CategoryBest(events, bucket, x)
    ensures forall c :: OtherBucketCategory(events, bucket, purchased, c) ==> c in PickCategories(r)
    ensures Distinct(PickCategories(r))
  {
    assert |multiset(r)| == |multiset(picks)|;
    SameMembers(r, picks);
    RankedPicksMembers(events, bucket, purchased, cats, picks, r);
    RankedPicksDistinct(cats, picks, r);
  }

  lemma RankedPicksMembers(events: seq<PreparedEvent>, bucket: string, purchased: Category,
                           cats: seq<Category>, picks: seq<Pick>, r: seq<Pick>)
    requires cats == OtherCategories(events, bucket, purchased)
    requires forall c :: c in cats ==> |BucketProducts(events, bucket, c)| > 0
    requires picks == PicksOf(events, bucket, cats)
    requires forall x :: x in r <==> x in picks
    ensures forall x :: x in r ==> OtherBucketCategory(events, bucket, purchased, x.category) && CategoryBest(events, bucket, x)
    ensures forall c :: OtherBucketCategory(events, bucket, purchased, c) ==> c in PickCategories(r)
  {
    forall x | x in r
      ensures OtherBucketCategory(events, bucket, purchased, x.category) && CategoryBest(events, bucket, x)
    {
      var a :| 0 <= a < |picks| && picks[a] == x;
      OtherCategoriesMembership(events, bucket, purchased, cats[a]);
    }
    forall c | OtherBucketCategory(events, bucket, purchased, c) ensures c in PickCategories(r) {
      OtherCategoriesMembership(events, bucket, purchased, c);
      var a :| 0 <= a < |cats| && cats[a] == c;
      assert picks[a] in r;
      var b :| 0 <= b < |r| && r[b] == picks[a];
      assert PickCategories(r)[b] == c;
    }
  }

  /** Picks made one per distinct category, in any order, name each category once. */
  lemma RankedPicksDistinct(cats: seq<Category>, picks: seq<Pick>, r: seq<Pick>)
    requires Distinct(cats)
    requires |picks| == |cats| && forall i :: 0 <= i < |cats| ==> picks[i].category == cats[i]
    requires multiset(r) == multiset(picks)
    ensures Distinct(PickCategories(r))
  {
    SameMembers(r, picks);
    assert Distinct(picks) by {
      forall a, b | 0 <= a < b < |picks| ensures picks[a] != picks[b] {
        assert cats[a] != cats[b];
      }
    }
    DistinctPermutation(picks, r);
    forall i, j | 0 <= i < j < |r| ensures r[i].category != r[j].category {
      assert r[i] in picks && r[j] in picks;
      var a :| 0 <= a < |picks| && picks[a] == r[i];
      var b :| 0 <= b < |picks| && picks[b] == r[j];
      assert cats[a] != cats[b];
    }
  }

  /**
    The different-category part: each other category's best seller in the
    bucket, higher counts first, cut to `recCount`.
   */
  function DiffCategoryPicks(events: seq<PreparedEvent>, bucket: string, purchased: Category, recCount: nat): (r: seq<Pick>)
    ensures |r| == Min(recCount, |OtherCategories(events, bucket, purchased)|)
    ensures forall x :: x in r ==> OtherBucketCategory(events, bucket, purchased, x.category) && CategoryBest(events, bucket, x)
    ensures Distinct(PickCategories(r))
    ensures SortedDesc(r, PickCount)
    ensures forall c, q :: OtherBucketCategory(events, bucket, purchased, c) && c !in PickCategories(r) && |r| > 0
                           ==> SalesCount(events, bucket, c, q) <= r[|r| - 1].count
  {
    var ranked := RankedPicks(events, bucket, purchased);
    var r := Prefix(ranked, recCount);
    PrefixKeepsSorted(ranked, PickCount, recCount);
    DiffCategoryCutoff(events, bucket, purchased, ranked, recCount);
    PrefixKeepsCategoriesDistinct(ranked, recCount);
    r
  }

  lemma PrefixKeepsCategoriesDistinct(picks: seq<Pick>, n: nat)
    requires Distinct(PickCategories(picks))
    ensures Distinct(PickCategories(Prefix(picks, n)))
  {
    var r := Prefix(picks, n);
    forall i, j | 0 <= i < j < |r| ensures PickCategories(r)[i] != PickCategories(r)[j] {
      assert PickCategories(picks)[i] != PickCategories(picks)[j];
    }
  }

  /** A category left out by the cut sells no product more often than the last pick kept. */
  lemma DiffCategoryCutoff(events: seq<PreparedEvent>, bucket: string, purchased: Category,
                           ranked: seq<Pick>, recCount: nat)
    requires ranked == RankedPicks(events, bucket, purchased)
    ensures forall c, q :: OtherBucketCategory(events, bucket, purchased, c) &&
                           c !in PickCategories(Prefix(ranked, recCount)) && |Prefix(ranked, recCount)| > 0
                           ==> SalesCount(events, bucket, c, q) <= Prefix(ranked, recCount)[|Prefix(ranked, recCount)| - 1].count
  {
    var r := Prefix(ranked, recCount);
    forall c, q | OtherBucketCategory(events, bucket, purchased, c) && c !in PickCategories(r) && |r| > 0
      ensures SalesCount(events, bucket, c, q) <= r[|r| - 1].count
    {
      var b :| 0 <= b < |ranked| && PickCategories(ranked)[b] == c;
      var y := ranked[b];
      assert y !in r;
      assert r[|r| - 1] in r;
      PrefixOutranksRest(ranked, PickCount, recCount, r[|r| - 1], y);
      assert CategoryBest(events, bucket, y);
    }
  }

  /**
    The same-category part: the products of category `purchased` sold in
    the bucket, best sellers first, without `p`, cut to `recCount`.
   */
  function SameCategoryPicks(events: seq<PreparedEvent>, bucket: string, purchased: Category,
                             p: ProductId, recCount: nat): (r: seq<ProductId>)
    ensures Distinct(r)
    ensures |r| == Min(recCount, |Elements(BucketProducts(events, bucket, purchased)) - {p}|)
    ensures forall q :: q in r ==> q != p && SoldAny(events, bucket, purchased, q)
    ensures SortedDesc(r, SalesKey(events, bucket, purchased))
    ensures forall q :: q != p && SoldAny(events, bucket, purchased, q) && q !in r && |r| > 0
                        ==> SalesCount(events, bucket, purchased, q) <= SalesCount(events, bucket, purchased, r[|r| - 1])
  {
    var products := BucketProducts(events, bucket, purchased);
    var notP := (q: ProductId) => q != p;
    assert Elements(Filter(products, notP)) == Elements(products) - {p};
    forall q ensures q in products <==> SoldAny(events, bucket, purchased, q) {
      BucketProductsMembership(events, bucket, purchased, q);
    }
    TopKept(products, SalesKey(events, bucket, purchased), notP, recCount)
  }

  /** The category of the first row about `p`. */
  function CategoryOf(events: seq<PreparedEvent>, p: ProductId): (r: Option<Category>)
    ensures r.None? <==> p !in Catalogue(events)
    ensures r.Some? ==> exists k :: 0 <= k < |events| && events[k].product == p && events[k].category == r.value
  {
    match FirstRowOf(events, p)
    case None => None
    case Some(i) => Some(events[i].category)
  }

  /**
    `bestseller_same_diff_cat_day_time`: fails when the clock's hour was
    never observed, then when `p` has no row; otherwise the
    different-category list followed by the same-category list.
   */
  function Bestsellers(events: seq<PreparedEvent>, p: ProductId, clock: Clock,
                       diffCount: nat, sameCount: nat): (r: Result<seq<ProductId>>)
    ensures r.Err? <==> CurrentDayTime(events, clock).Err? || p !in Catalogue(events)
    ensures r.Err? && CurrentDayTime(events, clock).Err? ==> r.error == HourNotObserved
    ensures r.Err? && CurrentDayTime(events, clock).Ok? ==> r.error == UnknownProduct
    ensures r.Ok? ==>
      var bucket, purchased := CurrentDayTime(events, clock).value, CategoryOf(events, p).value;
      r.value == PickProducts(DiffCategoryPicks(events, bucket, purchased, diffCount)) +
                 SameCategoryPicks(events, bucket, purchased, p, sameCount)
  {
    match CurrentDayTime(events, clock)
    case Err(e) => Err(e)
    case Ok(bucket) =>
      match CategoryOf(events, p)
      case None => Err(UnknownProduct)
      case Some(purchased) =>
        Ok(PickProducts(DiffCategoryPicks(events, bucket, purchased, diffCount)) +
           SameCategoryPicks(events, bucket, purchased, p, sameCount))
  }

  /**
    Every product the popularity engine returns was sold in the current
    bucket; the different-category part never names the purchased category,
    and the same-category part never names `p`.
   */
  lemma BestsellersSoldNow(events: seq<PreparedEvent>, p: ProductId, clock: Clock,
                           diffCount: nat, sameCount: nat)
    ensures Bestsellers(events, p, clock, diffCount, sameCount).Ok? ==>
      var bucket := CurrentDayTime(events, clock).value;
      forall q :: q in Bestsellers(events, p, clock, diffCount, sameCount).value ==>
        exists c :: SoldAny(events, bucket, c, q)
    ensures Bestsellers(events, p, clock, diffCount, sameCount).Ok? ==>
      var bucket, purchased := CurrentDayTime(events, clock).value, CategoryOf(events, p).value;
      p !in SameCategoryPicks(events, bucket, purchased, p, sameCount) &&
      forall x :: x in DiffCategoryPicks(events, bucket, purchased, diffCount) ==> x.category != purchased
  {
    if Bestsellers(events, p, clock, diffCount, sameCount).Ok? {
      var bucket, purchased := CurrentDayTime(events, clock).value, CategoryOf(events, p).value;
      var diff := DiffCategoryPicks(events, bucket, purchased, diffCount);
      var same := SameCategoryPicks(events, bucket, purchased, p, sameCount);
      forall q | q in PickProducts(diff) + same ensures exists c :: SoldAny(events, bucket, c, q) {
        if q in same {
          assert SoldAny(events, bucket, purchased, q);
        } else {
          var i :| 0 <= i < |diff| && PickProducts(diff)[i] == q;
          assert diff[i] in diff;
          SalesCountPositive(events, bucket, diff[i].category, q);
          assert SoldAny(events, bucket, diff[i].category, q);
        }
      }
    }
  }

  /** The popularity engine proposes only products of the catalogue. */
  lemma BestsellersAreKnown(events: seq<PreparedEvent>, p: ProductId, clock: Clock, diffCount: nat, sameCount: nat)
    ensures var r := Bestsellers(events, p, clock, diffCount, sameCount);
      r.Ok? ==> forall q :: q in r.value ==> q in Catalogue(events)
  {
    var r := Bestsellers(events, p, clock, diffCount, sameCount);
    if r.Ok? {
      BestsellersSoldNow(events, p, clock, diffCount, sameCount);
      var bucket := CurrentDayTime(events, clock).value;
      forall q | q in r.value ensures q in Catalogue(events) {
        var c :| SoldAny(events, bucket, c, q);
        var k :| 0 <= k < |events| && Sold(events[k], bucket, c, q);
      }
    }
  }
}
