/**
  The item-based engine (`item_based_recommendation`): rank every product
  by the correlation of its column with the added product's column in the
  session x product count matrix, keep the five best above a threshold,
  and sample from them. The correlations themselves (Pearson, computed by
  `corrwith`) are an input; an undefined correlation is `None`.
 */
module ItemBased {
  import opened Common
  import opened Ranking
  import opened Sampling

  /** How many of the best correlated products form the shortlist (`head(5)`). */
  const ShortlistSize: nat := 5

  /** The correlation of each product's column with the added product's column. */
  type Correlations = ProductId -> Option<real>

  /** A product other than `p` whose correlation is defined and above `threshold`. */
  predicate Qualifies(corr: Correlations, p: ProductId, threshold: real, q: ProductId) {
    q != p && corr(q).Some? && corr(q).value > threshold
  }

  /** The ranking key; undefined correlations never reach the shortlist, so their key is immaterial. */
  function CorrKey(corr: Correlations): ProductId -> real {
    (q: ProductId) => if corr(q).Some? then corr(q).value else 0.0
  }

  /** The columns that qualify. */
  ghost function Qualifying(columns: seq<ProductId>, corr: Correlations, p: ProductId, threshold: real): set<ProductId> {
    set q | q in columns && Qualifies(corr, p, threshold, q)
  }

  /**
    Sort by correlation, drop `p` and the undefined correlations, keep
    those above the threshold, take the first five.
   */
  function Shortlist(columns: seq<ProductId>, p: ProductId, corr: Correlations, threshold: real): (r: seq<ProductId>)
    requires Distinct(columns)
    ensures Distinct(r)
    ensures forall q :: q in r ==> q in columns
    ensures forall i :: 0 <= i < |r| ==> Qualifies(corr, p, threshold, r[i])
    ensures |r| == Min(ShortlistSize, |Qualifying(columns, corr, p, threshold)|)
    ensures forall q :: q in columns && Qualifies(corr, p, threshold, q) && q !in r && |r| > 0
                        ==> corr(q).value <= corr(r[|r| - 1]).value
    ensures forall i, j :: 0 <= i < j < |r| ==> corr(r[i]).value >= corr(r[j]).value
  {
    QualifyingIsKept(columns, corr, p, threshold);
    var r := TopKept(columns, CorrKey(corr), Keeps(corr, p, threshold), ShortlistSize);
    ShortlistByCorrelation(columns, r, corr, p, threshold);
    r
  }

  /** TopKept's facts about the ranking key, read as facts about correlations. */
  lemma ShortlistByCorrelation(columns: seq<ProductId>, r: seq<ProductId>, corr: Correlations, p: ProductId, threshold: real)
    requires forall q :: q in r ==> Keeps(corr, p, threshold)(q)
    requires SortedDesc(r, CorrKey(corr))
    requires forall y :: y in columns && Keeps(corr, p, threshold)(y) && y !in r && |r| > 0
                         ==> CorrKey(corr)(y) <= CorrKey(corr)(r[|r| - 1])
    ensures forall i :: 0 <= i < |r| ==> Qualifies(corr, p, threshold, r[i])
    ensures forall q :: q in columns && Qualifies(corr, p, threshold, q) && q !in r && |r| > 0
                        ==> corr(r[|r| - 1]).Some? && corr(q).value <= corr(r[|r| - 1]).value
    ensures forall i, j :: 0 <= i < j < |r| ==>
      corr(r[i]).Some? && corr(r[j]).Some? && corr(r[i]).value >= corr(r[j]).value
  {
    assert forall i :: 0 <= i < |r| ==> r[i] in r;
  }

  /** `Qualifies` as a filter. */
  function Keeps(corr: Correlations, p: ProductId, threshold: real): ProductId -> bool {
    (q: ProductId) => Qualifies(corr, p, threshold, q)
  }

  lemma QualifyingIsKept(columns: seq<ProductId>, corr: Correlations, p: ProductId, threshold: real)
    ensures Elements(Filter(columns, Keeps(corr, p, threshold))) == Qualifying(columns, corr, p, threshold)
  {
  }

  /**
    `item_based_recommendation`: `recCount` products sampled from the
    shortlist; when the shortlist is smaller, `random.sample` raises
    ValueError and the handler samples the whole shortlist instead. The
    column lookup of `p` raises first when `p` is not a column.
   */
  function Recommend(columns: seq<ProductId>, p: ProductId, corr: Correlations, threshold: real,
                     recCount: nat, draws: seq<nat>): (r: Result<seq<ProductId>>)
    requires Distinct(columns)
    ensures r.Err? <==> p !in columns
    ensures r.Err? ==> r.error == UnknownProduct
    ensures r.Ok? ==> Distinct(r.value) && p !in r.value
    ensures r.Ok? ==> forall q :: q in r.value ==> q in Shortlist(columns, p, corr, threshold)
    ensures r.Ok? ==> |r.value| == Min(recCount, Min(ShortlistSize, |Qualifying(columns, corr, p, threshold)|))
    ensures r.Ok? && recCount >= |Shortlist(columns, p, corr, threshold)| ==>
      forall q :: q in Shortlist(columns, p, corr, threshold) ==> q in r.value
  {
    if p !in columns then Err(UnknownProduct)
    else
      var pool := Shortlist(columns, p, corr, threshold);
      var picked := match Sample(pool, recCount, draws)
        case Ok(some) => some
        case Err(_) => Draw(pool, |pool|, draws);
      assert recCount >= |pool| ==> forall q :: q in pool ==> q in picked by {
        if recCount >= |pool| {
          SameSizeSameElements(picked, pool);
        }
      }
      Ok(picked)
  }

  /** Every product the item-based engine offers correlates with `p` above the threshold. */
  lemma RecommendAboveThreshold(columns: seq<ProductId>, p: ProductId, corr: Correlations, threshold: real,
                                recCount: nat, draws: seq<nat>)
    requires Distinct(columns)
    ensures var r := Recommend(columns, p, corr, threshold, recCount, draws);
      r.Ok? ==> forall q :: q in r.value ==> q in columns && q != p && corr(q).Some? && corr(q).value > threshold
  {
  }
}
