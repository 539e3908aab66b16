/**
  The user-based engine (`user_based_recommendation`): find the session of
  the binary session x product matrix that shares the most cart products,
  then offer that session's most frequent products not already in the cart.
 */
module UserBased {
  import opened Common
  import opened Events
  import opened Matrices
  import opened Ranking

  /** `set(shopping_cart)` restricted to the matrix columns. */
  function CartColumns(columns: seq<ProductId>, cart: seq<ProductId>): (r: set<ProductId>)
    ensures forall p :: p in r <==> p in cart && p in columns
  {
    set p | p in cart && p in columns
  }

  /** Each row's sum over the chosen columns (`session_df[cart].T.sum()`). */
  function Scores(m: Matrix<nat>, chosen: set<ProductId>): (r: seq<nat>)
    requires forall i :: 0 <= i < |m.rows| ==> |m.rows[i].values| == |m.columns|
    ensures |r| == |m.rows|
    ensures forall i :: 0 <= i < |m.rows| ==> r[i] == MaskedSum(m.columns, m.rows[i].values, chosen)
  {
    seq(|m.rows|, i requires 0 <= i < |m.rows| => MaskedSum(m.columns, m.rows[i].values, chosen))
  }

  /** The position of a largest score (the head of a descending sort). */
  function ArgMax(scores: seq<nat>): (i: nat)
    requires |scores| > 0
    ensures i < |scores|
    ensures forall j :: 0 <= j < |scores| ==> scores[j] <= scores[i]
  {
    if |scores| == 1 then 0
    else
      var j := ArgMax(scores[1..]) + 1;
      assert forall k :: 1 <= k < |scores| ==> scores[k] == scores[1..][k - 1];
      if scores[0] >= scores[j] then 0 else j
  }

  /** The number of distinct cart products session `s` interacted with. */
  ghost function Overlap(events: seq<PreparedEvent>, cart: seq<ProductId>, s: SessionId): nat {
    |Elements(cart) * SessionProducts(events, s)|
  }

  /**
    The session whose row sums highest over the cart's columns; there is
    none when the matrix has no rows.
   */
  function SimilarSession(events: seq<PreparedEvent>, cart: seq<ProductId>): (r: Result<SessionId>)
    ensures r.Err? <==> |events| == 0
    ensures r.Err? ==> r.error == NoSessions
    ensures r.Ok? ==> exists k :: 0 <= k < |events| && events[k].session == r.value
    ensures r.Ok? ==> forall k :: 0 <= k < |events| ==>
      Overlap(events, cart, events[k].session) <= Overlap(events, cart, r.value)
  {
    var m := BinaryMatrix(events);
    RowsExistWithEvents(events);
    if |m.rows| == 0 then Err(NoSessions)
    else
      var scores := Scores(m, CartColumns(m.columns, cart));
      var i := ArgMax(scores);
      SimilarSessionIsBest(events, cart, scores, i);
      Ok(m.rows[i].session)
  }

  lemma RowsExistWithEvents(events: seq<PreparedEvent>)
    ensures |BinaryMatrix(events).rows| == 0 <==> |events| == 0
    ensures forall i :: 0 <= i < |BinaryMatrix(events).rows| ==>
      exists k :: 0 <= k < |events| && events[k].session == BinaryMatrix(events).rows[i].session
  {
    var m := BinaryMatrix(events);
    if |events| > 0 {
      assert events[0].session in RowSessions(m);
    }
    forall i | 0 <= i < |m.rows|
      ensures exists k :: 0 <= k < |events| && events[k].session == m.rows[i].session
    {
      assert m.rows[i].session in RowSessions(m);
    }
  }

  /** A row's score is its session's overlap with the cart. */
  lemma ScoreIsOverlap(events: seq<PreparedEvent>, cart: seq<ProductId>, i: nat)
    requires i < |BinaryMatrix(events).rows|
    ensures var m := BinaryMatrix(events);
      MaskedSum(m.columns, m.rows[i].values, CartColumns(m.columns, cart)) ==
      Overlap(events, cart, m.rows[i].session)
  {
    var m := BinaryMatrix(events);
    var s := m.rows[i].session;
    BinaryRowOverlap(events, i, CartColumns(m.columns, cart));
    forall q | q in SessionProducts(events, s) ensures q in m.columns {
      var k :| 0 <= k < |events| && events[k].session == s && events[k].product == q;
    }
    assert CartColumns(m.columns, cart) * SessionProducts(events, s) ==
           Elements(cart) * SessionProducts(events, s);
  }

  lemma SimilarSessionIsBest(events: seq<PreparedEvent>, cart: seq<ProductId>, scores: seq<nat>, i: nat)
    requires var m := BinaryMatrix(events);
      && scores == Scores(m, CartColumns(m.columns, cart))
      && i < |scores| && forall j :: 0 <= j < |scores| ==> scores[j] <= scores[i]
    ensures var m := BinaryMatrix(events);
      forall k :: 0 <= k < |events| ==>
        Overlap(events, cart, events[k].session) <= Overlap(events, cart, m.rows[i].session)
  {
    var m := BinaryMatrix(events);
    ScoreIsOverlap(events, cart, i);
    forall k | 0 <= k < |events|
      ensures Overlap(events, cart, events[k].session) <= Overlap(events, cart, m.rows[i].session)
    {
      assert events[k].session in RowSessions(m);
      var j :| 0 <= j < |m.rows| && RowSessions(m)[j] == events[k].session;
      ScoreIsOverlap(events, cart, j);
    }
  }

  /** How often session `s` touched product `q` (`value_counts()`). */
  function SessionKey(events: seq<PreparedEvent>, s: SessionId): ProductId -> real {
    (q: ProductId) => PairCount(events, s, q) as real
  }

  /** The products of session `s`, each once. */
  function SessionProductList(events: seq<PreparedEvent>, s: SessionId): (r: seq<ProductId>)
    ensures Distinct(r)
    ensures forall q :: q in r <==> q in SessionProducts(events, s)
  {
    var rows := Filter(events, (e: PreparedEvent) => e.session == s);
    var r := Dedupe(ProductsOf(rows));
    forall q | q in r ensures q in SessionProducts(events, s) {
      var j :| 0 <= j < |rows| && rows[j].product == q;
      assert rows[j] in rows;
      var k :| 0 <= k < |events| && events[k] == rows[j];
    }
    forall q | q in SessionProducts(events, s) ensures q in r {
      var k :| 0 <= k < |events| && events[k].session == s && events[k].product == q;
      assert events[k] in rows;
      var j :| 0 <= j < |rows| && rows[j] == events[k];
      assert ProductsOf(rows)[j] == q;
    }
    r
  }

  /**
    The similar session's products, most frequent first, leaving out the
    `excluded` products, cut to `recCount`.
   */
  function SessionFavourites(events: seq<PreparedEvent>, s: SessionId, excluded: set<ProductId>, recCount: nat)
    : (r: seq<ProductId>)
    ensures Distinct(r)
    ensures forall q :: q in r ==> q in SessionProducts(events, s) && q !in excluded
    ensures |r| == Min(recCount, |SessionProducts(events, s) - excluded|)
    ensures SortedDesc(r, SessionKey(events, s))
    ensures forall q :: q in SessionProducts(events, s) && q !in excluded && q !in r && |r| > 0
                        ==> PairCount(events, s, q) <= PairCount(events, s, r[|r| - 1])
  {
    var products := SessionProductList(events, s);
    OutsideIsKept(products, events, s, excluded);
    TopKept(products, SessionKey(events, s), Outside(excluded), recCount)
  }

  /** The filter that drops the `excluded` products. */
  function Outside(excluded: set<ProductId>): ProductId -> bool {
    (q: ProductId) => q !in excluded
  }

  lemma OutsideIsKept(products: seq<ProductId>, events: seq<PreparedEvent>, s: SessionId, excluded: set<ProductId>)
    requires forall q :: q in products <==> q in SessionProducts(events, s)
    ensures Elements(Filter(products, Outside(excluded))) == SessionProducts(events, s) - excluded
  {
  }

  /**
    `user_based_recommendation`: the favourites of the session most similar
    to the cart, minus the cart's products.
   */
  function Recommend(events: seq<PreparedEvent>, cart: seq<ProductId>, recCount: nat): (r: Result<seq<ProductId>>)
    ensures r.Err? <==> SimilarSession(events, cart).Err?
    ensures r.Err? ==> r.error == NoSessions
    ensures r.Ok? ==>
      r.value == SessionFavourites(events, SimilarSession(events, cart).value,
                                   CartColumns(Catalogue(events), cart), recCount)
  {
    match SimilarSession(events, cart)
    case Err(e) => Err(e)
    case Ok(s) => Ok(SessionFavourites(events, s, CartColumns(BinaryMatrix(events).columns, cart), recCount))
  }

  /** The user-based list never repeats a product and never offers one already in the cart. */
  lemma RecommendAvoidsCart(events: seq<PreparedEvent>, cart: seq<ProductId>, recCount: nat)
    ensures var r := Recommend(events, cart, recCount);
      r.Ok? ==> Distinct(r.value) && forall q :: q in r.value ==> q !in cart
  {
    if Recommend(events, cart, recCount).Ok? {
      var s := SimilarSession(events, cart).value;
      var r := Recommend(events, cart, recCount).value;
      forall q | q in r ensures q !in cart {
        var k :| 0 <= k < |events| && events[k].session == s && events[k].product == q;
        assert q in Catalogue(events);
      }
    }
  }

  /** The user-based engine proposes only products of the catalogue. */
  lemma RecommendIsKnown(events: seq<PreparedEvent>, cart: seq<ProductId>, recCount: nat)
    ensures var r := Recommend(events, cart, recCount);
      r.Ok? ==> forall q :: q in r.value ==> q in Catalogue(events)
  {
    if Recommend(events, cart, recCount).Ok? {
      var s := SimilarSession(events, cart).value;
      forall q | q in Recommend(events, cart, recCount).value ensures q in Catalogue(events) {
        var k :| 0 <= k < |events| && events[k].session == s && events[k].product == q;
      }
    }
  }
}
