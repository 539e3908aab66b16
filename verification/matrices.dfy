/**
  The two session x product interaction matrices and the row filter applied
  before rule mining. A matrix is a column index (product ids) and a list
  of rows, one per session, whose values line up with the columns.
  Missing entries of the count matrix are `None`, distinct from a count of 0.
 */
module Matrices {
  import opened Common
  import opened Events

  datatype Row<V> = Row(session: SessionId, values: seq<V>)
  datatype Matrix<V> = Matrix(columns: seq<ProductId>, rows: seq<Row<V>>)

  /** Columns and sessions are unique and every row has a value per column. */
  ghost predicate WellShaped<V>(m: Matrix<V>) {
    && Distinct(m.columns)
    && (forall i :: 0 <= i < |m.rows| ==> |m.rows[i].values| == |m.columns|)
    && (forall i, j :: 0 <= i < j < |m.rows| ==> m.rows[i].session != m.rows[j].session)
  }

  /** Session `s` has at least one event about product `p`. */
  ghost predicate Interacted(events: seq<PreparedEvent>, s: SessionId, p: ProductId) {
    exists k :: 0 <= k < |events| && events[k].session == s && events[k].product == p
  }

  /** The positions of the events of session `s` about product `p`. */
  ghost function PairRows(events: seq<PreparedEvent>, s: SessionId, p: ProductId): set<nat> {
    set k | 0 <= k < |events| && events[k].session == s && events[k].product == p
  }

  /** The products session `s` interacted with. */
  ghost function SessionProducts(events: seq<PreparedEvent>, s: SessionId): set<ProductId> {
    set k | 0 <= k < |events| && events[k].session == s :: events[k].product
  }

  /** The group size of (s, p) in `groupby(['SESSIONID', 'PRODUCTID'])`. */
  function PairCount(events: seq<PreparedEvent>, s: SessionId, p: ProductId): nat {
    CountWhere(events, (e: PreparedEvent) => e.session == s && e.product == p)
  }

  lemma PairCountMeaning(events: seq<PreparedEvent>, s: SessionId, p: ProductId)
    ensures PairCount(events, s, p) == |PairRows(events, s, p)|
    ensures PairCount(events, s, p) > 0 <==> Interacted(events, s, p)
    ensures Interacted(events, s, p) <==> p in SessionProducts(events, s)
  {
    var pick := (e: PreparedEvent) => e.session == s && e.product == p;
    CountWhereIsRowCount(events, pick);
    CountWherePositive(events, pick);
    assert RowsWhere(events, pick) == PairRows(events, s, p);
  }

  function RowSessions<V>(m: Matrix<V>): (r: seq<SessionId>)
    ensures |r| == |m.rows| && forall i :: 0 <= i < |m.rows| ==> r[i] == m.rows[i].session
  {
    seq(|m.rows|, i requires 0 <= i < |m.rows| => m.rows[i].session)
  }

  /** One row per session and one column per product, filled by `cell`. */
  function Tabulate<V>(events: seq<PreparedEvent>, cell: (SessionId, ProductId) -> V): (m: Matrix<V>)
    ensures m.columns == Catalogue(events) && RowSessions(m) == Sessions(events)
    ensures forall i :: 0 <= i < |m.rows| ==> |m.rows[i].values| == |m.columns|
    ensures forall i, j :: 0 <= i < |m.rows| && 0 <= j < |m.columns| ==>
      m.rows[i].values[j] == cell(m.rows[i].session, m.columns[j])
  {
    var cols := Catalogue(events);
    var sessions := Sessions(events);
    Matrix(cols, seq(|sessions|, i requires 0 <= i < |sessions| =>
      Row(sessions[i], seq(|cols|, j requires 0 <= j < |cols| => cell(sessions[i], cols[j])))))
  }

  lemma TabulateWellShaped<V>(events: seq<PreparedEvent>, cell: (SessionId, ProductId) -> V)
    ensures WellShaped(Tabulate(events, cell))
  {
    var m := Tabulate(events, cell);
    var sessions := RowSessions(m);
    assert Distinct(sessions);
    forall i, j | 0 <= i < j < |m.rows| ensures m.rows[i].session != m.rows[j].session {
      assert sessions[i] != sessions[j];
    }
  }

  function BinaryCell(events: seq<PreparedEvent>, s: SessionId, p: ProductId): nat {
    if PairCount(events, s, p) > 0 then 1 else 0
  }

  function CountCell(events: seq<PreparedEvent>, s: SessionId, p: ProductId): Option<nat> {
    var n := PairCount(events, s, p);
    if n > 0 then Some(n) else None
  }

  /** `groupby(...).count().unstack().fillna(0)` mapped to 1 when positive, else 0. */
  function BinaryMatrix(events: seq<PreparedEvent>): (m: Matrix<nat>)
    ensures WellShaped(m)
    ensures forall p :: p in m.columns <==> exists k :: 0 <= k < |events| && events[k].product == p
    ensures forall s :: s in RowSessions(m) <==> exists k :: 0 <= k < |events| && events[k].session == s
    ensures forall i, j :: 0 <= i < |m.rows| && 0 <= j < |m.columns| ==>
      (m.rows[i].values[j] == 1 <==> Interacted(events, m.rows[i].session, m.columns[j])) &&
      (m.rows[i].values[j] == 0 <==> !Interacted(events, m.rows[i].session, m.columns[j]))
  {
    var m := Tabulate(events, (s, p) => BinaryCell(events, s, p));
    TabulateWellShaped(events, (s, p) => BinaryCell(events, s, p));
    forall i, j | 0 <= i < |m.rows| && 0 <= j < |m.columns|
      ensures m.rows[i].values[j] == 1 <==> Interacted(events, m.rows[i].session, m.columns[j])
      ensures m.rows[i].values[j] == 0 <==> !Interacted(events, m.rows[i].session, m.columns[j])
    {
      PairCountMeaning(events, m.rows[i].session, m.columns[j]);
    }
    m
  }

  /**
    The count matrix built with `value_counts` and `pivot_table`: an entry is
    present exactly when the session has events about the product, and then
    it is their number.
   */
  function CountMatrix(events: seq<PreparedEvent>): (m: Matrix<Option<nat>>)
    ensures WellShaped(m)
    ensures forall p :: p in m.columns <==> exists k :: 0 <= k < |events| && events[k].product == p
    ensures forall s :: s in RowSessions(m) <==> exists k :: 0 <= k < |events| && events[k].session == s
    ensures forall i, j :: 0 <= i < |m.rows| && 0 <= j < |m.columns| ==>
      (m.rows[i].values[j].Some? <==> Interacted(events, m.rows[i].session, m.columns[j])) &&
      (m.rows[i].values[j].Some? ==>
         m.rows[i].values[j].value == |PairRows(events, m.rows[i].session, m.columns[j])|)
  {
    var m := Tabulate(events, (s, p) => CountCell(events, s, p));
    TabulateWellShaped(events, (s, p) => CountCell(events, s, p));
    forall i, j | 0 <= i < |m.rows| && 0 <= j < |m.columns|
      ensures m.rows[i].values[j].Some? <==> Interacted(events, m.rows[i].session, m.columns[j])
      ensures m.rows[i].values[j].Some? ==>
        m.rows[i].values[j].value == |PairRows(events, m.rows[i].session, m.columns[j])|
    {
      PairCountMeaning(events, m.rows[i].session, m.columns[j]);
    }
    m
  }

  /** Sum of the values in the columns whose product is in `chosen`. */
  function MaskedSum(columns: seq<ProductId>, values: seq<nat>, chosen: set<ProductId>): nat
    requires |values| == |columns|
  {
    if |columns| == 0 then 0
    else (if columns[0] in chosen then values[0] else 0) + MaskedSum(columns[1..], values[1..], chosen)
  }

  /**
    Over unique columns, a 0/1 row that marks the products of `marked` sums,
    within the chosen columns, to the number of chosen marked products.
   */
  lemma {:induction false} IndicatorMaskedSum(columns: seq<ProductId>, values: seq<nat>,
                                             chosen: set<ProductId>, marked: set<ProductId>)
    requires Distinct(columns) && |values| == |columns|
    requires forall j :: 0 <= j < |columns| ==> values[j] == if columns[j] in marked then 1 else 0
    ensures MaskedSum(columns, values, chosen) == |Elements(columns) * chosen * marked|
  {
    if |columns| > 0 {
      var c := columns[0];
      var tail := columns[1..];
      assert Distinct(tail);
      IndicatorMaskedSum(tail, values[1..], chosen, marked);
      assert c !in tail;
      assert Elements(columns) == {c} + Elements(tail);
      MaskOneMore(c, Elements(tail), chosen, marked);
    }
  }

  /** Adding a new column to the mask adds one exactly when it is chosen and marked. */
  lemma MaskOneMore(c: ProductId, rest: set<ProductId>, chosen: set<ProductId>, marked: set<ProductId>)
    requires c !in rest
    ensures |({c} + rest) * chosen * marked| == |rest * chosen * marked| + if c in chosen && c in marked then 1 else 0
  {
    if c in chosen && c in marked {
      assert ({c} + rest) * chosen * marked == {c} + rest * chosen * marked;
    } else {
      assert ({c} + rest) * chosen * marked == rest * chosen * marked;
    }
  }

  lemma {:induction false} MaskedSumOfAllColumns(columns: seq<ProductId>, values: seq<nat>)
    requires |values| == |columns|
    ensures MaskedSum(columns, values, Elements(columns)) == Sum(values)
  {
    if |columns| > 0 {
      MaskedSumOfAllColumns(columns[1..], values[1..]);
      MaskedSumMonotone(columns[1..], values[1..], Elements(columns[1..]), Elements(columns));
    }
  }

  lemma {:induction false} MaskedSumMonotone(columns: seq<ProductId>, values: seq<nat>,
                                             a: set<ProductId>, b: set<ProductId>)
    requires |values| == |columns|
    requires Elements(columns) <= a && Elements(columns) <= b
    ensures MaskedSum(columns, values, a) == MaskedSum(columns, values, b)
  {
    if |columns| > 0 {
      assert Elements(columns[1..]) <= Elements(columns);
      MaskedSumMonotone(columns[1..], values[1..], a, b);
    }
  }

  /**
    The rows of the binary matrix count, within any set of columns, the
    chosen products their session interacted with.
   */
  lemma BinaryRowOverlap(events: seq<PreparedEvent>, i: nat, chosen: set<ProductId>)
    requires i < |BinaryMatrix(events).rows|
    ensures var m := BinaryMatrix(events);
      MaskedSum(m.columns, m.rows[i].values, chosen) ==
      |chosen * SessionProducts(events, m.rows[i].session)|
  {
    var m := BinaryMatrix(events);
    var s := m.rows[i].session;
    var marked := SessionProducts(events, s);
    forall j | 0 <= j < |m.columns|
      ensures m.rows[i].values[j] == if m.columns[j] in marked then 1 else 0
    {
      PairCountMeaning(events, s, m.columns[j]);
    }
    IndicatorMaskedSum(m.columns, m.rows[i].values, chosen, marked);
    forall p | p in marked ensures p in Elements(m.columns) {
      var k :| 0 <= k < |events| && events[k].session == s && events[k].product == p;
    }
    assert Elements(m.columns) * chosen * marked == chosen * marked;
  }

  /** The rows handed to Apriori: sessions with more than one product, all columns kept. */
  function MiningInput(m: Matrix<nat>): (r: Matrix<nat>)
    ensures r.columns == m.columns
    ensures forall row :: row in r.rows <==> row in m.rows && Sum(row.values) > 1
  {
    Matrix(m.columns, Filter(m.rows, (row: Row<nat>) => Sum(row.values) > 1))
  }

  /** A binary row sums to the number of distinct products of its session. */
  lemma BinaryRowSum(events: seq<PreparedEvent>, i: nat)
    requires i < |BinaryMatrix(events).rows|
    ensures Sum(BinaryMatrix(events).rows[i].values) ==
            |SessionProducts(events, BinaryMatrix(events).rows[i].session)|
  {
    var m := BinaryMatrix(events);
    var s := m.rows[i].session;
    var marked := SessionProducts(events, s);
    BinaryRowOverlap(events, i, Elements(m.columns));
    MaskedSumOfAllColumns(m.columns, m.rows[i].values);
    forall q | q in marked ensures q in Elements(m.columns) {
      var k :| 0 <= k < |events| && events[k].session == s && events[k].product == q;
    }
    assert Elements(m.columns) * marked == marked;
  }

  lemma KeptSessionIsMultiProduct(events: seq<PreparedEvent>, s: SessionId)
    requires s in RowSessions(MiningInput(BinaryMatrix(events)))
    ensures |SessionProducts(events, s)| > 1
  {
    var m := BinaryMatrix(events);
    var kept := MiningInput(m);
    var i' :| 0 <= i' < |kept.rows| && kept.rows[i'].session == s;
    var row := kept.rows[i'];
    assert row in m.rows;
    var i :| 0 <= i < |m.rows| && m.rows[i] == row;
    BinaryRowSum(events, i);
  }

  /** A session that touched some product has a row in the binary matrix. */
  lemma SessionRow(events: seq<PreparedEvent>, s: SessionId) returns (i: nat)
    requires |SessionProducts(events, s)| > 0
    ensures i < |BinaryMatrix(events).rows| && BinaryMatrix(events).rows[i].session == s
  {
    var m := BinaryMatrix(events);
    var p :| p in SessionProducts(events, s);
    var k :| 0 <= k < |events| && events[k].session == s && events[k].product == p;
    assert s in RowSessions(m);
    i :| 0 <= i < |m.rows| && RowSessions(m)[i] == s;
  }

  lemma MultiProductSessionIsKept(events: seq<PreparedEvent>, s: SessionId)
    requires |SessionProducts(events, s)| > 1
    ensures s in RowSessions(MiningInput(BinaryMatrix(events)))
  {
    var m := BinaryMatrix(events);
    var kept := MiningInput(m);
    var i := SessionRow(events, s);
    BinaryRowSum(events, i);
    assert m.rows[i] in kept.rows;
    var i' :| 0 <= i' < |kept.rows| && kept.rows[i'] == m.rows[i];
    assert RowSessions(kept)[i'] == s;
  }

  /** Built from events, the mining input keeps exactly the sessions that touched two or more products. */
  lemma MiningKeepsMultiProductSessions(events: seq<PreparedEvent>, s: SessionId)
    ensures s in RowSessions(MiningInput(BinaryMatrix(events))) <==> |SessionProducts(events, s)| > 1
  {
    if s in RowSessions(MiningInput(BinaryMatrix(events))) {
      KeptSessionIsMultiProduct(events, s);
    }
    if |SessionProducts(events, s)| > 1 {
      MultiProductSessionIsKept(events, s);
    }
  }
}
