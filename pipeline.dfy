/** The top-level derivation: the Data and Prices sheets in, the Data table
    with every derived column out, or the list of missing required columns. */
module Pipeline {
  import opened Wrappers
  import opened Headers
  import opened DataTable
  import opened Backfill
  import opened Prices
  import opened Revenue
  import opened Metrics

  /** The Data table after the MRR/ARR step, and the metric columns added to
      each of its rows. */
  datatype Augmented = Augmented(table: Table, metrics: seq<RowMetrics>)

  function DeriveMetrics(t: Table, margins: map<string, Option<real>>): (m: seq<RowMetrics>)
    ensures |m| == |t.rows|
    ensures forall i :: 0 <= i < |t.rows| ==> m[i] == MetricsOf(t.schema, margins, t.rows[i])
  {
    seq(|t.rows|, i requires 0 <= i < |t.rows| => MetricsOf(t.schema, margins, t.rows[i]))
  }

  /** What the pipeline produces from the two sheets. The Data rows arrive
      with their dates parsed and sorted by (plan, date). */
  function PipelineResult(data: Option<Sheet<Row>>, prices: Option<Sheet<PriceRow>>): Result<Augmented, seq<string>> {
    var d := NormalizedSheet(data);
    var p := NormalizedSheet(prices);
    var miss := MissingRequired(d.headers);
    if miss != [] then Failure(miss)
    else
      var t1 := ActiveBackfilled(Table(SchemaOf(d.headers), d.rows));
      var maps := BuildPriceMaps(PriceSchemaOf(p.headers), p.rows);
      var t2 := EnsureMrrArr(t1, maps.price);
      Success(Augmented(t2, DeriveMetrics(t2, maps.margin)))
  }

  /** The script's main line: each step replaces the Data table with one that
      has more columns. */
  method RunPipeline(data: Option<Sheet<Row>>, prices: Option<Sheet<PriceRow>>) returns (res: Result<Augmented, seq<string>>)
    ensures res == PipelineResult(data, prices)
  {
    var d := NormalizeCols(data);
    var p := NormalizeCols(prices);
    var miss := MissingRequired(d.headers);
    if miss != [] {
      return Failure(miss);
    }
    var t := Table(SchemaOf(d.headers), d.rows);
    t := EnsureActiveCustomers(t);
    var maps := BuildPriceMaps(PriceSchemaOf(p.headers), p.rows);
    t := EnsureMrrArr(t, maps.price);
    var metrics := DeriveMetrics(t, maps.margin);
    res := Success(Augmented(t, metrics));
  }

  /** What every run guarantees: it stops exactly when a required column is
      missing, naming those columns; otherwise every row has a non-negative
      backfilled count (when it was backfilled), ARR = 12 x MRR (when the
      sheet had no ARR), churn and margin in [0, 1], LTV blank exactly when
      churn is 0, and LTV/CAC present exactly when both are present and CAC
      is positive. */
  lemma {:induction false} PipelineGuarantees(data: Option<Sheet<Row>>, prices: Option<Sheet<PriceRow>>)
    ensures var headers := NormalizedSheet(data).headers;
      var res := PipelineResult(data, prices);
      && (res.Failure? <==> exists c :: c in Required && c !in headers)
      && (res.Failure? ==> forall c :: c in res.error <==> c in Required && c !in headers)
      && (res.Success? ==>
            var t := res.value.table;
            var m := res.value.metrics;
            && |t.rows| == |m| == |NormalizedSheet(data).rows|
            && t.schema.active && t.schema.realMrr && t.schema.arr
            && forall i :: 0 <= i < |t.rows| ==>
                 && (!SchemaOf(headers).active ==> t.rows[i].active >= 0)
                 && (!SchemaOf(headers).arr ==> t.rows[i].arr == Annualized(t.rows[i].realMrr))
                 && 0.0 <= m[i].churn <= 1.0
                 && 0.0 <= m[i].margin <= 1.0
                 && (m[i].ltv.None? <==> m[i].churn == 0.0)
                 && (m[i].ltvToCac.Some? <==> m[i].ltv.Some? && m[i].cac.Some? && m[i].cac.value > 0.0))
  {
    var d := NormalizedSheet(data);
    var res := PipelineResult(data, prices);
    if res.Success? {
      var t0 := Table(SchemaOf(d.headers), d.rows);
      var maps := BuildPriceMaps(PriceSchemaOf(NormalizedSheet(prices).headers), NormalizedSheet(prices).rows);
      StagesKeepGuarantees(t0, maps);
      assert res.value == Augmented(EnsureMrrArr(ActiveBackfilled(t0), maps.price),
        DeriveMetrics(EnsureMrrArr(ActiveBackfilled(t0), maps.price), maps.margin));
    }
  }

  /** The per-row half of PipelineGuarantees, for any table and price maps:
      the backfill, MRR/ARR and metric steps one after another. */
  lemma StagesKeepGuarantees(t0: Table, maps: PriceMaps)
    ensures var t := EnsureMrrArr(ActiveBackfilled(t0), maps.price);
      var m := DeriveMetrics(t, maps.margin);
      && |t.rows| == |m| == |t0.rows|
      && t.schema.active && t.schema.realMrr && t.schema.arr
      && forall i :: 0 <= i < |t.rows| ==>
           && (!t0.schema.active ==> t.rows[i].active >= 0)
           && (!t0.schema.arr ==> t.rows[i].arr == Annualized(t.rows[i].realMrr))
           && 0.0 <= m[i].churn <= 1.0
           && 0.0 <= m[i].margin <= 1.0
           && (m[i].ltv.None? <==> m[i].churn == 0.0)
           && (m[i].ltvToCac.Some? <==> m[i].ltv.Some? && m[i].cac.Some? && m[i].cac.value > 0.0)
  {
    var t1 := ActiveBackfilled(t0);
    var t2 := EnsureMrrArr(t1, maps.price);
    forall i | 0 <= i < |t2.rows|
      ensures !t0.schema.active ==> t2.rows[i].active >= 0
      ensures !t0.schema.arr ==> t2.rows[i].arr == Annualized(t2.rows[i].realMrr)
    {
      assert t2.rows[i].active == t1.rows[i].active;
    }
  }

  /** A run that does not stop has at least one row, one set of metric
      columns per row and, when it backfilled the active counts, none of
      them negative. */
  lemma RunHasRows(data: Option<Sheet<Row>>, prices: Option<Sheet<PriceRow>>)
    requires PipelineResult(data, prices).Success?
    ensures var a := PipelineResult(data, prices).value;
      && |a.table.rows| > 0 && |a.metrics| == |a.table.rows|
      && (!SchemaOf(NormalizedSheet(data).headers).active ==>
            forall i :: 0 <= i < |a.table.rows| ==> a.table.rows[i].active >= 0)
  {
    PipelineGuarantees(data, prices);
    assert "Date" in Required;
  }

  /** The worked example: plan A with (new 10, lost 0) then (new 5, lost 2),
      no active column, price 50 and margin 0.8 in the Prices sheet: 10 and
      13 active customers, MRR 500 and 650, ARR 6000 and 7800. */
  lemma WorkedExample(r1: Row, r2: Row)
    requires r1.plan == "A" && r2.plan == "A"
    requires r1.newCustomers == 10 && r1.lostCustomers == 0
    requires r2.newCustomers == 5 && r2.lostCustomers == 2
    ensures var s := Schema(true, true, false, false, false, false, false, false);
      var maps := BuildPriceMaps(PriceSchema(true, true, false, true), [PriceRow("A", Some(50.0), None, Some(0.8))]);
      var t := EnsureMrrArr(ActiveBackfilled(Table(s, [r1, r2])), maps.price);
      && t.rows[0].active == 10 && t.rows[1].active == 13
      && t.rows[0].realMrr == Some(500.0) && t.rows[1].realMrr == Some(650.0)
      && t.rows[0].arr == Some(6000.0) && t.rows[1].arr == Some(7800.0)
  {
    var s := Schema(true, true, false, false, false, false, false, false);
    TwoMonthExample(s, r1, r2);
    var prow := PriceRow("A", Some(50.0), None, Some(0.8));
    var maps := BuildPriceMaps(PriceSchema(true, true, false, true), [prow]);
    PriceOfLastRow(PriceSchema(true, true, false, true), [prow], 0);
    assert "A" in maps.price;
    assert PriceOf(maps.price, "A") == 50.0;
  }

  /** An absent or empty Data sheet stops the pipeline with all four
      required columns reported. */
  lemma EmptyDataStops(data: Option<Sheet<Row>>, prices: Option<Sheet<PriceRow>>)
    requires data.None? || IsEmptyFrame(data.value)
    ensures PipelineResult(data, prices) == Failure(Required)
  {
    EmptySheetMissesAll(data);
  }
}
