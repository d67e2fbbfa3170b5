/** build_prices_maps: per-plan lookups of the monthly price and the gross
    margin, read from the optional Prices sheet. */
module Prices {
  import opened Wrappers

  /** One row of the Prices sheet; a blank cell is None (NaN). */
  datatype PriceRow = PriceRow(
    plan: string,
    price: Option<real>,
    grossMarginPercent: Option<real>,
    grossMargin: Option<real>)

  /** Which of "Plan", "Price MRR €", "Gross Margin %" and "Gross Margin"
      the Prices sheet has. */
  datatype PriceSchema = PriceSchema(plan: bool, price: bool, grossMarginPercent: bool, grossMargin: bool)

  function PriceSchemaOf(headers: seq<string>): PriceSchema {
    PriceSchema("Plan" in headers, "Price MRR €" in headers, "Gross Margin %" in headers, "Gross Margin" in headers)
  }

  datatype PriceColumn = PriceMrr | GrossMarginPercent | GrossMargin

  function Cell(r: PriceRow, c: PriceColumn): Option<real> {
    match c
    case PriceMrr => r.price
    case GrossMarginPercent => r.grossMarginPercent
    case GrossMargin => r.grossMargin
  }

  /** set_index("Plan")[c].to_dict(): one entry per plan; when a plan has
      several rows, the last one is kept. */
  function ColumnByPlan(rows: seq<PriceRow>, c: PriceColumn): (m: map<string, Option<real>>)
    ensures forall p :: p in m <==> exists i :: 0 <= i < |rows| && rows[i].plan == p
  {
    if rows == [] then map[]
    else
      var m := ColumnByPlan(rows[..|rows| - 1], c);
      assert forall i :: 0 <= i < |rows| - 1 ==> rows[..|rows| - 1][i] == rows[i];
      m[rows[|rows| - 1].plan := Cell(rows[|rows| - 1], c)]
  }

  /** The entry of a plan is the cell of that plan's last row. */
  lemma {:induction false} ColumnByPlanLastRow(rows: seq<PriceRow>, c: PriceColumn, i: nat)
    requires i < |rows|
    requires forall j :: i < j < |rows| ==> rows[j].plan != rows[i].plan
    ensures ColumnByPlan(rows, c)[rows[i].plan] == Cell(rows[i], c)
  {
    if i < |rows| - 1 {
      var init := rows[..|rows| - 1];
      assert init[i] == rows[i];
      forall j | i < j < |init| ensures init[j].plan != init[i].plan {
        assert init[j] == rows[j];
      }
      ColumnByPlanLastRow(init, c, i);
    }
  }

  /** "Accepts 0-1 or 0-100": a margin above 1 is a percentage. */
  function NormalizeMargin(x: real): (r: real)
    ensures x <= 1.0 ==> r == x
    ensures x > 1.0 ==> r * 100.0 == x
    ensures x <= 100.0 ==> r <= 1.0
    ensures x >= 0.0 ==> r >= 0.0
  {
    if x > 1.0 then x / 100.0 else x
  }

  function NormalizeCell(x: Option<real>): Option<real> {
    match x
    case Some(v) => Some(NormalizeMargin(v))
    case None => None
  }

  datatype PriceMaps = PriceMaps(price: map<string, Option<real>>, margin: map<string, Option<real>>)

  /** The margin column used: "Gross Margin %" first, else "Gross Margin". */
  function MarginColumn(s: PriceSchema): (c: Option<PriceColumn>)
    ensures s.grossMarginPercent ==> c == Some(GrossMarginPercent)
    ensures !s.grossMarginPercent && s.grossMargin ==> c == Some(GrossMargin)
    ensures c.None? <==> !s.grossMarginPercent && !s.grossMargin
  {
    if s.grossMarginPercent then Some(GrossMarginPercent)
    else if s.grossMargin then Some(GrossMargin)
    else None
  }

  /** build_prices_maps on the normalized Prices sheet. */
  function BuildPriceMaps(s: PriceSchema, rows: seq<PriceRow>): (m: PriceMaps)
    ensures (|rows| == 0 || !s.plan) ==> m == PriceMaps(map[], map[])
    ensures |rows| > 0 && s.plan && s.price ==>
      forall p :: p in m.price <==> exists i :: 0 <= i < |rows| && rows[i].plan == p
    ensures !s.price ==> m.price == map[]
    ensures MarginColumn(s).None? ==> m.margin == map[]
    ensures |rows| > 0 && s.plan && MarginColumn(s).Some? ==>
      forall p :: p in m.margin <==> exists i :: 0 <= i < |rows| && rows[i].plan == p
  {
    if |rows| == 0 || !s.plan then PriceMaps(map[], map[])
    else
      var price := if s.price then ColumnByPlan(rows, PriceMrr) else map[];
      var margin :=
        match MarginColumn(s)
        case Some(c) =>
          var raw := ColumnByPlan(rows, c);
          map p | p in raw :: NormalizeCell(raw[p])
        case None => map[];
      PriceMaps(price, margin)
  }

  /** The margin looked up for a plan is the normalized margin cell of the
      plan's last row in the Prices sheet. */
  lemma MarginOfLastRow(s: PriceSchema, rows: seq<PriceRow>, i: nat)
    requires s.plan && MarginColumn(s).Some?
    requires i < |rows|
    requires forall j :: i < j < |rows| ==> rows[j].plan != rows[i].plan
    ensures BuildPriceMaps(s, rows).margin[rows[i].plan] == NormalizeCell(Cell(rows[i], MarginColumn(s).value))
  {
    ColumnByPlanLastRow(rows, MarginColumn(s).value, i);
  }

  /** Likewise for the price. */
  lemma PriceOfLastRow(s: PriceSchema, rows: seq<PriceRow>, i: nat)
    requires s.plan && s.price
    requires i < |rows|
    requires forall j :: i < j < |rows| ==> rows[j].plan != rows[i].plan
    ensures BuildPriceMaps(s, rows).price[rows[i].plan] == rows[i].price
  {
    ColumnByPlanLastRow(rows, PriceMrr, i);
  }
}
