/** The per-row metrics: ARPA, logo churn, gross margin, LTV, CAC and
    LTV/CAC, plus safe_last. Blank and undefined values are None. */
module Metrics {
  import opened Wrappers
  import opened DataTable
  import opened Prices

  /** compute_arpa: MRR per active customer; 0 (never blank) when there are
      no active customers or the MRR cell is blank. */
  function Arpa(mrr: Option<real>, active: int): (r: real)
    ensures active != 0 && mrr.Some? ==> r * active as real == mrr.value
    ensures active == 0 || mrr.None? ==> r == 0.0
  {
    if active == 0 || mrr.None? then 0.0 else mrr.value / active as real
  }

  /** Customers at the start of the period: active - new + lost, at least 0. */
  function ActiveStart(active: int, newCustomers: int, lost: int): (n: nat)
    ensures n >= active - newCustomers + lost
    ensures active - newCustomers + lost >= 0 ==> n == active - newCustomers + lost
    ensures active - newCustomers + lost < 0 ==> n == 0
  {
    if active - newCustomers + lost < 0 then 0 else active - newCustomers + lost
  }

  /** clip(lower=0, upper=1) */
  function Clamp01(x: real): (r: real)
    ensures 0.0 <= r <= 1.0
    ensures 0.0 <= x <= 1.0 ==> r == x
    ensures x < 0.0 ==> r == 0.0
    ensures x > 1.0 ==> r == 1.0
  {
    if x < 0.0 then 0.0 else if x > 1.0 then 1.0 else x
  }

  /** compute_logo_churn for one row: lost over the start count, 0 when the
      start count is 0, clipped to [0, 1]. */
  function LogoChurn(active: int, newCustomers: int, lost: int): (r: real)
    ensures 0.0 <= r <= 1.0
    ensures ActiveStart(active, newCustomers, lost) == 0 ==> r == 0.0
    ensures 0 <= lost <= ActiveStart(active, newCustomers, lost) && ActiveStart(active, newCustomers, lost) > 0 ==>
      r * ActiveStart(active, newCustomers, lost) as real == lost as real
    ensures lost > ActiveStart(active, newCustomers, lost) > 0 ==> r == 1.0
    ensures lost <= 0 ==> r == 0.0
  {
    var start := ActiveStart(active, newCustomers, lost);
    if start == 0 then 0.0 else Clamp01(lost as real / start as real)
  }

  /** The churn is 0 exactly when nobody was lost or nobody was there to
      lose. */
  lemma ChurnZeroIff(active: int, newCustomers: int, lost: int)
    ensures LogoChurn(active, newCustomers, lost) == 0.0 <==>
      lost <= 0 || ActiveStart(active, newCustomers, lost) == 0
  {
    var start := ActiveStart(active, newCustomers, lost);
    if lost > 0 && start > 0 {
      assert lost as real / start as real > 0.0;
    }
  }

  const DefaultMargin: real := 0.80

  /** compute_gross_margin_per_row: the plan's margin from the price table,
      else 0.80; normalized once more (above 1 means percent) and clipped. */
  function GrossMarginUsed(margin: map<string, Option<real>>, plan: string): (r: real)
    ensures 0.0 <= r <= 1.0
    ensures (plan !in margin || margin[plan].None?) ==> r == DefaultMargin
  {
    var raw := if |margin| > 0 && plan in margin && margin[plan].Some? then margin[plan].value else DefaultMargin;
    Clamp01(NormalizeMargin(raw))
  }

  /** The margin read from the Prices sheet is normalized twice, once when
      the table is built and once per row. For a raw value up to 100 this is
      the single normalization, so 45 and 0.45 both give 0.45. */
  lemma {:induction false} MarginFromSheet(s: PriceSchema, rows: seq<PriceRow>, i: nat, x: real)
    requires s.plan && MarginColumn(s).Some?
    requires i < |rows|
    requires forall j :: i < j < |rows| ==> rows[j].plan != rows[i].plan
    requires Cell(rows[i], MarginColumn(s).value) == Some(x)
    requires x <= 100.0
    ensures GrossMarginUsed(BuildPriceMaps(s, rows).margin, rows[i].plan) == Clamp01(NormalizeMargin(x))
  {
    var m := BuildPriceMaps(s, rows).margin;
    MarginOfLastRow(s, rows, i);
    assert rows[i].plan in m;
    assert |m| > 0;
  }

  /** 45 (percent) and 0.45 give the same margin. */
  lemma PercentAndFraction(plan: string)
    ensures GrossMarginUsed(map[plan := Some(45.0)], plan) == 0.45
    ensures GrossMarginUsed(map[plan := Some(0.45)], plan) == 0.45
  {
  }

  /** Above 100 the two passes differ from one: 250 becomes 0.025, where a
      single pass and the clip would give 1. */
  lemma DoubleNormalizationAbove100()
    ensures NormalizeMargin(NormalizeMargin(250.0)) == 0.025
    ensures Clamp01(NormalizeMargin(250.0)) == 1.0
  {
  }

  /** LTV (monthly) = ARPA * margin / churn, blank when the churn is 0. */
  function Ltv(arpa: real, margin: real, churn: real): (r: Option<real>)
    ensures r.None? <==> churn == 0.0
    ensures r.Some? ==> r.value * churn == arpa * margin
  {
    if churn == 0.0 then None else Some(arpa * margin / churn)
  }

  /** compute_cac_series for one row: the "CAC (optional €)" column when the
      sheet has it; otherwise spend over new customers, blank when there is
      no spend or no new customer. */
  function Cac(s: Schema, r: Row): (c: Option<real>)
    ensures s.cac ==> c == r.cac
    ensures !s.cac && NewCustomers(s, r) == 0 ==> c.None?
    ensures !s.cac && !s.spend ==> c.None?
    ensures !s.cac && s.spend && r.spend.None? ==> c.None?
    ensures !s.cac && s.spend && r.spend.Some? && NewCustomers(s, r) != 0 ==>
      c.Some? && c.value * NewCustomers(s, r) as real == r.spend.value
  {
    if s.cac then r.cac
    else
      var spend := if s.spend then r.spend else None;
      var n := NewCustomers(s, r);
      if spend.None? || n == 0 then None else Some(spend.value / n as real)
  }

  /** The LTV/CAC rule, per row and for the blended KPI: present only when
      both are present and CAC is positive. */
  function LtvCacRatio(ltv: Option<real>, cac: Option<real>): (r: Option<real>)
    ensures r.Some? <==> ltv.Some? && cac.Some? && cac.value > 0.0
    ensures r.Some? ==> r.value * cac.value == ltv.value
  {
    if ltv.Some? && cac.Some? && cac.value > 0.0 then Some(ltv.value / cac.value) else None
  }

  /** The columns the metric steps add to a row. */
  datatype RowMetrics = RowMetrics(
    arpa: real,
    churn: real,
    margin: real,
    ltv: Option<real>,
    cac: Option<real>,
    ltvToCac: Option<real>)

  /** All metric columns of one row, in the order the pipeline adds them. */
  function MetricsOf(s: Schema, margins: map<string, Option<real>>, r: Row): (m: RowMetrics)
    ensures 0.0 <= m.churn <= 1.0 && 0.0 <= m.margin <= 1.0
    ensures m.ltv.None? <==> m.churn == 0.0
    ensures m.ltvToCac.Some? <==> m.ltv.Some? && m.cac.Some? && m.cac.value > 0.0
    ensures r.active != 0 && r.realMrr.Some? ==> m.arpa * r.active as real == r.realMrr.value
  {
    var arpa := Arpa(r.realMrr, r.active);
    var churn := LogoChurn(r.active, NewCustomers(s, r), LostCustomers(s, r));
    var margin := GrossMarginUsed(margins, r.plan);
    var ltv := Ltv(arpa, margin, churn);
    var cac := Cac(s, r);
    RowMetrics(arpa, churn, margin, ltv, cac, LtvCacRatio(ltv, cac))
  }

  /** safe_last: the last cell of a column, or the default when the column
      is absent or empty or its last cell is blank. */
  function SafeLast<T>(column: Option<seq<Option<T>>>, default: T): (r: T)
    ensures column.None? || column.value == [] ==> r == default
    ensures column.Some? && column.value != [] && column.value[|column.value| - 1].None? ==> r == default
    ensures column.Some? && column.value != [] && column.value[|column.value| - 1].Some? ==>
      r == column.value[|column.value| - 1].value
  {
    if column.None? || column.value == [] then default
    else column.value[|column.value| - 1].GetOr(default)
  }
}
