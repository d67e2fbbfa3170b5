/** ensure_mrr_arr: "Real MRR €" filled in from the best available source,
    and "ARR" from it when the sheet has no ARR column. */
module Revenue {
  import opened Wrappers
  import opened DataTable

  /** Where a row's MRR comes from, in order of priority. */
  datatype MrrSource = ExistingColumn | CalculatedColumn | PriceTimesActive | DefaultZero

  /** The first source that applies: an existing "Real MRR €" column, else
      "MRR Calculated €", else price times active customers when there is a
      price table and an active column, else 0. */
  function MrrSourceOf(s: Schema, price: map<string, Option<real>>): MrrSource {
    if s.realMrr then ExistingColumn
    else if s.mrrCalculated then CalculatedColumn
    else if |price| > 0 && s.active then PriceTimesActive
    else DefaultZero
  }

  /** df["Plan"].map(price_map).fillna(0): the plan's price, 0 for a plan not
      in the table or with a blank price. */
  function PriceOf(price: map<string, Option<real>>, plan: string): real {
    if plan in price && price[plan].Some? then price[plan].value else 0.0
  }

  /** Multiplication by 12 that keeps a blank cell blank. */
  function Annualized(mrr: Option<real>): Option<real> {
    match mrr
    case Some(m) => Some(m * 12.0)
    case None => None
  }

  function MrrOf(src: MrrSource, price: map<string, Option<real>>, r: Row): Option<real> {
    match src
    case ExistingColumn => r.realMrr
    case CalculatedColumn => r.mrrCalculated
    case PriceTimesActive => Some(PriceOf(price, r.plan) * r.active as real)
    case DefaultZero => Some(0.0)
  }

  /** The table ensure_mrr_arr returns: both columns are present afterwards;
      nothing else changes. */
  function EnsureMrrArr(t: Table, price: map<string, Option<real>>): (r: Table)
    ensures r.schema == t.schema.(realMrr := true, arr := true)
    ensures |r.rows| == |t.rows|
    ensures forall i :: 0 <= i < |t.rows| ==>
      r.rows[i] == t.rows[i].(realMrr := r.rows[i].realMrr, arr := r.rows[i].arr)
    ensures forall i :: 0 <= i < |t.rows| ==>
      r.rows[i].realMrr == MrrOf(MrrSourceOf(t.schema, price), price, t.rows[i])
    ensures forall i :: 0 <= i < |t.rows| ==>
      r.rows[i].arr == if t.schema.arr then t.rows[i].arr else Annualized(r.rows[i].realMrr)
  {
    var src := MrrSourceOf(t.schema, price);
    Table(t.schema.(realMrr := true, arr := true),
          seq(|t.rows|, i requires 0 <= i < |t.rows| =>
            var mrr := MrrOf(src, price, t.rows[i]);
            t.rows[i].(realMrr := mrr, arr := if t.schema.arr then t.rows[i].arr else Annualized(mrr))))
  }

  /** An existing MRR column is never overridden, and the calculated column
      is preferred to the price table. */
  lemma MrrPriority(t: Table, price: map<string, Option<real>>, i: nat)
    requires i < |t.rows|
    ensures t.schema.realMrr ==> EnsureMrrArr(t, price).rows[i].realMrr == t.rows[i].realMrr
    ensures !t.schema.realMrr && t.schema.mrrCalculated ==>
      EnsureMrrArr(t, price).rows[i].realMrr == t.rows[i].mrrCalculated
    ensures !t.schema.realMrr && !t.schema.mrrCalculated && |price| > 0 && t.schema.active ==>
      EnsureMrrArr(t, price).rows[i].realMrr == Some(PriceOf(price, t.rows[i].plan) * t.rows[i].active as real)
    ensures !t.schema.realMrr && !t.schema.mrrCalculated && (|price| == 0 || !t.schema.active) ==>
      EnsureMrrArr(t, price).rows[i].realMrr == Some(0.0)
  {
    var mrr := EnsureMrrArr(t, price).rows[i].realMrr;
    assert mrr == MrrOf(MrrSourceOf(t.schema, price), price, t.rows[i]);
  }

  /** Without an ARR column, every row's ARR is exactly 12 times its MRR. */
  lemma ArrIsTwelveMrr(t: Table, price: map<string, Option<real>>, i: nat)
    requires i < |t.rows| && !t.schema.arr
    ensures var r := EnsureMrrArr(t, price).rows[i];
      (r.arr.Some? <==> r.realMrr.Some?) && (r.arr.Some? ==> r.arr.value == 12.0 * r.realMrr.value)
  {
  }

  /** An ARR column already in the sheet is kept as it is, even when it
      disagrees with 12 times the MRR. */
  lemma ExistingArrKept(r: Row)
    requires r.realMrr == Some(100.0) && r.arr == Some(5.0)
    ensures var s := Schema(true, true, true, true, false, true, false, false);
      var out := EnsureMrrArr(Table(s, [r]), map[]).rows[0];
      out.realMrr == Some(100.0) && out.arr == Some(5.0)
  {
  }
}
