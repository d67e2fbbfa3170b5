/** The headline KPIs over a (filtered) augmented table: totals at the
    latest date, MRR-weighted LTV, new-customer-weighted CAC and the blended
    LTV/CAC ratio. */
module Kpi {
  import opened Wrappers
  import opened DataTable
  import opened Metrics
  import opened Headers
  import opened Prices
  import opened Pipeline

  /** A row of the augmented table with its metric columns. */
  datatype Line = Line(row: Row, m: RowMetrics)

  /** The latest date of a non-empty table. */
  function LastDate(lines: seq<Line>): (d: Date)
    requires |lines| > 0
    ensures exists i :: 0 <= i < |lines| && lines[i].row.date == d
    ensures forall i :: 0 <= i < |lines| ==> lines[i].row.date <= d
  {
    if |lines| == 1 then lines[0].row.date
    else
      var rest := LastDate(lines[1..]);
      assert forall i :: 1 <= i < |lines| ==> lines[i] == lines[1..][i - 1];
      if lines[0].row.date >= rest then lines[0].row.date else rest
  }

  /** kpi_src[kpi_src["Date"] == d]: the rows at date `d`, in order. */
  function AtDate(lines: seq<Line>, d: Date): (r: seq<Line>)
    ensures forall l :: l in r <==> l in lines && l.row.date == d
    ensures |r| <= |lines|
  {
    if lines == [] then []
    else (if lines[0].row.date == d then [lines[0]] else []) + AtDate(lines[1..], d)
  }

  /** The filter is exact: a single row is kept exactly when it has the
      date ... */
  lemma AtDateOne(l: Line, d: Date)
    ensures AtDate([l], d) == (if l.row.date == d then [l] else [])
  {
    assert [l][1..] == [];
  }

  /** ... and filtering a concatenation filters each part in order. */
  lemma {:induction false} AtDateSplit(a: seq<Line>, b: seq<Line>, d: Date)
    ensures AtDate(a + b, d) == AtDate(a, d) + AtDate(b, d)
  {
    if a == [] {
      assert a + b == b;
    } else {
      var head := if a[0].row.date == d then [a[0]] else [];
      assert (a + b)[0] == a[0];
      assert (a + b)[1..] == a[1..] + b;
      AtDateSplit(a[1..], b, d);
      assert AtDate(a + b, d) == head + (AtDate(a[1..], d) + AtDate(b, d));
      assert AtDate(a, d) == head + AtDate(a[1..], d);
      Associative(head, AtDate(a[1..], d), AtDate(b, d));
    }
  }

  lemma Associative(x: seq<Line>, y: seq<Line>, z: seq<Line>)
    ensures x + (y + z) == x + y + z
  {
  }

  /** last["Active Customers"].sum() */
  function TotalActive(ls: seq<Line>): (t: int)
    ensures (forall i :: 0 <= i < |ls| ==> ls[i].row.active >= 0) ==> t >= 0
  {
    if ls == [] then 0 else ls[0].row.active + TotalActive(ls[1..])
  }

  /** last["Real MRR €"].sum(), skipping blank cells as pandas does. */
  function TotalMrr(ls: seq<Line>): (t: real)
    ensures (forall i :: 0 <= i < |ls| ==> ls[i].row.realMrr.None?) ==> t == 0.0
    ensures (forall i :: 0 <= i < |ls| ==> ls[i].row.realMrr.GetOr(0.0) >= 0.0) ==> t >= 0.0
  {
    if ls == [] then 0.0 else ls[0].row.realMrr.GetOr(0.0) + TotalMrr(ls[1..])
  }

  // ---------------------------------------------------------------------
  // Weighted means as the script computes them
  // ---------------------------------------------------------------------

  /** What a call to numpy's average either returns or does: raise. */
  datatype Outcome = Value(v: Option<real>) | Raises

  function SumOf(w: seq<real>): real {
    if w == [] then 0.0 else w[0] + SumOf(w[1..])
  }

  function Dot(a: seq<real>, w: seq<real>): real
    requires |a| == |w|
  {
    if a == [] then 0.0 else a[0] * w[0] + Dot(a[1..], w[1..])
  }

  /** The weights with no blank among them, or None. */
  function AllPresent(w: seq<Option<real>>): (r: Option<seq<real>>)
    ensures r.Some? ==> |r.value| == |w| && forall i :: 0 <= i < |w| ==> w[i] == Some(r.value[i])
    ensures r.None? ==> exists i :: 0 <= i < |w| && w[i].None?
  {
    if w == [] then Some([])
    else if w[0].None? then None
    else match AllPresent(w[1..])
      case None => None
      case Some(rest) => Some([w[0].value] + rest)
  }

  /** np.average(a, weights=w): raises when the two have different lengths
      or when the weights sum to 0; a blank weight makes the result blank. */
  function NpAverage(a: seq<real>, w: seq<Option<real>>): (r: Outcome)
    ensures |a| != |w| ==> r == Raises
  {
    if |a| != |w| then Raises
    else match AllPresent(w)
      case None => Value(None)
      case Some(ws) => if SumOf(ws) == 0.0 then Raises else Value(Some(Dot(a, ws) / SumOf(ws)))
  }

  function PresentLtvs(ls: seq<Line>): (r: seq<real>)
    ensures |r| <= |ls|
  {
    if ls == [] then []
    else (if ls[0].m.ltv.Some? then [ls[0].m.ltv.value] else []) + PresentLtvs(ls[1..])
  }

  function PresentCacs(ls: seq<Line>): (r: seq<real>)
    ensures |r| <= |ls|
  {
    if ls == [] then []
    else (if ls[0].m.cac.Some? then [ls[0].m.cac.value] else []) + PresentCacs(ls[1..])
  }

  /** The MRR column of the rows, blanks included. */
  function MrrWeights(ls: seq<Line>): (w: seq<Option<real>>)
    ensures |w| == |ls|
  {
    if ls == [] then [] else [ls[0].row.realMrr] + MrrWeights(ls[1..])
  }

  /** The new-customer column of the rows, as floats. */
  function NewWeights(ls: seq<Line>): (w: seq<real>)
    ensures |w| == |ls|
  {
    if ls == [] then [] else [ls[0].row.newCustomers as real] + NewWeights(ls[1..])
  }

  function Present(w: seq<real>): (r: seq<Option<real>>)
    ensures |r| == |w|
  {
    if w == [] then [] else [Some(w[0])] + Present(w[1..])
  }

  /** The LTV average as written: the present LTVs against the MRR of every
      row at the date. With no LTV it is blank; with some but not all rows
      having one, the lengths differ and numpy raises. */
  function LtvMeanAsWritten(ls: seq<Line>): (r: Outcome)
    ensures PresentLtvs(ls) == [] ==> r == Value(None)
    ensures PresentLtvs(ls) != [] && |PresentLtvs(ls)| < |ls| ==> r == Raises
  {
    if PresentLtvs(ls) == [] then Value(None)
    else NpAverage(PresentLtvs(ls), MrrWeights(ls))
  }

  /** The CAC average as written: the present CACs against the new customers
      of every row, when some CAC is present and the new customers sum above 0. */
  function CacMeanAsWritten(ls: seq<Line>): (r: Outcome)
    ensures PresentCacs(ls) == [] || SumOf(NewWeights(ls)) <= 0.0 ==> r == Value(None)
    ensures PresentCacs(ls) != [] && SumOf(NewWeights(ls)) > 0.0 && |PresentCacs(ls)| < |ls| ==> r == Raises
  {
    if PresentCacs(ls) != [] && SumOf(NewWeights(ls)) > 0.0
    then NpAverage(PresentCacs(ls), Present(NewWeights(ls)))
    else Value(None)
  }

  /** Two plans at the latest date, one with a blank LTV (zero churn): the
      LTV average is asked to weigh one value with two weights and raises. */
  lemma LtvMismatchRaises(a: Line, b: Line)
    requires a.m.ltv.Some? && b.m.ltv.None?
    ensures LtvMeanAsWritten([a, b]) == Raises
  {
    assert [a, b][1..] == [b];
    assert PresentLtvs([a, b]) == [a.m.ltv.value];
  }

  /** Likewise for CAC: one plan without new customers (blank CAC) next to
      one with new customers. */
  lemma CacMismatchRaises(a: Line, b: Line)
    requires a.m.cac.Some? && b.m.cac.None? && a.row.newCustomers > 0 && b.row.newCustomers >= 0
    ensures CacMeanAsWritten([a, b]) == Raises
  {
    assert [a, b][1..] == [b];
    assert PresentCacs([a, b]) == [a.m.cac.value];
    var x, y := a.row.newCustomers as real, b.row.newCustomers as real;
    assert NewWeights([b]) == [y];
    assert NewWeights([a, b]) == [x, y];
    assert [x, y][1..] == [y] && [y][1..] == [];
    assert SumOf([y]) == y;
    assert SumOf([x, y]) == x + y;
  }

  /** Without a price table or MRR column every MRR is 0; a single plan
      whose LTV is present then makes the LTV average raise, since its
      weights sum to 0. */
  lemma LtvZeroMrrRaises(a: Line)
    requires a.m.ltv.Some? && a.row.realMrr == Some(0.0)
    ensures LtvMeanAsWritten([a]) == Raises
  {
    assert [a][1..] == [];
    assert PresentLtvs([a]) == [a.m.ltv.value];
    assert MrrWeights([a]) == [Some(0.0)];
    assert [Some(0.0)][1..] == [] && AllPresent([]) == Some([]);
    assert [0.0] + [] == [0.0];
    assert AllPresent([Some(0.0)]) == Some([0.0]);
    assert SumOf([0.0]) == 0.0;
  }

  // ---------------------------------------------------------------------
  // Weighted means as intended: blank values out of both sums, and a
  // missing mean when the weights do not sum above 0
  // ---------------------------------------------------------------------

  /** Pairs (value, weight). */
  function Weight(ps: seq<(real, real)>): real {
    if ps == [] then 0.0 else ps[0].1 + Weight(ps[1..])
  }

  function Weighted(ps: seq<(real, real)>): real {
    if ps == [] then 0.0 else ps[0].0 * ps[0].1 + Weighted(ps[1..])
  }

  function WeightedMean(ps: seq<(real, real)>): (r: Option<real>)
    ensures r.Some? <==> Weight(ps) > 0.0
    ensures r.Some? ==> r.value * Weight(ps) == Weighted(ps)
  {
    if Weight(ps) > 0.0 then Some(Weighted(ps) / Weight(ps)) else None
  }

  /** With non-negative weights, the weighted sum is at least the smallest
      value times the total weight. */
  lemma {:induction false} WeightedAtLeast(ps: seq<(real, real)>, lo: real)
    requires forall i :: 0 <= i < |ps| ==> ps[i].1 >= 0.0 && lo <= ps[i].0
    ensures lo * Weight(ps) <= Weighted(ps)
  {
    if ps != [] {
      var tail := ps[1..];
      assert forall i :: 0 <= i < |tail| ==> tail[i] == ps[i + 1];
      WeightedAtLeast(tail, lo);
      var v, w := ps[0].0, ps[0].1;
      assert lo * w <= v * w by { assert (v - lo) * w >= 0.0; }
      assert lo * (w + Weight(tail)) == lo * w + lo * Weight(tail);
    }
  }

  /** With non-negative weights, the weighted sum is at most the largest
      value times the total weight. */
  lemma {:induction false} WeightedAtMost(ps: seq<(real, real)>, hi: real)
    requires forall i :: 0 <= i < |ps| ==> ps[i].1 >= 0.0 && ps[i].0 <= hi
    ensures Weighted(ps) <= hi * Weight(ps)
  {
    if ps != [] {
      var tail := ps[1..];
      assert forall i :: 0 <= i < |tail| ==> tail[i] == ps[i + 1];
      WeightedAtMost(tail, hi);
      var v, w := ps[0].0, ps[0].1;
      assert v * w <= hi * w by { assert (hi - v) * w >= 0.0; }
      assert hi * (w + Weight(tail)) == hi * w + hi * Weight(tail);
    }
  }

  /** A weighted mean with non-negative weights lies among its values. */
  lemma WeightedMeanBetween(ps: seq<(real, real)>, lo: real, hi: real)
    requires forall i :: 0 <= i < |ps| ==> ps[i].1 >= 0.0 && lo <= ps[i].0 <= hi
    requires WeightedMean(ps).Some?
    ensures lo <= WeightedMean(ps).value <= hi
  {
    WeightedAtLeast(ps, lo);
    WeightedAtMost(ps, hi);
    MeanOfBounds(lo, hi, WeightedMean(ps).value, Weight(ps), Weighted(ps));
  }

  /** A mean m with m × w = ws, where ws lies between lo × w and hi × w
      for a positive weight w, lies between lo and hi. */
  lemma MeanOfBounds(lo: real, hi: real, m: real, w: real, ws: real)
    requires w > 0.0 && m * w == ws && lo * w <= ws <= hi * w
    ensures lo <= m <= hi
  {
    CancelPositive(lo, m, w);
    CancelPositive(m, hi, w);
  }

  lemma CancelPositive(x: real, y: real, w: real)
    requires w > 0.0 && x * w <= y * w
    ensures x <= y
  {
  }

  /** (LTV, MRR) of the rows where both are present. */
  function LtvPairs(ls: seq<Line>): (ps: seq<(real, real)>)
    ensures |ps| <= |ls|
  {
    if ls == [] then []
    else
      (if ls[0].m.ltv.Some? && ls[0].row.realMrr.Some? then [(ls[0].m.ltv.value, ls[0].row.realMrr.value)] else [])
      + LtvPairs(ls[1..])
  }

  /** (CAC, new customers) of the rows where CAC is present. */
  function CacPairs(ls: seq<Line>): (ps: seq<(real, real)>)
    ensures |ps| <= |ls|
  {
    if ls == [] then []
    else
      (if ls[0].m.cac.Some? then [(ls[0].m.cac.value, ls[0].row.newCustomers as real)] else [])
      + CacPairs(ls[1..])
  }

  function LtvMean(ls: seq<Line>): Option<real> {
    WeightedMean(LtvPairs(ls))
  }

  function CacMean(ls: seq<Line>): Option<real> {
    WeightedMean(CacPairs(ls))
  }

  /** Every pair LtvPairs keeps comes from a row with that LTV and MRR. */
  lemma {:induction false} LtvPairsFromRows(ls: seq<Line>, lo: real, hi: real)
    requires forall i :: 0 <= i < |ls| && ls[i].m.ltv.Some? ==> lo <= ls[i].m.ltv.value <= hi
    requires forall i :: 0 <= i < |ls| ==> ls[i].row.realMrr.GetOr(0.0) >= 0.0
    ensures forall j :: 0 <= j < |LtvPairs(ls)| ==>
      LtvPairs(ls)[j].1 >= 0.0 && lo <= LtvPairs(ls)[j].0 <= hi
  {
    if ls != [] {
      LtvPairsFromRows(ls[1..], lo, hi);
    }
  }

  /** Every pair CacPairs keeps comes from a row with that CAC. */
  lemma {:induction false} CacPairsFromRows(ls: seq<Line>, lo: real, hi: real)
    requires forall i :: 0 <= i < |ls| && ls[i].m.cac.Some? ==> lo <= ls[i].m.cac.value <= hi
    requires forall i :: 0 <= i < |ls| ==> ls[i].row.newCustomers >= 0
    ensures forall j :: 0 <= j < |CacPairs(ls)| ==>
      CacPairs(ls)[j].1 >= 0.0 && lo <= CacPairs(ls)[j].0 <= hi
  {
    if ls != [] {
      CacPairsFromRows(ls[1..], lo, hi);
    }
  }

  /** With MRR never negative, the blended LTV lies between the smallest
      and the largest LTV at the date. */
  lemma LtvMeanBetween(ls: seq<Line>, lo: real, hi: real)
    requires forall i :: 0 <= i < |ls| && ls[i].m.ltv.Some? ==> lo <= ls[i].m.ltv.value <= hi
    requires forall i :: 0 <= i < |ls| ==> ls[i].row.realMrr.GetOr(0.0) >= 0.0
    requires LtvMean(ls).Some?
    ensures lo <= LtvMean(ls).value <= hi
  {
    LtvPairsFromRows(ls, lo, hi);
    WeightedMeanBetween(LtvPairs(ls), lo, hi);
  }

  /** With new-customer counts never negative, the blended CAC lies between
      the smallest and the largest CAC at the date. */
  lemma CacMeanBetween(ls: seq<Line>, lo: real, hi: real)
    requires forall i :: 0 <= i < |ls| && ls[i].m.cac.Some? ==> lo <= ls[i].m.cac.value <= hi
    requires forall i :: 0 <= i < |ls| ==> ls[i].row.newCustomers >= 0
    requires CacMean(ls).Some?
    ensures lo <= CacMean(ls).value <= hi
  {
    CacPairsFromRows(ls, lo, hi);
    WeightedMeanBetween(CacPairs(ls), lo, hi);
  }

  /** A row with an LTV but a blank MRR: the script's average is blank
      (numpy propagates the NaN weight) ... */
  lemma BlankMrrBlanksAverage(a: Line, b: Line)
    requires a.m.ltv.Some? && a.row.realMrr.Some?
    requires b.m.ltv.Some? && b.row.realMrr.None?
    ensures LtvMeanAsWritten([a, b]) == Value(None)
  {
    assert [a, b][1..] == [b] && [b][1..] == [];
    assert |PresentLtvs([a, b])| == 2;
    var w := MrrWeights([a, b]);
    assert MrrWeights([b]) == [None];
    assert w == [a.row.realMrr] + [None];
    assert w[1..] == [None];
    assert AllPresent([None]) == None;
  }

  /** ... while the intended one leaves the row out: LTV 100 at MRR 10 next
      to LTV 50 at a blank MRR averages to 100. */
  lemma BlankMrrRowLeftOut(a: Line, b: Line)
    requires a.m.ltv == Some(100.0) && a.row.realMrr == Some(10.0)
    requires b.m.ltv.Some? && b.row.realMrr.None?
    ensures LtvMean([a, b]) == Some(100.0)
  {
    assert [a, b][1..] == [b] && [b][1..] == [];
    var ps := LtvPairs([a, b]);
    assert LtvPairs([b]) == [];
    assert ps == [(100.0, 10.0)] + [];
    assert ps[0] == (100.0, 10.0) && ps[1..] == [];
    assert Weight(ps) == 10.0;
    assert Weighted(ps) == 100.0 * 10.0 + Weighted([]);
  }

  /** When every MRR at the date is 0 the LTV average is missing, not 0 and
      not an error. */
  lemma {:induction false} ZeroMrrLtvMissing(ls: seq<Line>)
    requires forall i :: 0 <= i < |ls| ==> ls[i].row.realMrr.GetOr(0.0) == 0.0
    ensures LtvMean(ls).None?
  {
    ZeroMrrWeight(ls);
  }

  lemma {:induction false} ZeroMrrWeight(ls: seq<Line>)
    requires forall i :: 0 <= i < |ls| ==> ls[i].row.realMrr.GetOr(0.0) == 0.0
    ensures Weight(LtvPairs(ls)) == 0.0
  {
    if ls != [] {
      ZeroMrrWeight(ls[1..]);
      var head := if ls[0].m.ltv.Some? && ls[0].row.realMrr.Some? then [(ls[0].m.ltv.value, ls[0].row.realMrr.value)] else [];
      WeightAppend(head, LtvPairs(ls[1..]));
    }
  }

  lemma {:induction false} WeightAppend(a: seq<(real, real)>, b: seq<(real, real)>)
    ensures Weight(a + b) == Weight(a) + Weight(b)
  {
    if a != [] {
      assert (a + b)[0] == a[0];
      assert (a + b)[1..] == a[1..] + b;
      WeightAppend(a[1..], b);
      assert Weight(a + b) == a[0].1 + Weight(a[1..] + b);
    } else {
      assert a + b == b;
    }
  }

  /** The MRR values of rows whose MRR is present. */
  function MrrValues(ls: seq<Line>): (w: seq<real>)
    requires forall i :: 0 <= i < |ls| ==> ls[i].row.realMrr.Some?
    ensures |w| == |ls|
  {
    if ls == [] then [] else [ls[0].row.realMrr.value] + MrrValues(ls[1..])
  }

  lemma {:induction false} CompleteLines(ls: seq<Line>)
    requires forall i :: 0 <= i < |ls| ==> ls[i].m.ltv.Some? && ls[i].row.realMrr.Some?
    ensures |PresentLtvs(ls)| == |ls|
    ensures AllPresent(MrrWeights(ls)) == Some(MrrValues(ls))
    ensures SumOf(MrrValues(ls)) == Weight(LtvPairs(ls))
    ensures Dot(PresentLtvs(ls), MrrValues(ls)) == Weighted(LtvPairs(ls))
  {
    if ls != [] {
      CompleteLines(ls[1..]);
      assert MrrWeights(ls)[1..] == MrrWeights(ls[1..]);
      assert PresentLtvs(ls)[1..] == PresentLtvs(ls[1..]);
      assert MrrValues(ls)[1..] == MrrValues(ls[1..]);
      assert LtvPairs(ls)[1..] == LtvPairs(ls[1..]);
    }
  }

  /** Where every row at the date has both an LTV and an MRR and the MRR
      sums above 0, the script's average is the intended one. */
  lemma {:induction false} LtvAgreesWhenComplete(ls: seq<Line>)
    requires ls != []
    requires forall i :: 0 <= i < |ls| ==> ls[i].m.ltv.Some? && ls[i].row.realMrr.Some?
    requires Weight(LtvPairs(ls)) > 0.0
    ensures LtvMeanAsWritten(ls) == Value(LtvMean(ls))
  {
    CompleteLines(ls);
    var vs, ws := PresentLtvs(ls), MrrValues(ls);
    assert vs != [];
    assert NpAverage(vs, MrrWeights(ls)) == Value(Some(Dot(vs, ws) / SumOf(ws)));
  }

  lemma {:induction false} CompleteCacs(ls: seq<Line>)
    requires forall i :: 0 <= i < |ls| ==> ls[i].m.cac.Some?
    ensures |PresentCacs(ls)| == |ls|
    ensures AllPresent(Present(NewWeights(ls))) == Some(NewWeights(ls))
    ensures SumOf(NewWeights(ls)) == Weight(CacPairs(ls))
    ensures Dot(PresentCacs(ls), NewWeights(ls)) == Weighted(CacPairs(ls))
  {
    if ls != [] {
      CompleteCacs(ls[1..]);
      assert NewWeights(ls)[1..] == NewWeights(ls[1..]);
      assert Present(NewWeights(ls))[1..] == Present(NewWeights(ls[1..]));
      assert PresentCacs(ls)[1..] == PresentCacs(ls[1..]);
      assert CacPairs(ls)[1..] == CacPairs(ls[1..]);
    }
  }

  /** Where every row at the date has a CAC and the new customers sum above
      0, the script's average is the intended one. */
  lemma {:induction false} CacAgreesWhenComplete(ls: seq<Line>)
    requires ls != []
    requires forall i :: 0 <= i < |ls| ==> ls[i].m.cac.Some?
    requires SumOf(NewWeights(ls)) > 0.0
    ensures CacMeanAsWritten(ls) == Value(CacMean(ls))
  {
    CompleteCacs(ls);
    var vs, ws := PresentCacs(ls), NewWeights(ls);
    assert vs != [];
    assert NpAverage(vs, Present(ws)) == Value(Some(Dot(vs, ws) / SumOf(ws)));
  }

  // ---------------------------------------------------------------------
  // The summary
  // ---------------------------------------------------------------------

  datatype Summary = Summary(
    asOf: Date,
    activeTotal: int,
    mrrTotal: real,
    arrTotal: real,
    ltvMean: Option<real>,
    cacMean: Option<real>,
    ltvToCac: Option<real>)

  /** The KPI block: nothing for an empty table (the "no data" warning),
      otherwise the totals at the latest date and the blended ratio. */
  function KpiSummary(lines: seq<Line>): (k: Option<Summary>)
    ensures k.None? <==> lines == []
    ensures k.Some? ==>
      var last := AtDate(lines, k.value.asOf);
      && k.value.activeTotal == TotalActive(last)
      && k.value.mrrTotal == TotalMrr(last)
      && k.value.ltvMean == LtvMean(last)
      && k.value.cacMean == CacMean(last)
      && k.value.ltvToCac == LtvCacRatio(k.value.ltvMean, k.value.cacMean)
    ensures k.Some? ==>
      && (forall i :: 0 <= i < |lines| ==> lines[i].row.date <= k.value.asOf)
      && (exists i :: 0 <= i < |lines| && lines[i].row.date == k.value.asOf)
      && k.value.arrTotal == 12.0 * k.value.mrrTotal
      && (k.value.ltvToCac.Some? <==>
            k.value.ltvMean.Some? && k.value.cacMean.Some? && k.value.cacMean.value > 0.0)
  {
    if lines == [] then None
    else
      var d := LastDate(lines);
      var last := AtDate(lines, d);
      var mrr := TotalMrr(last);
      var ltv := LtvMean(last);
      var cac := CacMean(last);
      Some(Summary(d, TotalActive(last), mrr, mrr * 12.0, ltv, cac, LtvCacRatio(ltv, cac)))
  }

  /** The augmented table as rows with their metric columns. */
  function LinesOf(a: Augmented): (ls: seq<Line>)
    requires |a.metrics| == |a.table.rows|
    ensures |ls| == |a.table.rows|
    ensures forall i :: 0 <= i < |ls| ==> ls[i].row == a.table.rows[i] && ls[i].m == a.metrics[i]
  {
    seq(|a.table.rows|, i requires 0 <= i < |a.table.rows| => Line(a.table.rows[i], a.metrics[i]))
  }

  /** With no negative active count, the active total at the latest date
      is not negative. */
  lemma ActiveTotalNonNegative(ls: seq<Line>)
    requires ls != []
    requires forall i :: 0 <= i < |ls| ==> ls[i].row.active >= 0
    ensures KpiSummary(ls).Some? && KpiSummary(ls).value.activeTotal >= 0
  {
    var last := AtDate(ls, KpiSummary(ls).value.asOf);
    forall i | 0 <= i < |last| ensures last[i].row.active >= 0 {
      assert last[i] in ls;
    }
  }

  /** A run that does not stop always has a KPI block, and when the active
      counts were backfilled their total at the latest date is not negative. */
  lemma KpiOfRun(data: Option<Sheet<Row>>, prices: Option<Sheet<PriceRow>>)
    requires PipelineResult(data, prices).Success?
    ensures var a := PipelineResult(data, prices).value;
      && |a.metrics| == |a.table.rows|
      && KpiSummary(LinesOf(a)).Some?
      && (!SchemaOf(NormalizedSheet(data).headers).active ==> KpiSummary(LinesOf(a)).value.activeTotal >= 0)
  {
    RunHasRows(data, prices);
    var a := PipelineResult(data, prices).value;
    var ls := LinesOf(a);
    if !SchemaOf(NormalizedSheet(data).headers).active {
      ActiveTotalNonNegative(ls);
    }
  }
}
