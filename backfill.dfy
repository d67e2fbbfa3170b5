/** ensure_active_customers: "Active Customers" filled in, when the sheet
    lacks it, from per-plan running totals of new minus lost customers. */
module Backfill {
  import opened DataTable

  /** New minus lost customers of one row. */
  function Net(s: Schema, r: Row): int {
    NewCustomers(s, r) - LostCustomers(s, r)
  }

  /** Sum of Net over the rows of plan `p`. */
  function PlanNet(s: Schema, rows: seq<Row>, p: string): int {
    if rows == [] then 0
    else PlanNet(s, rows[..|rows| - 1], p) + (if rows[|rows| - 1].plan == p then Net(s, rows[|rows| - 1]) else 0)
  }

  /** groupby("Plan") cumulative sum of New minus that of Lost, at row `i`:
      the rows of the same plan up to and including row `i`, in table order. */
  function RunningNet(s: Schema, rows: seq<Row>, i: nat): int
    requires i < |rows|
  {
    PlanNet(s, rows[..i + 1], rows[i].plan)
  }

  /** clip(lower=0) */
  function ClampLow(x: int): (r: nat)
    ensures r >= x && (x >= 0 ==> r == x) && (x < 0 ==> r == 0)
  {
    if x < 0 then 0 else x
  }

  /** One row after the backfill: the count columns read as df.get(c, 0)
      (a missing one is added as zeros) and the clamped running total. */
  function BackfilledRow(s: Schema, rows: seq<Row>, i: nat): Row
    requires i < |rows|
  {
    rows[i].(newCustomers := NewCustomers(s, rows[i]),
             lostCustomers := LostCustomers(s, rows[i]),
             active := ClampLow(RunningNet(s, rows, i)))
  }

  /** The table ensure_active_customers returns. */
  function ActiveBackfilled(t: Table): (r: Table)
    ensures t.schema.active ==> r == t
    ensures |r.rows| == |t.rows| && r.schema.active
    ensures !t.schema.active ==>
      r.schema == t.schema.(newCustomers := true, lostCustomers := true, active := true)
    ensures !t.schema.active ==>
      forall i :: 0 <= i < |t.rows| ==>
        r.rows[i] == t.rows[i].(newCustomers := NewCustomers(t.schema, t.rows[i]),
                                lostCustomers := LostCustomers(t.schema, t.rows[i]),
                                active := ClampLow(RunningNet(t.schema, t.rows, i)))
    ensures !t.schema.active ==>
      forall i :: 0 <= i < |t.rows| ==>
        r.rows[i].active >= 0 && r.rows[i].active >= RunningNet(t.schema, t.rows, i)
  {
    if t.schema.active then t
    else
      Table(t.schema.(newCustomers := true, lostCustomers := true, active := true),
            seq(|t.rows|, i requires 0 <= i < |t.rows| => BackfilledRow(t.schema, t.rows, i)))
  }

  /** The running total kept for a plan (0 before its first row). */
  function Get(acc: map<string, int>, p: string): int {
    if p in acc then acc[p] else 0
  }

  /** Extending the prefix by row `i` adds its net to its own plan only. */
  lemma PlanNetStep(s: Schema, rows: seq<Row>, i: nat)
    requires i < |rows|
    ensures forall p :: (PlanNet(s, rows[..i + 1], p) ==
      PlanNet(s, rows[..i], p) + (if rows[i].plan == p then Net(s, rows[i]) else 0))
  {
    assert rows[..i + 1][..i] == rows[..i];
  }

  /** ensure_active_customers, as one pass over the rows keeping a running
      total per plan. The rows are taken in the order the pipeline has
      already sorted them into (plan, then date). */
  method EnsureActiveCustomers(t: Table) returns (r: Table)
    ensures r == ActiveBackfilled(t)
  {
    if t.schema.active {
      return t;
    }
    var s := t.schema;
    var rows := t.rows;
    var a := new Row[|rows|](j requires 0 <= j < |rows| => rows[j]);
    var acc: map<string, int> := map[];
    for i := 0 to a.Length
      invariant forall p :: Get(acc, p) == PlanNet(s, rows[..i], p)
      invariant forall j :: 0 <= j < i ==> a[j] == BackfilledRow(s, rows, j)
    {
      var p := rows[i].plan;
      var total := Get(acc, p) + Net(s, rows[i]);
      PlanNetStep(s, rows, i);
      assert total == RunningNet(s, rows, i);
      var next := acc[p := total];
      forall q ensures Get(next, q) == PlanNet(s, rows[..i + 1], q) {
        assert Get(acc, q) == PlanNet(s, rows[..i], q);
      }
      acc := next;
      a[i] := rows[i].(newCustomers := NewCustomers(s, rows[i]),
                       lostCustomers := LostCustomers(s, rows[i]),
                       active := ClampLow(total));
    }
    r := Table(s.(newCustomers := true, lostCustomers := true, active := true), a[..]);
  }

  // ---------------------------------------------------------------------
  // Running totals against dates
  // ---------------------------------------------------------------------

  /** Rows of the same plan appear in strictly increasing date order, as
      after sorting by (plan, date) when no plan has two rows for one date. */
  predicate PlanDatesIncreasing(rows: seq<Row>) {
    forall i, j :: 0 <= i < j < |rows| && rows[i].plan == rows[j].plan ==> rows[i].date < rows[j].date
  }

  /** Sum of Net over the rows of plan `p` dated on or before `d`. */
  function NetUpTo(s: Schema, rows: seq<Row>, p: string, d: Date): int {
    if rows == [] then 0
    else
      var last := rows[|rows| - 1];
      NetUpTo(s, rows[..|rows| - 1], p, d) + (if last.plan == p && last.date <= d then Net(s, last) else 0)
  }

  /** When no row of plan `p` is dated after `d`, the date bound cuts nothing. */
  lemma {:induction false} NetUpToAll(s: Schema, rows: seq<Row>, p: string, d: Date)
    requires forall j :: 0 <= j < |rows| && rows[j].plan == p ==> rows[j].date <= d
    ensures NetUpTo(s, rows, p, d) == PlanNet(s, rows, p)
  {
    if rows != [] {
      NetUpToAll(s, rows[..|rows| - 1], p, d);
    }
  }

  /** Rows of plan `p` dated after `d` add nothing to NetUpTo. */
  lemma {:induction false} NetUpToIgnoresLater(s: Schema, rows: seq<Row>, k: nat, p: string, d: Date)
    requires k <= |rows|
    requires forall j :: k <= j < |rows| && rows[j].plan == p ==> rows[j].date > d
    ensures NetUpTo(s, rows, p, d) == NetUpTo(s, rows[..k], p, d)
  {
    if |rows| > k {
      assert rows[..|rows| - 1][..k] == rows[..k];
      NetUpToIgnoresLater(s, rows[..|rows| - 1], k, p, d);
    } else {
      assert rows[..k] == rows;
    }
  }

  /** With the rows in (plan, date) order, each backfilled count is the net
      of the rows of its plan dated up to and including its own date. */
  lemma RunningNetByDate(s: Schema, rows: seq<Row>, i: nat)
    requires i < |rows|
    requires PlanDatesIncreasing(rows)
    ensures RunningNet(s, rows, i) == NetUpTo(s, rows, rows[i].plan, rows[i].date)
  {
    var p, d := rows[i].plan, rows[i].date;
    var upTo := rows[..i + 1];
    forall j | 0 <= j < |upTo| && upTo[j].plan == p ensures upTo[j].date <= d {
      assert upTo[j] == rows[j];
    }
    NetUpToAll(s, rows[..i + 1], p, d);
    NetUpToIgnoresLater(s, rows, i + 1, p, d);
  }

  /** The backfilled count of a row, read against dates: its plan's net
      up to its own date, floored at 0. */
  lemma ActiveByDate(t: Table, i: nat)
    requires !t.schema.active && i < |t.rows| && PlanDatesIncreasing(t.rows)
    ensures ActiveBackfilled(t).rows[i].active ==
      ClampLow(NetUpTo(t.schema, t.rows, t.rows[i].plan, t.rows[i].date))
  {
    RunningNetByDate(t.schema, t.rows, i);
  }

  /** The example of two months of plan A: (new 10, lost 0) then
      (new 5, lost 2) give 10 then 13 active customers. */
  lemma TwoMonthExample(s: Schema, r1: Row, r2: Row)
    requires s.newCustomers && s.lostCustomers && !s.active
    requires r1.plan == "A" && r2.plan == "A"
    requires r1.newCustomers == 10 && r1.lostCustomers == 0
    requires r2.newCustomers == 5 && r2.lostCustomers == 2
    ensures ActiveBackfilled(Table(s, [r1, r2])).rows[0].active == 10
    ensures ActiveBackfilled(Table(s, [r1, r2])).rows[1].active == 13
  {
    var rows := [r1, r2];
    assert rows[..1] == [r1] && rows[..2] == rows && rows[..0] == [];
    var t := ActiveBackfilled(Table(s, rows));
    assert t.rows[0] == BackfilledRow(s, rows, 0);
    assert t.rows[1] == BackfilledRow(s, rows, 1);
    assert [r1][..0] == [];
    assert PlanNet(s, [r1], r1.plan) == Net(s, r1);
    assert PlanNet(s, rows, r1.plan) == Net(s, r1) + Net(s, r2);
  }

  /** The clamp applies to each row's own running total: a deficit is
      carried forward, not reset to 0. (new 0, lost 5) then (new 3, lost 0)
      give 0 and 0, not 0 and 3. */
  lemma DeficitCarriedForward(s: Schema, r1: Row, r2: Row)
    requires s.newCustomers && s.lostCustomers && !s.active
    requires r1.plan == r2.plan
    requires r1.newCustomers == 0 && r1.lostCustomers == 5
    requires r2.newCustomers == 3 && r2.lostCustomers == 0
    ensures ActiveBackfilled(Table(s, [r1, r2])).rows[0].active == 0
    ensures ActiveBackfilled(Table(s, [r1, r2])).rows[1].active == 0
  {
    var rows := [r1, r2];
    assert rows[..1] == [r1] && rows[..2] == rows && rows[..0] == [];
    var t := ActiveBackfilled(Table(s, rows));
    assert t.rows[0] == BackfilledRow(s, rows, 0);
    assert t.rows[1] == BackfilledRow(s, rows, 1);
    assert [r1][..0] == [];
    assert PlanNet(s, [r1], r1.plan) == Net(s, r1);
    assert PlanNet(s, rows, r1.plan) == Net(s, r1) + Net(s, r2);
  }
}
