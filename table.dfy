/** The Data sheet once its headers are known: typed rows, and which of the
    optional columns the sheet has. */
module DataTable {
  import opened Wrappers

  /** A calendar date, kept only as its position in time (parsing dates is
      not part of this model). */
  type Date = int

  /** One row of the Data sheet: one plan at one date. A cell of a column the
      sheet does not have is never read (see Schema); a blank numeric cell is
      None, pandas' NaN. */
  datatype Row = Row(
    date: Date,
    plan: string,
    newCustomers: int,
    lostCustomers: int,
    active: int,
    realMrr: Option<real>,
    mrrCalculated: Option<real>,
    arr: Option<real>,
    cac: Option<real>,
    spend: Option<real>)

  /** Which columns are present: "New Customers", "Lost Customers",
      "Active Customers", "Real MRR €", "MRR Calculated €", "ARR",
      "CAC (optional €)" and "Sales & Marketing Spend €". */
  datatype Schema = Schema(
    newCustomers: bool,
    lostCustomers: bool,
    active: bool,
    realMrr: bool,
    mrrCalculated: bool,
    arr: bool,
    cac: bool,
    spend: bool)

  datatype Table = Table(schema: Schema, rows: seq<Row>)

  /** The columns present under a (normalized) header row. A header
      "Sales & Marketing Spend (€)" is renamed to the € spelling before the
      CAC step, so either spelling gives the spend column. */
  function SchemaOf(headers: seq<string>): (s: Schema)
    ensures s.spend <==> "Sales & Marketing Spend €" in headers || "Sales & Marketing Spend (€)" in headers
    ensures s.active <==> "Active Customers" in headers
    ensures s.realMrr <==> "Real MRR €" in headers
    ensures s.mrrCalculated <==> "MRR Calculated €" in headers
    ensures s.arr <==> "ARR" in headers
    ensures s.cac <==> "CAC (optional €)" in headers
  {
    Schema(
      "New Customers" in headers,
      "Lost Customers" in headers,
      "Active Customers" in headers,
      "Real MRR €" in headers,
      "MRR Calculated €" in headers,
      "ARR" in headers,
      "CAC (optional €)" in headers,
      "Sales & Marketing Spend €" in headers || "Sales & Marketing Spend (€)" in headers)
  }

  /** df.get("New Customers", 0): the cell, or 0 without the column. */
  function NewCustomers(s: Schema, r: Row): int {
    if s.newCustomers then r.newCustomers else 0
  }

  /** df.get("Lost Customers", 0). */
  function LostCustomers(s: Schema, r: Row): int {
    if s.lostCustomers then r.lostCustomers else 0
  }
}
