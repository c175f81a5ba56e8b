/** Invoices computed from metered usage: whole-cent arithmetic, line items and the history of periods. */
module Invoices {
  import opened Prelude

  /** The priced dimensions, and any other metric an organization records. */
  datatype Metric = Compute | Storage | Egress | Other(name: string)

  /** Quantities are micro-cents, a thousandth of a cent; instants are real numbers of days. */
  datatype Usage = Usage(metric: Metric, quantity: int, at: real)

  datatype Plan = Plan(priceCents: int, includedHours: int, overagePerHourCents: int)

  datatype Invoice = Invoice(base: int, overage: int, usageSoFar: int, charge: int)

  datatype Key = Base | Dimension(metric: Metric) | IncludedAllowance

  datatype LineItem = LineItem(key: Key, amount: int)

  predicate IsCost(metric: Metric) {
    !metric.Other?
  }

  /** Integer division as Go does it: toward zero. */
  function Quo(a: int, b: int): int
    requires b > 0
  {
    if a >= 0 then a / b else -((-a) / b)
  }

  /** It drops less than a unit, and never past zero. */
  lemma QuoTruncates(a: int, b: int)
    requires b > 0
    ensures a >= 0 ==> b * Quo(a, b) <= a < b * Quo(a, b) + b
    ensures a <= 0 ==> b * Quo(a, b) - b < a <= b * Quo(a, b)
  {
  }

  /** Sum over the records of one metric. */
  function MicroOf(records: seq<Usage>, metric: Metric): int {
    if records == [] then 0
    else MicroOf(records[..|records| - 1], metric)
         + if records[|records| - 1].metric == metric then records[|records| - 1].quantity else 0
  }

  /** Sum over all priced dimensions. */
  function Micro(records: seq<Usage>): int {
    if records == [] then 0
    else Micro(records[..|records| - 1])
         + if IsCost(records[|records| - 1].metric) then records[|records| - 1].quantity else 0
  }

  predicate NonNegative(records: seq<Usage>) {
    forall k :: 0 <= k < |records| ==> records[k].quantity >= 0
  }

  lemma {:induction false} MicroSplits(records: seq<Usage>)
    ensures Micro(records) == MicroOf(records, Compute) + MicroOf(records, Storage) + MicroOf(records, Egress)
  {
    if records == [] {
    } else {
      MicroSplits(records[..|records| - 1]);
    }
  }

  lemma {:induction false} MicroNonNegative(records: seq<Usage>, metric: Metric)
    requires NonNegative(records)
    ensures Micro(records) >= 0 && MicroOf(records, metric) >= 0
  {
    if records == [] {
    } else {
      MicroNonNegative(records[..|records| - 1], metric);
    }
  }

  function UsageCents(records: seq<Usage>): int {
    Quo(Micro(records), 1000)
  }

  function Allowance(plan: Plan): int {
    plan.includedHours * plan.overagePerHourCents
  }

  /** Nothing to charge without a plan; otherwise the fee plus what exceeds the allowance. */
  ghost predicate IsInvoice(plan: Option<Plan>, records: seq<Usage>, inv: Invoice) {
    var usage := UsageCents(records);
    && inv.usageSoFar == usage
    && (plan.None? ==> inv.base == inv.overage == inv.charge == 0)
    && (plan.Some? ==>
          && inv.base == plan.value.priceCents
          && inv.overage == (if usage > Allowance(plan.value) then usage - Allowance(plan.value) else 0)
          && inv.charge == inv.base + inv.overage)
  }

  function SumItems(items: seq<LineItem>): int {
    if items == [] then 0 else SumItems(items[..|items| - 1]) + items[|items| - 1].amount
  }

  // ---- one invoice ----

  method UsageSoFarCents(records: seq<Usage>) returns (cents: int)
    ensures cents == UsageCents(records)
  {
    var micro := 0;
    for k := 0 to |records|
      invariant micro == Micro(records[..k])
    {
      assert records[..k + 1][..k] == records[..k];
      if IsCost(records[k].metric) {
        micro := micro + records[k].quantity;
      }
    }
    assert records[..|records|] == records;
    cents := Quo(micro, 1000);
  }

  /** Whole cents per priced dimension; a dimension without a positive amount is absent. */
  method UsageByDimensionCents(records: seq<Usage>) returns (out: map<Metric, int>)
    ensures forall m :: m in out <==> IsCost(m) && Quo(MicroOf(records, m), 1000) > 0
    ensures forall m :: m in out ==> out[m] == Quo(MicroOf(records, m), 1000)
  {
    var micro: map<Metric, int> := map[];
    for k := 0 to |records|
      invariant forall m :: m in micro ==> IsCost(m) && micro[m] == MicroOf(records[..k], m)
      invariant forall m :: IsCost(m) && m !in micro ==> MicroOf(records[..k], m) == 0
    {
      assert records[..k + 1][..k] == records[..k];
      var r := records[k];
      if IsCost(r.metric) {
        micro := micro[r.metric := (if r.metric in micro then micro[r.metric] else 0) + r.quantity];
      }
    }
    assert records[..|records|] == records;
    out := map m | m in micro && Quo(micro[m], 1000) > 0 :: Quo(micro[m], 1000);
  }

  method InvoiceFromRecords(plan: Option<Plan>, records: seq<Usage>) returns (inv: Invoice)
    ensures IsInvoice(plan, records, inv)
  {
    inv := Invoice(0, 0, 0, 0);
    var usage := UsageSoFarCents(records);
    inv := inv.(usageSoFar := usage);
    if plan.None? {
      return;
    }
    inv := inv.(base := plan.value.priceCents);
    var over := inv.usageSoFar - plan.value.includedHours * plan.value.overagePerHourCents;
    if over > 0 {
      inv := inv.(overage := over);
    }
    inv := inv.(charge := inv.base + inv.overage);
  }

  /** Cents shown for one dimension. */
  function Shown(records: seq<Usage>, metric: Metric): int {
    var cents := Quo(MicroOf(records, metric), 1000);
    if cents > 0 then cents else 0
  }

  function Credit(plan: Option<Plan>, inv: Invoice): int {
    if plan.None? then 0
    else
      var least := if Allowance(plan.value) < inv.usageSoFar then Allowance(plan.value) else inv.usageSoFar;
      if least > 0 then least else 0
  }

  function Row(key: Key, amount: int): seq<LineItem> {
    if amount != 0 then [LineItem(key, amount)] else []
  }

  const DIMENSIONS: seq<Metric> := [Compute, Storage, Egress]

  /** The rows of the first n dimensions, in their fixed order. */
  function DimensionRows(records: seq<Usage>, n: nat): seq<LineItem>
    requires n <= 3
  {
    if n == 0 then []
    else DimensionRows(records, n - 1) + Row(Dimension(DIMENSIONS[n - 1]), Shown(records, DIMENSIONS[n - 1]))
  }

  /** Base fee, the dimensions, the allowance credit; a row of zero cents is left out. */
  function Rows(plan: Option<Plan>, records: seq<Usage>, inv: Invoice): seq<LineItem> {
    Row(Base, inv.base) + DimensionRows(records, 3) + Row(IncludedAllowance, -Credit(plan, inv))
  }

  method LineItems(plan: Option<Plan>, records: seq<Usage>, inv: Invoice) returns (items: seq<LineItem>)
    ensures items == Rows(plan, records, inv)
  {
    items := [];
    if inv.base != 0 {
      items := items + [LineItem(Base, inv.base)];
    }
    ghost var start := items;
    var byDim := UsageByDimensionCents(records);
    for k := 0 to |DIMENSIONS|
      invariant items == start + DimensionRows(records, k)
    {
      var m := DIMENSIONS[k];
      if m in byDim && byDim[m] > 0 {
        items := items + [LineItem(Dimension(m), byDim[m])];
      }
    }
    var credit := CreditOf(plan, inv);
    if credit > 0 {
      items := items + [LineItem(IncludedAllowance, -credit)];
    }
  }

  /** The credit is what turns fee plus usage into the charge. */
  lemma CreditBalances(plan: Plan, records: seq<Usage>, inv: Invoice)
    requires IsInvoice(Some(plan), records, inv) && Allowance(plan) >= 0 && NonNegative(records)
    ensures inv.charge == inv.base + inv.usageSoFar - Credit(Some(plan), inv)
  {
    MicroNonNegative(records, Compute);
  }

  /** Never more than the allowance or the usage, and never less than the smaller of the two. */
  method CreditOf(plan: Option<Plan>, inv: Invoice) returns (credit: int)
    ensures 0 <= credit && (credit > 0 ==> plan.Some? && credit <= Allowance(plan.value) && credit <= inv.usageSoFar)
    ensures plan.Some? ==> credit >= Allowance(plan.value) || credit >= inv.usageSoFar
    ensures plan.None? ==> credit == 0
  {
    credit := 0;
    if plan.Some? {
      var allowance := plan.value.includedHours * plan.value.overagePerHourCents;
      var least := if allowance < inv.usageSoFar then allowance else inv.usageSoFar;
      if least > 0 {
        credit := least;
      }
    }
  }

  lemma {:induction false} SumConcat(a: seq<LineItem>, b: seq<LineItem>)
    ensures SumItems(a + b) == SumItems(a) + SumItems(b)
  {
    if b == [] {
      assert a + b == a;
    } else {
      SumConcat(a, b[..|b| - 1]);
      assert (a + b)[..|a| + |b| - 1] == a + b[..|b| - 1];
    }
  }

  lemma SumRow(key: Key, amount: int)
    ensures SumItems(Row(key, amount)) == amount
  {
    if amount != 0 {
      assert [LineItem(key, amount)][..0] == [];
    }
  }

  lemma {:induction false} DimensionRowsSum(records: seq<Usage>, n: nat)
    requires n <= 3
    ensures SumItems(DimensionRows(records, n))
            == (if n > 0 then Shown(records, Compute) else 0)
               + (if n > 1 then Shown(records, Storage) else 0) + (if n > 2 then Shown(records, Egress) else 0)
  {
    if n == 0 {
    } else {
      DimensionRowsSum(records, n - 1);
      var m := DIMENSIONS[n - 1];
      SumConcat(DimensionRows(records, n - 1), Row(Dimension(m), Shown(records, m)));
      SumRow(Dimension(m), Shown(records, m));
    }
  }

  lemma RowsSum(plan: Option<Plan>, records: seq<Usage>, inv: Invoice)
    ensures SumItems(Rows(plan, records, inv))
            == inv.base + Shown(records, Compute) + Shown(records, Storage) + Shown(records, Egress) - Credit(plan, inv)
  {
    var base, credit := Row(Base, inv.base), Row(IncludedAllowance, -Credit(plan, inv));
    SumConcat(base + DimensionRows(records, 3), credit);
    SumConcat(base, DimensionRows(records, 3));
    DimensionRowsSum(records, 3);
    SumRow(Base, inv.base);
    SumRow(IncludedAllowance, -Credit(plan, inv));
  }

  lemma {:induction false} DimensionRowsHold(records: seq<Usage>, n: nat, item: LineItem)
    requires n <= 3
    ensures item in DimensionRows(records, n)
            <==> item.amount != 0 && exists k :: 0 <= k < n && item == LineItem(Dimension(DIMENSIONS[k]),
                                                                               Shown(records, DIMENSIONS[k]))
  {
    if n == 0 {
    } else {
      DimensionRowsHold(records, n - 1, item);
    }
  }

  /** Which row carries what: the fee under Base, each dimension's whole cents under that dimension, and the credit,
      negative, under the allowance; each only if it is not zero, and no other row. */
  lemma RowsHold(plan: Option<Plan>, records: seq<Usage>, inv: Invoice, item: LineItem)
    ensures item in Rows(plan, records, inv)
            <==> item.amount != 0
                 && match item.key
                    case Base => item.amount == inv.base
                    case Dimension(m) =>
                      !m.Other? && item.amount == Quo(MicroOf(records, m), 1000) && item.amount > 0
                    case IncludedAllowance => item.amount == -Credit(plan, inv)
  {
    DimensionRowsHold(records, 3, item);
    assert DIMENSIONS[0] == Compute && DIMENSIONS[1] == Storage && DIMENSIONS[2] == Egress;
  }

  /** The order of the rows on an invoice. */
  function Rank(key: Key): nat {
    match key
    case Base => 0
    case Dimension(m) => (match m case Compute => 1 case Storage => 2 case Egress => 3 case Other(_) => 4)
    case IncludedAllowance => 5
  }

  predicate OrderedWithin(rows: seq<LineItem>, low: nat, high: nat) {
    && (forall i :: 0 <= i < |rows| ==> low <= Rank(rows[i].key) < high)
    && (forall i, j :: 0 <= i < j < |rows| ==> Rank(rows[i].key) < Rank(rows[j].key))
  }

  lemma OrderedConcat(a: seq<LineItem>, b: seq<LineItem>, low: nat, middle: nat, high: nat)
    requires low <= middle <= high && OrderedWithin(a, low, middle) && OrderedWithin(b, middle, high)
    ensures OrderedWithin(a + b, low, high)
  {
  }

  lemma {:induction false} DimensionRowsOrdered(records: seq<Usage>, n: nat)
    requires n <= 3
    ensures OrderedWithin(DimensionRows(records, n), 1, n + 1)
  {
    if n == 0 {
    } else {
      var m := DIMENSIONS[n - 1];
      DimensionRowsOrdered(records, n - 1);
      assert Rank(Dimension(m)) == n;
      assert OrderedWithin(Row(Dimension(m), Shown(records, m)), n, n + 1);
      OrderedConcat(DimensionRows(records, n - 1), Row(Dimension(m), Shown(records, m)), 1, n, n + 1);
    }
  }

  /** The rows come in that order, and no key has two of them. */
  lemma RowsOrdered(plan: Option<Plan>, records: seq<Usage>, inv: Invoice, i: nat, j: nat)
    requires i < j < |Rows(plan, records, inv)|
    ensures Rank(Rows(plan, records, inv)[i].key) < Rank(Rows(plan, records, inv)[j].key)
  {
    var base, credit := Row(Base, inv.base), Row(IncludedAllowance, -Credit(plan, inv));
    DimensionRowsOrdered(records, 3);
    OrderedConcat(base, DimensionRows(records, 3), 0, 1, 4);
    OrderedConcat(base + DimensionRows(records, 3), credit, 0, 4, 6);
  }

  /** Sub-cent remainders that flooring each dimension separately drops. */
  function Remainders(records: seq<Usage>): int {
    MicroOf(records, Compute) % 1000 + MicroOf(records, Storage) % 1000 + MicroOf(records, Egress) % 1000
  }

  /** With an allowance and records that are not negative, the rows fall short of the charge by the whole cents
      hidden in the remainders: zero, one or two. They add up to the charge exactly when the remainders stay
      below one cent. */
  lemma LineItemsGap(plan: Plan, records: seq<Usage>, inv: Invoice)
    requires IsInvoice(Some(plan), records, inv) && Allowance(plan) >= 0 && NonNegative(records)
    ensures inv.charge - SumItems(Rows(Some(plan), records, inv)) == Remainders(records) / 1000
    ensures 0 <= inv.charge - SumItems(Rows(Some(plan), records, inv)) <= 2
    ensures SumItems(Rows(Some(plan), records, inv)) == inv.charge <==> Remainders(records) < 1000
  {
    RowsSum(Some(plan), records, inv);
    MicroSplits(records);
    MicroNonNegative(records, Compute);
    MicroNonNegative(records, Storage);
    MicroNonNegative(records, Egress);
    ThreeFloors(MicroOf(records, Compute), MicroOf(records, Storage), MicroOf(records, Egress));
  }

  lemma ThreeFloors(a: nat, b: nat, c: nat)
    ensures (a + b + c) / 1000 == a / 1000 + b / 1000 + c / 1000 + (a % 1000 + b % 1000 + c % 1000) / 1000
  {
  }

  /** Three sub-cent amounts are enough to lose two cents. */
  lemma LineItemsMissTwoCents()
    ensures var records := [Usage(Compute, 999, 0.0), Usage(Storage, 999, 0.0), Usage(Egress, 999, 0.0)];
            var plan := Plan(500, 0, 0);
            forall inv :: IsInvoice(Some(plan), records, inv) ==>
              inv.charge == 502 && SumItems(Rows(Some(plan), records, inv)) == 500
  {
    var records := [Usage(Compute, 999, 0.0), Usage(Storage, 999, 0.0), Usage(Egress, 999, 0.0)];
    assert records[..2] == [records[0], records[1]] && records[..2][..1] == [records[0]] && [records[0]][..0] == [];
    forall m | IsCost(m) ensures MicroOf(records, m) == 999 {
      assert MicroOf([records[0]], m) == if m == Compute then 999 else 0;
      assert MicroOf(records[..2], m) == MicroOf([records[0]], m) + if m == Storage then 999 else 0;
    }
    MicroSplits(records);
    forall inv | IsInvoice(Some(Plan(500, 0, 0)), records, inv)
      ensures inv.charge == 502 && SumItems(Rows(Some(Plan(500, 0, 0)), records, inv)) == 500
    {
      RowsSum(Some(Plan(500, 0, 0)), records, inv);
    }
  }
}
