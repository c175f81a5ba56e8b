/** The invoice history: month windows walked back from the period end. */
module InvoiceHistory {
  import opened Prelude
  import opened Calendar
  import opened Invoices
  import opened Subscriptions

  const MAX_PERIODS := 24

  datatype Subscription = Subscription(status: Status, currentPeriodEnd: Option<real>)

  datatype InvoiceStatus = Open | Paid | Overdue

  datatype Period = Period(start: real, end: real, status: InvoiceStatus, invoice: Invoice, items: seq<LineItem>)

  function ClampLimit(limit: int): (n: nat)
    ensures 1 <= n <= MAX_PERIODS
  {
    if limit <= 0 then 12 else if limit > MAX_PERIODS then MAX_PERIODS else limit
  }

  function PeriodEnd(sub: Option<Subscription>, now: real): real {
    if sub.Some? && sub.value.currentPeriodEnd.Some? then sub.value.currentPeriodEnd.value else now
  }

  function StatusOf(sub: Option<Subscription>, current: bool): InvoiceStatus {
    if current then Open
    else if sub.Some? && sub.value.status in {PastDue, Unpaid, Canceled} then Overdue
    else Paid
  }

  /** The k-th boundary back from `end`. */
  function Boundary(end: real, k: nat): real {
    if k == 0 then end else MonthEarlier(Boundary(end, k - 1))
  }

  /** Records of the half-open window, in their order. */
  function InWindow(records: seq<Usage>, start: real, end: real): seq<Usage> {
    if records == [] then []
    else
      var front, last := InWindow(records[..|records| - 1], start, end), records[|records| - 1];
      if start <= last.at < end then front + [last] else front
  }

  function WindowOf(records: seq<Usage>, end: real, k: nat): seq<Usage> {
    InWindow(records, Boundary(end, k + 1), Boundary(end, k))
  }

  /** Nothing used and nothing charged: what makes the walk stop at a closed period. */
  ghost predicate EmptyPeriod(plan: Option<Plan>, records: seq<Usage>) {
    UsageCents(records) == 0 && exists inv :: IsInvoice(plan, records, inv) && inv.charge == 0
  }

  lemma InvoiceUnique(plan: Option<Plan>, records: seq<Usage>, a: Invoice, b: Invoice)
    requires IsInvoice(plan, records, a) && IsInvoice(plan, records, b)
    ensures a == b
  {
  }

  method SliceWindow(records: seq<Usage>, start: real, end: real) returns (inPeriod: seq<Usage>)
    ensures inPeriod == InWindow(records, start, end)
  {
    inPeriod := [];
    for k := 0 to |records|
      invariant inPeriod == InWindow(records[..k], start, end)
    {
      assert records[..k + 1][..k] == records[..k];
      if start <= records[k].at && records[k].at < end {
        inPeriod := inPeriod + [records[k]];
      }
    }
    assert records[..|records|] == records;
  }

  /** The k-th period of a history that ends at `end`. */
  ghost predicate IsPeriod(sub: Option<Subscription>, plan: Option<Plan>, records: seq<Usage>, end: real, k: nat,
                           p: Period)
  {
    && p.start == Boundary(end, k + 1) && p.end == Boundary(end, k)
    && p.status == StatusOf(sub, k == 0)
    && IsInvoice(plan, WindowOf(records, end, k), p.invoice)
    && p.items == Rows(plan, WindowOf(records, end, k), p.invoice)
  }

  method ComputePeriod(sub: Option<Subscription>, plan: Option<Plan>, records: seq<Usage>, periodEnd: real,
                       current: bool, ghost end: real, ghost k: nat)
    returns (p: Period)
    requires periodEnd == Boundary(end, k) && current == (k == 0)
    ensures IsPeriod(sub, plan, records, end, k, p)
    ensures p.invoice.charge == 0 && p.invoice.usageSoFar == 0 <==> EmptyPeriod(plan, WindowOf(records, end, k))
  {
    var start := MonthEarlier(periodEnd);
    var inPeriod := SliceWindow(records, start, periodEnd);
    var inv := InvoiceFromRecords(plan, inPeriod);
    var items := LineItems(plan, inPeriod, inv);
    p := Period(start, periodEnd, StatusOf(sub, current), inv, items);
    assert inPeriod == WindowOf(records, end, k);
    forall other | IsInvoice(plan, inPeriod, other) ensures other == inv {
      InvoiceUnique(plan, inPeriod, other, inv);
    }
  }

  ghost predicate ArePeriods(sub: Option<Subscription>, plan: Option<Plan>, records: seq<Usage>, end: real,
                             out: seq<Period>)
  {
    forall k :: 0 <= k < |out| ==> IsPeriod(sub, plan, records, end, k, out[k])
  }

  lemma ArePeriodsAppend(sub: Option<Subscription>, plan: Option<Plan>, records: seq<Usage>, end: real,
                         out: seq<Period>, p: Period)
    requires ArePeriods(sub, plan, records, end, out) && IsPeriod(sub, plan, records, end, |out|, p)
    ensures ArePeriods(sub, plan, records, end, out + [p])
  {
  }

  /** Contiguous periods back from the period end, cut short only by an empty closed period, the first one there is. */
  ghost predicate IsHistory(sub: Option<Subscription>, plan: Option<Plan>, records: seq<Usage>, now: real, limit: int,
                            out: seq<Period>)
  {
    var end := PeriodEnd(sub, now);
    && 1 <= |out| <= ClampLimit(limit)
    && ArePeriods(sub, plan, records, end, out)
    && (|out| < ClampLimit(limit) ==> |out| > 1 && EmptyPeriod(plan, WindowOf(records, end, |out| - 1)))
    && forall k :: 0 < k < |out| - 1 ==> !EmptyPeriod(plan, WindowOf(records, end, k))
  }

  /** Newest period first, one month each, until the limit or an empty closed period. */
  method History(sub: Option<Subscription>, plan: Option<Plan>, records: seq<Usage>, now: real, limit: int)
    returns (out: seq<Period>)
    ensures IsHistory(sub, plan, records, now, limit, out)
  {
    var n := ClampLimit(limit);
    var periodEnd := PeriodEnd(sub, now);
    ghost var end := periodEnd;
    out := [];
    for i := 0 to n
      invariant |out| == i && periodEnd == Boundary(end, i)
      invariant ArePeriods(sub, plan, records, end, out)
      invariant forall k :: 0 < k < |out| ==> !EmptyPeriod(plan, WindowOf(records, end, k))
    {
      var p := ComputePeriod(sub, plan, records, periodEnd, i == 0, end, i);
      ArePeriodsAppend(sub, plan, records, end, out, p);
      out := out + [p];
      if i > 0 && p.invoice.charge == 0 && p.invoice.usageSoFar == 0 {
        return;
      }
      periodEnd := p.start;
    }
  }

  /** What a history looks like from outside: it starts at the subscription's period end, or at the present if none is
      known, every period ends where the one before it starts, the newest is open, and the others are overdue exactly
      when the subscription is in dunning or canceled. */
  lemma HistoryShape(sub: Option<Subscription>, plan: Option<Plan>, records: seq<Usage>, now: real, limit: int,
                     out: seq<Period>)
    requires IsHistory(sub, plan, records, now, limit, out)
    ensures 1 <= |out| <= if limit < 1 then 12 else if limit > 24 then 24 else limit
    ensures sub.Some? && sub.value.currentPeriodEnd.Some? ==> Some(out[0].end) == sub.value.currentPeriodEnd
    ensures sub.None? || sub.value.currentPeriodEnd.None? ==> out[0].end == now
    ensures out[0].status == Open
    ensures forall k :: 0 < k < |out| ==>
              && out[k].end == out[k - 1].start
              && (out[k].status == Overdue || out[k].status == Paid)
              && (out[k].status == Overdue
                  <==> sub.Some? && (sub.value.status == PastDue || sub.value.status == Unpaid
                                     || sub.value.status == Canceled))
  {
    assert IsPeriod(sub, plan, records, PeriodEnd(sub, now), 0, out[0]);
    forall k | 0 < k < |out| ensures out[k].end == out[k - 1].start && out[k].status == StatusOf(sub, false) {
      assert IsPeriod(sub, plan, records, PeriodEnd(sub, now), k, out[k]);
      assert IsPeriod(sub, plan, records, PeriodEnd(sub, now), k - 1, out[k - 1]);
    }
  }

  // ---- the windows ----

  /** Windows are contiguous by construction of the boundaries. One that ends on the d-th of a month starts, at the same
      time of day, on the d-th of the month before, or past its end if it has no such day: either way the window is as
      long as that month. */
  lemma WindowLength(end: real, k: nat, y: nat, month: nat, d: int)
    requires month < 12 && 1 <= d <= MonthDays(y, month) && (y > 0 || month > 0)
    requires Boundary(end, k).Floor == DayNumber(y, month, d)
    ensures var (py, pm) := if month > 0 then (y, month - 1) else (y - 1, 11);
            var start, time := Boundary(end, k + 1), Boundary(end, k) - DayNumber(y, month, d) as real;
            && start == Boundary(end, k) - MonthDays(py, pm) as real
            && (d <= MonthDays(py, pm) ==> start == DayNumber(py, pm, d) as real + time)
            && (d > MonthDays(py, pm) ==> start == DayNumber(y, month, d - MonthDays(py, pm)) as real + time)
  {
    MonthEarlierIs(Boundary(end, k), y, month, d);
  }

  /** Month x, counted from January of year 0, has a d-th. */
  predicate HasDay(x: int, d: int) {
    1 <= d <= DaysIn(x)
  }

  lemma MonthEarlierOnDay(t: real, m: int, d: int, time: real)
    requires HasDay(m, d) && 0.0 <= time < 1.0 && t == (MonthStart(m) + d - 1) as real + time
    ensures MonthEarlier(t) == (MonthStart(m - 1) + d - 1) as real + time
  {
    MonthLength(m);
    MonthOfContains(t.Floor);
    MonthUnique(MonthOf(t.Floor), m, t.Floor);
  }

  lemma {:induction false} BoundaryInMonth(end: real, m: int, d: int, time: real, n: nat)
    requires 0.0 <= time < 1.0 && end == (MonthStart(m) + d - 1) as real + time
    requires forall x :: m - n < x <= m ==> HasDay(x, d)
    ensures Boundary(end, n) == (MonthStart(m - n) + d - 1) as real + time
    decreases n
  {
    if n == 0 {
    } else {
      BoundaryInMonth(end, m, d, time, n - 1);
      MonthEarlierOnDay(Boundary(end, n - 1), m - n + 1, d, time);
    }
  }

  lemma {:induction false} BoundaryFrom(end: real, j: nat, n: nat)
    ensures Boundary(end, j + n) == Boundary(Boundary(end, j), n)
    decreases n
  {
    if n == 0 {
    } else {
      BoundaryFrom(end, j, n - 1);
    }
  }

  /** A period end on the d-th, no later than the 28th, keeps its day of the month and time of day through the whole
      history: the n-th boundary is n calendar months back. */
  lemma BoundaryOnDay(end: real, y: nat, month: nat, d: int, time: real, n: nat, y': nat, month': nat)
    requires month < 12 && month' < 12 && 12 * y + month == 12 * y' + month' + n
    requires 1 <= d <= 28 && 0.0 <= time < 1.0 && end == DayNumber(y, month, d) as real + time
    ensures Boundary(end, n) == DayNumber(y', month', d) as real + time
  {
    DayOfMonth(y, month, d);
    DayOfMonth(y', month', d);
    BoundaryInMonth(end, 12 * y + month, d, time, n);
  }

  lemma EveryMonthHas(d: int)
    requires 1 <= d <= 28
    ensures forall x :: HasDay(x, d)
  {
  }

  lemma RunsOver(end: real, m: int, d: int, time: real, j: nat, over: int)
    requires 1 <= d <= 31 && 0.0 <= time < 1.0 && end == (MonthStart(m) + d - 1) as real + time
    requires forall x :: m - j <= x <= m ==> HasDay(x, d)
    requires !HasDay(m - j - 1, d) && over == d - DaysIn(m - j - 1)
    ensures 1 <= over <= 3
    ensures Boundary(end, j + 1) == (MonthStart(m - j) + over - 1) as real + time
  {
    BoundaryInMonth(end, m, d, time, j + 1);
    MonthLength(m - j - 1);
  }

  lemma EarlyDayKept(end: real, j: nat, m: int, d: int, time: real, n: nat)
    requires 1 <= d <= 28 && 0.0 <= time < 1.0 && Boundary(end, j) == (MonthStart(m) + d - 1) as real + time
    ensures Boundary(end, j + n) == (MonthStart(m - n) + d - 1) as real + time
  {
    EveryMonthHas(d);
    BoundaryInMonth(Boundary(end, j), m, d, time, n);
    BoundaryFrom(end, j, n);
  }

  /** Any day is kept as long as the months on the way have it. The first month that does not have it is never
      reached: the boundary stays in the month after it, on the day by which the date runs over, and that one is kept
      for good. */
  lemma BoundaryOverflow(end: real, m: int, d: int, time: real, j: nat, over: int, n: nat)
    requires 1 <= d <= 31 && 0.0 <= time < 1.0 && end == (MonthStart(m) + d - 1) as real + time
    requires forall x :: m - j <= x <= m ==> HasDay(x, d)
    requires !HasDay(m - j - 1, d) && over == d - DaysIn(m - j - 1)
    ensures Boundary(end, j) == (MonthStart(m - j) + d - 1) as real + time
    ensures Boundary(end, j + 1 + n) == (MonthStart(m - j - n) + over - 1) as real + time
  {
    BoundaryInMonth(end, m, d, time, j);
    RunsOver(end, m, d, time, j, over);
    EarlyDayKept(end, j + 1, m - j, over, time, n);
  }

  lemma NextBoundary(end: real, k: nat)
    ensures Boundary(end, k + 1) < Boundary(end, k)
  {
    MonthEarlierLength(Boundary(end, k));
  }

  lemma {:induction false} BoundariesDescend(end: real, j: nat, k: nat)
    requires j <= k
    ensures Boundary(end, k) <= Boundary(end, j)
    ensures j < k ==> Boundary(end, k) < Boundary(end, j)
    decreases k
  {
    if j == k {
    } else {
      BoundariesDescend(end, j, k - 1);
      NextBoundary(end, k - 1);
    }
  }

  predicate InPeriod(end: real, k: nat, at: real) {
    Boundary(end, k + 1) <= at < Boundary(end, k)
  }

  lemma {:induction false} SomeWindow(end: real, m: nat, at: real)
    requires Boundary(end, m) <= at < end
    ensures exists k: nat :: k < m && InPeriod(end, k, at)
    decreases m
  {
    if at < Boundary(end, m - 1) {
      assert InPeriod(end, m - 1, at);
    } else {
      SomeWindow(end, m - 1, at);
    }
  }

  lemma OnlyWindow(end: real, j: nat, k: nat, at: real)
    requires InPeriod(end, j, at) && InPeriod(end, k, at)
    ensures j == k
  {
    if j < k { BoundariesDescend(end, j + 1, k); }
    if k < j { BoundariesDescend(end, k + 1, j); }
  }

  /** Every instant between the oldest start and the period end lies in exactly one window. */
  lemma ExactlyOneWindow(end: real, m: nat, at: real)
    requires Boundary(end, m) <= at < end
    ensures exists k: nat :: k < m && InPeriod(end, k, at) && forall j: nat :: InPeriod(end, j, at) ==> j == k
  {
    SomeWindow(end, m, at);
    var k: nat :| k < m && InPeriod(end, k, at);
    forall j: nat | InPeriod(end, j, at) ensures j == k {
      OnlyWindow(end, j, k, at);
    }
  }

  // ---- the sums ----

  lemma {:induction false} WindowsAdd(records: seq<Usage>, a: real, b: real, c: real)
    requires a <= b <= c
    ensures Micro(InWindow(records, a, c)) == Micro(InWindow(records, a, b)) + Micro(InWindow(records, b, c))
  {
    if records == [] {
    } else {
      var front, last := records[..|records| - 1], records[|records| - 1];
      WindowsAdd(front, a, b, c);
      MicroAppend(InWindow(front, a, c), last);
      MicroAppend(InWindow(front, a, b), last);
      MicroAppend(InWindow(front, b, c), last);
    }
  }

  lemma MicroAppend(records: seq<Usage>, r: Usage)
    ensures Micro(records + [r]) == Micro(records) + if IsCost(r.metric) then r.quantity else 0
  {
    assert (records + [r])[..|records|] == records;
  }

  lemma {:induction false} WindowNonNegative(records: seq<Usage>, start: real, end: real)
    requires NonNegative(records)
    ensures NonNegative(InWindow(records, start, end))
  {
    if records == [] {
    } else {
      WindowNonNegative(records[..|records| - 1], start, end);
    }
  }

  /** Usage cents over the first m periods of the history. */
  function SumOfPeriods(records: seq<Usage>, end: real, m: nat): int {
    if m == 0 then 0 else SumOfPeriods(records, end, m - 1) + UsageCents(WindowOf(records, end, m - 1))
  }

  /** Billing period by period loses less than one cent per period boundary against billing everything at once. */
  lemma {:induction false} HistoryShortfall(records: seq<Usage>, end: real, m: nat)
    requires NonNegative(records) && m > 0
    ensures var total := Quo(Micro(InWindow(records, Boundary(end, m), end)), 1000);
            total - (m - 1) <= SumOfPeriods(records, end, m) <= total
  {
    var older, newer := WindowOf(records, end, m - 1), InWindow(records, Boundary(end, m - 1), end);
    WindowNonNegative(records, Boundary(end, m), Boundary(end, m - 1));
    MicroNonNegative(older, Compute);
    if m > 1 {
      HistoryShortfall(records, end, m - 1);
      BoundariesDescend(end, m - 1, m);
      BoundariesDescend(end, 0, m - 1);
      WindowsAdd(records, Boundary(end, m), Boundary(end, m - 1), end);
      WindowNonNegative(records, Boundary(end, m - 1), end);
      MicroNonNegative(newer, Compute);
    }
  }

  /** Usage cents as a history shows them. */
  function SumShown(out: seq<Period>): int {
    if out == [] then 0 else SumShown(out[..|out| - 1]) + out[|out| - 1].invoice.usageSoFar
  }

  lemma {:induction false} ShownIsSum(sub: Option<Subscription>, plan: Option<Plan>, records: seq<Usage>, end: real,
                                      out: seq<Period>)
    requires ArePeriods(sub, plan, records, end, out)
    ensures SumShown(out) == SumOfPeriods(records, end, |out|)
  {
    if out == [] {
    } else {
      ShownIsSum(sub, plan, records, end, out[..|out| - 1]);
      assert IsPeriod(sub, plan, records, end, |out| - 1, out[|out| - 1]);
    }
  }

  /** What a history shows falls short of the whole cents of all the usage it covers by less than one cent per period
      boundary. */
  lemma HistoryAddsUp(sub: Option<Subscription>, plan: Option<Plan>, records: seq<Usage>, now: real, limit: int,
                      out: seq<Period>)
    requires IsHistory(sub, plan, records, now, limit, out) && NonNegative(records)
    ensures var end := PeriodEnd(sub, now);
            var total := Quo(Micro(InWindow(records, Boundary(end, |out|), end)), 1000);
            total - (|out| - 1) <= SumShown(out) <= total
  {
    ShownIsSum(sub, plan, records, PeriodEnd(sub, now), out);
    HistoryShortfall(records, PeriodEnd(sub, now), |out|);
  }

  lemma LoneRecord(r: Usage, start: real, end: real)
    ensures InWindow([r], start, end) == if start <= r.at < end then [r] else []
    ensures r.metric == Compute ==> Micro([r]) == r.quantity
  {
    assert [r][..0] == [];
    assert InWindow([], start, end) + [r] == [r];
  }

  /** A period within the limit is missing from the history exactly when some closed period after it is empty:
      then, and only then, its usage is hidden. */
  lemma MissingIff(sub: Option<Subscription>, plan: Option<Plan>, records: seq<Usage>, now: real, limit: int,
                   out: seq<Period>, k: nat)
    requires IsHistory(sub, plan, records, now, limit, out) && k < ClampLimit(limit)
    ensures k >= |out| <==> exists j: nat :: 0 < j < k && EmptyPeriod(plan, WindowOf(records, PeriodEnd(sub, now), j))
  {
    if k >= |out| {
      assert EmptyPeriod(plan, WindowOf(records, PeriodEnd(sub, now), |out| - 1));
    }
  }

  /** One quiet month is enough: the history has two periods, and the usage of the third is not shown. */
  lemma QuietMonthHidesUsage(now: real, limit: int, out: seq<Period>)
    requires ClampLimit(limit) >= 3
    requires IsHistory(None, None, [Usage(Compute, 1000, Boundary(now, 3))], now, limit, out)
    ensures UsageCents(WindowOf([Usage(Compute, 1000, Boundary(now, 3))], now, 2)) == 1 && |out| == 2
  {
    var r := Usage(Compute, 1000, Boundary(now, 3));
    NextBoundary(now, 2);
    LoneRecord(r, Boundary(now, 2), Boundary(now, 1));
    LoneRecord(r, Boundary(now, 3), Boundary(now, 2));
    assert IsInvoice(None, [], Invoice(0, 0, 0, 0));
    assert WindowOf([r], now, 1) == [] && WindowOf([r], now, 2) == [r];
    assert EmptyPeriod(None, WindowOf([r], PeriodEnd(None, now), 1));
    MissingIff(None, None, [r], now, limit, out, 2);
    MissingIff(None, None, [r], now, limit, out, 1);
  }
}
