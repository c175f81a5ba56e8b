/** Reporting metered usage to the payment provider as increments against a stored watermark, for one
    organization and one reporter. Cents are whole cents of usage; `accepted` is what the provider has booked. */
module UsageReport {
  import opened Prelude
  import opened Invoices

  /** The stored watermark: the period it belongs to and the cents reported in it. */
  datatype Mark = Mark(start: real, cents: int)

  datatype Reply = Accepted | Rejected | LostReply

  datatype State = State(records: seq<Usage>, period: real, mark: Option<Mark>, accepted: map<real, int>)

  /** `Rollover` is whatever changes the billing period: nothing keeps the new start from lying before the old one. */
  datatype Action = AddRecord(r: Usage) | Rollover(start: real) | Tick(reply: Reply, persist: Fault)

  function Since(records: seq<Usage>, start: real): seq<Usage> {
    if records == [] then []
    else
      var front, last := Since(records[..|records| - 1], start), records[|records| - 1];
      if last.at >= start then front + [last] else front
  }

  function Booked(s: State, start: real): int {
    if start in s.accepted then s.accepted[start] else 0
  }

  /** Cents due in the current period. */
  function Due(s: State): int {
    UsageCents(Since(s.records, s.period))
  }

  /** A watermark of an earlier period counts for nothing. */
  function Already(s: State): int {
    if s.mark.Some? && s.mark.value.start >= s.period then s.mark.value.cents else 0
  }

  function Store(s: State, cents: int, persist: Fault): State {
    if persist == FailBefore then s else s.(mark := Some(Mark(s.period, cents)))
  }

  function Report(s: State, reply: Reply, persist: Fault): State {
    var delta := Due(s) - Already(s);
    if delta <= 0 then Store(s, Already(s), persist)
    else
      var booked := s.(accepted := s.accepted[s.period := Booked(s, s.period) + delta]);
      match reply
      case Rejected => s
      case LostReply => booked
      case Accepted => Store(booked, Due(s), persist)
  }

  function Step(s: State, a: Action): State {
    match a
    case AddRecord(r) => if r.quantity >= 0 then s.(records := s.records + [r]) else s
    case Rollover(start) => s.(period := start)
    case Tick(reply, persist) => Report(s, reply, persist)
  }

  function Run(s: State, acts: seq<Action>): State
    decreases |acts|
  {
    if acts == [] then s else Run(Step(s, acts[0]), acts[1..])
  }

  function Fresh(period: real): State {
    State([], period, None, map[])
  }

  // ---- what holds in every schedule ----

  lemma {:induction false} SinceNonNegative(records: seq<Usage>, start: real)
    requires NonNegative(records)
    ensures NonNegative(Since(records, start))
  {
    if records == [] {
    } else {
      SinceNonNegative(records[..|records| - 1], start);
    }
  }

  lemma SinceAppend(records: seq<Usage>, r: Usage, start: real)
    ensures Since(records + [r], start) == Since(records, start) + if r.at >= start then [r] else []
    ensures Micro(Since(records + [r], start))
            == Micro(Since(records, start)) + if r.at >= start && IsCost(r.metric) then r.quantity else 0
  {
    var kept := Since(records, start);
    assert (records + [r])[..|records|] == records;
    if r.at >= start {
      assert (kept + [r])[..|kept|] == kept;
    }
  }

  /** An earlier start counts at least as much. */
  lemma {:induction false} SinceShrinks(records: seq<Usage>, a: real, b: real)
    requires NonNegative(records) && a <= b
    ensures 0 <= Micro(Since(records, b)) <= Micro(Since(records, a))
  {
    if records == [] {
    } else {
      var front, last := records[..|records| - 1], records[|records| - 1];
      SinceShrinks(front, a, b);
      SinceAppend(front, last, a);
      SinceAppend(front, last, b);
      assert records == front + [last];
    }
  }

  /** The watermark counts no more than its period has used. */
  ghost predicate Covered(s: State) {
    && NonNegative(s.records)
    && (s.mark.Some? ==> s.mark.value.cents <= UsageCents(Since(s.records, s.mark.value.start)))
  }

  lemma DueCovers(s: State)
    requires Covered(s)
    ensures 0 <= Due(s) && Already(s) <= Due(s)
    ensures Due(s) == Micro(Since(s.records, s.period)) / 1000
  {
    SinceShrinks(s.records, s.period, s.period);
    if s.mark.Some? && s.mark.value.start >= s.period {
      SinceShrinks(s.records, s.period, s.mark.value.start);
    }
  }

  lemma StepCovered(s: State, a: Action)
    requires Covered(s)
    ensures Covered(Step(s, a))
  {
    match a
    case AddRecord(r) =>
      if s.mark.Some? {
        SinceAppend(s.records, r, s.mark.value.start);
        SinceShrinks(s.records, s.mark.value.start, s.mark.value.start);
      }
    case Rollover(_) =>
    case Tick(_, _) => DueCovers(s);
  }

  lemma {:induction false} RunCovered(s: State, acts: seq<Action>)
    requires Covered(s)
    ensures Covered(Run(s, acts))
    decreases |acts|
  {
    if acts == [] {
    } else {
      StepCovered(s, acts[0]);
      RunCovered(Step(s, acts[0]), acts[1..]);
    }
  }

  lemma FreshCovered(period: real, acts: seq<Action>)
    ensures Covered(Run(Fresh(period), acts))
  {
    RunCovered(Fresh(period), acts);
  }

  /** Cents of the current period that were booked without being recorded. */
  function Drift(s: State): int {
    Booked(s, s.period) - Already(s)
  }

  predicate Loses(a: Action) {
    a.Tick? && (a.reply == LostReply || (a.reply == Accepted && a.persist == FailBefore))
  }

  /** From any state, a tick bills cents a second time exactly when the provider booked a positive increment that was
      not recorded, and then exactly that increment. */
  lemma TickDrift(s: State, reply: Reply, persist: Fault)
    ensures var s', delta := Report(s, reply, persist), Due(s) - Already(s);
            Drift(s') == Drift(s) + if delta > 0 && Loses(Tick(reply, persist)) then delta else 0
  {
    assert Report(s, reply, persist).period == s.period;
  }

  predicate Clean(acts: seq<Action>) {
    forall k :: 0 <= k < |acts| ==> !Loses(acts[k])
  }

  predicate NoRollover(acts: seq<Action>) {
    forall k :: 0 <= k < |acts| ==> !acts[k].Rollover?
  }

  /** Inside a period a clean schedule keeps the drift, adds records, and touches no other period's booking. */
  lemma {:induction false} CleanKeepsDrift(s: State, acts: seq<Action>)
    requires Clean(acts) && NoRollover(acts)
    ensures var s' := Run(s, acts);
            && Drift(s') == Drift(s) && s'.period == s.period && s.records <= s'.records
            && forall start :: start != s.period ==> Booked(s', start) == Booked(s, start)
    decreases |acts|
  {
    if acts == [] {
    } else {
      var next := Step(s, acts[0]);
      if acts[0].Tick? {
        TickDrift(s, acts[0].reply, acts[0].persist);
      }
      assert Drift(next) == Drift(s) && next.period == s.period && s.records <= next.records;
      CleanKeepsDrift(next, acts[1..]);
    }
  }

  /** A successful tick leaves the watermark at the cents due, and the booked cents off by the drift. */
  lemma TickBooks(s: State, persist: Fault)
    requires Covered(s) && persist != FailBefore
    ensures var s' := Report(s, Accepted, persist);
            && s'.mark == Some(Mark(s.period, Due(s))) && s'.records == s.records && s'.period == s.period
            && Booked(s', s.period) == Due(s) + Drift(s) && Drift(s') == Drift(s)
            && forall start :: start != s.period ==> Booked(s', start) == Booked(s, start)
  {
    DueCovers(s);
    TickDrift(s, Accepted, persist);
  }

  // ---- when the period moves ----

  /** The cents a period starting there would take as reported already. */
  function Taken(s: State, start: real): int {
    Already(s.(period := start))
  }

  /** After any schedule at all, moving the period to any start, a clean stretch and a successful tick, the booked
      cents exceed the cents due by what was booked there before less what the watermark then counted for. So the
      period is billed exactly if and only if the two agreed when the period moved, and the watermark stays behind
      the booked cents if and only if it was behind them then. */
  lemma MovedPeriodIff(period: real, before: seq<Action>, start: real, after: seq<Action>, persist: Fault)
    requires Clean(after) && NoRollover(after) && persist != FailBefore
    ensures var s0 := Run(Fresh(period), before);
            var s := Run(Step(s0, Rollover(start)), after);
            var s' := Report(s, Accepted, persist);
            && s'.mark == Some(Mark(start, Due(s)))
            && Booked(s', start) == Due(s) + (Booked(s0, start) - Taken(s0, start))
            && (Booked(s', start) == Due(s) <==> Booked(s0, start) == Taken(s0, start))
            && (s'.mark.value.cents <= Booked(s', start) <==> Taken(s0, start) <= Booked(s0, start))
  {
    var s0 := Run(Fresh(period), before);
    var moved := Step(s0, Rollover(start));
    FreshCovered(period, before);
    RunCovered(moved, after);
    CleanKeepsDrift(moved, after);
    TickBooks(Run(moved, after), persist);
    assert Booked(moved, start) == Booked(s0, start);
  }

  /** One cent of usage is booked, and the period has moved on. */
  lemma ReportedAndMovedOn(early: real, late: real, r: Usage)
    requires early < late && r == Usage(Compute, 1000, early)
    ensures var tick := Tick(Accepted, NoFault);
            Step(Step(Step(Step(Fresh(early), AddRecord(r)), tick), Rollover(late)), tick)
            == State([r], late, Some(Mark(late, 0)), map[early := 1])
  {
    var tick := Tick(Accepted, NoFault);
    var s1 := Step(Fresh(early), AddRecord(r));
    TickBooksOneCent(s1, r);
    var s3 := Step(Step(s1, tick), Rollover(late));
    assert s3 == State([r], late, Some(Mark(early, 1)), map[early := 1]);
    NoneSince([r], late);
    assert Due(s3) == 0 && Already(s3) == 0;
  }

  /** Back again, it is booked once more. */
  lemma BackAgainBillsAgain(early: real, late: real, r: Usage)
    requires early < late && r == Usage(Compute, 1000, early)
    ensures var s := State([r], late, Some(Mark(late, 0)), map[early := 1]);
            var s' := Step(Step(s, Rollover(early)), Tick(Accepted, NoFault));
            Due(s') == 1 && Booked(s', early) == 2
  {
    OneCent(r, early);
    TickBooksOneCent(State([r], early, Some(Mark(late, 0)), map[early := 1]), r);
  }

  /** Forward and back again, every reply accepted and every write stored: one cent of usage is booked twice. */
  lemma MovingBackBillsTwice(early: real, late: real)
    requires early < late
    ensures var r := Usage(Compute, 1000, early);
            var tick := Tick(Accepted, NoFault);
            var s := Run(Fresh(early), [AddRecord(r), tick, Rollover(late), tick] + [Rollover(early), tick]);
            Due(s) == 1 && Booked(s, early) == 2
  {
    var r := Usage(Compute, 1000, early);
    var tick := Tick(Accepted, NoFault);
    RunFour(Fresh(early), AddRecord(r), tick, Rollover(late), tick, [Rollover(early), tick]);
    ReportedAndMovedOn(early, late, r);
    RunTwo(State([r], late, Some(Mark(late, 0)), map[early := 1]), Rollover(early), tick);
    BackAgainBillsAgain(early, late, r);
  }

  /** And moving back over an already reported period puts the watermark ahead of what was booked. */
  lemma MovingBackPutsWatermarkAhead(early: real, late: real)
    requires early < late
    ensures var r := Usage(Compute, 1000, late);
            var tick := Tick(Accepted, NoFault);
            var s := Run(Fresh(late), [AddRecord(r), tick, Rollover(early), tick]);
            s.mark == Some(Mark(early, 1)) && Booked(s, early) == 0
  {
    var r := Usage(Compute, 1000, late);
    var tick := Tick(Accepted, NoFault);
    RunFour(Fresh(late), AddRecord(r), tick, Rollover(early), tick, []);
    assert [AddRecord(r), tick, Rollover(early), tick] + [] == [AddRecord(r), tick, Rollover(early), tick];
    var s1 := Step(Fresh(late), AddRecord(r));
    TickBooksOneCent(s1, r);
    var s3 := Step(Step(s1, tick), Rollover(early));
    assert s3 == State([r], early, Some(Mark(late, 1)), map[late := 1]);
    OneCent(r, early);
    assert Due(s3) == 1 && Already(s3) == 1;
  }

  // ---- when the period never moves back ----

  /** A caller can check this schedule by schedule: each new start is no earlier than the one it replaces. */
  predicate Forward(period: real, acts: seq<Action>)
    decreases |acts|
  {
    acts == [] ||
    (match acts[0]
     case Rollover(start) => start >= period && Forward(start, acts[1..])
     case _ => Forward(period, acts[1..]))
  }

  /** Only periods up to the current one have been touched, and the watermark is behind what was booked for it. */
  ghost predicate Inv(s: State) {
    && Covered(s)
    && (forall start :: start in s.accepted ==> s.accepted[start] >= 0 && start <= s.period)
    && (s.mark.Some? ==> s.mark.value.start <= s.period && s.mark.value.cents <= Booked(s, s.mark.value.start))
  }

  lemma ReportKeeps(s: State, reply: Reply, persist: Fault)
    requires Inv(s)
    ensures Inv(Report(s, reply, persist))
  {
    var s' := Report(s, reply, persist);
    StepCovered(s, Tick(reply, persist));
    DueCovers(s);
    forall start | start in s'.accepted ensures s'.accepted[start] >= 0 && start <= s'.period {
      if start != s.period { assert start in s.accepted; }
    }
  }

  lemma StepKeeps(s: State, a: Action)
    requires Inv(s) && (a.Rollover? ==> a.start >= s.period)
    ensures Inv(Step(s, a))
  {
    match a
    case Tick(reply, persist) => ReportKeeps(s, reply, persist);
    case _ => StepCovered(s, a);
  }

  lemma {:induction false} RunKeeps(s: State, acts: seq<Action>)
    requires Inv(s) && Forward(s.period, acts)
    ensures Inv(Run(s, acts))
    decreases |acts|
  {
    if acts == [] {
    } else {
      StepKeeps(s, acts[0]);
      assert Step(s, acts[0]).period == if acts[0].Rollover? then acts[0].start else s.period;
      RunKeeps(Step(s, acts[0]), acts[1..]);
    }
  }

  /** As long as the period never moves back, the watermark never exceeds what the provider booked in its period,
      whatever the provider and the store do. */
  lemma WatermarkNeverAhead(period: real, acts: seq<Action>)
    requires Forward(period, acts)
    ensures var s := Run(Fresh(period), acts);
            s.mark.Some? ==> s.mark.value.cents <= Booked(s, s.mark.value.start)
  {
    RunKeeps(Fresh(period), acts);
  }

  lemma {:induction false} CleanHasNoDrift(s: State, acts: seq<Action>)
    requires Inv(s) && Drift(s) == 0 && Clean(acts) && Forward(s.period, acts)
    ensures Drift(Run(s, acts)) == 0
    decreases |acts|
  {
    if acts == [] {
    } else {
      var s' := Step(s, acts[0]);
      StepKeeps(s, acts[0]);
      match acts[0] {
        case Tick(reply, persist) => TickDrift(s, reply, persist);
        case AddRecord(_) =>
        case Rollover(start) => assert start > s.period ==> start !in s.accepted && Already(s') == 0;
      }
      assert Drift(s') == 0 && Forward(s'.period, acts[1..]);
      CleanHasNoDrift(s', acts[1..]);
    }
  }

  /** After any clean schedule of usage, refusals, ticks and rollovers that never move back, a successful tick leaves
      the watermark and the booked cents both at the whole cents of the period's total: the increments telescope with
      no rounding drift. */
  lemma IncrementsTelescope(period: real, acts: seq<Action>, persist: Fault)
    requires Clean(acts) && Forward(period, acts) && persist != FailBefore
    ensures var s := Run(Fresh(period), acts);
            var s' := Report(s, Accepted, persist);
            && s'.mark == Some(Mark(s.period, Due(s)))
            && Booked(s', s.period) == Due(s)
            && Due(s) == Micro(Since(s.records, s.period)) / 1000
  {
    RunKeeps(Fresh(period), acts);
    CleanHasNoDrift(Fresh(period), acts);
    DueCovers(Run(Fresh(period), acts));
    TickBooks(Run(Fresh(period), acts), persist);
  }

  // ---- record by record across a rollover ----

  /** Records and refused reports only. */
  predicate Silent(acts: seq<Action>) {
    forall k :: 0 <= k < |acts| ==> acts[k].AddRecord? || (acts[k].Tick? && acts[k].reply == Rejected)
  }

  lemma {:induction false} SilentRun(s: State, acts: seq<Action>)
    requires Silent(acts) && Inv(s) && Drift(s) == 0
    ensures var s' := Run(s, acts);
            && Inv(s') && s'.period == s.period && s.records <= s'.records
            && forall start :: Booked(s', start) == Booked(s, start)
    decreases |acts|
  {
    if acts == [] {
    } else {
      var next := Step(s, acts[0]);
      StepKeeps(s, acts[0]);
      assert next.period == s.period && s.records <= next.records;
      assert Drift(next) == 0 by {
        if acts[0].Tick? { TickDrift(s, acts[0].reply, acts[0].persist); }
      }
      assert forall start :: Booked(next, start) == Booked(s, start) by {
        DueCovers(s);
      }
      SilentRun(next, acts[1..]);
    }
  }

  /** Exact accounting across a rollover. The old period's last report is the tick after `before`; `between` is what
      happens from then to the rollover. The old period stays billed for the whole cents of what that report counted,
      and the new one is billed for everything dated since its start. */
  lemma RolloverAccounting(start: real, before: seq<Action>, stored: Fault, between: seq<Action>, next: real,
                           after: seq<Action>, persist: Fault)
    requires Clean(before) && Forward(start, before) && stored != FailBefore && Silent(between)
    requires Clean(after) && NoRollover(after) && persist != FailBefore
    requires Run(Fresh(start), before).period < next
    ensures var s1 := Report(Run(Fresh(start), before), Accepted, stored);
            var s := Run(Step(Run(s1, between), Rollover(next)), after);
            var s2 := Report(s, Accepted, persist);
            && s1.records <= s.records
            && Booked(s2, s1.period) == Micro(Since(s1.records, s1.period)) / 1000
            && Booked(s2, next) == Micro(Since(s.records, next)) / 1000
  {
    var s0 := Run(Fresh(start), before);
    var s1 := Report(s0, Accepted, stored);
    RunKeeps(Fresh(start), before);
    StepKeeps(s0, Tick(Accepted, stored));
    CleanHasNoDrift(Fresh(start), before);
    TickBooks(s0, stored);
    DueCovers(s0);
    SilentRun(s1, between);
    NewPeriodBills(Run(s1, between), next, after, persist);
  }

  lemma NewPeriodBills(s0: State, next: real, after: seq<Action>, persist: Fault)
    requires Inv(s0) && s0.period < next && Clean(after) && NoRollover(after) && persist != FailBefore
    ensures var s := Run(Step(s0, Rollover(next)), after);
            var s2 := Report(s, Accepted, persist);
            && s0.records <= s.records
            && Booked(s2, s0.period) == Booked(s0, s0.period)
            && Booked(s2, next) == Micro(Since(s.records, next)) / 1000
  {
    var moved := Step(s0, Rollover(next));
    assert next !in s0.accepted && Drift(moved) == 0;
    RunCovered(moved, after);
    CleanKeepsDrift(moved, after);
    DueCovers(Run(moved, after));
    TickBooks(Run(moved, after), persist);
  }

  /** How often the k-th record is billed when the old period's last report saw the first `counted` records. */
  function TimesBilled(records: seq<Usage>, k: nat, counted: nat, first: real, next: real): nat
    requires k < |records|
  {
    (if k < counted && records[k].at >= first then 1 else 0) + (if records[k].at >= next then 1 else 0)
  }

  /** The micro-cents of the first n records, each as often as it is billed. */
  function BilledMicro(records: seq<Usage>, n: nat, counted: nat, first: real, next: real): int
    requires n <= |records|
  {
    if n == 0 then 0
    else
      BilledMicro(records, n - 1, counted, first, next)
      + if IsCost(records[n - 1].metric)
        then TimesBilled(records, n - 1, counted, first, next) * records[n - 1].quantity else 0
  }

  /** What the k-th record adds to the two billings. */
  lemma RecordAdds(records: seq<Usage>, k: nat, counted: nat, first: real, next: real)
    requires k < |records| && IsCost(records[k].metric)
    ensures TimesBilled(records, k, counted, first, next) * records[k].quantity
            == (if k < counted && records[k].at >= first then records[k].quantity else 0)
               + if records[k].at >= next then records[k].quantity else 0
  {
  }

  lemma {:induction false} BilledMicroUpTo(records: seq<Usage>, n: nat, counted: nat, first: real, next: real)
    requires n <= |records|
    ensures BilledMicro(records, n, counted, first, next)
            == Micro(Since(records[..if n < counted then n else counted], first)) + Micro(Since(records[..n], next))
  {
    if n == 0 {
    } else {
      var k := n - 1;
      BilledMicroUpTo(records, k, counted, first, next);
      assert records[..n] == records[..k] + [records[k]];
      SinceAppend(records[..k], records[k], next);
      if k < counted {
        SinceAppend(records[..k], records[k], first);
      }
      if IsCost(records[k].metric) {
        RecordAdds(records, k, counted, first, next);
      }
    }
  }

  /** The two billings across a rollover are the sum over the records, each counted as often as it is billed: twice
      exactly when it was counted early but dated past the new start, never exactly when it arrived after the old
      period's last report but is dated before the new start, once otherwise. */
  lemma RolloverBillsRecords(records: seq<Usage>, counted: nat, first: real, next: real)
    requires first < next && counted <= |records|
    ensures Micro(Since(records[..counted], first)) + Micro(Since(records, next))
            == BilledMicro(records, |records|, counted, first, next)
    ensures forall k :: 0 <= k < |records| && records[k].at >= first ==>
              var times := TimesBilled(records, k, counted, first, next);
              && (times == 2 <==> k < counted && records[k].at >= next)
              && (times == 0 <==> k >= counted && records[k].at < next)
              && times <= 2
  {
    BilledMicroUpTo(records, |records|, counted, first, next);
    assert records[..|records|] == records;
  }

  lemma {:induction false} NoneSince(records: seq<Usage>, start: real)
    requires forall k :: 0 <= k < |records| ==> records[k].at < start
    ensures Since(records, start) == []
  {
    if records == [] {
    } else {
      NoneSince(records[..|records| - 1], start);
    }
  }

  /** A record dated past the new start but counted before the rollover is billed in both periods. */
  lemma EarlyRecordIsBilledTwice(start: real, next: real)
    requires start < next
    ensures var tick := Tick(Accepted, NoFault);
            var s := Run(Fresh(start), [AddRecord(Usage(Compute, 1000, next)), tick, Rollover(next), tick]);
            Booked(s, start) == 1 && Booked(s, next) == 1 && Micro(s.records) == 1000
  {
    var r := Usage(Compute, 1000, next);
    var tick := Tick(Accepted, NoFault);
    RunFour(Fresh(start), AddRecord(r), tick, Rollover(next), tick, []);
    assert [AddRecord(r), tick, Rollover(next), tick] + [] == [AddRecord(r), tick, Rollover(next), tick];
    var s1 := Step(Fresh(start), AddRecord(r));
    TickBooksOneCent(s1, r);
    var s3 := Step(Step(s1, tick), Rollover(next));
    assert s3 == State([r], next, Some(Mark(start, 1)), map[start := 1]);
    TickBooksOneCent(s3, r);
    OneCent(r, next);
  }

  /** A record dated before the new start that arrives after the old period's last report, as metering's catch-up
      after an outage produces them, is billed in neither. */
  lemma LateRecordIsNeverBilled(start: real, next: real, at: real)
    requires start <= at < next
    ensures var tick := Tick(Accepted, NoFault);
            var s := Run(Fresh(start), [tick, Rollover(next), AddRecord(Usage(Compute, 1000, at)), tick]);
            Booked(s, start) == 0 && Booked(s, next) == 0 && Micro(s.records) == 1000
  {
    var r := Usage(Compute, 1000, at);
    var tick := Tick(Accepted, NoFault);
    RunFour(Fresh(start), tick, Rollover(next), AddRecord(r), tick, []);
    assert [tick, Rollover(next), AddRecord(r), tick] + [] == [tick, Rollover(next), AddRecord(r), tick];
    var s3 := Step(Step(Step(Fresh(start), tick), Rollover(next)), AddRecord(r));
    assert s3.records == [r] && s3.period == next && s3.accepted == map[];
    NoneSince([r], next);
    assert Due(s3) == 0 && Already(s3) == 0;
    OneCent(r, at);
  }

  lemma OneCent(r: Usage, start: real)
    requires r.metric == Compute && r.quantity == 1000 && r.at >= start
    ensures Since([r], start) == [r] && Micro([r]) == 1000 && UsageCents([r]) == 1
  {
    assert [r][..0] == [] && Since([], start) + [r] == [r];
  }

  lemma TickBooksOneCent(s: State, r: Usage)
    requires s.records == [r] && r.metric == Compute && r.quantity == 1000 && r.at >= s.period && Already(s) == 0
    ensures Step(s, Tick(Accepted, NoFault))
            == State([r], s.period, Some(Mark(s.period, 1)), s.accepted[s.period := Booked(s, s.period) + 1])
  {
    OneCent(r, s.period);
  }

  lemma RunTwo(s: State, a: Action, b: Action)
    ensures Run(s, [a, b]) == Step(Step(s, a), b)
  {
    assert [a, b][1..] == [b] && [b][1..] == [];
    assert Run(Step(s, a), [b]) == Run(Step(Step(s, a), b), []);
  }

  lemma RunFour(s: State, a: Action, b: Action, c: Action, d: Action, rest: seq<Action>)
    ensures Run(s, [a, b, c, d] + rest) == Run(Step(Step(Step(Step(s, a), b), c), d), rest)
  {
    RunCons(s, a, [b, c, d] + rest);
    RunCons(Step(s, a), b, [c, d] + rest);
    RunCons(Step(Step(s, a), b), c, [d] + rest);
    RunCons(Step(Step(Step(s, a), b), c), d, rest);
    assert [a, b, c, d] + rest == [a] + ([b, c, d] + rest) && [b, c, d] + rest == [b] + ([c, d] + rest);
    assert [c, d] + rest == [c] + ([d] + rest);
  }

  lemma RunCons(s: State, a: Action, rest: seq<Action>)
    ensures Run(s, [a] + rest) == Run(Step(s, a), rest)
  {
    assert ([a] + rest)[1..] == rest;
  }

  // ---- the reporter ----

  class Reporter {
    var records: seq<Usage>
    var period: real
    var mark: Option<Mark>
    var accepted: map<real, int>

    constructor (period: real)
      ensures Snapshot() == Fresh(period)
    {
      records, this.period, mark, accepted := [], period, None, map[];
    }

    ghost function Snapshot(): State
      reads this
    {
      State(records, period, mark, accepted)
    }

    method ListUsageSince(start: real) returns (out: seq<Usage>)
      ensures out == Since(records, start)
    {
      out := [];
      for k := 0 to |records|
        invariant out == Since(records[..k], start)
      {
        assert records[..k + 1][..k] == records[..k];
        if !(records[k].at < start) {
          out := out + [records[k]];
        }
      }
      assert records[..|records|] == records;
    }

    method PersistReportState(cents: int, persist: Fault) returns (ok: bool)
      modifies `mark
      ensures mark == if persist == FailBefore then old(mark) else Some(Mark(period, cents))
      ensures ok <==> persist == NoFault
    {
      if persist != FailBefore {
        mark := Some(Mark(period, cents));
      }
      ok := persist == NoFault;
    }

    /** One report: `metered` says whether the provider supports it and the subscription item is known. */
    method ReportUsage(metered: bool, reply: Reply, persist: Fault) returns (pushed: bool, ok: bool)
      modifies this
      ensures Snapshot() == if metered then Report(old(Snapshot()), reply, persist) else old(Snapshot())
      ensures var due := old(Due(Snapshot())) > old(Already(Snapshot()));
              && (pushed <==> metered && due && reply == Accepted && persist == NoFault)
              && (ok <==> metered ==> persist == NoFault && (due ==> reply == Accepted))
      ensures pushed ==>
                var delta := old(Due(Snapshot())) - old(Already(Snapshot()));
                accepted == old(accepted)[period := old(Booked(Snapshot(), period)) + delta]
    {
      if !metered {
        return false, true;
      }
      var recs := ListUsageSince(period);
      var cents := UsageSoFarCents(recs);
      var already := 0;
      if mark.Some? && !(mark.value.start < period) {
        already := mark.value.cents;
      }
      var delta := cents - already;
      if delta <= 0 {
        ok := PersistReportState(already, persist);
        return false, ok;
      }
      if reply != Rejected {
        accepted := accepted[period := (if period in accepted then accepted[period] else 0) + delta];
      }
      if reply != Accepted {
        return false, false;
      }
      ok := PersistReportState(cents, persist);
      return ok, ok;
    }
  }
}
