/** Hourly metering: bucket ids, the hours a tick covers, and one tick of the meter. Hours are whole UTC hours. */
module Metering {
  import opened Prelude
  import opened Decimal
  import opened Calendar

  const MAX_CATCHUP := 48

  datatype Dim = Compute | Storage

  const STORAGE_METRIC := "storage_cost_microcents"

  function Metric(d: Dim): string {
    if d == Compute then "compute_cost_microcents" else STORAGE_METRIC
  }

  /** What stands for the organization in a bucket id: compute ids carry no dimension. */
  function BucketOwner(org: string, d: Dim): string {
    if d == Compute then org else STORAGE_METRIC + "-" + org
  }

  function BucketId(org: string, d: Dim, hour: nat): string {
    "meter-" + BucketOwner(org, d) + "-" + HourStamp(hour)
  }

  /** What follows the last dash. */
  function AfterDash(x: string): string {
    if x == [] || x[|x| - 1] == '-' then [] else AfterDash(x[..|x| - 1]) + [x[|x| - 1]]
  }

  lemma {:induction false} AfterDashIs(a: string, s: string)
    requires '-' !in s
    ensures AfterDash(a + "-" + s) == s
  {
    if s == [] {
    } else {
      var front := s[..|s| - 1];
      AfterDashIs(a, front);
      assert (a + "-" + s)[..|a| + |s|] == a + "-" + front;
      assert s == front + [s[|s| - 1]] && s[|s| - 1] in s;
    }
  }

  lemma DashSplit(a: string, s: string, b: string, t: string)
    requires '-' !in s && '-' !in t && a + "-" + s == b + "-" + t
    ensures a == b && s == t
  {
    AfterDashIs(a, s);
    AfterDashIs(b, t);
    SplitAt(a + "-", s, b + "-", t);
    SplitAt(a, "-", b, "-");
  }

  /** Two buckets share an id exactly when they are the same bucket, or one organization's id is another's
      prefixed with the storage metric. */
  lemma BucketCollisionIff(o1: string, d1: Dim, h1: nat, o2: string, d2: Dim, h2: nat)
    ensures BucketId(o1, d1, h1) == BucketId(o2, d2, h2)
            <==> h1 == h2 && ((d1 == d2 && o1 == o2)
                              || (d1 == Compute && d2 == Storage && o1 == STORAGE_METRIC + "-" + o2)
                              || (d1 == Storage && d2 == Compute && o2 == STORAGE_METRIC + "-" + o1))
  {
    if BucketId(o1, d1, h1) == BucketId(o2, d2, h2) {
      StampHasNoDash(h1);
      StampHasNoDash(h2);
      DashSplit("meter-" + BucketOwner(o1, d1), HourStamp(h1), "meter-" + BucketOwner(o2, d2), HourStamp(h2));
      SplitAt("meter-", BucketOwner(o1, d1), "meter-", BucketOwner(o2, d2));
      StampInjective(h1, h2);
      if d1 == d2 == Storage {
        SplitAt(STORAGE_METRIC + "-", o1, STORAGE_METRIC + "-", o2);
      }
    }
  }

  /** No organization id is another one prefixed with the storage metric. */
  ghost predicate WellNamed(orgs: seq<string>) {
    forall a, b :: a in orgs && b in orgs ==> a != STORAGE_METRIC + "-" + b
  }

  // ---- the hours of a tick ----

  function Consecutive(last: nat, n: nat): (hours: seq<nat>)
    ensures |hours| == n && forall k :: 0 <= k < n ==> hours[k] == last + 1 + k
  {
    if n == 0 then [] else Consecutive(last, n - 1) + [last + n]
  }

  /** The hours a tick meters, given the stored watermark, if one could be read. */
  function HoursToMeter(last: Option<nat>, current: nat): seq<nat> {
    match last
    case None => [current]
    case Some(w) =>
      if w == current then []
      else if w > current then [current]
      else Consecutive(w, if current - w < MAX_CATCHUP then current - w else MAX_CATCHUP)
  }

  /** Behind the clock, a tick takes the hours right after the watermark, at most 48, never past the current one. */
  lemma CatchUpHours(w: nat, current: nat)
    requires w < current
    ensures var hours := HoursToMeter(Some(w), current);
            && |hours| == (if current - w < 48 then current - w else 48)
            && (forall k :: 0 <= k < |hours| ==> hours[k] == w + 1 + k && hours[k] <= current)
  {
  }

  /** At or past the clock there is nothing to catch up with: nothing is metered at the clock itself, and only the
      current hour when the watermark is ahead of it or there is none. */
  lemma NothingToCatchUp(last: Option<nat>, current: nat)
    requires last.None? || last.value >= current
    ensures |HoursToMeter(last, current)| == (if last == Some(current) then 0 else 1)
    ensures forall h :: h in HoursToMeter(last, current) <==> h == current && last != Some(current)
  {
  }

  /** The watermark after one tick in which every hour succeeded. */
  function AfterTick(w: nat, current: nat): nat {
    var hours := HoursToMeter(Some(w), current);
    if hours == [] then w else hours[|hours| - 1]
  }

  function AfterTicks(w: nat, current: nat, ticks: nat): nat
    decreases ticks
  {
    if ticks == 0 then w else AfterTicks(AfterTick(w, current), current, ticks - 1)
  }

  /** At a fixed clock, n all-success ticks bring the watermark min(48 n, gap) hours forward. */
  lemma {:induction false} TicksAdvance(w: nat, current: nat, ticks: nat)
    requires w <= current
    ensures AfterTicks(w, current, ticks)
              == if w + MAX_CATCHUP * ticks < current then w + MAX_CATCHUP * ticks else current
    decreases ticks
  {
    if ticks == 0 {
    } else {
      TicksAdvance(AfterTick(w, current), current, ticks - 1);
    }
  }

  /** So the gap is closed after exactly ceil(gap / 48) ticks. */
  lemma TicksToCatchUp(w: nat, current: nat, ticks: nat)
    requires w <= current
    ensures AfterTicks(w, current, ticks) == current <==> ticks >= (current - w + MAX_CATCHUP - 1) / MAX_CATCHUP
  {
    TicksAdvance(w, current, ticks);
  }

  /** A watermark that cannot be read counts as a first run: hours are skipped exactly when it lagged the
      clock by more than one hour. */
  lemma UnreadWatermarkSkipsIff(w: nat, current: nat)
    ensures (exists h :: w < h < current && h !in HoursToMeter(None, current)) <==> w + 1 < current
  {
    if w + 1 < current {
      assert w < w + 1 < current && w + 1 !in HoursToMeter(None, current);
    }
  }

  // ---- writes ----

  datatype Record = Record(org: string, metric: string, quantity: int, at: nat)

  type Usage = map<string, Record>

  function AddIfAbsent(usage: Usage, id: string, rec: Record): Usage {
    if id in usage then usage else usage[id := rec]
  }

  function WriteBucket(usage: Usage, org: string, d: Dim, hour: nat, microCents: int, fault: Fault): Usage {
    if microCents <= 0 || fault == FailBefore then usage
    else AddIfAbsent(usage, BucketId(org, d, hour), Record(org, Metric(d), microCents, hour))
  }

  predicate WriteOk(microCents: int, fault: Fault) {
    microCents <= 0 || fault == NoFault
  }

  /** One organization's hour as the outside world decides it: the cost reads and the faults of the writes. */
  datatype Cost = Cost(compute: Option<int>, computeFault: Fault, storage: Option<int>, storageFault: Fault)

  predicate Succeeds(c: Cost) {
    && c.compute.Some? && WriteOk(c.compute.value, c.computeFault)
    && c.storage.Some? && WriteOk(c.storage.value, c.storageFault)
  }

  // ---- the meter ----

  type Plan = (nat, string) -> Cost

  predicate HourOk(plan: Plan, orgs: seq<string>, hour: nat) {
    forall j :: 0 <= j < |orgs| ==> Succeeds(plan(hour, orgs[j]))
  }

  /** How many of the first k hours, from the first on, succeeded for every organization. */
  function OkPrefix(plan: Plan, orgs: seq<string>, hours: seq<nat>, k: nat): (n: nat)
    requires k <= |hours|
    ensures n <= k
  {
    if k == 0 then 0
    else
      var n := OkPrefix(plan, orgs, hours, k - 1);
      if n == k - 1 && HourOk(plan, orgs, hours[k - 1]) then k else n
  }

  /** It is the longest such prefix. */
  lemma {:induction false} OkPrefixIsLongest(plan: Plan, orgs: seq<string>, hours: seq<nat>, k: nat)
    requires k <= |hours|
    ensures var n := OkPrefix(plan, orgs, hours, k);
            && (forall i :: 0 <= i < n ==> HourOk(plan, orgs, hours[i]))
            && (n < k ==> !HourOk(plan, orgs, hours[n]))
  {
    if k == 0 {
    } else {
      OkPrefixIsLongest(plan, orgs, hours, k - 1);
    }
  }

  /** The hour in which a cancellation takes effect; without one, past the last hour. */
  function StopAt(orgs: seq<string>, hours: seq<nat>, cancelAt: Option<(nat, nat)>): (stop: nat)
    ensures stop <= |hours|
  {
    if cancelAt.Some? && cancelAt.value.0 < |hours| && cancelAt.value.1 < |orgs| then cancelAt.value.0 else |hours|
  }

  function LastOf(hours: seq<nat>, n: nat): Option<nat>
    requires n <= |hours|
  {
    if n == 0 then None else Some(hours[n - 1])
  }

  /** Where a tick leaves the watermark. */
  function NextWatermark(watermark: Option<nat>, readable: bool, current: nat, plan: Plan, orgs: seq<string>,
                         cancelAt: Option<(nat, nat)>, persist: Fault): Option<nat>
  {
    var hours := HoursToMeter(if readable then watermark else None, current);
    var done := OkPrefix(plan, orgs, hours, StopAt(orgs, hours, cancelAt));
    if done == 0 || persist == FailBefore then watermark else Some(hours[done - 1])
  }

  /** A tick that reads a watermark w behind the clock moves it by exactly the number of hours, from the first on, that
      succeeded for every organization before a cancellation, or leaves it if the move was not stored. */
  lemma TickAdvances(w: nat, current: nat, plan: Plan, orgs: seq<string>, cancelAt: Option<(nat, nat)>, persist: Fault)
    requires w < current
    ensures var hours := HoursToMeter(Some(w), current);
            var n := OkPrefix(plan, orgs, hours, StopAt(orgs, hours, cancelAt));
            && NextWatermark(Some(w), true, current, plan, orgs, cancelAt, persist)
               == Some(if persist == FailBefore then w else w + n)
            && (forall h: nat :: w < h <= w + n ==> HourOk(plan, orgs, h))
            && (n < StopAt(orgs, hours, cancelAt) ==> !HourOk(plan, orgs, w + 1 + n))
  {
    var hours := HoursToMeter(Some(w), current);
    var stop := StopAt(orgs, hours, cancelAt);
    CatchUpHours(w, current);
    OkPrefixIsLongest(plan, orgs, hours, stop);
    forall h: nat | w < h <= w + OkPrefix(plan, orgs, hours, stop) ensures HourOk(plan, orgs, h) {
      assert hours[h - w - 1] == h;
    }
  }

  /** A tick that could not read the watermark moves it past hours that the tick did not meter exactly when it lagged
      the clock by more than one hour, the current hour succeeded uncancelled, and the move was stored. */
  lemma UnreadTickSkipsIff(w: nat, current: nat, plan: Plan, orgs: seq<string>, cancelAt: Option<(nat, nat)>,
                           persist: Fault)
    ensures var next := NextWatermark(Some(w), false, current, plan, orgs, cancelAt, persist);
            && next.Some?
            && ((exists h: nat :: w < h <= next.value && h !in HoursToMeter(None, current))
                <==> && w + 1 < current && HourOk(plan, orgs, current) && persist != FailBefore
                     && StopAt(orgs, [current], cancelAt) == 1)
  {
    var next := NextWatermark(Some(w), false, current, plan, orgs, cancelAt, persist);
    var stop := StopAt(orgs, [current], cancelAt);
    OkPrefixIsLongest(plan, orgs, [current], stop);
    assert OkPrefix(plan, orgs, [current], stop) == if stop == 1 && HourOk(plan, orgs, current) then 1 else 0;
    if w + 1 < current && next == Some(current) {
      assert w < w + 1 <= next.value && w + 1 !in HoursToMeter(None, current);
    }
  }

  // ---- what the writes of a tick do to the store ----

  function OrgHour(usage: Usage, org: string, hour: nat, c: Cost): Usage {
    if c.compute.None? then usage
    else
      var u := WriteBucket(usage, org, Compute, hour, c.compute.value, c.computeFault);
      if !WriteOk(c.compute.value, c.computeFault) || c.storage.None? then u
      else WriteBucket(u, org, Storage, hour, c.storage.value, c.storageFault)
  }

  /** The first j organizations of one hour. */
  function HourUpTo(usage: Usage, plan: Plan, orgs: seq<string>, hour: nat, j: nat): Usage
    requires j <= |orgs|
  {
    if j == 0 then usage
    else OrgHour(HourUpTo(usage, plan, orgs, hour, j - 1), orgs[j - 1], hour, plan(hour, orgs[j - 1]))
  }

  /** The first k hours. */
  function HoursUpTo(usage: Usage, plan: Plan, orgs: seq<string>, hours: seq<nat>, k: nat): Usage
    requires k <= |hours|
  {
    if k == 0 then usage
    else HourUpTo(HoursUpTo(usage, plan, orgs, hours, k - 1), plan, orgs, hours[k - 1], |orgs|)
  }

  /** All the writes of a tick: the hour of a cancellation is metered up to the organization it hits. */
  function TickWrites(usage: Usage, plan: Plan, orgs: seq<string>, hours: seq<nat>,
                      cancelAt: Option<(nat, nat)>): Usage
  {
    var stop := StopAt(orgs, hours, cancelAt);
    var whole := HoursUpTo(usage, plan, orgs, hours, stop);
    if stop < |hours| then HourUpTo(whole, plan, orgs, hours[stop], cancelAt.value.1) else whole
  }

  class Meter {
    var usage: Usage
    var watermark: Option<nat>

    constructor ()
      ensures usage == map[] && watermark == None
    {
      usage := map[];
      watermark := None;
    }

    method ListHours(readable: bool, current: nat) returns (hours: seq<nat>)
      ensures hours == HoursToMeter(if readable then watermark else None, current)
    {
      var last := if readable then watermark else None;
      if last.None? || last.value >= current {
        if last.Some? && last.value == current {
          return [];
        }
        return [current];
      }
      hours := [];
      var h := last.value + 1;
      while h <= current && |hours| < MAX_CATCHUP
        invariant last.value < h <= current + 1 && h - last.value - 1 <= MAX_CATCHUP
        invariant hours == Consecutive(last.value, h - last.value - 1)
        decreases current + 1 - h
      {
        hours := hours + [h];
        h := h + 1;
      }
    }

    method WriteCostBucket(org: string, d: Dim, hour: nat, microCents: int, fault: Fault)
      returns (written: nat, ok: bool)
      modifies `usage
      ensures usage == WriteBucket(old(usage), org, d, hour, microCents, fault)
      ensures ok == WriteOk(microCents, fault)
      ensures ok ==> written == |usage| - |old(usage)|
    {
      if microCents <= 0 {
        return 0, true;
      }
      if fault == FailBefore {
        return 0, false;
      }
      var id := BucketId(org, d, hour);
      var inserted := id !in usage;
      if inserted {
        usage := usage[id := Record(org, Metric(d), microCents, hour)];
      }
      return if inserted then 1 else 0, fault == NoFault;
    }

    method MeterOrgHour(org: string, hour: nat, c: Cost) returns (written: nat, ok: bool)
      modifies `usage
      ensures usage == OrgHour(old(usage), org, hour, c)
      ensures ok == Succeeds(c)
      ensures ok ==> written == |usage| - |old(usage)|
    {
      if c.compute.None? {
        return 0, false;
      }
      written, ok := WriteCostBucket(org, Compute, hour, c.compute.value, c.computeFault);
      if !ok || c.storage.None? {
        return written, false;
      }
      var n;
      n, ok := WriteCostBucket(org, Storage, hour, c.storage.value, c.storageFault);
      written := written + n;
    }

    /** One organization after another for a single hour; stops early when the context is cancelled. */
    method MeterHour(orgs: seq<string>, hour: nat, plan: Plan, cancelAt: Option<nat>)
      returns (ok: bool, cancelled: bool)
      modifies `usage
      ensures cancelled <==> cancelAt.Some? && cancelAt.value < |orgs|
      ensures usage == HourUpTo(old(usage), plan, orgs, hour, if cancelled then cancelAt.value else |orgs|)
      ensures !cancelled ==> ok == HourOk(plan, orgs, hour)
    {
      ok := true;
      for j := 0 to |orgs|
        invariant usage == HourUpTo(old(usage), plan, orgs, hour, j)
        invariant cancelAt.Some? ==> j <= cancelAt.value
        invariant ok <==> forall i :: 0 <= i < j ==> Succeeds(plan(hour, orgs[i]))
      {
        if cancelAt == Some(j) {
          return ok, true;
        }
        var _, orgOk := MeterOrgHour(orgs[j], hour, plan(hour, orgs[j]));
        if !orgOk {
          ok := false;
        }
      }
      return ok, false;
    }

    /** Hour after hour, up to the one in which the context is cancelled. */
    method MeterHours(orgs: seq<string>, hours: seq<nat>, plan: Plan, cancelAt: Option<(nat, nat)>)
      returns (lastDone: Option<nat>, ok: bool)
      modifies `usage
      ensures usage == TickWrites(old(usage), plan, orgs, hours, cancelAt)
      ensures var stop := StopAt(orgs, hours, cancelAt);
              && lastDone == LastOf(hours, OkPrefix(plan, orgs, hours, stop))
              && (ok <==> stop == |hours| && OkPrefix(plan, orgs, hours, stop) == stop)
    {
      lastDone := None;
      var fullyOK := true;
      var k := 0;
      while k < |hours|
        invariant 0 <= k <= StopAt(orgs, hours, cancelAt)
        invariant usage == HoursUpTo(old(usage), plan, orgs, hours, k)
        invariant fullyOK == (OkPrefix(plan, orgs, hours, k) == k)
        invariant lastDone == LastOf(hours, OkPrefix(plan, orgs, hours, k))
      {
        var cancelHere := if cancelAt.Some? && cancelAt.value.0 == k then Some(cancelAt.value.1) else None;
        var hourOK, cancelled := MeterHour(orgs, hours[k], plan, cancelHere);
        if cancelled {
          return lastDone, false;
        }
        if fullyOK && hourOK {
          lastDone := Some(hours[k]);
        } else {
          fullyOK := false;
        }
        k := k + 1;
      }
      return lastDone, fullyOK;
    }

    /** One tick. `plan` decides every cost read and write, `cancelAt` when the context is cancelled (hour index and
        organization index), and `persist` how the watermark write goes. The watermark moves to the end of the
        longest prefix of hours that succeeded for every organization, and nowhere else; the tick is reported as a
        success exactly when that is all of them and the watermark, if it was to move, was stored. */
    method MeterUsage(orgs: seq<string>, readable: bool, current: nat, plan: Plan, cancelAt: Option<(nat, nat)>,
                      persist: Fault)
      returns (ok: bool)
      modifies this
      ensures watermark == NextWatermark(old(watermark), readable, current, plan, orgs, cancelAt, persist)
      ensures var hours := HoursToMeter(if readable then old(watermark) else None, current);
              var done := OkPrefix(plan, orgs, hours, StopAt(orgs, hours, cancelAt));
              && usage == TickWrites(old(usage), plan, orgs, hours, cancelAt)
              && (ok <==> done == |hours| && (done == 0 || persist == NoFault))
    {
      var hours := ListHours(readable, current);
      var lastDone;
      lastDone, ok := MeterHours(orgs, hours, plan, cancelAt);
      if lastDone.Some? {
        if persist != FailBefore {
          watermark := lastDone;
        }
        if persist != NoFault {
          ok := false;
        }
      }
    }
  }

  // ---- what a tick leaves in the store ----

  function CostOf(c: Cost, d: Dim): Option<int> {
    if d == Compute then c.compute else c.storage
  }

  /** A record that the meter writes: the positive cost of its organization, dimension and hour, under their id. */
  ghost predicate FiledAs(id: string, rec: Record, plan: Plan, orgs: seq<string>) {
    && rec.org in orgs && rec.quantity > 0
    && exists d :: id == BucketId(rec.org, d, rec.at) && rec.metric == Metric(d)
                   && CostOf(plan(rec.at, rec.org), d) == Some(rec.quantity)
  }

  /** Records are never changed or removed, and a new one is the cost of its organization, dimension and hour. */
  ghost predicate Grows(usage: Usage, usage': Usage, plan: Plan, orgs: seq<string>) {
    && (forall id :: id in usage ==> id in usage' && usage'[id] == usage[id])
    && (forall id :: id in usage' && id !in usage ==> FiledAs(id, usage'[id], plan, orgs))
  }

  ghost predicate Recorded(usage: Usage, org: string, hour: nat, c: Cost) {
    && (c.compute.Some? && c.compute.value > 0 ==> BucketId(org, Compute, hour) in usage)
    && (c.storage.Some? && c.storage.value > 0 ==> BucketId(org, Storage, hour) in usage)
  }

  lemma GrowsTransitive(a: Usage, b: Usage, c: Usage, plan: Plan, orgs: seq<string>)
    requires Grows(a, b, plan, orgs) && Grows(b, c, plan, orgs)
    ensures Grows(a, c, plan, orgs)
  {
  }

  lemma RecordedKept(usage: Usage, usage': Usage, plan: Plan, orgs: seq<string>, org: string, hour: nat)
    requires Grows(usage, usage', plan, orgs) && Recorded(usage, org, hour, plan(hour, org))
    ensures Recorded(usage', org, hour, plan(hour, org))
  {
  }

  lemma WriteGrows(usage: Usage, plan: Plan, orgs: seq<string>, org: string, d: Dim, hour: nat, microCents: int,
                   fault: Fault)
    requires org in orgs && CostOf(plan(hour, org), d) == Some(microCents)
    ensures Grows(usage, WriteBucket(usage, org, d, hour, microCents, fault), plan, orgs)
  {
    if microCents > 0 {
      assert FiledAs(BucketId(org, d, hour), Record(org, Metric(d), microCents, hour), plan, orgs);
    }
  }

  lemma OrgHourRecords(usage: Usage, plan: Plan, orgs: seq<string>, org: string, hour: nat)
    requires org in orgs
    ensures var usage' := OrgHour(usage, org, hour, plan(hour, org));
            && Grows(usage, usage', plan, orgs)
            && (Succeeds(plan(hour, org)) ==> Recorded(usage', org, hour, plan(hour, org)))
  {
    var c := plan(hour, org);
    if c.compute.Some? {
      var u := WriteBucket(usage, org, Compute, hour, c.compute.value, c.computeFault);
      WriteGrows(usage, plan, orgs, org, Compute, hour, c.compute.value, c.computeFault);
      if c.storage.Some? {
        WriteGrows(u, plan, orgs, org, Storage, hour, c.storage.value, c.storageFault);
        GrowsTransitive(usage, u, WriteBucket(u, org, Storage, hour, c.storage.value, c.storageFault), plan, orgs);
      }
    }
  }

  lemma {:induction false} HourGrows(usage: Usage, plan: Plan, orgs: seq<string>, hour: nat, n: nat)
    requires n <= |orgs|
    ensures Grows(usage, HourUpTo(usage, plan, orgs, hour, n), plan, orgs)
  {
    if n == 0 {
    } else {
      var before := HourUpTo(usage, plan, orgs, hour, n - 1);
      HourGrows(usage, plan, orgs, hour, n - 1);
      OrgHourRecords(before, plan, orgs, orgs[n - 1], hour);
      GrowsTransitive(usage, before, HourUpTo(usage, plan, orgs, hour, n), plan, orgs);
    }
  }

  /** An organization whose hour succeeded has its positive costs in the store, whatever follows in that hour. */
  lemma {:induction false} HourRecords(usage: Usage, plan: Plan, orgs: seq<string>, hour: nat, n: nat, j: nat)
    requires j < n <= |orgs| && Succeeds(plan(hour, orgs[j]))
    ensures Recorded(HourUpTo(usage, plan, orgs, hour, n), orgs[j], hour, plan(hour, orgs[j]))
    decreases n
  {
    var before, after := HourUpTo(usage, plan, orgs, hour, n - 1), HourUpTo(usage, plan, orgs, hour, n);
    OrgHourRecords(before, plan, orgs, orgs[n - 1], hour);
    if j < n - 1 {
      HourRecords(usage, plan, orgs, hour, n - 1, j);
      RecordedKept(before, after, plan, orgs, orgs[j], hour);
    }
  }

  lemma {:induction false} HoursGrow(usage: Usage, plan: Plan, orgs: seq<string>, hours: seq<nat>, k: nat)
    requires k <= |hours|
    ensures Grows(usage, HoursUpTo(usage, plan, orgs, hours, k), plan, orgs)
  {
    if k == 0 {
    } else {
      var before := HoursUpTo(usage, plan, orgs, hours, k - 1);
      HoursGrow(usage, plan, orgs, hours, k - 1);
      HourGrows(before, plan, orgs, hours[k - 1], |orgs|);
      GrowsTransitive(usage, before, HoursUpTo(usage, plan, orgs, hours, k), plan, orgs);
    }
  }

  /** And whatever hours follow. */
  lemma {:induction false} HoursRecord(usage: Usage, plan: Plan, orgs: seq<string>, hours: seq<nat>, k: nat, i: nat,
                                       j: nat)
    requires i < k <= |hours| && j < |orgs| && Succeeds(plan(hours[i], orgs[j]))
    ensures Recorded(HoursUpTo(usage, plan, orgs, hours, k), orgs[j], hours[i], plan(hours[i], orgs[j]))
    decreases k
  {
    var before := HoursUpTo(usage, plan, orgs, hours, k - 1);
    if i == k - 1 {
      HourRecords(before, plan, orgs, hours[i], |orgs|, j);
    } else {
      HoursRecord(usage, plan, orgs, hours, k - 1, i, j);
      HourGrows(before, plan, orgs, hours[k - 1], |orgs|);
      RecordedKept(before, HoursUpTo(usage, plan, orgs, hours, k), plan, orgs, orgs[j], hours[i]);
    }
  }

  /** What the watermark moves past is in the store: for every hour up to the new watermark each organization's
      positive costs have their records, whatever failed or was cancelled later in the tick. */
  lemma TickRecords(usage: Usage, plan: Plan, orgs: seq<string>, hours: seq<nat>, cancelAt: Option<(nat, nat)>)
    ensures var usage' := TickWrites(usage, plan, orgs, hours, cancelAt);
            && Grows(usage, usage', plan, orgs)
            && forall i, j :: 0 <= i < OkPrefix(plan, orgs, hours, StopAt(orgs, hours, cancelAt)) && 0 <= j < |orgs| ==>
                 Recorded(usage', orgs[j], hours[i], plan(hours[i], orgs[j]))
  {
    var stop := StopAt(orgs, hours, cancelAt);
    var whole, usage' := HoursUpTo(usage, plan, orgs, hours, stop), TickWrites(usage, plan, orgs, hours, cancelAt);
    HoursGrow(usage, plan, orgs, hours, stop);
    OkPrefixIsLongest(plan, orgs, hours, stop);
    if stop < |hours| {
      HourGrows(whole, plan, orgs, hours[stop], cancelAt.value.1);
      GrowsTransitive(usage, whole, usage', plan, orgs);
    }
    forall i, j | 0 <= i < OkPrefix(plan, orgs, hours, stop) && 0 <= j < |orgs|
      ensures Recorded(usage', orgs[j], hours[i], plan(hours[i], orgs[j]))
    {
      assert HourOk(plan, orgs, hours[i]);
      HoursRecord(usage, plan, orgs, hours, stop, i, j);
      if whole != usage' { RecordedKept(whole, usage', plan, orgs, orgs[j], hours[i]); }
    }
  }

  /** A bucket that was not there before holds exactly its cost afterwards. */
  lemma NewBucketAtCost(usage: Usage, usage': Usage, plan: Plan, orgs: seq<string>, org: string, d: Dim, hour: nat)
    requires WellNamed(orgs) && org in orgs && Grows(usage, usage', plan, orgs)
    requires BucketId(org, d, hour) in usage' && BucketId(org, d, hour) !in usage
    ensures CostOf(plan(hour, org), d).Some?
    ensures usage'[BucketId(org, d, hour)] == Record(org, Metric(d), CostOf(plan(hour, org), d).value, hour)
  {
    var id := BucketId(org, d, hour);
    var rec := usage'[id];
    assert FiledAs(id, rec, plan, orgs);
    var e :| id == BucketId(rec.org, e, rec.at) && rec.metric == Metric(e)
             && CostOf(plan(rec.at, rec.org), e) == Some(rec.quantity);
    BucketCollisionIff(rec.org, e, rec.at, org, d, hour);
  }

  /** What a tick bills: every organization-hour that the watermark moves past leaves a positive cost under its bucket
      in exactly the amount it cost, unless the bucket was there before. */
  lemma TickBillsAtCost(usage: Usage, plan: Plan, orgs: seq<string>, hours: seq<nat>, cancelAt: Option<(nat, nat)>,
                        i: nat, j: nat)
    requires WellNamed(orgs) && i < OkPrefix(plan, orgs, hours, StopAt(orgs, hours, cancelAt)) && j < |orgs|
    ensures var usage', org, c := TickWrites(usage, plan, orgs, hours, cancelAt), orgs[j], plan(hours[i], orgs[j]);
            var computeId, storageId := BucketId(org, Compute, hours[i]), BucketId(org, Storage, hours[i]);
            && c.compute.Some? && c.storage.Some?
            && (c.compute.value > 0 && computeId !in usage ==>
                  computeId in usage'
                  && usage'[computeId] == Record(org, "compute_cost_microcents", c.compute.value, hours[i]))
            && (c.storage.value > 0 && storageId !in usage ==>
                  storageId in usage'
                  && usage'[storageId] == Record(org, "storage_cost_microcents", c.storage.value, hours[i]))
  {
    var usage', org := TickWrites(usage, plan, orgs, hours, cancelAt), orgs[j];
    TickRecords(usage, plan, orgs, hours, cancelAt);
    OkPrefixIsLongest(plan, orgs, hours, StopAt(orgs, hours, cancelAt));
    assert HourOk(plan, orgs, hours[i]) && Recorded(usage', org, hours[i], plan(hours[i], org));
    forall d | BucketId(org, d, hours[i]) in usage' && BucketId(org, d, hours[i]) !in usage
      ensures CostOf(plan(hours[i], org), d).Some?
      ensures usage'[BucketId(org, d, hours[i])]
              == Record(org, Metric(d), CostOf(plan(hours[i], org), d).value, hours[i])
    {
      NewBucketAtCost(usage, usage', plan, orgs, org, d, hours[i]);
    }
  }

  // ---- what a cancelled tick does not do ----

  lemma OrgHourOnly(usage: Usage, org: string, hour: nat, c: Cost, id: string)
    requires id in OrgHour(usage, org, hour, c) && id !in usage
    ensures OrgHour(usage, org, hour, c)[id].at == hour && OrgHour(usage, org, hour, c)[id].org == org
  {
  }

  lemma {:induction false} HourOnly(usage: Usage, plan: Plan, orgs: seq<string>, hour: nat, n: nat, id: string)
    requires n <= |orgs| && id in HourUpTo(usage, plan, orgs, hour, n) && id !in usage
    ensures var rec := HourUpTo(usage, plan, orgs, hour, n)[id];
            rec.at == hour && exists k :: 0 <= k < n && orgs[k] == rec.org
    decreases n
  {
    if n == 0 {
    } else {
      var before := HourUpTo(usage, plan, orgs, hour, n - 1);
      OrgHourRecords(before, plan, orgs, orgs[n - 1], hour);
      if id in before {
        HourOnly(usage, plan, orgs, hour, n - 1, id);
      } else {
        OrgHourOnly(before, orgs[n - 1], hour, plan(hour, orgs[n - 1]), id);
      }
    }
  }

  lemma {:induction false} HoursOnly(usage: Usage, plan: Plan, orgs: seq<string>, hours: seq<nat>, n: nat, id: string)
    requires n <= |hours| && id in HoursUpTo(usage, plan, orgs, hours, n) && id !in usage
    ensures exists i :: 0 <= i < n && HoursUpTo(usage, plan, orgs, hours, n)[id].at == hours[i]
    decreases n
  {
    if n == 0 {
    } else {
      var before := HoursUpTo(usage, plan, orgs, hours, n - 1);
      HourGrows(before, plan, orgs, hours[n - 1], |orgs|);
      if id in before {
        HoursOnly(usage, plan, orgs, hours, n - 1, id);
      } else {
        HourOnly(before, plan, orgs, hours[n - 1], |orgs|, id);
      }
    }
  }

  /** A tick cancelled at an organization of some hour writes nothing for it and those after it, nor for later hours,
      and it never counts that hour as metered. */
  lemma CancelledTickStops(usage: Usage, plan: Plan, orgs: seq<string>, hours: seq<nat>, i: nat, j: nat, id: string)
    requires i < |hours| && j < |orgs|
    requires id in TickWrites(usage, plan, orgs, hours, Some((i, j))) && id !in usage
    ensures var rec := TickWrites(usage, plan, orgs, hours, Some((i, j)))[id];
            || (exists k :: 0 <= k < i && rec.at == hours[k])
            || (rec.at == hours[i] && exists k :: 0 <= k < j && rec.org == orgs[k])
    ensures OkPrefix(plan, orgs, hours, StopAt(orgs, hours, Some((i, j)))) <= i
  {
    var whole := HoursUpTo(usage, plan, orgs, hours, i);
    HourGrows(whole, plan, orgs, hours[i], j);
    if id in whole {
      HoursOnly(usage, plan, orgs, hours, i, id);
    } else {
      HourOnly(whole, plan, orgs, hours[i], j, id);
    }
  }

  /** The compute bucket of an hour is named after the organization, the civil date and the hour; the storage bucket
      says so in front. */
  lemma BucketIdOfCivil(org: string, y: nat, k: nat, d: nat, h: nat)
    requires k < 12 && 1 <= d <= MonthDays(y, k) && h < 24
    ensures d < 100 && DayNumber(y, k, d) >= 0
    ensures var hour := 24 * DayNumber(y, k, d) + h;
            var stamp := Pad(Itoa(y), 4) + (Two(k + 1) + (Two(d) + ("T" + Two(h))));
            && BucketId(org, Compute, hour) == "meter-" + org + "-" + stamp
            && BucketId(org, Storage, hour) == "meter-storage_cost_microcents-" + org + "-" + stamp
  {
    StampOfCivil(y, k, d, h);
    assert "meter-storage_cost_microcents-" + org == "meter-" + BucketOwner(org, Storage);
  }
}
