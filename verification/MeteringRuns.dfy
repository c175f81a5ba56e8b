/** Several metering replicas interleaved store operation by store operation, over a fixed set of organizations. */
module MeteringRuns {
  import opened Prelude
  import opened Metering

  /** A tick in flight: the watermark it read, its hours, the position of its next write, and its progress so far. */
  datatype Tick = Tick(
    base: nat, hours: seq<nat>, hi: nat, oi: nat, dim: Dim, hourOK: bool, fullyOK: bool, lastDone: Option<nat>)

  datatype Proc = Idle | Metering(tick: Tick) | Persisting(lastDone: Option<nat>)

  /** `done` are the organization-hours some tick metered without an error, and `acked` the buckets whose positive
      cost some tick was told had been written. No step reads these histories. */
  datatype State = State(
    watermark: nat,
    usage: Usage,
    procs: map<nat, Proc>,
    done: set<(nat, string)>,
    acked: set<(string, Dim, nat)>)

  /** `Stop` ends a tick, after its last hour or because the context was cancelled; what it completed is persisted
      next. `AddOther` is usage recorded by anything else than the meter. */
  datatype Action =
    | Start(p: nat, current: nat, readable: bool)
    | CostFails(p: nat)
    | Write(p: nat, microCents: int, fault: Fault)
    | EndHour(p: nat)
    | Stop(p: nat)
    | Persist(p: nat, fault: Fault)
    | Crash(p: nat)
    | AddOther(id: string, rec: Record)

  function ProcOf(s: State, p: nat): Proc {
    if p in s.procs then s.procs[p] else Idle
  }

  function Put(s: State, p: nat, proc: Proc): State {
    s.(procs := s.procs[p := proc])
  }

  /** Is the tick about to write a bucket? */
  predicate AtWrite(orgs: seq<string>, t: Tick) {
    t.hi < |t.hours| && t.oi < |orgs|
  }

  function Step(orgs: seq<string>, s: State, a: Action): State {
    match a
    case Start(p, current, readable) =>
      if ProcOf(s, p).Idle? then
        var hours := HoursToMeter(if readable then Some(s.watermark) else None, current);
        Put(s, p, Metering(Tick(s.watermark, hours, 0, 0, Compute, true, true, None)))
      else s
    case CostFails(p) =>
      if ProcOf(s, p).Metering? && AtWrite(orgs, ProcOf(s, p).tick)
      then Put(s, p, Metering(NextOrg(ProcOf(s, p).tick, false))) else s
    case Write(p, microCents, fault) =>
      if ProcOf(s, p).Metering? && AtWrite(orgs, ProcOf(s, p).tick)
      then WriteStep(orgs, s, p, ProcOf(s, p).tick, microCents, fault) else s
    case EndHour(p) =>
      if ProcOf(s, p).Metering? && ProcOf(s, p).tick.oi >= |orgs| && ProcOf(s, p).tick.hi < |ProcOf(s, p).tick.hours|
      then Put(s, p, Metering(NextHour(ProcOf(s, p).tick))) else s
    case Stop(p) =>
      if ProcOf(s, p).Metering? then Put(s, p, Persisting(ProcOf(s, p).tick.lastDone)) else s
    case Persist(p, fault) =>
      if ProcOf(s, p).Persisting? then
        var lastDone := ProcOf(s, p).lastDone;
        if lastDone.Some? && fault != FailBefore then Put(s, p, Idle).(watermark := lastDone.value) else Put(s, p, Idle)
      else s
    case Crash(p) => Put(s, p, Idle)
    case AddOther(id, rec) =>
      if id !in s.usage && !("meter-" <= id) && rec.metric != Metric(Compute) && rec.metric != Metric(Storage)
      then s.(usage := s.usage[id := rec]) else s
  }

  function NextOrg(t: Tick, ok: bool): Tick {
    t.(oi := t.oi + 1, dim := Compute, hourOK := t.hourOK && ok)
  }

  function NextHour(t: Tick): Tick
    requires t.hi < |t.hours|
  {
    var ok := t.fullyOK && t.hourOK;
    t.(hi := t.hi + 1, oi := 0, dim := Compute, hourOK := true, fullyOK := ok,
       lastDone := if ok then Some(t.hours[t.hi]) else t.lastDone)
  }

  function WriteStep(orgs: seq<string>, s: State, p: nat, t: Tick, microCents: int, fault: Fault): State
    requires AtWrite(orgs, t)
  {
    var org, hour := orgs[t.oi], t.hours[t.hi];
    var ok := WriteOk(microCents, fault);
    var wrote := s.(usage := WriteBucket(s.usage, org, t.dim, hour, microCents, fault),
                    acked := if ok && microCents > 0 then s.acked + {(org, t.dim, hour)} else s.acked);
    if !ok then Put(wrote, p, Metering(NextOrg(t, false)))
    else if t.dim == Compute then Put(wrote, p, Metering(t.(dim := Storage)))
    else Put(wrote, p, Metering(NextOrg(t, true))).(done := s.done + {(hour, org)})
  }

  function Run(orgs: seq<string>, s: State, acts: seq<Action>): State
    decreases |acts|
  {
    if acts == [] then s else Run(orgs, Step(orgs, s, acts[0]), acts[1..])
  }

  predicate ReadsSucceed(acts: seq<Action>) {
    forall k :: 0 <= k < |acts| && acts[k].Start? ==> acts[k].readable
  }

  // ---- no hour is skipped ----

  ghost predicate HourDone(orgs: seq<string>, done: set<(nat, string)>, hour: nat) {
    forall o :: o in orgs ==> (hour, o) in done
  }

  /** Every hour after w0 up to w was metered for every organization. */
  ghost predicate Covered(orgs: seq<string>, done: set<(nat, string)>, w0: nat, w: nat) {
    forall h: nat :: w0 < h <= w ==> HourDone(orgs, done, h)
  }

  /** The tick's hours follow the watermark it read without a gap, or its clock is behind. */
  ghost predicate HoursOk(t: Tick) {
    || (forall k :: 0 <= k < |t.hours| ==> t.hours[k] == t.base + 1 + k)
    || (|t.hours| == 1 && t.hours[0] < t.base)
  }

  ghost predicate TickOk(orgs: seq<string>, done: set<(nat, string)>, w0: nat, t: Tick) {
    && t.hi <= |t.hours| && HoursOk(t)
    && Covered(orgs, done, w0, t.base)
    && (t.lastDone.Some? ==> Covered(orgs, done, w0, t.lastDone.value))
    && (t.fullyOK ==> forall k :: 0 <= k < t.hi ==> HourDone(orgs, done, t.hours[k]))
    && (t.hourOK && t.hi < |t.hours| ==> forall j :: 0 <= j < t.oi && j < |orgs| ==> (t.hours[t.hi], orgs[j]) in done)
  }

  ghost predicate ProcOk(orgs: seq<string>, done: set<(nat, string)>, w0: nat, proc: Proc) {
    match proc
    case Idle => true
    case Metering(t) => TickOk(orgs, done, w0, t)
    case Persisting(lastDone) => lastDone.Some? ==> Covered(orgs, done, w0, lastDone.value)
  }

  ghost predicate Inv(orgs: seq<string>, w0: nat, s: State) {
    && Covered(orgs, s.done, w0, s.watermark)
    && forall p :: p in s.procs ==> ProcOk(orgs, s.done, w0, s.procs[p])
  }

  lemma ProcKept(orgs: seq<string>, done: set<(nat, string)>, done': set<(nat, string)>, w0: nat, proc: Proc)
    requires done <= done' && ProcOk(orgs, done, w0, proc)
    ensures ProcOk(orgs, done', w0, proc)
  {
    forall w: nat | Covered(orgs, done, w0, w) ensures Covered(orgs, done', w0, w) {
      CoveredKept(orgs, done, done', w0, w);
    }
  }

  lemma CoveredKept(orgs: seq<string>, done: set<(nat, string)>, done': set<(nat, string)>, w0: nat, w: nat)
    requires done <= done' && Covered(orgs, done, w0, w)
    ensures Covered(orgs, done', w0, w)
  {
    forall h: nat | w0 < h <= w ensures HourDone(orgs, done', h) {
      assert HourDone(orgs, done, h);
    }
  }

  lemma NextHourOk(orgs: seq<string>, done: set<(nat, string)>, w0: nat, t: Tick)
    requires TickOk(orgs, done, w0, t) && t.hi < |t.hours| && t.oi >= |orgs|
    ensures TickOk(orgs, done, w0, NextHour(t))
  {
    if t.fullyOK && t.hourOK {
      var hour := t.hours[t.hi];
      assert HourDone(orgs, done, hour);
      forall h: nat | w0 < h <= hour ensures HourDone(orgs, done, h) {
        if h > t.base {
          assert h == t.hours[h - t.base - 1];
        }
      }
    }
  }

  lemma StepKeeps(orgs: seq<string>, w0: nat, s: State, a: Action)
    requires Inv(orgs, w0, s) && (a.Start? ==> a.readable)
    ensures Inv(orgs, w0, Step(orgs, s, a))
  {
    var s' := Step(orgs, s, a);
    CoveredKept(orgs, s.done, s'.done, w0, s.watermark);
    forall q | q in s'.procs ensures ProcOk(orgs, s'.done, w0, s'.procs[q]) {
      if q in s.procs {
        ProcKept(orgs, s.done, s'.done, w0, s.procs[q]);
      }
      if !a.AddOther? && q == a.p {
        OwnProc(orgs, w0, s, a);
      }
    }
  }

  lemma OwnProc(orgs: seq<string>, w0: nat, s: State, a: Action)
    requires Inv(orgs, w0, s) && !a.AddOther? && (a.Start? ==> a.readable)
    ensures ProcOk(orgs, Step(orgs, s, a).done, w0, ProcOf(Step(orgs, s, a), a.p))
    ensures a.Persist? ==> Covered(orgs, s.done, w0, Step(orgs, s, a).watermark)
  {
    var proc, s' := ProcOf(s, a.p), Step(orgs, s, a);
    match a
    case EndHour(p) =>
      if proc.Metering? && proc.tick.oi >= |orgs| && proc.tick.hi < |proc.tick.hours| {
        NextHourOk(orgs, s.done, w0, proc.tick);
      }
    case Write(p, microCents, fault) =>
      if proc.Metering? && AtWrite(orgs, proc.tick) {
        WriteKeeps(orgs, w0, s, p, proc.tick, microCents, fault);
      }
    case _ =>
  }

  /** Moving on inside an hour keeps a tick's claims, if a claimed success is on record. */
  lemma NextOrgOk(orgs: seq<string>, done: set<(nat, string)>, w0: nat, t: Tick, ok: bool)
    requires TickOk(orgs, done, w0, t) && AtWrite(orgs, t)
    requires ok ==> (t.hours[t.hi], orgs[t.oi]) in done
    ensures TickOk(orgs, done, w0, NextOrg(t, ok))
    ensures TickOk(orgs, done, w0, t.(dim := Storage))
  {
  }

  lemma WriteKeeps(orgs: seq<string>, w0: nat, s: State, p: nat, t: Tick, microCents: int, fault: Fault)
    requires TickOk(orgs, s.done, w0, t) && AtWrite(orgs, t)
    ensures var s' := WriteStep(orgs, s, p, t, microCents, fault);
            s.done <= s'.done && ProcOk(orgs, s'.done, w0, s'.procs[p])
  {
    var ok := WriteOk(microCents, fault);
    var done' := if ok && t.dim == Storage then s.done + {(t.hours[t.hi], orgs[t.oi])} else s.done;
    ProcKept(orgs, s.done, done', w0, Metering(t));
    NextOrgOk(orgs, done', w0, t, ok && t.dim == Storage);
  }

  lemma {:induction false} RunKeeps(orgs: seq<string>, w0: nat, s: State, acts: seq<Action>)
    requires Inv(orgs, w0, s) && ReadsSucceed(acts)
    ensures Inv(orgs, w0, Run(orgs, s, acts))
    decreases |acts|
  {
    if acts == [] {
    } else {
      StepKeeps(orgs, w0, s, acts[0]);
      RunKeeps(orgs, w0, Step(orgs, s, acts[0]), acts[1..]);
    }
  }

  /** Whenever the stored watermark is w, every hour after the initial one up to w was metered without an error for
      every organization: for any number of replicas, faults, lost replies, crashes, cancellations and clocks. */
  lemma NoHourSkipped(orgs: seq<string>, w0: nat, usage: Usage, acts: seq<Action>, h: nat, org: string)
    requires ReadsSucceed(acts) && org in orgs
    requires w0 < h <= Run(orgs, State(w0, usage, map[], {}, {}), acts).watermark
    ensures (h, org) in Run(orgs, State(w0, usage, map[], {}, {}), acts).done
  {
    var s0 := State(w0, usage, map[], {}, {});
    RunKeeps(orgs, w0, s0, acts);
    assert HourDone(orgs, Run(orgs, s0, acts).done, h);
  }

  // ---- nothing is billed twice, and nothing acknowledged is lost ----

  predicate IsBucket(usage: Usage, id: string, org: string, d: Dim, hour: nat) {
    id in usage && usage[id].org == org && usage[id].metric == Metric(d) && usage[id].at == hour
  }

  /** Metered records sit under the id of their own bucket, nothing else sits under such an id, and every
      acknowledged bucket is there. */
  ghost predicate UsageOk(orgs: seq<string>, s: State) {
    && (forall id, d, o, h :: IsBucket(s.usage, id, o, d, h) ==> id == BucketId(o, d, h))
    && (forall o, d, h :: o in orgs && BucketId(o, d, h) in s.usage ==> IsBucket(s.usage, BucketId(o, d, h), o, d, h))
    && (forall o, d, h :: (o, d, h) in s.acked ==> o in orgs && BucketId(o, d, h) in s.usage)
  }

  lemma BucketWriteKeeps(orgs: seq<string>, usage: Usage, org: string, d: Dim, hour: nat, microCents: int, fault: Fault)
    requires WellNamed(orgs) && org in orgs
    requires forall id, e, o, h :: IsBucket(usage, id, o, e, h) ==> id == BucketId(o, e, h)
    requires forall o, e, h :: o in orgs && BucketId(o, e, h) in usage ==> IsBucket(usage, BucketId(o, e, h), o, e, h)
    ensures var usage' := WriteBucket(usage, org, d, hour, microCents, fault);
            && (forall id, e, o, h :: IsBucket(usage', id, o, e, h) ==> id == BucketId(o, e, h))
            && (forall o, e, h :: o in orgs && BucketId(o, e, h) in usage' ==>
                  IsBucket(usage', BucketId(o, e, h), o, e, h))
  {
    var usage' := WriteBucket(usage, org, d, hour, microCents, fault);
    forall o, e, h | o in orgs && BucketId(o, e, h) in usage' ensures IsBucket(usage', BucketId(o, e, h), o, e, h) {
      if BucketId(o, e, h) !in usage {
        BucketCollisionIff(o, e, h, org, d, hour);
      }
    }
    forall id, e, o, h | IsBucket(usage', id, o, e, h) ensures id == BucketId(o, e, h) {
      if id in usage {
        assert IsBucket(usage, id, o, e, h);
      } else {
        assert Metric(Compute)[0] == 'c' && Metric(Storage)[0] == 's';
      }
    }
  }

  lemma OtherIsNoBucket(id: string, o: string, d: Dim, h: nat)
    requires !("meter-" <= id)
    ensures id != BucketId(o, d, h)
  {
    assert BucketId(o, d, h)[..6] == "meter-";
  }

  lemma WriteUsageOk(orgs: seq<string>, s: State, p: nat, t: Tick, microCents: int, fault: Fault)
    requires WellNamed(orgs) && UsageOk(orgs, s) && AtWrite(orgs, t)
    ensures UsageOk(orgs, WriteStep(orgs, s, p, t, microCents, fault))
  {
    BucketWriteKeeps(orgs, s.usage, orgs[t.oi], t.dim, t.hours[t.hi], microCents, fault);
  }

  lemma OtherUsageOk(orgs: seq<string>, s: State, id: string, rec: Record)
    requires UsageOk(orgs, s)
    ensures UsageOk(orgs, Step(orgs, s, AddOther(id, rec)))
  {
    var s' := Step(orgs, s, AddOther(id, rec));
    forall o, d, h | o in orgs && BucketId(o, d, h) in s'.usage
      ensures IsBucket(s'.usage, BucketId(o, d, h), o, d, h)
    {
      if !("meter-" <= id) { OtherIsNoBucket(id, o, d, h); }
      assert IsBucket(s.usage, BucketId(o, d, h), o, d, h);
    }
    forall i, d, o, h | IsBucket(s'.usage, i, o, d, h) ensures i == BucketId(o, d, h) {
      assert IsBucket(s.usage, i, o, d, h);
    }
  }

  lemma StepUsageOk(orgs: seq<string>, s: State, a: Action)
    requires WellNamed(orgs) && UsageOk(orgs, s)
    ensures UsageOk(orgs, Step(orgs, s, a))
  {
    match a
    case Write(p, microCents, fault) =>
      if ProcOf(s, p).Metering? && AtWrite(orgs, ProcOf(s, p).tick) {
        WriteUsageOk(orgs, s, p, ProcOf(s, p).tick, microCents, fault);
      }
    case AddOther(id, rec) => OtherUsageOk(orgs, s, id, rec);
    case _ => SameUsageOk(orgs, s, Step(orgs, s, a));
  }

  lemma SameUsageOk(orgs: seq<string>, s: State, s': State)
    requires UsageOk(orgs, s) && s'.usage == s.usage && s'.acked == s.acked
    ensures UsageOk(orgs, s')
  {
  }

  lemma {:induction false} RunUsageOk(orgs: seq<string>, s: State, acts: seq<Action>)
    requires WellNamed(orgs) && UsageOk(orgs, s)
    ensures UsageOk(orgs, Run(orgs, s, acts))
    ensures forall id :: id in s.usage ==> id in Run(orgs, s, acts).usage && Run(orgs, s, acts).usage[id] == s.usage[id]
    decreases |acts|
  {
    if acts == [] {
    } else {
      StepUsageOk(orgs, s, acts[0]);
      StepKeepsRecords(orgs, s, acts[0]);
      RunUsageOk(orgs, Step(orgs, s, acts[0]), acts[1..]);
    }
  }

  lemma StepKeepsRecords(orgs: seq<string>, s: State, a: Action)
    ensures forall id :: id in s.usage ==> id in Step(orgs, s, a).usage && Step(orgs, s, a).usage[id] == s.usage[id]
  {
  }

  /** Each organization, dimension and hour has at most one record in every run, exactly one once a tick was told
      that its positive cost was written, and a record never changes afterwards. */
  lemma BilledOnce(orgs: seq<string>, w0: nat, acts: seq<Action>, org: string, d: Dim, hour: nat, i: string, j: string)
    requires WellNamed(orgs)
    ensures var s := Run(orgs, State(w0, map[], map[], {}, {}), acts);
            && (IsBucket(s.usage, i, org, d, hour) && IsBucket(s.usage, j, org, d, hour) ==> i == j)
            && ((org, d, hour) in s.acked ==> IsBucket(s.usage, BucketId(org, d, hour), org, d, hour))
  {
    RunUsageOk(orgs, State(w0, map[], map[], {}, {}), acts);
  }

  /** Ids of one length, as the identity service generates them, are well named. */
  lemma EqualLengthsAreWellNamed(orgs: seq<string>, length: nat)
    requires forall o :: o in orgs ==> |o| == length
    ensures WellNamed(orgs)
  {
    forall a, b | a in orgs && b in orgs ensures a != STORAGE_METRIC + "-" + b {
      assert |STORAGE_METRIC + "-" + b| > length;
    }
  }

  const UUID_LENGTH := 36

  /** So with generated ids nothing is billed twice and nothing acknowledged is lost. */
  lemma BilledOnceWithUUIDs(orgs: seq<string>, w0: nat, acts: seq<Action>, org: string, d: Dim, hour: nat, i: string,
                            j: string)
    requires forall o :: o in orgs ==> |o| == UUID_LENGTH
    ensures var s := Run(orgs, State(w0, map[], map[], {}, {}), acts);
            && (IsBucket(s.usage, i, org, d, hour) && IsBucket(s.usage, j, org, d, hour) ==> i == j)
            && ((org, d, hour) in s.acked ==> IsBucket(s.usage, BucketId(org, d, hour), org, d, hour))
  {
    EqualLengthsAreWellNamed(orgs, UUID_LENGTH);
    BilledOnce(orgs, w0, acts, org, d, hour, i, j);
  }

  lemma RecordsNeverChange(orgs: seq<string>, s: State, acts: seq<Action>, id: string)
    requires WellNamed(orgs) && UsageOk(orgs, s) && id in s.usage
    ensures id in Run(orgs, s, acts).usage && Run(orgs, s, acts).usage[id] == s.usage[id]
  {
    RunUsageOk(orgs, s, acts);
  }

  // ---- what the watermark has passed is billed, and at which amount ----

  /** Is action a, taken in state s, a tick's write of this organization, dimension and hour? */
  predicate Writes(orgs: seq<string>, s: State, a: Action, org: string, d: Dim, hour: nat) {
    && a.Write? && ProcOf(s, a.p).Metering? && AtWrite(orgs, ProcOf(s, a.p).tick)
    && var t := ProcOf(s, a.p).tick; orgs[t.oi] == org && t.dim == d && t.hours[t.hi] == hour
  }

  /** The write ends without an error: nothing to write, or the store says that it is written. */
  predicate Acknowledged(a: Action)
    requires a.Write?
  {
    a.microCents <= 0 || a.fault == NoFault
  }

  lemma {:induction false} RunSplit(orgs: seq<string>, s: State, acts: seq<Action>, k: nat)
    requires k <= |acts|
    ensures Run(orgs, s, acts) == Run(orgs, Run(orgs, s, acts[..k]), acts[k..])
    decreases |acts|
  {
    if k == 0 {
      assert acts[0..] == acts;
    } else {
      RunSplit(orgs, Step(orgs, s, acts[0]), acts[1..], k - 1);
      assert acts[..k][1..] == acts[1..][..k - 1] && acts[1..][k - 1..] == acts[k..];
    }
  }

  lemma RunNext(orgs: seq<string>, s: State, acts: seq<Action>, k: nat)
    requires k < |acts|
    ensures Run(orgs, s, acts[..k + 1]) == Step(orgs, Run(orgs, s, acts[..k]), acts[k])
    ensures Run(orgs, s, acts) == Run(orgs, Step(orgs, Run(orgs, s, acts[..k]), acts[k]), acts[k + 1..])
  {
    RunSplit(orgs, s, acts, k + 1);
    RunSplit(orgs, s, acts[..k + 1], k);
    var s', last := Run(orgs, s, acts[..k]), acts[..k + 1][k..];
    assert acts[..k + 1][..k] == acts[..k] && last == [acts[k]] && last[1..] == [];
    assert Run(orgs, s', last) == Run(orgs, Step(orgs, s', acts[k]), last[1..]);
  }

  /** An organization-hour counts as metered only after an acknowledged write of its storage cost. */
  lemma {:induction false} DoneFrom(orgs: seq<string>, s: State, acts: seq<Action>, hour: nat, org: string)
    returns (j: nat)
    requires (hour, org) in Run(orgs, s, acts).done && (hour, org) !in s.done
    ensures j < |acts| && Writes(orgs, Run(orgs, s, acts[..j]), acts[j], org, Storage, hour) && Acknowledged(acts[j])
    decreases |acts|
  {
    if acts == [] {
    } else {
      j := |acts| - 1;
      var front := acts[..j];
      RunNext(orgs, s, acts, j);
      assert acts[..j + 1] == acts;
      if (hour, org) in Run(orgs, s, front).done {
        j := DoneFrom(orgs, s, front, hour, org);
        assert front[..j] == acts[..j];
      }
    }
  }

  /** A tick is at a storage cost only after an acknowledged write of the compute cost. */
  lemma {:induction false} StorageFrom(orgs: seq<string>, s: State, acts: seq<Action>, p: nat) returns (i: nat)
    requires s.procs == map[]
    requires ProcOf(Run(orgs, s, acts), p).Metering?
    requires AtWrite(orgs, ProcOf(Run(orgs, s, acts), p).tick) && ProcOf(Run(orgs, s, acts), p).tick.dim == Storage
    ensures var t := ProcOf(Run(orgs, s, acts), p).tick;
            && i < |acts| && Writes(orgs, Run(orgs, s, acts[..i]), acts[i], orgs[t.oi], Compute, t.hours[t.hi])
            && Acknowledged(acts[i]) && acts[i].p == p
    decreases |acts|
  {
    if acts == [] {
    } else {
      i := |acts| - 1;
      var front := acts[..i];
      RunNext(orgs, s, acts, i);
      assert acts[..i + 1] == acts;
      if ProcOf(Run(orgs, s, front), p) == ProcOf(Run(orgs, s, acts), p) {
        i := StorageFrom(orgs, s, front, p);
        assert front[..i] == acts[..i];
      } else {
        StorageEntered(orgs, Run(orgs, s, front), acts[i], p);
      }
    }
  }

  lemma StorageEntered(orgs: seq<string>, s: State, a: Action, p: nat)
    requires ProcOf(Step(orgs, s, a), p) != ProcOf(s, p) && ProcOf(Step(orgs, s, a), p).Metering?
    requires AtWrite(orgs, ProcOf(Step(orgs, s, a), p).tick) && ProcOf(Step(orgs, s, a), p).tick.dim == Storage
    ensures var t := ProcOf(Step(orgs, s, a), p).tick;
            && Writes(orgs, s, a, orgs[t.oi], Compute, t.hours[t.hi]) && Acknowledged(a) && a.p == p
  {
  }

  /** Action i is an acknowledged write of the bucket. A positive cost is in the store at the end, and if it was the
      first write of its bucket, in exactly the amount that it named. */
  ghost predicate BilledBy(orgs: seq<string>, s: State, acts: seq<Action>, i: nat, org: string, d: Dim, hour: nat) {
    && i < |acts| && Writes(orgs, Run(orgs, s, acts[..i]), acts[i], org, d, hour) && Acknowledged(acts[i])
    && (acts[i].microCents > 0 ==>
          var id, usage := BucketId(org, d, hour), Run(orgs, s, acts).usage;
          && IsBucket(usage, id, org, d, hour)
          && (id !in Run(orgs, s, acts[..i]).usage ==> usage[id].quantity == acts[i].microCents))
  }

  lemma WriteStepFiles(orgs: seq<string>, s: State, a: Action, org: string, d: Dim, hour: nat)
    requires WellNamed(orgs) && UsageOk(orgs, s)
    requires Writes(orgs, s, a, org, d, hour) && Acknowledged(a) && a.microCents > 0
    ensures var usage', id := Step(orgs, s, a).usage, BucketId(org, d, hour);
            && IsBucket(usage', id, org, d, hour)
            && (id !in s.usage ==> usage'[id].quantity == a.microCents)
  {
  }

  lemma WriteBills(orgs: seq<string>, s: State, acts: seq<Action>, i: nat, org: string, d: Dim, hour: nat)
    requires WellNamed(orgs) && UsageOk(orgs, s) && i < |acts|
    requires Writes(orgs, Run(orgs, s, acts[..i]), acts[i], org, d, hour) && Acknowledged(acts[i])
    ensures BilledBy(orgs, s, acts, i, org, d, hour)
  {
    var before := Run(orgs, s, acts[..i]);
    var after := Step(orgs, before, acts[i]);
    RunNext(orgs, s, acts, i);
    RunUsageOk(orgs, s, acts[..i]);
    StepUsageOk(orgs, before, acts[i]);
    RunUsageOk(orgs, after, acts[i + 1..]);
    if acts[i].microCents > 0 {
      WriteStepFiles(orgs, before, acts[i], org, d, hour);
      assert after.usage[BucketId(org, d, hour)] == Run(orgs, s, acts).usage[BucketId(org, d, hour)];
    }
  }

  /** Every organization-hour between the initial and the stored watermark is billed in both dimensions: some tick's
      write of its compute cost and then one of its storage cost were acknowledged, a positive one is in the store,
      and the first to write its bucket is there at exactly the cost it named. */
  lemma PassedHoursAreBilled(orgs: seq<string>, w0: nat, acts: seq<Action>, h: nat, org: string)
    requires WellNamed(orgs) && ReadsSucceed(acts) && org in orgs
    requires w0 < h <= Run(orgs, State(w0, map[], map[], {}, {}), acts).watermark
    ensures var s0 := State(w0, map[], map[], {}, {});
            exists i, j :: i < j && BilledBy(orgs, s0, acts, i, org, Compute, h)
                           && BilledBy(orgs, s0, acts, j, org, Storage, h)
  {
    var s0 := State(w0, map[], map[], {}, {});
    NoHourSkipped(orgs, w0, map[], acts, h, org);
    var j := DoneFrom(orgs, s0, acts, h, org);
    var i := StorageFrom(orgs, s0, acts[..j], acts[j].p);
    assert acts[..j][..i] == acts[..i];
    WriteBills(orgs, s0, acts, i, org, Compute, h);
    WriteBills(orgs, s0, acts, j, org, Storage, h);
  }

  lemma NewRecordIsWritten(usage: Usage, o: string, e: Dim, h: nat, microCents: int, fault: Fault, id: string,
                           org: string, d: Dim, hour: nat)
    requires IsBucket(WriteBucket(usage, o, e, h, microCents, fault), id, org, d, hour) && id !in usage
    ensures o == org && e == d && h == hour && microCents > 0
    ensures WriteBucket(usage, o, e, h, microCents, fault)[id].quantity == microCents
  {
    assert Metric(Compute)[0] == 'c' && Metric(Storage)[0] == 's';
  }

  lemma NewBucketIsNamed(orgs: seq<string>, s: State, a: Action, id: string, org: string, d: Dim, hour: nat)
    requires IsBucket(Step(orgs, s, a).usage, id, org, d, hour) && id !in s.usage
    ensures Writes(orgs, s, a, org, d, hour) && a.microCents > 0
    ensures Step(orgs, s, a).usage[id].quantity == a.microCents
  {
    if a.Write? {
      var t := ProcOf(s, a.p).tick;
      assert Step(orgs, s, a) == WriteStep(orgs, s, a.p, t, a.microCents, a.fault);
      NewRecordIsWritten(s.usage, orgs[t.oi], t.dim, t.hours[t.hi], a.microCents, a.fault, id, org, d, hour);
    }
  }

  /** And no amount is made up: a metered record was first written by some tick, for that organization, dimension and
      hour, at exactly the amount it holds, and it holds that amount ever after. */
  lemma {:induction false} BilledAsNamed(orgs: seq<string>, s: State, acts: seq<Action>, id: string, org: string,
                                         d: Dim, hour: nat)
    returns (k: nat)
    requires WellNamed(orgs) && UsageOk(orgs, s) && id !in s.usage
    requires IsBucket(Run(orgs, s, acts).usage, id, org, d, hour)
    ensures k < |acts| && Writes(orgs, Run(orgs, s, acts[..k]), acts[k], org, d, hour)
    ensures id !in Run(orgs, s, acts[..k]).usage
    ensures Run(orgs, s, acts).usage[id].quantity == acts[k].microCents > 0
    decreases |acts|
  {
    if acts == [] {
    } else {
      k := |acts| - 1;
      var front := acts[..k];
      var before := Run(orgs, s, front);
      RunNext(orgs, s, acts, k);
      assert acts[..k + 1] == acts;
      if id in before.usage {
        RunUsageOk(orgs, s, front);
        RecordsNeverChange(orgs, before, [acts[k]], id);
        assert [acts[k]][1..] == [] && Run(orgs, before, [acts[k]]) == Run(orgs, Step(orgs, before, acts[k]), []);
        k := BilledAsNamed(orgs, s, front, id, org, d, hour);
        assert front[..k] == acts[..k];
      } else {
        NewBucketIsNamed(orgs, before, acts[k], id, org, d, hour);
      }
    }
  }

  // ---- what an unreadable watermark does ----

  function SkippingWrites(): seq<Action> {
    [Start(1, 13, false), Write(1, 0, NoFault), Write(1, 0, NoFault)]
  }

  function SkippingEnd(): seq<Action> {
    [EndHour(1), Stop(1), Persist(1, NoFault)]
  }

  lemma RunThree(orgs: seq<string>, s: State, a: Action, b: Action, c: Action, rest: seq<Action>)
    ensures Run(orgs, s, [a, b, c] + rest) == Run(orgs, Step(orgs, Step(orgs, Step(orgs, s, a), b), c), rest)
  {
    assert ([a, b, c] + rest)[1..] == [b, c] + rest && ([b, c] + rest)[1..] == [c] + rest && ([c] + rest)[1..] == rest;
    assert Run(orgs, Step(orgs, s, a), [b, c] + rest) == Run(orgs, Step(orgs, Step(orgs, s, a), b), [c] + rest);
  }

  /** The tick has metered its one hour, past those that the watermark lags behind. */
  ghost predicate PastTheGap(s: State, org: string) {
    && s.done == {(13, org)}
    && s.procs == map[1 := Metering(Tick(10, [13], 0, 1, Compute, true, true, None))]
  }

  lemma SkippingWritesRun(org: string, rest: seq<Action>)
    ensures exists s :: PastTheGap(s, org)
                        && Run([org], State(10, map[], map[], {}, {}), SkippingWrites() + rest)
                           == Run([org], s, rest)
  {
    var s0 := State(10, map[], map[], {}, {});
    RunThree([org], s0, Start(1, 13, false), Write(1, 0, NoFault), Write(1, 0, NoFault), rest);
    var t := Tick(10, [13], 0, 0, Compute, true, true, None);
    var s1 := Step([org], s0, Start(1, 13, false));
    assert s1.procs == map[1 := Metering(t)];
    var s2 := Step([org], s1, Write(1, 0, NoFault));
    assert s2.procs == map[1 := Metering(t.(dim := Storage))];
    var s3 := Step([org], s2, Write(1, 0, NoFault));
    assert PastTheGap(s3, org);
  }

  /** One failed read of the watermark is enough to move it past hours that nobody metered. */
  lemma UnreadableWatermarkSkips(org: string)
    ensures var s := Run([org], State(10, map[], map[], {}, {}), SkippingWrites() + SkippingEnd());
            s.watermark == 13 && (11, org) !in s.done && (12, org) !in s.done
  {
    SkippingWritesRun(org, SkippingEnd());
    var s :| PastTheGap(s, org)
             && Run([org], State(10, map[], map[], {}, {}), SkippingWrites() + SkippingEnd())
                == Run([org], s, SkippingEnd());
    assert SkippingEnd() == SkippingEnd() + [];
    RunThree([org], s, EndHour(1), Stop(1), Persist(1, NoFault), []);
    assert Step([org], s, EndHour(1)).procs[1].tick.lastDone == Some(13);
  }
}
