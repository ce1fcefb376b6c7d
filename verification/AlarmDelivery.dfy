/** Persistent alarms survive crashes, those in the middle of a firing included: what is not cancelled is fired by a
    round that ends. An alarm whose firing fell into a crash is therefore fired again for the same deadline. */
module AlarmDelivery {
  import opened Wrappers
  import opened AlarmModel
  import opened AlarmAgenda
  import opened AlarmTiming
  import opened AlarmOnce

  /** The alarm is stored, nothing of it is in memory and no call on it is in flight; the service is down or has read
      but not yet loaded it. */
  ghost predicate Waiting(s: State, k: nat, r: Record) {
    && k in s.disk.records && s.disk.records[k] == r
    && Persistent(k) !in s.calls.known && k !in s.calls.cancelling && k !in s.calls.creating && k < s.disk.nextKey
    && (s.calls.phase == Down ||
        (s.calls.phase.Starting? && k in s.calls.phase.rest && s.calls.phase.rest[k] == r))
  }

  predicate Armed(s: State, k: nat, r: Record) {
    var o := Occurrence(Persistent(k), r.deadline);
    o in s.memory.queue && o.id in s.memory.live && s.memory.live[o.id] == r.info
  }

  ghost predicate Carried(s: State, k: nat, r: Record) { Armed(s, k, r) || Waiting(s, k, r) }

  /** The process ends here. */
  predicate Ends(step: Step) { step.Crash? || step.CrashInRound? }

  lemma CrashWaits(loads: string -> bool, s: State, step: Step, k: nat, r: Record)
    requires Sound(loads, s) && Enabled(loads, s, step) && Ends(step) && Carried(s, k, r)
    ensures Waiting(Do(loads, s, step), k, r)
  {
    hide Agreed, Gone, Accounted, IsHead;
    if Armed(s, k, r) {
      assert Persistent(k) in s.calls.known && Issued(s, Persistent(k));
      assert k in s.disk.records && s.disk.records[k] == r;
    }
  }

  lemma WaitingGoesOn(loads: string -> bool, s: State, step: Step, k: nat, r: Record)
    requires Enabled(loads, s, step) && Waiting(s, k, r) && !Ends(step) && !step.RunRound? && loads(r.info.callback)
    ensures Carried(Do(loads, s, step), k, r)
  {
    hide NextCycle, IsHead, IsHeadOf;
  }

  lemma WaitingRound(loads: string -> bool, s: State, head: Occurrence, k: nat, r: Record)
    requires Sound(loads, s) && Enabled(loads, s, RunRound(head)) && Waiting(s, k, r)
    ensures Waiting(AfterRound(s, head), k, r)
  {
    hide Single, Agreed, Mirrored, Pending, Gone, Accounted, IsHead, DrainMemory;
    assert Persistent(k) !in s.memory.live;
  }

  /** What is live keeps its description. */
  lemma LiveKept(loads: string -> bool, s: State, step: Step, id: Id)
    requires Sound(loads, s) && Enabled(loads, s, step) && id in s.memory.live && id in Do(loads, s, step).memory.live
    ensures Do(loads, s, step).memory.live[id] == s.memory.live[id]
  {
    hide NextCycle, IsHead, IsHeadOf, DrainDisk, Single, Agreed, Mirrored, Gone, Accounted;
    assert id in s.calls.known && Issued(s, id);
  }

  lemma ArmedGoesOn(loads: string -> bool, s: State, step: Step, k: nat, r: Record)
    requires Sound(loads, s) && Enabled(loads, s, step) && Armed(s, k, r) && !Ends(step)
    requires step != Forget(Persistent(k)) && step != RunRound(Occurrence(Persistent(k), r.deadline))
    ensures Armed(Do(loads, s, step), k, r)
  {
    hide Sound, Enabled, Do;
    var o := Occurrence(Persistent(k), r.deadline);
    HeadsDiffer(loads, s, step, o);
    StaysQueued(loads, s, step, o);
    LiveKept(loads, s, step, o.id);
  }

  /** Nothing but a cancellation or a round that fires it and ends takes a persistent alarm away. */
  lemma StepCarries(loads: string -> bool, s: State, step: Step, k: nat, r: Record)
    requires Sound(loads, s) && Enabled(loads, s, step) && Carried(s, k, r) && loads(r.info.callback)
    requires step != Forget(Persistent(k)) && step != RunRound(Occurrence(Persistent(k), r.deadline))
    ensures Carried(Do(loads, s, step), k, r)
  {
    hide Sound, Enabled, Armed, Waiting, AfterRound, AfterCreate, AfterPersist, AfterSchedule, AfterForget, AfterRemove,
      AfterLoad, AfterCrash, AfterCrashInRound, NextCycle;
    if Ends(step) {
      CrashWaits(loads, s, step, k, r);
    } else if Armed(s, k, r) {
      ArmedGoesOn(loads, s, step, k, r);
    } else if step.RunRound? {
      WaitingRound(loads, s, step.head, k, r);
    } else {
      WaitingGoesOn(loads, s, step, k, r);
    }
  }

  /** A round that takes the occurrence of such an alarm fires it. */
  lemma CarriedFires(loads: string -> bool, s: State, k: nat, r: Record)
    requires Sound(loads, s) && Carried(s, k, r)
    requires Enabled(loads, s, RunRound(Occurrence(Persistent(k), r.deadline)))
    ensures Fires(s, RunRound(Occurrence(Persistent(k), r.deadline)), Persistent(k))
  {
    hide Single, Agreed, Mirrored, Pending, Gone, Accounted;
    assert Occurrence(Persistent(k), r.deadline) in s.memory.queue;
  }

  lemma CarriedInTime(s: State, k: nat, r: Record)
    requires InTime(s) && Carried(s, k, r) && s.calls.phase == Up
    ensures s.now <= Bound(s, Occurrence(Persistent(k), r.deadline))
  {
    hide TimerNames, TimerBy, RunComing, Bound;
  }

  /** A persistent alarm whose class loads and that is not cancelled is fired, for the deadline that it has, by a round
      that ends, whatever crashes and restarts come between: at the latest when the service is up and the clock past
      the bound. */
  lemma {:induction false} SurvivesCrashes(
    loads: string -> bool, ss: seq<State>, steps: seq<Step>, i: nat, j: nat, k: nat, r: Record) returns (n: nat)
    requires IsTimelyRun(loads, ss, steps) && i <= j < |ss|
    requires Carried(ss[i], k, r) && loads(r.info.callback)
    requires forall n :: i <= n < j ==> steps[n] != Forget(Persistent(k))
    requires ss[j].calls.phase == Up && ss[j].now > Bound(ss[j], Occurrence(Persistent(k), r.deadline))
    ensures i <= n < j && steps[n] == RunRound(Occurrence(Persistent(k), r.deadline))
    ensures Fires(ss[n], steps[n], Persistent(k))
    decreases j - i
  {
    hide Sound, Do, Enabled, Init, Timely, InTime, Carried, Fires;
    RunSound(loads, ss, steps, i);
    if i == j {
      RunInTime(loads, ss, steps, i);
      CarriedInTime(ss[i], k, r);
    } else if steps[i] == RunRound(Occurrence(Persistent(k), r.deadline)) {
      n := i;
      CarriedFires(loads, ss[i], k, r);
    } else {
      StepCarries(loads, ss[i], steps[i], k, r);
      n := SurvivesCrashes(loads, ss, steps, i + 1, j, k, r);
    }
  }

  /** A crash in the middle of a firing leaves the alarm stored as it was, and unless it is cancelled it is fired again
      for the same deadline. */
  lemma CrashFiresAgain(
    loads: string -> bool, ss: seq<State>, steps: seq<Step>, i: nat, j: nat, k: nat, r: Record) returns (n: nat)
    requires IsTimelyRun(loads, ss, steps) && i < j < |ss|
    requires steps[i] == CrashInRound(Occurrence(Persistent(k), r.deadline)) && Armed(ss[i], k, r)
    requires loads(r.info.callback) && forall n :: i <= n < j ==> steps[n] != Forget(Persistent(k))
    requires ss[j].calls.phase == Up && ss[j].now > Bound(ss[j], Occurrence(Persistent(k), r.deadline))
    ensures Fires(ss[i], steps[i], Persistent(k))
    ensures k in ss[i + 1].disk.records && ss[i + 1].disk.records[k] == r
    ensures i < n < j && Fires(ss[n], steps[n], Persistent(k)) && steps[n].head == steps[i].head
  {
    hide Sound, Do, Enabled, Init, Timely, InTime, Bound;
    RunSound(loads, ss, steps, i);
    CrashWaits(loads, ss[i], steps[i], k, r);
    n := SurvivesCrashes(loads, ss, steps, i, j, k, r);
  }

  // ---------- a run in which an alarm fires twice ----------

  lemma Extend(loads: string -> bool, ss: seq<State>, steps: seq<Step>, step: Step)
    returns (ts: seq<State>, more: seq<Step>)
    requires IsTimelyRun(loads, ss, steps) && Enabled(loads, ss[|steps|], step) && Timely(ss[|steps|], step)
    ensures IsTimelyRun(loads, ts, more) && more == steps + [step] && ts == ss + [Do(loads, ss[|steps|], step)]
  {
    hide Init, Enabled, Do, Timely;
    more, ts := steps + [step], ss + [Do(loads, ss[|steps|], step)];
  }

  const NO_CALLS := Calls(map[], {}, {}, Down)

  /** The service is down at the given time, with one alarm stored or none, and so many timers used up. */
  function Stopped(now: int, disk: Disk, used: nat, fired: seq<Firing>, scheduled: int): State {
    State(now, Memory(multiset{}, map[]), Wake(map[], None, used), Runs(None, 0, 0), NO_CALLS, disk,
          History(fired, {}, scheduled), 0)
  }

  /** The service is up with one alarm, stored and queued for d, and a timer at time due. */
  function Running(now: int, d: int, due: int, info: Info, used: nat, fired: seq<Firing>, scheduled: int): State {
    State(now, Memory(multiset{Occurrence(Persistent(0), d)}, map[Persistent(0) := info]),
          Wake(map[used := due], Some(used), used + 1), Runs(None, 0, 0), Calls(map[], {}, {Persistent(0)}, Up),
          Disk(map[0 := Record(d, info)], 1), History(fired, {}, scheduled), 0)
  }

  /** The timer has fired and the run holds the locks. */
  function Draining(now: int, d: int, info: Info, used: nat, fired: seq<Firing>, scheduled: int): State {
    Running(now, d, now, info, used, fired, scheduled)
      .(wake := Wake(map[], None, used + 1), runs := Runs(Some(now), 0, 0))
  }

  /** A first start and the creation of an alarm that is due at once. */
  lemma FirstAlarm(loads: string -> bool, d: int, info: Info) returns (ss: seq<State>, steps: seq<Step>)
    ensures IsTimelyRun(loads, ss, steps) && ss[|steps|] == Running(d, d, d + 100, info, 0, [], d)
  {
    hide Enabled, Do, Timely, Init;
    ss, steps := [Stopped(d, Disk(map[], 0), 0, [], d)], [];
    EmptyStart(d);
    FirstSteps(loads, d, info);
    ss, steps := Extend(loads, ss, steps, StartReads);
    ss, steps := Extend(loads, ss, steps, StartEnds(None));
    ss, steps := Extend(loads, ss, steps, Persist(d, info));
    ss, steps := Extend(loads, ss, steps, Schedule(0, Occurrence(Persistent(0), d)));
  }

  lemma EmptyStart(d: int)
    ensures Init(Stopped(d, Disk(map[], 0), 0, [], d))
  {}

  predicate Goes(loads: string -> bool, s: State, step: Step, t: State) {
    Enabled(loads, s, step) && Timely(s, step) && Do(loads, s, step) == t
  }

  lemma FirstSteps(loads: string -> bool, d: int, info: Info)
    ensures var s0 := Stopped(d, Disk(map[], 0), 0, [], d);
      var s1 := s0.(calls := NO_CALLS.(phase := Starting(map[])));
      var s2 := s0.(calls := NO_CALLS.(phase := Up));
      var stored := map[0 := Record(d, info)];
      var s3 := s2.(calls := s2.calls.(creating := stored), disk := Disk(stored, 1));
      && Goes(loads, s0, StartReads, s1) && Goes(loads, s1, StartEnds(None), s2)
      && Goes(loads, s2, Persist(d, info), s3)
      && Goes(loads, s3, Schedule(0, Occurrence(Persistent(0), d)), Running(d, d, d + 100, info, 0, [], d))
  {}

  /** Waiting for the timer, and taking the locks. */
  lemma TimerRuns(
    loads: string -> bool, ss: seq<State>, steps: seq<Step>, now: int, d: int, info: Info, used: nat,
    fired: seq<Firing>) returns (ts: seq<State>, more: seq<Step>)
    requires IsTimelyRun(loads, ss, steps) && ss[|steps|] == Running(now, d, now + 100, info, used, fired, now)
    ensures IsTimelyRun(loads, ts, more) && steps <= more && ss <= ts
    ensures ts[|more|] == Draining(now + 100, d, info, used, fired, now)
  {
    hide Enabled, Do, Timely, Init;
    TimerSteps(loads, now, d, info, used, fired);
    ts, more := Extend(loads, ss, steps, Tick(100));
    ts, more := Extend(loads, ts, more, TimerFires(used));
    ts, more := Extend(loads, ts, more, RunLocks);
  }

  lemma TimerSteps(loads: string -> bool, now: int, d: int, info: Info, used: nat, fired: seq<Firing>)
    ensures var s0 := Running(now, d, now + 100, info, used, fired, now);
      var s1 := s0.(now := now + 100);
      var s2 := s1.(wake := Wake(map[], Some(used), used + 1), runs := Runs(None, 1, 0));
      && Goes(loads, s0, Tick(100), s1) && Goes(loads, s1, TimerFires(used), s2)
      && Goes(loads, s2, RunLocks, Draining(now + 100, d, info, used, fired, now))
  {}

  /** A crash in the middle of the firing, and the restart. */
  lemma CrashAndStart(
    loads: string -> bool, ss: seq<State>, steps: seq<Step>, now: int, d: int, info: Info, scheduled: int)
    returns (ts: seq<State>, more: seq<Step>)
    requires IsTimelyRun(loads, ss, steps) && ss[|steps|] == Draining(now, d, info, 0, [], scheduled)
    requires d < now && loads(info.callback)
    ensures IsTimelyRun(loads, ts, more) && steps + [CrashInRound(Occurrence(Persistent(0), d))] <= more && ss <= ts
    ensures ts[|more|] == Running(now, d, now + 100, info, 1, [Firing(Persistent(0), d, now)], now)
  {
    hide Enabled, Do, Timely, Init;
    var o := Occurrence(Persistent(0), d);
    CrashStep(loads, now, d, info, scheduled);
    RestartSteps(loads, now, d, info, scheduled);
    ts, more := Extend(loads, ss, steps, CrashInRound(o));
    ts, more := Extend(loads, ts, more, StartReads);
    ts, more := Extend(loads, ts, more, StartLoads(0));
    ts, more := Extend(loads, ts, more, StartEnds(Some(o)));
  }

  lemma CrashStep(loads: string -> bool, now: int, d: int, info: Info, scheduled: int)
    requires d < now
    ensures Goes(loads, Draining(now, d, info, 0, [], scheduled), CrashInRound(Occurrence(Persistent(0), d)),
                 Stopped(now, Disk(map[0 := Record(d, info)], 1), 1, [Firing(Persistent(0), d, now)], scheduled))
  {}

  lemma RestartSteps(loads: string -> bool, now: int, d: int, info: Info, scheduled: int)
    requires d < now && loads(info.callback)
    ensures var o, disk := Occurrence(Persistent(0), d), Disk(map[0 := Record(d, info)], 1);
      var fired := [Firing(Persistent(0), d, now)];
      var s1 := Stopped(now, disk, 1, fired, scheduled);
      var s2 := Stopped(now, disk, 1, fired, now).(calls := NO_CALLS.(phase := Starting(disk.records)));
      var s3 := s2.(memory := Memory(multiset{o}, map[Persistent(0) := info]),
                    calls := Calls(map[], {}, {Persistent(0)}, Starting(map[])));
      && Goes(loads, s1, StartReads, s2) && Goes(loads, s2, StartLoads(0), s3)
      && Goes(loads, s3, StartEnds(Some(o)), Running(now, d, now + 100, info, 1, fired, now))
  {}

  /** For every description whose class loads, repeating or not, and every deadline there is a run in which the alarm
      is fired twice for that deadline. */
  lemma FiresTwice(loads: string -> bool, d: int, info: Info) returns (ss: seq<State>, steps: seq<Step>)
    requires loads(info.callback)
    ensures IsTimelyRun(loads, ss, steps)
    ensures ss[|steps|].history.fired == [Firing(Persistent(0), d, d + 100), Firing(Persistent(0), d, d + 200)]
  {
    hide Enabled, Do, Timely, Init;
    ss, steps := FirstAlarm(loads, d, info);
    ss, steps := TimerRuns(loads, ss, steps, d, d, info, 0, []);
    ss, steps := CrashAndStart(loads, ss, steps, d + 100, d, info, d);
    var fired := [Firing(Persistent(0), d, d + 100)];
    ss, steps := TimerRuns(loads, ss, steps, d + 100, d, info, 1, fired);
    LastRound(loads, d + 200, d, info, fired, d + 100);
    ss, steps := Extend(loads, ss, steps, RunRound(Occurrence(Persistent(0), d)));
  }

  lemma LastRound(loads: string -> bool, now: int, d: int, info: Info, fired: seq<Firing>, scheduled: int)
    requires d < now
    ensures var s, step := Draining(now, d, info, 1, fired, scheduled), RunRound(Occurrence(Persistent(0), d));
      && Enabled(loads, s, step) && Timely(s, step)
      && Do(loads, s, step).history.fired == fired + [Firing(Persistent(0), d, now)]
  {
    hide DrainMemory, DrainDisk;
  }
}
