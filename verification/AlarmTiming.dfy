/** Wake-ups: none is lost, and when timers fire on time no alarm is early or more than the
    minimum sleep late. */
module AlarmTiming {
  import opened Wrappers
  import opened AlarmModel
  import AlarmAgenda

  // ---------- no wake-up is lost ----------

  /** A run that has yet to look at the queue, or to set the next timer. */
  predicate RunComing(s: State) {
    s.runs.draining.Some? || s.runs.waiting > 0 || s.runs.finishing > 0 || s.calls.phase.Starting?
  }

  predicate TimerNames(wake: Wake) {
    (forall t :: t in wake.timers ==> t < wake.next) && (wake.current.Some? ==> wake.current.value < wake.next)
  }

  predicate Woken(s: State) {
    TimerNames(s.wake) && (s.memory.queue != multiset{} ==> s.wake.timers != map[] || RunComing(s))
  }

  lemma NextCycleWakes(wake: Wake, now: int, head: Option<Occurrence>)
    requires TimerNames(wake)
    ensures var w := NextCycle(wake, now, head);
            && TimerNames(w)
            && (head.Some? ==> wake.next in w.timers)
            && (head.Some? ==> w.timers[wake.next] == Later(now + MINIMUM_SLEEP, head.value.deadline))
  {}

  lemma StepWoken(loads: string -> bool, s: State, step: Step)
    requires Woken(s) && Enabled(loads, s, step)
    ensures Woken(Do(loads, s, step))
  {
    hide NextCycle, DrainMemory, DrainDisk, IsHead;
    match step {
      case CreateTransient(_, _, head) => NextCycleWakes(s.wake, s.now, Some(head));
      case Schedule(_, head) => NextCycleWakes(s.wake, s.now, Some(head));
      case Reschedule(first) => NextCycleWakes(s.wake, s.now, first);
      case StartEnds(first) => NextCycleWakes(s.wake, s.now, first);
      case _ =>
    }
  }

  /** Whenever an occurrence is queued a timer is pending, or a run or a start is on its way that
      will look at the queue and set one. */
  lemma {:induction false} NoLostWakeup(loads: string -> bool, ss: seq<State>, steps: seq<Step>, i: nat)
    requires IsRun(loads, ss, steps) && i < |ss|
    ensures Woken(ss[i])
  {
    hide Woken, Do, Enabled;
    if i == 0 {
      InitWoken(ss[0]);
    } else {
      NoLostWakeup(loads, ss, steps, i - 1);
      StepWoken(loads, ss[i - 1], steps[i - 1]);
    }
  }

  lemma InitWoken(s: State)
    requires Init(s)
    ensures Woken(s)
  {}

  // ---------- bounded lateness ----------

  /** Time passes only while nothing is to be done at once, and never beyond a pending timer. */
  predicate Timely(s: State, step: Step) {
    step.Tick? ==> !RunComing(s) && forall t :: t in s.wake.timers ==> s.now + step.amount <= s.wake.timers[t]
  }

  /** The latest time at which an occurrence may still be queued. */
  function Bound(s: State, o: Occurrence): int { Later(o.deadline, s.history.scheduled) + MINIMUM_SLEEP }

  /** The clock has not passed the bound of any queued occurrence; unless a run is coming, a timer
      is pending that will not let it. */
  ghost predicate InTime(s: State) {
    && TimerNames(s.wake)
    && (s.runs.draining.Some? ==> s.runs.draining.value == s.now)
    && (s.calls.phase.Starting? ==> s.history.scheduled == s.now)
    && (forall o :: o in s.memory.queue ==> s.now <= Bound(s, o))
    && (!RunComing(s) ==> forall o :: o in s.memory.queue ==> TimerBy(s.wake, Bound(s, o)))
    && (s.runs.draining.None? && s.runs.waiting == 0 && s.runs.finishing > 0 ==>
          forall o :: o in s.memory.queue ==> s.now <= Later(o.deadline, s.history.scheduled))
  }

  ghost predicate TimerBy(wake: Wake, time: int) { exists t :: t in wake.timers && wake.timers[t] <= time }

  lemma NextCycleInTime(s: State, head: Option<Occurrence>)
    requires TimerNames(s.wake) && IsHeadOf(s.memory.queue, head)
    requires forall o :: o in s.memory.queue ==> s.now <= Later(o.deadline, s.history.scheduled)
    ensures TimerNames(NextCycle(s.wake, s.now, head))
    ensures forall o :: o in s.memory.queue ==> TimerBy(NextCycle(s.wake, s.now, head), Bound(s, o))
  {
    hide NextCycle;
    NextCycleWakes(s.wake, s.now, head);
    var w := NextCycle(s.wake, s.now, head);
    forall o | o in s.memory.queue ensures TimerBy(w, Bound(s, o)) {
      assert s.wake.next in w.timers && w.timers[s.wake.next] <= Bound(s, o);
    }
  }

  lemma CreateInTime(s: State, d: int, info: Info, head: Occurrence)
    requires InTime(s) && IsHead(Add(s.memory, Transient(s.nextNumber), d, info).queue, head)
    ensures InTime(AfterCreate(s, d, info, head))
  {
    hide NextCycle, TimerBy;
    var t := s.(memory := Add(s.memory, Transient(s.nextNumber), d, info), history := s.history.(scheduled := s.now));
    NextCycleInTime(t, Some(head));
  }

  lemma ScheduleInTime(s: State, key: nat, head: Occurrence)
    requires InTime(s) && key in s.calls.creating
    requires var r := s.calls.creating[key]; IsHead(Add(s.memory, Persistent(key), r.deadline, r.info).queue, head)
    ensures InTime(AfterSchedule(s, key, head))
  {
    hide NextCycle, TimerBy;
    var r := s.calls.creating[key];
    var t := s.(memory := Add(s.memory, Persistent(key), r.deadline, r.info),
                history := s.history.(scheduled := s.now));
    NextCycleInTime(t, Some(head));
  }

  lemma RoundInTime(s: State, head: Occurrence)
    requires InTime(s) && s.runs.draining.Some?
    ensures InTime(AfterRound(s, head))
  {
    hide DrainDisk, TimerBy;
  }

  lemma RescheduleInTime(s: State, first: Option<Occurrence>)
    requires InTime(s) && s.runs.draining.None? && s.runs.finishing > 0 && IsHeadOf(s.memory.queue, first)
    ensures InTime(s.(wake := NextCycle(s.wake, s.now, first), runs := s.runs.(finishing := s.runs.finishing - 1)))
  {
    hide NextCycle, TimerBy, IsHeadOf;
    NextCycleWakes(s.wake, s.now, first);
    if s.runs.waiting == 0 { NextCycleInTime(s, first); }
  }

  lemma EndsInTime(s: State, first: Option<Occurrence>)
    requires InTime(s) && s.calls.phase.Starting? && IsHeadOf(s.memory.queue, first)
    ensures InTime(s.(wake := NextCycle(s.wake, s.now, first), calls := s.calls.(phase := Up),
                      history := s.history.(scheduled := s.now)))
  {
    hide NextCycle, TimerBy, IsHeadOf;
    NextCycleInTime(s, first);
  }

  lemma TickInTime(s: State, amount: nat)
    requires InTime(s) && Timely(s, Tick(amount))
    ensures InTime(s.(now := s.now + amount))
  {
    forall o | o in s.memory.queue ensures s.now + amount <= Bound(s, o) {
      assert TimerBy(s.wake, Bound(s, o));
    }
  }

  lemma LoadInTime(loads: string -> bool, s: State, key: nat)
    requires InTime(s) && s.calls.phase.Starting? && key in s.calls.phase.rest
    ensures InTime(AfterLoad(loads, s, key))
  {
    hide TimerBy;
  }

  lemma OtherInTime(loads: string -> bool, s: State, step: Step)
    requires InTime(s) && Enabled(loads, s, step)
    requires step.Persist? || step.Forget? || step.Remove? || step.TimerFires? || step.RunLocks? || step.RunUnlocks? ||
             step.StartReads? || step.Crash? || step.CrashInRound?
    ensures InTime(Do(loads, s, step))
  {
    hide NextCycle, TimerBy, AfterCreate, AfterSchedule, AfterRound, AfterLoad;
  }

  lemma StepInTime(loads: string -> bool, s: State, step: Step)
    requires InTime(s) && Enabled(loads, s, step) && Timely(s, step)
    ensures InTime(Do(loads, s, step))
  {
    hide InTime, NextCycle, AfterCreate, AfterSchedule, AfterRound, AfterLoad, Timely;
    match step {
      case Tick(n) => TickInTime(s, n);
      case CreateTransient(d, info, head) => CreateInTime(s, d, info, head);
      case Schedule(key, head) => ScheduleInTime(s, key, head);
      case RunRound(head) => RoundInTime(s, head);
      case Reschedule(first) => RescheduleInTime(s, first);
      case StartLoads(key) => LoadInTime(loads, s, key);
      case StartEnds(first) => EndsInTime(s, first);
      case _ => OtherInTime(loads, s, step);
    }
  }

  lemma InitInTime(s: State)
    requires Init(s)
    ensures InTime(s)
  {}

  /** A run in which time passes only as Timely allows. */
  ghost predicate IsTimelyRun(loads: string -> bool, ss: seq<State>, steps: seq<Step>) {
    IsRun(loads, ss, steps) && forall i :: 0 <= i < |steps| ==> Timely(ss[i], steps[i])
  }

  lemma {:induction false} RunInTime(loads: string -> bool, ss: seq<State>, steps: seq<Step>, i: nat)
    requires IsTimelyRun(loads, ss, steps) && i < |ss|
    ensures InTime(ss[i])
  {
    hide InTime, Do, Enabled, Timely;
    if i == 0 {
      InitInTime(ss[0]);
    } else {
      RunInTime(loads, ss, steps, i - 1);
      StepInTime(loads, ss[i - 1], steps[i - 1]);
    }
  }

  /** Never early, and at most the minimum sleep late: an alarm that fires does so after its
      deadline and no later than 100 ms past it, or past the last scheduling of a new alarm or start
      when that was later. */
  lemma FiresInTime(loads: string -> bool, ss: seq<State>, steps: seq<Step>, i: nat)
    requires IsTimelyRun(loads, ss, steps) && i < |steps| && (steps[i].RunRound? || steps[i].CrashInRound?)
    ensures var d := steps[i].head.deadline;
            d < ss[i].now && (ss[i].now <= d + 100 || ss[i].now <= ss[i].history.scheduled + 100)
  {
    RunInTime(loads, ss, steps, i);
    assert Enabled(loads, ss[i], steps[i]);
    hide Do, IsRun, TimerNames, TimerBy;
  }

  // ---------- every live alarm fires ----------

  /** Steps that end an alarm by other means than firing it. */
  predicate Drops(step: Step, id: Id) {
    step.Crash? || (step.CrashInRound? && step.head.id != id) || step == Forget(id)
  }

  /** The occurrence is handed to the executor, whether or not the process then crashes. */
  predicate HandsOver(step: Step, o: Occurrence) { step == RunRound(o) || step == CrashInRound(o) }

  /** A queued live alarm stays so until it fires, is cancelled or the process crashes. */
  lemma StaysQueued(loads: string -> bool, s: State, step: Step, o: Occurrence)
    requires Enabled(loads, s, step) && o in s.memory.queue && o.id in s.memory.live && !Drops(step, o.id)
    requires !HandsOver(step, o)
    requires (step.RunRound? || step.CrashInRound?) && step.head.id == o.id ==> step.head == o
    ensures var t := Do(loads, s, step); o in t.memory.queue && o.id in t.memory.live
  {
    hide NextCycle, DrainDisk, DrainMemory, IsHead, IsHeadOf;
    if step.RunRound? { RoundLeaves(s, step.head, o); }
  }

  lemma RoundLeaves(s: State, head: Occurrence, o: Occurrence)
    requires o in s.memory.queue && o.id in s.memory.live && head != o && head.id != o.id
    ensures var m := DrainMemory(s.memory, s.now, head); o in m.queue && o.id in m.live
  {}

  /** A live alarm that is neither cancelled nor lost in a crash fires in time: by the time that the
      clock passes its bound it has been fired, after its deadline and within the bound. */
  lemma {:induction false} LiveAlarmFires(
    loads: string -> bool, ss: seq<State>, steps: seq<Step>, i: nat, j: nat, o: Occurrence) returns (k: nat)
    requires IsTimelyRun(loads, ss, steps) && i <= j < |ss|
    requires o in ss[i].memory.queue && o.id in ss[i].memory.live
    requires forall n :: i <= n < j ==> !Drops(steps[n], o.id)
    requires ss[j].now > Bound(ss[j], o)
    ensures i <= k < j && HandsOver(steps[k], o) && o.id in ss[k].memory.live
    ensures o.deadline < ss[k].now
    ensures ss[k].now <= o.deadline + 100 || ss[k].now <= ss[k].history.scheduled + 100
    decreases j - i
  {
    hide Do, Enabled, Timely, InTime, AlarmAgenda.Sound;
    RunInTime(loads, ss, steps, i);
    PassedIsGone(ss[j], o);
    RunInTime(loads, ss, steps, j);
    assert i < j;
    if HandsOver(steps[i], o) {
      k := i;
      FiresInTime(loads, ss, steps, i);
    } else {
      AlarmAgenda.RunSound(loads, ss, steps, i);
      HeadsDiffer(loads, ss[i], steps[i], o);
      StaysQueued(loads, ss[i], steps[i], o);
      k := LiveAlarmFires(loads, ss, steps, i + 1, j, o);
    }
  }

  lemma PassedIsGone(s: State, o: Occurrence)
    requires s.now > Bound(s, o)
    ensures InTime(s) ==> o !in s.memory.queue
  {
    hide TimerNames, TimerBy, RunComing;
  }

  lemma HeadsDiffer(loads: string -> bool, s: State, step: Step, o: Occurrence)
    requires AlarmAgenda.Sound(loads, s) && Enabled(loads, s, step) && o in s.memory.queue
    ensures (step.RunRound? || step.CrashInRound?) && step.head.id == o.id ==> step.head == o
  {}

  // ---------- time is never stuck ----------

  lemma {:induction false} HasHead(queue: multiset<Occurrence>) returns (o: Occurrence)
    requires queue != multiset{}
    ensures IsHead(queue, o)
    decreases |queue|
  {
    var p :| p in queue;
    var rest := queue - multiset{p};
    if rest == multiset{} {
      o := p;
    } else {
      var q := HasHead(rest);
      o := if p.deadline <= q.deadline then p else q;
    }
    assert forall r :: r in queue ==> r == p || r in rest;
  }

  lemma HeadOf(queue: multiset<Occurrence>) returns (first: Option<Occurrence>)
    ensures IsHeadOf(queue, first)
  {
    if queue == multiset{} { first := None; }
    else {
      var o := HasHead(queue);
      first := Some(o);
    }
  }

  /** The steps that the service takes by itself. */
  predicate Internal(step: Step) {
    step.TimerFires? || step.RunLocks? || step.RunRound? || step.RunUnlocks? || step.Reschedule? ||
    step.StartLoads? || step.StartEnds?
  }

  /** The timing assumption never stops the clock for good: at every moment either it can advance or
      the service has a step to take. */
  lemma ClockRuns(loads: string -> bool, s: State) returns (step: Step)
    ensures Enabled(loads, s, step) && Timely(s, step)
    ensures step == Tick(1) || Internal(step)
  {
    if s.runs.draining.Some? {
      var first := HeadOf(s.memory.queue);
      step := if first.Some? && first.value.deadline < s.runs.draining.value then RunRound(first.value) else RunUnlocks;
    } else if s.calls.phase.Starting? && s.calls.phase.rest != map[] {
      var key :| key in s.calls.phase.rest;
      step := StartLoads(key);
    } else if s.calls.phase.Starting? {
      var first := HeadOf(s.memory.queue);
      step := StartEnds(first);
    } else if s.runs.waiting > 0 {
      step := RunLocks;
    } else if s.runs.finishing > 0 {
      var first := HeadOf(s.memory.queue);
      step := Reschedule(first);
    } else if t :| t in s.wake.timers && s.wake.timers[t] <= s.now {
      step := TimerFires(t);
    } else {
      step := Tick(1);
    }
  }
}
