/** Which timers are pending: scheduling cancels the one that it stops referring to, so that only the timer referred to
    is pending, and such as a run has let go without cancelling. */
module AlarmTimers {
  import opened Wrappers
  import opened AlarmModel
  import opened AlarmTiming

  /** The steps that set the next timer. */
  predicate Reschedules(step: Step) {
    step.CreateTransient? || step.Schedule? || step.Reschedule? || step.StartEnds?
  }

  /** A run began at step p while the manager referred to the timer. */
  predicate LetsGo(s: State, step: Step, t: nat) { step.RunLocks? && s.wake.current == Some(t) }

  /** Step by step: the reference is given up by scheduling, a run or a crash only; scheduling takes exactly the timer
      referred to away and adds at most the one that it refers to then. */
  lemma StepTimers(loads: string -> bool, s: State, step: Step)
    requires Enabled(loads, s, step) && TimerNames(s.wake)
    ensures var t := Do(loads, s, step);
      && TimerNames(t.wake) && s.wake.next <= t.wake.next
      && (Reschedules(step) ==>
            && (forall n :: n in s.wake.timers && s.wake.current != Some(n) ==>
                  n in t.wake.timers && t.wake.timers[n] == s.wake.timers[n])
            && (forall n :: n in t.wake.timers ==>
                  (n in s.wake.timers && s.wake.current != Some(n)) ||
                  (t.wake.current == Some(n) && n == s.wake.next)))
      && (!Reschedules(step) ==>
            && (forall n :: n in t.wake.timers ==> n in s.wake.timers && t.wake.timers[n] == s.wake.timers[n])
            && (forall n :: n in s.wake.timers && n !in t.wake.timers ==>
                  step == TimerFires(n) || step.Crash? || step.CrashInRound?)
            && (t.wake.current == s.wake.current || step.RunLocks? || t.wake.timers == map[]))
  {
    hide DrainMemory, DrainDisk, IsHead, IsHeadOf, Add;
  }

  /** A timer that is pending is the one referred to, or a run has let it go. */
  ghost predicate Accounted(ss: seq<State>, steps: seq<Step>, i: nat, t: nat)
    requires i < |ss| && i <= |steps| < |ss|
  {
    t in ss[i].wake.timers ==> ss[i].wake.current == Some(t) || exists p :: 0 <= p < i && LetsGo(ss[p], steps[p], t)
  }

  lemma {:induction false} RunNames(loads: string -> bool, ss: seq<State>, steps: seq<Step>, i: nat)
    requires IsRun(loads, ss, steps) && i < |ss|
    ensures TimerNames(ss[i].wake)
  {
    hide Woken, Do, Enabled;
    NoLostWakeup(loads, ss, steps, i);
    WokenNames(ss[i]);
  }

  lemma WokenNames(s: State)
    requires Woken(s)
    ensures TimerNames(s.wake)
  {}

  lemma {:induction false} PendingAccounted(loads: string -> bool, ss: seq<State>, steps: seq<Step>, i: nat, t: nat)
    requires IsRun(loads, ss, steps) && i < |ss|
    ensures Accounted(ss, steps, i, t)
    decreases i
  {
    hide Do, Enabled;
    if i > 0 && t in ss[i].wake.timers && ss[i].wake.current != Some(t) {
      RunNames(loads, ss, steps, i - 1);
      StepTimers(loads, ss[i - 1], steps[i - 1]);
      PendingAccounted(loads, ss, steps, i - 1, t);
      if ss[i - 1].wake.current == Some(t) {
        assert LetsGo(ss[i - 1], steps[i - 1], t);
      } else {
        var p :| 0 <= p < i - 1 && LetsGo(ss[p], steps[p], t);
      }
    }
  }

  /** A timer that scheduling stops referring to is not pending any more, then or later. */
  lemma {:induction false} SupersededGone(
    loads: string -> bool, ss: seq<State>, steps: seq<Step>, i: nat, j: nat, t: nat)
    requires IsRun(loads, ss, steps) && i < j < |ss|
    requires Reschedules(steps[i]) && ss[i].wake.current == Some(t)
    ensures t !in ss[j].wake.timers && t < ss[j].wake.next
    decreases j
  {
    hide Do, Enabled;
    RunNames(loads, ss, steps, j - 1);
    StepTimers(loads, ss[j - 1], steps[j - 1]);
    if j > i + 1 { SupersededGone(loads, ss, steps, i, j - 1, t); }
  }
}
