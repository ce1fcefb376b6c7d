/** How often an alarm is handed to the executor. A firing whose round ends is for a deadline of its own, and an alarm
    without an interval has no firing after it. A crash inside a round is what makes an alarm fire again for the same
    deadline, and nothing else does. */
module AlarmOnce {
  import opened Wrappers
  import opened AlarmModel
  import opened AlarmAgenda

  /** The step hands the alarm to the executor. */
  predicate Fires(s: State, step: Step, id: Id) {
    (step.RunRound? || step.CrashInRound?) && step.head.id == id && id in s.memory.live
  }

  lemma StepFires(loads: string -> bool, s: State, step: Step)
    requires Enabled(loads, s, step)
    ensures var t := Do(loads, s, step);
      t.history.fired ==
        if (step.RunRound? || step.CrashInRound?) && step.head.id in s.memory.live then
          s.history.fired + [Firing(step.head.id, step.head.deadline, s.now)]
        else s.history.fired
  {
    hide NextCycle, DrainMemory, DrainDisk, IsHead, IsHeadOf;
  }

  // ---------- alarms that are over ----------

  /** The alarm has existed, and is neither live nor stored. */
  predicate Over(s: State, id: Id) {
    Issued(s, id) && id !in s.memory.live && (id.Persistent? ==> id.key !in s.disk.records)
  }

  /** No step brings back an alarm that is over. */
  lemma StepKeepsOver(loads: string -> bool, s: State, step: Step, id: Id)
    requires Sound(loads, s) && Enabled(loads, s, step) && Over(s, id)
    ensures Over(Do(loads, s, step), id) && !Fires(s, step, id)
  {
    hide Names, Single, Agreed, Mirrored, Gone, Accounted, NextCycle, IsHead, IsHeadOf;
  }

  /** Firing an alarm without an interval ends it when the round ends; a crash inside the round ends it if it is
      transient. */
  lemma LastFiring(loads: string -> bool, s: State, step: Step, id: Id)
    requires Sound(loads, s) && Enabled(loads, s, step) && Fires(s, step, id)
    requires if step.RunRound? then s.memory.live[id].interval.None? else id.Transient?
    ensures Over(Do(loads, s, step), id)
  {
    hide Single, Agreed, Mirrored, Gone, Accounted, Pending;
  }

  lemma {:induction false} StaysOver(loads: string -> bool, ss: seq<State>, steps: seq<Step>, i: nat, j: nat, id: Id)
    requires IsRun(loads, ss, steps) && i <= j < |ss| && Over(ss[i], id)
    ensures Over(ss[j], id) && forall n :: i <= n < j ==> !Fires(ss[n], steps[n], id)
    decreases j
  {
    hide Sound, Do, Enabled, Init, Over, Fires;
    if i < j {
      StaysOver(loads, ss, steps, i, j - 1, id);
      RunSound(loads, ss, steps, j - 1);
      StepKeepsOver(loads, ss[j - 1], steps[j - 1], id);
    }
  }

  /** An alarm that has fired fires again only if it repeats, or if it is persistent and the process crashed in the
      middle of the first firing. */
  lemma FiresOnce(loads: string -> bool, ss: seq<State>, steps: seq<Step>, i: nat, j: nat, id: Id)
    requires IsRun(loads, ss, steps) && i < j < |steps|
    requires Fires(ss[i], steps[i], id) && Fires(ss[j], steps[j], id)
    ensures if steps[i].RunRound? then ss[i].memory.live[id].interval.Some? else id.Persistent?
  {
    hide Sound, Init, Do, Enabled;
    RunSound(loads, ss, steps, i);
    if if steps[i].RunRound? then ss[i].memory.live[id].interval.None? else id.Transient? {
      LastFiring(loads, ss[i], steps[i], id);
      StaysOver(loads, ss, steps, i + 1, j, id);
    }
  }

  // ---------- deadlines ----------

  predicate Stands(deadline: int, d: int, same: bool) { if same then deadline == d else d < deadline }

  /** What is queued or stored for the alarm is due at d, or else after d. */
  predicate DueAt(s: State, id: Id, d: int, same: bool) {
    && Issued(s, id)
    && (forall o :: o in s.memory.queue && o.id == id ==> Stands(o.deadline, d, same))
    && (id.Persistent? && id.key in s.disk.records ==> Stands(s.disk.records[id.key].deadline, d, same))
  }

  predicate Clocked(s: State) { s.runs.draining.Some? ==> s.runs.draining.value <= s.now }

  /** The alarm that is about to fire is queued and stored for the deadline of the head alone. */
  lemma DueNow(loads: string -> bool, s: State, step: Step, id: Id)
    requires Sound(loads, s) && Enabled(loads, s, step) && Fires(s, step, id)
    ensures DueAt(s, id, step.head.deadline, true)
  {
    hide Agreed, Gone, Accounted, Pending, Do;
  }

  lemma RoundDueQueue(s: State, head: Occurrence, id: Id, d: int, same: bool)
    requires Single(s.memory.queue) && IsHead(s.memory.queue, head) && head.deadline < s.now && DueAt(s, id, d, same)
    ensures var still := same && !(head.id == id && id in s.memory.live);
      forall o :: o in DrainMemory(s.memory, s.now, head).queue && o.id == id ==> Stands(o.deadline, d, still)
  {
    hide Single;
    RestSingle(s.memory.queue, head);
  }

  lemma RoundDueDisk(s: State, head: Occurrence, id: Id, d: int, same: bool)
    requires IsHead(s.memory.queue, head) && head.deadline < s.now && DueAt(s, id, d, same)
    ensures var still := same && !(head.id == id && id in s.memory.live);
      var disk := DrainDisk(s.disk, s.memory, s.now, head);
      id.Persistent? && id.key in disk.records ==> Stands(disk.records[id.key].deadline, d, still)
  {
    hide Single;
    assert head.id == id ==> Stands(head.deadline, d, same);
  }

  lemma RoundDue(loads: string -> bool, s: State, head: Occurrence, id: Id, d: int, same: bool)
    requires Sound(loads, s) && Enabled(loads, s, RunRound(head)) && Clocked(s) && DueAt(s, id, d, same)
    ensures DueAt(AfterRound(s, head), id, d, same && !(head.id == id && id in s.memory.live))
  {
    hide Names, Single, Agreed, Mirrored, Gone, Accounted, Pending, DrainMemory, Stands;
    RoundDueQueue(s, head, id, d, same);
    RoundDueDisk(s, head, id, d, same);
  }

  lemma OtherDue(loads: string -> bool, s: State, step: Step, id: Id, d: int, same: bool)
    requires Sound(loads, s) && Enabled(loads, s, step) && !step.RunRound? && DueAt(s, id, d, same)
    ensures DueAt(Do(loads, s, step), id, d, same)
  {
    hide Names, Single, Agreed, Mirrored, Gone, Accounted, NextCycle, IsHead, IsHeadOf, Stands;
  }

  lemma StepClocked(loads: string -> bool, s: State, step: Step)
    requires Enabled(loads, s, step) && Clocked(s)
    ensures Clocked(Do(loads, s, step))
  {
    hide NextCycle, DrainMemory, DrainDisk, IsHead, IsHeadOf;
  }

  lemma StepDue(loads: string -> bool, s: State, step: Step, id: Id, d: int, same: bool)
    requires Sound(loads, s) && Enabled(loads, s, step) && Clocked(s) && DueAt(s, id, d, same)
    ensures DueAt(Do(loads, s, step), id, d, same && (Fires(s, step, id) ==> step.CrashInRound?))
  {
    hide Sound, DueAt, Clocked;
    if step.RunRound? {
      RoundDue(loads, s, step.head, id, d, same);
    } else {
      OtherDue(loads, s, step, id, d, same);
    }
  }

  lemma {:induction false} RunClocked(loads: string -> bool, ss: seq<State>, steps: seq<Step>, i: nat)
    requires IsRun(loads, ss, steps) && i < |ss|
    ensures Clocked(ss[i])
  {
    if i == 0 {
    } else {
      hide Do, Enabled, Init, Clocked;
      RunClocked(loads, ss, steps, i - 1);
      StepClocked(loads, ss[i - 1], steps[i - 1]);
    }
  }

  /** Every firing of the alarm from step p until before step i ended in a crash. */
  ghost predicate Crashed(ss: seq<State>, steps: seq<Step>, p: nat, i: nat, id: Id)
    requires i <= |ss| && i <= |steps|
  {
    forall n :: p <= n < i && Fires(ss[n], steps[n], id) ==> steps[n].CrashInRound?
  }

  lemma {:induction false} RunDue(loads: string -> bool, ss: seq<State>, steps: seq<Step>, p: nat, i: nat, id: Id)
    requires IsRun(loads, ss, steps) && p <= i <= |steps| && p < |steps| && Fires(ss[p], steps[p], id)
    ensures DueAt(ss[i], id, steps[p].head.deadline, Crashed(ss, steps, p, i, id))
    decreases i
  {
    hide Sound, Do, Enabled, Init, Clocked, DueAt;
    if i == p {
      RunSound(loads, ss, steps, p);
      DueNow(loads, ss[p], steps[p], id);
    } else {
      RunDue(loads, ss, steps, p, i - 1, id);
      RunSound(loads, ss, steps, i - 1);
      RunClocked(loads, ss, steps, i - 1);
      var same := Crashed(ss, steps, p, i - 1, id);
      StepDue(loads, ss[i - 1], steps[i - 1], id, steps[p].head.deadline, same);
      assert Crashed(ss, steps, p, i, id) ==
        (same && (Fires(ss[i - 1], steps[i - 1], id) ==> steps[i - 1].CrashInRound?));
    }
  }

  /** Of two steps that fire an alarm the second is for the same deadline exactly if every firing from the first one
      on, that one included, ended in a crash; otherwise it is for a later deadline. */
  lemma DeadlinesExact(loads: string -> bool, ss: seq<State>, steps: seq<Step>, p: nat, q: nat, id: Id)
    requires IsRun(loads, ss, steps) && p < q < |steps|
    requires Fires(ss[p], steps[p], id) && Fires(ss[q], steps[q], id)
    ensures steps[p].head.deadline <= steps[q].head.deadline
    ensures steps[p].head.deadline == steps[q].head.deadline <==> Crashed(ss, steps, p, q, id)
  {
    hide Do, Init, Crashed;
    RunDue(loads, ss, steps, p, q, id);
    assert Enabled(loads, ss[q], steps[q]);
    assert steps[q].head in ss[q].memory.queue;
  }

  /** The firing is what step p appended. */
  predicate Handed(ss: seq<State>, steps: seq<Step>, p: nat, f: Firing)
    requires p < |ss| && p < |steps|
  {
    Fires(ss[p], steps[p], f.id) && f == Firing(f.id, steps[p].head.deadline, ss[p].now)
  }

  lemma {:induction false} FiringOf(loads: string -> bool, ss: seq<State>, steps: seq<Step>, i: nat, m: nat)
    returns (p: nat)
    requires IsRun(loads, ss, steps) && i < |ss| && m < |ss[i].history.fired|
    ensures p < i && |ss[p].history.fired| == m && ss[p].history.fired <= ss[i].history.fired
    ensures Handed(ss, steps, p, ss[i].history.fired[m])
    decreases i
  {
    hide Do, Enabled;
    var before := ss[i - 1].history.fired;
    StepFires(loads, ss[i - 1], steps[i - 1]);
    if m < |before| {
      p := FiringOf(loads, ss, steps, i - 1, m);
    } else {
      p := i - 1;
    }
  }

  /** Over any run the firings of an alarm are for deadlines that never fall; two of them are for the same one exactly
      if each from the first until before the second fell into a crash. */
  lemma SameDeadlineExact(loads: string -> bool, ss: seq<State>, steps: seq<Step>, i: nat, m: nat, n: nat)
    returns (p: nat, q: nat)
    requires IsRun(loads, ss, steps) && i < |ss| && m < n < |ss[i].history.fired|
    requires ss[i].history.fired[m].id == ss[i].history.fired[n].id
    ensures p < q < i && Handed(ss, steps, p, ss[i].history.fired[m]) && Handed(ss, steps, q, ss[i].history.fired[n])
    ensures ss[i].history.fired[m].deadline <= ss[i].history.fired[n].deadline
    ensures ss[i].history.fired[m].deadline == ss[i].history.fired[n].deadline <==>
              Crashed(ss, steps, p, q, ss[i].history.fired[m].id)
  {
    hide Init, Do, Enabled, Crashed;
    q := FiringOf(loads, ss, steps, i, n);
    p := FiringOf(loads, ss, steps, q, m);
    DeadlinesExact(loads, ss, steps, p, q, ss[i].history.fired[m].id);
  }

  /** A transient alarm has no two firings for the same deadline at all. */
  lemma TransientRises(loads: string -> bool, ss: seq<State>, steps: seq<Step>, i: nat, m: nat, n: nat)
    requires IsRun(loads, ss, steps) && i < |ss| && m < n < |ss[i].history.fired|
    requires ss[i].history.fired[m].id == ss[i].history.fired[n].id && ss[i].history.fired[m].id.Transient?
    ensures ss[i].history.fired[m].deadline < ss[i].history.fired[n].deadline
  {
    hide Init, Do, Enabled;
    var p, q := SameDeadlineExact(loads, ss, steps, i, m, n);
    FiresOnce(loads, ss, steps, p, q, ss[i].history.fired[m].id);
    assert steps[p].RunRound?;
  }
}
