/** For which deadlines an alarm is fired: first for the one it was created with, then each time its interval after the
    moment of the firing before; and always with the description it was created with. */
module AlarmPeriod {
  import opened Wrappers
  import opened AlarmModel
  import opened AlarmAgenda
  import opened AlarmOnce

  /** Whatever is queued, live, stored, read or persisted of the alarm has this deadline and this description. */
  predicate Promised(s: State, id: Id, d: int, info: Info) {
    && Issued(s, id)
    && (forall o :: o in s.memory.queue && o.id == id ==> o.deadline == d)
    && (id in s.memory.live ==> s.memory.live[id] == info)
    && (id.Persistent? ==>
          && (id.key in s.disk.records ==> s.disk.records[id.key] == Record(d, info))
          && (id.key in s.calls.creating ==> s.calls.creating[id.key] == Record(d, info))
          && (s.calls.phase.Starting? && id.key in s.calls.phase.rest ==>
                s.calls.phase.rest[id.key] == Record(d, info)))
  }

  /** The step makes the alarm: a transient one at once, a persistent one by storing it. */
  predicate Creates(s: State, step: Step, id: Id, d: int, info: Info) {
    || (step.CreateTransient? && id == Transient(s.nextNumber) && step.deadline == d && step.info == info)
    || (step.Persist? && id == Persistent(s.disk.nextKey) && step.deadline == d && step.info == info)
  }

  lemma CreatePromises(loads: string -> bool, s: State, step: Step, id: Id, d: int, info: Info)
    requires Sound(loads, s) && Enabled(loads, s, step) && Creates(s, step, id, d, info)
    ensures Promised(Do(loads, s, step), id, d, info)
  {
    hide NextCycle, IsHead, Single, Agreed, Mirrored, Gone, Accounted;
    if step.CreateTransient? {
      NewName(s);
    } else {
      PersistNames(s, d, info);
      assert forall o :: o in s.memory.queue ==> Issued(s, o.id);
    }
  }

  /** A round that ends fires the alarm. */
  predicate Completes(s: State, step: Step, id: Id) { step.RunRound? && Fires(s, step, id) }

  lemma RoundPromised(s: State, head: Occurrence, id: Id, d: int, info: Info)
    requires Promised(s, id, d, info) && !(head.id == id && id in s.memory.live)
    ensures Promised(AfterRound(s, head), id, d, info)
  {
    var m := DrainMemory(s.memory, s.now, head);
    assert forall o :: o in m.queue && o.id == id ==> o in s.memory.queue;
  }

  /** Nothing else changes what is promised. */
  lemma StepPromised(loads: string -> bool, s: State, step: Step, id: Id, d: int, info: Info)
    requires Enabled(loads, s, step) && Promised(s, id, d, info) && !Completes(s, step, id)
    ensures Promised(Do(loads, s, step), id, d, info)
  {
    if step.RunRound? {
      RoundPromised(s, step.head, id, d, info);
    } else {
      OtherPromised(loads, s, step, id, d, info);
    }
    hide Promised, Do, Enabled;
  }

  lemma OtherPromised(loads: string -> bool, s: State, step: Step, id: Id, d: int, info: Info)
    requires Enabled(loads, s, step) && Promised(s, id, d, info) && !step.RunRound?
    ensures Promised(Do(loads, s, step), id, d, info)
  {
    if step.CreateTransient? || step.Persist? || step.Schedule? {
      CallPromised(loads, s, step, id, d, info);
    } else if step.StartReads? || step.StartLoads? || step.StartEnds? {
      StartPromised(loads, s, step, id, d, info);
    } else {
      RestPromised(loads, s, step, id, d, info);
    }
    hide Promised, Do, Enabled;
  }

  lemma CallPromised(loads: string -> bool, s: State, step: Step, id: Id, d: int, info: Info)
    requires Enabled(loads, s, step) && Promised(s, id, d, info)
    requires step.CreateTransient? || step.Persist? || step.Schedule?
    ensures Promised(Do(loads, s, step), id, d, info)
  {
    hide NextCycle, IsHead, IsHeadOf, DrainMemory, DrainDisk, AfterLoad, AfterForget, AfterRemove, AfterCrash,
      AfterRound;
  }

  lemma StartPromised(loads: string -> bool, s: State, step: Step, id: Id, d: int, info: Info)
    requires Enabled(loads, s, step) && Promised(s, id, d, info)
    requires step.StartReads? || step.StartLoads? || step.StartEnds?
    ensures Promised(Do(loads, s, step), id, d, info)
  {
    hide NextCycle, IsHead, IsHeadOf, DrainMemory, DrainDisk, AfterCreate, AfterPersist, AfterSchedule, AfterForget,
      AfterRemove, AfterCrash, AfterRound;
  }

  lemma RestPromised(loads: string -> bool, s: State, step: Step, id: Id, d: int, info: Info)
    requires Enabled(loads, s, step) && Promised(s, id, d, info) && !step.RunRound?
    requires !step.CreateTransient? && !step.Persist? && !step.Schedule?
    requires !step.StartReads? && !step.StartLoads? && !step.StartEnds?
    ensures Promised(Do(loads, s, step), id, d, info)
  {
    hide NextCycle, IsHead, IsHeadOf, DrainMemory, DrainDisk, AfterCreate, AfterPersist, AfterSchedule, AfterLoad,
      AfterRound;
  }

  /** Such a round promises the next deadline: the interval after now, in the queue and in the backend. */
  lemma NextPromised(loads: string -> bool, s: State, step: Step, id: Id, d: int, info: Info)
    requires Sound(loads, s) && Enabled(loads, s, step) && Promised(s, id, d, info) && Completes(s, step, id)
    requires info.interval.Some?
    ensures Promised(Do(loads, s, step), id, s.now + info.interval.value, info)
  {
    hide Agreed, Gone, Accounted, Single, IsHead;
    var head := step.head;
    assert head in s.memory.queue by { HeadQueued(loads, s, head); }
    RestSingle(s.memory.queue, head);
    assert id in s.calls.known;
  }

  lemma HeadQueued(loads: string -> bool, s: State, head: Occurrence)
    requires Enabled(loads, s, RunRound(head))
    ensures head in s.memory.queue
  {}

  lemma {:induction false} RunPromised(
    loads: string -> bool, ss: seq<State>, steps: seq<Step>, i: nat, j: nat, id: Id, d: int, info: Info)
    requires IsRun(loads, ss, steps) && i <= j < |ss| && Promised(ss[i], id, d, info)
    requires forall n :: i <= n < j ==> !Completes(ss[n], steps[n], id)
    ensures Promised(ss[j], id, d, info)
    decreases j
  {
    hide Do, Enabled, Init, Promised, Completes;
    if i < j {
      RunPromised(loads, ss, steps, i, j - 1, id, d, info);
      StepPromised(loads, ss[j - 1], steps[j - 1], id, d, info);
    }
  }

  lemma FiresAsPromised(loads: string -> bool, s: State, step: Step, id: Id, d: int, info: Info)
    requires Enabled(loads, s, step) && Fires(s, step, id) && Promised(s, id, d, info)
    ensures step.head.deadline == d && s.memory.live[id] == info
  {}

  /** Until a round that fires it has ended, an alarm is fired only for the deadline, and with the description, that it
      was created with. */
  lemma FirstFiring(
    loads: string -> bool, ss: seq<State>, steps: seq<Step>, i: nat, q: nat, id: Id, d: int, info: Info)
    requires IsRun(loads, ss, steps) && i < q < |steps| && Creates(ss[i], steps[i], id, d, info)
    requires Fires(ss[q], steps[q], id) && forall n :: i < n < q ==> !Completes(ss[n], steps[n], id)
    ensures steps[q].head.deadline == d && ss[q].memory.live[id] == info
  {
    hide Sound, Do, Init, Promised, Completes, Creates;
    RunSound(loads, ss, steps, i);
    CreatePromises(loads, ss[i], steps[i], id, d, info);
    RunPromised(loads, ss, steps, i + 1, q, id, d, info);
    FiresAsPromised(loads, ss[q], steps[q], id, d, info);
  }

  /** What is live is as it is queued and stored. */
  lemma LivePromised(loads: string -> bool, s: State, step: Step, id: Id)
    requires Sound(loads, s) && Enabled(loads, s, step) && Fires(s, step, id)
    ensures Promised(s, id, step.head.deadline, s.memory.live[id])
  {
    hide Agreed, Gone, Accounted, Do;
    assert id in s.calls.known;
  }

  /** After a firing whose round ended, the next ones are for the interval after that moment, until one of them ends;
      each comes later than that, and with the same description. */
  lemma NextFiring(loads: string -> bool, ss: seq<State>, steps: seq<Step>, p: nat, q: nat, id: Id)
    requires IsRun(loads, ss, steps) && p < q < |steps| && Completes(ss[p], steps[p], id)
    requires Fires(ss[q], steps[q], id) && forall n :: p < n < q ==> !Completes(ss[n], steps[n], id)
    ensures var info := ss[p].memory.live[id];
      && info.interval.Some? && ss[q].memory.live[id] == info
      && steps[q].head.deadline == ss[p].now + info.interval.value < ss[q].now
  {
    hide Sound, Do, Init, Promised, Clocked;
    var info := ss[p].memory.live[id];
    RunSound(loads, ss, steps, p);
    FiresOnce(loads, ss, steps, p, q, id);
    LivePromised(loads, ss[p], steps[p], id);
    NextPromised(loads, ss[p], steps[p], id, steps[p].head.deadline, info);
    RunPromised(loads, ss, steps, p + 1, q, id, ss[p].now + info.interval.value, info);
    FiresAsPromised(loads, ss[q], steps[q], id, ss[p].now + info.interval.value, info);
    RunClocked(loads, ss, steps, q);
    FiresLate(loads, ss[q], steps[q], id);
  }

  lemma FiresLate(loads: string -> bool, s: State, step: Step, id: Id)
    requires Enabled(loads, s, step) && Fires(s, step, id) && Clocked(s)
    ensures step.head.deadline < s.now
  {}
}
