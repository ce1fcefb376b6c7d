/** The alarm manager with its backend as a transition system. One step is what a thread does
    between taking and releasing the manager's locks, one round of the draining loop, or one call
    on the backend; the clock, timers and a crash of the process are steps too, and so is a crash in the middle of
    a round, when an alarm has been handed to the executor and the backend does not know it. */
module AlarmModel {
  import opened Wrappers

  /** A persistent alarm is named by its key in the backend, a transient one by its identity. */
  datatype Id = Persistent(key: nat) | Transient(number: nat)

  /** What stays the same over the occurrences of an alarm; no interval means it fires once. */
  datatype Info = Info(interval: Option<nat>, callback: string, data: int)

  datatype Occurrence = Occurrence(id: Id, deadline: int)

  /** A stored alarm. */
  datatype Record = Record(deadline: int, info: Info)

  /** An alarm handed to the executor: for which deadline, and when. */
  datatype Firing = Firing(id: Id, deadline: int, time: int)

  const MINIMUM_SLEEP: int := 100

  /** The manager's memory: the queue of occurrences and the live descriptions. */
  datatype Memory = Memory(queue: multiset<Occurrence>, live: map<Id, Info>)

  /** Pending timers with their due times, and the one that the manager still refers to. */
  datatype Wake = Wake(timers: map<nat, int>, current: Option<nat>, next: nat)

  /** Runs: the one inside the locks with the time it read, those that wait for the locks, and
      those that have released them but not yet rescheduled. */
  datatype Runs = Runs(draining: Option<int>, waiting: nat, finishing: nat)

  /** Where the service is: not started, loading what it read from the backend, or started. */
  datatype Phase = Down | Starting(rest: map<nat, Record>) | Up

  /** Calls in flight: persisted but not yet scheduled, and forgotten but not yet removed from
      the backend; also every alarm of which a caller can hold a handle. */
  datatype Calls = Calls(creating: map<nat, Record>, cancelling: set<nat>, known: set<Id>, phase: Phase)

  /** The backend, which survives a crash. */
  datatype Disk = Disk(records: map<nat, Record>, nextKey: nat)

  /** What has happened: firings in order, alarms whose cancellation has returned, and the time of
      the last scheduling of a new alarm, or of a start. */
  datatype History = History(fired: seq<Firing>, cancelled: set<Id>, scheduled: int)

  datatype State = State(
    now: int, memory: Memory, wake: Wake, runs: Runs, calls: Calls, disk: Disk, history: History, nextNumber: nat)

  // ---------- steps ----------

  /** `head` is the occurrence that the queue yields first, where a step looks at it. */
  datatype Step =
    | Tick(amount: nat)
    | CreateTransient(deadline: int, info: Info, head: Occurrence)
    | Persist(deadline: int, info: Info)
    | Schedule(key: nat, head: Occurrence)
    | Forget(id: Id)
    | Remove(key: nat)
    | TimerFires(timer: nat)
    | RunLocks
    | RunRound(head: Occurrence)
    | RunUnlocks
    | Reschedule(first: Option<Occurrence>)
    | StartReads
    | StartLoads(key: nat)
    | StartEnds(first: Option<Occurrence>)
    | Crash
    | CrashInRound(head: Occurrence)

  /** o is among the occurrences with the least deadline. */
  predicate IsHead(queue: multiset<Occurrence>, o: Occurrence) {
    o in queue && forall p :: p in queue ==> o.deadline <= p.deadline
  }

  predicate IsHeadOf(queue: multiset<Occurrence>, head: Option<Occurrence>) {
    if head.Some? then IsHead(queue, head.value) else queue == multiset{}
  }

  function Later(a: int, b: int): int { if a >= b then a else b }

  /** scheduleNextAlarmCycle: drop the timer referred to, and set one for the queue's head. */
  function NextCycle(wake: Wake, now: int, head: Option<Occurrence>): Wake {
    var kept := if wake.current.Some? then wake.timers - {wake.current.value} else wake.timers;
    if head.None? then Wake(kept, None, wake.next)
    else
      var due := now + Later(MINIMUM_SLEEP, head.value.deadline - now);
      Wake(kept[wake.next := due], Some(wake.next), wake.next + 1)
  }

  function Add(memory: Memory, id: Id, deadline: int, info: Info): Memory {
    Memory(memory.queue + multiset{Occurrence(id, deadline)}, memory.live[id := info])
  }

  /** One round of the draining loop on the memory: the head leaves the queue; if its alarm is
      still live it fires, and comes back when it repeats. */
  function DrainMemory(memory: Memory, now: int, head: Occurrence): Memory {
    var rest := memory.queue - multiset{head};
    if head.id !in memory.live then Memory(rest, memory.live)
    else
      var info := memory.live[head.id];
      if info.interval.Some? then
        Memory(rest + multiset{Occurrence(head.id, now + info.interval.value)}, memory.live)
      else Memory(rest, memory.live - {head.id})
  }

  /** What a firing does to the backend. */
  function DrainDisk(disk: Disk, memory: Memory, now: int, head: Occurrence): Disk {
    if head.id !in memory.live || head.id.Transient? then disk
    else
      var info := memory.live[head.id];
      var key := head.id.key;
      if info.interval.None? then disk.(records := disk.records - {key})
      else if key in disk.records then
        disk.(records := disk.records[key := disk.records[key].(deadline := now + info.interval.value)])
      else disk
  }

  predicate Unlocked(s: State) { s.runs.draining.None? }

  predicate Enabled(loads: string -> bool, s: State, step: Step) {
    match step
    case Tick(_) => true
    case CreateTransient(d, info, head) =>
      Unlocked(s) && IsHead(Add(s.memory, Transient(s.nextNumber), d, info).queue, head)
    case Persist(_, _) => s.calls.phase == Up
    case Schedule(key, head) =>
      && Unlocked(s) && key in s.calls.creating
      && var r := s.calls.creating[key]; IsHead(Add(s.memory, Persistent(key), r.deadline, r.info).queue, head)
    case Forget(id) => Unlocked(s) && id in s.calls.known
    case Remove(key) => key in s.calls.cancelling
    case TimerFires(t) => t in s.wake.timers && s.wake.timers[t] <= s.now
    case RunLocks => Unlocked(s) && s.runs.waiting > 0
    case RunRound(head) =>
      s.runs.draining.Some? && IsHead(s.memory.queue, head) && head.deadline < s.runs.draining.value
    case RunUnlocks =>
      s.runs.draining.Some? && forall o :: o in s.memory.queue ==> s.runs.draining.value <= o.deadline
    case Reschedule(head) => Unlocked(s) && s.runs.finishing > 0 && IsHeadOf(s.memory.queue, head)
    case StartReads => s.calls.phase == Down
    case StartLoads(key) =>
      s.calls.phase.Starting? && key in s.calls.phase.rest &&
        (loads(s.calls.phase.rest[key].info.callback) ==> Unlocked(s))
    case StartEnds(head) =>
      Unlocked(s) && s.calls.phase == Starting(map[]) && IsHeadOf(s.memory.queue, head)
    case Crash => true
    case CrashInRound(head) =>
      && s.runs.draining.Some? && IsHead(s.memory.queue, head) && head.deadline < s.runs.draining.value
      && head.id in s.memory.live
  }

  // ---------- what the steps do ----------

  function AfterCreate(s: State, d: int, info: Info, head: Occurrence): State {
    var id := Transient(s.nextNumber);
    s.(memory := Add(s.memory, id, d, info),
       wake := NextCycle(s.wake, s.now, Some(head)),
       calls := s.calls.(known := s.calls.known + {id}),
       history := s.history.(scheduled := s.now),
       nextNumber := s.nextNumber + 1)
  }

  function AfterPersist(s: State, d: int, info: Info): State {
    var key := s.disk.nextKey;
    s.(disk := Disk(s.disk.records[key := Record(d, info)], key + 1),
       calls := s.calls.(creating := s.calls.creating[key := Record(d, info)]))
  }

  function AfterSchedule(s: State, key: nat, head: Occurrence): State
    requires key in s.calls.creating
  {
    var r := s.calls.creating[key];
    s.(memory := Add(s.memory, Persistent(key), r.deadline, r.info),
       wake := NextCycle(s.wake, s.now, Some(head)),
       calls := s.calls.(creating := s.calls.creating - {key}, known := s.calls.known + {Persistent(key)}),
       history := s.history.(scheduled := s.now))
  }

  function AfterForget(s: State, id: Id): State {
    var memory := s.memory.(live := s.memory.live - {id});
    if id.Persistent? then
      s.(memory := memory, calls := s.calls.(cancelling := s.calls.cancelling + {id.key}))
    else
      s.(memory := memory, history := s.history.(cancelled := s.history.cancelled + {id}))
  }

  function AfterRemove(s: State, key: nat): State {
    s.(disk := s.disk.(records := s.disk.records - {key}),
       calls := s.calls.(cancelling := s.calls.cancelling - {key}),
       history := s.history.(cancelled := s.history.cancelled + {Persistent(key)}))
  }

  function AfterRound(s: State, head: Occurrence): State {
    s.(memory := DrainMemory(s.memory, s.now, head),
       disk := DrainDisk(s.disk, s.memory, s.now, head),
       history :=
         if head.id in s.memory.live then
           s.history.(fired := s.history.fired + [Firing(head.id, head.deadline, s.now)])
         else s.history)
  }

  function AfterLoad(loads: string -> bool, s: State, key: nat): State
    requires s.calls.phase.Starting? && key in s.calls.phase.rest
  {
    var r := s.calls.phase.rest[key];
    var calls := s.calls.(phase := Starting(s.calls.phase.rest - {key}));
    if loads(r.info.callback) then
      s.(memory := Add(s.memory, Persistent(key), r.deadline, r.info),
         calls := calls.(known := calls.known + {Persistent(key)}))
    else s.(calls := calls)
  }

  function AfterCrash(s: State): State {
    s.(memory := Memory(multiset{}, map[]),
       wake := s.wake.(timers := map[], current := None),
       runs := Runs(None, 0, 0),
       calls := Calls(map[], {}, {}, Down))
  }

  /** The crash falls between the hand-over to the executor and the call on the backend. */
  function AfterCrashInRound(s: State, head: Occurrence): State {
    AfterCrash(s).(history := s.history.(fired := s.history.fired + [Firing(head.id, head.deadline, s.now)]))
  }

  function Do(loads: string -> bool, s: State, step: Step): State
    requires Enabled(loads, s, step)
  {
    match step
    case Tick(n) => s.(now := s.now + n)
    case CreateTransient(d, info, head) => AfterCreate(s, d, info, head)
    case Persist(d, info) => AfterPersist(s, d, info)
    case Schedule(key, head) => AfterSchedule(s, key, head)
    case Forget(id) => AfterForget(s, id)
    case Remove(key) => AfterRemove(s, key)
    case TimerFires(t) =>
      s.(wake := s.wake.(timers := s.wake.timers - {t}), runs := s.runs.(waiting := s.runs.waiting + 1))
    case RunLocks =>
      s.(wake := s.wake.(current := None),
         runs := s.runs.(draining := Some(s.now), waiting := s.runs.waiting - 1))
    case RunRound(head) => AfterRound(s, head)
    case RunUnlocks => s.(runs := s.runs.(draining := None, finishing := s.runs.finishing + 1))
    case Reschedule(first) =>
      s.(wake := NextCycle(s.wake, s.now, first), runs := s.runs.(finishing := s.runs.finishing - 1))
    case StartReads =>
      s.(calls := s.calls.(phase := Starting(s.disk.records)), history := s.history.(scheduled := s.now))
    case StartLoads(key) => AfterLoad(loads, s, key)
    case StartEnds(first) =>
      s.(wake := NextCycle(s.wake, s.now, first), calls := s.calls.(phase := Up),
         history := s.history.(scheduled := s.now))
    case Crash => AfterCrash(s)
    case CrashInRound(head) => AfterCrashInRound(s, head)
  }

  /** A first start on an empty backend. */
  predicate Init(s: State) {
    && s.memory == Memory(multiset{}, map[])
    && s.wake.timers == map[] && s.wake.current == None
    && s.runs == Runs(None, 0, 0)
    && s.calls == Calls(map[], {}, {}, Down)
    && s.disk == Disk(map[], 0)
    && s.history.fired == [] && s.history.cancelled == {}
    && s.nextNumber == 0
  }

  /** A finite run of the system: the states, one more than the steps between them. */
  ghost predicate IsRun(loads: string -> bool, ss: seq<State>, steps: seq<Step>) {
    && |ss| == |steps| + 1
    && Init(ss[0])
    && forall i :: 0 <= i < |steps| ==> Enabled(loads, ss[i], steps[i]) && ss[i + 1] == Do(loads, ss[i], steps[i])
  }
}
