/** What the alarm manager's queue, map and backend agree on in every reachable state: the live
    alarms and their deadlines. From it follow that a cancellation is final and that a restart
    recovers the agenda. */
module AlarmAgenda {
  import opened Wrappers
  import opened AlarmModel

  // ---------- the invariant ----------

  predicate Issued(s: State, id: Id) {
    match id
    case Persistent(k) => k < s.disk.nextKey
    case Transient(n) => n < s.nextNumber
  }

  /** Names are given out once, and callers know what is live or queued. */
  predicate Names(s: State) {
    && (forall id :: id in s.memory.live ==> id in s.calls.known)
    && (forall o :: o in s.memory.queue ==> o.id in s.calls.known)
    && (forall id :: id in s.calls.known ==> Issued(s, id))
    && (forall id :: id in s.history.cancelled ==> Issued(s, id))
    && (forall k :: k in s.disk.records ==> k < s.disk.nextKey)
    && (forall k :: k in s.calls.creating ==> k < s.disk.nextKey && Persistent(k) !in s.calls.known)
    && (forall k :: k in s.calls.cancelling ==> Persistent(k) in s.calls.known && Persistent(k) !in s.memory.live)
  }

  /** No alarm is queued twice. */
  predicate Single(queue: multiset<Occurrence>) {
    && (forall o :: o in queue ==> queue[o] == 1)
    && (forall o, p :: o in queue && p in queue && o.id == p.id ==> o == p)
  }

  ghost predicate Queued(queue: multiset<Occurrence>, id: Id) { exists d :: Occurrence(id, d) in queue }

  /** Every live alarm is queued; what else is queued has been cancelled. */
  ghost predicate Agreed(s: State) {
    && (forall id :: id in s.memory.live ==> Queued(s.memory.queue, id))
    && (forall o :: o in s.memory.queue && o.id !in s.memory.live ==>
          o.id in s.history.cancelled || (o.id.Persistent? && o.id.key in s.calls.cancelling))
  }

  /** A live persistent alarm is stored as it is queued. */
  ghost predicate Mirrored(s: State) {
    forall k :: Persistent(k) in s.memory.live ==>
      && k in s.disk.records && s.disk.records[k].info == s.memory.live[Persistent(k)]
      && Occurrence(Persistent(k), s.disk.records[k].deadline) in s.memory.queue
  }

  /** What is persisted but not yet scheduled, or read but not yet loaded, is stored as it is. */
  ghost predicate Pending(s: State) {
    && (forall k :: k in s.calls.creating ==> k in s.disk.records && s.disk.records[k] == s.calls.creating[k])
    && (s.calls.phase != Up ==> s.calls.creating == map[])
    && (s.calls.phase == Down ==> forall k :: Persistent(k) !in s.calls.known)
    && (s.calls.phase.Starting? ==> forall k :: k in s.calls.phase.rest ==>
          k in s.disk.records && s.disk.records[k] == s.calls.phase.rest[k] && Persistent(k) !in s.calls.known)
  }

  /** A cancelled alarm is neither live nor stored. */
  predicate Gone(s: State) {
    forall id :: id in s.history.cancelled ==>
      id !in s.memory.live && (id.Persistent? ==> id.key !in s.disk.records)
  }

  /** A stored alarm is live, or a call on it is in flight, or the service has not loaded it. */
  predicate Accounted(loads: string -> bool, s: State) {
    forall k :: k in s.disk.records ==>
      || Persistent(k) in s.memory.live || k in s.calls.creating || k in s.calls.cancelling
      || s.calls.phase == Down || (s.calls.phase.Starting? && k in s.calls.phase.rest)
      || !loads(s.disk.records[k].info.callback)
  }

  ghost predicate Sound(loads: string -> bool, s: State) {
    Names(s) && Single(s.memory.queue) && Agreed(s) && Mirrored(s) && Pending(s) && Gone(s) && Accounted(loads, s)
  }

  // ---------- preservation ----------

  lemma AddSingle(queue: multiset<Occurrence>, o: Occurrence)
    requires Single(queue) && forall p :: p in queue ==> p.id != o.id
    ensures Single(queue + multiset{o})
  {}

  lemma CreateNames(s: State, d: int, info: Info, head: Occurrence)
    requires Names(s)
    ensures Names(AfterCreate(s, d, info, head))
  {
    hide NextCycle;
  }

  lemma CreateKeeps(loads: string -> bool, s: State, d: int, info: Info, head: Occurrence)
    requires Sound(loads, s)
    ensures Sound(loads, AfterCreate(s, d, info, head))
  {
    hide NextCycle, Names, Single, Agreed, Mirrored, Pending, Gone, Accounted;
    CreateNames(s, d, info, head);
    NewName(s);
    AddSingle(s.memory.queue, Occurrence(Transient(s.nextNumber), d));
    CreateAgreed(s, d, info, head);
    CreateRest(loads, s, d, info, head);
  }

  lemma AddAgreed(s: State, t: State, id: Id, d: int, info: Info)
    requires Agreed(s) && t.memory == Add(s.memory, id, d, info)
    requires t.history.cancelled == s.history.cancelled && t.calls.cancelling == s.calls.cancelling
    ensures Agreed(t)
  {
    forall i | i in t.memory.live ensures Queued(t.memory.queue, i) {
      if i == id {
        assert Occurrence(id, d) in t.memory.queue;
      } else {
        assert Queued(s.memory.queue, i);
        var e :| Occurrence(i, e) in s.memory.queue;
        assert Occurrence(i, e) in t.memory.queue;
      }
    }
  }

  lemma CreateAgreed(s: State, d: int, info: Info, head: Occurrence)
    requires Agreed(s)
    ensures Agreed(AfterCreate(s, d, info, head))
  {
    hide NextCycle, Agreed, Add;
    AddAgreed(s, AfterCreate(s, d, info, head), Transient(s.nextNumber), d, info);
  }

  lemma CreateRest(loads: string -> bool, s: State, d: int, info: Info, head: Occurrence)
    requires Mirrored(s) && Pending(s) && Gone(s) && Accounted(loads, s)
    requires Transient(s.nextNumber) !in s.history.cancelled
    ensures var t := AfterCreate(s, d, info, head); Mirrored(t) && Pending(t) && Gone(t) && Accounted(loads, t)
  {
    hide NextCycle;
  }

  lemma NewName(s: State)
    requires Names(s)
    ensures Transient(s.nextNumber) !in s.memory.live && Transient(s.nextNumber) !in s.history.cancelled
    ensures forall p :: p in s.memory.queue ==> p.id != Transient(s.nextNumber)
  {
    assert forall id :: id in s.memory.live ==> Issued(s, id);
    assert forall p :: p in s.memory.queue ==> Issued(s, p.id);
  }

  lemma PersistKeeps(loads: string -> bool, s: State, d: int, info: Info)
    requires Sound(loads, s) && s.calls.phase == Up
    ensures Sound(loads, AfterPersist(s, d, info))
  {
    hide Single, Names, Mirrored, Pending, Gone, Accounted;
    PersistNames(s, d, info);
    PersistStored(s, d, info);
    PersistRest(loads, s, d, info);
  }

  lemma PersistNames(s: State, d: int, info: Info)
    requires Names(s)
    ensures Names(AfterPersist(s, d, info))
    ensures var key := s.disk.nextKey;
      key !in s.disk.records && Persistent(key) !in s.memory.live && Persistent(key) !in s.history.cancelled
  {
    assert forall id :: id in s.history.cancelled ==> Issued(s, id);
    assert forall id :: id in s.memory.live ==> Issued(s, id);
  }

  lemma PersistStored(s: State, d: int, info: Info)
    requires Mirrored(s) && s.disk.nextKey !in s.disk.records
    ensures Mirrored(AfterPersist(s, d, info))
  {}

  lemma PersistRest(loads: string -> bool, s: State, d: int, info: Info)
    requires Pending(s) && Gone(s) && Accounted(loads, s) && s.calls.phase == Up
    requires s.disk.nextKey !in s.disk.records && Persistent(s.disk.nextKey) !in s.history.cancelled
    ensures var t := AfterPersist(s, d, info); Pending(t) && Gone(t) && Accounted(loads, t)
  {}

  lemma ScheduleNames(s: State, key: nat, head: Occurrence)
    requires Names(s) && key in s.calls.creating
    ensures Names(AfterSchedule(s, key, head))
    ensures Persistent(key) !in s.memory.live && forall p :: p in s.memory.queue ==> p.id != Persistent(key)
  {
    hide NextCycle;
  }

  lemma ScheduleKeeps(loads: string -> bool, s: State, key: nat, head: Occurrence)
    requires Sound(loads, s) && key in s.calls.creating
    ensures Sound(loads, AfterSchedule(s, key, head))
  {
    hide NextCycle, Names, Single, Agreed, Mirrored, Pending, Gone, Accounted;
    ScheduleNames(s, key, head);
    AddSingle(s.memory.queue, Occurrence(Persistent(key), s.calls.creating[key].deadline));
    ScheduleAgreed(s, key, head);
    ScheduleMirrored(s, key, head);
    ScheduleRest(loads, s, key, head);
  }

  lemma ScheduleAgreed(s: State, key: nat, head: Occurrence)
    requires Agreed(s) && key in s.calls.creating
    ensures Agreed(AfterSchedule(s, key, head))
  {
    hide NextCycle, Agreed, Add;
    var r := s.calls.creating[key];
    AddAgreed(s, AfterSchedule(s, key, head), Persistent(key), r.deadline, r.info);
  }

  lemma ScheduleMirrored(s: State, key: nat, head: Occurrence)
    requires Mirrored(s) && Pending(s) && key in s.calls.creating
    ensures Mirrored(AfterSchedule(s, key, head))
  {
    hide NextCycle;
    assert key in s.disk.records && s.disk.records[key] == s.calls.creating[key];
  }

  lemma ScheduleRest(loads: string -> bool, s: State, key: nat, head: Occurrence)
    requires Pending(s) && Gone(s) && Accounted(loads, s) && key in s.calls.creating
    ensures var t := AfterSchedule(s, key, head); Pending(t) && Gone(t) && Accounted(loads, t)
  {
    hide NextCycle;
    assert key in s.disk.records;
  }

  lemma ForgetNames(s: State, id: Id)
    requires Names(s) && id in s.calls.known
    ensures Names(AfterForget(s, id))
  {}

  lemma ForgetKeeps(loads: string -> bool, s: State, id: Id)
    requires Sound(loads, s) && id in s.calls.known
    ensures Sound(loads, AfterForget(s, id))
  {
    hide Names, Single;
    ForgetNames(s, id);
  }

  lemma RemoveNames(s: State, key: nat)
    requires Names(s) && key in s.calls.cancelling
    ensures Names(AfterRemove(s, key))
    ensures Persistent(key) in s.calls.known && Persistent(key) !in s.memory.live && key !in s.calls.creating
  {}

  lemma RemoveKeeps(loads: string -> bool, s: State, key: nat)
    requires Sound(loads, s) && key in s.calls.cancelling
    ensures Sound(loads, AfterRemove(s, key))
  {
    hide Names, Single;
    RemoveNames(s, key);
  }

  // ---------- preservation: the draining round ----------

  lemma RoundKnown(s: State, head: Occurrence)
    requires head in s.memory.queue
    ensures var m := DrainMemory(s.memory, s.now, head);
      && (forall id :: id in m.live ==> id in s.memory.live)
      && (forall o :: o in m.queue ==> o in s.memory.queue || o.id == head.id)
  {}

  lemma RoundStored(s: State, head: Occurrence)
    ensures var d := DrainDisk(s.disk, s.memory, s.now, head);
      d.nextKey == s.disk.nextKey && forall k :: k in d.records ==> k in s.disk.records
  {}

  lemma RoundNames(s: State, head: Occurrence)
    requires Names(s) && head in s.memory.queue
    ensures Names(AfterRound(s, head))
  {
    hide DrainMemory, DrainDisk;
    RoundKnown(s, head);
    RoundStored(s, head);
  }

  lemma RestSingle(queue: multiset<Occurrence>, head: Occurrence)
    requires Single(queue) && head in queue
    ensures var rest := queue - multiset{head};
      && Single(rest)
      && (forall o :: o in rest ==> o in queue && o.id != head.id)
      && (forall o :: o in queue && o != head ==> o in rest)
  {
    var rest := queue - multiset{head};
    assert rest[head] == 0;
  }

  lemma RoundSingle(s: State, head: Occurrence)
    requires Single(s.memory.queue) && head in s.memory.queue
    ensures Single(DrainMemory(s.memory, s.now, head).queue)
    ensures forall o :: o in s.memory.queue && o != head ==> o in DrainMemory(s.memory, s.now, head).queue
    ensures forall o :: o in DrainMemory(s.memory, s.now, head).queue ==> o in s.memory.queue || o.id == head.id
  {
    hide Single;
    var rest := s.memory.queue - multiset{head};
    RestSingle(s.memory.queue, head);
    if head.id in s.memory.live && s.memory.live[head.id].interval.Some? {
      AddSingle(rest, Occurrence(head.id, s.now + s.memory.live[head.id].interval.value));
    }
  }

  lemma RoundAgreed(s: State, head: Occurrence)
    requires Names(s) && Single(s.memory.queue) && Agreed(s) && head in s.memory.queue
    ensures Agreed(AfterRound(s, head))
  {
    hide Names, Single, Queued, DrainMemory, DrainDisk;
    RoundLive(s, head);
    RoundStale(s, head);
  }

  /** What is live after the round is queued. */
  lemma RoundLive(s: State, head: Occurrence)
    requires Single(s.memory.queue) && Agreed(s) && head in s.memory.queue
    ensures var m := DrainMemory(s.memory, s.now, head); forall id :: id in m.live ==> Queued(m.queue, id)
  {
    hide Single;
    RoundSingle(s, head);
    var m := DrainMemory(s.memory, s.now, head);
    forall id | id in m.live ensures Queued(m.queue, id) {
      if id == head.id {
        assert Occurrence(id, s.now + s.memory.live[id].interval.value) in m.queue;
      } else {
        assert Queued(s.memory.queue, id);
        var d :| Occurrence(id, d) in s.memory.queue;
        assert Occurrence(id, d) in m.queue;
      }
    }
  }

  /** What is queued after the round and not live was queued before it, and not live. */
  lemma RoundStale(s: State, head: Occurrence)
    requires Single(s.memory.queue) && head in s.memory.queue
    ensures var m := DrainMemory(s.memory, s.now, head);
      forall o :: o in m.queue && o.id !in m.live ==> o in s.memory.queue && o.id !in s.memory.live
  {
    hide Single;
    RestSingle(s.memory.queue, head);
  }

  /** The backend follows the round, alarm by alarm. */
  lemma RoundDisk(s: State, head: Occurrence, k: nat)
    requires Mirrored(s) && Persistent(k) in DrainMemory(s.memory, s.now, head).live
    ensures Persistent(k) in s.memory.live
    ensures var t := AfterRound(s, head);
            && k in t.disk.records && t.disk.records[k].info == t.memory.live[Persistent(k)]
            && t.disk.records[k].deadline ==
                 if head.id == Persistent(k) then s.now + s.memory.live[head.id].interval.GetOr(0)
                 else s.disk.records[k].deadline
  {
    assert Persistent(k) in s.memory.live;
  }

  lemma RoundQueue(s: State, head: Occurrence)
    requires head.id in s.memory.live && s.memory.live[head.id].interval.Some?
    ensures var next := Occurrence(head.id, s.now + s.memory.live[head.id].interval.value);
      next in DrainMemory(s.memory, s.now, head).queue
  {}

  lemma RoundMirrored(s: State, head: Occurrence)
    requires Single(s.memory.queue) && Mirrored(s) && head in s.memory.queue
    ensures Mirrored(AfterRound(s, head))
  {
    hide DrainMemory, DrainDisk, Single;
    RoundSingle(s, head);
    var t := AfterRound(s, head);
    forall k | Persistent(k) in t.memory.live
      ensures k in t.disk.records && t.disk.records[k].info == t.memory.live[Persistent(k)]
      ensures Occurrence(Persistent(k), t.disk.records[k].deadline) in t.memory.queue
    {
      RoundDisk(s, head, k);
      if Persistent(k) == head.id {
        RoundRepeats(s, head);
        RoundQueue(s, head);
      } else {
        assert Occurrence(Persistent(k), s.disk.records[k].deadline) in s.memory.queue;
      }
    }
  }

  lemma RoundRepeats(s: State, head: Occurrence)
    requires head.id in DrainMemory(s.memory, s.now, head).live
    ensures head.id in s.memory.live && s.memory.live[head.id].interval.Some?
  {}

  lemma RoundRest(loads: string -> bool, s: State, head: Occurrence)
    requires Sound(loads, s) && head in s.memory.queue
    ensures var t := AfterRound(s, head); Pending(t) && Gone(t) && Accounted(loads, t)
  {
    hide Single, Agreed;
    var t := AfterRound(s, head);
    assert head.id in s.memory.live && head.id.Persistent? ==>
      head.id.key in s.disk.records && head.id in s.calls.known;
  }

  lemma RoundKeeps(loads: string -> bool, s: State, head: Occurrence)
    requires Sound(loads, s) && head in s.memory.queue
    ensures Sound(loads, AfterRound(s, head))
  {
    hide Names, Single, Agreed, Mirrored, Pending, Gone, Accounted, DrainMemory;
    RoundNames(s, head);
    RoundSingle(s, head);
    RoundAgreed(s, head);
    RoundMirrored(s, head);
    RoundRest(loads, s, head);
  }

  // ---------- preservation: starting and crashing ----------

  lemma LoadNames(loads: string -> bool, s: State, key: nat)
    requires Names(s) && Pending(s) && s.calls.phase.Starting? && key in s.calls.phase.rest
    ensures Names(AfterLoad(loads, s, key))
    ensures Persistent(key) !in s.memory.live && forall p :: p in s.memory.queue ==> p.id != Persistent(key)
  {}

  lemma SkipKeeps(loads: string -> bool, s: State, key: nat)
    requires Sound(loads, s) && s.calls.phase.Starting? && key in s.calls.phase.rest
    requires !loads(s.calls.phase.rest[key].info.callback)
    ensures Sound(loads, AfterLoad(loads, s, key))
  {
    hide Single;
  }

  lemma LoadMemory(loads: string -> bool, s: State, key: nat)
    requires Names(s) && Single(s.memory.queue) && Agreed(s) && Mirrored(s) && Pending(s)
    requires s.calls.phase.Starting? && key in s.calls.phase.rest && loads(s.calls.phase.rest[key].info.callback)
    ensures var t := AfterLoad(loads, s, key); Single(t.memory.queue) && Agreed(t) && Mirrored(t)
  {
    hide Names, Single, Agreed, Mirrored, Pending;
    LoadNames(loads, s, key);
    AddSingle(s.memory.queue, Occurrence(Persistent(key), s.calls.phase.rest[key].deadline));
    LoadAgreed(loads, s, key);
    LoadMirrored(loads, s, key);
  }

  lemma LoadAgreed(loads: string -> bool, s: State, key: nat)
    requires Agreed(s) && s.calls.phase.Starting? && key in s.calls.phase.rest
    requires loads(s.calls.phase.rest[key].info.callback)
    ensures Agreed(AfterLoad(loads, s, key))
  {
    hide Agreed, Add;
    var r := s.calls.phase.rest[key];
    AddAgreed(s, AfterLoad(loads, s, key), Persistent(key), r.deadline, r.info);
  }

  lemma LoadMirrored(loads: string -> bool, s: State, key: nat)
    requires Mirrored(s) && Pending(s) && s.calls.phase.Starting? && key in s.calls.phase.rest
    requires loads(s.calls.phase.rest[key].info.callback)
    ensures Mirrored(AfterLoad(loads, s, key))
  {
    assert key in s.disk.records && s.disk.records[key] == s.calls.phase.rest[key];
  }

  lemma LoadRest(loads: string -> bool, s: State, key: nat)
    requires Names(s) && Pending(s) && Gone(s) && Accounted(loads, s)
    requires s.calls.phase.Starting? && key in s.calls.phase.rest && loads(s.calls.phase.rest[key].info.callback)
    ensures var t := AfterLoad(loads, s, key); Pending(t) && Gone(t) && Accounted(loads, t)
  {
    hide Names;
    assert key in s.disk.records && Persistent(key) !in s.history.cancelled;
    assert loads(s.disk.records[key].info.callback);
  }

  lemma LoadKeeps(loads: string -> bool, s: State, key: nat)
    requires Sound(loads, s) && s.calls.phase.Starting? && key in s.calls.phase.rest
    ensures Sound(loads, AfterLoad(loads, s, key))
  {
    hide Names, Single, Agreed, Mirrored, Pending, Gone, Accounted, AfterLoad;
    if loads(s.calls.phase.rest[key].info.callback) {
      LoadNames(loads, s, key);
      LoadMemory(loads, s, key);
      LoadRest(loads, s, key);
    } else {
      SkipKeeps(loads, s, key);
    }
  }

  lemma CrashKeeps(loads: string -> bool, s: State)
    requires Sound(loads, s)
    ensures Sound(loads, AfterCrash(s))
  {}

  /** Clock, timers and runs play no part. */
  predicate SameAgenda(s: State, t: State) {
    && s.memory == t.memory && s.calls == t.calls && s.disk == t.disk && s.nextNumber == t.nextNumber
    && s.history.cancelled == t.history.cancelled
  }

  lemma SameKeeps(loads: string -> bool, s: State, t: State)
    requires Sound(loads, s) && SameAgenda(s, t)
    ensures Sound(loads, t)
  {}

  lemma CrashInRoundKeeps(loads: string -> bool, s: State, head: Occurrence)
    requires Sound(loads, s)
    ensures Sound(loads, AfterCrashInRound(s, head))
  {
    hide Sound;
    CrashKeeps(loads, s);
    SameKeeps(loads, AfterCrash(s), AfterCrashInRound(s, head));
  }

  lemma ReadsKeeps(loads: string -> bool, s: State)
    requires Sound(loads, s) && s.calls.phase == Down
    ensures Sound(loads, s.(calls := s.calls.(phase := Starting(s.disk.records))))
  {
    hide Single;
  }

  lemma EndsKeeps(loads: string -> bool, s: State, t: State)
    requires Sound(loads, s) && s.calls.phase == Starting(map[])
    requires SameAgenda(s.(calls := s.calls.(phase := Up)), t)
    ensures Sound(loads, t)
  {
    hide Single;
    SameKeeps(loads, s, s);
  }

  lemma StepKeeps(loads: string -> bool, s: State, step: Step)
    requires Sound(loads, s) && Enabled(loads, s, step)
    ensures Sound(loads, Do(loads, s, step))
  {
    hide Sound, AfterCreate, AfterPersist, AfterSchedule, AfterForget, AfterRemove, AfterRound, AfterLoad,
      AfterCrash, AfterCrashInRound, NextCycle;
    match step {
      case CreateTransient(d, info, head) => CreateKeeps(loads, s, d, info, head);
      case Persist(d, info) => PersistKeeps(loads, s, d, info);
      case Schedule(key, head) => ScheduleKeeps(loads, s, key, head);
      case Forget(id) => ForgetKeeps(loads, s, id);
      case Remove(key) => RemoveKeeps(loads, s, key);
      case RunRound(head) => RoundKeeps(loads, s, head);
      case StartLoads(key) => LoadKeeps(loads, s, key);
      case Crash => CrashKeeps(loads, s);
      case CrashInRound(head) => CrashInRoundKeeps(loads, s, head);
      case StartReads =>
        ReadsKeeps(loads, s);
        SameKeeps(loads, s.(calls := s.calls.(phase := Starting(s.disk.records))), Do(loads, s, step));
      case StartEnds(_) => EndsKeeps(loads, s, Do(loads, s, step));
      case _ => SameKeeps(loads, s, Do(loads, s, step));
    }
  }

  // ---------- whole runs ----------

  lemma InitSound(loads: string -> bool, s: State)
    requires Init(s)
    ensures Sound(loads, s)
  {}

  /** Queue, map and backend agree in every reachable state. */
  lemma {:induction false} RunSound(loads: string -> bool, ss: seq<State>, steps: seq<Step>, i: nat)
    requires IsRun(loads, ss, steps) && i < |ss|
    ensures Sound(loads, ss[i])
  {
    hide Sound, Do, Enabled, Init;
    if i == 0 {
      InitSound(loads, ss[0]);
    } else {
      RunSound(loads, ss, steps, i - 1);
      StepKeeps(loads, ss[i - 1], steps[i - 1]);
    }
  }

  /** In every reachable state each live alarm has exactly one queued occurrence, with the deadline
      that the backend holds if it is persistent; every other queued occurrence belongs to an alarm
      that has been cancelled. */
  lemma QueueAgrees(loads: string -> bool, ss: seq<State>, steps: seq<Step>, i: nat)
    requires IsRun(loads, ss, steps) && i < |ss|
    ensures var s := ss[i];
            && (forall id :: id in s.memory.live ==>
                  exists d :: Occurrence(id, d) in s.memory.queue && s.memory.queue[Occurrence(id, d)] == 1 &&
                    forall o :: o in s.memory.queue && o.id == id ==> o.deadline == d)
            && (forall k, o :: Persistent(k) in s.memory.live && o in s.memory.queue && o.id == Persistent(k) ==>
                  k in s.disk.records && s.disk.records[k] == Record(o.deadline, s.memory.live[o.id]))
            && (forall o :: o in s.memory.queue && o.id !in s.memory.live ==>
                  o.id in s.history.cancelled || (o.id.Persistent? && o.id.key in s.calls.cancelling))
  {
    RunSound(loads, ss, steps, i);
    var s := ss[i];
    forall id | id in s.memory.live
      ensures exists d :: Occurrence(id, d) in s.memory.queue && s.memory.queue[Occurrence(id, d)] == 1 &&
                forall o :: o in s.memory.queue && o.id == id ==> o.deadline == d
    {
      assert Queued(s.memory.queue, id);
      var d :| Occurrence(id, d) in s.memory.queue;
      assert s.memory.queue[Occurrence(id, d)] == 1;
    }
  }

  // ---------- cancelling is final ----------

  /** A step fires no alarm whose cancellation has returned, and takes no cancellation back. */
  lemma StepSparesCancelled(loads: string -> bool, s: State, step: Step)
    requires Sound(loads, s) && Enabled(loads, s, step)
    ensures var t := Do(loads, s, step);
            && s.history.cancelled <= t.history.cancelled
            && s.history.fired <= t.history.fired
            && forall i :: |s.history.fired| <= i < |t.history.fired| ==> t.history.fired[i].id !in s.history.cancelled
  {
    hide Names, Single, Agreed, Mirrored, Pending, Accounted, NextCycle;
  }

  /** Once a cancellation has returned no later run hands the alarm to the executor, whatever
      runs, calls, crashes and restarts come in between. */
  lemma {:induction false} CancelIsFinal(
    loads: string -> bool, ss: seq<State>, steps: seq<Step>, i: nat, j: nat, id: Id)
    requires IsRun(loads, ss, steps) && i <= j < |ss| && id in ss[i].history.cancelled
    ensures id in ss[j].history.cancelled
    ensures ss[i].history.fired <= ss[j].history.fired
    ensures forall n :: |ss[i].history.fired| <= n < |ss[j].history.fired| ==> ss[j].history.fired[n].id != id
    decreases j
  {
    hide Sound, Do, Enabled, Init;
    if i < j {
      CancelIsFinal(loads, ss, steps, i, j - 1, id);
      RunSound(loads, ss, steps, j - 1);
      StepSparesCancelled(loads, ss[j - 1], steps[j - 1]);
    }
  }
}
