/** The classes of the alarm service: the backend that keeps alarms in memory, the clock and the
    timers that the manager is given, and the manager with the code of its calls. */
module AlarmService {
  import opened Wrappers
  import opened AlarmModel
  import opened AlarmAgenda
  import opened AlarmManager

  class FakeAlarmBackend {
    var descriptions: map<nat, Record>
    var nextId: nat

    ghost function Value(): Disk
      reads this
    {
      Disk(descriptions, nextId)
    }

    constructor ()
      ensures Value() == Disk(map[], 0)
    {
      descriptions, nextId := map[], 0;
    }

    /** The stored alarms, each once, in some order. */
    method ReadAllAlarms() returns (all: seq<(nat, Record)>)
      ensures forall i, j :: 0 <= i < j < |all| ==> all[i].0 != all[j].0
      ensures forall k, r :: (k, r) in all <==> k in descriptions && descriptions[k] == r
    {
      all := [];
      var rest := descriptions.Keys;
      while rest != {}
        invariant rest <= descriptions.Keys
        invariant forall i, j :: 0 <= i < j < |all| ==> all[i].0 != all[j].0
        invariant forall k, r :: (k, r) in all <==> k in descriptions && k !in rest && descriptions[k] == r
        decreases rest
      {
        var k :| k in rest;
        assert forall i :: 0 <= i < |all| ==> (all[i].0, all[i].1) in all;
        all := all + [(k, descriptions[k])];
        rest := rest - {k};
      }
    }

    method PersistNewAlarm(deadline: int, info: Info) returns (key: nat)
      modifies this
      ensures key == old(nextId)
      ensures Value() == Disk(old(descriptions)[key := Record(deadline, info)], key + 1)
    {
      key := nextId;
      nextId := nextId + 1;
      descriptions := descriptions[key := Record(deadline, info)];
    }

    method RemoveAlarm(key: nat)
      modifies this
      ensures Value() == RemoveRecord(old(Value()), key)
    {
      descriptions := descriptions - {key};
    }

    method UpdateAlarm(key: nat, deadline: int)
      modifies this
      ensures Value() == UpdateRecord(old(Value()), key, deadline)
    {
      if key in descriptions {
        var was := descriptions[key];
        descriptions := descriptions - {key};
        descriptions := descriptions[key := Record(deadline, was.info)];
        assert descriptions == old(descriptions)[key := Record(deadline, was.info)];
      }
    }
  }

  /** A clock whose readings are given in advance and do not go back. */
  class Clock {
    const readings: nat -> int
    var taken: nat

    ghost predicate Valid() { forall i, j :: 0 <= i <= j ==> readings(i) <= readings(j) }

    constructor (readings: nat -> int)
      ensures this.readings == readings && taken == 0
    {
      this.readings, taken := readings, 0;
    }

    method Now() returns (t: int)
      modifies this
      ensures t == readings(old(taken)) && taken == old(taken) + 1
    {
      t := readings(taken);
      taken := taken + 1;
    }
  }

  /** The executor of delayed calls: the pending ones, with their due times. */
  class Timers {
    var pending: map<nat, int>
    var next: nat

    constructor ()
      ensures pending == map[] && next == 0
    {
      pending, next := map[], 0;
    }

    method Schedule(due: int) returns (timer: nat)
      modifies this
      ensures timer == old(next) && next == timer + 1 && pending == old(pending)[timer := due]
    {
      timer := next;
      next := next + 1;
      pending := pending[timer := due];
    }

    method Cancel(timer: nat)
      modifies this
      ensures next == old(next) && pending == old(pending) - {timer}
    {
      pending := pending - {timer};
    }
  }

  class DefaultAlarmManager {
    const clock: Clock
    const backend: FakeAlarmBackend
    const timers: Timers
    var occurrences: seq<Occurrence>
    var descriptions: map<Id, Info>
    var nextFuture: Option<nat>
    var executed: seq<Occurrence>
    var nextNumber: nat

    constructor (clock: Clock, backend: FakeAlarmBackend, timers: Timers)
      ensures this.clock == clock && this.backend == backend && this.timers == timers
      ensures occurrences == [] && descriptions == map[] && nextFuture == None && executed == [] && nextNumber == 0
    {
      this.clock, this.backend, this.timers := clock, backend, timers;
      occurrences, descriptions, nextFuture, executed, nextNumber := [], map[], None, [], 0;
    }

    ghost predicate Valid() reads this { clock.Valid() && Orderly(occurrences) }

    ghost function State(): World
      reads this, backend, clock
    {
      World(occurrences, descriptions, backend.Value(), executed, clock.taken)
    }

    ghost function WakeState(): Wake
      reads this, timers
    {
      Wake(timers.pending, nextFuture, timers.next)
    }

    /** The occurrence that the queue yields first. */
    function Peek(): Option<Occurrence>
      reads this
    {
      if occurrences == [] then None else Some(occurrences[0])
    }

    // ---------- scheduling ----------

    /** Drops the timer referred to and sets one for the head of the queue. */
    method ScheduleNextAlarmCycle()
      modifies this`nextFuture, timers, clock
      ensures WakeState() == NextCycle(old(WakeState()), clock.readings(old(clock.taken)), Peek())
      ensures clock.taken == old(clock.taken) + (if occurrences == [] then 0 else 1)
      ensures forall t :: t in old(timers.pending) && old(nextFuture) != Some(t) && t != old(timers.next) ==>
        t in timers.pending && timers.pending[t] == old(timers.pending)[t]
      ensures forall t :: t in timers.pending ==>
        (t in old(timers.pending) && old(nextFuture) != Some(t)) || (nextFuture == Some(t) && t == old(timers.next))
      ensures nextFuture.Some? <==> occurrences != []
      ensures nextFuture.Some? ==>
        var now, due := clock.readings(old(clock.taken)), timers.pending[old(timers.next)];
        && nextFuture == Some(old(timers.next)) && nextFuture.value in timers.pending
        && due >= now + 100 && due >= occurrences[0].deadline
        && (due == now + 100 || due == occurrences[0].deadline)
    {
      if nextFuture.Some? {
        timers.Cancel(nextFuture.value);
        nextFuture := None;
      }
      if occurrences != [] {
        var now := clock.Now();
        var interval := Later(MINIMUM_SLEEP, occurrences[0].deadline - now);
        var timer := timers.Schedule(now + interval);
        nextFuture := Some(timer);
      }
    }

    /** Queues a new alarm and makes it live. */
    method ScheduleNewAlarm(id: Id, deadline: int, info: Info)
      requires Valid() && forall i :: 0 <= i < |occurrences| ==> occurrences[i].id != id
      modifies this`occurrences, this`descriptions, this`nextFuture, timers, clock
      ensures Valid()
      ensures Memory(multiset(occurrences), descriptions) ==
              Add(old(Memory(multiset(occurrences), descriptions)), id, deadline, info)
      ensures WakeState() == NextCycle(old(WakeState()), clock.readings(old(clock.taken)), Peek())
    {
      InsertKeeps(occurrences, Occurrence(id, deadline));
      occurrences := Insert(occurrences, Occurrence(id, deadline));
      descriptions := descriptions[id := info];
      ScheduleNextAlarmCycle();
    }

    method CreateTransientAlarm(deadline: int, info: Info) returns (id: Id)
      requires Valid() && forall i :: 0 <= i < |occurrences| ==> occurrences[i].id != Transient(nextNumber)
      modifies this, timers, clock
      ensures Valid() && id == Transient(old(nextNumber)) && nextNumber == old(nextNumber) + 1
      ensures executed == old(executed)
      ensures Memory(multiset(occurrences), descriptions) ==
              Add(old(Memory(multiset(occurrences), descriptions)), id, deadline, info)
      ensures WakeState() == NextCycle(old(WakeState()), clock.readings(old(clock.taken)), Peek())
    {
      id := Transient(nextNumber);
      nextNumber := nextNumber + 1;
      ScheduleNewAlarm(id, deadline, info);
    }

    method CreatePersistentAlarm(deadline: int, info: Info) returns (id: Id)
      requires Valid() && forall i :: 0 <= i < |occurrences| ==> occurrences[i].id != Persistent(backend.nextId)
      modifies this, backend, timers, clock
      ensures Valid() && id == Persistent(old(backend.nextId)) && executed == old(executed)
      ensures backend.Value() ==
              Disk(old(backend.descriptions)[id.key := Record(deadline, info)], old(backend.nextId) + 1)
      ensures Memory(multiset(occurrences), descriptions) ==
              Add(old(Memory(multiset(occurrences), descriptions)), id, deadline, info)
      ensures WakeState() == NextCycle(old(WakeState()), clock.readings(old(clock.taken)), Peek())
    {
      var key := backend.PersistNewAlarm(deadline, info);
      id := Persistent(key);
      ScheduleNewAlarm(id, deadline, info);
    }

    // ---------- cancelling ----------

    /** Forgets the alarm; its occurrence stays in the queue until it is due. */
    method CancelAlarm(id: Id)
      modifies this`descriptions
      ensures descriptions == old(descriptions) - {id}
    {
      descriptions := descriptions - {id};
    }

    /** The handle's cancel. */
    method Cancel(id: Id)
      modifies this`descriptions, backend
      ensures descriptions == old(descriptions) - {id}
      ensures backend.Value() ==
              if id.Persistent? then RemoveRecord(old(backend.Value()), id.key) else old(backend.Value())
    {
      CancelAlarm(id);
      if id.Persistent? { backend.RemoveAlarm(id.key); }
    }

    // ---------- running ----------

    /** Hands an occurrence to the executor; gives the next deadline when the alarm repeats. */
    method FireAlarm(o: Occurrence, info: Info) returns (next: Option<int>)
      modifies this`executed, clock, backend
      ensures executed == old(executed) + [o] && backend.Value() == FiredDisk(old(backend.Value()), o.id, next)
      ensures info.interval.Some? ==>
                && next == Some(clock.readings(old(clock.taken)) + info.interval.value)
                && clock.taken == old(clock.taken) + 1
      ensures info.interval.None? ==> next == None && clock.taken == old(clock.taken)
    {
      executed := executed + [o];
      next := None;
      if info.interval.Some? {
        var now := clock.Now();
        next := Some(now + info.interval.value);
        if o.id.Persistent? { backend.UpdateAlarm(o.id.key, next.value); }
      } else if o.id.Persistent? {
        backend.RemoveAlarm(o.id.key);
      }
    }

    /** One round of the draining loop: the head leaves the queue, and its alarm fires if it is live. */
    method DrainHead()
      requires occurrences != []
      modifies this`occurrences, this`descriptions, this`executed, clock, backend
      ensures State() == Round(old(State()), clock.readings)
    {
      hide Insert, FiredDisk;
      ghost var was := State();
      var o := occurrences[0];
      occurrences := occurrences[1..];
      if o.id in descriptions {
        var info := descriptions[o.id];
        descriptions := descriptions - {o.id};
        var next := FireAlarm(o, info);
        if next.Some? {
          occurrences := Insert(occurrences, Occurrence(o.id, next.value));
          descriptions := descriptions[o.id := info];
          assert descriptions == was.live;
        }
      }
      assert descriptions == Round(was, clock.readings).live;
    }

    /** The part of a run inside the locks: it ends, fires each live due alarm once, in the order of
        the deadlines, and leaves nothing due. */
    method DrainQueue() returns (now: int)
      requires Valid()
      modifies this`occurrences, this`descriptions, this`executed, this`nextFuture, clock, backend
      ensures Valid() && nextFuture == None && now == clock.readings(old(clock.taken))
      ensures Monotone(clock.readings, old(clock.taken) + 1, now)
      ensures State() == Drain(old(State()).(taken := old(clock.taken) + 1), clock.readings, now)
      ensures executed == old(executed) + LiveDue(old(occurrences), old(descriptions), now)
      ensures forall i :: 0 <= i < |occurrences| ==> now <= occurrences[i].deadline
    {
      nextFuture := None;
      now := clock.Now();
      ghost var start := State();
      assert start == old(State()).(taken := old(clock.taken) + 1);
      DrainExact(start, clock.readings, now);
      ghost var goal := Drain(start, clock.readings, now);
      while occurrences != [] && occurrences[0].deadline < now
        invariant Monotone(clock.readings, clock.taken, now)
        invariant nextFuture == None
        invariant Drain(State(), clock.readings, now) == goal
        decreases DueCount(occurrences, now)
      {
        RoundFalls(State(), clock.readings, now);
        DrainHead();
      }
      assert State() == goal;
    }

    /** The timer's call: drain, then set the next timer. */
    method Run()
      requires Valid()
      modifies this, timers, clock, backend
      ensures Valid() && Monotone(clock.readings, old(clock.taken) + 1, clock.readings(old(clock.taken)))
      ensures var now := clock.readings(old(clock.taken));
              && executed == old(executed) + LiveDue(old(occurrences), old(descriptions), now)
              && (forall i :: 0 <= i < |occurrences| ==> now <= occurrences[i].deadline)
      ensures var now := clock.readings(old(clock.taken));
              var w := Drain(old(State()).(taken := old(clock.taken) + 1), clock.readings, now);
              && occurrences == w.queue && descriptions == w.live && backend.Value() == w.disk
              && WakeState() == NextCycle(old(WakeState()).(current := None), clock.readings(w.taken), Peek())
      ensures nextFuture.Some? <==> occurrences != []
      ensures nextFuture.Some? ==> nextFuture.value in timers.pending && old(timers.pending.Keys) <= timers.pending.Keys
    {
      var now := DrainQueue();
      ScheduleNextAlarmCycle();
    }

    // ---------- starting ----------

    /** Loads every stored alarm whose callback class loads, beside the transient ones that there may be, and
        sets the next timer. */
    method DoStart(loads: string -> bool)
      requires Valid() && NonePersistent(Memory(multiset(occurrences), descriptions))
      modifies this`occurrences, this`descriptions, this`nextFuture, timers, clock
      ensures Valid()
      ensures Loaded(old(Memory(multiset(occurrences), descriptions)), Memory(multiset(occurrences), descriptions),
                     backend.descriptions, loads, backend.descriptions.Keys)
      ensures WakeState() == NextCycle(old(WakeState()), clock.readings(old(clock.taken)), Peek())
    {
      hide Loaded, Orderly;
      ghost var before := Memory(multiset(occurrences), descriptions);
      var all := backend.ReadAllAlarms();
      ghost var done := {};
      NoneLoaded(before, backend.descriptions, loads);
      for i := 0 to |all|
        invariant Orderly(occurrences) && WakeState() == old(WakeState()) && clock.taken == old(clock.taken)
        invariant Loaded(before, Memory(multiset(occurrences), descriptions), backend.descriptions, loads, done)
        invariant forall k :: k in done <==> exists j :: 0 <= j < i && all[j].0 == k
      {
        var (key, r) := all[i];
        assert (key, r) in all && key !in done;
        LoadedMore(before, Memory(multiset(occurrences), descriptions), backend.descriptions, loads, done, key);
        if loads(r.info.callback) {
          LoadedFresh(before, occurrences, descriptions, backend.descriptions, loads, done, key);
          InsertKeeps(occurrences, Occurrence(Persistent(key), r.deadline));
          occurrences := Insert(occurrences, Occurrence(Persistent(key), r.deadline));
          descriptions := descriptions[Persistent(key) := r.info];
        }
        done := done + {key};
      }
      AllDone(all, backend.descriptions, done);
      ScheduleNextAlarmCycle();
    }
  }

  /** Nothing in memory belongs to a stored alarm. */
  ghost predicate NonePersistent(m: Memory) {
    (forall o :: o in m.queue ==> o.id.Transient?) && forall id :: id in m.live ==> id.Transient?
  }

  /** The alarm is among the stored ones dealt with, and its class loads. */
  predicate Comes(id: Id, records: map<nat, Record>, loads: string -> bool, done: set<nat>) {
    id.Persistent? && id.key in done && id.key in records && loads(records[id.key].info.callback)
  }

  /** Memory holds what it held before, and exactly the stored alarms among `done` whose class loads, as they
      are stored. */
  ghost predicate Loaded(
    before: Memory, m: Memory, records: map<nat, Record>, loads: string -> bool, done: set<nat>)
  {
    && NonePersistent(before)
    && (forall id :: id in m.live <==> id in before.live || Comes(id, records, loads, done))
    && (forall id :: id in before.live ==> id in m.live && m.live[id] == before.live[id])
    && (forall id :: Comes(id, records, loads, done) ==> id in m.live && m.live[id] == records[id.key].info)
    && (forall o :: o in m.queue <==>
          o in before.queue || (Comes(o.id, records, loads, done) && o.deadline == records[o.id.key].deadline))
  }

  lemma AllDone(all: seq<(nat, Record)>, records: map<nat, Record>, done: set<nat>)
    requires forall k, r :: (k, r) in all <==> k in records && records[k] == r
    requires forall k :: k in done <==> exists j :: 0 <= j < |all| && all[j].0 == k
    ensures done == records.Keys
  {
    forall k | k in records ensures k in done {
      assert (k, records[k]) in all;
    }
    forall k | k in done ensures k in records {
      var j :| 0 <= j < |all| && all[j].0 == k;
      assert (k, all[j].1) in all;
    }
  }

  lemma NoneLoaded(before: Memory, records: map<nat, Record>, loads: string -> bool)
    requires NonePersistent(before)
    ensures Loaded(before, before, records, loads, {})
  {}

  lemma LoadedFresh(before: Memory, queue: seq<Occurrence>, live: map<Id, Info>, records: map<nat, Record>,
                    loads: string -> bool, done: set<nat>, key: nat)
    requires Loaded(before, Memory(multiset(queue), live), records, loads, done) && key !in done
    ensures forall i :: 0 <= i < |queue| ==> queue[i].id != Persistent(key)
  {
    assert forall i :: 0 <= i < |queue| ==> queue[i] in multiset(queue);
  }

  lemma LoadedMore(
    before: Memory, m: Memory, records: map<nat, Record>, loads: string -> bool, done: set<nat>, key: nat)
    requires Loaded(before, m, records, loads, done) && key !in done && key in records
    ensures var r := records[key];
      Loaded(before, if loads(r.info.callback) then Add(m, Persistent(key), r.deadline, r.info) else m,
             records, loads, done + {key})
  {}
}
