/** The alarm manager and its backend as classes: the sequential code of each call, proved against
    functions on their state, and what a whole run does. */
module AlarmManager {
  import opened Wrappers
  import opened AlarmModel
  import opened AlarmAgenda

  // ---------- the queue ----------

  ghost predicate Sorted(queue: seq<Occurrence>) {
    forall i, j :: 0 <= i < j < |queue| ==> queue[i].deadline <= queue[j].deadline
  }

  /** The queue with o in order; among equal deadlines the queue is first in, first out. */
  function Insert(queue: seq<Occurrence>, o: Occurrence): (r: seq<Occurrence>)
    ensures multiset(r) == multiset(queue) + multiset{o}
  {
    if queue == [] then [o]
    else if queue[|queue| - 1].deadline <= o.deadline then queue + [o]
    else
      var n := |queue| - 1;
      assert queue == queue[..n] + [queue[n]];
      Insert(queue[..n], o) + [queue[n]]
  }

  lemma {:induction false} InsertBound(queue: seq<Occurrence>, o: Occurrence, d: int)
    requires o.deadline <= d && forall i :: 0 <= i < |queue| ==> queue[i].deadline <= d
    ensures forall i :: 0 <= i < |Insert(queue, o)| ==> Insert(queue, o)[i].deadline <= d
    decreases |queue|
  {
    if queue != [] && queue[|queue| - 1].deadline > o.deadline {
      InsertBound(queue[..|queue| - 1], o, d);
    }
  }

  lemma InsertCases(queue: seq<Occurrence>, o: Occurrence)
    ensures queue == [] ==> Insert(queue, o) == [o]
    ensures queue != [] && queue[|queue| - 1].deadline <= o.deadline ==> Insert(queue, o) == queue + [o]
    ensures queue != [] && queue[|queue| - 1].deadline > o.deadline ==>
              Insert(queue, o) == Insert(queue[..|queue| - 1], o) + [queue[|queue| - 1]]
  {}

  lemma SortedAppend(queue: seq<Occurrence>, o: Occurrence)
    requires Sorted(queue) && forall i :: 0 <= i < |queue| ==> queue[i].deadline <= o.deadline
    ensures Sorted(queue + [o])
  {}

  lemma {:induction false} InsertSorted(queue: seq<Occurrence>, o: Occurrence)
    requires Sorted(queue)
    ensures Sorted(Insert(queue, o))
    decreases |queue|
  {
    hide Insert;
    InsertCases(queue, o);
    if queue != [] {
      var n := |queue| - 1;
      if queue[n].deadline <= o.deadline {
        SortedAppend(queue, o);
      } else {
        InsertSorted(queue[..n], o);
        InsertBound(queue[..n], o, queue[n].deadline);
        SortedAppend(Insert(queue[..n], o), queue[n]);
      }
    }
  }

  // ---------- a run as a function ----------

  /** What a run works on; `taken` counts the readings taken from the clock. */
  datatype World = World(
    queue: seq<Occurrence>, live: map<Id, Info>, disk: Disk, fired: seq<Occurrence>, taken: nat)

  function UpdateRecord(disk: Disk, key: nat, deadline: int): Disk {
    if key in disk.records then
      disk.(records := disk.records[key := disk.records[key].(deadline := deadline)])
    else disk
  }

  function RemoveRecord(disk: Disk, key: nat): Disk { disk.(records := disk.records - {key}) }

  /** One round of the loop, on a queue that is not empty. */
  function Round(w: World, clock: nat -> int): World
    requires w.queue != []
  {
    var o := w.queue[0];
    var rest := w.queue[1..];
    if o.id !in w.live then w.(queue := rest)
    else
      var info := w.live[o.id];
      var fired := w.fired + [o];
      if info.interval.Some? then
        var next := clock(w.taken) + info.interval.value;
        World(Insert(rest, Occurrence(o.id, next)), w.live, FiredDisk(w.disk, o.id, Some(next)), fired, w.taken + 1)
      else
        World(rest, w.live - {o.id}, FiredDisk(w.disk, o.id, None), fired, w.taken)
  }

  /** What firing does to the store: a repeating alarm gets its next deadline, another one goes. */
  function FiredDisk(disk: Disk, id: Id, next: Option<int>): Disk {
    match (id, next)
    case (Transient(_), _) => disk
    case (Persistent(key), Some(deadline)) => UpdateRecord(disk, key, deadline)
    case (Persistent(key), None) => RemoveRecord(disk, key)
  }

  /** The occurrences with a deadline before now, counted. */
  function DueCount(queue: seq<Occurrence>, now: int): nat {
    if queue == [] then 0
    else DueCount(queue[..|queue| - 1], now) + (if queue[|queue| - 1].deadline < now then 1 else 0)
  }

  /** The clock does not go back: every reading still to come is at least now. */
  ghost predicate Monotone(clock: nat -> int, taken: nat, now: int) {
    forall i :: taken <= i ==> now <= clock(i)
  }

  lemma {:induction false} InsertNotDue(queue: seq<Occurrence>, o: Occurrence, now: int)
    requires now <= o.deadline
    ensures DueCount(Insert(queue, o), now) == DueCount(queue, now)
    decreases |queue|
  {
    if queue == [] {
    } else if queue[|queue| - 1].deadline <= o.deadline {
      assert (queue + [o])[..|queue|] == queue;
    } else {
      var n := |queue| - 1;
      InsertNotDue(queue[..n], o, now);
      var r := Insert(queue[..n], o);
      assert (r + [queue[n]])[..|r|] == r;
    }
  }

  lemma {:induction false} DueTail(queue: seq<Occurrence>, now: int)
    requires queue != []
    ensures DueCount(queue, now) == DueCount(queue[1..], now) + (if queue[0].deadline < now then 1 else 0)
    decreases |queue|
  {
    var n := |queue| - 1;
    if n > 0 {
      DueTail(queue[..n], now);
      assert queue[..n][1..] == queue[1..][..n - 1];
    }
  }

  /** The number of due occurrences falls in every round, since an alarm that repeats comes back
      with a deadline that is not before now. */
  lemma RoundFalls(w: World, clock: nat -> int, now: int)
    requires w.queue != [] && w.queue[0].deadline < now && Monotone(clock, w.taken, now)
    ensures DueCount(Round(w, clock).queue, now) == DueCount(w.queue, now) - 1
    ensures Monotone(clock, Round(w, clock).taken, now)
  {
    hide DueCount, Insert;
    DueTail(w.queue, now);
    var o := w.queue[0];
    if o.id in w.live && w.live[o.id].interval.Some? {
      InsertNotDue(w.queue[1..], Occurrence(o.id, clock(w.taken) + w.live[o.id].interval.value), now);
    }
  }

  /** The draining loop. */
  ghost function Drain(w: World, clock: nat -> int, now: int): World
    requires Monotone(clock, w.taken, now)
    decreases DueCount(w.queue, now)
  {
    if w.queue != [] && w.queue[0].deadline < now then
      RoundFalls(w, clock, now);
      Drain(Round(w, clock), clock, now)
    else w
  }

  // ---------- what a run does ----------

  /** The due occurrences of live alarms, in queue order. */
  function LiveDue(queue: seq<Occurrence>, live: map<Id, Info>, now: int): seq<Occurrence> {
    if queue == [] then []
    else
      var n := |queue| - 1;
      LiveDue(queue[..n], live, now) +
      (if queue[n].deadline < now && queue[n].id in live then [queue[n]] else [])
  }

  lemma {:induction false} LiveDueTail(queue: seq<Occurrence>, live: map<Id, Info>, now: int)
    requires queue != []
    ensures LiveDue(queue, live, now) ==
            (if queue[0].deadline < now && queue[0].id in live then [queue[0]] else []) + LiveDue(queue[1..], live, now)
    decreases |queue|
  {
    var n := |queue| - 1;
    if n > 0 {
      LiveDueTail(queue[..n], live, now);
      assert queue[..n][1..] == queue[1..][..n - 1];
    }
  }

  lemma {:induction false} LiveDueInsert(queue: seq<Occurrence>, o: Occurrence, live: map<Id, Info>, now: int)
    requires now <= o.deadline
    ensures LiveDue(Insert(queue, o), live, now) == LiveDue(queue, live, now)
    decreases |queue|
  {
    if queue == [] {
    } else if queue[|queue| - 1].deadline <= o.deadline {
      assert (queue + [o])[..|queue|] == queue;
    } else {
      var n := |queue| - 1;
      LiveDueInsert(queue[..n], o, live, now);
      var r := Insert(queue[..n], o);
      assert (r + [queue[n]])[..|r|] == r;
    }
  }

  lemma {:induction false} LiveDueWithout(queue: seq<Occurrence>, live: map<Id, Info>, now: int, id: Id)
    requires forall i :: 0 <= i < |queue| ==> queue[i].id != id
    ensures LiveDue(queue, live - {id}, now) == LiveDue(queue, live, now)
    decreases |queue|
  {
    if queue != [] { LiveDueWithout(queue[..|queue| - 1], live, now, id); }
  }

  lemma {:induction false} LiveDueIn(queue: seq<Occurrence>, live: map<Id, Info>, now: int)
    ensures forall o :: o in LiveDue(queue, live, now) <==> o in queue && o.deadline < now && o.id in live
    decreases |queue|
  {
    if queue != [] {
      var n := |queue| - 1;
      LiveDueIn(queue[..n], live, now);
      assert forall o :: o in queue <==> o in queue[..n] || o == queue[n];
    }
  }

  lemma SingleSplit(rest: multiset<Occurrence>, o: Occurrence)
    requires Single(rest + multiset{o})
    ensures Single(rest) && forall p :: p in rest ==> p.id != o.id
  {
    var all := rest + multiset{o};
    assert forall p :: p in rest ==> p in all && all[p] == 1;
    assert o in all && all[o] == rest[o] + 1;
  }

  lemma HeadSplit(queue: seq<Occurrence>)
    requires queue != []
    ensures multiset(queue) == multiset(queue[1..]) + multiset{queue[0]}
    ensures forall i :: 0 <= i < |queue[1..]| ==> queue[1..][i] in multiset(queue[1..])
    ensures Sorted(queue) ==> Sorted(queue[1..])
  {
    assert queue == [queue[0]] + queue[1..];
  }

  lemma LastSplit(queue: seq<Occurrence>)
    requires queue != []
    ensures var n := |queue| - 1;
            multiset(queue) == multiset(queue[..n]) + multiset{queue[n]} &&
            forall o :: o in queue[..n] ==> o in multiset(queue[..n])
  {
    assert queue == queue[..|queue| - 1] + [queue[|queue| - 1]];
  }

  lemma HeadAlone(queue: seq<Occurrence>)
    requires queue != [] && Single(multiset(queue))
    ensures Single(multiset(queue[1..])) && forall i :: 0 <= i < |queue[1..]| ==> queue[1..][i].id != queue[0].id
  {
    hide Single, Sorted;
    HeadSplit(queue);
    SingleSplit(multiset(queue[1..]), queue[0]);
  }

  /** A queue in order that holds no alarm twice. */
  ghost predicate Orderly(queue: seq<Occurrence>) { Sorted(queue) && Single(multiset(queue)) }

  lemma TailOrderly(queue: seq<Occurrence>)
    requires queue != [] && Orderly(queue)
    ensures Orderly(queue[1..]) && forall i :: 0 <= i < |queue[1..]| ==> queue[1..][i].id != queue[0].id
  {
    hide Single, Sorted;
    HeadAlone(queue);
    HeadSplit(queue);
  }

  lemma InsertKeeps(queue: seq<Occurrence>, o: Occurrence)
    requires Orderly(queue) && forall i :: 0 <= i < |queue| ==> queue[i].id != o.id
    ensures Orderly(Insert(queue, o))
  {
    hide Insert, Single, Sorted;
    assert forall q :: q in multiset(queue) ==> q in queue;
    AddSingle(multiset(queue), o);
    InsertSorted(queue, o);
  }

  /** The queue after a round. */
  lemma RoundQueue(w: World, clock: nat -> int)
    requires w.queue != [] && Orderly(w.queue)
    ensures Orderly(Round(w, clock).queue)
  {
    hide Insert, Orderly;
    var o := w.queue[0];
    TailOrderly(w.queue);
    if o.id in w.live && w.live[o.id].interval.Some? {
      InsertKeeps(w.queue[1..], Occurrence(o.id, clock(w.taken) + w.live[o.id].interval.value));
    }
  }

  /** What a round fires, and what is still to be fired. */
  lemma RoundFires(w: World, clock: nat -> int, now: int)
    requires w.queue != [] && w.queue[0].deadline < now && Monotone(clock, w.taken, now)
    requires Orderly(w.queue)
    ensures var v := Round(w, clock);
            w.fired + LiveDue(w.queue, w.live, now) == v.fired + LiveDue(v.queue, v.live, now)
  {
    hide Insert, Orderly, LiveDue;
    var o := w.queue[0];
    var rest := w.queue[1..];
    TailOrderly(w.queue);
    LiveDueTail(w.queue, w.live, now);
    if o.id in w.live {
      if w.live[o.id].interval.Some? {
        LiveDueInsert(rest, Occurrence(o.id, clock(w.taken) + w.live[o.id].interval.value), w.live, now);
      } else {
        LiveDueWithout(rest, w.live, now, o.id);
      }
      assert w.fired + ([o] + LiveDue(rest, w.live, now)) == w.fired + [o] + LiveDue(rest, w.live, now);
    } else {
      assert [] + LiveDue(rest, w.live, now) == LiveDue(rest, w.live, now);
    }
  }

  /** A run is exact: each live due alarm is fired once, in the order of the deadlines, and nothing
      else is; no due occurrence is left. */
  lemma {:induction false} DrainExact(w: World, clock: nat -> int, now: int)
    requires Monotone(clock, w.taken, now) && Orderly(w.queue)
    ensures var v := Drain(w, clock, now);
            && Orderly(v.queue)
            && v.fired == w.fired + LiveDue(w.queue, w.live, now)
            && (forall i :: 0 <= i < |v.queue| ==> now <= v.queue[i].deadline)
    decreases DueCount(w.queue, now)
  {
    hide Round, LiveDue, DueCount, Orderly;
    if w.queue != [] && w.queue[0].deadline < now {
      RoundFalls(w, clock, now);
      RoundQueue(w, clock);
      RoundFires(w, clock, now);
      DrainExact(Round(w, clock), clock, now);
    } else {
      OrderlyNotDue(w.queue, w.live, now);
      assert w.fired + [] == w.fired;
    }
  }

  lemma OrderlyNotDue(queue: seq<Occurrence>, live: map<Id, Info>, now: int)
    requires Orderly(queue) && (queue != [] ==> now <= queue[0].deadline)
    ensures LiveDue(queue, live, now) == []
    ensures forall i :: 0 <= i < |queue| ==> now <= queue[i].deadline
  {
    hide Single, Sorted, LiveDue;
    NothingDue(queue, live, now);
  }

  lemma {:induction false} NothingDue(queue: seq<Occurrence>, live: map<Id, Info>, now: int)
    requires Sorted(queue) && (queue != [] ==> now <= queue[0].deadline)
    ensures LiveDue(queue, live, now) == []
    ensures forall i :: 0 <= i < |queue| ==> now <= queue[i].deadline
    decreases |queue|
  {
    if queue != [] { NothingDue(queue[..|queue| - 1], live, now); }
  }

  lemma {:induction false} LiveDueSorted(queue: seq<Occurrence>, live: map<Id, Info>, now: int)
    requires Sorted(queue)
    ensures Sorted(LiveDue(queue, live, now))
    decreases |queue|
  {
    if queue != [] {
      var n := |queue| - 1;
      LiveDueSorted(queue[..n], live, now);
      LiveDueIn(queue[..n], live, now);
      var r := LiveDue(queue[..n], live, now);
      assert forall i :: 0 <= i < |r| ==> r[i] in r;
    }
  }

  lemma LastAlone(queue: seq<Occurrence>)
    requires queue != [] && Single(multiset(queue))
    ensures var n := |queue| - 1;
            Single(multiset(queue[..n])) && forall o :: o in queue[..n] ==> o.id != queue[n].id
  {
    hide Single;
    LastSplit(queue);
    SingleSplit(multiset(queue[..|queue| - 1]), queue[|queue| - 1]);
  }

  lemma SingleAppend(queue: seq<Occurrence>, o: Occurrence)
    requires Single(multiset(queue)) && forall p :: p in queue ==> p.id != o.id
    ensures Single(multiset(queue + [o]))
  {
    hide Single;
    assert forall p :: p in multiset(queue) ==> p in queue;
    AddSingle(multiset(queue), o);
    assert multiset(queue + [o]) == multiset(queue) + multiset{o};
  }

  lemma {:induction false} LiveDueSingle(queue: seq<Occurrence>, live: map<Id, Info>, now: int)
    requires Single(multiset(queue))
    ensures Single(multiset(LiveDue(queue, live, now)))
    decreases |queue|
  {
    hide Single;
    if queue == [] {
      assert LiveDue(queue, live, now) == queue;
    } else {
      var n := |queue| - 1;
      LastAlone(queue);
      LiveDueSingle(queue[..n], live, now);
      LiveDueIn(queue[..n], live, now);
      var r := LiveDue(queue[..n], live, now);
      SingleAppendIf(r, queue[n], queue[n].deadline < now && queue[n].id in live);
    }
  }

  lemma SingleAppendIf(queue: seq<Occurrence>, o: Occurrence, b: bool)
    requires Single(multiset(queue)) && forall p :: p in queue ==> p.id != o.id
    ensures Single(multiset(queue + (if b then [o] else [])))
  {
    hide Single;
    if b { SingleAppend(queue, o); } else { assert queue + [] == queue; }
  }

  /** What a run fires is exactly the live due alarms, in the order of their deadlines, each once. */
  lemma DrainFires(w: World, clock: nat -> int, now: int, fired: seq<Occurrence>)
    requires Monotone(clock, w.taken, now) && Orderly(w.queue)
    requires Drain(w, clock, now).fired == w.fired + fired
    ensures forall o :: o in fired <==> o in w.queue && o.deadline < now && o.id in w.live
    ensures Sorted(fired) && Single(multiset(fired))
  {
    hide LiveDue, Drain, Sorted, Single;
    DrainExact(w, clock, now);
    assert (w.fired + fired)[|w.fired|..] == fired;
    assert (w.fired + LiveDue(w.queue, w.live, now))[|w.fired|..] == LiveDue(w.queue, w.live, now);
    LiveDueIn(w.queue, w.live, now);
    LiveDueSorted(w.queue, w.live, now);
    LiveDueSingle(w.queue, w.live, now);
  }

  lemma HeadIsHead(queue: seq<Occurrence>)
    requires queue != [] && Sorted(queue)
    ensures IsHead(multiset(queue), queue[0])
    ensures multiset(queue) - multiset{queue[0]} == multiset(queue[1..])
  {
    assert queue == [queue[0]] + queue[1..];
    forall p | p in multiset(queue) ensures queue[0].deadline <= p.deadline {
      assert p in queue;
    }
  }

  lemma RoundRefinesMemory(w: World, clock: nat -> int)
    requires w.queue != [] && multiset(w.queue) - multiset{w.queue[0]} == multiset(w.queue[1..])
    ensures Memory(multiset(Round(w, clock).queue), Round(w, clock).live) ==
            DrainMemory(Memory(multiset(w.queue), w.live), clock(w.taken), w.queue[0])
  {
    hide Insert, UpdateRecord, RemoveRecord;
  }

  lemma RoundRefinesDisk(w: World, clock: nat -> int)
    requires w.queue != []
    ensures Round(w, clock).disk == DrainDisk(w.disk, Memory(multiset(w.queue), w.live), clock(w.taken), w.queue[0])
    ensures Round(w, clock).fired == if w.queue[0].id in w.live then w.fired + [w.queue[0]] else w.fired
  {
    hide Insert;
  }

  /** A round does to memory and backend what the transition system says, and takes a head. */
  lemma RoundRefines(w: World, clock: nat -> int)
    requires w.queue != [] && Sorted(w.queue)
    ensures var o := w.queue[0];
            var m := Memory(multiset(w.queue), w.live);
            var v := Round(w, clock);
            && IsHead(m.queue, o)
            && Memory(multiset(v.queue), v.live) == DrainMemory(m, clock(w.taken), o)
            && v.disk == DrainDisk(w.disk, m, clock(w.taken), o)
            && v.fired == if o.id in w.live then w.fired + [o] else w.fired
  {
    hide Round, Sorted, IsHead, DrainMemory, DrainDisk;
    HeadIsHead(w.queue);
    RoundRefinesMemory(w, clock);
    RoundRefinesDisk(w, clock);
  }
}
