/** A restart after a crash rebuilds the agenda of persistent alarms. */
module AlarmRecovery {
  import opened Wrappers
  import opened AlarmModel
  import opened AlarmAgenda

  /** No create, cancel or run is in flight on a started service. */
  predicate Quiescent(s: State) {
    s.calls.phase == Up && s.calls.creating == map[] && s.calls.cancelling == {} && s.runs == Runs(None, 0, 0)
  }

  /** The keys that a start has dealt with so far. */
  function Treated(t: State): set<nat> {
    match t.calls.phase
    case Down => {}
    case Starting(rest) => t.disk.records.Keys - rest.Keys
    case Up => t.disk.records.Keys
  }

  predicate Revived(loads: string -> bool, t: State, id: Id) {
    id.Persistent? && id.key in t.disk.records && id.key in Treated(t) && loads(t.disk.records[id.key].info.callback)
  }

  /** Memory during a start holds exactly what has been loaded from the backend. */
  ghost predicate Recovering(loads: string -> bool, s: State, t: State) {
    && t.disk == s.disk
    && (t.calls.phase.Starting? ==> forall k :: k in t.calls.phase.rest ==>
          k in t.disk.records && t.calls.phase.rest[k] == t.disk.records[k])
    && (forall id :: id in t.memory.live <==> Revived(loads, t, id))
    && (forall id :: id in t.memory.live && Revived(loads, t, id) ==> t.memory.live[id] == t.disk.records[id.key].info)
    && (forall o :: o in t.memory.queue <==> Revived(loads, t, o.id) && o.deadline == t.disk.records[o.id.key].deadline)
  }

  /** The steps of a start, and time passing. */
  predicate StartStep(step: Step) {
    step.Tick? || step.StartReads? || step.StartLoads? || step.StartEnds?
  }

  lemma CrashRecovering(loads: string -> bool, s: State)
    ensures Recovering(loads, s, AfterCrash(s))
  {}

  lemma LoadRecovering(loads: string -> bool, s: State, t: State, key: nat)
    requires Recovering(loads, s, t) && t.calls.phase.Starting? && key in t.calls.phase.rest
    ensures Recovering(loads, s, AfterLoad(loads, t, key))
  {
    var v := AfterLoad(loads, t, key);
    assert Treated(v) == Treated(t) + {key};
    assert forall id :: Revived(loads, v, id) <==>
             Revived(loads, t, id) || (id == Persistent(key) && loads(t.disk.records[key].info.callback));
  }

  lemma ReadsRecovering(loads: string -> bool, s: State, t: State)
    requires Recovering(loads, s, t) && t.calls.phase == Down
    ensures Recovering(loads, s, t.(calls := t.calls.(phase := Starting(t.disk.records)),
                                    history := t.history.(scheduled := t.now)))
  {}

  lemma EndsRecovering(loads: string -> bool, s: State, t: State, v: State)
    requires Recovering(loads, s, t) && t.calls.phase == Starting(map[])
    requires v.calls.phase == Up && v.memory == t.memory && v.disk == t.disk
    ensures Recovering(loads, s, v)
  {
    assert Treated(v) == Treated(t);
    assert forall id :: Revived(loads, v, id) <==> Revived(loads, t, id);
  }

  lemma SameRecovering(loads: string -> bool, s: State, t: State, v: State)
    requires Recovering(loads, s, t) && v.calls == t.calls && v.memory == t.memory && v.disk == t.disk
    ensures Recovering(loads, s, v)
  {
    assert forall id :: Revived(loads, v, id) <==> Revived(loads, t, id);
  }

  lemma StepRecovering(loads: string -> bool, s: State, t: State, step: Step)
    requires Recovering(loads, s, t) && StartStep(step) && Enabled(loads, t, step)
    ensures Recovering(loads, s, Do(loads, t, step))
  {
    hide Recovering, AfterLoad, NextCycle, IsHeadOf;
    match step {
      case StartReads => ReadsRecovering(loads, s, t);
      case StartLoads(key) => LoadRecovering(loads, s, t, key);
      case StartEnds(_) => EndsRecovering(loads, s, t, Do(loads, t, step));
      case Tick(_) => SameRecovering(loads, s, t, Do(loads, t, step));
    }
  }

  lemma {:induction false} RestartRecovering(loads: string -> bool, s: State, ts: seq<State>, steps: seq<Step>)
    requires |ts| == |steps| + 1 && ts[0] == AfterCrash(s)
    requires forall i :: 0 <= i < |steps| ==>
               StartStep(steps[i]) && Enabled(loads, ts[i], steps[i]) && ts[i + 1] == Do(loads, ts[i], steps[i])
    ensures Recovering(loads, s, ts[|steps|])
    decreases |steps|
  {
    hide Recovering, Do, Enabled, AfterCrash;
    var n := |steps|;
    if n == 0 {
      CrashRecovering(loads, s);
    } else {
      RestartRecovering(loads, s, ts[..n], steps[..n - 1]);
      StepRecovering(loads, s, ts[n - 1], steps[n - 1]);
    }
  }

  /** With nothing in flight, the live persistent alarms are the stored ones, with the same deadline
      and interval; only records whose class does not load may be stored and not live. */
  lemma QuiescentAgenda(loads: string -> bool, s: State)
    requires Sound(loads, s) && Quiescent(s)
    ensures forall k :: Persistent(k) in s.memory.live ==>
              k in s.disk.records && s.disk.records[k].info == s.memory.live[Persistent(k)]
    ensures forall k :: k in s.disk.records && loads(s.disk.records[k].info.callback) ==> Persistent(k) in s.memory.live
    ensures forall o :: o in s.memory.queue && o.id.Persistent? && o.id in s.memory.live ==>
              o.id.key in s.disk.records && s.disk.records[o.id.key].deadline == o.deadline
    ensures forall k :: Persistent(k) in s.memory.live ==>
              k in s.disk.records && Occurrence(Persistent(k), s.disk.records[k].deadline) in s.memory.queue
  {}

  /** Crashing at any quiescent point of any run, and then starting in any order of loading, gives
      back exactly the live persistent alarms whose class loads, each with its interval and its
      queued deadline; the backend is untouched. */
  lemma RestartRecovers(
    loads: string -> bool, ss: seq<State>, before: seq<Step>, ts: seq<State>, steps: seq<Step>)
    requires IsRun(loads, ss, before) && Quiescent(ss[|before|])
    requires |ts| == |steps| + 1 && ts[0] == AfterCrash(ss[|before|]) && ts[|steps|].calls.phase == Up
    requires forall i :: 0 <= i < |steps| ==>
               StartStep(steps[i]) && Enabled(loads, ts[i], steps[i]) && ts[i + 1] == Do(loads, ts[i], steps[i])
    ensures var s, t := ss[|before|], ts[|steps|];
            && t.disk == s.disk
            && (forall id :: id in t.memory.live <==>
                  id.Persistent? && id in s.memory.live && loads(s.memory.live[id].callback))
            && (forall id :: id in t.memory.live && id in s.memory.live ==> t.memory.live[id] == s.memory.live[id])
            && (forall o :: o in t.memory.queue <==> o in s.memory.queue && o.id in t.memory.live)
  {
    hide Sound, Do, Enabled, AfterCrash, Init;
    RunLast(loads, ss, before);
    var s, t := ss[|before|], ts[|steps|];
    QuiescentAgenda(loads, s);
    RestartRecovering(loads, s, ts, steps);
    assert Treated(t) == t.disk.records.Keys;
  }

  lemma RunLast(loads: string -> bool, ss: seq<State>, steps: seq<Step>)
    requires IsRun(loads, ss, steps)
    ensures |ss| == |steps| + 1 && Sound(loads, ss[|steps|])
  {
    hide Sound, Do, Enabled, Init;
    RunSound(loads, ss, steps, |steps|);
  }
}
