/** The life of a test harness: tests are registered, run, time out and are reported, until the harness
    completes. One step is one call from outside; what the harness calls back does not call it again. */
module HarnessModel {

  datatype Status = Pass | Fail | TimedOut | NotRun

  datatype Timer = Never | Pending | Cleared

  datatype Test = Test(status: Status, isDone: bool, timer: Timer)

  datatype Overall = Unset | Ok | Error | Late

  const INITIAL := 0
  const SETUP := 1
  const HAVE_TESTS := 2
  const HAVE_RESULTS := 3
  const COMPLETE := 4

  /** reported lists the tests handed to the result callbacks; completions counts the final callbacks. */
  datatype State = State(tests: seq<Test>, numPending: int, phase: int, allLoaded: bool, waitForFinish: bool,
                         status: Overall, reported: seq<nat>, completions: nat)

  const START := State([], 0, INITIAL, false, false, Unset, [], 0)

  predicate AllDone(s: State) { s.allLoaded && s.numPending == 0 && !s.waitForFinish }

  function NewTest(): Test { Test(NotRun, false, Never) }

  function Push(s: State): State {
    s.(phase := if s.phase < HAVE_TESTS then HAVE_TESTS else s.phase,
       numPending := s.numPending + 1, tests := s.tests + [NewTest()])
  }

  /** Reports a test, and completes when that was the last thing to wait for. */
  function Notify(s: State, i: nat): State
    decreases if s.phase == COMPLETE then 0 else 2
  {
    var t := s.(reported := s.reported + [i]);
    if AllDone(t) then Finish(t) else t
  }

  /** Closes the harness once: tests that never ran are reported as such, then the end is announced. */
  function Finish(s: State): State
    decreases if s.phase == COMPLETE then 0 else 1, |s.tests| + 1
  {
    if s.phase == COMPLETE then s
    else
      var t := NotifyUnrun(s.(phase := COMPLETE), 0);
      t.(completions := t.completions + 1, status := if t.status == Unset then Ok else t.status)
  }

  function NotifyUnrun(s: State, k: nat): (t: State)
    requires s.phase == COMPLETE && k <= |s.tests|
    ensures t.phase == COMPLETE && t.(reported := s.reported) == s
    decreases 0, |s.tests| - k
  {
    if k == |s.tests| then s
    else if s.tests[k].status == NotRun then
      NotifyUnrun(s.(reported := s.reported + [k]), k + 1)
    else NotifyUnrun(s, k + 1)
  }

  function Result(s: State, i: nat): State {
    if s.phase > HAVE_RESULTS then s else Notify(s.(phase := HAVE_RESULTS, numPending := s.numPending - 1), i)
  }

  function Done(s: State, i: nat): State
    requires i < |s.tests|
  {
    var t := s.tests[i];
    if t.isDone then s
    else
      Result(s.(tests := s.tests[i := Test(if t.status == NotRun then Pass else t.status, true, Clear(t.timer))]), i)
  }

  function Clear(t: Timer): Timer { if t == Pending then Cleared else t }

  function SetStatus(s: State, i: nat, status: Status): State
    requires i < |s.tests|
  {
    s.(tests := s.tests[i := s.tests[i].(status := status)])
  }

  // ---------- steps ----------

  /** What reading a property of a thrown value gives: another exception, nothing, a string, or something else,
      which may or may not turn into text. */
  datatype Property = Raises | Absent | Str | Odd(hasText: bool)

  /** A thrown value: null or undefined, another primitive, an object, or a function, with the properties that
      are read; reading one twice gives the same. */
  datatype Thrown =
    | Nullish
    | Primitive
    | ObjectValue(message: Property, stack: Property)
    | FunctionValue(message: Property, stack: Property, hasText: bool)

  /** Recording the value throws again: the message of an object or the stack cannot be read, or, beside a
      string message, the stack or the function itself cannot be turned into text. */
  predicate Unreadable(v: Thrown) {
    match v
    case Nullish => true
    case Primitive => false
    case ObjectValue(message, stack) => message.Raises? || stack.Raises? || (message.Str? && stack == Odd(false))
    case FunctionValue(message, stack, hasText) =>
      stack.Raises? || (!stack.Absent? && (message.Raises? || (message.Str? && (stack == Odd(false) || !hasText))))
  }

  /** Values that can be recorded and values that cannot: an error, a string, and a function with nothing but a message
      can; null, a getter that throws, and a stack without text beside a string message cannot. A message that cannot
      be read does no harm in a function without a stack, nor a stack without text where the message is no string. */
  lemma UnreadableExamples()
    ensures !Unreadable(ObjectValue(Str, Str)) && !Unreadable(ObjectValue(Str, Absent)) && !Unreadable(Primitive)
    ensures !Unreadable(ObjectValue(Absent, Odd(false))) && !Unreadable(ObjectValue(Odd(false), Odd(false)))
    ensures !Unreadable(ObjectValue(Str, Odd(true))) && !Unreadable(FunctionValue(Raises, Absent, false))
    ensures !Unreadable(FunctionValue(Str, Absent, false)) && !Unreadable(FunctionValue(Str, Str, true))
    ensures Unreadable(Nullish) && Unreadable(ObjectValue(Raises, Absent)) && Unreadable(ObjectValue(Str, Raises))
    ensures Unreadable(ObjectValue(Absent, Raises)) && Unreadable(ObjectValue(Str, Odd(false)))
    ensures Unreadable(FunctionValue(Raises, Str, true)) && Unreadable(FunctionValue(Absent, Raises, true))
    ensures Unreadable(FunctionValue(Str, Odd(false), true)) && Unreadable(FunctionValue(Str, Str, false))
  {}

  /** What can happen: a test is registered, begins a step, ends it by throwing, is done, times out; the page
      loads, calls setup or done, the harness times out, or the page has an uncaught error. */
  datatype Event =
    | Register
    | BeginStep(test: nat)
    | Throw(test: nat, thrown: Thrown)
    | TestDone(test: nat)
    | TestTimeout(test: nat)
    | Load
    | Setup(explicitDone: bool, failed: bool)
    | EndWait
    | HarnessTimeout
    | PageError

  predicate Enabled(s: State, e: Event) {
    match e
    case BeginStep(i) => i < |s.tests|
    case Throw(i, _) => i < |s.tests|
    case TestDone(i) => i < |s.tests|
    case TestTimeout(i) => i < |s.tests| && s.tests[i].timer == Pending
    case _ => true
  }

  function Step(s: State, e: Event): State
    requires Enabled(s, e)
  {
    match e
    case Register => Push(s)
    case BeginStep(i) =>
      if s.tests[i].status != NotRun || s.tests[i].timer != Never then s
      else s.(tests := s.tests[i := s.tests[i].(timer := Pending)])
    case Throw(i, v) =>
      if s.tests[i].status != NotRun then s
      else if Unreadable(v) then SetStatus(s, i, Fail)
      else Done(SetStatus(s, i, Fail), i)
    case TestDone(i) => Done(s, i)
    case TestTimeout(i) =>
      Done(s.(tests := s.tests[i := s.tests[i].(status := TimedOut, timer := Never)]), i)
    case Load => var t := s.(allLoaded := true); if AllDone(t) then Finish(t) else t
    case Setup(explicitDone, failed) =>
      if s.phase >= HAVE_RESULTS then s
      else s.(phase := if s.phase < SETUP then SETUP else s.phase,
              waitForFinish := s.waitForFinish || explicitDone, status := if failed then Error else s.status)
    case EndWait => var t := s.(waitForFinish := false); if AllDone(t) then Finish(t) else t
    case HarnessTimeout => Finish(s.(status := Late))
    case PageError => Finish(s.(status := Error))
  }

  // ---------- the invariant ----------

  function Undone(tests: seq<Test>): nat {
    if tests == [] then 0
    else Undone(tests[..|tests| - 1]) + if tests[|tests| - 1].isDone then 0 else 1
  }

  /** A test that has failed but was not closed: it threw what cannot be read, and the harness tripped over it. */
  predicate Stuck(t: Test) { t.status == Fail && !t.isDone }

  predicate TestSound(t: Test) {
    if t.isDone then t.status != NotRun && t.timer != Pending else t.status == NotRun || t.status == Fail
  }

  function Count(s: seq<nat>, i: nat): nat { multiset(s)[i] }

  /** Holds between steps and while one is under way. */
  ghost predicate Steady(s: State) {
    && INITIAL <= s.phase <= COMPLETE
    && (s.tests != [] ==> s.phase >= HAVE_TESTS)
    && (forall i :: 0 <= i < |s.tests| ==> TestSound(s.tests[i]))
    && (forall i: nat :: Count(s.reported, i) <= if i < |s.tests| then 1 else 0)
    && s.completions == (if s.phase == COMPLETE then 1 else 0)
    && (s.phase < COMPLETE ==> s.numPending == Undone(s.tests) && Reported(s))
  }

  /** Exactly the tests that are done have been reported. */
  ghost predicate Reported(s: State) {
    forall i: nat :: i < |s.tests| ==> Count(s.reported, i) == if s.tests[i].isDone then 1 else 0
  }

  /** Holds between steps: the harness never sits on a finished job. */
  ghost predicate Sound(s: State) {
    Steady(s) && (s.phase < COMPLETE ==> !AllDone(s))
  }

  lemma CountLast(s: seq<nat>, x: nat, i: nat)
    ensures Count(s + [x], i) == Count(s, i) + if i == x then 1 else 0
  {
  }

  lemma {:induction false} UnrunCounts(s: State, k: nat, i: nat)
    requires s.phase == COMPLETE && k <= |s.tests|
    ensures Count(NotifyUnrun(s, k).reported, i) ==
            Count(s.reported, i) + if k <= i < |s.tests| && s.tests[i].status == NotRun then 1 else 0
    decreases |s.tests| - k
  {
    if k < |s.tests| {
      if s.tests[k].status == NotRun {
        CountLast(s.reported, k, i);
        UnrunCounts(s.(reported := s.reported + [k]), k + 1, i);
      } else {
        UnrunCounts(s, k + 1, i);
      }
    }
  }

  /** Completing reports every test once, but for those that are stuck. */
  lemma FinishExact(s: State)
    requires Steady(s)
    ensures Sound(Finish(s)) && Finish(s).phase == COMPLETE && Finish(s).tests == s.tests
    ensures s.phase == COMPLETE ==> Finish(s) == s
    ensures s.phase < COMPLETE ==> forall i: nat :: i < |s.tests| ==>
      Count(Finish(s).reported, i) == if Stuck(s.tests[i]) then 0 else 1
  {
    if s.phase < COMPLETE {
      var t := s.(phase := COMPLETE);
      forall i: nat
        ensures Count(Finish(s).reported, i) == if i < |s.tests| && !Stuck(s.tests[i]) then 1 else 0
      {
        UnrunCounts(t, 0, i);
        if i < |s.tests| { assert TestSound(s.tests[i]); }
      }
    }
  }

  lemma {:induction false} UndoneUpdate(tests: seq<Test>, i: nat, t: Test)
    requires i < |tests|
    ensures Undone(tests[i := t]) ==
            Undone(tests) - (if tests[i].isDone then 0 else 1) + if t.isDone then 0 else 1
    decreases |tests|
  {
    var most := tests[..|tests| - 1];
    if i < |tests| - 1 {
      UndoneUpdate(most, i, t);
      assert tests[i := t][..|tests| - 1] == most[i := t];
    } else {
      assert tests[i := t][..|tests| - 1] == most;
    }
  }

  /** A change to one test that is not done, and does not close it, keeps the books. */
  lemma UpdateSteady(s: State, i: nat, t: Test)
    requires Sound(s) && i < |s.tests| && s.tests[i].isDone == t.isDone && TestSound(t)
    ensures Sound(s.(tests := s.tests[i := t]))
  {
    UndoneUpdate(s.tests, i, t);
  }

  ghost function DoneTest(t: Test): Test {
    Test(if t.status == NotRun then Pass else t.status, true, Clear(t.timer))
  }

  /** Closing a test, of whatever status, counts it off and reports it. */
  lemma CloseSteady(s: State, i: nat, t: Test)
    requires Sound(s) && s.phase < COMPLETE && i < |s.tests| && !s.tests[i].isDone && t.isDone && TestSound(t)
    ensures Steady(s.(tests := s.tests[i := t], phase := HAVE_RESULTS,
                      numPending := s.numPending - 1, reported := s.reported + [i]))
  {
    UndoneUpdate(s.tests, i, t);
    forall j: nat
      ensures Count(s.reported + [i], j) == Count(s.reported, j) + if j == i then 1 else 0
    {
      CountLast(s.reported, i, j);
    }
  }

  /** Test i throws a value that cannot be read. */
  predicate Trips(e: Event, i: nat) { e.Throw? && e.test == i && Unreadable(e.thrown) }

  /** What every step does: the books stay in order, phases only rise, nothing is reported after the end;
      completing reports each test but the stuck ones; only throwing the unreadable makes a test stuck. */
  ghost predicate Orderly(s: State, e: Event, t: State) {
    && Sound(t) && s.phase <= t.phase && |s.tests| <= |t.tests|
    && (s.phase == COMPLETE ==> t.reported == s.reported)
    && (s.phase < COMPLETE && t.phase == COMPLETE ==> AllHeard(t))
    && forall i: nat :: i < |t.tests| && Stuck(t.tests[i]) ==>
         (i < |s.tests| && Stuck(s.tests[i])) || Trips(e, i)
  }

  ghost predicate AllHeard(s: State) {
    forall i: nat :: i < |s.tests| ==> Count(s.reported, i) == if Stuck(s.tests[i]) then 0 else 1
  }

  /** done on a test that may just have failed or timed out. */
  lemma DoneOrderly(s: State, e: Event, i: nat, t: Test)
    requires Sound(s) && i < |s.tests| && t.isDone == s.tests[i].isDone && (t.isDone ==> t == s.tests[i])
    ensures Orderly(s, e, Done(s.(tests := s.tests[i := t]), i))
  {
    hide Orderly, Finish;
    var u := s.(tests := s.tests[i := t]);
    assert u.tests[i] == t;
    if t.isDone {
      assert u == s;
      Unchanged(s, e);
    } else {
      var closed := DoneTest(t);
      assert u.tests[i := closed] == s.tests[i := closed];
      if s.phase < COMPLETE {
        CloseOrderly(s, e, i, closed);
      } else {
        ClosedLate(s, e, i, closed);
      }
    }
  }

  lemma CloseOrderly(s: State, e: Event, i: nat, t: Test)
    requires Sound(s) && s.phase < COMPLETE && i < |s.tests| && !s.tests[i].isDone && t.isDone && TestSound(t)
    ensures var u := s.(tests := s.tests[i := t], phase := HAVE_RESULTS, numPending := s.numPending - 1,
                        reported := s.reported + [i]);
      Orderly(s, e, if AllDone(u) then Finish(u) else u)
  {
    hide Finish;
    CloseSteady(s, i, t);
    FinishExact(s.(tests := s.tests[i := t], phase := HAVE_RESULTS,
                   numPending := s.numPending - 1, reported := s.reported + [i]));
  }

  lemma ClosedLate(s: State, e: Event, i: nat, t: Test)
    requires Sound(s) && s.phase == COMPLETE && i < |s.tests| && t.isDone && TestSound(t)
    ensures Orderly(s, e, s.(tests := s.tests[i := t]))
  {
  }

  lemma FinishOrderly(s: State, e: Event, t: State)
    requires Sound(s) && Steady(t) && t.tests == s.tests && t.phase == s.phase && t.reported == s.reported
    ensures Orderly(s, e, Finish(t))
    ensures !AllDone(t) ==> Orderly(s, e, t)
  {
    FinishExact(t);
  }

  lemma UpdateOrderly(s: State, e: Event, i: nat, t: Test)
    requires Sound(s) && i < |s.tests| && s.tests[i].isDone == t.isDone && TestSound(t)
    requires Stuck(t) ==> Stuck(s.tests[i]) || Trips(e, i)
    ensures Orderly(s, e, s.(tests := s.tests[i := t]))
  {
    UpdateSteady(s, i, t);
  }

  lemma PushOrderly(s: State, e: Event)
    requires Sound(s)
    ensures Orderly(s, e, Push(s))
  {
    hide Count, Undone;
    PushUndone(s.tests);
    assert Count(s.reported, |s.tests|) == 0;
  }

  lemma PushUndone(tests: seq<Test>)
    ensures Undone(tests + [NewTest()]) == Undone(tests) + 1
  {
    assert (tests + [NewTest()])[..|tests|] == tests;
  }

  // ---------- every step ----------

  lemma StepOrderly(s: State, e: Event)
    requires Sound(s) && Enabled(s, e)
    ensures Orderly(s, e, Step(s, e))
  {
    hide Orderly, Done, Finish, Undone;
    assert Orderly(s, e, s) by { Unchanged(s, e); }
    match e
    case Register => PushOrderly(s, e);
    case BeginStep(i) =>
      var t := s.tests[i];
      assert TestSound(t);
      if t.status == NotRun { UpdateOrderly(s, e, i, t.(timer := Pending)); }
    case Throw(i, v) =>
      assert TestSound(s.tests[i]);
      if s.tests[i].status == NotRun {
        if Unreadable(v) { UpdateOrderly(s, e, i, s.tests[i].(status := Fail)); }
        else { DoneOrderly(s, e, i, s.tests[i].(status := Fail)); }
      }
    case TestDone(i) =>
      assert s.tests[i := s.tests[i]] == s.tests;
      DoneOrderly(s, e, i, s.tests[i]);
    case TestTimeout(i) =>
      assert TestSound(s.tests[i]);
      DoneOrderly(s, e, i, s.tests[i].(status := TimedOut, timer := Never));
    case Load => FinishOrderly(s, e, s.(allLoaded := true));
    case Setup(_, _) => SetupOrderly(s, e);
    case EndWait => FinishOrderly(s, e, s.(waitForFinish := false));
    case HarnessTimeout => FinishOrderly(s, e, s.(status := Late));
    case PageError => FinishOrderly(s, e, s.(status := Error));
  }

  lemma Unchanged(s: State, e: Event)
    requires Sound(s)
    ensures Orderly(s, e, s)
  {
  }

  lemma SetupOrderly(s: State, e: Event)
    requires Sound(s) && e.Setup?
    ensures Orderly(s, e, Step(s, e))
  {
  }

  // ---------- every run ----------

  ghost predicate IsRun(states: seq<State>, events: seq<Event>) {
    && |states| == |events| + 1 && states[0] == START
    && forall k :: 0 <= k < |events| ==> Enabled(states[k], events[k]) && states[k + 1] == Step(states[k], events[k])
  }

  lemma {:induction false} RunSound(states: seq<State>, events: seq<Event>, k: nat)
    requires IsRun(states, events) && k < |states|
    ensures Sound(states[k])
  {
    if k > 0 {
      RunSound(states, events, k - 1);
      StepOrderly(states[k - 1], events[k - 1]);
    } else {
      assert Undone([]) == 0;
    }
  }

  /** Phases and the list of tests only grow. */
  lemma {:induction false} RunRises(states: seq<State>, events: seq<Event>, j: nat, k: nat)
    requires IsRun(states, events) && j <= k < |states|
    ensures states[j].phase <= states[k].phase && |states[j].tests| <= |states[k].tests|
    ensures states[j].phase == COMPLETE ==>
      states[k].phase == COMPLETE && states[k].reported == states[j].reported
    decreases k
  {
    hide Sound, Step, Enabled;
    if j < k {
      RunRises(states, events, j, k - 1);
      RunSound(states, events, k - 1);
      StepRises(states[k - 1], events[k - 1]);
      assert states[k - 1 + 1] == Step(states[k - 1], events[k - 1]);
    }
  }

  lemma StepRises(s: State, e: Event)
    requires Sound(s) && Enabled(s, e)
    ensures s.phase <= Step(s, e).phase && |s.tests| <= |Step(s, e).tests|
    ensures s.phase == COMPLETE ==> Step(s, e).phase == COMPLETE && Step(s, e).reported == s.reported
  {
    hide Step, Enabled;
    StepOrderly(s, e);
  }

  lemma StuckStep(s: State, e: Event, i: nat)
    requires Sound(s) && Enabled(s, e) && i < |Step(s, e).tests| && Stuck(Step(s, e).tests[i])
    ensures (i < |s.tests| && Stuck(s.tests[i])) || Trips(e, i)
  {
    StepOrderly(s, e);
  }

  /** A test is stuck only after throwing what cannot be read. */
  lemma {:induction false} StuckThrew(states: seq<State>, events: seq<Event>, k: nat, i: nat)
    requires IsRun(states, events) && k < |states| && i < |states[k].tests| && Stuck(states[k].tests[i])
    ensures exists n :: 0 <= n < |events| && Trips(events[n], i)
    decreases k
  {
    if k > 0 {
      hide Stuck, Sound, Step;
      RunSound(states, events, k - 1);
      StuckStep(states[k - 1], events[k - 1], i);
      if !Trips(events[k - 1], i) { StuckThrew(states, events, k - 1, i); }
    }
  }

  /** A test registered before the harness completes, that never throws the unreadable, has been reported
      exactly once when the harness has completed. */
  lemma {:induction false} ReportedOnce(states: seq<State>, events: seq<Event>, j: nat, k: nat, i: nat)
    requires IsRun(states, events) && j <= k < |states| && i < |states[j].tests|
    requires states[j].phase < COMPLETE == states[k].phase
    requires forall n :: 0 <= n < |events| ==> !Trips(events[n], i)
    ensures Count(states[k].reported, i) == 1
    decreases k
  {
    hide Sound, Step, Stuck, Count;
    var s, t := states[k - 1], states[k];
    RunSound(states, events, k - 1);
    StepOrderly(s, events[k - 1]);
    RunRises(states, events, j, k - 1);
    RunRises(states, events, k - 1, k);
    if s.phase == COMPLETE {
      ReportedOnce(states, events, j, k - 1, i);
    } else {
      assert AllHeard(t);
      if Stuck(t.tests[i]) {
        StuckThrew(states, events, k, i);
      }
    }
  }

  /** Throwing what cannot be read loses the test: it failed, and nobody is told. So with null, and so with an
      object whose message is a string and whose stack has no text. */
  lemma StuckTestLost(v: Thrown)
    requires Unreadable(v)
    ensures Unreadable(Nullish) && Unreadable(ObjectValue(Str, Odd(false)))
    ensures var s := Step(Step(Step(Step(START, Register), BeginStep(0)), Throw(0, v)), PageError);
      s.phase == COMPLETE && |s.tests| == 1 && s.tests[0].status == Fail && s.reported == []
  {
    var s := Step(Step(Step(START, Register), BeginStep(0)), Throw(0, v));
    assert s == START.(tests := [Test(Fail, false, Pending)], numPending := 1, phase := HAVE_TESTS);
    assert NotifyUnrun(s.(status := Error, phase := COMPLETE), 0) == s.(status := Error, phase := COMPLETE);
  }
}
