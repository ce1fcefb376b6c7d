/** The verdict on each test and on the harness, in terms of the calls that were made. */
module HarnessVerdict {
  import opened HarnessModel

  // ---------- one step ----------

  /** The step gives the test its failure: a value is thrown while it has no status. */
  predicate Fails(s: State, e: Event, i: nat) {
    e.Throw? && e.test == i && i < |s.tests| && s.tests[i].status == NotRun
  }

  /** The step closes the test. */
  predicate Closes(s: State, e: Event, i: nat) {
    && i < |s.tests| && !s.tests[i].isDone
    && (e == TestDone(i) || e == TestTimeout(i) || (Fails(s, e, i) && !Unreadable(e.thrown)))
  }

  lemma FinishTests(s: State)
    ensures Finish(s).tests == s.tests
  {}

  lemma ResultTests(s: State, i: nat)
    ensures Result(s, i).tests == s.tests
  {
    var t := s.(phase := HAVE_RESULTS, numPending := s.numPending - 1);
    FinishTests(t.(reported := t.reported + [i]));
    hide Finish;
  }

  lemma DoneTests(s: State, i: nat)
    requires i < |s.tests|
    ensures Done(s, i).tests == if s.tests[i].isDone then s.tests else s.tests[i := DoneTest(s.tests[i])]
  {
    hide Result;
    ResultTests(s.(tests := s.tests[i := DoneTest(s.tests[i])]), i);
  }

  function Shut(t: Test): Test {
    if t.isDone then t else Test(if t.status == NotRun then Pass else t.status, true, Clear(t.timer))
  }

  /** A test after a step. */
  function TestAfter(t: Test, e: Event, i: nat): Test {
    match e
    case BeginStep(k) => if k == i && t.status == NotRun && t.timer == Never then t.(timer := Pending) else t
    case Throw(k, v) =>
      if k != i || t.status != NotRun then t
      else if Unreadable(v) then t.(status := Fail)
      else Shut(t.(status := Fail))
    case TestDone(k) => if k == i then Shut(t) else t
    case TestTimeout(k) => if k == i then Shut(t.(status := TimedOut, timer := Never)) else t
    case _ => t
  }

  lemma StepTests(s: State, e: Event, i: nat)
    requires Enabled(s, e) && i < |s.tests|
    ensures |Step(s, e).tests| == |s.tests| + if e.Register? then 1 else 0
    ensures Step(s, e).tests[i] == TestAfter(s.tests[i], e, i)
  {
    hide Done, Finish;
    match e
    case Throw(k, v) =>
      if s.tests[k].status == NotRun && !Unreadable(v) { DoneTests(SetStatus(s, k, Fail), k); }
    case TestDone(k) => DoneTests(s, k);
    case TestTimeout(k) =>
      DoneTests(s.(tests := s.tests[k := s.tests[k].(status := TimedOut, timer := Never)]), k);
    case Load => FinishTests(s.(allLoaded := true));
    case EndWait => FinishTests(s.(waitForFinish := false));
    case HarnessTimeout => FinishTests(s.(status := Late));
    case PageError => FinishTests(s.(status := Error));
    case _ =>
  }

  /** What a step does to a test: it fails where a value meets it without a status, it is late where its timer fires,
      it passes where it is done without a status, and else it keeps the status it has. */
  lemma StepVerdict(s: State, e: Event, i: nat)
    requires Enabled(s, e) && i < |s.tests|
    ensures i < |Step(s, e).tests|
    ensures var t, u := s.tests[i], Step(s, e).tests[i];
      && u.status ==
           (if e == TestTimeout(i) then TimedOut
            else if Fails(s, e, i) then Fail
            else if e == TestDone(i) && !t.isDone && t.status == NotRun then Pass
            else t.status)
      && u.isDone == (t.isDone || Closes(s, e, i))
  {
    hide Step, Sound;
    StepTests(s, e, i);
  }

  /** A test is new where it was not there before. */
  lemma StepNew(s: State, e: Event)
    requires Enabled(s, e)
    ensures |Step(s, e).tests| == |s.tests| + if e.Register? then 1 else 0
    ensures e.Register? ==> Step(s, e).tests[|s.tests|] == Test(NotRun, false, Never)
  {
    hide Done, Finish;
    match e
    case Throw(k, v) =>
      if s.tests[k].status == NotRun && !Unreadable(v) { DoneTests(SetStatus(s, k, Fail), k); }
    case TestDone(k) => DoneTests(s, k);
    case TestTimeout(k) =>
      DoneTests(s.(tests := s.tests[k := s.tests[k].(status := TimedOut, timer := Never)]), k);
    case Load => FinishTests(s.(allLoaded := true));
    case EndWait => FinishTests(s.(waitForFinish := false));
    case HarnessTimeout => FinishTests(s.(status := Late));
    case PageError => FinishTests(s.(status := Error));
    case _ =>
  }

  // ---------- the verdict on a test ----------

  /** Before step k a thrown value met the test without a status. */
  ghost predicate Failed(states: seq<State>, events: seq<Event>, k: nat, i: nat)
    requires k <= |events| < |states|
  {
    exists n :: 0 <= n < k && Fails(states[n], events[n], i)
  }

  /** Before step k its timer fired. */
  ghost predicate Expired(events: seq<Event>, k: nat, i: nat)
    requires k <= |events|
  {
    exists n :: 0 <= n < k && events[n] == TestTimeout(i)
  }

  ghost predicate Closed(states: seq<State>, events: seq<Event>, k: nat, i: nat)
    requires k <= |events| < |states|
  {
    exists n :: 0 <= n < k && Closes(states[n], events[n], i)
  }

  /** In every state of every run: a test is done exactly if something closed it; it is late exactly if its timer fired,
      it has failed exactly if that did not happen and a thrown value met it without a status, and it passes exactly if
      neither happened and it was closed. */
  lemma {:induction false} TestVerdict(states: seq<State>, events: seq<Event>, k: nat, i: nat)
    requires IsRun(states, events) && k < |states| && i < |states[k].tests|
    ensures var t := states[k].tests[i];
      && (t.isDone <==> Closed(states, events, k, i))
      && (t.status == TimedOut <==> Expired(events, k, i))
      && (t.status == Fail <==> Failed(states, events, k, i) && !Expired(events, k, i))
      && (t.status == Pass <==> t.isDone && !Failed(states, events, k, i) && !Expired(events, k, i))
    decreases k
  {
    hide Step, Enabled, Fails, Closes;
    if k > 0 {
      var s, e := states[k - 1], events[k - 1];
      RunSound(states, events, k - 1);
      StepNew(s, e);
      if i < |s.tests| {
        TestVerdict(states, events, k - 1, i);
        VerdictStep(states, events, k, i);
      } else {
        NotThere(states, events, k, i);
      }
    }
  }

  lemma VerdictStep(states: seq<State>, events: seq<Event>, k: nat, i: nat)
    requires IsRun(states, events) && 0 < k < |states| && i < |states[k - 1].tests| && Sound(states[k - 1])
    requires i < |states[k].tests|
    requires var t := states[k - 1].tests[i];
      && (t.isDone <==> Closed(states, events, k - 1, i))
      && (t.status == TimedOut <==> Expired(events, k - 1, i))
      && (t.status == Fail <==> Failed(states, events, k - 1, i) && !Expired(events, k - 1, i))
      && (t.status == Pass <==> t.isDone && !Failed(states, events, k - 1, i) && !Expired(events, k - 1, i))
    ensures var t := states[k].tests[i];
      && (t.isDone <==> Closed(states, events, k, i))
      && (t.status == TimedOut <==> Expired(events, k, i))
      && (t.status == Fail <==> Failed(states, events, k, i) && !Expired(events, k, i))
      && (t.status == Pass <==> t.isDone && !Failed(states, events, k, i) && !Expired(events, k, i))
  {
    hide Step, Count, Undone;
    var s, e := states[k - 1], events[k - 1];
    StepVerdict(s, e, i);
    Earlier(states, events, k, i);
    assert TestSound(s.tests[i]);
    assert Enabled(s, e);
    hide Failed, Expired, Closed, Sound;
  }

  lemma Earlier(states: seq<State>, events: seq<Event>, k: nat, i: nat)
    requires 0 < k <= |events| < |states|
    ensures Failed(states, events, k, i) <==>
            Failed(states, events, k - 1, i) || Fails(states[k - 1], events[k - 1], i)
    ensures Expired(events, k, i) <==> Expired(events, k - 1, i) || events[k - 1] == TestTimeout(i)
    ensures Closed(states, events, k, i) <==>
            Closed(states, events, k - 1, i) || Closes(states[k - 1], events[k - 1], i)
  {
    hide Fails, Closes;
    if n :| 0 <= n < k && Fails(states[n], events[n], i) { assert n < k - 1 || n == k - 1; }
    if n :| 0 <= n < k && Closes(states[n], events[n], i) { assert n < k - 1 || n == k - 1; }
    if n :| 0 <= n < k && events[n] == TestTimeout(i) { assert n < k - 1 || n == k - 1; }
  }

  /** Nothing has happened to a test that has just been registered. */
  lemma NotThere(states: seq<State>, events: seq<Event>, k: nat, i: nat)
    requires IsRun(states, events) && 0 < k < |states| && |states[k - 1].tests| <= i
    ensures !Failed(states, events, k, i) && !Expired(events, k, i) && !Closed(states, events, k, i)
  {
    hide Step, Sound;
    forall n | 0 <= n < k
      ensures !Fails(states[n], events[n], i) && events[n] != TestTimeout(i) && !Closes(states[n], events[n], i)
    {
      RunRises(states, events, n, k - 1);
      assert Enabled(states[n], events[n]);
    }
  }

  /** Once a test is done its verdict stays. */
  lemma {:induction false} VerdictStays(states: seq<State>, events: seq<Event>, j: nat, k: nat, i: nat)
    requires IsRun(states, events) && j <= k < |states| && i < |states[j].tests| && states[j].tests[i].isDone
    ensures i < |states[k].tests|
    ensures states[k].tests[i].isDone && states[k].tests[i].status == states[j].tests[i].status
    decreases k
  {
    hide Step, Count, Undone;
    if j < k {
      VerdictStays(states, events, j, k - 1, i);
      RunSound(states, events, k - 1);
      StepVerdict(states[k - 1], events[k - 1], i);
      assert TestSound(states[k - 1].tests[i]) && Enabled(states[k - 1], events[k - 1]);
    }
  }

  // ---------- the timer of a test ----------

  /** A step of the test begins while it has no status. */
  predicate Begins(s: State, e: Event, i: nat) {
    e == BeginStep(i) && i < |s.tests| && s.tests[i].status == NotRun
  }

  /** Before step k one did. */
  ghost predicate Begun(states: seq<State>, events: seq<Event>, k: nat, i: nat)
    requires k <= |events| < |states|
  {
    exists n :: 0 <= n < k && Begins(states[n], events[n], i)
  }

  lemma SoundTest(s: State, i: nat)
    requires Sound(s) && i < |s.tests|
    ensures TestSound(s.tests[i])
  {
    hide Count, Undone;
  }

  lemma StepTimer(s: State, e: Event, i: nat)
    requires Sound(s) && Enabled(s, e) && i < |s.tests|
    ensures i < |Step(s, e).tests|
    ensures var t, u := s.tests[i], Step(s, e).tests[i];
      (u.timer == Pending <==> !u.isDone && (t.timer == Pending || (Begins(s, e, i) && t.timer == Never)))
  {
    hide Step, Sound;
    StepTests(s, e, i);
    SoundTest(s, i);
  }

  /** An open test has a timer or never had one. */
  lemma StepFresh(s: State, e: Event, i: nat)
    requires Sound(s) && Enabled(s, e) && i < |s.tests|
    requires !s.tests[i].isDone ==> s.tests[i].timer != Cleared
    ensures i < |Step(s, e).tests|
    ensures !Step(s, e).tests[i].isDone ==> Step(s, e).tests[i].timer != Cleared
  {
    hide Step, Sound;
    StepTests(s, e, i);
  }

  /** Over any run the timer of a test is pending exactly if one of its steps began while it had no status, and it is
      not done. */
  lemma {:induction false} TimerExact(states: seq<State>, events: seq<Event>, k: nat, i: nat)
    requires IsRun(states, events) && k < |states| && i < |states[k].tests|
    ensures states[k].tests[i].timer == Pending <==> Begun(states, events, k, i) && !states[k].tests[i].isDone
    ensures !states[k].tests[i].isDone ==> states[k].tests[i].timer != Cleared
    decreases k
  {
    hide Step, Enabled, Begins, Sound, Closes;
    if k > 0 {
      var s, e := states[k - 1], events[k - 1];
      RunSound(states, events, k - 1);
      StepNew(s, e);
      if n :| 0 <= n < k && Begins(states[n], events[n], i) { assert n < k - 1 || n == k - 1; }
      if i < |s.tests| {
        TimerExact(states, events, k - 1, i);
        StepTimer(s, e, i);
        StepFresh(s, e, i);
        StepVerdict(s, e, i);
      } else {
        NotBegun(states, events, k, i);
      }
    }
  }

  lemma NotBegun(states: seq<State>, events: seq<Event>, k: nat, i: nat)
    requires IsRun(states, events) && 0 < k < |states| && |states[k - 1].tests| <= i
    ensures !Begun(states, events, k, i)
  {
    hide Step, Sound;
    forall n | 0 <= n < k ensures !Begins(states[n], events[n], i) {
      RunRises(states, events, n, k - 1);
    }
  }

  // ---------- the status of the harness ----------

  /** The step marks the harness: a timeout, an uncaught error, or a setup that fails before there are results. */
  predicate Marks(s: State, e: Event) {
    e.HarnessTimeout? || e.PageError? || (e.Setup? && e.failed && s.phase < HAVE_RESULTS)
  }

  lemma FinishStatus(s: State)
    requires INITIAL <= s.phase <= COMPLETE
    ensures Finish(s).phase == COMPLETE
    ensures Finish(s).status == if s.phase < COMPLETE && s.status == Unset then Ok else s.status
    ensures Finish(s).allLoaded == s.allLoaded && Finish(s).waitForFinish == s.waitForFinish
    ensures Finish(s).numPending == s.numPending && Finish(s).tests == s.tests
  {}

  /** Everything of t but what the result callbacks saw is as in s, which may have been completed on the way. */
  predicate Settled(s: State, t: State) {
    && t.tests == s.tests && t.numPending == s.numPending
    && t.allLoaded == s.allLoaded && t.waitForFinish == s.waitForFinish
    && t.phase == (if AllDone(s) then COMPLETE else s.phase)
    && t.status == if AllDone(s) && s.phase < COMPLETE && s.status == Unset then Ok else s.status
  }

  lemma ResultSettled(s: State, i: nat)
    requires INITIAL <= s.phase < COMPLETE
    ensures Settled(s.(phase := HAVE_RESULTS, numPending := s.numPending - 1), Result(s, i))
  {
    hide Finish;
    var t := s.(phase := HAVE_RESULTS, numPending := s.numPending - 1, reported := s.reported + [i]);
    FinishStatus(t);
  }

  /** The state before the harness looks whether it is done. */
  function Noted(s: State, e: Event): State
    requires Enabled(s, e)
  {
    match e
    case Register =>
      s.(phase := if s.phase < HAVE_TESTS then HAVE_TESTS else s.phase, numPending := s.numPending + 1,
         tests := Step(s, e).tests)
    case Setup(explicitDone, failed) =>
      if s.phase >= HAVE_RESULTS then s
      else s.(phase := if s.phase < SETUP then SETUP else s.phase,
              waitForFinish := s.waitForFinish || explicitDone, status := if failed then Error else s.status)
    case Load => s.(allLoaded := true)
    case EndWait => s.(waitForFinish := false)
    case HarnessTimeout => s.(status := Late)
    case PageError => s.(status := Error)
    case _ =>
      if exists i :: 0 <= i < |s.tests| && Closes(s, e, i) then
        s.(tests := Step(s, e).tests, phase := HAVE_RESULTS, numPending := s.numPending - 1)
      else s.(tests := Step(s, e).tests)
  }

  /** Before completion a step does to the rest of the harness what it notes, and completes when all is done then; a
      timeout and an uncaught error complete at once. */
  lemma StepSettled(s: State, e: Event)
    requires Sound(s) && Enabled(s, e) && s.phase < COMPLETE
    ensures !e.HarnessTimeout? && !e.PageError? ==> Settled(Noted(s, e), Step(s, e))
    ensures e.HarnessTimeout? || e.PageError? ==>
      Step(s, e).phase == COMPLETE && Step(s, e).status == Noted(s, e).status
    ensures e.HarnessTimeout? || e.PageError? ==>
      && Step(s, e).allLoaded == s.allLoaded && Step(s, e).waitForFinish == s.waitForFinish
      && Step(s, e).tests == s.tests && Step(s, e).numPending == s.numPending
  {
    hide Finish, Result, Undone, Count;
    match e
    case Load => FinishStatus(s.(allLoaded := true));
    case EndWait => FinishStatus(s.(waitForFinish := false));
    case HarnessTimeout => FinishStatus(s.(status := Late));
    case PageError => FinishStatus(s.(status := Error));
    case Register => RegisterSettled(s);
    case Setup(_, _) => SetupSettled(s, e);
    case _ => TestSettled(s, e);
  }

  lemma RegisterSettled(s: State)
    requires Sound(s) && s.phase < COMPLETE
    ensures Settled(Noted(s, Register), Step(s, Register))
  {
    UndoneNat(s.tests);
  }

  lemma UndoneNat(tests: seq<Test>)
    ensures Undone(tests) >= 0
  {}

  lemma SetupSettled(s: State, e: Event)
    requires Sound(s) && s.phase < COMPLETE && e.Setup?
    ensures Settled(Noted(s, e), Step(s, e))
  {}

  /** A step on one test. */
  lemma TestSettled(s: State, e: Event)
    requires Sound(s) && Enabled(s, e) && s.phase < COMPLETE
    requires e.BeginStep? || e.Throw? || e.TestDone? || e.TestTimeout?
    ensures Settled(Noted(s, e), Step(s, e))
  {
    hide Finish, Result, Undone, Count;
    var i := e.test;
    assert TestSound(s.tests[i]);
    if Closes(s, e, i) {
      var t := if e.TestDone? then s.tests[i] else if e.Throw? then s.tests[i].(status := Fail)
               else s.tests[i].(status := TimedOut, timer := Never);
      var u := s.(tests := s.tests[i := t]);
      assert s.tests[i := s.tests[i]] == s.tests;
      ResultSettled(u.(tests := u.tests[i := DoneTest(t)]), i);
      assert Step(s, e) == Result(u.(tests := u.tests[i := DoneTest(t)]), i);
    } else {
      assert forall k :: 0 <= k < |s.tests| ==> !Closes(s, e, k);
    }
  }

  /** The step n marked the harness, and none has done so since, up to step k. */
  predicate LastMark(states: seq<State>, events: seq<Event>, n: nat, k: nat)
    requires n < k <= |events| < |states|
  {
    Marks(states[n], events[n]) && forall m :: n < m < k ==> !Marks(states[m], events[m])
  }

  lemma StepStatus(s: State, e: Event)
    requires Sound(s) && Enabled(s, e) && (s.phase == COMPLETE ==> s.status != Unset)
    ensures Step(s, e).status ==
      if e.HarnessTimeout? then Late
      else if Marks(s, e) then Error
      else if s.status == Unset && Step(s, e).phase == COMPLETE then Ok
      else s.status
  {
    hide Finish, Done, Undone, Count, Settled;
    if s.phase < COMPLETE {
      StepSettled(s, e);
      SettledStatus(s, e);
    } else {
      LateStatus(s, e);
    }
  }

  lemma SettledStatus(s: State, e: Event)
    requires INITIAL <= s.phase < COMPLETE && Enabled(s, e)
    requires !e.HarnessTimeout? && !e.PageError? ==> Settled(Noted(s, e), Step(s, e))
    requires e.HarnessTimeout? || e.PageError? ==>
      Step(s, e).phase == COMPLETE && Step(s, e).status == Noted(s, e).status
    ensures Step(s, e).status ==
      if e.HarnessTimeout? then Late
      else if Marks(s, e) then Error
      else if s.status == Unset && Step(s, e).phase == COMPLETE then Ok
      else s.status
  {
    hide Step;
    assert Noted(s, e).phase < COMPLETE;
  }

  /** After completion. */
  lemma LateStatus(s: State, e: Event)
    requires Enabled(s, e) && s.phase == COMPLETE && s.status != Unset
    ensures Step(s, e).phase == COMPLETE
    ensures Step(s, e).status == if e.HarnessTimeout? then Late else if Marks(s, e) then Error else s.status
  {}

  /** In every state of every run the status of the harness is that of the last timeout, uncaught error or failed setup;
      where there has been none it is unset until completion, and then it is good. */
  lemma {:induction false} StatusExact(states: seq<State>, events: seq<Event>, k: nat)
    requires IsRun(states, events) && k < |states|
    ensures forall n :: 0 <= n < k && LastMark(states, events, n, k) ==>
      states[k].status == if events[n].HarnessTimeout? then Late else Error
    ensures (forall n :: 0 <= n < k ==> !Marks(states[n], events[n])) ==>
      states[k].status == if states[k].phase == COMPLETE then Ok else Unset
    ensures states[k].phase == COMPLETE ==> states[k].status != Unset
  {
    hide Step, Enabled, Sound;
    if k > 0 {
      var s, e := states[k - 1], events[k - 1];
      StatusExact(states, events, k - 1);
      RunSound(states, events, k - 1);
      RunRises(states, events, k - 1, k);
      StepStatus(s, e);
      forall n | 0 <= n < k && LastMark(states, events, n, k)
        ensures states[k].status == if events[n].HarnessTimeout? then Late else Error
      {
        if n < k - 1 {
          assert LastMark(states, events, n, k - 1) && !Marks(s, e);
        }
      }
    }
  }

  // ---------- when the harness completes ----------

  predicate AllTestsDone(s: State) { forall i :: 0 <= i < |s.tests| ==> s.tests[i].isDone }

  lemma {:induction false} UndoneZero(tests: seq<Test>)
    ensures Undone(tests) == 0 <==> forall i :: 0 <= i < |tests| ==> tests[i].isDone
  {
    if tests != [] {
      var most := tests[..|tests| - 1];
      UndoneZero(most);
      assert forall i :: 0 <= i < |most| ==> most[i] == tests[i];
    }
  }

  /** The count of open tests is right also where the step completes the harness. */
  lemma StepBooks(s: State, e: Event)
    requires Sound(s) && Enabled(s, e) && s.phase < COMPLETE
    ensures Noted(s, e).numPending == Undone(Noted(s, e).tests)
  {
    hide Finish, Count, Reported, Result;
    if e.BeginStep? || e.Throw? || e.TestDone? || e.TestTimeout? {
      var i := e.test;
      assert TestSound(s.tests[i]);
      TestBooks(s, e, i);
    } else if e.Register? {
      PushUndone(s.tests);
    }
  }

  lemma TestBooks(s: State, e: Event, i: nat)
    requires Enabled(s, e) && (e.BeginStep? || e.Throw? || e.TestDone? || e.TestTimeout?) && i == e.test
    requires s.phase < COMPLETE && s.numPending == Undone(s.tests) && TestSound(s.tests[i])
    ensures Noted(s, e).numPending == Undone(Noted(s, e).tests)
  {
    hide Undone, Finish, Result;
    TestsOf(s, e, i);
    UndoneUpdate(s.tests, i, Step(s, e).tests[i]);
    StepVerdict(s, e, i);
    assert Closes(s, e, i) <==> exists k :: 0 <= k < |s.tests| && Closes(s, e, k);
  }

  lemma TestsOf(s: State, e: Event, i: nat)
    requires Enabled(s, e) && (e.BeginStep? || e.Throw? || e.TestDone? || e.TestTimeout?) && i == e.test
    ensures |Step(s, e).tests| == |s.tests| && Step(s, e).tests == s.tests[i := Step(s, e).tests[i]]
  {
    hide Done, Finish;
    match e
    case Throw(k, v) =>
      if s.tests[k].status == NotRun && !Unreadable(v) { DoneTests(SetStatus(s, k, Fail), k); }
    case TestDone(k) => DoneTests(s, k);
    case TestTimeout(k) =>
      DoneTests(s.(tests := s.tests[k := s.tests[k].(status := TimedOut, timer := Never)]), k);
    case BeginStep(_) =>
  }

  /** The page has loaded before step k. */
  ghost predicate Loaded(events: seq<Event>, k: nat)
    requires k <= |events|
  {
    exists n :: 0 <= n < k && events[n].Load?
  }

  /** Before step k a setup that still counted asked to wait, and the end of that has not been called. */
  ghost predicate Waits(states: seq<State>, events: seq<Event>, k: nat)
    requires k <= |events| < |states|
  {
    exists n :: 0 <= n < k && AsksToWait(states[n], events[n]) && forall m :: n < m < k ==> !events[m].EndWait?
  }

  predicate AsksToWait(s: State, e: Event) { e.Setup? && e.explicitDone && s.phase < HAVE_RESULTS }

  lemma StepWaits(s: State, e: Event)
    requires Sound(s) && Enabled(s, e)
    ensures Step(s, e).allLoaded == (s.allLoaded || e.Load?)
    ensures Step(s, e).waitForFinish == (!e.EndWait? && (s.waitForFinish || AsksToWait(s, e)))
  {
    hide Finish, Done, Undone, Count, Settled;
    if s.phase < COMPLETE {
      StepSettled(s, e);
      SettledWaits(s, e);
    } else {
      LateWaits(s, e);
    }
  }

  lemma SettledWaits(s: State, e: Event)
    requires s.phase < COMPLETE && Enabled(s, e)
    requires !e.HarnessTimeout? && !e.PageError? ==> Settled(Noted(s, e), Step(s, e))
    requires e.HarnessTimeout? || e.PageError? ==>
      Step(s, e).allLoaded == s.allLoaded && Step(s, e).waitForFinish == s.waitForFinish
    ensures Step(s, e).allLoaded == (s.allLoaded || e.Load?)
    ensures Step(s, e).waitForFinish == (!e.EndWait? && (s.waitForFinish || AsksToWait(s, e)))
  {
    hide Step;
  }

  lemma LateWaits(s: State, e: Event)
    requires Enabled(s, e) && s.phase == COMPLETE
    ensures Step(s, e).allLoaded == (s.allLoaded || e.Load?)
    ensures Step(s, e).waitForFinish == (!e.EndWait? && (s.waitForFinish || AsksToWait(s, e)))
  {}

  lemma {:induction false} RunWaits(states: seq<State>, events: seq<Event>, k: nat)
    requires IsRun(states, events) && k < |states|
    ensures states[k].allLoaded == Loaded(events, k) && states[k].waitForFinish == Waits(states, events, k)
  {
    hide Step, Enabled, Sound, AsksToWait;
    if k > 0 {
      var s, e := states[k - 1], events[k - 1];
      RunWaits(states, events, k - 1);
      RunSound(states, events, k - 1);
      StepWaits(s, e);
      if n :| 0 <= n < k && events[n].Load? { assert n < k - 1 || n == k - 1; }
      WaitsStep(states, events, k);
    }
  }

  lemma WaitsStep(states: seq<State>, events: seq<Event>, k: nat)
    requires 0 < k <= |events| < |states|
    ensures Waits(states, events, k) <==>
      !events[k - 1].EndWait? && (Waits(states, events, k - 1) || AsksToWait(states[k - 1], events[k - 1]))
  {
    if Waits(states, events, k) {
      var n :| 0 <= n < k && AsksToWait(states[n], events[n]) && forall m :: n < m < k ==> !events[m].EndWait?;
      assert n < k - 1 || n == k - 1;
    }
    if Waits(states, events, k - 1) && !events[k - 1].EndWait? {
      var n :| 0 <= n < k - 1 && AsksToWait(states[n], events[n]) &&
               forall m :: n < m < k - 1 ==> !events[m].EndWait?;
      assert forall m :: n < m < k ==> !events[m].EndWait?;
    }
  }

  /** A step of a run completes the harness exactly if it is a timeout or an uncaught error, or if after it the page has
      loaded, nobody asked to wait or the wait has been ended, and every test is done. */
  lemma CompletesExact(states: seq<State>, events: seq<Event>, k: nat)
    requires IsRun(states, events) && k < |events| && states[k].phase < COMPLETE
    ensures states[k + 1].phase == COMPLETE <==>
      || events[k].HarnessTimeout? || events[k].PageError?
      || (Loaded(events, k + 1) && !Waits(states, events, k + 1) && AllTestsDone(states[k + 1]))
  {
    hide Step, Sound, Noted, Loaded, Waits;
    var s, e := states[k], events[k];
    assert Enabled(s, e);
    RunSound(states, events, k);
    RunWaits(states, events, k + 1);
    StepSettled(s, e);
    StepBooks(s, e);
    UndoneZero(states[k + 1].tests);
    NotedPhase(s, e);
  }

  lemma NotedPhase(s: State, e: Event)
    requires Enabled(s, e) && s.phase < COMPLETE
    ensures Noted(s, e).phase < COMPLETE
  {}

  // ---------- phases ----------

  predicate SomeTestDone(s: State) { exists i :: 0 <= i < |s.tests| && s.tests[i].isDone }

  ghost predicate SetUpOnce(events: seq<Event>, k: nat)
    requires k <= |events|
  {
    exists n :: 0 <= n < k && events[n].Setup?
  }

  /** Until completion the phase is given by what has happened: a test is done, one is registered, setup was called. */
  lemma {:induction false} PhaseExact(states: seq<State>, events: seq<Event>, k: nat)
    requires IsRun(states, events) && k < |states| && states[k].phase < COMPLETE
    ensures states[k].phase ==
      if SomeTestDone(states[k]) then HAVE_RESULTS
      else if states[k].tests != [] then HAVE_TESTS
      else if SetUpOnce(events, k) then SETUP
      else INITIAL
  {
    hide Step, Sound, Noted, SomeTestDone;
    if k > 0 {
      var s, e := states[k - 1], events[k - 1];
      RunRises(states, events, k - 1, k);
      PhaseExact(states, events, k - 1);
      RunSound(states, events, k - 1);
      assert Enabled(s, e);
      StepPhase(s, e);
      if n :| 0 <= n < k && events[n].Setup? { assert n < k - 1 || n == k - 1; }
    } else {
      assert !SomeTestDone(START) by { NoTests(); }
    }
  }

  lemma NoTests()
    ensures !SomeTestDone(START)
  {}

  lemma StepPhase(s: State, e: Event)
    requires Sound(s) && Enabled(s, e) && s.phase < COMPLETE && Step(s, e).phase < COMPLETE
    requires SomeTestDone(s) ==> s.phase == HAVE_RESULTS
    requires !SomeTestDone(s) ==> s.phase < HAVE_RESULTS && (s.tests != [] ==> s.phase == HAVE_TESTS)
    ensures var t := Step(s, e);
      && (t.tests == [] <==> s.tests == [] && !e.Register?) && (SomeTestDone(s) ==> SomeTestDone(t))
      && t.phase ==
           if SomeTestDone(t) then HAVE_RESULTS
           else if t.tests != [] then HAVE_TESTS
           else if e.Setup? && s.phase < SETUP then SETUP
           else s.phase
  {
    hide Finish, Done, Result, Undone, Count, Reported, Step;
    StepSettled(s, e);
    StepNew(s, e);
    forall i | 0 <= i < |s.tests|
      ensures i < |Step(s, e).tests| && Step(s, e).tests[i].isDone == (s.tests[i].isDone || Closes(s, e, i))
    {
      StepVerdict(s, e, i);
    }
    var t := Step(s, e);
    if SomeTestDone(s) {
      var i :| 0 <= i < |s.tests| && s.tests[i].isDone;
      assert t.tests[i].isDone;
    }
    if i :| 0 <= i < |s.tests| && Closes(s, e, i) { assert t.tests[i].isDone; }
    if SomeTestDone(t) {
      var i :| 0 <= i < |t.tests| && t.tests[i].isDone;
      assert i < |s.tests|;
    }
  }
}
