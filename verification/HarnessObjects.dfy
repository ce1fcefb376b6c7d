/** The two objects of the harness, changed in place, proved against the steps of the model. */
module HarnessObjects {
  import opened HarnessModel

  class TestObject {
    const id: nat
    var status: Status
    var isDone: bool
    var timer: Timer

    constructor (id: nat)
      ensures this.id == id && Value() == NewTest()
    {
      this.id := id;
      status, isDone, timer := NotRun, false, Never;
    }

    ghost function Value(): Test
      reads this
    {
      Test(status, isDone, timer)
    }
  }

  class Tests {
    var tests: seq<TestObject>
    var numPending: int
    var phase: int
    var allLoaded: bool
    var waitForFinish: bool
    var processingCallbacks: bool
    var status: Overall
    ghost var reported: seq<nat>
    ghost var completions: nat

    constructor ()
      ensures Valid() && Value() == START
    {
      tests, numPending, phase, allLoaded, waitForFinish := [], 0, INITIAL, false, false;
      processingCallbacks, status, reported, completions := false, Unset, [], 0;
    }

    /** A test knows its place in the list; no callback is under way. */
    ghost predicate Valid()
      reads this
    {
      !processingCallbacks && forall i :: 0 <= i < |tests| ==> tests[i].id == i
    }

    ghost function Value(): State
      reads this, tests
    {
      State(Values(tests), numPending, phase, allLoaded, waitForFinish, status, reported, completions)
    }

    method IsAllDone() returns (all: bool)
      requires Valid()
      ensures all == AllDone(Value())
    {
      all := allLoaded && numPending == 0 && !waitForFinish && !processingCallbacks;
    }

    /** The constructor of a test, and push. */
    method Register() returns (test: TestObject)
      requires Valid()
      modifies this
      ensures Valid() && fresh(test) && tests == old(tests) + [test] && Value() == Push(old(Value()))
    {
      test := new TestObject(|tests|);
      if phase < HAVE_TESTS { phase := HAVE_TESTS; }
      numPending := numPending + 1;
      tests := tests + [test];
      assert Values(tests) == old(Values(tests)) + [NewTest()];
    }

    method NotifyResult(test: TestObject)
      requires Valid()
      modifies this
      ensures Valid() && tests == old(tests) && Value() == Notify(old(Value()), test.id)
      decreases if phase == COMPLETE then 1 else 4
    {
      processingCallbacks := true;
      reported := reported + [test.id];
      processingCallbacks := false;
      var all := IsAllDone();
      if all { Complete(); }
    }

    method Complete()
      requires Valid()
      modifies this
      ensures Valid() && tests == old(tests) && Value() == Finish(old(Value()))
      decreases if phase == COMPLETE then 0 else 3
    {
      if phase == COMPLETE { return; }
      phase := COMPLETE;
      ghost var s := Value();
      var i := 0;
      while i < |tests|
        invariant i <= |tests| && Valid() && tests == old(tests) && phase == COMPLETE
        invariant NotifyUnrun(Value(), i) == NotifyUnrun(s, 0)
      {
        NotifyIfUnrun(tests[i]);
        i := i + 1;
      }
      if status == Unset { status := Ok; }
      completions := completions + 1;
    }

    /** A test that never ran is reported as such. */
    method NotifyIfUnrun(test: TestObject)
      requires Valid() && Holds(test) && phase == COMPLETE
      modifies this
      ensures Valid() && tests == old(tests) && phase == COMPLETE
      ensures NotifyUnrun(Value(), test.id + 1) == NotifyUnrun(old(Value()), test.id)
      decreases 2
    {
      assert Value().tests[test.id] == test.Value();
      if test.status == NotRun { NotifyResult(test); }
    }

    method ReportResult(test: TestObject)
      requires Valid()
      modifies this
      ensures Valid() && tests == old(tests) && Value() == Result(old(Value()), test.id)
    {
      if phase > HAVE_RESULTS { return; }
      phase := HAVE_RESULTS;
      numPending := numPending - 1;
      NotifyResult(test);
    }

    ghost predicate Holds(test: TestObject)
      reads this
    {
      test.id < |tests| && tests[test.id] == test
    }

    /** done of a test. */
    method FinishTest(test: TestObject)
      requires Valid() && Holds(test)
      modifies this, test
      ensures Valid() && tests == old(tests) && Value() == Done(old(Value()), test.id)
    {
      if test.isDone { return; }
      if test.timer == Pending { test.timer := Cleared; }
      if test.status == NotRun { test.status := Pass; }
      test.isDone := true;
      ValuesUpdate(tests, old(Values(tests)), test.id);
      ReportResult(test);
    }

    /** A step up to the call of the test's function: whether it is called at all, and its time limit. */
    method BeginTestStep(test: TestObject) returns (run: bool)
      requires Valid() && Holds(test)
      modifies test
      ensures Valid() && run == (old(test.status) == NotRun)
      ensures Value() == Step(old(Value()), BeginStep(test.id))
    {
      if test.status != NotRun { return false; }
      run := true;
      if test.timer == Never { test.timer := Pending; }
      ValuesUpdate(tests, old(Values(tests)), test.id);
    }

    /** What a step does when the function has thrown. Where recording the value throws again, the rest is
        skipped. */
    method EndTestStep(test: TestObject, e: Thrown)
      requires Valid() && Holds(test)
      modifies this, test
      ensures Valid() && tests == old(tests) && Value() == Step(old(Value()), Throw(test.id, e))
    {
      if test.status != NotRun { return; }
      test.status := Fail;
      ValuesUpdate(tests, old(Values(tests)), test.id);
      var recorded := Record(e);
      if recorded { FinishTest(test); }
    }

    /** The message, and the stack after it when it is there and the message is a string. */
    method Record(e: Thrown) returns (ok: bool)
      ensures ok == !Unreadable(e)
    {
      if e.ObjectValue? && e.message.Raises? { return false; }
      if e.Nullish? { return false; }
      if e.Primitive? { return true; }
      if e.stack.Raises? { return false; }
      if !e.stack.Absent? {
        if e.message.Raises? { return false; }
        if e.message.Str? {
          if e.FunctionValue? && !e.hasText { return false; }
          if e.stack == Odd(false) { return false; }
        }
      }
      return true;
    }

    method TimeoutTest(test: TestObject)
      requires Valid() && Holds(test) && test.timer == Pending
      modifies this, test
      ensures Valid() && tests == old(tests) && Value() == Step(old(Value()), TestTimeout(test.id))
    {
      test.status := TimedOut;
      test.timer := Never;
      ValuesUpdate(tests, old(Values(tests)), test.id);
      FinishTest(test);
    }

    method OnLoad()
      requires Valid()
      modifies this
      ensures Valid() && tests == old(tests) && Value() == Step(old(Value()), Load)
    {
      allLoaded := true;
      var all := IsAllDone();
      if all { Complete(); }
    }

    method SetUp(explicitDone: bool, failed: bool)
      requires Valid()
      modifies this
      ensures Valid() && tests == old(tests) && Value() == Step(old(Value()), Setup(explicitDone, failed))
    {
      if phase >= HAVE_RESULTS { return; }
      if phase < SETUP { phase := SETUP; }
      if explicitDone { waitForFinish := true; }
      if failed { status := Error; }
    }

    method DoneWaiting()
      requires Valid()
      modifies this
      ensures Valid() && tests == old(tests) && Value() == Step(old(Value()), EndWait)
    {
      waitForFinish := false;
      var all := IsAllDone();
      if all { Complete(); }
    }

    method TimeoutAll()
      requires Valid()
      modifies this
      ensures Valid() && tests == old(tests) && Value() == Step(old(Value()), HarnessTimeout)
    {
      status := Late;
      Complete();
    }

    method OnError()
      requires Valid()
      modifies this
      ensures Valid() && tests == old(tests) && Value() == Step(old(Value()), PageError)
    {
      status := Error;
      Complete();
    }
  }

  ghost function Values(tests: seq<TestObject>): (r: seq<Test>)
    reads tests
    ensures |r| == |tests| && forall i :: 0 <= i < |tests| ==> r[i] == tests[i].Value()
  {
    seq(|tests|, i requires 0 <= i < |tests| reads tests => tests[i].Value())
  }

  lemma ValuesUpdate(tests: seq<TestObject>, was: seq<Test>, k: nat)
    requires |was| == |tests| && k < |tests|
    requires forall i :: 0 <= i < |tests| && i != k ==> tests[i].Value() == was[i]
    ensures Values(tests) == was[k := tests[k].Value()]
  {
  }
}
