/**
 * The schedule of the worker's training loop. Every framework call is an
 * opaque step whose outcome the environment decides: a sequence of `Tick`s
 * gives, for local step k, the supervisor's stop answer, how the training
 * block went, the global step it fetched and how the test block went.
 * Local steps past the end of the tick sequence find the training input
 * exhausted, as the finite epoch count guarantees.
 */
module TrainLoop {
  import opened Wrappers

  /** The triple (inds, vals, labels) the model currently reads. */
  datatype Inputs = TrainInputs | TestInputs

  /**
   * How a train or test block ended: it completed (`Ran`); its `sess.run`
   * raised `OutOfRangeError` or another exception before taking effect
   * (`OutOfRange`, `Failed`); or the run went through and the metric or
   * summary code after it raised (`RanThenFailed`).
   */
  datatype RunResult = Ran | OutOfRange | Failed | RanThenFailed

  datatype Tick = Tick(stop: bool, train: RunResult, globalStep: int, test: RunResult)

  /** Why the loop ended: supervisor stop, `OutOfRangeError`, or any other exception. */
  datatype Exit = Stopped | InputExhausted | Crashed

  datatype Event =
    | TrainOp(step: nat, detailed: bool, inputs: Inputs)
    | TrainSummary(step: nat, tag: int)
    | TestEval(step: nat, inputs: Inputs)
    | TestSummary(step: nat, tag: int)
    | SupervisorStopped
    | TrainWriterClosed
    | TestWriterClosed

  /** The `finally` block: stop the supervisor, close both summary writers. */
  const CleanupEvents: seq<Event> := [SupervisorStopped, TrainWriterClosed, TestWriterClosed]

  function ShouldStop(env: seq<Tick>, k: nat): bool {
    k < |env| && env[k].stop
  }

  function TrainRun(env: seq<Tick>, k: nat): RunResult {
    if k < |env| then env[k].train else OutOfRange
  }

  function TestRun(env: seq<Tick>, k: nat): RunResult {
    if k < |env| then env[k].test else OutOfRange
  }

  function GlobalStepAt(env: seq<Tick>, k: nat): int {
    if k < |env| then env[k].globalStep else 0
  }

  /**
   * The global step a summary of local step k is labelled with: the value
   * last fetched, by the detailed run of step k - k % 10.
   */
  function SummaryTag(env: seq<Tick>, k: nat): int {
    GlobalStepAt(env, k - k % 10)
  }

  /** Whether the block's `sess.run` went through, whatever happened after it. */
  predicate TookEffect(r: RunResult) {
    r == Ran || r == RanThenFailed
  }

  function ExitOf(r: RunResult): Exit
    requires r != Ran
  {
    if r == OutOfRange then InputExhausted else Crashed
  }

  /** Whether local step k reaches the test block and it raises. */
  predicate EndsInTestBlock(env: seq<Tick>, k: nat) {
    !ShouldStop(env, k) && TrainRun(env, k) == Ran && k % 100 == 0 && TestRun(env, k) != Ran
  }

  /** How local step k ends the loop, or None when the loop goes on to step k + 1. */
  function Outcome(env: seq<Tick>, k: nat): Option<Exit> {
    if ShouldStop(env, k) then Some(Stopped)
    else if TrainRun(env, k) != Ran then Some(ExitOf(TrainRun(env, k)))
    else if EndsInTestBlock(env, k) then Some(ExitOf(TestRun(env, k)))
    else None
  }

  /** What a block records: its run once the run went through, its summary once it completed. */
  function BlockEvents(r: RunResult, run: Event, summary: Event): seq<Event> {
    if r == Ran then [run, summary] else if r == RanThenFailed then [run] else []
  }

  /** What the train block (lines 84-95) of local step k records. */
  function TrainBlockEvents(env: seq<Tick>, k: nat): seq<Event> {
    BlockEvents(TrainRun(env, k), TrainOp(k, k % 10 == 0, TrainInputs), TrainSummary(k, SummaryTag(env, k)))
  }

  /** What the test block (lines 98-109) of local step k records. */
  function TestBlockEvents(env: seq<Tick>, k: nat): seq<Event> {
    BlockEvents(TestRun(env, k), TestEval(k, TestInputs), TestSummary(k, SummaryTag(env, k)))
  }

  /** The events of local step k, up to the point where it raises, if it does. */
  function IterationEvents(env: seq<Tick>, k: nat): seq<Event> {
    if ShouldStop(env, k) then []
    else if TrainRun(env, k) == Ran && k % 100 == 0 then TrainBlockEvents(env, k) + TestBlockEvents(env, k)
    else TrainBlockEvents(env, k)
  }

  /** The events of local steps 0 .. n - 1. */
  function Events(env: seq<Tick>, n: nat): seq<Event> {
    if n == 0 then [] else Events(env, n - 1) + IterationEvents(env, n - 1)
  }

  /** The local step at which the loop ends, searching from `from` on. */
  function FirstEnd(env: seq<Tick>, from: nat): (k: nat)
    requires from <= |env|
    ensures from <= k <= |env| && Outcome(env, k).Some?
    ensures forall j :: from <= j < k ==> Outcome(env, j).None?
    decreases |env| - from
  {
    if Outcome(env, from).Some? then from else FirstEnd(env, from + 1)
  }

  /** Step k's events come right after those of the steps before it, whatever came before the loop. */
  lemma EventsAfterStep(start: seq<Event>, env: seq<Tick>, k: nat)
    ensures start + Events(env, k + 1) == (start + Events(env, k)) + IterationEvents(env, k)
    ensures !ShouldStop(env, k) && TrainRun(env, k) == Ran && k % 100 == 0 ==>
      start + Events(env, k + 1) == ((start + Events(env, k)) + TrainBlockEvents(env, k)) + TestBlockEvents(env, k)
  {
    assert Events(env, k + 1) == Events(env, k) + IterationEvents(env, k);
  }

  /** How a step the supervisor lets run ends, block by block. */
  lemma StepOutcome(env: seq<Tick>, k: nat)
    requires !ShouldStop(env, k)
    ensures TrainRun(env, k) != Ran ==>
      && Outcome(env, k) == Some(ExitOf(TrainRun(env, k)))
      && IterationEvents(env, k) == TrainBlockEvents(env, k)
      && !EndsInTestBlock(env, k)
    ensures TrainRun(env, k) == Ran && k % 100 != 0 ==>
      && Outcome(env, k).None?
      && IterationEvents(env, k) == TrainBlockEvents(env, k)
      && !EndsInTestBlock(env, k)
    ensures TrainRun(env, k) == Ran && k % 100 == 0 ==>
      && Outcome(env, k) == (if TestRun(env, k) == Ran then None else Some(ExitOf(TestRun(env, k))))
      && IterationEvents(env, k) == TrainBlockEvents(env, k) + TestBlockEvents(env, k)
      && (EndsInTestBlock(env, k) <==> TestRun(env, k) != Ran)
  {
  }

  lemma FirstEndIsFirst(env: seq<Tick>, k: nat)
    requires k <= |env| && Outcome(env, k).Some?
    requires forall j :: 0 <= j < k ==> Outcome(env, j).None?
    ensures FirstEnd(env, 0) == k
  {
  }

  /** A step the supervisor stops records nothing and does not end in the test block. */
  lemma StoppedStepEvents(env: seq<Tick>, k: nat)
    requires ShouldStop(env, k)
    ensures Events(env, k + 1) == Events(env, k)
    ensures Outcome(env, k) == Some(Stopped) && !EndsInTestBlock(env, k)
  {
    assert IterationEvents(env, k) == [];
    assert Events(env, k) + [] == Events(env, k);
  }

  /**
   * A step that is not a multiple of 10 fetches no global step, so its
   * summaries carry the same label as those of the step before it.
   */
  lemma SameDecade(env: seq<Tick>, k: nat)
    requires k % 10 != 0
    ensures SummaryTag(env, k) == SummaryTag(env, k - 1)
  {
    assert k - 1 - (k - 1) % 10 == k - k % 10;
  }

  /** A step that runs the test block is also a detailed step. */
  lemma {:induction false} HundredIsTen(k: nat)
    requires k % 100 == 0
    ensures k % 10 == 0
    decreases k
  {
    if k >= 100 {
      HundredIsTen(k - 100);
    }
  }

  /**
   * An event the loop body may record: a train op on the train triple,
   * detailed exactly at multiples of 10, a test evaluation on the test
   * triple at a multiple of 100, or a summary; never a cleanup event.
   */
  ghost predicate LoopEvent(e: Event) {
    && !e.SupervisorStopped? && !e.TrainWriterClosed? && !e.TestWriterClosed?
    && (e.TrainOp? ==> (e.detailed <==> e.step % 10 == 0) && e.inputs == TrainInputs)
    && (e.TestEval? ==> e.step % 100 == 0 && e.inputs == TestInputs)
  }

  lemma {:induction false} EventsPrefix(env: seq<Tick>, m: nat, n: nat)
    requires m <= n
    ensures |Events(env, m)| <= |Events(env, n)|
    ensures forall i :: 0 <= i < |Events(env, m)| ==> Events(env, n)[i] == Events(env, m)[i]
    decreases n - m
  {
    if m < n {
      EventsPrefix(env, m, n - 1);
      var prev := Events(env, n - 1);
      assert Events(env, n) == prev + IterationEvents(env, n - 1);
    }
  }

  /** A block's events are its run and its summary, the run first. */
  lemma BlockEventsFrom(r: RunResult, run: Event, summary: Event)
    ensures forall e :: e in BlockEvents(r, run, summary) ==> e == run || e == summary
    ensures TookEffect(r) ==> |BlockEvents(r, run, summary)| >= 1 && BlockEvents(r, run, summary)[0] == run
    ensures !TookEffect(r) ==> BlockEvents(r, run, summary) == []
  {
  }

  lemma IterationEventsAreLoopEvents(env: seq<Tick>, k: nat)
    ensures forall e :: e in IterationEvents(env, k) ==> LoopEvent(e)
  {
    var it, train, test := IterationEvents(env, k), TrainBlockEvents(env, k), TestBlockEvents(env, k);
    var trainOp, trainSummary := TrainOp(k, k % 10 == 0, TrainInputs), TrainSummary(k, SummaryTag(env, k));
    var testEval, testSummary := TestEval(k, TestInputs), TestSummary(k, SummaryTag(env, k));
    BlockEventsFrom(TrainRun(env, k), trainOp, trainSummary);
    BlockEventsFrom(TestRun(env, k), testEval, testSummary);
    assert LoopEvent(trainOp) && LoopEvent(trainSummary) && LoopEvent(testSummary);
    if ShouldStop(env, k) {
      assert it == [];
    } else if TrainRun(env, k) == Ran && k % 100 == 0 {
      assert it == train + test;
      assert LoopEvent(testEval);
    } else {
      assert it == train;
    }
  }

  lemma IterationTestEvalPaired(env: seq<Tick>, k: nat)
    ensures TestEval(k, TestInputs) in IterationEvents(env, k) ==>
      TrainOp(k, true, TrainInputs) in IterationEvents(env, k)
    ensures forall e :: e in IterationEvents(env, k) && e.TestEval? ==> e == TestEval(k, TestInputs)
  {
    var it, train, test := IterationEvents(env, k), TrainBlockEvents(env, k), TestBlockEvents(env, k);
    var trainOp, trainSummary := TrainOp(k, k % 10 == 0, TrainInputs), TrainSummary(k, SummaryTag(env, k));
    var testEval, testSummary := TestEval(k, TestInputs), TestSummary(k, SummaryTag(env, k));
    BlockEventsFrom(TrainRun(env, k), trainOp, trainSummary);
    BlockEventsFrom(TestRun(env, k), testEval, testSummary);
    if ShouldStop(env, k) {
      assert it == [];
    } else if TrainRun(env, k) == Ran && k % 100 == 0 {
      assert it == train + test;
      HundredIsTen(k);
      assert it[0] == train[0] == TrainOp(k, true, TrainInputs);
    } else {
      assert it == train;
    }
  }

  /**
   * Within one step: every event keeps the schedule, and a test evaluation
   * is that step's and comes with the step's detailed train op.
   */
  lemma IterationFollowsSchedule(env: seq<Tick>, k: nat)
    ensures forall e :: e in IterationEvents(env, k) ==> LoopEvent(e)
    ensures TestEval(k, TestInputs) in IterationEvents(env, k) ==>
      TrainOp(k, true, TrainInputs) in IterationEvents(env, k)
    ensures forall e :: e in IterationEvents(env, k) ==> e.TrainOp? || e.TrainSummary? || e.TestEval? || e.TestSummary?
    ensures forall e :: e in IterationEvents(env, k) && e.TestEval? ==> e == TestEval(k, TestInputs)
  {
    IterationEventsAreLoopEvents(env, k);
    IterationTestEvalPaired(env, k);
  }

  /** Every event of the first n steps was recorded by one of them. */
  lemma {:induction false} EventOrigin(env: seq<Tick>, n: nat, e: Event)
    requires e in Events(env, n)
    ensures exists j :: 0 <= j < n && e in IterationEvents(env, j)
  {
    assert Events(env, n) == Events(env, n - 1) + IterationEvents(env, n - 1);
    if e in Events(env, n - 1) {
      EventOrigin(env, n - 1, e);
    }
  }

  /** An event recorded by step j stays in the trace of every later step count. */
  lemma StepEventKept(env: seq<Tick>, j: nat, n: nat, e: Event)
    requires j < n && e in IterationEvents(env, j)
    ensures e in Events(env, n)
  {
    assert Events(env, j + 1) == Events(env, j) + IterationEvents(env, j);
    EventKept(env, j + 1, n, e);
  }

  lemma EventsAreLoopEvents(env: seq<Tick>, n: nat)
    ensures forall e :: e in Events(env, n) ==> LoopEvent(e)
  {
    forall e | e in Events(env, n)
      ensures LoopEvent(e)
    {
      EventOrigin(env, n, e);
      var j :| 0 <= j < n && e in IterationEvents(env, j);
      IterationEventsAreLoopEvents(env, j);
    }
  }

  lemma TestEvalsFollowDetailedOps(env: seq<Tick>, n: nat)
    ensures forall e :: e in Events(env, n) && e.TestEval? ==>
      TrainOp(e.step, true, TrainInputs) in Events(env, n)
  {
    forall e | e in Events(env, n) && e.TestEval?
      ensures TrainOp(e.step, true, TrainInputs) in Events(env, n)
    {
      EventOrigin(env, n, e);
      var j :| 0 <= j < n && e in IterationEvents(env, j);
      IterationTestEvalPaired(env, j);
      StepEventKept(env, j, n, TrainOp(j, true, TrainInputs));
    }
  }

  /**
   * Every event of the loop obeys the schedule: train ops run on the train
   * inputs, detailed exactly at multiples of 10; test evaluations run on the
   * test inputs only at multiples of 100, each after the detailed train op
   * of the same step; the loop itself never stops the supervisor or closes
   * a writer.
   */
  lemma EventsFollowSchedule(env: seq<Tick>, n: nat)
    ensures forall e :: e in Events(env, n) ==> LoopEvent(e)
    ensures forall e :: e in Events(env, n) && e.TestEval? ==>
      TrainOp(e.step, true, TrainInputs) in Events(env, n)
  {
    EventsAreLoopEvents(env, n);
    TestEvalsFollowDetailedOps(env, n);
  }

  /** A step that completes runs its train block and, when 100 divides it, its test block. */
  lemma CompletedIteration(env: seq<Tick>, k: nat)
    requires Outcome(env, k).None?
    ensures !ShouldStop(env, k) && TrainRun(env, k) == Ran
    ensures TrainBlockEvents(env, k) == [TrainOp(k, k % 10 == 0, TrainInputs), TrainSummary(k, SummaryTag(env, k))]
    ensures k % 100 == 0 ==> TestBlockEvents(env, k) == [TestEval(k, TestInputs), TestSummary(k, SummaryTag(env, k))]
    ensures k % 100 == 0 ==> IterationEvents(env, k) == TrainBlockEvents(env, k) + TestBlockEvents(env, k)
    ensures k % 100 != 0 ==> IterationEvents(env, k) == TrainBlockEvents(env, k)
  {
  }

  lemma {:induction false} EventKept(env: seq<Tick>, m: nat, n: nat, e: Event)
    requires m <= n && e in Events(env, m)
    ensures e in Events(env, n)
  {
    EventsPrefix(env, m, n);
    var i :| 0 <= i < |Events(env, m)| && Events(env, m)[i] == e;
    assert Events(env, n)[i] == e;
  }

  /** A completed step leaves its train op and, at a multiple of 100, its test evaluation. */
  lemma StepEventsRecorded(env: seq<Tick>, k: nat)
    requires Outcome(env, k).None?
    ensures TrainOp(k, k % 10 == 0, TrainInputs) in Events(env, k + 1)
    ensures k % 100 == 0 ==> TestEval(k, TestInputs) in Events(env, k + 1)
  {
    var before, it, upto := Events(env, k), IterationEvents(env, k), Events(env, k + 1);
    assert upto == before + it;
    CompletedIteration(env, k);
    assert upto[|before|] == it[0] == TrainOp(k, k % 10 == 0, TrainInputs);
    if k % 100 == 0 {
      assert upto[|before| + 2] == it[2] == TestEval(k, TestInputs);
    }
  }

  lemma TestEvalOnlyAtHundreds(env: seq<Tick>, n: nat, k: nat)
    requires TestEval(k, TestInputs) in Events(env, n)
    ensures k % 100 == 0
  {
    EventsFollowSchedule(env, n);
    assert LoopEvent(TestEval(k, TestInputs));
  }

  /** Once step k has completed, its train op and, iff 100 divides k, its test evaluation are in the trace. */
  lemma CompletedStepEvents(env: seq<Tick>, n: nat, k: nat)
    requires k < n
    requires Outcome(env, k).None?
    ensures TrainOp(k, k % 10 == 0, TrainInputs) in Events(env, n)
    ensures TestEval(k, TestInputs) in Events(env, n) <==> k % 100 == 0
  {
    StepEventsRecorded(env, k);
    EventKept(env, k + 1, n, TrainOp(k, k % 10 == 0, TrainInputs));
    if k % 100 == 0 {
      EventKept(env, k + 1, n, TestEval(k, TestInputs));
    } else if TestEval(k, TestInputs) in Events(env, n) {
      TestEvalOnlyAtHundreds(env, n, k);
    }
  }

  function OwnStep(e: Event): seq<nat> {
    if e.TrainOp? then [e.step] else []
  }

  /** The local steps of the train ops in `events`, in order. */
  function TrainOpSteps(events: seq<Event>): seq<nat> {
    if events == [] then [] else OwnStep(events[0]) + TrainOpSteps(events[1..])
  }

  lemma {:induction false} TrainOpStepsAppend(a: seq<Event>, b: seq<Event>)
    ensures TrainOpSteps(a + b) == TrainOpSteps(a) + TrainOpSteps(b)
    decreases |a|
  {
    if a == [] {
      assert a + b == b;
    } else {
      var ab := a + b;
      assert ab[0] == a[0] && ab[1..] == a[1..] + b;
      TrainOpStepsAppend(a[1..], b);
      calc {
        TrainOpSteps(ab);
        OwnStep(a[0]) + TrainOpSteps(a[1..] + b);
        OwnStep(a[0]) + (TrainOpSteps(a[1..]) + TrainOpSteps(b));
        (OwnStep(a[0]) + TrainOpSteps(a[1..])) + TrainOpSteps(b);
      }
    }
  }

  lemma TrainOpStepsPair(x: Event, y: Event)
    ensures TrainOpSteps([x, y]) == OwnStep(x) + OwnStep(y)
  {
    assert [x, y][1..] == [y];
    assert [y][1..] == [];
    assert TrainOpSteps([y]) == OwnStep(y) + [];
    assert OwnStep(y) + [] == OwnStep(y);
  }

  lemma TrainOpStepsSingle(x: Event)
    ensures TrainOpSteps([x]) == OwnStep(x)
  {
    assert [x][1..] == [];
    assert TrainOpSteps([x]) == OwnStep(x) + [];
  }

  /** The train ops of a block: its run's, once the run went through. */
  lemma BlockTrainOps(r: RunResult, run: Event, summary: Event)
    requires !summary.TrainOp?
    ensures TrainOpSteps(BlockEvents(r, run, summary)) == if TookEffect(r) then OwnStep(run) else []
  {
    TrainOpStepsPair(run, summary);
    TrainOpStepsSingle(run);
    assert OwnStep(run) + [] == OwnStep(run);
  }

  lemma IterationTrainOps(env: seq<Tick>, k: nat)
    ensures TrainOpSteps(IterationEvents(env, k)) == if !ShouldStop(env, k) && TookEffect(TrainRun(env, k)) then [k] else []
  {
    var train, test := TrainBlockEvents(env, k), TestBlockEvents(env, k);
    BlockTrainOps(TrainRun(env, k), TrainOp(k, k % 10 == 0, TrainInputs), TrainSummary(k, SummaryTag(env, k)));
    BlockTrainOps(TestRun(env, k), TestEval(k, TestInputs), TestSummary(k, SummaryTag(env, k)));
    assert TrainOpSteps(test) == [];
    TrainOpStepsAppend(train, test);
    assert TrainOpSteps(train) + [] == TrainOpSteps(train);
  }

  /** A completed step adds exactly its own train op. */
  lemma CompletedStepTrainOp(env: seq<Tick>, k: nat)
    requires Outcome(env, k).None?
    ensures TrainOpSteps(Events(env, k + 1)) == TrainOpSteps(Events(env, k)) + [k]
  {
    CompletedIteration(env, k);
    IterationTrainOps(env, k);
    assert Events(env, k + 1) == Events(env, k) + IterationEvents(env, k);
    TrainOpStepsAppend(Events(env, k), IterationEvents(env, k));
  }

  /**
   * Local step i runs the i-th train op: over n completed iterations the
   * train ops belong to steps 0, 1, ..., n - 1, one each, whichever
   * branches ran.
   */
  lemma {:induction false} TrainOpsCountSteps(env: seq<Tick>, n: nat)
    requires forall j :: 0 <= j < n ==> Outcome(env, j).None?
    ensures |TrainOpSteps(Events(env, n))| == n
    ensures forall i :: 0 <= i < n ==> TrainOpSteps(Events(env, n))[i] == i
  {
    if n > 0 {
      var k := n - 1;
      assert Outcome(env, k).None?;
      TrainOpsCountSteps(env, k);
      var prev := TrainOpSteps(Events(env, k));
      CompletedStepTrainOp(env, k);
      var all := TrainOpSteps(Events(env, n));
      assert all == prev + [k];
      forall i | 0 <= i < n
        ensures all[i] == i
      {
        if i < k {
          assert all[i] == prev[i];
        }
      }
    }
  }

  function Count(events: seq<Event>, e: Event): nat {
    multiset(events)[e]
  }

  /** The loop itself never stops the supervisor or closes a writer. */
  lemma NoCleanupInLoop(env: seq<Tick>, n: nat)
    ensures SupervisorStopped !in Events(env, n)
    ensures TrainWriterClosed !in Events(env, n)
    ensures TestWriterClosed !in Events(env, n)
  {
    EventsFollowSchedule(env, n);
    assert !LoopEvent(SupervisorStopped) && !LoopEvent(TrainWriterClosed) && !LoopEvent(TestWriterClosed);
  }

  /**
   * However the loop ends, the trace the worker leaves holds exactly one
   * supervisor stop and one close of each writer, as its last three events.
   */
  lemma {:induction false} CleanupExactlyOnce(env: seq<Tick>)
    ensures var trace := Events(env, FirstEnd(env, 0) + 1) + CleanupEvents;
      && Count(trace, SupervisorStopped) == 1
      && Count(trace, TrainWriterClosed) == 1
      && Count(trace, TestWriterClosed) == 1
      && trace[|trace| - 3..] == CleanupEvents
  {
    var loop := Events(env, FirstEnd(env, 0) + 1);
    NoCleanupInLoop(env, FirstEnd(env, 0) + 1);
    var trace := loop + CleanupEvents;
    assert multiset(trace) == multiset(loop) + multiset(CleanupEvents);
    assert multiset(loop)[SupervisorStopped] == 0;
    assert multiset(loop)[TrainWriterClosed] == 0;
    assert multiset(loop)[TestWriterClosed] == 0;
    var cleanup := multiset(CleanupEvents);
    assert cleanup == multiset{SupervisorStopped, TrainWriterClosed, TestWriterClosed};
    assert cleanup[SupervisorStopped] == 1 && cleanup[TrainWriterClosed] == 1 && cleanup[TestWriterClosed] == 1;
    assert trace[|trace| - 3..] == CleanupEvents;
  }

  /**
   * The length half of `TrainOpsCountSteps`, kept apart so that callers
   * do not carry its per-index quantifier into their proof obligations.
   */
  lemma TrainOpCount(env: seq<Tick>, n: nat)
    requires forall j :: 0 <= j < n ==> Outcome(env, j).None?
    ensures |TrainOpSteps(Events(env, n))| == n
  {
    TrainOpsCountSteps(env, n);
  }

  /** Train ops after step k, when every earlier step completed. */
  lemma TrainOpsThrough(env: seq<Tick>, k: nat)
    requires forall j :: 0 <= j < k ==> Outcome(env, j).None?
    ensures |TrainOpSteps(Events(env, k + 1))| == if !ShouldStop(env, k) && TookEffect(TrainRun(env, k)) then k + 1 else k
  {
    TrainOpCount(env, k);
    var prev, last := Events(env, k), IterationEvents(env, k);
    assert Events(env, k + 1) == prev + last;
    TrainOpStepsAppend(prev, last);
    IterationTrainOps(env, k);
  }

  /**
   * The number of train ops the run performs is the returned step count,
   * plus one when the last step's train run went through before the step
   * raised: in the metric or summary code after the run, or in the test
   * block (`step += 1` is never reached for that step).
   */
  lemma TrainOpsInRun(env: seq<Tick>)
    ensures var k := FirstEnd(env, 0);
      |TrainOpSteps(Events(env, k + 1))| == if !ShouldStop(env, k) && TookEffect(TrainRun(env, k)) then k + 1 else k
  {
    TrainOpsThrough(env, FirstEnd(env, 0));
  }

  /**
   * The last step leaves a test evaluation exactly when its test run went
   * through and the metric or summary code after it raised.
   */
  lemma LastStepTestEval(env: seq<Tick>)
    ensures var k := FirstEnd(env, 0);
      TestEval(k, TestInputs) in IterationEvents(env, k) <==> EndsInTestBlock(env, k) && TestRun(env, k) == RanThenFailed
  {
    var k := FirstEnd(env, 0);
    var it, train, test := IterationEvents(env, k), TrainBlockEvents(env, k), TestBlockEvents(env, k);
    var testEval := TestEval(k, TestInputs);
    BlockEventsFrom(TrainRun(env, k), TrainOp(k, k % 10 == 0, TrainInputs), TrainSummary(k, SummaryTag(env, k)));
    BlockEventsFrom(TestRun(env, k), testEval, TestSummary(k, SummaryTag(env, k)));
    assert testEval !in train;
    if !ShouldStop(env, k) && TrainRun(env, k) == Ran && k % 100 == 0 {
      assert it == train + test;
      if TestRun(env, k) == RanThenFailed {
        assert it[|train|] == testEval;
      }
    }
  }

  /** A step that completes extends the run of steps without an outcome. */
  lemma NoOutcomeYetExtends(env: seq<Tick>, k: nat)
    requires forall j :: 0 <= j < k ==> Outcome(env, j).None?
    requires Outcome(env, k).None?
    ensures forall j :: 0 <= j < k + 1 ==> Outcome(env, j).None?
  {
  }

  /** The process-global state the loop drives: model input binding, writers, supervisor. */
  class TrainingSession {
    var inputs: Inputs
    var trainWriterOpen: bool
    var testWriterOpen: bool
    var supervisorRunning: bool
    var trace: seq<Event>

    /** The model is built on the train triple, both writers are open, the session is managed. */
    constructor ()
      ensures Ready() && trace == []
    {
      inputs := TrainInputs;
      trainWriterOpen := true;
      testWriterOpen := true;
      supervisorRunning := true;
      trace := [];
    }

    predicate Ready()
      reads this
    {
      inputs == TrainInputs && trainWriterOpen && testWriterOpen && supervisorRunning
    }

    /** The `finally` block. */
    method Cleanup()
      modifies this
      ensures !supervisorRunning && !trainWriterOpen && !testWriterOpen
      ensures trace == old(trace) + CleanupEvents
      ensures inputs == old(inputs)
    {
      supervisorRunning := false;
      trace := trace + [SupervisorStopped];
      trainWriterOpen := false;
      trace := trace + [TrainWriterClosed];
      testWriterOpen := false;
      trace := trace + [TestWriterClosed];
    }

    /**
     * The train block at local step `step`: a detailed run that also fetches
     * the global step at multiples of 10, a plain run otherwise, then the
     * train summary labelled with the global step last fetched.
     */
    method TrainBlock(env: seq<Tick>, step: nat, globalStep: int) returns (fetched: int, raised: Option<Exit>)
      requires inputs == TrainInputs && !ShouldStop(env, step)
      requires step > 0 ==> globalStep == SummaryTag(env, step - 1)
      modifies this`trace
      ensures trace == old(trace) + TrainBlockEvents(env, step)
      ensures raised.None? <==> TrainRun(env, step) == Ran
      ensures raised.Some? ==> raised.value == ExitOf(TrainRun(env, step))
      ensures raised.None? ==> fetched == SummaryTag(env, step) && step < |env|
    {
      fetched := globalStep;
      var run := TrainRun(env, step);
      if run == OutOfRange || run == Failed {
        return fetched, Some(ExitOf(run));
      }
      var detailed := step % 10 == 0;
      if detailed {
        fetched := env[step].globalStep;
      } else {
        SameDecade(env, step);
      }
      trace := trace + [TrainOp(step, detailed, inputs)];
      if run == RanThenFailed {
        return fetched, Some(Crashed);
      }
      trace := trace + [TrainSummary(step, fetched)];
      raised := None;
    }

    /**
     * The test block at local step `step`: bind the test triple, evaluate,
     * write the test summary labelled `tag`, bind the train triple again.
     * When it raises, the test triple stays bound.
     */
    method TestBlock(env: seq<Tick>, step: nat, tag: int) returns (raised: Option<Exit>)
      requires tag == SummaryTag(env, step)
      modifies this`trace, this`inputs
      ensures trace == old(trace) + TestBlockEvents(env, step)
      ensures raised.None? <==> TestRun(env, step) == Ran
      ensures raised.Some? ==> raised.value == ExitOf(TestRun(env, step))
      ensures inputs == if TestRun(env, step) == Ran then TrainInputs else TestInputs
    {
      inputs := TestInputs;
      var testRun := TestRun(env, step);
      if testRun == OutOfRange || testRun == Failed {
        return Some(ExitOf(testRun));
      }
      trace := trace + [TestEval(step, inputs)];
      if testRun == RanThenFailed {
        return Some(Crashed);
      }
      trace := trace + [TestSummary(step, tag)];
      inputs := TrainInputs;
      raised := None;
    }

    /**
     * One pass of the loop body at local step `step`: the train block, then,
     * at multiples of 100, the test block.
     * `globalStep` is the value last fetched; the new one is returned.
     */
    method RunStep(env: seq<Tick>, step: nat, globalStep: int, ghost start: seq<Event>)
      returns (fetched: int, raised: Option<Exit>)
      requires inputs == TrainInputs && !ShouldStop(env, step)
      requires step > 0 ==> globalStep == SummaryTag(env, step - 1)
      requires trace == start + Events(env, step)
      modifies this`trace, this`inputs
      ensures trace == start + Events(env, step + 1)
      ensures raised == Outcome(env, step)
      ensures raised.None? ==> fetched == SummaryTag(env, step) && inputs == TrainInputs && step < |env|
      ensures inputs == if EndsInTestBlock(env, step) then TestInputs else TrainInputs
    {
      EventsAfterStep(start, env, step);
      StepOutcome(env, step);
      fetched, raised := TrainBlock(env, step, globalStep);
      if raised.Some? || step % 100 != 0 {
        return;
      }
      raised := TestBlock(env, step, fetched);
    }

    /**
     * The `try` body: run steps until the supervisor stops the loop or a
     * step raises. Returns the local step counter and why the loop ended.
     */
    method RunLoop(env: seq<Tick>, initialGlobalStep: int) returns (step: nat, exit: Exit)
      requires inputs == TrainInputs
      modifies this`trace, this`inputs
      ensures step == FirstEnd(env, 0) && Outcome(env, step) == Some(exit)
      ensures trace == old(trace) + Events(env, step + 1)
      ensures inputs == if EndsInTestBlock(env, step) then TestInputs else TrainInputs
    {
      var globalStep := initialGlobalStep;
      ghost var start := trace;
      step := 0;
      exit := Stopped;
      while !ShouldStop(env, step)
        invariant step <= |env|
        invariant inputs == TrainInputs
        invariant trace == start + Events(env, step)
        invariant forall j :: 0 <= j < step ==> Outcome(env, j).None?
        invariant step > 0 ==> globalStep == SummaryTag(env, step - 1)
        decreases |env| - step
      {
        var raised;
        globalStep, raised := RunStep(env, step, globalStep, start);
        if raised.Some? {
          exit := raised.value;
          break;
        }
        NoOutcomeYetExtends(env, step);
        step := step + 1;
      }
      if ShouldStop(env, step) {
        StoppedStepEvents(env, step);
      }
      FirstEndIsFirst(env, step);
    }

    /**
     * The training loop with its cleanup. Returns the local step counter
     * when the loop ended and why it ended.
     */
    method Train(env: seq<Tick>, initialGlobalStep: int) returns (step: nat, exit: Exit)
      requires Ready()
      modifies this
      ensures step == FirstEnd(env, 0) && Outcome(env, step) == Some(exit)
      ensures trace == old(trace) + Events(env, step + 1) + CleanupEvents
      ensures inputs == if EndsInTestBlock(env, step) then TestInputs else TrainInputs
      ensures !supervisorRunning && !trainWriterOpen && !testWriterOpen
    {
      step, exit := RunLoop(env, initialGlobalStep);
      Cleanup();
    }
  }
}
