/**
 * `VintageExecutor`: runs the JUnit 4 runners below the vintage engine's
 * descriptor one after another and reports to the engine execution listener.
 * What a JUnit 4 run reports through the `RunListenerAdapter`, and whether it
 * throws, is an input to the model.
 */
module VintageExecution {
  import opened Common

  /** A caught `Throwable`, by its description. */
  type Throwable = string

  /** `TestExecutionResult`. */
  datatype TestExecutionResult = Successful | Aborted(cause: Throwable) | Failed(cause: Throwable)

  /**
   * One call on the engine execution listener: `executionStarted`,
   * `executionFinished`, `executionSkipped` or `dynamicTestRegistered`.
   */
  datatype ExecutionEvent =
    | Started(descriptor: UniqueId)
    | Finished(descriptor: UniqueId, result: TestExecutionResult)
    | Skipped(descriptor: UniqueId, reason: string)
    | DynamicTestRegistered(descriptor: UniqueId)

  /** The listener, as the ordered log of the calls it received. */
  class EngineExecutionListener {
    var events: seq<ExecutionEvent>

    constructor ()
      ensures events == []
    {
      events := [];
    }

    method ExecutionStarted(descriptor: UniqueId)
      modifies this
      ensures events == old(events) + [Started(descriptor)]
    {
      events := events + [Started(descriptor)];
    }

    method ExecutionFinished(descriptor: UniqueId, result: TestExecutionResult)
      modifies this
      ensures events == old(events) + [Finished(descriptor, result)]
    {
      events := events + [Finished(descriptor, result)];
    }

    /** The calls the `RunListenerAdapter` makes while JUnit 4 runs, in order. */
    method Report(reported: seq<ExecutionEvent>)
      modifies this
      ensures events == old(events) + reported
    {
      events := events + reported;
    }
  }

  /** A `RunnerTestDescriptor`: one JUnit 4 runner below the engine descriptor. */
  datatype RunnerTestDescriptor = RunnerTestDescriptor(uniqueId: UniqueId)

  /** The engine descriptor of an `ExecutionRequest` and its children, in order. */
  datatype ExecutionRequest = ExecutionRequest(rootId: UniqueId, children: seq<RunnerTestDescriptor>)

  /**
   * The outcome of `JUnitCore.run` for one runner: the listener calls the
   * adapter made during the run, and the throwable that escaped it, if any.
   */
  datatype RunOutcome = RunOutcome(reported: seq<ExecutionEvent>, thrown: Option<Throwable>)

  /** `TestRun.isNotStarted`: the run never reported the runner as started. */
  predicate IsNotStarted(runner: RunnerTestDescriptor, reported: seq<ExecutionEvent>) {
    Started(runner.uniqueId) !in reported
  }

  /** What `reportUnexpectedFailure` sends: a start when there was none, then the failure. */
  function UnexpectedFailureEvents(runner: RunnerTestDescriptor, reported: seq<ExecutionEvent>, t: Throwable)
    : seq<ExecutionEvent>
  {
    (if IsNotStarted(runner, reported) then [Started(runner.uniqueId)] else [])
      + [Finished(runner.uniqueId, Failed(t))]
  }

  /** Everything the listener receives while one runner executes. */
  function RunnerEvents(runner: RunnerTestDescriptor, outcome: RunOutcome): seq<ExecutionEvent> {
    match outcome.thrown
    case None => outcome.reported
    case Some(t) => outcome.reported + UnexpectedFailureEvents(runner, outcome.reported, t)
  }

  /** The events of the runners, one runner after the other. */
  function ChildrenEvents(children: seq<RunnerTestDescriptor>, junit4: RunnerTestDescriptor -> RunOutcome)
    : seq<ExecutionEvent>
  {
    if children == [] then []
    else ChildrenEvents(children[..|children| - 1], junit4)
         + RunnerEvents(children[|children| - 1], junit4(children[|children| - 1]))
  }

  /** Everything the listener receives while the engine executes. */
  function ExecutionEvents(request: ExecutionRequest, junit4: RunnerTestDescriptor -> RunOutcome)
    : seq<ExecutionEvent>
  {
    [Started(request.rootId)] + ChildrenEvents(request.children, junit4)
      + [Finished(request.rootId, Successful)]
  }

  /** `reportUnexpectedFailure`. */
  method ReportUnexpectedFailure(notStarted: bool, runner: RunnerTestDescriptor, result: TestExecutionResult,
                                 listener: EngineExecutionListener)
    modifies listener
    ensures listener.events == old(listener.events)
              + (if notStarted then [Started(runner.uniqueId)] else [])
              + [Finished(runner.uniqueId, result)]
  {
    if notStarted {
      listener.ExecutionStarted(runner.uniqueId);
    }
    listener.ExecutionFinished(runner.uniqueId, result);
  }

  /** `execute(RunnerTestDescriptor, ...)`: runs the runner and catches whatever it throws. */
  method ExecuteRunner(runner: RunnerTestDescriptor, junit4: RunnerTestDescriptor -> RunOutcome,
                       listener: EngineExecutionListener)
    modifies listener
    ensures listener.events == old(listener.events) + RunnerEvents(runner, junit4(runner))
  {
    var outcome := junit4(runner);
    listener.Report(outcome.reported);
    if outcome.thrown.Some? {
      var notStarted := IsNotStarted(runner, outcome.reported);
      ReportUnexpectedFailure(notStarted, runner, Failed(outcome.thrown.value), listener);
    }
  }

  /** `executeAllChildren`: each runner in the engine descriptor's order. */
  method ExecuteAllChildren(children: seq<RunnerTestDescriptor>, junit4: RunnerTestDescriptor -> RunOutcome,
                            listener: EngineExecutionListener)
    modifies listener
    ensures listener.events == old(listener.events) + ChildrenEvents(children, junit4)
  {
    var i := 0;
    while i < |children|
      invariant 0 <= i <= |children|
      invariant listener.events == old(listener.events) + ChildrenEvents(children[..i], junit4)
    {
      ExecuteRunner(children[i], junit4, listener);
      assert children[..i + 1][..i] == children[..i];
      i := i + 1;
    }
    assert children[..i] == children;
  }

  /** `execute(ExecutionRequest)`: starts the engine, runs its runners, finishes it successfully. */
  method Execute(request: ExecutionRequest, junit4: RunnerTestDescriptor -> RunOutcome,
                 listener: EngineExecutionListener)
    modifies listener
    ensures listener.events == old(listener.events) + ExecutionEvents(request, junit4)
  {
    listener.ExecutionStarted(request.rootId);
    ExecuteAllChildren(request.children, junit4, listener);
    listener.ExecutionFinished(request.rootId, Successful);
  }

  // ---------------------------------------------------------------------------
  // Properties of the event protocol

  /**
   * The engine is started first and finished last, and its result is
   * successful whatever happens to the runners.
   */
  lemma EngineStartsFirstAndFinishesSuccessfully(request: ExecutionRequest, junit4: RunnerTestDescriptor -> RunOutcome)
    ensures var events := ExecutionEvents(request, junit4);
      && |events| >= 2
      && events[0] == Started(request.rootId)
      && events[|events| - 1] == Finished(request.rootId, Successful)
  {
  }

  lemma {:induction false} ChildrenEventsAppend(children: seq<RunnerTestDescriptor>, more: seq<RunnerTestDescriptor>,
                                                junit4: RunnerTestDescriptor -> RunOutcome)
    ensures ChildrenEvents(children + more, junit4) == ChildrenEvents(children, junit4) + ChildrenEvents(more, junit4)
    decreases |more|
  {
    if more == [] {
      assert children + more == children;
    } else {
      var init, last := more[..|more| - 1], more[|more| - 1];
      var all := children + more;
      assert all[..|all| - 1] == children + init && all[|all| - 1] == last;
      var lastEvents := RunnerEvents(last, junit4(last));
      assert ChildrenEvents(more, junit4) == ChildrenEvents(init, junit4) + lastEvents;
      calc {
        ChildrenEvents(all, junit4);
        ChildrenEvents(children + init, junit4) + lastEvents;
        { ChildrenEventsAppend(children, init, junit4); }
        ChildrenEvents(children, junit4) + ChildrenEvents(init, junit4) + lastEvents;
        ChildrenEvents(children, junit4) + (ChildrenEvents(init, junit4) + lastEvents);
      }
    }
  }

  /**
   * Every runner executes, in the engine descriptor's order, even after a
   * runner threw: the events of runner i appear in full, right after those of
   * the runners before it.
   */
  lemma {:induction false} RunnersExecuteInOrder(request: ExecutionRequest, junit4: RunnerTestDescriptor -> RunOutcome, i: nat)
    requires i < |request.children|
    ensures var events := ExecutionEvents(request, junit4);
      var start := 1 + |ChildrenEvents(request.children[..i], junit4)|;
      var mine := RunnerEvents(request.children[i], junit4(request.children[i]));
      && start + |mine| < |events|
      && events[start..start + |mine|] == mine
  {
    var cs := request.children;
    var before, mine, after := ChildrenEvents(cs[..i], junit4), RunnerEvents(cs[i], junit4(cs[i])),
                               ChildrenEvents(cs[i + 1..], junit4);
    ChildrenEventsSplit(cs, i, junit4);
    var prefix, suffix := [Started(request.rootId)] + before, after + [Finished(request.rootId, Successful)];
    assert ExecutionEvents(request, junit4) == prefix + mine + suffix;
    SliceOfMiddle(prefix, mine, suffix);
  }

  /** The middle part of a three-part concatenation is the slice between the other two. */
  lemma SliceOfMiddle<X>(prefix: seq<X>, middle: seq<X>, suffix: seq<X>)
    ensures (prefix + middle + suffix)[|prefix|..|prefix| + |middle|] == middle
  {
    var all := prefix + middle + suffix;
    assert forall k :: 0 <= k < |middle| ==> all[|prefix| + k] == middle[k];
  }

  lemma {:induction false} ChildrenEventsSplit(cs: seq<RunnerTestDescriptor>, i: nat,
                                               junit4: RunnerTestDescriptor -> RunOutcome)
    requires i < |cs|
    ensures ChildrenEvents(cs, junit4)
         == ChildrenEvents(cs[..i], junit4) + RunnerEvents(cs[i], junit4(cs[i])) + ChildrenEvents(cs[i + 1..], junit4)
  {
    var single, rest := [cs[i]], cs[i + 1..];
    assert ChildrenEvents(single, junit4) == RunnerEvents(cs[i], junit4(cs[i])) by {
      assert single[..0] == [];
      assert ChildrenEvents(single[..0], junit4) == [];
    }
    var tail := single + rest;
    assert cs == cs[..i] + tail;
    ChildrenEventsAppend(cs[..i], tail, junit4);
    ChildrenEventsAppend(single, rest, junit4);
  }

  /** Number of occurrences of `e` in `events`. */
  function Count(events: seq<ExecutionEvent>, e: ExecutionEvent): nat {
    if events == [] then 0
    else Count(events[..|events| - 1], e) + (if events[|events| - 1] == e then 1 else 0)
  }

  lemma {:induction false} CountAppend(xs: seq<ExecutionEvent>, ys: seq<ExecutionEvent>, e: ExecutionEvent)
    ensures Count(xs + ys, e) == Count(xs, e) + Count(ys, e)
    decreases |ys|
  {
    if ys == [] {
      assert xs + ys == xs;
    } else {
      CountAppend(xs, ys[..|ys| - 1], e);
      assert (xs + ys)[..|xs + ys| - 1] == xs + ys[..|ys| - 1];
    }
  }

  lemma {:induction false} CountZeroIffAbsent(xs: seq<ExecutionEvent>, e: ExecutionEvent)
    ensures Count(xs, e) == 0 <==> e !in xs
  {
    if xs != [] {
      CountZeroIffAbsent(xs[..|xs| - 1], e);
      assert xs == xs[..|xs| - 1] + [xs[|xs| - 1]];
    }
  }

  /**
   * When a runner's run throws, the runner ends with a failed finish; a start
   * is synthesised right before it exactly when the run had not started the
   * runner, so the runner is started at least once and never a second time.
   */
  lemma UnexpectedFailureIsPaired(runner: RunnerTestDescriptor, outcome: RunOutcome)
    requires outcome.thrown.Some?
    ensures var events := RunnerEvents(runner, outcome);
      var id := runner.uniqueId;
      && events[|events| - 1] == Finished(id, Failed(outcome.thrown.value))
      && (IsNotStarted(runner, outcome.reported) ==>
            events == outcome.reported + [Started(id), Finished(id, Failed(outcome.thrown.value))])
      && (!IsNotStarted(runner, outcome.reported) ==>
            events == outcome.reported + [Finished(id, Failed(outcome.thrown.value))])
      && Count(events, Started(id))
           == (if Count(outcome.reported, Started(id)) == 0 then 1
               else Count(outcome.reported, Started(id)))
  {
    var id := runner.uniqueId;
    var t := outcome.thrown.value;
    var extra := UnexpectedFailureEvents(runner, outcome.reported, t);
    CountAppend(outcome.reported, extra, Started(id));
    CountZeroIffAbsent(outcome.reported, Started(id));
    if IsNotStarted(runner, outcome.reported) {
      assert extra == [Started(id)] + [Finished(id, Failed(t))];
      CountAppend([Started(id)], [Finished(id, Failed(t))], Started(id));
      assert [Started(id)][..0] == [];
      assert [Finished(id, Failed(t))][..0] == [];
    } else {
      assert extra == [Finished(id, Failed(t))];
      assert [Finished(id, Failed(t))][..0] == [];
    }
  }

  /** A run that throws nothing adds nothing to what the adapter reported. */
  lemma NormalRunAddsNothing(runner: RunnerTestDescriptor, outcome: RunOutcome)
    requires outcome.thrown.None?
    ensures RunnerEvents(runner, outcome) == outcome.reported
  {
  }

  /**
   * `reportUnexpectedFailure` checks only whether the runner was started: a
   * run that already finished the runner and then throws gets a second,
   * failed finish for it, with no start in between.
   */
  lemma FinishedRunnerThatThrowsFinishesAgain(runner: RunnerTestDescriptor, outcome: RunOutcome,
                                              earlier: TestExecutionResult)
    requires outcome.thrown.Some?
    requires Started(runner.uniqueId) in outcome.reported
    requires Finished(runner.uniqueId, earlier) in outcome.reported
    ensures var events := RunnerEvents(runner, outcome);
      && events == outcome.reported + [Finished(runner.uniqueId, Failed(outcome.thrown.value))]
      && Finished(runner.uniqueId, earlier) in events[..|events| - 1]
  {
    UnexpectedFailureIsPaired(runner, outcome);
    var events := RunnerEvents(runner, outcome);
    assert events[..|events| - 1] == outcome.reported;
  }
}
