/**
 * The shutdown drain sequence of the event tracker, as values.
 *
 * `CollectorControllerProvider.mainEventTrackerShutdownHook` is a fixed
 * sequence of calls against four collaborators (the controller's accept-events
 * gate, the periodic flush executor, the disk spool writer and the event
 * sender). Some of the calls sit in a `try` block that catches one checked
 * exception; the others are unguarded. This module describes the sequence as a
 * table of stages, one stage per `try` block or unguarded statement, and gives
 * it a meaning with a small interpreter: `Drain(s)` is the trace of calls and
 * log lines the hook produces, and how it ends, when every collaborator call
 * behaves as the script `s` says.
 *
 * Beside the interpreter there is a second, declarative description of the
 * same behaviour (`FullOrder`, `CaughtAt`, `FirstFatal`): the hook makes the
 * calls of `FullOrder` in order up to and including the first one that raises
 * an exception nobody catches. The lemmas in DrainProperties connect the two.
 */
module DrainProtocol {

  datatype Option<T> = None | Some(value: T)

  /** What a collaborator call can raise, grouped the way the hook's catch clauses see it. */
  datatype Exn =
    | Interrupted  // java.lang.InterruptedException, a checked exception
    | IO           // java.io.IOException or one of its subclasses, a checked exception
    | Unchecked    // any exception neither catch clause handles; under the checked-exception rule, a RuntimeException or Error

  /** How one collaborator call ends. */
  datatype Outcome = Returns | Throws(exn: Exn)

  datatype TimeUnit = Seconds

  /** The collaborator calls the hook makes, with their arguments. */
  datatype Call =
    | GateSetAcceptEvents(accept: bool)                      // controller.setAcceptEvents(accept)
    | ExecutorShutdown                                       // executor.shutdown()
    | ExecutorAwaitTermination(timeout: nat, unit: TimeUnit) // executor.awaitTermination(timeout, unit)
    | WriterForceCommit                                      // eventWriter.forceCommit()
    | WriterProcessQuarantinedFiles                          // eventWriter.processQuarantinedFiles()
    | WriterFlush                                            // eventWriter.flush()
    | SenderClose                                            // eventSender.close()

  /** The hook's log lines, one constructor per distinct message. */
  datatype Mark =
    | StartingShutdown         // info: the sequence begins
    | StopAccepting            // info: before the gate closes
    | ShuttingDownWriters      // info: before the executor is stopped
    | InterruptedWhileWaiting  // warn: the executor wait was interrupted
    | FlushingOpenFile         // info: before the open file is committed
    | CommitFailed             // warn: the commit raised an IOException
    | PromotingQuarantined     // info: before quarantined files are promoted
    | FlushingLocalFiles       // info: before the flush to the collectors
    | FlushFailed              // warn: the flush raised an IOException
    | ClosingSender            // info: before the sender is closed
    | Terminated               // info: the sequence has terminated

  /** One entry of the observable trace: a collaborator call, or a log line. */
  datatype Event = Invoke(call: Call) | Info(mark: Mark) | Warn(mark: Mark)

  /**
   * The behaviour of the collaborators during one run of the hook: how each
   * call ends, and whether the executor's tasks finish within the wait (the
   * boolean that `awaitTermination` returns when it returns normally).
   * Setting the accept-events flag always returns.
   */
  datatype Script = Script(
    shutdown: Outcome,
    awaitTermination: Outcome,
    terminatesInTime: bool,
    forceCommit: Outcome,
    processQuarantinedFiles: Outcome,
    flush: Outcome,
    close: Outcome)

  function OutcomeOf(s: Script, c: Call): Outcome
  {
    match c
    case GateSetAcceptEvents(_) => Returns
    case ExecutorShutdown => s.shutdown
    case ExecutorAwaitTermination(_, _) => s.awaitTermination
    case WriterForceCommit => s.forceCommit
    case WriterProcessQuarantinedFiles => s.processQuarantinedFiles
    case WriterFlush => s.flush
    case SenderClose => s.close
  }

  /**
   * Java's checked-exception rule applied to the collaborators: a call raises
   * a checked exception only if its signature declares it.
   * `awaitTermination` declares InterruptedException. `forceCommit` and
   * `flush` declare IOException: the hook catches IOException around each,
   * which javac accepts only when the guarded call can raise it.
   * `ExecutorService.shutdown()` declares no checked exception, although the
   * hook calls it inside the block that catches InterruptedException.
   * `processQuarantinedFiles` and `close` are called outside any `try`, in a
   * method that declares no exceptions, so javac accepts them only if they
   * declare none. The rule is enforced by javac on the source; a sneaky throw,
   * or a collaborator compiled against another signature, can still break it
   * at run time.
   */
  function DeclaredChecked(c: Call): (e: Option<Exn>)
  {
    match c
    case ExecutorAwaitTermination(_, _) => Some(Interrupted)
    case WriterForceCommit => Some(IO)
    case WriterFlush => Some(IO)
    case _ => None
  }

  predicate Allowed(o: Outcome, declared: Option<Exn>)
  {
    o.Returns? || o.exn == Unchecked || Some(o.exn) == declared
  }

  /** The script respects Java's checked-exception rule. */
  predicate Declared(s: Script)
  {
    Allowed(s.shutdown, DeclaredChecked(ExecutorShutdown)) &&
    Allowed(s.awaitTermination, DeclaredChecked(ExecutorAwaitTermination(AwaitSeconds, Seconds))) &&
    Allowed(s.forceCommit, DeclaredChecked(WriterForceCommit)) &&
    Allowed(s.processQuarantinedFiles, DeclaredChecked(WriterProcessQuarantinedFiles)) &&
    Allowed(s.flush, DeclaredChecked(WriterFlush)) &&
    Allowed(s.close, DeclaredChecked(SenderClose))
  }

  // ---------------------------------------------------------------------------
  // The hook as a table of stages, and its interpreter
  // ---------------------------------------------------------------------------

  /** A catch clause: the exception it catches and the warning it logs. */
  datatype Handler = Handler(caught: Exn, warning: Mark)

  /**
   * One step of the hook: the info line logged before it, the calls it makes
   * in order, and the catch clause of its `try` block if it has one.
   */
  datatype Stage = Stage(announce: Mark, calls: seq<Call>, handler: Option<Handler>)

  /** The bound, in seconds, on the wait for the flush executor. */
  const AwaitSeconds: nat := 15

  const GateStage := Stage(StopAccepting, [GateSetAcceptEvents(false)], None)
  const ExecutorStage :=
    Stage(ShuttingDownWriters, [ExecutorShutdown, ExecutorAwaitTermination(AwaitSeconds, Seconds)],
          Some(Handler(Interrupted, InterruptedWhileWaiting)))
  const CommitStage := Stage(FlushingOpenFile, [WriterForceCommit], Some(Handler(IO, CommitFailed)))
  const QuarantineStage := Stage(PromotingQuarantined, [WriterProcessQuarantinedFiles], None)
  const FlushStage := Stage(FlushingLocalFiles, [WriterFlush], Some(Handler(IO, FlushFailed)))
  const CloseStage := Stage(ClosingSender, [SenderClose], None)

  /** The hook's stages in the order the hook runs them. */
  const Protocol: seq<Stage> :=
    [GateStage, ExecutorStage, CommitStage, QuarantineStage, FlushStage, CloseStage]

  /**
   * How a run ends: the hook returns normally, or an exception escapes it and
   * ends the shutdown thread.
   */
  datatype Ending = Completed | Escaped(exn: Exn)

  datatype Run = Run(events: seq<Event>, ending: Ending)

  /** The calls of a `try` block up to the first one that raises, and what it raised. */
  datatype BlockRun = BlockRun(events: seq<Event>, thrown: Option<Exn>)

  function RunCalls(calls: seq<Call>, s: Script): BlockRun
  {
    if calls == [] then BlockRun([], None)
    else
      var o := OutcomeOf(s, calls[0]);
      if o.Throws? then BlockRun([Invoke(calls[0])], Some(o.exn))
      else
        var rest := RunCalls(calls[1..], s);
        BlockRun([Invoke(calls[0])] + rest.events, rest.thrown)
  }

  /**
   * A stage logs its line, then runs its `try` block. An exception its catch
   * clause names is swallowed with the clause's warning; any other exception
   * the block raises escapes, and nothing escapes that the block did not raise.
   */
  function RunStage(st: Stage, s: Script): (r: Run)
    ensures |r.events| > 0 && r.events[0] == Info(st.announce)
    ensures r.ending.Escaped? ==>
              RunCalls(st.calls, s).thrown == Some(r.ending.exn) &&
              !(st.handler.Some? && st.handler.value.caught == r.ending.exn)
    ensures RunCalls(st.calls, s).thrown.None? ==> r.ending == Completed
    ensures RunCalls(st.calls, s).thrown.Some? &&
            !(st.handler.Some? && st.handler.value.caught == RunCalls(st.calls, s).thrown.value) ==>
              r.ending == Escaped(RunCalls(st.calls, s).thrown.value)
    ensures RunCalls(st.calls, s).thrown.Some? && st.handler.Some? &&
            st.handler.value.caught == RunCalls(st.calls, s).thrown.value ==>
              r.ending == Completed && r.events[|r.events| - 1] == Warn(st.handler.value.warning)
  {
    var b := RunCalls(st.calls, s);
    var events := [Info(st.announce)] + b.events;
    match b.thrown
    case None => Run(events, Completed)
    case Some(e) =>
      if st.handler.Some? && st.handler.value.caught == e then
        Run(events + [Warn(st.handler.value.warning)], Completed)
      else
        Run(events, Escaped(e))
  }

  /** Sequential composition: `rest` runs only when `first` completed. */
  function Then(first: Run, rest: Run): Run
  {
    if first.ending.Escaped? then first else Run(first.events + rest.events, rest.ending)
  }

  function RunStages(stages: seq<Stage>, s: Script): Run
  {
    if stages == [] then Run([], Completed)
    else Then(RunStage(stages[0], s), RunStages(stages[1..], s))
  }

  /** The whole hook: the opening log line, the stages, and the closing log line if it is reached. */
  function Drain(s: Script): (r: Run)
    ensures |r.events| > 0 && r.events[0] == Info(StartingShutdown)
    ensures r.ending.Completed? ==> r.events[|r.events| - 1] == Info(Terminated)
  {
    var r := RunStages(Protocol, s);
    Run([Info(StartingShutdown)] + r.events + (if r.ending.Completed? then [Info(Terminated)] else []),
        r.ending)
  }

  /** The collaborator calls of a trace, in order, without the log lines. */
  function CallsOf(events: seq<Event>): seq<Call>
  {
    if events == [] then []
    else (if events[0].Invoke? then [events[0].call] else []) + CallsOf(events[1..])
  }

  // ---------------------------------------------------------------------------
  // The declarative reference description
  // ---------------------------------------------------------------------------

  /** Every collaborator call of the hook, in source order. */
  const FullOrder: seq<Call> :=
    [GateSetAcceptEvents(false), ExecutorShutdown, ExecutorAwaitTermination(AwaitSeconds, Seconds),
     WriterForceCommit, WriterProcessQuarantinedFiles, WriterFlush, SenderClose]

  /** The exception caught by the `catch` clause around a call, if the call is in a `try` block. */
  function CaughtAt(c: Call): (e: Option<Exn>)
    ensures e == Some(Interrupted) <==> c == ExecutorShutdown || c.ExecutorAwaitTermination?
    ensures e == Some(IO) <==> c == WriterForceCommit || c == WriterFlush
    ensures e != Some(Unchecked)
  {
    match c
    case ExecutorShutdown => Some(Interrupted)
    case ExecutorAwaitTermination(_, _) => Some(Interrupted)
    case WriterForceCommit => Some(IO)
    case WriterFlush => Some(IO)
    case _ => None
  }

  /** The call raises an exception that no catch clause of the hook handles. */
  predicate Fatal(s: Script, c: Call)
  {
    OutcomeOf(s, c).Throws? && Some(OutcomeOf(s, c).exn) != CaughtAt(c)
  }

  /** The index of the first fatal call of `calls`, or `|calls|` if none is fatal. */
  function FirstFatal(s: Script, calls: seq<Call>): (k: nat)
    ensures k <= |calls|
    ensures k < |calls| ==> Fatal(s, calls[k])
    ensures forall j :: 0 <= j < k ==> !Fatal(s, calls[j])
  {
    if calls == [] then 0
    else if Fatal(s, calls[0]) then 0
    else 1 + FirstFatal(s, calls[1..])
  }

  /** The calls of `calls` up to and including the first fatal one. */
  function UpTo(s: Script, calls: seq<Call>): seq<Call>
  {
    var k := FirstFatal(s, calls);
    if k < |calls| then calls[..k + 1] else calls
  }

  /** Escaped with the first fatal call's exception, or Completed if none is fatal. */
  function EndOf(s: Script, calls: seq<Call>): Ending
  {
    var k := FirstFatal(s, calls);
    if k < |calls| then Escaped(OutcomeOf(s, calls[k]).exn) else Completed
  }

  /** The calls the hook is expected to make: all of them, or those up to the first fatal one. */
  function ExpectedCalls(s: Script): seq<Call>
  {
    UpTo(s, FullOrder)
  }

  /** How the hook is expected to end. */
  function ExpectedEnding(s: Script): Ending
  {
    EndOf(s, FullOrder)
  }
}
