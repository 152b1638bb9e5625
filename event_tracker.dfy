/**
 * The event tracker's controller provider and its shutdown hook, as objects.
 *
 * The collaborators of the hook (the flush executor, the disk spool writer,
 * the event sender and the controller) are objects whose calls are recorded,
 * in order, on one shared `Trace`, together with the hook's log lines. How
 * each collaborator call ends is fixed when the collaborator is built (its
 * `const` outcome fields): the model does not look inside them, it only lets
 * every call return, raise the checked exception its signature declares, or
 * raise an unchecked one. `MainEventTrackerShutdownHook` is proved to append
 * to the trace exactly `Drain` of those outcomes, so every property proved of
 * `Drain` in DrainProperties holds of the hook.
 */
module EventTracker {
  import opened DrainProtocol
  import opened DrainProperties

  /** The observable record of the process: collaborator calls and log lines, in order. */
  class Trace {
    var events: seq<Event>

    constructor ()
      ensures events == []
    {
      events := [];
    }

    method Append(e: Event)
      modifies this
      ensures events == old(events) + [e]
    {
      events := events + [e];
    }
  }

  /** The periodic flush executor, as far as the hook uses it. */
  class ScheduledExecutorService {
    const trace: Trace
    const shutdownOutcome: Outcome
    const awaitOutcome: Outcome
    const terminatesInTime: bool

    constructor (trace: Trace, shutdownOutcome: Outcome, awaitOutcome: Outcome, terminatesInTime: bool)
      ensures this.trace == trace && this.shutdownOutcome == shutdownOutcome
      ensures this.awaitOutcome == awaitOutcome && this.terminatesInTime == terminatesInTime
    {
      this.trace := trace;
      this.shutdownOutcome := shutdownOutcome;
      this.awaitOutcome := awaitOutcome;
      this.terminatesInTime := terminatesInTime;
    }

    method Shutdown() returns (r: Outcome)
      modifies trace
      ensures trace.events == old(trace.events) + [Invoke(ExecutorShutdown)]
      ensures r == shutdownOutcome
    {
      trace.Append(Invoke(ExecutorShutdown));
      r := shutdownOutcome;
    }

    /** Waits at most `timeout`; `terminated` says whether the executor finished its work in time. */
    method AwaitTermination(timeout: nat, unit: TimeUnit) returns (terminated: bool, r: Outcome)
      modifies trace
      ensures trace.events == old(trace.events) + [Invoke(ExecutorAwaitTermination(timeout, unit))]
      ensures r == awaitOutcome
      ensures terminated == (r.Returns? && terminatesInTime)
    {
      trace.Append(Invoke(ExecutorAwaitTermination(timeout, unit)));
      r := awaitOutcome;
      terminated := r.Returns? && terminatesInTime;
    }
  }

  /** The disk spool writer, as far as the hook uses it. */
  class DiskSpoolEventWriter {
    const trace: Trace
    const commitOutcome: Outcome
    const quarantineOutcome: Outcome
    const flushOutcome: Outcome

    constructor (trace: Trace, commitOutcome: Outcome, quarantineOutcome: Outcome, flushOutcome: Outcome)
      ensures this.trace == trace && this.commitOutcome == commitOutcome
      ensures this.quarantineOutcome == quarantineOutcome && this.flushOutcome == flushOutcome
    {
      this.trace := trace;
      this.commitOutcome := commitOutcome;
      this.quarantineOutcome := quarantineOutcome;
      this.flushOutcome := flushOutcome;
    }

    method ForceCommit() returns (r: Outcome)
      modifies trace
      ensures trace.events == old(trace.events) + [Invoke(WriterForceCommit)]
      ensures r == commitOutcome
    {
      trace.Append(Invoke(WriterForceCommit));
      r := commitOutcome;
    }

    method ProcessQuarantinedFiles() returns (r: Outcome)
      modifies trace
      ensures trace.events == old(trace.events) + [Invoke(WriterProcessQuarantinedFiles)]
      ensures r == quarantineOutcome
    {
      trace.Append(Invoke(WriterProcessQuarantinedFiles));
      r := quarantineOutcome;
    }

    method Flush() returns (r: Outcome)
      modifies trace
      ensures trace.events == old(trace.events) + [Invoke(WriterFlush)]
      ensures r == flushOutcome
    {
      trace.Append(Invoke(WriterFlush));
      r := flushOutcome;
    }
  }

  /** The sender that ships spooled files to the remote collectors, as far as the hook uses it. */
  class EventSender {
    const trace: Trace
    const closeOutcome: Outcome

    constructor (trace: Trace, closeOutcome: Outcome)
      ensures this.trace == trace && this.closeOutcome == closeOutcome
    {
      this.trace := trace;
      this.closeOutcome := closeOutcome;
    }

    method Close() returns (r: Outcome)
      modifies trace
      ensures trace.events == old(trace.events) + [Invoke(SenderClose)]
      ensures r == closeOutcome
    {
      trace.Append(Invoke(SenderClose));
      r := closeOutcome;
    }
  }

  /**
   * The controller the provider hands out. Of its state only the accept-events
   * gate matters here, and the writer it is built over.
   */
  class CollectorController {
    const eventWriter: DiskSpoolEventWriter
    const trace: Trace
    var acceptEvents: bool

    constructor (eventWriter: DiskSpoolEventWriter)
      ensures this.eventWriter == eventWriter && trace == eventWriter.trace
      ensures acceptEvents
    {
      this.eventWriter := eventWriter;
      trace := eventWriter.trace;
      acceptEvents := true;
    }

    method SetAcceptEvents(accept: bool)
      modifies this, trace
      ensures acceptEvents == accept
      ensures trace.events == old(trace.events) + [Invoke(GateSetAcceptEvents(accept))]
    {
      trace.Append(Invoke(GateSetAcceptEvents(accept)));
      acceptEvents := accept;
    }
  }

  /** The script the collaborators' outcome fields make up. */
  function ScriptOf(executor: ScheduledExecutorService, eventWriter: DiskSpoolEventWriter, eventSender: EventSender): Script
  {
    Script(executor.shutdownOutcome, executor.awaitOutcome, executor.terminatesInTime,
           eventWriter.commitOutcome, eventWriter.quarantineOutcome, eventWriter.flushOutcome,
           eventSender.closeOutcome)
  }

  // ---------------------------------------------------------------------------
  // Proof steps for the hook: the trace after each stage
  // ---------------------------------------------------------------------------

  /** After the opening line and the first `k` stages, all of which completed. */
  ghost predicate AtStage(k: nat, s: Script, start: seq<Event>, events: seq<Event>)
  {
    k <= |Protocol| &&
    events == start + [Info(StartingShutdown)] + RunStages(Protocol[..k], s).events &&
    RunStages(Protocol[..k], s).ending == Completed
  }

  /** Stage `k` has run: either the first `k + 1` stages completed, or the hook is over. */
  ghost predicate Continues(k: nat, s: Script, start: seq<Event>, events: seq<Event>, ending: Ending)
  {
    (ending.Completed? ==> AtStage(k + 1, s, start, events)) &&
    (ending.Escaped? ==> events == start + Drain(s).events && ending == Drain(s).ending)
  }

  lemma StageCompletes(k: nat, s: Script, start: seq<Event>, before: seq<Event>)
    requires k < |Protocol| && AtStage(k, s, start, before)
    requires RunStage(Protocol[k], s).ending == Completed
    ensures AtStage(k + 1, s, start, before + RunStage(Protocol[k], s).events)
  {
    StagePrefixStep(s, k);
  }

  /** A stage that escapes ends the hook: the trace so far is the whole of `Drain`. */
  lemma StageEscapes(k: nat, s: Script, start: seq<Event>, before: seq<Event>)
    requires k < |Protocol| && AtStage(k, s, start, before)
    requires RunStage(Protocol[k], s).ending.Escaped?
    ensures before + RunStage(Protocol[k], s).events == start + Drain(s).events
    ensures Drain(s).ending == RunStage(Protocol[k], s).ending
  {
    EscapeEndsTrace(Protocol, k, s, start + [Info(StartingShutdown)], before);
    DrainWhenEscaped(s);
  }

  lemma EscapeEndsTrace(stages: seq<Stage>, k: nat, s: Script, start: seq<Event>, before: seq<Event>)
    requires k < |stages| && RunStages(stages[..k], s).ending == Completed
    requires before == start + RunStages(stages[..k], s).events
    requires RunStage(stages[k], s).ending.Escaped?
    ensures before + RunStage(stages[k], s).events == start + RunStages(stages, s).events
    ensures RunStages(stages, s).ending == RunStage(stages[k], s).ending
  {
    EscapeEndsRun(stages, k, s);
    AppendAssoc(start, RunStages(stages[..k], s).events, RunStage(stages[k], s).events);
  }

  lemma DrainWhenEscaped(s: Script)
    requires RunStages(Protocol, s).ending.Escaped?
    ensures Drain(s) == Run([Info(StartingShutdown)] + RunStages(Protocol, s).events, RunStages(Protocol, s).ending)
  {
    var r := RunStages(Protocol, s);
    assert [Info(StartingShutdown)] + r.events + [] == [Info(StartingShutdown)] + r.events;
  }

  lemma StageStep(k: nat, s: Script, start: seq<Event>, before: seq<Event>)
    requires k < |Protocol| && AtStage(k, s, start, before)
    ensures Continues(k, s, start, before + RunStage(Protocol[k], s).events, RunStage(Protocol[k], s).ending)
  {
    if RunStage(Protocol[k], s).ending.Completed? {
      StageCompletes(k, s, start, before);
    } else {
      StageEscapes(k, s, start, before);
    }
  }

  lemma AllStagesComplete(s: Script, start: seq<Event>, events: seq<Event>)
    requires AtStage(|Protocol|, s, start, events)
    ensures events + [Info(Terminated)] == start + Drain(s).events
    ensures Drain(s).ending == Completed
  {
    assert Protocol[..|Protocol|] == Protocol;
  }

  class CollectorControllerProvider {
    const executor: ScheduledExecutorService
    const eventWriter: DiskSpoolEventWriter
    const eventSender: EventSender
    /** The controllers whose shutdown hooks have been registered with the runtime, one per `Get`. */
    var hooks: seq<CollectorController>

    constructor (executor: ScheduledExecutorService, eventWriter: DiskSpoolEventWriter, eventSender: EventSender)
      ensures this.executor == executor && this.eventWriter == eventWriter && this.eventSender == eventSender
      ensures hooks == []
    {
      this.executor := executor;
      this.eventWriter := eventWriter;
      this.eventSender := eventSender;
      hooks := [];
    }

    /**
     * Builds a new controller over the shared writer and registers a shutdown
     * hook for it. Nothing stops a second call from registering a second hook.
     */
    method Get() returns (controller: CollectorController)
      modifies this
      ensures fresh(controller)
      ensures controller.eventWriter == eventWriter && controller.trace == eventWriter.trace
      ensures controller.acceptEvents
      ensures hooks == old(hooks) + [controller]
    {
      controller := new CollectorController(eventWriter);
      hooks := hooks + [controller];
    }

    /**
     * The shutdown sequence. Closes the gate, stops the flush executor and
     * waits for it, commits the open file, promotes quarantined files,
     * flushes, and closes the sender; catches InterruptedException around the
     * wait and IOException around the commit and the flush, and lets anything
     * else escape. Each `try` block or unguarded statement is one of the
     * stage methods below.
     */
    static method MainEventTrackerShutdownHook(executor: ScheduledExecutorService, eventWriter: DiskSpoolEventWriter,
                                               eventSender: EventSender, controller: CollectorController)
      returns (ending: Ending)
      requires executor.trace == eventWriter.trace && eventSender.trace == eventWriter.trace
      requires controller.trace == eventWriter.trace
      modifies controller, eventWriter.trace
      ensures !controller.acceptEvents
      ensures eventWriter.trace.events
           == old(eventWriter.trace.events) + Drain(ScriptOf(executor, eventWriter, eventSender)).events
      ensures ending == Drain(ScriptOf(executor, eventWriter, eventSender)).ending
    {
      var log := controller.trace;
      ghost var s := ScriptOf(executor, eventWriter, eventSender);
      ghost var start := log.events;
      log.Append(Info(StartingShutdown));
      assert AtStage(0, s, start, log.events) by {
        assert Protocol[..0] == [];
      }
      CloseGate(controller, s, start);
      ending := StopFlushExecutor(executor, s, start);
      if ending.Escaped? { return; }
      ending := CommitOpenFile(eventWriter, s, start);
      if ending.Escaped? { return; }
      ending := PromoteQuarantined(eventWriter, s, start);
      if ending.Escaped? { return; }
      ending := FlushLocalFiles(eventWriter, s, start);
      if ending.Escaped? { return; }
      ending := CloseSender(eventSender, s, start);
      if ending.Escaped? { return; }
      AllStagesComplete(s, start, log.events);
      log.Append(Info(Terminated));
    }

    /** Stops accepting events. */
    static method CloseGate(controller: CollectorController, ghost s: Script, ghost start: seq<Event>)
      requires AtStage(0, s, start, controller.trace.events)
      modifies controller, controller.trace
      ensures !controller.acceptEvents
      ensures controller.trace.events == old(controller.trace.events) + RunStage(Protocol[0], s).events
      ensures RunStage(Protocol[0], s).ending == Completed
      ensures AtStage(1, s, start, controller.trace.events)
    {
      GateStageRun(s);
      StageStep(0, s, start, controller.trace.events);
      controller.trace.Append(Info(StopAccepting));
      controller.SetAcceptEvents(false);
    }

    /** Stops the periodic flusher and waits for it at most AwaitSeconds; an interrupt is logged and swallowed. */
    static method StopFlushExecutor(executor: ScheduledExecutorService, ghost s: Script, ghost start: seq<Event>) returns (ending: Ending)
      requires s.shutdown == executor.shutdownOutcome && s.awaitTermination == executor.awaitOutcome
      requires AtStage(1, s, start, executor.trace.events)
      modifies executor.trace
      ensures executor.trace.events == old(executor.trace.events) + RunStage(Protocol[1], s).events
      ensures ending == RunStage(Protocol[1], s).ending
      ensures Continues(1, s, start, executor.trace.events, ending)
    {
      ExecutorStageRun(s);
      StageStep(1, s, start, executor.trace.events);
      var log := executor.trace;
      log.Append(Info(ShuttingDownWriters));
      var r := executor.Shutdown();
      if r.Returns? {
        var terminated;
        terminated, r := executor.AwaitTermination(AwaitSeconds, Seconds);
      }
      if r.Throws? {
        if r.exn != Interrupted {
          return Escaped(r.exn);
        }
        log.Append(Warn(InterruptedWhileWaiting));
      }
      return Completed;
    }

    /** Commits the file currently open for writing; an IOException is logged and swallowed. */
    static method CommitOpenFile(eventWriter: DiskSpoolEventWriter, ghost s: Script, ghost start: seq<Event>) returns (ending: Ending)
      requires s.forceCommit == eventWriter.commitOutcome
      requires AtStage(2, s, start, eventWriter.trace.events)
      modifies eventWriter.trace
      ensures eventWriter.trace.events == old(eventWriter.trace.events) + RunStage(Protocol[2], s).events
      ensures ending == RunStage(Protocol[2], s).ending
      ensures Continues(2, s, start, eventWriter.trace.events, ending)
    {
      CommitStageRun(s);
      StageStep(2, s, start, eventWriter.trace.events);
      var log := eventWriter.trace;
      log.Append(Info(FlushingOpenFile));
      var r := eventWriter.ForceCommit();
      if r.Throws? {
        if r.exn != IO {
          return Escaped(r.exn);
        }
        log.Append(Warn(CommitFailed));
      }
      return Completed;
    }

    /** Gives quarantined files one last chance to be promoted; nothing is caught. */
    static method PromoteQuarantined(eventWriter: DiskSpoolEventWriter, ghost s: Script, ghost start: seq<Event>) returns (ending: Ending)
      requires s.processQuarantinedFiles == eventWriter.quarantineOutcome
      requires AtStage(3, s, start, eventWriter.trace.events)
      modifies eventWriter.trace
      ensures eventWriter.trace.events == old(eventWriter.trace.events) + RunStage(Protocol[3], s).events
      ensures ending == RunStage(Protocol[3], s).ending
      ensures Continues(3, s, start, eventWriter.trace.events, ending)
    {
      QuarantineStageRun(s);
      StageStep(3, s, start, eventWriter.trace.events);
      eventWriter.trace.Append(Info(PromotingQuarantined));
      var r := eventWriter.ProcessQuarantinedFiles();
      if r.Throws? {
        return Escaped(r.exn);
      }
      return Completed;
    }

    /** Flushes the local files to the remote collectors; an IOException is logged and swallowed. */
    static method FlushLocalFiles(eventWriter: DiskSpoolEventWriter, ghost s: Script, ghost start: seq<Event>) returns (ending: Ending)
      requires s.flush == eventWriter.flushOutcome
      requires AtStage(4, s, start, eventWriter.trace.events)
      modifies eventWriter.trace
      ensures eventWriter.trace.events == old(eventWriter.trace.events) + RunStage(Protocol[4], s).events
      ensures ending == RunStage(Protocol[4], s).ending
      ensures Continues(4, s, start, eventWriter.trace.events, ending)
    {
      FlushStageRun(s);
      StageStep(4, s, start, eventWriter.trace.events);
      var log := eventWriter.trace;
      log.Append(Info(FlushingLocalFiles));
      var r := eventWriter.Flush();
      if r.Throws? {
        if r.exn != IO {
          return Escaped(r.exn);
        }
        log.Append(Warn(FlushFailed));
      }
      return Completed;
    }

    /** Closes the sender; nothing is caught. */
    static method CloseSender(eventSender: EventSender, ghost s: Script, ghost start: seq<Event>) returns (ending: Ending)
      requires s.close == eventSender.closeOutcome
      requires AtStage(5, s, start, eventSender.trace.events)
      modifies eventSender.trace
      ensures eventSender.trace.events == old(eventSender.trace.events) + RunStage(Protocol[5], s).events
      ensures ending == RunStage(Protocol[5], s).ending
      ensures Continues(5, s, start, eventSender.trace.events, ending)
    {
      CloseStageRun(s);
      StageStep(5, s, start, eventSender.trace.events);
      eventSender.trace.Append(Info(ClosingSender));
      var r := eventSender.Close();
      if r.Throws? {
        return Escaped(r.exn);
      }
      return Completed;
    }
  }
}
