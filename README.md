# Event tracker shutdown drain, in Dafny

This project models the shutdown sequence of the event tracker's
`CollectorControllerProvider`. When the process exits, the controller handed
out by `get()` is drained by `mainEventTrackerShutdownHook`. The hook makes a
fixed sequence of seven calls against four collaborators:

1. close the controller's accept-events gate;
2. shut down the periodic flush executor;
3. wait for the executor to terminate, for at most 15 seconds;
4. force-commit the open spool file;
5. promote quarantined files;
6. flush to the remote collectors;
7. close the event sender.

It logs an opening line, then one line before each of six stages, and a
closing line at the end. The stages are steps 1 to 7, with steps 2 and 3
together: the line before `shutdown()` announces both `shutdown()` and the
wait. Three of the stages are `try` blocks, and each block catches one
checked exception:

- the executor block catches `InterruptedException`;
- `forceCommit` is guarded against `IOException`;
- `flush` is guarded against `IOException`.

Everything else that a call raises escapes the hook.

The project has three files:

- `drain_protocol.dfy` (module `DrainProtocol`) describes the sequence as
  values:
  - each collaborator call ends by returning, by raising `Interrupted` or
    `IO`, or by raising an unchecked exception. A `Script` fixes these
    endings for one run;
  - the hook is a table of stages, one per `try` block or unguarded
    statement;
  - `Drain(s)` is the interpreter of that table. It gives the trace of calls
    and log lines the hook produces under script `s`, and whether it returns
    or lets an exception escape;
  - beside it sits an independent declarative description: `FullOrder`,
    `CaughtAt`, `FirstFatal`, `ExpectedCalls` and `ExpectedEnding`.
- `drain_properties.dfy` (module `DrainProperties`) proves that the
  interpreter and the declarative description agree. It then proves the
  ordering, gate and failure-isolation properties of the hook.
- `event_tracker.dfy` (module `EventTracker`) gives the imperative form:
  - every collaborator is a class, and its calls append to one shared
    `Trace` object;
  - the controller holds the `acceptEvents` flag;
  - the provider class has `Get()` and the static hook method.

  The hook method is proved to append exactly `Drain(s)`. Here `s` is the
  script made of the collaborators' outcome fields, so every lemma about
  `Drain` holds of the method. The hook's body follows the source one `try`
  block at a time, through one stage method per block.

Three things one might expect of a shutdown drain do not hold of this code,
and the model follows the code:

- A drain is often expected to isolate every stage, so that a failure is
  logged and the later stages still run. In the code, only the three checked exceptions above are
  isolated. A failure of `processQuarantinedFiles()` or `eventSender.close()`,
  or an unchecked exception from any call, ends the sequence
  (`FatalFailureEndsTheSequence`, `QuarantineFailureEndsTheSequence`,
  `CloseFailureSkipsTheClosingLine`).
- The hook might be expected to be registered, and run, once. `get()` has no
  run-once guard: every call builds a new controller and registers another
  hook. `Get` records each registration, and nothing limits their number.
- A flush executor that does not terminate in time might be expected to be
  logged, and treated as an outcome of its own. The code ignores the
  boolean that `awaitTermination` returns and logs nothing about it. So a
  timeout leaves no mark on the trace or the ending
  (`TimeoutIndistinguishable`).

Some theorems carry `requires Declared(s)`. This is Java's checked-exception
rule:

- a call raises a checked exception only if its signature declares it;
- `awaitTermination` declares `InterruptedException`;
- `forceCommit` and `flush` declare `IOException`;
- `ExecutorService.shutdown()` declares no checked exception, even though the
  hook calls it inside the block that catches `InterruptedException`;
- `processQuarantinedFiles` and `close` are called outside any `try`, in a
  method that declares no exceptions, so javac accepts them only if they
  declare no checked exception.

`DeclaredExactly` spells the rule out call by call. Without it, the two
descriptions can disagree. For example, an `InterruptedException` raised by
`shutdown()` is caught, so the wait is skipped (`ExecutorStageRun`), while
`ExpectedCalls` still lists the wait.

## Model

| member | source | states |
|---|---|---|
| DrainProtocol.Drain | src/main/java/com/ning/metrics/eventtracker/CollectorControllerProvider.java:62-107 | The trace of the whole hook opens with the first log line, and ends with the closing line whenever the hook returns normally. Its full meaning is stated by `DrainMatchesReference` and the lemmas below. |
| DrainProtocol.RunStage | src/main/java/com/ning/metrics/eventtracker/CollectorControllerProvider.java:72-100 | A stage logs its line first. An exception escapes exactly when its block raised it and its catch clause does not name it. A block that raises the named exception completes, with the clause's warning as the last entry. A block that raises nothing completes. |
| DrainProtocol.CaughtAt | src/main/java/com/ning/metrics/eventtracker/CollectorControllerProvider.java:72-100 | `InterruptedException` is caught exactly around `shutdown` and the wait. `IOException` is caught exactly around `forceCommit` and `flush`. No clause catches an unchecked exception. |
| DrainProperties.DeclaredExactly | src/main/java/com/ning/metrics/eventtracker/CollectorControllerProvider.java:62-104 | Under Java's checked-exception rule: `shutdown`, `processQuarantinedFiles` and `close` raise no checked exception; the wait never raises `IOException`; the commit and the flush never raise `InterruptedException`. |
| DrainProperties.ProtocolFlattens | src/main/java/com/ning/metrics/eventtracker/CollectorControllerProvider.java:64-106 | The calls of the six stages, in table order, are the seven calls in source order. |
| DrainProperties.ProtocolWellGuarded | src/main/java/com/ning/metrics/eventtracker/CollectorControllerProvider.java:70-104 | Under the checked-exception rule, every stage's catch clause agrees with `CaughtAt` on each of its calls. Only the last call of a block can raise the exception the clause swallows. |
| DrainProperties.FullOrderDistinct | src/main/java/com/ning/metrics/eventtracker/CollectorControllerProvider.java:64-106 | No call occurs twice in the source order. |
| DrainProperties.GateStageRun | src/main/java/com/ning/metrics/eventtracker/CollectorControllerProvider.java:66-68 | The gate stage logs its line and calls `setAcceptEvents(false)`, and always completes. |
| DrainProperties.ExecutorStageRun | src/main/java/com/ning/metrics/eventtracker/CollectorControllerProvider.java:70-78 | `shutdown` comes first. The wait, `(15, SECONDS)`, is skipped if `shutdown` raised. An `InterruptedException` from either call is swallowed with the warning. Any other exception escapes. |
| DrainProperties.CommitStageRun | src/main/java/com/ning/metrics/eventtracker/CollectorControllerProvider.java:80-87 | `forceCommit` either returns, or has its `IOException` swallowed with the warning, or lets any other exception escape. |
| DrainProperties.QuarantineStageRun | src/main/java/com/ning/metrics/eventtracker/CollectorControllerProvider.java:89-91 | `processQuarantinedFiles` is unguarded: the stage completes only if the call returns, and otherwise its exception escapes. |
| DrainProperties.FlushStageRun | src/main/java/com/ning/metrics/eventtracker/CollectorControllerProvider.java:93-100 | `flush` either returns, or has its `IOException` swallowed with the warning, or lets any other exception escape. |
| DrainProperties.CloseStageRun | src/main/java/com/ning/metrics/eventtracker/CollectorControllerProvider.java:102-104 | `close` is unguarded: the stage completes only if the call returns, and otherwise its exception escapes. |
| DrainProperties.DrainMatchesReference | src/main/java/com/ning/metrics/eventtracker/CollectorControllerProvider.java:64-106 | The calls the hook makes are the calls of the source order, up to and including the first call that raises an exception no catch clause handles. The hook ends by letting that exception escape, or returns normally if there is none. |
| DrainProtocol.FirstFatal | src/main/java/com/ning/metrics/eventtracker/CollectorControllerProvider.java:72-104 | The result is the position of the first call whose exception is not caught where the call stands, or the length of the list if there is no such call. No earlier call is fatal. |
| DrainProperties.GateClosesFirst | src/main/java/com/ning/metrics/eventtracker/CollectorControllerProvider.java:64-68 | For every script, the trace opens with the two log lines and `setAcceptEvents(false)`. That is the first call. No later call touches the gate. |
| DrainProperties.HappyPath | src/main/java/com/ning/metrics/eventtracker/CollectorControllerProvider.java:64-106 | When every call returns, the trace is exactly the seven calls in source order, each once and each after its log line, framed by the opening and closing lines. The hook returns normally. |
| DrainProperties.ShutdownBeforeBoundedWait | src/main/java/com/ning/metrics/eventtracker/CollectorControllerProvider.java:72-75 | Any wait the hook makes is its third call, `awaitTermination(15, SECONDS)`, and `executor.shutdown()` comes right before it. |
| DrainProperties.TimeoutIndistinguishable | src/main/java/com/ning/metrics/eventtracker/CollectorControllerProvider.java:74 | Whether the executor terminates within the wait does not change the trace or the ending, because the boolean result is ignored. |
| DrainProperties.InterruptIsIsolated | src/main/java/com/ning/metrics/eventtracker/CollectorControllerProvider.java:72-78 | An interrupted wait gives the trace of a wait that returned, with one warning inserted right after the wait. The calls made and the ending are unchanged. |
| DrainProperties.CommitFailureIsIsolated | src/main/java/com/ning/metrics/eventtracker/CollectorControllerProvider.java:82-87 | An `IOException` from `forceCommit()` gives the trace of a commit that returned, with one warning inserted right after the commit. The calls made and the ending are unchanged. |
| DrainProperties.FlushFailureIsIsolated | src/main/java/com/ning/metrics/eventtracker/CollectorControllerProvider.java:95-100 | An `IOException` from `flush()` gives the trace of a flush that returned, with one warning inserted right after the flush. The calls made and the ending are unchanged. |
| DrainProperties.CaughtFailuresNeverStopTheSequence | src/main/java/com/ning/metrics/eventtracker/CollectorControllerProvider.java:70-106 | When the only failures are the three caught checked exceptions, every call is made in order, and the hook returns with the closing line last. |
| DrainProperties.FatalFailureEndsTheSequence | src/main/java/com/ning/metrics/eventtracker/CollectorControllerProvider.java:62-106 | A call that raises an uncaught exception is the last call made. Its exception escapes, and the closing line is absent. |
| DrainProperties.QuarantineFailureEndsTheSequence | src/main/java/com/ning/metrics/eventtracker/CollectorControllerProvider.java:89-91 | If `processQuarantinedFiles()` raises, the calls stop there: neither `flush()` nor `close()` is called, and the exception escapes. |
| DrainProperties.CloseFailureSkipsTheClosingLine | src/main/java/com/ning/metrics/eventtracker/CollectorControllerProvider.java:102-106 | If `eventSender.close()` raises, all seven calls have been made, the exception escapes, and the closing line is not written. |
| DrainProperties.TerminatedMarkerLast | src/main/java/com/ning/metrics/eventtracker/CollectorControllerProvider.java:106 | The closing line is in the trace if and only if the hook returns normally. When it is, it is the last entry and appears once. |
| DrainProperties.CompletesIffNoFatalFailure | src/main/java/com/ning/metrics/eventtracker/CollectorControllerProvider.java:62-106 | The hook returns normally, and writes its closing line, if and only if no call raises an exception the hook does not catch. |
| DrainProperties.NoCheckedExceptionEscapes | src/main/java/com/ning/metrics/eventtracker/CollectorControllerProvider.java:62 | Whatever escapes the hook is unchecked, as its signature, which declares no exceptions, requires. |
| EventTracker.CollectorControllerProvider.MainEventTrackerShutdownHook | src/main/java/com/ning/metrics/eventtracker/CollectorControllerProvider.java:62-107 | The hook leaves the gate closed. It appends exactly `Drain` of the collaborators' outcomes to the shared trace, and ends as `Drain` ends. |
| EventTracker.CollectorControllerProvider.CloseGate | src/main/java/com/ning/metrics/eventtracker/CollectorControllerProvider.java:66-68 | Logs the line, then closes the gate. The appended entries are the gate stage's run, and that stage always completes. |
| EventTracker.CollectorControllerProvider.StopFlushExecutor | src/main/java/com/ning/metrics/eventtracker/CollectorControllerProvider.java:70-78 | Calls shutdown, then the bounded wait, which is skipped if shutdown raised. An interrupt is swallowed with a warning. Anything else escapes. The appended entries and the ending are the executor stage's run. |
| EventTracker.CollectorControllerProvider.CommitOpenFile | src/main/java/com/ning/metrics/eventtracker/CollectorControllerProvider.java:80-87 | Commits the open file. An `IOException` is swallowed with a warning. The appended entries and the ending are the commit stage's run. |
| EventTracker.CollectorControllerProvider.PromoteQuarantined | src/main/java/com/ning/metrics/eventtracker/CollectorControllerProvider.java:89-91 | Promotes quarantined files, with nothing caught. The appended entries and the ending are the quarantine stage's run. |
| EventTracker.CollectorControllerProvider.FlushLocalFiles | src/main/java/com/ning/metrics/eventtracker/CollectorControllerProvider.java:93-100 | Flushes to the collectors. An `IOException` is swallowed with a warning. The appended entries and the ending are the flush stage's run. |
| EventTracker.CollectorControllerProvider.CloseSender | src/main/java/com/ning/metrics/eventtracker/CollectorControllerProvider.java:102-104 | Closes the sender, with nothing caught. The appended entries and the ending are the close stage's run. |
| EventTracker.CollectorControllerProvider.Get | src/main/java/com/ning/metrics/eventtracker/CollectorControllerProvider.java:45-60 | Returns a new controller built over the provider's shared writer and trace, with the gate open. It registers one more hook on every call. |
| EventTracker.CollectorControllerProvider.constructor | src/main/java/com/ning/metrics/eventtracker/CollectorControllerProvider.java:37-42 | Stores the executor, writer and sender. No hook is registered yet. |
| EventTracker.CollectorController.constructor | src/main/java/com/ning/metrics/eventtracker/CollectorControllerProvider.java:47 | The controller shares the writer it is built over, and so the writer's trace. |
| EventTracker.CollectorController.SetAcceptEvents | src/main/java/com/ning/metrics/eventtracker/CollectorControllerProvider.java:68 | Sets the gate to the argument and records the call. |
| EventTracker.ScheduledExecutorService.Shutdown | src/main/java/com/ning/metrics/eventtracker/CollectorControllerProvider.java:73 | Records the call and ends with the executor's scripted outcome. |
| EventTracker.ScheduledExecutorService.AwaitTermination | src/main/java/com/ning/metrics/eventtracker/CollectorControllerProvider.java:74 | Records the call with its arguments. It reports termination only when it returns and the executor finished its work in time. |
| EventTracker.DiskSpoolEventWriter.ForceCommit | src/main/java/com/ning/metrics/eventtracker/CollectorControllerProvider.java:83 | Records the call and ends with the writer's scripted commit outcome. |
| EventTracker.DiskSpoolEventWriter.ProcessQuarantinedFiles | src/main/java/com/ning/metrics/eventtracker/CollectorControllerProvider.java:91 | Records the call and ends with the writer's scripted quarantine outcome. |
| EventTracker.DiskSpoolEventWriter.Flush | src/main/java/com/ning/metrics/eventtracker/CollectorControllerProvider.java:96 | Records the call and ends with the writer's scripted flush outcome. |
| EventTracker.EventSender.Close | src/main/java/com/ning/metrics/eventtracker/CollectorControllerProvider.java:104 | Records the call and ends with the sender's scripted outcome. |

## Left out

- The JVM shutdown-hook thread (`Runtime.addShutdownHook` and the anonymous `Thread`) and its concurrency are left out. A registration is an entry of `hooks`, and running a hook is a call to `MainEventTrackerShutdownHook`.
- EventTracker.CollectorControllerProvider.Get: it records the registration but does not model the runtime running the registered hook at exit.
- Guice injection is left out. The constructor only stores its three collaborators.
- Log4j is left out. Each log line is a trace entry (`Info` or `Warn` of a message constant). Message text, levels beyond info and warn, and the exception attached to a warning are not modelled.
- The internals of `ScheduledExecutorService`, `DiskSpoolEventWriter` and `EventSender` are left out: threads, timing, files and transport. Each call is abstract, and its outcome is fixed by the collaborator's outcome fields.
- `CollectorController` is not part of this model beyond its accept-events flag. Its constructor is taken to start with the gate open. `setAcceptEvents` is taken always to return normally (`OutcomeOf` gives it no failure). `GateClosesFirst`, for every script, and the hook's unconditional `!controller.acceptEvents` depend on this.
- Collaborator outcomes are `const` fields, fixed when a collaborator is built. Every hook registered by repeated `Get` calls runs against the same collaborators, so it sees the same outcomes. For example, a second `close()` on a sender that is already closed cannot behave differently from the first. No lemma relates two runs of the hook.
- Exceptions are grouped by how the hook's catch clauses see them: `InterruptedException`, `IOException` and its subclasses, and any exception neither catch clause handles (`Unchecked`). Under the checked-exception rule that last group is a `RuntimeException` or an `Error`. For the catch clauses it behaves as one, so it is a single constructor.
- The lemmas that carry `requires Declared(s)` rely on Java's checked-exception rule. javac enforces that rule on the source, which excludes scripts outside it. At run time, a sneaky throw or a collaborator compiled against another signature can still raise an undeclared checked exception. One of a class other than `InterruptedException` or `IOException` is `Throws(Unchecked)` in the model, since no catch clause handles it; such a script satisfies `Declared`, and `NoCheckedExceptionEscapes` then counts its exception as `Unchecked`, that is, as neither of the two checked exceptions the hook catches. An undeclared `InterruptedException` or `IOException` makes a script that `Declared` excludes. For such scripts only the interpreter (`Drain`, `ExecutorStageRun`, ...) describes the hook, and those lemmas say nothing.
