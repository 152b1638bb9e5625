/**
 * Properties of the shutdown drain sequence described in DrainProtocol:
 * the order of calls, the gate closing first, which failures the hook absorbs
 * and which end it, and where the closing log line appears.
 */
module DrainProperties {
  import opened DrainProtocol

  // ---------------------------------------------------------------------------
  // Structure of traces and of the interpreter
  // ---------------------------------------------------------------------------

  lemma {:induction false} CallsOfAppend(a: seq<Event>, b: seq<Event>)
    ensures CallsOf(a + b) == CallsOf(a) + CallsOf(b)
  {
    if a == [] {
      assert a + b == b;
    } else {
      var head := if a[0].Invoke? then [a[0].call] else [];
      assert (a + b)[0] == a[0];
      assert (a + b)[1..] == a[1..] + b;
      CallsOfAppend(a[1..], b);
      calc {
        CallsOf(a + b);
        head + CallsOf(a[1..] + b);
        head + (CallsOf(a[1..]) + CallsOf(b));
        (head + CallsOf(a[1..])) + CallsOf(b);
        CallsOf(a) + CallsOf(b);
      }
    }
  }

  lemma ThenCalls(first: Run, rest: Run)
    ensures CallsOf(Then(first, rest).events)
         == if first.ending.Escaped? then CallsOf(first.events) else CallsOf(first.events) + CallsOf(rest.events)
  {
    if first.ending.Completed? {
      CallsOfAppend(first.events, rest.events);
    }
  }

  /** Log lines contribute no calls: a stage's calls are those of its `try` block. */
  lemma RunStageCalls(st: Stage, s: Script)
    ensures CallsOf(RunStage(st, s).events) == CallsOf(RunCalls(st.calls, s).events)
  {
    var b := RunCalls(st.calls, s);
    CallsOfAppend([Info(st.announce)], b.events);
    if b.thrown.Some? && st.handler.Some? && st.handler.value.caught == b.thrown.value {
      CallsOfAppend([Info(st.announce)] + b.events, [Warn(st.handler.value.warning)]);
    }
  }

  lemma RunCallsSingle(c: Call, s: Script)
    ensures RunCalls([c], s)
         == BlockRun([Invoke(c)], if OutcomeOf(s, c).Throws? then Some(OutcomeOf(s, c).exn) else None)
  {
    assert [c][1..] == [];
  }

  /** The calls of a stage list, concatenated in order. */
  function Flatten(stages: seq<Stage>): seq<Call>
  {
    if stages == [] then [] else stages[0].calls + Flatten(stages[1..])
  }

  /**
   * A stage whose catch clause agrees with `CaughtAt` on every call of its
   * `try` block, and in which no call but the last raises an exception that
   * the clause would absorb (which would skip the rest of the block).
   */
  predicate WellGuarded(st: Stage, s: Script)
  {
    (forall c :: c in st.calls ==>
       CaughtAt(c) == if st.handler.Some? then Some(st.handler.value.caught) else None) &&
    (forall i :: 0 <= i < |st.calls| - 1 ==> OutcomeOf(s, st.calls[i]).Throws? ==> Fatal(s, st.calls[i]))
  }

  lemma {:induction false} FirstFatalAppend(s: Script, a: seq<Call>, b: seq<Call>)
    ensures FirstFatal(s, a + b)
         == if FirstFatal(s, a) < |a| then FirstFatal(s, a) else |a| + FirstFatal(s, b)
  {
    var ka := FirstFatal(s, a);
    assert forall j :: 0 <= j < |a| ==> (a + b)[j] == a[j];
    if ka == |a| {
      assert forall j :: 0 <= j < |b| ==> (a + b)[|a| + j] == b[j];
    }
  }

  lemma EndOfAppend(s: Script, a: seq<Call>, b: seq<Call>)
    ensures EndOf(s, a + b) == if FirstFatal(s, a) < |a| then EndOf(s, a) else EndOf(s, b)
  {
    FirstFatalAppend(s, a, b);
    var ka, kb := FirstFatal(s, a), FirstFatal(s, b);
    if ka < |a| {
      assert (a + b)[ka] == a[ka];
    } else if kb < |b| {
      assert (a + b)[|a| + kb] == b[kb];
    }
  }

  lemma UpToAppendFatalFirst(s: Script, a: seq<Call>, b: seq<Call>)
    requires FirstFatal(s, a) < |a|
    ensures UpTo(s, a + b) == UpTo(s, a)
  {
    FirstFatalAppend(s, a, b);
    var k := FirstFatal(s, a);
    assert (a + b)[..k + 1] == a[..k + 1];
  }

  lemma UpToAppendFatalLater(s: Script, a: seq<Call>, b: seq<Call>)
    requires FirstFatal(s, a) == |a|
    ensures UpTo(s, a + b) == a + UpTo(s, b)
  {
    FirstFatalAppend(s, a, b);
    var k := FirstFatal(s, b);
    if k < |b| {
      assert (a + b)[..|a| + k + 1] == a + b[..k + 1];
    }
  }

  lemma UpToAppend(s: Script, a: seq<Call>, b: seq<Call>)
    ensures UpTo(s, a + b) == if FirstFatal(s, a) < |a| then UpTo(s, a) else a + UpTo(s, b)
    ensures EndOf(s, a + b) == if FirstFatal(s, a) < |a| then EndOf(s, a) else EndOf(s, b)
  {
    EndOfAppend(s, a, b);
    if FirstFatal(s, a) < |a| {
      UpToAppendFatalFirst(s, a, b);
    } else {
      UpToAppendFatalLater(s, a, b);
    }
  }

  /**
   * A `try` block makes its calls up to the first fatal one; if none is
   * fatal, whatever it raises comes from its last call and is that call's
   * caught exception.
   */
  lemma {:induction false} RunCallsUpTo(calls: seq<Call>, s: Script)
    requires forall i :: 0 <= i < |calls| - 1 ==> OutcomeOf(s, calls[i]).Throws? ==> Fatal(s, calls[i])
    ensures CallsOf(RunCalls(calls, s).events) == UpTo(s, calls)
    ensures FirstFatal(s, calls) < |calls| ==>
              RunCalls(calls, s).thrown == Some(OutcomeOf(s, calls[FirstFatal(s, calls)]).exn)
    ensures FirstFatal(s, calls) == |calls| && RunCalls(calls, s).thrown.Some? ==>
              |calls| > 0 && Some(RunCalls(calls, s).thrown.value) == CaughtAt(calls[|calls| - 1])
  {
    if calls != [] {
      var c := calls[0];
      CallsOfSingle(c);
      if OutcomeOf(s, c).Throws? {
        if !Fatal(s, c) {
          assert |calls| == 1;
        }
      } else {
        var rest := RunCalls(calls[1..], s);
        assert forall i :: 0 <= i < |calls[1..]| - 1 ==> calls[1..][i] == calls[i + 1];
        RunCallsUpTo(calls[1..], s);
        CallsOfAppend([Invoke(c)], rest.events);
        UpToCons(s, calls);
      }
    }
  }

  lemma CallsOfSingle(c: Call)
    ensures CallsOf([Invoke(c)]) == [c]
  {
    assert [Invoke(c)][1..] == [];
  }

  /** A first call that is not fatal is made, and the rest follows as if it were alone. */
  lemma UpToCons(s: Script, calls: seq<Call>)
    requires calls != [] && !Fatal(s, calls[0])
    ensures FirstFatal(s, calls) == 1 + FirstFatal(s, calls[1..])
    ensures UpTo(s, calls) == [calls[0]] + UpTo(s, calls[1..])
  {
    var c := calls[0];
    assert calls == [c] + calls[1..];
    assert FirstFatal(s, [c]) == 1 by {
      assert [c][1..] == [];
    }
    UpToAppendFatalLater(s, [c], calls[1..]);
  }

  /** A well-guarded stage makes its calls up to the first fatal one, and escapes exactly on it. */
  lemma RunStageUpTo(st: Stage, s: Script)
    requires WellGuarded(st, s)
    ensures CallsOf(RunStage(st, s).events) == UpTo(s, st.calls)
    ensures RunStage(st, s).ending == EndOf(s, st.calls)
  {
    RunStageCalls(st, s);
    RunCallsUpTo(st.calls, s);
    var k := FirstFatal(s, st.calls);
    if k < |st.calls| {
      assert st.calls[k] in st.calls;
    } else if RunCalls(st.calls, s).thrown.Some? {
      assert st.calls[|st.calls| - 1] in st.calls;
    }
  }

  /**
   * The interpreter agrees with the reference description on any list of
   * well-guarded stages: it makes the calls of the flattened list up to the
   * first fatal one, and escapes exactly with that call's exception.
   */
  lemma {:induction false} RunStagesUpTo(stages: seq<Stage>, s: Script)
    requires forall i :: 0 <= i < |stages| ==> WellGuarded(stages[i], s)
    ensures CallsOf(RunStages(stages, s).events) == UpTo(s, Flatten(stages))
    ensures RunStages(stages, s).ending == EndOf(s, Flatten(stages))
  {
    if stages != [] {
      var first := RunStage(stages[0], s);
      var rest := RunStages(stages[1..], s);
      RunStageUpTo(stages[0], s);
      assert forall i :: 0 <= i < |stages[1..]| ==> stages[1..][i] == stages[i + 1];
      RunStagesUpTo(stages[1..], s);
      ThenCalls(first, rest);
      UpToAppend(s, stages[0].calls, Flatten(stages[1..]));
    }
  }

  /** The stage table lists exactly the calls of `FullOrder`. */
  lemma ProtocolFlattens()
    ensures Flatten(Protocol) == FullOrder
  {
    var p := Protocol;
    assert p[1..][1..][1..][1..][1..][1..] == [];
    calc {
      Flatten(p);
      p[0].calls + Flatten(p[1..]);
      p[0].calls + (p[1].calls + Flatten(p[1..][1..]));
      p[0].calls + (p[1].calls + (p[2].calls + Flatten(p[1..][1..][1..])));
      p[0].calls + (p[1].calls + (p[2].calls + (p[3].calls + Flatten(p[1..][1..][1..][1..]))));
      p[0].calls + (p[1].calls + (p[2].calls + (p[3].calls + (p[4].calls + Flatten(p[1..][1..][1..][1..][1..])))));
      p[0].calls + (p[1].calls + (p[2].calls + (p[3].calls + (p[4].calls + (p[5].calls + [])))));
      FullOrder;
    }
  }

  /**
   * Java's checked-exception rule, call by call: `shutdown`,
   * `processQuarantinedFiles` and `close` raise no checked exception; the wait
   * never raises IOException, and the commit and the flush never raise
   * InterruptedException.
   */
  lemma DeclaredExactly(s: Script)
    ensures Declared(s) <==>
      s.shutdown in {Returns, Throws(Unchecked)} &&
      s.awaitTermination != Throws(IO) &&
      s.forceCommit != Throws(Interrupted) &&
      s.processQuarantinedFiles in {Returns, Throws(Unchecked)} &&
      s.flush != Throws(Interrupted) &&
      s.close in {Returns, Throws(Unchecked)}
  {
    assert DeclaredChecked(ExecutorShutdown) == None;
    assert DeclaredChecked(ExecutorAwaitTermination(AwaitSeconds, Seconds)) == Some(Interrupted);
    assert DeclaredChecked(WriterForceCommit) == Some(IO) && DeclaredChecked(WriterFlush) == Some(IO);
    assert DeclaredChecked(WriterProcessQuarantinedFiles) == None && DeclaredChecked(SenderClose) == None;
    forall o: Outcome
      ensures Allowed(o, None) <==> o in {Returns, Throws(Unchecked)}
      ensures Allowed(o, Some(Interrupted)) <==> o != Throws(IO)
      ensures Allowed(o, Some(IO)) <==> o != Throws(Interrupted)
    {
    }
  }

  /** Under Java's checked-exception rule, every stage of the hook is well guarded. */
  lemma ProtocolWellGuarded(s: Script)
    requires Declared(s)
    ensures forall i :: 0 <= i < |Protocol| ==> WellGuarded(Protocol[i], s)
  {
    assert WellGuarded(GateStage, s);
    assert WellGuarded(ExecutorStage, s);
    assert WellGuarded(CommitStage, s);
    assert WellGuarded(QuarantineStage, s);
    assert WellGuarded(FlushStage, s);
    assert WellGuarded(CloseStage, s);
  }

  /** The collaborator calls of the whole hook are those of its stages. */
  lemma DrainCalls(s: Script)
    ensures CallsOf(Drain(s).events) == CallsOf(RunStages(Protocol, s).events)
  {
    var r := RunStages(Protocol, s);
    var tail := if r.ending.Completed? then [Info(Terminated)] else [];
    CallsOfAppend([Info(StartingShutdown)] + r.events, tail);
    CallsOfAppend([Info(StartingShutdown)], r.events);
    assert CallsOf(tail) == [];
  }

  /**
   * The hook makes the calls of `FullOrder`, in that order, up to and
   * including the first call that raises an exception the hook does not
   * catch; it ends by letting that exception escape, or normally if there is
   * none.
   */
  lemma DrainMatchesReference(s: Script)
    requires Declared(s)
    ensures CallsOf(Drain(s).events) == ExpectedCalls(s)
    ensures Drain(s).ending == ExpectedEnding(s)
  {
    DrainCalls(s);
    ProtocolWellGuarded(s);
    RunStagesUpTo(Protocol, s);
    ProtocolFlattens();
  }

  // ---------------------------------------------------------------------------
  // Facts that hold for every script
  // ---------------------------------------------------------------------------

  lemma {:induction false} RunCallsWithin(calls: seq<Call>, s: Script)
    ensures forall c :: c in CallsOf(RunCalls(calls, s).events) ==> c in calls
  {
    if calls != [] {
      var c := calls[0];
      assert CallsOf([Invoke(c)]) == [c] by {
        assert [Invoke(c)][1..] == [];
      }
      if OutcomeOf(s, c).Throws? {
      } else {
        RunCallsWithin(calls[1..], s);
        CallsOfAppend([Invoke(c)], RunCalls(calls[1..], s).events);
      }
    }
  }

  /** Whatever the script, the hook only makes calls that its stage list names. */
  lemma {:induction false} RunStagesWithin(stages: seq<Stage>, s: Script)
    ensures forall c :: c in CallsOf(RunStages(stages, s).events) ==> c in Flatten(stages)
  {
    if stages != [] {
      RunStageCalls(stages[0], s);
      RunCallsWithin(stages[0].calls, s);
      RunStagesWithin(stages[1..], s);
      ThenCalls(RunStage(stages[0], s), RunStages(stages[1..], s));
    }
  }

  /** No stage logs the closing line itself. */
  lemma {:induction false} NoTerminatedInStages(stages: seq<Stage>, s: Script)
    requires forall i :: 0 <= i < |stages| ==> stages[i].announce != Terminated
    requires forall i :: 0 <= i < |stages| ==> stages[i].handler.Some? ==> stages[i].handler.value.warning != Terminated
    ensures Info(Terminated) !in RunStages(stages, s).events
  {
    if stages != [] {
      var st := stages[0];
      var b := RunCalls(st.calls, s);
      assert forall e :: e in b.events ==> e.Invoke? by {
        RunCallsInvokesOnly(st.calls, s);
      }
      NoTerminatedInStages(stages[1..], s);
    }
  }

  lemma {:induction false} RunCallsInvokesOnly(calls: seq<Call>, s: Script)
    ensures forall e :: e in RunCalls(calls, s).events ==> e.Invoke?
  {
    if calls != [] && OutcomeOf(s, calls[0]).Returns? {
      RunCallsInvokesOnly(calls[1..], s);
    }
  }

  lemma ProtocolStartsWithGate(s: Script)
    ensures Drain(s).events[..3] == [Info(StartingShutdown), Info(StopAccepting), Invoke(GateSetAcceptEvents(false))]
    ensures CallsOf(Drain(s).events)
         == [GateSetAcceptEvents(false)] + CallsOf(RunStages(Protocol[1..], s).events)
  {
    var g := RunStage(GateStage, s);
    var rest := RunStages(Protocol[1..], s);
    assert Protocol[0] == GateStage;
    RunCallsSingle(GateSetAcceptEvents(false), s);
    assert g == Run([Info(StopAccepting), Invoke(GateSetAcceptEvents(false))], Completed);
    assert RunStages(Protocol, s) == Run(g.events + rest.events, rest.ending);
    DrainCalls(s);
    CallsOfAppend(g.events, rest.events);
    assert CallsOf(g.events) == [GateSetAcceptEvents(false)] by {
      assert g.events[1..] == [Invoke(GateSetAcceptEvents(false))];
      assert g.events[1..][1..] == [];
    }
  }

  /**
   * The hook's first effect is to close the accept-events gate: the first call
   * it makes, after its two opening log lines, is `setAcceptEvents(false)`, and
   * no later call touches the gate again, whatever the collaborators do.
   */
  lemma GateClosesFirst(s: Script)
    ensures Drain(s).events[..3] == [Info(StartingShutdown), Info(StopAccepting), Invoke(GateSetAcceptEvents(false))]
    ensures |CallsOf(Drain(s).events)| > 0 && CallsOf(Drain(s).events)[0] == GateSetAcceptEvents(false)
    ensures forall i :: 0 < i < |CallsOf(Drain(s).events)| ==> !CallsOf(Drain(s).events)[i].GateSetAcceptEvents?
  {
    ProtocolStartsWithGate(s);
    RunStagesWithin(Protocol[1..], s);
    ProtocolFlattens();
    var p := Protocol;
    assert Flatten(p) == p[0].calls + Flatten(p[1..]);
    assert Flatten(p[1..]) == FullOrder[1..];
    var calls := CallsOf(Drain(s).events);
    forall i | 0 < i < |calls|
      ensures !calls[i].GateSetAcceptEvents?
    {
      assert calls[i] in CallsOf(RunStages(p[1..], s).events);
    }
  }

  /**
   * The closing log line is written exactly when the hook returns normally,
   * and then it is the last entry of the trace and appears nowhere else.
   */
  lemma TerminatedMarkerLast(s: Script)
    ensures Info(Terminated) in Drain(s).events <==> Drain(s).ending == Completed
    ensures Drain(s).ending == Completed ==>
              Drain(s).events[|Drain(s).events| - 1] == Info(Terminated) &&
              Info(Terminated) !in Drain(s).events[..|Drain(s).events| - 1]
  {
    var r := RunStages(Protocol, s);
    NoTerminatedInStages(Protocol, s);
    assert Info(Terminated) !in [Info(StartingShutdown)] + r.events;
    if r.ending.Completed? {
      assert Drain(s).events[..|Drain(s).events| - 1] == [Info(StartingShutdown)] + r.events;
    } else {
      assert Drain(s).events == [Info(StartingShutdown)] + r.events + [];
    }
  }

  /** Whether the executor's tasks finished within the wait makes no difference to the hook. */
  lemma TimeoutIndistinguishable(s: Script, inTime: bool)
    ensures Drain(s.(terminatesInTime := inTime)) == Drain(s)
  {
    var s' := s.(terminatesInTime := inTime);
    assert forall c :: OutcomeOf(s', c) == OutcomeOf(s, c);
    SameOutcomesSameRun(Protocol, s, s');
  }

  /** Two scripts that agree on every call of a stage list run it identically. */
  lemma {:induction false} SameOutcomesSameRun(stages: seq<Stage>, s: Script, s': Script)
    requires forall c :: c in Flatten(stages) ==> OutcomeOf(s, c) == OutcomeOf(s', c)
    ensures RunStages(stages, s) == RunStages(stages, s')
  {
    if stages != [] {
      SameOutcomesSameBlock(stages[0].calls, s, s');
      SameOutcomesSameRun(stages[1..], s, s');
    }
  }

  lemma {:induction false} SameOutcomesSameBlock(calls: seq<Call>, s: Script, s': Script)
    requires forall c :: c in calls ==> OutcomeOf(s, c) == OutcomeOf(s', c)
    ensures RunCalls(calls, s) == RunCalls(calls, s')
  {
    if calls != [] {
      SameOutcomesSameBlock(calls[1..], s, s');
    }
  }

  // ---------------------------------------------------------------------------
  // Failure isolation: a caught exception only adds its warning line
  // ---------------------------------------------------------------------------

  /** `events` with `extra` inserted right after every occurrence of `anchor`. */
  function InsertAfter(events: seq<Event>, anchor: Event, extra: Event): seq<Event>
  {
    if events == [] then []
    else [events[0]] + (if events[0] == anchor then [extra] else []) + InsertAfter(events[1..], anchor, extra)
  }

  lemma {:induction false} InsertAfterAppend(a: seq<Event>, b: seq<Event>, anchor: Event, extra: Event)
    ensures InsertAfter(a + b, anchor, extra) == InsertAfter(a, anchor, extra) + InsertAfter(b, anchor, extra)
  {
    if a == [] {
      assert a + b == b;
    } else {
      assert (a + b)[0] == a[0];
      assert (a + b)[1..] == a[1..] + b;
      InsertAfterAppend(a[1..], b, anchor, extra);
    }
  }

  lemma {:induction false} InsertAfterAbsent(a: seq<Event>, anchor: Event, extra: Event)
    requires anchor !in a
    ensures InsertAfter(a, anchor, extra) == a
  {
    if a != [] {
      assert a == [a[0]] + a[1..];
      InsertAfterAbsent(a[1..], anchor, extra);
    }
  }

  /** Inserting a log line changes no call. */
  lemma {:induction false} InsertAfterCalls(a: seq<Event>, anchor: Event, extra: Event)
    requires !extra.Invoke?
    ensures CallsOf(InsertAfter(a, anchor, extra)) == CallsOf(a)
  {
    if a != [] {
      var head := [a[0]] + (if a[0] == anchor then [extra] else []);
      InsertAfterCalls(a[1..], anchor, extra);
      CallsOfAppend(head, InsertAfter(a[1..], anchor, extra));
      assert CallsOf(head) == CallsOf([a[0]]) by {
        if a[0] == anchor {
          CallsOfAppend([a[0]], [extra]);
        }
      }
      CallsOfAppend([a[0]], a[1..]);
      assert [a[0]] + a[1..] == a;
    }
  }

  /** A block's trace entries are calls of the block. */
  lemma {:induction false} RunCallsEvents(calls: seq<Call>, s: Script)
    ensures forall e :: e in RunCalls(calls, s).events ==> e.Invoke? && e.call in calls
  {
    if calls != [] && OutcomeOf(s, calls[0]).Returns? {
      RunCallsEvents(calls[1..], s);
    }
  }

  /** A stage that does not make call `c` leaves no `Invoke(c)` in the trace. */
  lemma RunStageAnchorAbsent(st: Stage, s: Script, c: Call)
    requires c !in st.calls
    ensures Invoke(c) !in RunStage(st, s).events
  {
    RunCallsEvents(st.calls, s);
  }

  /**
   * Replacing one stage's run by one that makes the same calls, ends the same
   * way and differs only by a warning line inserted after `anchor`, changes
   * the run of the whole list in the same way and no other.
   */
  lemma {:induction false} OneStageDiffers(stages: seq<Stage>, i: nat, s: Script, s': Script, anchor: Event, extra: Event)
    requires i < |stages|
    requires forall j :: 0 <= j < |stages| && j != i ==> RunStage(stages[j], s) == RunStage(stages[j], s')
    requires forall j :: 0 <= j < |stages| && j != i ==> anchor !in RunStage(stages[j], s).events
    requires RunStage(stages[i], s).events == InsertAfter(RunStage(stages[i], s').events, anchor, extra)
    requires RunStage(stages[i], s).ending == RunStage(stages[i], s').ending
    ensures RunStages(stages, s).events == InsertAfter(RunStages(stages, s').events, anchor, extra)
    ensures RunStages(stages, s).ending == RunStages(stages, s').ending
  {
    var first, first' := RunStage(stages[0], s), RunStage(stages[0], s');
    var rest, rest' := RunStages(stages[1..], s), RunStages(stages[1..], s');
    if i == 0 {
      RunStagesSame(stages[1..], s, s');
      RunStagesAnchorAbsent(stages[1..], s, anchor);
      InsertAfterAbsent(rest.events, anchor, extra);
      InsertAfterAppend(first'.events, rest'.events, anchor, extra);
    } else {
      OneStageDiffers(stages[1..], i - 1, s, s', anchor, extra);
      InsertAfterAbsent(first.events, anchor, extra);
      InsertAfterAppend(first'.events, rest'.events, anchor, extra);
    }
  }

  lemma {:induction false} RunStagesSame(stages: seq<Stage>, s: Script, s': Script)
    requires forall j :: 0 <= j < |stages| ==> RunStage(stages[j], s) == RunStage(stages[j], s')
    ensures RunStages(stages, s) == RunStages(stages, s')
  {
    if stages != [] {
      assert forall j :: 0 <= j < |stages[1..]| ==> stages[1..][j] == stages[j + 1];
      RunStagesSame(stages[1..], s, s');
    }
  }

  lemma {:induction false} RunStagesAnchorAbsent(stages: seq<Stage>, s: Script, anchor: Event)
    requires forall j :: 0 <= j < |stages| ==> anchor !in RunStage(stages[j], s).events
    ensures anchor !in RunStages(stages, s).events
  {
    if stages != [] {
      assert forall j :: 0 <= j < |stages[1..]| ==> stages[1..][j] == stages[j + 1];
      RunStagesAnchorAbsent(stages[1..], s, anchor);
    }
  }

  /** Lifts `OneStageDiffers` from the stage list to the whole hook, with its opening and closing lines. */
  lemma DrainDiffersByWarning(i: nat, s: Script, s': Script, call: Call, extra: Event)
    requires i < |Protocol| && !extra.Invoke?
    requires forall j :: 0 <= j < |Protocol| && j != i ==> RunStage(Protocol[j], s) == RunStage(Protocol[j], s')
    requires forall j :: 0 <= j < |Protocol| && j != i ==> call !in Protocol[j].calls
    requires RunStage(Protocol[i], s).events == InsertAfter(RunStage(Protocol[i], s').events, Invoke(call), extra)
    requires RunStage(Protocol[i], s).ending == RunStage(Protocol[i], s').ending
    ensures Drain(s).events == InsertAfter(Drain(s').events, Invoke(call), extra)
    ensures CallsOf(Drain(s).events) == CallsOf(Drain(s').events)
    ensures Drain(s).ending == Drain(s').ending
  {
    forall j | 0 <= j < |Protocol| && j != i
      ensures Invoke(call) !in RunStage(Protocol[j], s).events
    {
      RunStageAnchorAbsent(Protocol[j], s, call);
    }
    OneStageDiffers(Protocol, i, s, s', Invoke(call), extra);
    var r, r' := RunStages(Protocol, s), RunStages(Protocol, s');
    var tail := if r.ending.Completed? then [Info(Terminated)] else [];
    InsertAfterAppend([Info(StartingShutdown)] + r'.events, tail, Invoke(call), extra);
    InsertAfterAppend([Info(StartingShutdown)], r'.events, Invoke(call), extra);
    InsertAfterAbsent([Info(StartingShutdown)], Invoke(call), extra);
    InsertAfterAbsent(tail, Invoke(call), extra);
    InsertAfterCalls(Drain(s').events, Invoke(call), extra);
  }

  /** Stages other than `Protocol[i]` run alike under two scripts that differ only on `Protocol[i]`'s calls. */
  lemma OtherStagesAlike(i: nat, s: Script, s': Script)
    requires i < |Protocol|
    requires forall j, c :: 0 <= j < |Protocol| && j != i && c in Protocol[j].calls ==> OutcomeOf(s, c) == OutcomeOf(s', c)
    ensures forall j :: 0 <= j < |Protocol| && j != i ==> RunStage(Protocol[j], s) == RunStage(Protocol[j], s')
  {
    forall j | 0 <= j < |Protocol| && j != i
      ensures RunStage(Protocol[j], s) == RunStage(Protocol[j], s')
    {
      SameOutcomesSameBlock(Protocol[j].calls, s, s');
    }
  }

  lemma InsertAfterOne(x: Event, anchor: Event, extra: Event)
    ensures InsertAfter([x], anchor, extra) == [x] + if x == anchor then [extra] else []
  {
    assert [x][1..] == [];
  }

  /** A one-call stage whose call raised the caught exception differs from a returning one by its warning. */
  lemma CaughtSingleCall(st: Stage, s: Script, s': Script)
    requires |st.calls| == 1 && st.handler.Some?
    requires OutcomeOf(s, st.calls[0]) == Throws(st.handler.value.caught)
    requires OutcomeOf(s', st.calls[0]) == Returns
    ensures RunStage(st, s).events
         == InsertAfter(RunStage(st, s').events, Invoke(st.calls[0]), Warn(st.handler.value.warning))
    ensures RunStage(st, s).ending == RunStage(st, s').ending == Completed
  {
    var c := st.calls[0];
    assert st.calls == [c];
    RunCallsSingle(c, s);
    RunCallsSingle(c, s');
    InsertAfterAppend([Info(st.announce)], [Invoke(c)], Invoke(c), Warn(st.handler.value.warning));
    InsertAfterOne(Info(st.announce), Invoke(c), Warn(st.handler.value.warning));
    InsertAfterOne(Invoke(c), Invoke(c), Warn(st.handler.value.warning));
  }

  /**
   * An InterruptedException from the bounded wait is caught: the hook goes on
   * exactly as if the wait had returned, and the only trace of the interrupt
   * is the warning logged right after the wait.
   */
  lemma InterruptIsIsolated(s: Script)
    requires s.awaitTermination == Throws(Interrupted)
    ensures var s' := s.(awaitTermination := Returns);
      Drain(s).events
        == InsertAfter(Drain(s').events, Invoke(ExecutorAwaitTermination(AwaitSeconds, Seconds)), Warn(InterruptedWhileWaiting)) &&
      CallsOf(Drain(s).events) == CallsOf(Drain(s').events) &&
      Drain(s).ending == Drain(s').ending
  {
    var s' := s.(awaitTermination := Returns);
    var wait := ExecutorAwaitTermination(AwaitSeconds, Seconds);
    var warn := Warn(InterruptedWhileWaiting);
    assert Protocol[0].calls == [GateSetAcceptEvents(false)];
    OtherStagesAlike(1, s, s');
    var cs := ExecutorStage.calls;
    assert cs[1..] == [wait];
    RunCallsSingle(wait, s);
    RunCallsSingle(wait, s');
    var e, e' := RunStage(ExecutorStage, s), RunStage(ExecutorStage, s');
    if s.shutdown.Returns? {
      assert e.events == [Info(ShuttingDownWriters), Invoke(ExecutorShutdown)] + [Invoke(wait), warn];
      assert e'.events == [Info(ShuttingDownWriters), Invoke(ExecutorShutdown)] + [Invoke(wait)];
      InsertAfterAppend([Info(ShuttingDownWriters), Invoke(ExecutorShutdown)], [Invoke(wait)], Invoke(wait), warn);
      InsertAfterAbsent([Info(ShuttingDownWriters), Invoke(ExecutorShutdown)], Invoke(wait), warn);
      InsertAfterOne(Invoke(wait), Invoke(wait), warn);
    } else {
      assert e == e';
      InsertAfterAbsent(e'.events, Invoke(wait), warn);
    }
    assert ExecutorStage == Protocol[1];
    DrainDiffersByWarning(1, s, s', wait, warn);
  }

  /**
   * An IOException from `forceCommit` is caught: the hook goes on exactly as
   * if the commit had succeeded, with one warning right after the commit.
   */
  lemma CommitFailureIsIsolated(s: Script)
    requires s.forceCommit == Throws(IO)
    ensures var s' := s.(forceCommit := Returns);
      Drain(s).events == InsertAfter(Drain(s').events, Invoke(WriterForceCommit), Warn(CommitFailed)) &&
      CallsOf(Drain(s).events) == CallsOf(Drain(s').events) &&
      Drain(s).ending == Drain(s').ending
  {
    var s' := s.(forceCommit := Returns);
    OtherStagesAlike(2, s, s');
    assert CommitStage == Protocol[2];
    CaughtSingleCall(CommitStage, s, s');
    DrainDiffersByWarning(2, s, s', WriterForceCommit, Warn(CommitFailed));
  }

  /**
   * An IOException from `flush` is caught: the hook goes on exactly as if the
   * flush had succeeded (so the sender is still closed), with one warning
   * right after the flush.
   */
  lemma FlushFailureIsIsolated(s: Script)
    requires s.flush == Throws(IO)
    ensures var s' := s.(flush := Returns);
      Drain(s).events == InsertAfter(Drain(s').events, Invoke(WriterFlush), Warn(FlushFailed)) &&
      CallsOf(Drain(s).events) == CallsOf(Drain(s').events) &&
      Drain(s).ending == Drain(s').ending
  {
    var s' := s.(flush := Returns);
    OtherStagesAlike(4, s, s');
    assert FlushStage == Protocol[4];
    CaughtSingleCall(FlushStage, s, s');
    DrainDiffersByWarning(4, s, s', WriterFlush, Warn(FlushFailed));
  }

  // ---------------------------------------------------------------------------
  // Consequences of the reference description
  // ---------------------------------------------------------------------------

  /** Every collaborator call returns normally. */
  predicate AllReturn(s: Script)
  {
    s.shutdown == Returns && s.awaitTermination == Returns && s.forceCommit == Returns &&
    s.processQuarantinedFiles == Returns && s.flush == Returns && s.close == Returns
  }

  /**
   * When only the three caught checked exceptions occur (an interrupted wait,
   * a failed commit, a failed flush), every call of the hook is made, in
   * order, exactly once, and the hook returns normally with the closing log
   * line last.
   */
  lemma CaughtFailuresNeverStopTheSequence(s: Script)
    requires s.shutdown == Returns && s.processQuarantinedFiles == Returns && s.close == Returns
    requires s.awaitTermination in {Returns, Throws(Interrupted)}
    requires s.forceCommit in {Returns, Throws(IO)}
    requires s.flush in {Returns, Throws(IO)}
    ensures CallsOf(Drain(s).events) == FullOrder
    ensures Drain(s).ending == Completed
    ensures Drain(s).events[|Drain(s).events| - 1] == Info(Terminated)
  {
    assert Declared(s);
    var o := FullOrder;
    assert !Fatal(s, o[0]) && !Fatal(s, o[1]) && !Fatal(s, o[2]) && !Fatal(s, o[3]);
    assert !Fatal(s, o[4]) && !Fatal(s, o[5]) && !Fatal(s, o[6]);
    assert FirstFatal(s, o) == |o|;
    DrainMatchesReference(s);
    TerminatedMarkerLast(s);
  }

  lemma ReturningSingleCall(st: Stage, s: Script)
    requires |st.calls| == 1 && OutcomeOf(s, st.calls[0]) == Returns
    ensures RunStage(st, s) == Run([Info(st.announce), Invoke(st.calls[0])], Completed)
  {
    assert st.calls == [st.calls[0]];
    RunCallsSingle(st.calls[0], s);
  }

  /** The writer and sender stages, when every call returns. */
  lemma HappyWriterAndSender(s: Script)
    requires AllReturn(s)
    ensures RunStages(Protocol[2..], s)
         == Run([Info(FlushingOpenFile), Invoke(WriterForceCommit),
                 Info(PromotingQuarantined), Invoke(WriterProcessQuarantinedFiles),
                 Info(FlushingLocalFiles), Invoke(WriterFlush),
                 Info(ClosingSender), Invoke(SenderClose)], Completed)
  {
    var p2 := Protocol[2..];
    var p3 := [QuarantineStage, FlushStage, CloseStage];
    var p4 := [FlushStage, CloseStage];
    var p5 := [CloseStage];
    assert p2[0] == CommitStage && p2[1..] == p3;
    assert p3[1..] == p4 && p4[1..] == p5 && p5[1..] == [];
    ReturningSingleCall(CommitStage, s);
    ReturningSingleCall(QuarantineStage, s);
    ReturningSingleCall(FlushStage, s);
    ReturningSingleCall(CloseStage, s);
    var r5 := RunStages(p5, s);
    assert r5 == Then(RunStage(CloseStage, s), RunStages([], s));
    assert r5.events == [Info(ClosingSender), Invoke(SenderClose)] + [];
    var r4 := RunStages(p4, s);
    assert r4.events == [Info(FlushingLocalFiles), Invoke(WriterFlush)] + r5.events;
    var r3 := RunStages(p3, s);
    assert r3.events == [Info(PromotingQuarantined), Invoke(WriterProcessQuarantinedFiles)] + r4.events;
    assert RunStages(p2, s).events == [Info(FlushingOpenFile), Invoke(WriterForceCommit)] + r3.events;
  }

  /**
   * When every collaborator call returns, the trace is exactly the seven calls
   * in source order, each after its log line, between the opening and the
   * closing log lines.
   */
  lemma HappyPath(s: Script)
    requires AllReturn(s)
    ensures Drain(s).events
         == [Info(StartingShutdown),
             Info(StopAccepting), Invoke(GateSetAcceptEvents(false)),
             Info(ShuttingDownWriters), Invoke(ExecutorShutdown), Invoke(ExecutorAwaitTermination(15, Seconds)),
             Info(FlushingOpenFile), Invoke(WriterForceCommit),
             Info(PromotingQuarantined), Invoke(WriterProcessQuarantinedFiles),
             Info(FlushingLocalFiles), Invoke(WriterFlush),
             Info(ClosingSender), Invoke(SenderClose),
             Info(Terminated)]
    ensures Drain(s).ending == Completed
  {
    var p := Protocol;
    var wait := ExecutorAwaitTermination(AwaitSeconds, Seconds);
    HappyWriterAndSender(s);
    GateStageRun(s);
    ExecutorStageRun(s);
    assert p[0] == GateStage && p[1] == ExecutorStage && p[1..][1..] == p[2..];
    var r2 := RunStages(p[2..], s);
    var r1 := RunStages(p[1..], s);
    assert r1.events == [Info(ShuttingDownWriters), Invoke(ExecutorShutdown), Invoke(wait)] + r2.events;
    var r0 := RunStages(p, s);
    assert r0.events == [Info(StopAccepting), Invoke(GateSetAcceptEvents(false))] + r1.events;
    assert r0.ending == Completed;
  }

  /**
   * `executor.shutdown()` is the call right before the bounded wait, the wait
   * is the third call, and it is always for 15 seconds.
   */
  lemma ShutdownBeforeBoundedWait(s: Script)
    requires Declared(s)
    ensures var calls := CallsOf(Drain(s).events);
      forall i :: 0 <= i < |calls| && calls[i].ExecutorAwaitTermination? ==>
        i == 2 && calls[i] == ExecutorAwaitTermination(15, Seconds) && calls[1] == ExecutorShutdown
  {
    DrainMatchesReference(s);
    var calls := CallsOf(Drain(s).events);
    assert forall i :: 0 <= i < |calls| ==> calls[i] == FullOrder[i];
  }

  lemma FullOrderDistinct()
    ensures forall a, b :: 0 <= a < b < |FullOrder| ==> FullOrder[a] != FullOrder[b]
  {
  }

  /** In a list of distinct calls, a fatal call that is made is the first fatal one. */
  lemma FatalCallMadeIsLast(s: Script, o: seq<Call>, i: nat)
    requires forall a, b :: 0 <= a < b < |o| ==> o[a] != o[b]
    requires i < |o| && Fatal(s, o[i]) && o[i] in UpTo(s, o)
    ensures UpTo(s, o) == o[..i + 1]
    ensures EndOf(s, o) == Escaped(OutcomeOf(s, o[i]).exn)
  {
    var k := FirstFatal(s, o);
    assert k <= i;
    var j :| 0 <= j < |UpTo(s, o)| && UpTo(s, o)[j] == o[i];
  }

  /**
   * A call that raises an exception the hook does not catch (anything from
   * `shutdown`, `processQuarantinedFiles` or `close`; an unchecked exception
   * from any call) is the last call the hook makes: the exception escapes and
   * the closing log line is never written.
   */
  lemma FatalFailureEndsTheSequence(s: Script, i: nat)
    requires Declared(s)
    requires i < |FullOrder| && Fatal(s, FullOrder[i])
    requires FullOrder[i] in CallsOf(Drain(s).events)
    ensures CallsOf(Drain(s).events) == FullOrder[..i + 1]
    ensures Drain(s).ending == Escaped(OutcomeOf(s, FullOrder[i]).exn)
    ensures Info(Terminated) !in Drain(s).events
  {
    DrainMatchesReference(s);
    TerminatedMarkerLast(s);
    FullOrderDistinct();
    FatalCallMadeIsLast(s, FullOrder, i);
  }

  /**
   * `processQuarantinedFiles()` is not guarded: if it raises, neither `flush`
   * nor `eventSender.close()` is called.
   */
  lemma QuarantineFailureEndsTheSequence(s: Script)
    requires Declared(s)
    requires s.processQuarantinedFiles.Throws?
    requires WriterProcessQuarantinedFiles in CallsOf(Drain(s).events)
    ensures CallsOf(Drain(s).events)
         == [GateSetAcceptEvents(false), ExecutorShutdown, ExecutorAwaitTermination(15, Seconds), WriterForceCommit, WriterProcessQuarantinedFiles]
    ensures WriterFlush !in CallsOf(Drain(s).events) && SenderClose !in CallsOf(Drain(s).events)
    ensures Drain(s).ending == Escaped(s.processQuarantinedFiles.exn)
  {
    assert FullOrder[4] == WriterProcessQuarantinedFiles;
    FatalFailureEndsTheSequence(s, 4);
  }

  /**
   * `eventSender.close()` is not guarded either: if it raises, every call has
   * been made but the hook does not return normally and writes no closing line.
   */
  lemma CloseFailureSkipsTheClosingLine(s: Script)
    requires Declared(s)
    requires s.close.Throws?
    requires SenderClose in CallsOf(Drain(s).events)
    ensures CallsOf(Drain(s).events) == FullOrder
    ensures Drain(s).ending == Escaped(s.close.exn)
    ensures Info(Terminated) !in Drain(s).events
  {
    assert FullOrder[6] == SenderClose;
    FatalFailureEndsTheSequence(s, 6);
  }

  /**
   * The hook returns normally, and so writes its closing line, exactly when no
   * call raises an exception it does not catch.
   */
  lemma CompletesIffNoFatalFailure(s: Script)
    requires Declared(s)
    ensures Drain(s).ending == Completed <==> forall c :: c in FullOrder ==> !Fatal(s, c)
    ensures Info(Terminated) in Drain(s).events <==> forall c :: c in FullOrder ==> !Fatal(s, c)
  {
    DrainMatchesReference(s);
    TerminatedMarkerLast(s);
    var k := FirstFatal(s, FullOrder);
    if k < |FullOrder| {
      assert FullOrder[k] in FullOrder;
    }
  }

  /**
   * No checked exception ever escapes the hook (whose Java signature declares
   * none): whatever escapes is unchecked.
   */
  lemma NoCheckedExceptionEscapes(s: Script)
    requires Declared(s)
    ensures Drain(s).ending.Escaped? ==> Drain(s).ending.exn == Unchecked
  {
    DrainMatchesReference(s);
  }

  // ---------------------------------------------------------------------------
  // Running the stages one at a time (used by the imperative hook)
  // ---------------------------------------------------------------------------

  lemma {:induction false} RunStagesAppend(a: seq<Stage>, b: seq<Stage>, s: Script)
    ensures RunStages(a + b, s) == Then(RunStages(a, s), RunStages(b, s))
  {
    if a == [] {
      assert a + b == b;
      assert Then(Run([], Completed), RunStages(b, s)).events == [] + RunStages(b, s).events;
    } else {
      assert (a + b)[0] == a[0];
      assert (a + b)[1..] == a[1..] + b;
      RunStagesAppend(a[1..], b, s);
      var f, x, y := RunStage(a[0], s), RunStages(a[1..], s), RunStages(b, s);
      if f.ending.Completed? && x.ending.Completed? {
        AppendAssoc(f.events, x.events, y.events);
      }
    }
  }

  lemma AppendAssoc(a: seq<Event>, b: seq<Event>, c: seq<Event>)
    ensures (a + b) + c == a + (b + c)
  {
  }

  /** Running the first `k + 1` stages is running the first `k`, then stage `k`. */
  lemma StagePrefixStep(s: Script, k: nat)
    requires k < |Protocol|
    ensures RunStages(Protocol[..k + 1], s) == Then(RunStages(Protocol[..k], s), RunStage(Protocol[k], s))
  {
    assert Protocol[..k + 1] == Protocol[..k] + [Protocol[k]];
    RunStagesAppend(Protocol[..k], [Protocol[k]], s);
    assert [Protocol[k]][1..] == [];
    var r := RunStage(Protocol[k], s);
    assert r.events + [] == r.events;
  }

  /** A stage that escapes after a completed prefix is where the run ends. */
  lemma EscapeEndsRun(stages: seq<Stage>, k: nat, s: Script)
    requires k < |stages| && RunStages(stages[..k], s).ending == Completed
    requires RunStage(stages[k], s).ending.Escaped?
    ensures RunStages(stages, s)
         == Run(RunStages(stages[..k], s).events + RunStage(stages[k], s).events, RunStage(stages[k], s).ending)
  {
    assert stages == stages[..k] + stages[k..];
    RunStagesAppend(stages[..k], stages[k..], s);
    assert stages[k..][0] == stages[k];
  }

  // ---------------------------------------------------------------------------
  // Each stage of the table, run on its own
  // ---------------------------------------------------------------------------

  /** A one-call stage logs its line, makes its call, and warns if the call raised the caught exception. */
  lemma OneCallStage(st: Stage, s: Script)
    requires |st.calls| == 1
    ensures var o := OutcomeOf(s, st.calls[0]);
      RunStage(st, s)
        == if o.Returns? then Run([Info(st.announce), Invoke(st.calls[0])], Completed)
           else if st.handler.Some? && st.handler.value.caught == o.exn
           then Run([Info(st.announce), Invoke(st.calls[0]), Warn(st.handler.value.warning)], Completed)
           else Run([Info(st.announce), Invoke(st.calls[0])], Escaped(o.exn))
  {
    assert st.calls == [st.calls[0]];
    RunCallsSingle(st.calls[0], s);
  }

  /** The gate stage logs its line and closes the gate; it always completes. */
  lemma GateStageRun(s: Script)
    ensures RunStage(GateStage, s) == Run([Info(StopAccepting), Invoke(GateSetAcceptEvents(false))], Completed)
  {
    OneCallStage(GateStage, s);
  }

  /**
   * The executor stage calls `shutdown`, then the bounded wait unless
   * `shutdown` raised. An InterruptedException from either is swallowed with a
   * warning; anything else escapes.
   */
  lemma ExecutorStageRun(s: Script)
    ensures var wait := ExecutorAwaitTermination(AwaitSeconds, Seconds);
      RunStage(ExecutorStage, s)
        == if s.shutdown.Throws? then
             (if s.shutdown.exn == Interrupted
              then Run([Info(ShuttingDownWriters), Invoke(ExecutorShutdown), Warn(InterruptedWhileWaiting)], Completed)
              else Run([Info(ShuttingDownWriters), Invoke(ExecutorShutdown)], Escaped(s.shutdown.exn)))
           else if s.awaitTermination.Throws? then
             (if s.awaitTermination.exn == Interrupted
              then Run([Info(ShuttingDownWriters), Invoke(ExecutorShutdown), Invoke(wait), Warn(InterruptedWhileWaiting)], Completed)
              else Run([Info(ShuttingDownWriters), Invoke(ExecutorShutdown), Invoke(wait)], Escaped(s.awaitTermination.exn)))
           else Run([Info(ShuttingDownWriters), Invoke(ExecutorShutdown), Invoke(wait)], Completed)
  {
    var wait := ExecutorAwaitTermination(AwaitSeconds, Seconds);
    assert ExecutorStage.calls[1..] == [wait];
    RunCallsSingle(wait, s);
  }

  /** The commit stage swallows an IOException with a warning and lets anything else escape. */
  lemma CommitStageRun(s: Script)
    ensures RunStage(CommitStage, s)
         == if s.forceCommit.Returns? then Run([Info(FlushingOpenFile), Invoke(WriterForceCommit)], Completed)
            else if s.forceCommit.exn == IO
            then Run([Info(FlushingOpenFile), Invoke(WriterForceCommit), Warn(CommitFailed)], Completed)
            else Run([Info(FlushingOpenFile), Invoke(WriterForceCommit)], Escaped(s.forceCommit.exn))
  {
    OneCallStage(CommitStage, s);
  }

  /** The quarantine stage is unguarded: whatever it raises escapes. */
  lemma QuarantineStageRun(s: Script)
    ensures RunStage(QuarantineStage, s)
         == if s.processQuarantinedFiles.Returns?
            then Run([Info(PromotingQuarantined), Invoke(WriterProcessQuarantinedFiles)], Completed)
            else Run([Info(PromotingQuarantined), Invoke(WriterProcessQuarantinedFiles)], Escaped(s.processQuarantinedFiles.exn))
  {
    OneCallStage(QuarantineStage, s);
  }

  /** The flush stage swallows an IOException with a warning and lets anything else escape. */
  lemma FlushStageRun(s: Script)
    ensures RunStage(FlushStage, s)
         == if s.flush.Returns? then Run([Info(FlushingLocalFiles), Invoke(WriterFlush)], Completed)
            else if s.flush.exn == IO
            then Run([Info(FlushingLocalFiles), Invoke(WriterFlush), Warn(FlushFailed)], Completed)
            else Run([Info(FlushingLocalFiles), Invoke(WriterFlush)], Escaped(s.flush.exn))
  {
    OneCallStage(FlushStage, s);
  }

  /** The close stage is unguarded: whatever it raises escapes. */
  lemma CloseStageRun(s: Script)
    ensures RunStage(CloseStage, s)
         == if s.close.Returns? then Run([Info(ClosingSender), Invoke(SenderClose)], Completed)
            else Run([Info(ClosingSender), Invoke(SenderClose)], Escaped(s.close.exn))
  {
    OneCallStage(CloseStage, s);
  }
}
