/** What a batch of the whole loop does of what is asked for in it: by a handler of the
    user, or by a callback of a timer or of the callback queue. */
module IoLoopEffects {
  import T = OneShotTimeouts
  import P = PeriodicTimeouts
  import H = Handlers
  import C = CallbackQueue
  import M = MonotonicTimer
  import TP = OneShotProofs
  import PP = PeriodicProofs
  import TE = OneShotEffects
  import PE = PeriodicEffects
  import HP = HandlerProofs
  import HE = HandlerEffects
  import HR = HandlerRemovals
  import opened IoLoop
  import opened IoLoopProofs
  import opened IoLoopRuns
  import opened IoLoopDelivery

  // ------------------------------------------------------------- the user's handlers

  /** A handler of the user is called, and what it does is done, in every part. */
  lemma UserHandlerActs(l: Loop, events: seq<H.Event>, k: nat, acts: nat -> Act, env: Env)
    requires k < |events| && events[k].node > PERIODICS
    ensures DidAt(l, events, k, acts, env) == acts(events[k].node).ops
    ensures Past(l, events, k, acts, env)
            == RunOps(Called(Reached(l, events, k, acts, env), events[k]), acts(events[k].node).ops)
  {
  }

  // --------------------------------------------------------------------- timeouts

  lemma {:induction false} TimeoutOpsHas(ops: seq<Op>, op: T.Op)
    requires Timeout(op) in ops
    ensures op in TimeoutOps(ops)
    decreases |ops|
  {
    if ops[0] != Timeout(op) {
      TimeoutOpsHas(ops[1..], op);
    }
  }

  /** What timeout callbacks ask of their own part, told by the loop and by the part. */
  lemma {:induction false} TimeoutOpsOfRuns(runs: seq<T.Execution>, behave: nat -> seq<Op>)
    ensures TimeoutOps(OpsOfTimeouts(runs, behave)) == TE.Performed(runs, TimeoutsOnly(behave))
    decreases |runs|
  {
    if runs != [] {
      TimeoutOpsOfRuns(runs[1..], behave);
      TimeoutOpsConcat(behave(runs[0].id), OpsOfTimeouts(runs[1..], behave));
      hide TimeoutOps;
      assert TimeoutsOnly(behave)(runs[0].id) == TimeoutOps(behave(runs[0].id));
    }
  }

  /** Any event: the timeouts it asks for are issued. */
  lemma EventIssuesTimeouts(l: Loop, node: nat, act: Act, env: Env, deadline: int, callback: nat, clock: M.Clock)
    requires TP.Inv(l.timeouts)
    requires Timeout(T.Add(deadline, callback, clock)) in Did(l, Perform(l, node, act, env), node, act)
    ensures TE.Issued(l.timeouts, Perform(l, node, act, env).timeouts, deadline, callback)
  {
    hide Perform, TP.Inv, TE.Issued, TP.Run, T.RunOps, T.Pass;
    var m, op := Perform(l, node, act, env), T.Add(deadline, callback, clock);
    var ops := Did(l, m, node, act);
    PerformShadows(l, node, act, env);
    TimeoutOpsHas(ops, op);
    hide ShadowP, ShadowH, ShadowC;
    if node == TIMEOUTS {
      var fire := TP.Fire(act.now, TimeoutsOnly(act.behave), act.clock);
      OneFire(l.timeouts, fire, env.variant);
      TimeoutOpsOfRuns(Gained(l.timeouts.log, m.timeouts.log), act.behave);
      FireIssues(l.timeouts, fire, env.variant, op);
    } else {
      TimeoutCallsRun(l.timeouts, TimeoutOps(ops), env.variant);
      TE.RunOpsIssuesAdditions(l.timeouts, TimeoutOps(ops), deadline, callback, clock);
    }
  }

  lemma OneFire(s: T.State, fire: TP.Event, v: T.Variant)
    ensures TP.Run(s, [fire], v) == TP.Step(s, fire, v)
  {
    assert [fire][1..] == [];
  }

  lemma FireIssues(s: T.State, fire: TP.Event, v: T.Variant, op: T.Op)
    requires TP.Inv(s) && fire.Fire? && op.Add?
    requires op in TE.Performed(Gained(s.log, TP.Step(s, fire, v).log), fire.behave)
    ensures TE.Issued(s, TP.Step(s, fire, v), op.deadline, op.callback)
  {
    hide TE.Issued, T.Pass;
    GainedNothing(s.log);
    TP.StepExtends(s, fire, v);
    hide TP.Inv;
    if M.Readable(s.timer, fire.now) {
      TE.PassIssuesAdditions(s, fire.now, fire.behave, fire.clock, v, op.deadline, op.callback, op.clock);
    }
  }

  /** Whatever asks for it during a batch, wherever its event stands: a timeout added is
      issued, for the deadline and the callback asked for. */
  lemma AddedTimeoutIsIssued(l: Loop, env: Env, events: seq<H.Event>, k: nat, acts: nat -> Act,
                             deadline: int, callback: nat, clock: M.Clock)
    requires LoopInv(l) && H.Reportable(l.handlers, events) && k < |events|
    requires Timeout(T.Add(deadline, callback, clock)) in DidAt(l, events, k, acts, env)
    ensures TE.Issued(l.timeouts, Next(l, Wait(events, acts), env).timeouts, deadline, callback)
  {
    BatchAround(l, events, k, acts, env);
    var m, n, t := Reached(l, events, k, acts, env), Past(l, events, k, acts, env), Next(l, Wait(events, acts), env);
    var a := TraceOfBatch(l.(handlers := l.handlers.(processing := true)), events[..k], acts, env);
    var c := TraceOfBatch(n, events[k + 1..], acts, env);
    hide Reached, Next, TP.Inv, PP.Inv, HP.Inv, C.Inv, TP.Run, H.Reportable, TE.Issued, TE.Records, Perform, Did,
         TraceOfBatch, ShadowP, ShadowC;
    TP.EveryRunKeepsInvariant(l.timeouts, a.timeouts, env.variant);
    EventIssuesTimeouts(Called(m, events[k]), events[k].node, acts(events[k].node), env, deadline, callback, clock);
    TE.RunKeepsRecords(l.timeouts, a.timeouts, env.variant);
    TE.RunKeepsRecords(m.timeouts, TraceAt(l, events, k, acts, env).timeouts, env.variant);
    TE.RunKeepsRecords(n.timeouts, c.timeouts, env.variant);
    TE.IssuedThen(m.timeouts, n.timeouts, t.timeouts, deadline, callback);
    TE.IssuedThen(l.timeouts, m.timeouts, t.timeouts, deadline, callback);
  }

  // ------------------------------------------------------------ periodic timeouts

  lemma {:induction false} PeriodicOpsHas(ops: seq<Op>, op: P.Op)
    requires Periodic(op) in ops
    ensures op in PeriodicOps(ops)
    decreases |ops|
  {
    if ops[0] != Periodic(op) {
      PeriodicOpsHas(ops[1..], op);
    }
  }

  lemma {:induction false} PeriodicOpsOfRuns(runs: seq<P.Execution>, behave: nat -> seq<Op>)
    ensures PeriodicOps(OpsOfPeriodics(runs, behave)) == PE.Performed(runs, PeriodicsOnly(behave))
    decreases |runs|
  {
    if runs != [] {
      PeriodicOpsOfRuns(runs[1..], behave);
      PeriodicOpsConcat(behave(runs[0].id), OpsOfPeriodics(runs[1..], behave));
      hide PeriodicOps;
      assert PeriodicsOnly(behave)(runs[0].id) == PeriodicOps(behave(runs[0].id));
    }
  }

  lemma EventIssuesPeriodics(l: Loop, node: nat, act: Act, env: Env, op: P.Op)
    requires op.Add? && Periodic(op) in Did(l, Perform(l, node, act, env), node, act)
    ensures PE.Issued(l.periodics, Perform(l, node, act, env).periodics, op.period, op.callback)
  {
    hide Perform, PE.Issued, PP.Run, P.RunOps, P.Pass;
    var m := Perform(l, node, act, env);
    var ops := Did(l, m, node, act);
    PerformShadows(l, node, act, env);
    PeriodicOpsHas(ops, op);
    hide ShadowT, ShadowH, ShadowC;
    if node == PERIODICS {
      var fire := PP.Fire(act.now, act.later, PeriodicsOnly(act.behave), act.clock);
      OnePeriodicFire(l.periodics, fire, env.sort);
      PeriodicOpsOfRuns(Gained(l.periodics.log, m.periodics.log), act.behave);
      PeriodicFireIssues(l.periodics, fire, env.sort, op);
    } else {
      PeriodicCallsRun(l.periodics, PeriodicOps(ops), env.sort);
      PE.RunOpsIssuesAdditions(l.periodics, PeriodicOps(ops), op.period, op.callback, op.now, op.clock);
    }
  }

  lemma OnePeriodicFire(s: P.State, fire: PP.Event, sort: seq<P.Entry> -> seq<P.Entry>)
    ensures PP.Run(s, [fire], sort) == PP.Step(s, fire, sort)
  {
    assert [fire][1..] == [];
  }

  lemma PeriodicFireIssues(s: P.State, fire: PP.Event, sort: seq<P.Entry> -> seq<P.Entry>, op: P.Op)
    requires fire.Fire? && op.Add?
    requires op in PE.Performed(Gained(s.log, PP.Step(s, fire, sort).log), fire.behave)
    ensures PE.Issued(s, PP.Step(s, fire, sort), op.period, op.callback)
  {
    hide PE.Issued, P.Pass;
    GainedNothing(s.log);
    PP.RunExtendsLog(s, [fire], sort);
    OnePeriodicFire(s, fire, sort);
    if M.Readable(s.timer, fire.now) {
      PE.PassIssuesAdditions(s, fire.now, fire.later, fire.behave, fire.clock, sort,
                             op.period, op.callback, op.now, op.clock);
    }
  }

  /** The same for a periodic timeout, its period and its callback. */
  lemma AddedPeriodicIsIssued(l: Loop, env: Env, events: seq<H.Event>, k: nat, acts: nat -> Act, op: P.Op)
    requires HandlersOk(l) && H.Reportable(l.handlers, events) && k < |events|
    requires op.Add? && Periodic(op) in DidAt(l, events, k, acts, env)
    ensures PE.Issued(l.periodics, Next(l, Wait(events, acts), env).periodics, op.period, op.callback)
  {
    BatchAround(l, events, k, acts, env);
    var m, n, t := Reached(l, events, k, acts, env), Past(l, events, k, acts, env), Next(l, Wait(events, acts), env);
    var a := TraceOfBatch(l.(handlers := l.handlers.(processing := true)), events[..k], acts, env);
    var c := TraceOfBatch(n, events[k + 1..], acts, env);
    hide Reached, Next, HP.Inv, PP.Run, H.Reportable, PE.Issued, PE.Records, Perform, Did,
         TraceOfBatch, ShadowT, ShadowC;
    EventIssuesPeriodics(Called(m, events[k]), events[k].node, acts(events[k].node), env, op);
    PE.RunKeepsRecords(l.periodics, a.periodics, env.sort);
    PE.RunKeepsRecords(m.periodics, TraceAt(l, events, k, acts, env).periodics, env.sort);
    PE.RunKeepsRecords(n.periodics, c.periodics, env.sort);
    PE.IssuedThen(m.periodics, n.periodics, t.periodics, op.period, op.callback);
    PE.IssuedThen(l.periodics, m.periodics, t.periodics, op.period, op.callback);
  }

  // -------------------------------------------------------------------- callbacks

  lemma {:induction false} PostedByHas(ops: seq<Op>, thread: C.Thread, callback: C.Callback)
    requires Post(thread, callback) in ops
    ensures callback in PostedBy(ops)
    decreases |ops|
  {
    if ops[0] != Post(thread, callback) {
      PostedByHas(ops[1..], thread, callback);
    }
  }

  /** And a callback that is added is queued: it is among what the batch has added. */
  lemma PostedCallbackIsAdded(l: Loop, env: Env, events: seq<H.Event>, k: nat, acts: nat -> Act,
                              thread: C.Thread, callback: C.Callback)
    requires Rest(l.callbacks) && k < |events| && H.Reportable(l.handlers, events)
    requires Post(thread, callback) in DidAt(l, events, k, acts, env)
    ensures callback in Gained(l.callbacks.added, Next(l, Wait(events, acts), env).callbacks.added)
  {
    var m, n, t := Reached(l, events, k, acts, env), Past(l, events, k, acts, env), Next(l, Wait(events, acts), env);
    var ops := DidAt(l, events, k, acts, env);
    DispatchRests(l.(handlers := l.handlers.(processing := true)), events[..k], acts, env);
    PerformRests(Called(m, events[k]), events[k].node, acts(events[k].node), env);
    DispatchRests(n, events[k + 1..], acts, env);
    DispatchAround(l, events, k, acts, env);
    PostedByHas(ops, thread, callback);
    hide Rest, Did, Perform, DispatchAll, H.Reportable;
    InTheMiddle(l.callbacks.added, m.callbacks.added, PostedBy(ops), t.callbacks.added, callback);
  }

  lemma InTheMiddle(a: seq<C.Callback>, b: seq<C.Callback>, posted: seq<C.Callback>, c: seq<C.Callback>, x: C.Callback)
    requires a <= b && b + posted <= c && x in posted
    ensures x in Gained(a, c)
  {
    var i :| 0 <= i < |posted| && posted[i] == x;
    assert c[|b| + i] == (b + posted)[|b| + i] == x;
    assert Gained(a, c)[|b| + i - |a|] == x;
  }

  // --------------------------------------------------------------------- handlers

  /** What the k-th event asks of the handlers is what it did to them. */
  lemma {:induction false} AsksAt(l: Loop, events: seq<H.Event>, acts: nat -> Act, env: Env, k: nat)
    requires DistinctNodes(events) && k < |events|
    ensures var m := DispatchAll(l, events[..k], acts, env);
            var called := Called(m, events[k]);
            var n := Perform(called, events[k].node, acts(events[k].node), env);
            AsksOf(l, events, acts, env)(events[k].node)
            == HandlerOps(Did(called, n, events[k].node, acts(events[k].node)))
    decreases |events|
  {
    hide Perform, Did, HandlerOps;
    if k == 0 {
      assert events[..0] == [];
    } else {
      var node, called := events[0].node, Called(l, events[0]);
      var m := Perform(called, node, acts(node), env);
      var rest := events[1..];
      assert rest[k - 1] == events[k] && rest[..k - 1] == events[..k][1..] && events[..k][0] == events[0];
      AsksAt(m, rest, acts, env, k - 1);
    }
  }

  lemma {:induction false} HandlerOpsHas(ops: seq<Op>, op: H.Op)
    requires Handler(op) in ops
    ensures op in HandlerOps(ops)
    decreases |ops|
  {
    if ops[0] != Handler(op) {
      HandlerOpsHas(ops[1..], op);
    }
  }

  /** And a handler that was in the map when the batch began, and is removed by anything
      in it, waits to be pruned when it ends. */
  lemma RemovedHandlerWaits(l: Loop, env: Env, events: seq<H.Event>, k: nat, acts: nat -> Act, fd: H.Fd)
    requires HandlersOk(l) && H.Reportable(l.handlers, events) && k < |events| && fd in l.handlers.handlers
    requires Handler(H.RemoveHandler(fd)) in DidAt(l, events, k, acts, env)
    ensures fd in Dispatched(l, events, acts, env).removed
  {
    ReportedNodesDiffer(l.handlers, events);
    var begun := l.(handlers := l.handlers.(processing := true));
    var behave := AsksOf(begun, events, acts, env);
    assert HP.Live(begun.handlers, events);
    hide DispatchAll, H.DispatchAll, HP.Inv, AsksOf, Perform, Did;
    DispatchShadows(begun, events, acts, env);
    AsksAt(begun, events, acts, env, k);
    HandlerOpsHas(DidAt(l, events, k, acts, env), H.RemoveHandler(fd));
    HR.DispatchRecords(begun.handlers, events, behave, fd, k);
  }

  /** The handlers after a batch, before it prunes, are what its events ask for, one after
      another, and nothing else. */
  lemma HandlersDoWhatIsAsked(l: Loop, env: Env, events: seq<H.Event>, acts: nat -> Act)
    requires HandlersOk(l) && H.Reportable(l.handlers, events)
    ensures forall k :: 0 <= k < |events| ==> events[k].fd in l.handlers.handlers
    ensures var begun := l.(handlers := l.handlers.(processing := true));
            var asked := HE.Asked(events, AsksOf(begun, events, acts, env));
            Dispatched(l, events, acts, env)
            == H.RunOps(begun.handlers, asked).(log := l.handlers.log + HP.CallsOf(l.handlers.handlers, events),
                                                processing := false)
  {
    ReportedNodesDiffer(l.handlers, events);
    var begun := l.(handlers := l.handlers.(processing := true));
    assert HP.Live(begun.handlers, events);
    hide DispatchAll, H.DispatchAll, HP.Inv, AsksOf, H.RunOps, HP.CallsOf;
    DispatchShadows(begun, events, acts, env);
    HE.DispatchDoesWhatIsAsked(begun.handlers, events, AsksOf(begun, events, acts, env));
  }

  // ------------------------------------------------------------- between batches

  /** A handler removed outside a batch is never called again, however the loop runs on. */
  lemma RemovedOutsideIsNeverCalled(l: Loop, fd: H.Fd, rounds: seq<Round>, env: Env)
    requires HandlersOk(l) && fd in l.handlers.handlers
    ensures var m := Next(l, Outside(Handler(H.RemoveHandler(fd))), env);
            HP.NeverCalled(Run(m, rounds, env).handlers.log, |l.handlers.log|, l.handlers.handlers[fd].node)
  {
    var round := Outside(Handler(H.RemoveHandler(fd)));
    var m := Next(l, round, env);
    NextSplits(l, round, env);
    HandlersStayOk(l, m, HandlersRound(l, round, env));
    EveryLoopRunSplits(m, rounds, env);
    hide Run, HP.Run, SplitOf, HP.Inv, HP.NothingWild;
    HE.RemovedOutsideIsNeverCalled(l.handlers, fd, SplitOf(m, rounds, env).handlers);
  }
}
