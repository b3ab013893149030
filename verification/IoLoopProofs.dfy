/** Every run of the whole loop is, in each of its four parts, a run of that part
    alone: so whatever the parts keep, the loop keeps. */
module IoLoopProofs {
  import T = OneShotTimeouts
  import P = PeriodicTimeouts
  import H = Handlers
  import C = CallbackQueue
  import TP = OneShotProofs
  import PP = PeriodicProofs
  import HP = HandlerProofs
  import HE = HandlerEffects
  import opened IoLoop
  import M = MonotonicTimer

  // -------------------------------------------- the operations of each part alone

  function TimeoutOps(ops: seq<Op>): seq<T.Op> {
    if ops == [] then []
    else (if ops[0].Timeout? then [ops[0].timeout] else []) + TimeoutOps(ops[1..])
  }

  function PeriodicOps(ops: seq<Op>): seq<P.Op> {
    if ops == [] then []
    else (if ops[0].Periodic? then [ops[0].periodic] else []) + PeriodicOps(ops[1..])
  }

  function HandlerOps(ops: seq<Op>): seq<H.Op> {
    if ops == [] then []
    else (if ops[0].Handler? then [ops[0].handler] else []) + HandlerOps(ops[1..])
  }

  function Posts(ops: seq<Op>): seq<C.Step> {
    if ops == [] then []
    else (if ops[0].Post? then PostSteps(ops[0].thread, ops[0].callback) else []) + Posts(ops[1..])
  }

  lemma {:induction false} StepsConcat(s: C.State, a: seq<C.Step>, b: seq<C.Step>)
    ensures C.Run(s, a + b) == C.Run(C.Run(s, a), b)
    decreases |a|
  {
    hide C.Enabled, C.Next;
    if a == [] {
      assert a + b == b;
    } else {
      assert (a + b)[1..] == a[1..] + b;
      StepsConcat(if C.Enabled(s, a[0]) then C.Next(s, a[0]) else s, a[1..], b);
    }
  }

  lemma {:induction false} TimeoutRunConcat(s: T.State, a: seq<TP.Event>, b: seq<TP.Event>, v: T.Variant)
    ensures TP.Run(s, a + b, v) == TP.Run(TP.Run(s, a, v), b, v)
    decreases |a|
  {
    hide TP.Step;
    if a == [] {
      assert a + b == b;
    } else {
      assert (a + b)[1..] == a[1..] + b;
      TimeoutRunConcat(TP.Step(s, a[0], v), a[1..], b, v);
    }
  }

  lemma {:induction false} PeriodicRunConcat(s: P.State, a: seq<PP.Event>, b: seq<PP.Event>,
                                             sort: seq<P.Entry> -> seq<P.Entry>)
    ensures PP.Run(s, a + b, sort) == PP.Run(PP.Run(s, a, sort), b, sort)
    decreases |a|
  {
    hide PP.Step;
    if a == [] {
      assert a + b == b;
    } else {
      assert (a + b)[1..] == a[1..] + b;
      PeriodicRunConcat(PP.Step(s, a[0], sort), a[1..], b, sort);
    }
  }

  function TimeoutCalls(ops: seq<T.Op>): seq<TP.Event> {
    if ops == [] then [] else [TP.Call(ops[0])] + TimeoutCalls(ops[1..])
  }

  lemma {:induction false} TimeoutCallsRun(s: T.State, ops: seq<T.Op>, v: T.Variant)
    ensures TP.Run(s, TimeoutCalls(ops), v) == T.RunOps(s, ops)
    decreases |ops|
  {
    if ops != [] {
      assert TimeoutCalls(ops)[1..] == TimeoutCalls(ops[1..]);
      TimeoutCallsRun(T.Apply(s, ops[0]), ops[1..], v);
    }
  }

  function PeriodicCalls(ops: seq<P.Op>): seq<PP.Event> {
    if ops == [] then [] else [PP.Call(ops[0])] + PeriodicCalls(ops[1..])
  }

  lemma {:induction false} PeriodicCallsRun(s: P.State, ops: seq<P.Op>, sort: seq<P.Entry> -> seq<P.Entry>)
    ensures PP.Run(s, PeriodicCalls(ops), sort) == P.RunOps(s, ops)
    decreases |ops|
  {
    if ops != [] {
      assert PeriodicCalls(ops)[1..] == PeriodicCalls(ops[1..]);
      PeriodicCallsRun(P.Apply(s, ops[0]), ops[1..], sort);
    }
  }

  /** The parts do not see each other's operations. */
  lemma {:induction false} RunOpsSplits(l: Loop, ops: seq<Op>)
    ensures RunOps(l, ops) ==
            Loop(T.RunOps(l.timeouts, TimeoutOps(ops)), P.RunOps(l.periodics, PeriodicOps(ops)),
                 H.RunOps(l.handlers, HandlerOps(ops)), C.Run(l.callbacks, Posts(ops)))
    decreases |ops|
  {
    hide T.Apply, P.Apply, H.Apply, C.Enabled, C.Next, PostSteps;
    if ops != [] {
      var rest := ops[1..];
      RunOpsSplits(Apply(l, ops[0]), rest);
      assert !ops[0].Timeout? ==> TimeoutOps(ops) == TimeoutOps(rest);
      assert !ops[0].Periodic? ==> PeriodicOps(ops) == PeriodicOps(rest);
      assert !ops[0].Handler? ==> HandlerOps(ops) == HandlerOps(rest);
      assert !ops[0].Post? ==> Posts(ops) == Posts(rest);
      match ops[0]
      case Timeout(o) => assert ([o] + TimeoutOps(rest))[1..] == TimeoutOps(rest);
      case Periodic(o) => assert ([o] + PeriodicOps(rest))[1..] == PeriodicOps(rest);
      case Handler(o) => assert ([o] + HandlerOps(rest))[1..] == HandlerOps(rest);
      case Post(t, c) => StepsConcat(l.callbacks, PostSteps(t, c), Posts(rest));
    }
  }

  // ------------------------------------------------------------------- shadows

  /** What the run of the loop is in each part. */
  datatype Trace = Trace(timeouts: seq<TP.Event>, periodics: seq<PP.Event>, handlers: seq<H.Op>, callbacks: seq<C.Step>)

  const NONE := Trace([], [], [], [])

  function Then(a: Trace, b: Trace): Trace {
    Trace(a.timeouts + b.timeouts, a.periodics + b.periodics, a.handlers + b.handlers, a.callbacks + b.callbacks)
  }

  ghost predicate ShadowT(l: Loop, m: Loop, a: Trace, env: Env) {
    m.timeouts == TP.Run(l.timeouts, a.timeouts, env.variant)
  }

  ghost predicate ShadowP(l: Loop, m: Loop, a: Trace, env: Env) {
    m.periodics == PP.Run(l.periodics, a.periodics, env.sort)
  }

  ghost predicate ShadowH(l: Loop, m: Loop, a: Trace) {
    m.handlers == H.RunOps(l.handlers, a.handlers)
  }

  ghost predicate ShadowC(l: Loop, m: Loop, a: Trace) {
    m.callbacks == C.Run(l.callbacks, a.callbacks)
  }

  lemma ShadowsThen(l: Loop, m: Loop, n: Loop, a: Trace, b: Trace, env: Env)
    ensures ShadowT(l, m, a, env) && ShadowT(m, n, b, env) ==> ShadowT(l, n, Then(a, b), env)
    ensures ShadowP(l, m, a, env) && ShadowP(m, n, b, env) ==> ShadowP(l, n, Then(a, b), env)
    ensures ShadowH(l, m, a) && ShadowH(m, n, b) ==> ShadowH(l, n, Then(a, b))
    ensures ShadowC(l, m, a) && ShadowC(m, n, b) ==> ShadowC(l, n, Then(a, b))
  {
    hide TP.Run, PP.Run, H.RunOps, C.Run;
    TimeoutRunConcat(l.timeouts, a.timeouts, b.timeouts, env.variant);
    PeriodicRunConcat(l.periodics, a.periodics, b.periodics, env.sort);
    HE.RunOpsConcat(l.handlers, a.handlers, b.handlers);
    StepsConcat(l.callbacks, a.callbacks, b.callbacks);
  }

  function TraceOf(ops: seq<Op>): Trace {
    Trace(TimeoutCalls(TimeoutOps(ops)), PeriodicCalls(PeriodicOps(ops)), HandlerOps(ops), Posts(ops))
  }

  lemma RunOpsShadows(l: Loop, ops: seq<Op>, env: Env)
    ensures var m, a := RunOps(l, ops), TraceOf(ops);
            && ShadowT(l, m, a, env) && ShadowP(l, m, a, env) && ShadowH(l, m, a) && ShadowC(l, m, a)
            && m.timeouts == T.RunOps(l.timeouts, TimeoutOps(ops))
            && m.periodics == P.RunOps(l.periodics, PeriodicOps(ops))
  {
    hide T.RunOps, P.RunOps, H.RunOps, C.Run, TP.Run, PP.Run, TimeoutOps, PeriodicOps, HandlerOps, Posts, RunOps;
    RunOpsSplits(l, ops);
    TimeoutCallsRun(l.timeouts, TimeoutOps(ops), env.variant);
    PeriodicCallsRun(l.periodics, PeriodicOps(ops), env.sort);
  }

  lemma {:induction false} TimeoutOpsConcat(a: seq<Op>, b: seq<Op>)
    ensures TimeoutOps(a + b) == TimeoutOps(a) + TimeoutOps(b)
    decreases |a|
  {
    if a == [] {
      assert a + b == b;
    } else {
      var one, x, y := if a[0].Timeout? then [a[0].timeout] else [], TimeoutOps(a[1..]), TimeoutOps(b);
      assert (a + b)[1..] == a[1..] + b;
      TimeoutOpsConcat(a[1..], b);
      assert TimeoutOps(a + b) == one + (x + y) && TimeoutOps(a) == one + x;
      assert one + (x + y) == (one + x) + y;
    }
  }

  lemma {:induction false} PeriodicOpsConcat(a: seq<Op>, b: seq<Op>)
    ensures PeriodicOps(a + b) == PeriodicOps(a) + PeriodicOps(b)
    decreases |a|
  {
    if a == [] {
      assert a + b == b;
    } else {
      var one, x, y := if a[0].Periodic? then [a[0].periodic] else [], PeriodicOps(a[1..]), PeriodicOps(b);
      assert (a + b)[1..] == a[1..] + b;
      PeriodicOpsConcat(a[1..], b);
      assert PeriodicOps(a + b) == one + (x + y) && PeriodicOps(a) == one + x;
      assert one + (x + y) == (one + x) + y;
    }
  }

  lemma {:induction false} HandlerOpsConcat(a: seq<Op>, b: seq<Op>)
    ensures HandlerOps(a + b) == HandlerOps(a) + HandlerOps(b)
    decreases |a|
  {
    if a == [] {
      assert a + b == b;
    } else {
      var one, x, y := if a[0].Handler? then [a[0].handler] else [], HandlerOps(a[1..]), HandlerOps(b);
      assert (a + b)[1..] == a[1..] + b;
      HandlerOpsConcat(a[1..], b);
      assert HandlerOps(a + b) == one + (x + y) && HandlerOps(a) == one + x;
      assert one + (x + y) == (one + x) + y;
    }
  }

  lemma {:induction false} PostsConcat(a: seq<Op>, b: seq<Op>)
    ensures Posts(a + b) == Posts(a) + Posts(b)
    decreases |a|
  {
    if a == [] {
      assert a + b == b;
    } else {
      var one, x, y := if a[0].Post? then PostSteps(a[0].thread, a[0].callback) else [], Posts(a[1..]), Posts(b);
      assert (a + b)[1..] == a[1..] + b;
      PostsConcat(a[1..], b);
      assert Posts(a + b) == one + (x + y) && Posts(a) == one + x;
      assert one + (x + y) == (one + x) + y;
    }
  }

  lemma {:induction false} TimeoutCallsConcat(a: seq<T.Op>, b: seq<T.Op>)
    ensures TimeoutCalls(a + b) == TimeoutCalls(a) + TimeoutCalls(b)
    decreases |a|
  {
    if a == [] {
      assert a + b == b;
    } else {
      assert (a + b)[1..] == a[1..] + b;
      TimeoutCallsConcat(a[1..], b);
    }
  }

  lemma {:induction false} PeriodicCallsConcat(a: seq<P.Op>, b: seq<P.Op>)
    ensures PeriodicCalls(a + b) == PeriodicCalls(a) + PeriodicCalls(b)
    decreases |a|
  {
    if a == [] {
      assert a + b == b;
    } else {
      assert (a + b)[1..] == a[1..] + b;
      PeriodicCallsConcat(a[1..], b);
    }
  }

  lemma TraceConcat(a: seq<Op>, b: seq<Op>)
    ensures TraceOf(a + b) == Then(TraceOf(a), TraceOf(b))
  {
    hide TimeoutOps, PeriodicOps, HandlerOps, Posts, TimeoutCalls, PeriodicCalls;
    TimeoutOpsConcat(a, b);
    PeriodicOpsConcat(a, b);
    HandlerOpsConcat(a, b);
    PostsConcat(a, b);
    TimeoutCallsConcat(TimeoutOps(a), TimeoutOps(b));
    PeriodicCallsConcat(PeriodicOps(a), PeriodicOps(b));
  }

  // ------------------------------------------------------ what the events run

  /** What a callback does to the one-shot timeouts. */
  function TimeoutsOnly(behave: nat -> seq<Op>): nat -> seq<T.Op> {
    (id: nat) => TimeoutOps(behave(id))
  }

  function PeriodicsOnly(behave: nat -> seq<Op>): nat -> seq<P.Op> {
    (id: nat) => PeriodicOps(behave(id))
  }

  /** What the callbacks of a run of executions do, one after another. */
  function OpsOfTimeouts(runs: seq<T.Execution>, behave: nat -> seq<Op>): seq<Op> {
    if runs == [] then [] else behave(runs[0].id) + OpsOfTimeouts(runs[1..], behave)
  }

  function OpsOfPeriodics(runs: seq<P.Execution>, behave: nat -> seq<Op>): seq<Op> {
    if runs == [] then [] else behave(runs[0].id) + OpsOfPeriodics(runs[1..], behave)
  }

  function OpsOfCallbacks(calls: seq<C.Callback>, behave: nat -> seq<Op>): seq<Op> {
    if calls == [] then [] else behave(calls[0]) + OpsOfCallbacks(calls[1..], behave)
  }

  /** The steps of the callback queue while these callbacks run. */
  function CallSteps(calls: seq<C.Callback>, behave: nat -> seq<Op>): seq<C.Step> {
    if calls == [] then [C.LoopDone]
    else [C.LoopCall] + (Posts(behave(calls[0])) + CallSteps(calls[1..], behave))
  }

  /** What a log has gained. */
  function Gained<E>(before: seq<E>, after: seq<E>): seq<E> {
    if |before| <= |after| then after[|before|..] else []
  }

  lemma GainedFirst<E>(log: seq<E>, e: E, all: seq<E>)
    requires log + [e] <= all
    ensures log <= all && Gained(log, all) == [e] + Gained(log + [e], all)
  {
    assert all[..|log| + 1] == log + [e];
  }

  lemma GainedNothing<E>(log: seq<E>)
    ensures Gained(log, log) == []
  {
  }

  /** The other three parts go through what these operations do to them. */
  ghost predicate BesidesT(l: Loop, m: Loop, ops: seq<Op>, env: Env) {
    ShadowP(l, m, TraceOf(ops), env) && ShadowH(l, m, TraceOf(ops)) && ShadowC(l, m, TraceOf(ops))
  }

  ghost predicate BesidesP(l: Loop, m: Loop, ops: seq<Op>, env: Env) {
    ShadowT(l, m, TraceOf(ops), env) && ShadowH(l, m, TraceOf(ops)) && ShadowC(l, m, TraceOf(ops))
  }

  lemma BesidesThen(l: Loop, m: Loop, n: Loop, a: seq<Op>, b: seq<Op>, env: Env)
    ensures BesidesT(l, m, a, env) && BesidesT(m, n, b, env) ==> BesidesT(l, n, a + b, env)
    ensures BesidesP(l, m, a, env) && BesidesP(m, n, b, env) ==> BesidesP(l, n, a + b, env)
  {
    hide ShadowT, ShadowP, ShadowH, ShadowC, TraceOf, Then;
    TraceConcat(a, b);
    ShadowsThen(l, m, n, TraceOf(a), TraceOf(b), env);
  }

  lemma BesidesNothing(l: Loop, env: Env)
    ensures BesidesT(l, l, [], env) && BesidesP(l, l, [], env)
  {
  }

  lemma RunOpsBesides(l: Loop, ops: seq<Op>, env: Env)
    ensures var m := RunOps(l, ops);
            && m.timeouts == T.RunOps(l.timeouts, TimeoutOps(ops))
            && m.periodics == P.RunOps(l.periodics, PeriodicOps(ops))
            && BesidesT(l, m, ops, env) && BesidesP(l, m, ops, env)
  {
    hide ShadowT, ShadowP, ShadowH, ShadowC, TraceOf;
    RunOpsShadows(l, ops, env);
  }

  /** Running the due timeouts of the loop is running them in their own part, and doing
      in the other parts what the callbacks that ran do there, in their order. */
  lemma {:induction false} RunTimeoutsShadows(l: Loop, i: nat, now: int, behave: nat -> seq<Op>, env: Env)
    requires l.timeouts.processing && i <= |l.timeouts.list|
    ensures var (m, k) := RunTimeouts(l, i, now, behave);
            && (m.timeouts, k) == T.Traverse(l.timeouts, i, now, TimeoutsOnly(behave))
            && l.timeouts.log <= m.timeouts.log
            && BesidesT(l, m, OpsOfTimeouts(Gained(l.timeouts.log, m.timeouts.log), behave), env)
    decreases |l.timeouts.list| - i
  {
    hide T.RunOps, RunOps, BesidesT, BesidesP, TimeoutOps, Gained;
    BesidesNothing(l, env);
    GainedNothing(l.timeouts.log);
    if i < |l.timeouts.list| {
      if l.timeouts.list[i].remove {
        RunTimeoutsShadows(l, i + 1, now, behave, env);
      } else if l.timeouts.list[i].deadline <= now {
        var id := l.timeouts.list[i].id;
        var begun := l.(timeouts := T.Begin(l.timeouts, i, now));
        var m := RunOps(begun, behave(id));
        RunOpsBesides(begun, behave(id), env);
        assert m.timeouts.processing && |m.timeouts.list| == |l.timeouts.list|;
        assert m.timeouts.log == l.timeouts.log + [T.Execution(id, l.timeouts.list[i].callback, now)];
        hide T.Begin, T.Frozen;
        RunTimeoutsShadows(m, i + 1, now, behave, env);
        TimeoutsFirst(l, begun, m, RunTimeouts(m, i + 1, now, behave).0, id, l.timeouts.list[i].callback, now,
                      behave, env);
      }
    }
  }

  lemma TimeoutsFirst(l: Loop, begun: Loop, m: Loop, n: Loop, id: nat, callback: nat, now: int,
                      behave: nat -> seq<Op>, env: Env)
    requires begun == l.(timeouts := begun.timeouts) && BesidesT(begun, m, behave(id), env)
    requires m.timeouts.log == l.timeouts.log + [T.Execution(id, callback, now)] <= n.timeouts.log
    requires BesidesT(m, n, OpsOfTimeouts(Gained(m.timeouts.log, n.timeouts.log), behave), env)
    ensures l.timeouts.log <= n.timeouts.log
    ensures BesidesT(l, n, OpsOfTimeouts(Gained(l.timeouts.log, n.timeouts.log), behave), env)
  {
    var rest := Gained(m.timeouts.log, n.timeouts.log);
    GainedFirst(l.timeouts.log, T.Execution(id, callback, now), n.timeouts.log);
    assert ([T.Execution(id, callback, now)] + rest)[1..] == rest;
    assert BesidesT(l, m, behave(id), env);
    hide BesidesT, Gained;
    BesidesThen(l, m, n, behave(id), OpsOfTimeouts(rest, behave), env);
  }

  lemma {:induction false} RunPeriodicsShadows(l: Loop, i: nat, now: int, behave: nat -> seq<Op>, env: Env)
    requires l.periodics.processing && i <= |l.periodics.list|
    ensures var m := RunPeriodics(l, i, now, behave);
            && m.periodics == P.Traverse(l.periodics, i, now, PeriodicsOnly(behave)).0
            && l.periodics.log <= m.periodics.log
            && BesidesP(l, m, OpsOfPeriodics(Gained(l.periodics.log, m.periodics.log), behave), env)
    decreases |l.periodics.list| - i
  {
    hide P.RunOps, RunOps, BesidesT, BesidesP, PeriodicOps, Gained;
    BesidesNothing(l, env);
    GainedNothing(l.periodics.log);
    if i < |l.periodics.list| {
      if l.periodics.list[i].remove {
        RunPeriodicsShadows(l, i + 1, now, behave, env);
      } else if l.periodics.list[i].deadline <= now {
        var id := l.periodics.list[i].id;
        var begun := l.(periodics := P.Begin(l.periodics, i, now));
        var m := RunOps(begun, behave(id));
        RunOpsBesides(begun, behave(id), env);
        assert m.periodics.processing && |m.periodics.list| == |l.periodics.list|;
        assert m.periodics.log == l.periodics.log + [P.Execution(id, l.periodics.list[i].callback, now)];
        hide P.Begin, P.Frozen;
        RunPeriodicsShadows(m, i + 1, now, behave, env);
        PeriodicsFirst(l, begun, m, RunPeriodics(m, i + 1, now, behave), id, l.periodics.list[i].callback, now,
                       behave, env);
      }
    }
  }

  lemma PeriodicsFirst(l: Loop, begun: Loop, m: Loop, n: Loop, id: nat, callback: nat, now: int,
                       behave: nat -> seq<Op>, env: Env)
    requires begun == l.(periodics := begun.periodics) && BesidesP(begun, m, behave(id), env)
    requires m.periodics.log == l.periodics.log + [P.Execution(id, callback, now)] <= n.periodics.log
    requires BesidesP(m, n, OpsOfPeriodics(Gained(m.periodics.log, n.periodics.log), behave), env)
    ensures l.periodics.log <= n.periodics.log
    ensures BesidesP(l, n, OpsOfPeriodics(Gained(l.periodics.log, n.periodics.log), behave), env)
  {
    var rest := Gained(m.periodics.log, n.periodics.log);
    GainedFirst(l.periodics.log, P.Execution(id, callback, now), n.periodics.log);
    assert ([P.Execution(id, callback, now)] + rest)[1..] == rest;
    assert BesidesP(l, m, behave(id), env);
    hide BesidesP, Gained;
    BesidesThen(l, m, n, behave(id), OpsOfPeriodics(rest, behave), env);
  }

  /** What the callbacks that a dispatched element ran did, told from what it left in the
      logs, or what the user's handler did. */
  function Did(l: Loop, m: Loop, node: nat, act: Act): seq<Op> {
    if node == CALLBACKS then OpsOfCallbacks(Gained(l.callbacks.executed, m.callbacks.executed), act.behave)
    else if node == STOP then []
    else if node == TIMEOUTS then OpsOfTimeouts(Gained(l.timeouts.log, m.timeouts.log), act.behave)
    else if node == PERIODICS then OpsOfPeriodics(Gained(l.periodics.log, m.periodics.log), act.behave)
    else act.ops
  }

  /** What that is in each part: the operations, except that a timer's own part sees its
      timer fire, and the callback queue sees the loop work through it. */
  function TraceOfEvent(l: Loop, m: Loop, node: nat, act: Act): Trace {
    var a := TraceOf(Did(l, m, node, act));
    if node == CALLBACKS then
      a.(callbacks := MOVE_OUT + CallSteps(Gained(l.callbacks.executed, m.callbacks.executed), act.behave))
    else if node == TIMEOUTS then
      a.(timeouts := [TP.Fire(act.now, TimeoutsOnly(act.behave), act.clock)])
    else if node == PERIODICS then
      a.(periodics := [PP.Fire(act.now, act.later, PeriodicsOnly(act.behave), act.clock)])
    else a
  }

  ghost predicate Shadows(l: Loop, m: Loop, a: Trace, env: Env) {
    ShadowT(l, m, a, env) && ShadowP(l, m, a, env) && ShadowH(l, m, a) && ShadowC(l, m, a)
  }

  lemma ProcessTimeoutsShadows(l: Loop, act: Act, env: Env)
    ensures var m := ProcessTimeouts(l, act, env); Shadows(l, m, TraceOfEvent(l, m, TIMEOUTS, act), env)
  {
    hide RunTimeouts, T.Traverse, M.Readable, TraceOf, OpsOfTimeouts;
    var fire := TP.Fire(act.now, TimeoutsOnly(act.behave), act.clock);
    var m := ProcessTimeouts(l, act, env);
    assert TP.Run(l.timeouts, [fire], env.variant) == TP.Step(l.timeouts, fire, env.variant);
    if M.Readable(l.timeouts.timer, act.now) {
      var begun := l.(timeouts := l.timeouts.(processing := true, timer := M.Idle));
      RunTimeoutsShadows(begun, 0, act.now, act.behave, env);
      var (n, i) := RunTimeouts(begun, 0, act.now, act.behave);
      FinishKeepsLog(n.timeouts, i, act.clock, env.variant);
      hide T.Finish;
    } else {
      NothingDone(l, act.behave, env);
    }
  }

  lemma FinishKeepsLog(s: T.State, i: nat, clock: M.Clock, v: T.Variant)
    requires i <= |s.list|
    ensures T.Finish(s, i, clock, v).log == s.log
  {
    TP.MergeLog(T.Prune(T.ErasePassed(s, i, v)));
  }

  lemma NothingDone(l: Loop, behave: nat -> seq<Op>, env: Env)
    ensures OpsOfTimeouts(Gained(l.timeouts.log, l.timeouts.log), behave) == []
    ensures OpsOfPeriodics(Gained(l.periodics.log, l.periodics.log), behave) == []
    ensures BesidesT(l, l, [], env) && BesidesP(l, l, [], env)
  {
  }

  lemma ProcessPeriodicsShadows(l: Loop, act: Act, env: Env)
    ensures var m := ProcessPeriodics(l, act, env); Shadows(l, m, TraceOfEvent(l, m, PERIODICS, act), env)
  {
    hide RunPeriodics, P.Traverse, M.Readable, TraceOf, OpsOfPeriodics;
    var fire := PP.Fire(act.now, act.later, PeriodicsOnly(act.behave), act.clock);
    var m := ProcessPeriodics(l, act, env);
    assert PP.Run(l.periodics, [fire], env.sort) == PP.Step(l.periodics, fire, env.sort);
    if M.Readable(l.periodics.timer, act.now) {
      var begun := l.(periodics := l.periodics.(processing := true, timer := M.Idle));
      RunPeriodicsShadows(begun, 0, act.now, act.behave, env);
      var n := RunPeriodics(begun, 0, act.now, act.behave);
      PP.MergeMembers(P.Renew(n.periodics, act.later, env.sort));
      hide P.Renew, P.Merge;
    } else {
      NothingDone(l, act.behave, env);
    }
  }

  /** What the moved callbacks do in the other parts, and to the queue they came from. */
  lemma {:induction false} RunCallbacksShadows(l: Loop, behave: nat -> seq<Op>, env: Env)
    requires l.callbacks.loop.Running?
    ensures var m, calls := RunCallbacks(l, behave), C.InHand(l.callbacks.loop);
            && m.callbacks.executed == l.callbacks.executed + calls
            && m.callbacks == C.Run(l.callbacks, CallSteps(calls, behave))
            && BesidesC(l, m, OpsOfCallbacks(calls, behave), env)
    decreases |l.callbacks.loop.batch| - l.callbacks.loop.next
  {
    hide RunOps, BesidesC, Posts, C.Run;
    var at := l.callbacks.loop;
    if at.next >= |at.batch| {
      assert C.InHand(at) == [];
      OneStep(l.callbacks, C.LoopDone);
      NoCalls(behave);
      BesidesNothingC(l, env);
    } else {
      var call := at.batch[at.next];
      var called := l.(callbacks := C.Next(l.callbacks, C.LoopCall));
      var m := RunOps(called, behave(call));
      RunOpsBesidesC(called, behave(call), env);
      RunOpsKeepsExecuted(called, behave(call));
      OneStep(l.callbacks, C.LoopCall);
      RunCallbacksShadows(m, behave, env);
      assert C.InHand(at) == [call] + C.InHand(m.callbacks.loop);
      assert called.callbacks.executed == l.callbacks.executed + [call];
      hide C.Next, C.Enabled, C.InHand, OpsOfCallbacks, CallSteps;
      CallbacksFirst(l, called, m, RunCallbacks(m, behave), call, C.InHand(m.callbacks.loop), behave, env);
    }
  }

  lemma CallbacksFirst(l: Loop, called: Loop, m: Loop, n: Loop, call: C.Callback, rest: seq<C.Callback>,
                       behave: nat -> seq<Op>, env: Env)
    requires called == l.(callbacks := called.callbacks) && C.Run(l.callbacks, [C.LoopCall]) == called.callbacks
    requires m.callbacks == C.Run(called.callbacks, Posts(behave(call))) && BesidesC(called, m, behave(call), env)
    requires m.callbacks.executed == l.callbacks.executed + [call]
    requires n.callbacks.executed == m.callbacks.executed + rest
    requires n.callbacks == C.Run(m.callbacks, CallSteps(rest, behave))
    requires BesidesC(m, n, OpsOfCallbacks(rest, behave), env)
    ensures n.callbacks.executed == l.callbacks.executed + ([call] + rest)
    ensures n.callbacks == C.Run(l.callbacks, CallSteps([call] + rest, behave))
    ensures BesidesC(l, n, OpsOfCallbacks([call] + rest, behave), env)
  {
    CallsFirst(call, rest, behave);
    hide C.Run, BesidesC, Posts, OpsOfCallbacks, CallSteps;
    BesidesFromC(l, called, m, behave(call), env);
    CallFirst(l.callbacks, called.callbacks, m.callbacks, Posts(behave(call)), CallSteps(rest, behave));
    BesidesThenC(l, m, n, behave(call), OpsOfCallbacks(rest, behave), env);
  }

  lemma CallsFirst(call: C.Callback, rest: seq<C.Callback>, behave: nat -> seq<Op>)
    ensures OpsOfCallbacks([call] + rest, behave) == behave(call) + OpsOfCallbacks(rest, behave)
    ensures CallSteps([call] + rest, behave) == [C.LoopCall] + (Posts(behave(call)) + CallSteps(rest, behave))
  {
    assert ([call] + rest)[1..] == rest;
  }

  lemma CallFirst(s: C.State, t: C.State, u: C.State, posts: seq<C.Step>, rest: seq<C.Step>)
    requires C.Run(s, [C.LoopCall]) == t && C.Run(t, posts) == u
    ensures C.Run(s, [C.LoopCall] + (posts + rest)) == C.Run(u, rest)
  {
    hide C.Run;
    StepsConcat(s, [C.LoopCall], posts + rest);
    StepsConcat(t, posts, rest);
  }

  ghost predicate BesidesC(l: Loop, m: Loop, ops: seq<Op>, env: Env) {
    ShadowT(l, m, TraceOf(ops), env) && ShadowP(l, m, TraceOf(ops), env) && ShadowH(l, m, TraceOf(ops))
  }

  lemma BesidesNothingC(l: Loop, env: Env)
    ensures forall m: Loop :: m.timeouts == l.timeouts && m.periodics == l.periodics && m.handlers == l.handlers ==>
              BesidesC(l, m, [], env)
  {
  }

  lemma BesidesThenC(l: Loop, m: Loop, n: Loop, a: seq<Op>, b: seq<Op>, env: Env)
    ensures BesidesC(l, m, a, env) && BesidesC(m, n, b, env) ==> BesidesC(l, n, a + b, env)
  {
    hide ShadowT, ShadowP, ShadowH, ShadowC, TraceOf, Then;
    TraceConcat(a, b);
    ShadowsThen(l, m, n, TraceOf(a), TraceOf(b), env);
  }

  lemma BesidesFromC(l: Loop, l': Loop, m: Loop, ops: seq<Op>, env: Env)
    requires l' == l.(callbacks := l'.callbacks) && BesidesC(l', m, ops, env)
    ensures BesidesC(l, m, ops, env)
  {
  }

  lemma RunOpsBesidesC(l: Loop, ops: seq<Op>, env: Env)
    ensures var m := RunOps(l, ops); m.callbacks == C.Run(l.callbacks, Posts(ops)) && BesidesC(l, m, ops, env)
  {
    hide ShadowT, ShadowP, ShadowH;
    RunOpsShadows(l, ops, env);
  }

  /** Adding callbacks calls none. */
  lemma {:induction false} PostsKeepExecuted(s: C.State, steps: seq<C.Step>)
    requires forall k :: 0 <= k < |steps| ==> !steps[k].LoopCall?
    ensures C.Run(s, steps).executed == s.executed
    decreases |steps|
  {
    if steps != [] {
      PostsKeepExecuted(if C.Enabled(s, steps[0]) then C.Next(s, steps[0]) else s, steps[1..]);
    }
  }

  lemma {:induction false} RunOpsKeepsExecuted(l: Loop, ops: seq<Op>)
    ensures RunOps(l, ops).callbacks.executed == l.callbacks.executed
    decreases |ops|
  {
    hide C.Run;
    if ops != [] {
      if ops[0].Post? {
        PostsKeepExecuted(l.callbacks, PostSteps(ops[0].thread, ops[0].callback));
      }
      RunOpsKeepsExecuted(Apply(l, ops[0]), ops[1..]);
    }
  }

  lemma OneStep(s: C.State, step: C.Step)
    requires C.Enabled(s, step)
    ensures C.Run(s, [step]) == C.Next(s, step)
  {
    assert [step][1..] == [];
  }

  lemma NothingRuns(l: Loop, env: Env)
    ensures TP.Run(l.timeouts, [], env.variant) == l.timeouts
    ensures PP.Run(l.periodics, [], env.sort) == l.periodics
    ensures H.RunOps(l.handlers, []) == l.handlers
    ensures C.Run(l.callbacks, []) == l.callbacks
  {
  }

  lemma ProcessCallbacksShadows(l: Loop, act: Act, env: Env)
    ensures var m := ProcessCallbacks(l, act); Shadows(l, m, TraceOfEvent(l, m, CALLBACKS, act), env)
  {
    hide RunCallbacks, C.Run, TraceOf, OpsOfCallbacks;
    var moved := l.(callbacks := C.Run(l.callbacks, MOVE_OUT));
    var m := ProcessCallbacks(l, act);
    PostsKeepExecuted(l.callbacks, MOVE_OUT);
    if moved.callbacks.loop.Running? {
      var calls := C.InHand(moved.callbacks.loop);
      RunCallbacksShadows(moved, act.behave, env);
      BesidesFromC(l, moved, m, OpsOfCallbacks(calls, act.behave), env);
      assert Gained(l.callbacks.executed, l.callbacks.executed + calls) == calls;
      StepsConcat(l.callbacks, MOVE_OUT, CallSteps(calls, act.behave));
    } else {
      GainedNothing(l.callbacks.executed);
      assert OpsOfCallbacks([], act.behave) == [] by { NoCalls(act.behave); }
      NoCalls(act.behave);
      BesidesNothingC(l, env);
      StepsConcat(l.callbacks, MOVE_OUT, [C.LoopDone]);
      NotRunning(moved.callbacks);
    }
  }

  lemma NoCalls(behave: nat -> seq<Op>)
    ensures OpsOfCallbacks([], behave) == [] && CallSteps([], behave) == [C.LoopDone]
  {
  }

  lemma NotRunning(s: C.State)
    requires !s.loop.Running?
    ensures C.Run(s, [C.LoopDone]) == s
  {
    assert [C.LoopDone][1..] == [];
    assert C.Run(s, [C.LoopDone]) == C.Run(s, []);
  }

  /** A dispatched element does in each part exactly what its trace says: for a handler of
      the user, its own operations; for the loop's own, what the callbacks that ran do. */
  lemma PerformShadows(l: Loop, node: nat, act: Act, env: Env)
    ensures var m := Perform(l, node, act, env); Shadows(l, m, TraceOfEvent(l, m, node, act), env)
  {
    hide ProcessCallbacks, ProcessTimeouts, ProcessPeriodics, RunOps, ShadowT, ShadowP, ShadowH, ShadowC, TraceOf;
    if node == CALLBACKS {
      ProcessCallbacksShadows(l, act, env);
    } else if node == STOP {
      NothingAsked();
      Still(l, env);
    } else if node == TIMEOUTS {
      ProcessTimeoutsShadows(l, act, env);
    } else if node == PERIODICS {
      ProcessPeriodicsShadows(l, act, env);
    } else {
      RunOpsShadows(l, act.ops, env);
    }
  }

  lemma NothingAsked()
    ensures TraceOf([]) == NONE
  {
  }

  lemma Still(l: Loop, env: Env)
    ensures ShadowT(l, l, NONE, env) && ShadowP(l, l, NONE, env) && ShadowH(l, l, NONE) && ShadowC(l, l, NONE)
  {
  }

  // -------------------------------------------------------------------- batches

  ghost predicate DistinctNodes(events: seq<H.Event>) {
    forall j, k :: 0 <= j < k < |events| ==> events[j].node != events[k].node
  }

  /** A batch depends on what the reported elements do and on nothing else. */
  lemma {:induction false} DispatchCongruent(s: H.State, events: seq<H.Event>, f: nat -> seq<H.Op>, g: nat -> seq<H.Op>)
    requires forall k :: 0 <= k < |events| ==> f(events[k].node) == g(events[k].node)
    ensures H.DispatchAll(s, events, f) == H.DispatchAll(s, events, g)
    decreases |events|
  {
    hide H.RunOps, H.Follow;
    if events != [] {
      var called := s.(log := s.log + [H.Follow(s, events[0])]);
      DispatchCongruent(H.RunOps(called, f(events[0].node)), events[1..], f, g);
    }
  }

  function With(behave: nat -> seq<H.Op>, node: nat, ops: seq<H.Op>): nat -> seq<H.Op> {
    (n: nat) => if n == node then ops else behave(n)
  }

  /** What the dispatch of events does in each part, event by event. */
  function TraceOfBatch(l: Loop, events: seq<H.Event>, acts: nat -> Act, env: Env): Trace
    decreases |events|
  {
    if events == [] then NONE
    else
      var node, called := events[0].node, Called(l, events[0]);
      var m := Perform(called, node, acts(node), env);
      Then(TraceOfEvent(called, m, node, acts(node)), TraceOfBatch(m, events[1..], acts, env))
  }

  /** What each dispatched element asks of the handlers. */
  function AsksOf(l: Loop, events: seq<H.Event>, acts: nat -> Act, env: Env): nat -> seq<H.Op>
    decreases |events|
  {
    if events == [] then (n: nat) => []
    else
      var node, called := events[0].node, Called(l, events[0]);
      var m := Perform(called, node, acts(node), env);
      With(AsksOf(m, events[1..], acts, env), node, HandlerOps(Did(called, m, node, acts(node))))
  }

  /** A batch of the loop does in each part exactly what the traces of its events say, and
      to the handlers what its elements ask for. */
  lemma {:induction false} DispatchShadows(l: Loop, events: seq<H.Event>, acts: nat -> Act, env: Env)
    requires DistinctNodes(events)
    ensures var m, a := DispatchAll(l, events, acts, env), TraceOfBatch(l, events, acts, env);
            && ShadowT(l, m, a, env) && ShadowP(l, m, a, env) && ShadowC(l, m, a)
            && m.handlers == H.DispatchAll(l.handlers, events, AsksOf(l, events, acts, env))
    decreases |events|
  {
    hide Perform, TP.Run, PP.Run, C.Run, H.RunOps, H.Follow;
    if events == [] {
      NothingRuns(l, env);
    } else {
      var node := events[0].node;
      var called := Called(l, events[0]);
      var m := Perform(called, node, acts(node), env);
      PerformShadows(called, node, acts(node), env);
      DispatchShadows(m, events[1..], acts, env);
      var n := DispatchAll(m, events[1..], acts, env);
      var b, c := TraceOfEvent(called, m, node, acts(node)), TraceOfBatch(m, events[1..], acts, env);
      assert b.handlers == HandlerOps(Did(called, m, node, acts(node)));
      hide TraceOfEvent, Did;
      ShadowsThen(called, m, n, b, c, env);
      DispatchCongruent(m.handlers, events[1..], AsksOf(m, events[1..], acts, env), AsksOf(l, events, acts, env));
    }
  }
}
