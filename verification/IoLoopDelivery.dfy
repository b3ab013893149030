/** What the loop promises the callbacks it holds: a wait that reports them runs them,
    whatever else the loop is asked to do meanwhile. */
module IoLoopDelivery {
  import T = OneShotTimeouts
  import P = PeriodicTimeouts
  import H = Handlers
  import C = CallbackQueue
  import M = MonotonicTimer
  import TP = OneShotProofs
  import PP = PeriodicProofs
  import HP = HandlerProofs
  import HE = HandlerEffects
  import PW = PeriodicAsWritten
  import opened IoLoop
  import opened IoLoopProofs
  import opened IoLoopRuns

  // ------------------------------------------------------------- the constructor

  /** The loop starts out in order, with its own four handlers registered. */
  lemma CreatedInOrder(callbacks: H.Fd, stop: H.Fd, timeouts: H.Fd, periodics: H.Fd)
    requires callbacks != stop && callbacks != timeouts && callbacks != periodics
    requires stop != timeouts && stop != periodics && timeouts != periodics
    ensures var l := Create(callbacks, stop, timeouts, periodics);
            && LoopInv(l) && Rest(l.callbacks) && PW.Tainted(l.periodics)
            && HP.Agree(l.handlers) && l.handlers.removed == [] && !l.handlers.careless
            && l.handlers.interest
              == map[callbacks := CALLBACKS, stop := STOP, timeouts := TIMEOUTS, periodics := PERIODICS]
            && forall fd :: fd in l.handlers.handlers ==>
                 fd in l.handlers.interest
                 && l.handlers.handlers[fd] == H.Handler(l.handlers.interest[fd], 1, l.handlers.interest[fd])
  {
    hide TP.Inv, PP.Inv, HP.Inv, C.Inv;
    var l := Create(callbacks, stop, timeouts, periodics);
    TP.InitialInv(l.timeouts);
    PP.InitialInv(l.periodics);
    HandlersRegistered(callbacks, stop, timeouts, periodics);
    NothingAdded(l.callbacks);
  }

  lemma NothingAdded(s: C.State)
    requires s == C.INITIAL
    ensures C.Inv(s)
  {
  }

  lemma HandlersRegistered(callbacks: H.Fd, stop: H.Fd, timeouts: H.Fd, periodics: H.Fd)
    requires callbacks != stop && callbacks != timeouts && callbacks != periodics
    requires stop != timeouts && stop != periodics && timeouts != periodics
    ensures var s := Create(callbacks, stop, timeouts, periodics).handlers;
            Fresh(s, map[callbacks := CALLBACKS, stop := STOP, timeouts := TIMEOUTS, periodics := PERIODICS])
  {
    hide Fresh, H.RunOps, Register;
    EmptyIsFresh(H.INITIAL);
    Registers(H.INITIAL, map[], callbacks, CALLBACKS);
    var a := H.RunOps(H.INITIAL, Register(callbacks, CALLBACKS));
    Registers(a, map[callbacks := CALLBACKS], stop, STOP);
    var b := H.RunOps(a, Register(stop, STOP));
    Registers(b, map[callbacks := CALLBACKS, stop := STOP], timeouts, TIMEOUTS);
    var c := H.RunOps(b, Register(timeouts, TIMEOUTS));
    Registers(c, map[callbacks := CALLBACKS, stop := STOP, timeouts := TIMEOUTS], periodics, PERIODICS);
  }

  /** Nothing has happened but the registrations m. */
  ghost predicate Fresh(s: H.State, m: map<H.Fd, nat>) {
    && HP.Inv(s) && !s.processing && s.log == [] && s.removed == [] && !s.careless && s.sizeEvents == |m|
    && s.interest == m && s.handlers.Keys == m.Keys && s.nextNode == |m|
    && forall fd :: fd in m ==> s.handlers[fd] == H.Handler(m[fd], 1, m[fd])
  }

  lemma EmptyIsFresh(s: H.State)
    requires s == H.INITIAL
    ensures Fresh(s, map[])
  {
  }

  lemma Joins(s: H.State, ready: H.State, m: map<H.Fd, nat>, fd: H.Fd, t: H.State)
    requires Fresh(s, m) && fd !in m && ready == s.(open := s.open + {fd}) && HP.Inv(t) && HE.OthersSame(ready, t, fd)
    requires fd in t.handlers && t.handlers[fd] == H.Handler(|m|, 1, |m|) && fd in t.interest && t.interest[fd] == |m|
    requires t.nextNode == s.nextNode + 1 && t.sizeEvents == s.sizeEvents + 1 && t.removed == s.removed
    requires t.careless == s.careless
    ensures Fresh(t, m[fd := |m|])
  {
    HE.OneAdded(ready, t, fd);
    hide HP.Inv, HE.OthersSame;
    assert t.handlers.Keys == s.handlers.Keys + {fd} && m[fd := |m|].Keys == m.Keys + {fd};
    HP.MapSizes(m, fd, |m|);
  }

  lemma RegisterRuns(s: H.State, fd: H.Fd, callback: nat)
    ensures H.RunOps(s, Register(fd, callback))
            == H.AddHandlerOp(s.(open := s.open + {fd}), fd, 1, callback).0
  {
    var ready, op := H.Apply(s, H.Open(fd)).0, H.AddHandler(fd, 1, callback);
    assert Register(fd, callback)[1..] == [op] && [op][1..] == [];
    assert H.RunOps(s, Register(fd, callback)) == H.RunOps(ready, [op]) == H.RunOps(H.Apply(ready, op).0, []);
  }

  lemma Registers(s: H.State, m: map<H.Fd, nat>, fd: H.Fd, callback: nat)
    requires Fresh(s, m) && fd !in m && callback == |m|
    ensures Fresh(H.RunOps(s, Register(fd, callback)), m[fd := |m|])
  {
    var ready := s.(open := s.open + {fd});
    assert fd !in s.handlers.Keys;
    HP.RunOpsKeeps(s, Register(fd, callback));
    HP.SameRegistrations(s, ready);
    HE.AdditionTakesEffect(ready, fd, 1, callback);
    HE.AdditionSucceedsIff(ready, fd, 1, callback);
    RegisterRuns(s, fd, callback);
    hide HP.Inv, H.AddHandlerOp, H.RunOps, HE.OthersSame, Fresh;
    Joins(s, ready, m, fd, H.AddHandlerOp(ready, fd, 1, callback).0);
  }

  // ------------------------------------------------------------------- timeouts

  /** The loop when the k-th event of a batch is reached. */
  function Reached(l: Loop, events: seq<H.Event>, k: nat, acts: nat -> Act, env: Env): Loop
    requires k < |events|
  {
    DispatchAll(l.(handlers := l.handlers.(processing := true)), events[..k], acts, env)
  }

  lemma {:induction false} DispatchConcat(l: Loop, a: seq<H.Event>, b: seq<H.Event>, acts: nat -> Act, env: Env)
    ensures DispatchAll(l, a + b, acts, env) == DispatchAll(DispatchAll(l, a, acts, env), b, acts, env)
    decreases |a|
  {
    hide Perform;
    if a == [] {
      assert a + b == b;
    } else {
      assert (a + b)[1..] == a[1..] + b;
      DispatchConcat(Perform(Called(l, a[0]), a[0].node, acts(a[0].node), env), a[1..], b, acts, env);
    }
  }

  /** A batch, around its k-th event. */
  lemma DispatchAround(l: Loop, events: seq<H.Event>, k: nat, acts: nat -> Act, env: Env)
    requires k < |events|
    ensures var m := Reached(l, events, k, acts, env);
            var n := Perform(Called(m, events[k]), events[k].node, acts(events[k].node), env);
            DispatchAll(l.(handlers := l.handlers.(processing := true)), events, acts, env)
            == DispatchAll(n, events[k + 1..], acts, env)
  {
    hide Perform;
    var begun := l.(handlers := l.handlers.(processing := true));
    assert events == events[..k] + events[k..];
    DispatchConcat(begun, events[..k], events[k..], acts, env);
    assert events[k..][0] == events[k] && events[k..][1..] == events[k + 1..];
  }

  /** The loop when the k-th event has been dealt with. */
  function Past(l: Loop, events: seq<H.Event>, k: nat, acts: nat -> Act, env: Env): Loop
    requires k < |events|
  {
    Perform(Called(Reached(l, events, k, acts, env), events[k]), events[k].node, acts(events[k].node), env)
  }

  /** What the k-th event makes its callbacks, or its user's handler, do. */
  function DidAt(l: Loop, events: seq<H.Event>, k: nat, acts: nat -> Act, env: Env): seq<Op>
    requires k < |events|
  {
    Did(Called(Reached(l, events, k, acts, env), events[k]), Past(l, events, k, acts, env), events[k].node,
        acts(events[k].node))
  }

  function TraceAt(l: Loop, events: seq<H.Event>, k: nat, acts: nat -> Act, env: Env): Trace
    requires k < |events|
  {
    TraceOfEvent(Called(Reached(l, events, k, acts, env), events[k]), Past(l, events, k, acts, env), events[k].node,
                 acts(events[k].node))
  }

  /** What a batch does to each part but the handlers: up to its k-th event, in it, and
      after it. */
  lemma BatchAround(l: Loop, events: seq<H.Event>, k: nat, acts: nat -> Act, env: Env)
    requires HandlersOk(l) && H.Reportable(l.handlers, events) && k < |events|
    ensures var m, n, t := Reached(l, events, k, acts, env), Past(l, events, k, acts, env),
                           Next(l, Wait(events, acts), env);
            var a, b, c := TraceOfBatch(l.(handlers := l.handlers.(processing := true)), events[..k], acts, env),
                           TraceAt(l, events, k, acts, env), TraceOfBatch(n, events[k + 1..], acts, env);
            && ShadowT(l, m, a, env) && ShadowT(m, n, b, env) && ShadowT(n, t, c, env)
            && ShadowP(l, m, a, env) && ShadowP(m, n, b, env) && ShadowP(n, t, c, env)
            && ShadowC(l, m, a) && ShadowC(m, n, b) && ShadowC(n, t, c)
  {
    ReportedNodesDiffer(l.handlers, events);
    hide Perform, DispatchAll, TraceOfBatch, TraceOfEvent, TP.Run, PP.Run, C.Run, HP.Inv, H.PruneFrom;
    var begun := l.(handlers := l.handlers.(processing := true));
    var m := Reached(l, events, k, acts, env);
    var node, rest := events[k].node, events[k + 1..];
    DispatchShadows(begun, events[..k], acts, env);
    PerformShadows(Called(m, events[k]), node, acts(node), env);
    DispatchShadows(Past(l, events, k, acts, env), rest, acts, env);
    DispatchAround(l, events, k, acts, env);
  }

  /** Wherever the timer's event stands in a batch: if the timeout is still queued when
      the event is reached, and its time, or that of a timer armed meanwhile, has come,
      then the timer is readable and the batch runs the callback or another callback
      removes it first; nothing later in the batch undoes that. */
  lemma QueuedTimeoutRuns(l: Loop, env: Env, id: nat, events: seq<H.Event>, k: nat, acts: nat -> Act)
    requires LoopInv(l) && H.Reportable(l.handlers, events) && k < |events| && events[k].node == TIMEOUTS
    requires var s := Reached(l, events, k, acts, env).timeouts;
             && id < |s.ledger| && s.ledger[id].fate == T.Queued
             && (s.timer.Armed? ==> InTime(s.ledger[id].deadline, s.timer, acts(TIMEOUTS).now))
    ensures M.Readable(Reached(l, events, k, acts, env).timeouts.timer, acts(TIMEOUTS).now)
    ensures var t := Next(l, Wait(events, acts), env).timeouts;
            id < |t.ledger| && t.ledger[id].fate in {T.Ran, T.Removed}
  {
    BatchAround(l, events, k, acts, env);
    var act, n := acts(TIMEOUTS), Past(l, events, k, acts, env);
    var a := TraceOfBatch(l.(handlers := l.handlers.(processing := true)), events[..k], acts, env);
    var c := TraceOfBatch(n, events[k + 1..], acts, env);
    hide TraceOfBatch, Past, Did, Reached, Perform, Next, TP.Inv, PP.Inv, HP.Inv, C.Inv, TP.Run, PP.Run,
         H.Reportable, InTime;
    TP.EveryRunKeepsInvariant(l.timeouts, a.timeouts, env.variant);
    TimeoutSettled(Reached(l, events, k, acts, env).timeouts, act.now, TimeoutsOnly(act.behave), act.clock,
                   c.timeouts, env.variant, id);
  }

  /** The deadline has come, or 1 ns since the timer was armed, plus the lag of the arming. */
  ghost predicate InTime(deadline: int, timer: M.Timer, now: int)
    requires timer.Armed?
  {
    now >= M.Max(deadline, timer.clock.read + 1) + (timer.clock.armed - timer.clock.read)
  }

  /** A timer that is registered can be reported. */
  lemma OneReportable(s: H.State, fd: H.Fd, node: nat)
    requires HP.Inv(s) && fd in s.interest && s.interest[fd] == node
    ensures H.Reportable(s, [H.Event(fd, node)])
  {
    assert fd in s.interest.Keys;
    assert |s.interest.Keys| == |s.interest|;
  }

  lemma TimeoutSettled(s: T.State, now: int, behave: nat -> seq<T.Op>, clock: M.Clock, events: seq<TP.Event>,
                       v: T.Variant, id: nat)
    requires TP.Inv(s) && id < |s.ledger| && s.ledger[id].fate == T.Queued
    requires s.timer.Armed? ==> InTime(s.ledger[id].deadline, s.timer, now)
    ensures M.Readable(s.timer, now)
    ensures var u := TP.Run(TP.Run(s, [TP.Fire(now, behave, clock)], v), events, v);
            id < |u.ledger| && u.ledger[id].fate in {T.Ran, T.Removed}
  {
    hide TP.Inv, TP.Run;
    TP.NoTimeoutStarves(s, id, now, behave, clock, v);
    TimeoutRunConcat(s, [TP.Fire(now, behave, clock)], events, v);
    RunsOnwards(s, [TP.Fire(now, behave, clock)] + events, v, id);
  }

  lemma RunsOnwards(s: T.State, events: seq<TP.Event>, v: T.Variant, id: nat)
    requires TP.Inv(s) && events != []
    requires var t := TP.Step(s, events[0], v); id < |t.ledger| && t.ledger[id].fate in {T.Ran, T.Removed}
    ensures var u := TP.Run(s, events, v); id < |u.ledger| && u.ledger[id].fate in {T.Ran, T.Removed}
  {
    hide TP.Inv, TP.Step;
    TP.StepKeeps(s, events[0], v);
    TP.EveryRunExtendsHistory(TP.Step(s, events[0], v), events[1..], v);
  }

  // ---------------------------------------------------------- periodic timeouts

  /** The same for a periodic timeout: the batch runs its callback, or it is removed. */
  lemma QueuedPeriodicRuns(l: Loop, env: Env, j: nat, events: seq<H.Event>, k: nat, acts: nat -> Act)
    requires LoopInv(l) && P.IsSort(env.sort)
    requires H.Reportable(l.handlers, events) && k < |events| && events[k].node == PERIODICS
    requires var s := Reached(l, events, k, acts, env).periodics;
             j < |s.list| && (s.timer.Armed? ==> InTime(s.list[j].deadline, s.timer, acts(PERIODICS).now))
    ensures M.Readable(Reached(l, events, k, acts, env).periodics.timer, acts(PERIODICS).now)
    ensures var s, t := Reached(l, events, k, acts, env).periodics, Next(l, Wait(events, acts), env).periodics;
            PP.IsRemoved(t, s.list[j].id) || !PP.Silent(t.log, |s.log|, s.list[j].id)
  {
    BatchAround(l, events, k, acts, env);
    var act, n := acts(PERIODICS), Past(l, events, k, acts, env);
    var a := TraceOfBatch(l.(handlers := l.handlers.(processing := true)), events[..k], acts, env);
    var c := TraceOfBatch(n, events[k + 1..], acts, env);
    hide TraceOfBatch, Past, Did, Reached, Perform, Next, TP.Inv, PP.Inv, HP.Inv, C.Inv, TP.Run, PP.Run,
         H.Reportable, P.IsSort, InTime;
    PP.EveryRunKeepsInvariant(l.periodics, a.periodics, env.sort);
    PeriodicSettled(Reached(l, events, k, acts, env).periodics, act.now, act.later, PeriodicsOnly(act.behave),
                    act.clock, c.periodics, env.sort, j);
  }

  lemma PeriodicSettled(s: P.State, now: int, later: int, behave: nat -> seq<P.Op>, clock: M.Clock,
                        events: seq<PP.Event>, sort: seq<P.Entry> -> seq<P.Entry>, j: nat)
    requires PP.Inv(s) && P.IsSort(sort) && j < |s.list|
    requires s.timer.Armed? ==> InTime(s.list[j].deadline, s.timer, now)
    ensures M.Readable(s.timer, now)
    ensures var u := PP.Run(PP.Run(s, [PP.Fire(now, later, behave, clock)], sort), events, sort);
            PP.IsRemoved(u, s.list[j].id) || !PP.Silent(u.log, |s.log|, s.list[j].id)
  {
    hide PP.Inv, PP.Run, P.IsSort;
    PP.NoTimeoutStarves(s, j, now, later, behave, clock, sort);
    PeriodicRunConcat(s, [PP.Fire(now, later, behave, clock)], events, sort);
    PeriodicOnwards(s, [PP.Fire(now, later, behave, clock)] + events, sort, s.list[j].id);
  }

  lemma PeriodicOnwards(s: P.State, events: seq<PP.Event>, sort: seq<P.Entry> -> seq<P.Entry>, id: nat)
    requires PP.Inv(s) && P.IsSort(sort) && events != []
    requires var t := PP.Step(s, events[0], sort); PP.IsRemoved(t, id) || !PP.Silent(t.log, |s.log|, id)
    ensures var u := PP.Run(s, events, sort); PP.IsRemoved(u, id) || !PP.Silent(u.log, |s.log|, id)
  {
    hide PP.Inv, PP.Step, P.IsSort;
    var t := PP.Step(s, events[0], sort);
    PP.StepKeeps(s, events[0], sort);
    if PP.IsRemoved(t, id) {
      PP.RemovedStaysSilent(t, events[1..], sort, id);
    } else {
      PP.RunExtendsLog(t, events[1..], sort);
      var u := PP.Run(t, events[1..], sort);
      var k :| |s.log| <= k < |t.log| && t.log[k].id == id;
      assert u.log[k] == t.log[k];
    }
  }

  // ------------------------------------------------------------------ callbacks

  /** Nobody is inside add_callback, and every write went through. */
  ghost predicate Calm(s: C.State) {
    C.Inv(s) && s.owner == C.Free && s.strays == 0
  }

  /** Callbacks may have been added and nothing else happened. */
  ghost predicate Posted(s: C.State, t: C.State) {
    Calm(t) && t.loop == s.loop && t.executed == s.executed && s.added <= t.added
  }

  lemma PostIsWhole(s: C.State, thread: C.Thread, callback: C.Callback)
    requires Calm(s)
    ensures Posted(s, C.Run(s, PostSteps(thread, callback)))
    ensures C.Run(s, PostSteps(thread, callback)).added == s.added + [callback]
  {
    var steps := PostSteps(thread, callback);
    var a := C.Next(s, C.Lock(thread, callback));
    C.NextKeeps(s, C.Lock(thread, callback));
    var b := C.Next(a, C.Push(thread));
    C.NextKeeps(a, C.Push(thread));
    var c := C.Next(b, C.Write(thread));
    C.NextKeeps(b, C.Write(thread));
    hide C.Inv;
    assert steps[1..][1..][1..] == [];
    assert C.Run(s, steps) == C.Run(a, steps[1..]) == C.Run(b, steps[1..][1..]) == C.Run(c, []) == c;
  }

  /** The callbacks that these operations add, in order. */
  function PostedBy(ops: seq<Op>): seq<C.Callback> {
    if ops == [] then []
    else (if ops[0].Post? then [ops[0].callback] else []) + PostedBy(ops[1..])
  }

  lemma {:induction false} PostedByConcat(a: seq<Op>, b: seq<Op>)
    ensures PostedBy(a + b) == PostedBy(a) + PostedBy(b)
    decreases |a|
  {
    if a == [] {
      assert a + b == b;
    } else {
      var one, x, y := if a[0].Post? then [a[0].callback] else [], PostedBy(a[1..]), PostedBy(b);
      assert (a + b)[1..] == a[1..] + b;
      PostedByConcat(a[1..], b);
      assert PostedBy(a + b) == one + (x + y) && PostedBy(a) == one + x;
      assert one + (x + y) == (one + x) + y;
    }
  }

  lemma PostedThen(s: C.State, t: C.State, u: C.State, a: seq<C.Callback>, b: seq<C.Callback>)
    requires Posted(s, t) && Posted(t, u) && t.added == s.added + a && u.added == t.added + b
    ensures Posted(s, u) && u.added == s.added + (a + b)
  {
  }

  /** However many callbacks are added, each is, in order, and nothing else happens. */
  lemma {:induction false} PostsRun(s: C.State, ops: seq<Op>)
    requires Calm(s)
    ensures var t := C.Run(s, Posts(ops)); Posted(s, t) && t.added == s.added + PostedBy(ops)
    decreases |ops|
  {
    hide C.Inv, C.Run, PostSteps;
    if ops == [] {
      assert C.Run(s, []) == s by { NoSteps(s); }
    } else {
      var rest := ops[1..];
      if ops[0].Post? {
        var t := C.Run(s, PostSteps(ops[0].thread, ops[0].callback));
        PostIsWhole(s, ops[0].thread, ops[0].callback);
        PostsRun(t, rest);
        StepsConcat(s, PostSteps(ops[0].thread, ops[0].callback), Posts(rest));
        hide Posted;
        PostedThen(s, t, C.Run(t, Posts(rest)), [ops[0].callback], PostedBy(rest));
      } else {
        PostsRun(s, rest);
        assert Posts(ops) == Posts(rest) && PostedBy(ops) == PostedBy(rest);
      }
    }
  }

  lemma NoSteps(s: C.State)
    ensures C.Run(s, []) == s
  {
  }

  /** One callback called, and what it adds. */
  lemma CallOne(s: C.State, ops: seq<Op>)
    requires Calm(s) && s.loop.Running? && C.InHand(s.loop) != []
    ensures var call := C.InHand(s.loop)[0];
            var u := C.Run(C.Run(s, [C.LoopCall]), Posts(ops));
            && Calm(u) && u.loop.Running? && C.InHand(s.loop) == [call] + C.InHand(u.loop)
            && u.executed == s.executed + [call] && u.added == s.added + PostedBy(ops)
  {
    var t := C.Next(s, C.LoopCall);
    InHandFits(s);
    OneStep(s, C.LoopCall);
    C.NextKeeps(s, C.LoopCall);
    OneLeaves(s.loop);
    hide C.Inv, C.Run, C.InHand, Posts, PostedBy;
    PostsRun(t, ops);
  }

  lemma OneLeaves(at: C.LoopAt)
    requires at.Running? && at.next < |at.batch|
    ensures C.InHand(at) == [at.batch[at.next]] + C.InHand(C.Running(at.batch, at.next + 1))
  {
  }

  lemma CallNone(s: C.State)
    requires Calm(s) && s.loop.Running? && C.InHand(s.loop) == []
    ensures var t := C.Run(s, [C.LoopDone]); Rest(t) && t.executed == s.executed && t.added == s.added
  {
    InHandFits(s);
    OneStep(s, C.LoopDone);
    C.NextKeeps(s, C.LoopDone);
  }

  /** The loop works through the callbacks in hand; what they add meanwhile is queued. */
  lemma {:induction false} CallStepsRun(s: C.State, behave: nat -> seq<Op>)
    requires Calm(s) && s.loop.Running?
    ensures var calls := C.InHand(s.loop);
            var t := C.Run(s, CallSteps(calls, behave));
            && Rest(t) && t.executed == s.executed + calls
            && t.added == s.added + PostedBy(OpsOfCallbacks(calls, behave))
    decreases |C.InHand(s.loop)|
  {
    hide C.Inv, C.Run, C.InHand, Calm, Rest, Posts, PostedBy, CallSteps, OpsOfCallbacks;
    var calls := C.InHand(s.loop);
    if calls == [] {
      CallNone(s);
      NoCalls(behave);
      NothingPosted();
    } else {
      var ops := behave(calls[0]);
      var t := C.Run(s, [C.LoopCall]);
      var u := C.Run(t, Posts(ops));
      var rest := C.InHand(u.loop);
      CallOne(s, ops);
      CallStepsRun(u, behave);
      CallsFirst(calls[0], rest, behave);
      CallFirst(s, t, u, Posts(ops), CallSteps(rest, behave));
      PostedByConcat(ops, OpsOfCallbacks(rest, behave));
    }
  }

  lemma InHandFits(s: C.State)
    requires C.Inv(s)
    ensures s.loop.Running? ==> s.loop.next <= |s.loop.batch|
  {
  }

  lemma NothingPosted()
    ensures PostedBy([]) == []
  {
  }

  /** process_callbacks calls everything that had been added when it was called, and
      queues what those callbacks add. */
  lemma ProcessCallbacksCalls(s: C.State, behave: nat -> seq<Op>)
    requires Rest(s)
    ensures var t := C.Run(s, MOVE_OUT + CallSteps(s.queue, behave));
            && Rest(t) && t.executed == s.added
            && t.added == s.added + PostedBy(OpsOfCallbacks(s.queue, behave))
  {
    MovesOut(s);
    hide C.Inv, C.Run, PostedBy, CallSteps, OpsOfCallbacks;
    var m := C.Run(s, MOVE_OUT);
    StepsConcat(s, MOVE_OUT, CallSteps(s.queue, behave));
    if s.counter > 0 {
      assert C.InHand(m.loop) == s.queue;
      CallStepsRun(m, behave);
    } else {
      NoCalls(behave);
      NothingPosted();
      NotRunning(m);
    }
  }

  /** The loop takes all there is, unless there is nothing. */
  lemma MovesOut(s: C.State)
    requires Calm(s) && s.loop == C.Waiting
    ensures var t := C.Run(s, MOVE_OUT);
            && Calm(t) && t.added == s.added && t.executed == s.executed
            && if s.counter > 0 then t.loop == C.Running(s.queue, 0) && s.executed + s.queue == s.added
               else t.loop == C.Waiting && s.executed == s.added && s.queue == []
  {
    assert s.executed + [] + s.queue == s.added;
    assert s.counter == 0 ==> s.queue == [];
    C.EveryInterleavingKeepsInvariant(s, MOVE_OUT);
    hide C.Inv, C.Run;
    if s.counter > 0 {
      MoveOutIsFour();
      C.RunFour(s, []);
      NoSteps(s.(counter := 0, strays := 0, queue := [], loop := C.Running(s.queue, 0)));
    } else {
      StaysPut(s, MOVE_OUT);
    }
  }

  lemma MoveOutIsFour()
    ensures MOVE_OUT == [C.LoopRead] + ([C.LoopLock] + ([C.LoopMove] + ([C.LoopUnlock] + [])))
  {
  }

  lemma {:induction false} StaysPut(s: C.State, steps: seq<C.Step>)
    requires forall k :: 0 <= k < |steps| ==> !C.Enabled(s, steps[k])
    ensures C.Run(s, steps) == s
    decreases |steps|
  {
    hide C.Enabled, C.Next;
    if steps != [] {
      assert !C.Enabled(s, steps[0]);
      StaysPut(s, steps[1..]);
    }
  }

  /** Nobody is inside add_callback and the loop is not running callbacks. */
  ghost predicate Rest(s: C.State) {
    Calm(s) && s.loop == C.Waiting
  }

  /** From rest to rest, forgetting nothing. */
  ghost predicate Onwards(s: C.State, t: C.State) {
    Rest(t) && s.executed <= t.executed && s.added <= t.added
  }

  /** One event: callbacks are added exactly as the operations done say, and called if
      the event is the eventfd's. */
  lemma PerformRests(l: Loop, node: nat, act: Act, env: Env)
    requires Rest(l.callbacks)
    ensures var s, m := l.callbacks, Perform(l, node, act, env);
            var t := m.callbacks;
            && Onwards(s, t) && t.added == s.added + PostedBy(Did(l, m, node, act))
            && (node == CALLBACKS ==> t.executed == s.added)
  {
    hide Perform, C.Inv, C.Run, CallSteps, Posts, PostedBy, OpsOfCallbacks, OpsOfTimeouts, OpsOfPeriodics,
         ShadowT, ShadowP, ShadowH;
    var s, m := l.callbacks, Perform(l, node, act, env);
    PerformShadows(l, node, act, env);
    if node == CALLBACKS {
      EventfdCalls(l, act, env);
    } else {
      PostsRun(s, Did(l, m, node, act));
      hide Did;
    }
  }

  lemma EventfdCalls(l: Loop, act: Act, env: Env)
    requires Rest(l.callbacks)
    ensures var s, m := l.callbacks, Perform(l, CALLBACKS, act, env);
            var t := m.callbacks;
            && Rest(t) && t.executed == s.added && s.executed <= s.added
            && t.added == s.added + PostedBy(Did(l, m, CALLBACKS, act))
  {
    hide C.Inv, C.Run, CallSteps, Posts, PostedBy, OpsOfCallbacks, RunCallbacks, TraceOf;
    var s := l.callbacks;
    var moved := l.(callbacks := C.Run(s, MOVE_OUT));
    ExecutedIsAdded(s);
    MovesOut(s);
    ProcessCallbacksCalls(s, act.behave);
    if s.counter > 0 {
      RunCallbacksShadows(moved, act.behave, env);
      assert C.InHand(moved.callbacks.loop) == s.queue;
      StepsConcat(s, MOVE_OUT, CallSteps(s.queue, act.behave));
      assert Gained(s.executed, s.executed + s.queue) == s.queue;
    } else {
      GainedNothing(s.executed);
      NoCalls(act.behave);
      NotRunning(moved.callbacks);
      StepsConcat(s, MOVE_OUT, CallSteps(s.queue, act.behave));
    }
  }

  lemma ExecutedIsAdded(s: C.State)
    requires Rest(s)
    ensures s.executed <= s.added
  {
    assert s.executed + [] + s.queue == s.added;
  }

  lemma {:induction false} DispatchRests(l: Loop, events: seq<H.Event>, acts: nat -> Act, env: Env)
    requires Rest(l.callbacks)
    ensures var t := DispatchAll(l, events, acts, env).callbacks;
            && Onwards(l.callbacks, t)
            && ((exists k :: 0 <= k < |events| && events[k].node == CALLBACKS) ==> l.callbacks.added <= t.executed)
    decreases |events|
  {
    hide Perform, Rest;
    if events != [] {
      var called := Called(l, events[0]);
      PerformRests(called, events[0].node, acts(events[0].node), env);
      var m := Perform(called, events[0].node, acts(events[0].node), env);
      DispatchRests(m, events[1..], acts, env);
      if k :| 0 <= k < |events| && events[k].node == CALLBACKS && events[0].node != CALLBACKS {
        assert events[1..][k - 1].node == CALLBACKS;
      }
    }
  }

  lemma NextRests(l: Loop, round: Round, env: Env)
    requires Rest(l.callbacks)
    ensures Onwards(l.callbacks, Next(l, round, env).callbacks)
  {
    hide DispatchAll, C.Inv;
    match round
    case Outside(op) =>
      if op.Post? {
        PostIsWhole(l.callbacks, op.thread, op.callback);
      }
    case Wait(events, acts) =>
      DispatchRests(l.(handlers := l.handlers.(processing := true)), events, acts, env);
    case Interrupted =>
  }

  /** Between rounds the callback queue is always at rest. */
  lemma {:induction false} EveryLoopRunRests(l: Loop, rounds: seq<Round>, env: Env)
    requires Rest(l.callbacks)
    ensures Onwards(l.callbacks, Run(l, rounds, env).callbacks)
    decreases |rounds|
  {
    hide Next, Rest;
    if rounds != [] {
      NextRests(l, rounds[0], env);
      EveryLoopRunRests(Next(l, rounds[0], env), rounds[1..], env);
    }
  }

  /** From any reachable state: a queue that is not empty has its eventfd readable, and
      a batch that reports it, in whatever place among other events, calls every
      callback added before the batch, once each and in order. */
  lemma AddedCallbacksRun(l: Loop, env: Env, events: seq<H.Event>, acts: nat -> Act, k: nat)
    requires Rest(l.callbacks) && H.Reportable(l.handlers, events)
    requires k < |events| && events[k].node == CALLBACKS
    ensures l.callbacks.queue != [] ==> l.callbacks.counter > 0
    ensures var t := Next(l, Wait(events, acts), env).callbacks;
            l.callbacks.added <= t.executed && t.executed <= t.added && l.callbacks.added <= t.added
  {
    var begun := l.(handlers := l.handlers.(processing := true));
    DispatchRests(begun, events, acts, env);
    hide DispatchAll;
    ExecutedIsAdded(DispatchAll(begun, events, acts, env).callbacks);
  }
}
