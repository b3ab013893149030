/** What holds in every state the whole loop reaches. */
module IoLoopRuns {
  import T = OneShotTimeouts
  import P = PeriodicTimeouts
  import H = Handlers
  import C = CallbackQueue
  import TP = OneShotProofs
  import PP = PeriodicProofs
  import HP = HandlerProofs
  import HR = HandlerRemovals
  import PW = PeriodicAsWritten
  import TW = OneShotAsWritten
  import M = MonotonicTimer
  import opened IoLoop
  import opened IoLoopProofs

  ghost predicate HandlersOk(l: Loop) {
    HP.Inv(l.handlers) && !l.handlers.processing && HP.NothingWild(l.handlers.log)
  }

  ghost predicate LoopInv(l: Loop) {
    TP.Inv(l.timeouts) && PP.Inv(l.periodics) && HandlersOk(l) && C.Inv(l.callbacks)
  }

  lemma ReportedNodesDiffer(s: H.State, events: seq<H.Event>)
    requires HP.Inv(s) && H.Reportable(s, events)
    ensures DistinctNodes(events)
  {
    forall j, k | 0 <= j < k < |events| ensures events[j].node != events[k].node {
      assert s.handlers[events[j].fd].node == events[j].node;
      assert s.handlers[events[k].fd].node == events[k].node;
    }
  }

  lemma ApplyIsRunOps(l: Loop, op: Op)
    ensures Apply(l, op) == RunOps(l, [op])
  {
    assert RunOps(l, [op]) == RunOps(Apply(l, op), [op][1..]);
  }

  /** What a round does in each part; the handlers see it as a round of their own. */
  ghost function TraceOfRound(l: Loop, round: Round, env: Env): Trace {
    match round
    case Outside(op) => TraceOf([op])
    case Wait(events, acts) =>
      if H.Reportable(l.handlers, events)
      then TraceOfBatch(l.(handlers := l.handlers.(processing := true)), events, acts, env)
      else NONE
    case Interrupted => NONE
  }

  ghost function HandlersRound(l: Loop, round: Round, env: Env): HP.Round {
    match round
    case Outside(op) => if op.Handler? then HP.Outside(op.handler) else HP.Interrupted
    case Wait(events, acts) =>
      if H.Reportable(l.handlers, events)
      then HP.Wait(events, AsksOf(l.(handlers := l.handlers.(processing := true)), events, acts, env))
      else HP.Interrupted
    case Interrupted => HP.Interrupted
  }

  /** One round of the loop, part by part. */
  lemma NextSplits(l: Loop, round: Round, env: Env)
    requires HandlersOk(l)
    ensures var m, a := Next(l, round, env), TraceOfRound(l, round, env);
            && ShadowT(l, m, a, env) && ShadowP(l, m, a, env) && ShadowC(l, m, a)
            && m.handlers == HP.Next(l.handlers, HandlersRound(l, round, env))
  {
    match round
    case Outside(op) =>
      hide TraceOf, RunOps, HP.Inv, T.Apply, P.Apply, H.Apply, C.Run, TP.Run, PP.Run, H.RunOps;
      ApplyIsRunOps(l, op);
      RunOpsShadows(l, [op], env);
    case Wait(events, acts) =>
      Still(l, env);
      hide ShadowT, ShadowP, ShadowC, DispatchAll, H.DispatchAll, H.PruneFrom, HP.Inv, TraceOfBatch, AsksOf;
      if H.Reportable(l.handlers, events) {
        ReportedNodesDiffer(l.handlers, events);
        var begun := l.(handlers := l.handlers.(processing := true));
        DispatchShadows(begun, events, acts, env);
        OnlyHandlersDiffer(l, begun, DispatchAll(begun, events, acts, env), Next(l, round, env),
                           TraceOfBatch(begun, events, acts, env), env);
      }
    case Interrupted =>
      Still(l, env);
  }

  lemma OnlyHandlersDiffer(l: Loop, l': Loop, m: Loop, m': Loop, a: Trace, env: Env)
    requires l' == l.(handlers := l'.handlers) && m' == m.(handlers := m'.handlers)
    requires ShadowT(l', m, a, env) && ShadowP(l', m, a, env) && ShadowC(l', m, a)
    ensures ShadowT(l, m', a, env) && ShadowP(l, m', a, env) && ShadowC(l, m', a)
  {
  }

  /** A run of the loop as a run of each part. */
  datatype Split = Split(
    timeouts: seq<TP.Event>,
    periodics: seq<PP.Event>,
    handlers: seq<HP.Round>,
    callbacks: seq<C.Step>)

  ghost predicate Splits(l: Loop, m: Loop, p: Split, env: Env) {
    && m.timeouts == TP.Run(l.timeouts, p.timeouts, env.variant)
    && m.periodics == PP.Run(l.periodics, p.periodics, env.sort)
    && m.handlers == HP.Run(l.handlers, p.handlers)
    && m.callbacks == C.Run(l.callbacks, p.callbacks)
  }

  /** The run of the loop as each part sees it. */
  ghost function SplitOf(l: Loop, rounds: seq<Round>, env: Env): Split
    decreases |rounds|
  {
    if rounds == [] then Split([], [], [], [])
    else
      var a, h := TraceOfRound(l, rounds[0], env), HandlersRound(l, rounds[0], env);
      var q := SplitOf(Next(l, rounds[0], env), rounds[1..], env);
      Split(a.timeouts + q.timeouts, a.periodics + q.periodics, [h] + q.handlers, a.callbacks + q.callbacks)
  }

  /** Whatever callbacks of every kind do to every part of the loop, each part goes
      through a run of its own, made of exactly what they do there. */
  lemma {:induction false} EveryLoopRunSplits(l: Loop, rounds: seq<Round>, env: Env)
    requires HandlersOk(l)
    ensures Splits(l, Run(l, rounds, env), SplitOf(l, rounds, env), env)
    decreases |rounds|
  {
    hide TP.Run, PP.Run, C.Run, HP.Run, Next, HandlersOk, HP.Next, TraceOfRound, HandlersRound;
    if rounds == [] {
      NothingRuns(l, env);
      NoRounds(l.handlers);
    } else {
      var m := Next(l, rounds[0], env);
      var a, h := TraceOfRound(l, rounds[0], env), HandlersRound(l, rounds[0], env);
      var q := SplitOf(m, rounds[1..], env);
      NextSplits(l, rounds[0], env);
      HandlersStayOk(l, m, h);
      EveryLoopRunSplits(m, rounds[1..], env);
      TimeoutRunConcat(l.timeouts, a.timeouts, q.timeouts, env.variant);
      PeriodicRunConcat(l.periodics, a.periodics, q.periodics, env.sort);
      StepsConcat(l.callbacks, a.callbacks, q.callbacks);
      OneRound(l.handlers, h, q.handlers);
    }
  }

  lemma NoRounds(s: H.State)
    ensures HP.Run(s, []) == s
  {
  }

  lemma OneRound(s: H.State, h: HP.Round, rest: seq<HP.Round>)
    ensures HP.Run(s, [h] + rest) == HP.Run(HP.Next(s, h), rest)
  {
    assert ([h] + rest)[1..] == rest;
  }

  lemma HandlersStayOk(l: Loop, m: Loop, h: HP.Round)
    requires HandlersOk(l) && m.handlers == HP.Next(l.handlers, h)
    ensures HandlersOk(m)
  {
    HP.NextKeeps(l.handlers, h);
  }

  /** In every state the loop reaches, all four parts are in order. */
  lemma EveryLoopRunKeepsInvariants(l: Loop, rounds: seq<Round>, env: Env)
    requires LoopInv(l) && P.IsSort(env.sort)
    ensures LoopInv(Run(l, rounds, env))
  {
    hide TP.Inv, PP.Inv, HP.Inv, C.Inv, TP.Run, PP.Run, HP.Run, C.Run, Run, P.IsSort, HP.NothingWild;
    var p := SplitOf(l, rounds, env);
    EveryLoopRunSplits(l, rounds, env);
    TP.EveryRunKeepsInvariant(l.timeouts, p.timeouts, env.variant);
    PP.EveryRunKeepsInvariant(l.periodics, p.periodics, env.sort);
    HP.EveryDispatchIsLive(l.handlers, p.handlers);
    C.EveryInterleavingKeepsInvariant(l.callbacks, p.callbacks);
  }

  /** Over every run of the loop: history is never rewritten, a removed periodic
      timeout never runs again, and a handler element that has left the map is never
      called again. */
  lemma EveryLoopRunIsFinal(l: Loop, rounds: seq<Round>, env: Env)
    requires LoopInv(l) && P.IsSort(env.sort)
    ensures var m := Run(l, rounds, env);
            && TP.Extends(l.timeouts, m.timeouts, env.variant)
            && (forall id: nat | PP.IsRemoved(l.periodics, id) :: PP.Silent(m.periodics.log, |l.periodics.log|, id))
            && (forall node: nat | HP.Dead(l.handlers, node) :: HP.NeverCalled(m.handlers.log, |l.handlers.log|, node))
  {
    hide TP.Inv, PP.Inv, HP.Inv, C.Inv, TP.Run, PP.Run, HP.Run, C.Run, Run, P.IsSort, HP.NothingWild,
         TP.Extends, PP.IsRemoved, PP.Silent, HP.Dead, HP.NeverCalled;
    var p := SplitOf(l, rounds, env);
    EveryLoopRunSplits(l, rounds, env);
    TP.EveryRunExtendsHistory(l.timeouts, p.timeouts, env.variant);
    forall id: nat | PP.IsRemoved(l.periodics, id)
      ensures PP.Silent(Run(l, rounds, env).periodics.log, |l.periodics.log|, id)
    {
      PP.RemovedStaysSilent(l.periodics, p.periodics, env.sort, id);
    }
    forall node: nat | HP.Dead(l.handlers, node)
      ensures HP.NeverCalled(Run(l, rounds, env).handlers.log, |l.handlers.log|, node)
    {
      HP.DeadIsNeverCalled(l.handlers, p.handlers, node);
    }
  }

  // ----------------------------------------------------------------- handlers

  /** The handlers as a batch leaves them, before it prunes. */
  function Dispatched(l: Loop, events: seq<H.Event>, acts: nat -> Act, env: Env): H.State {
    DispatchAll(l.(handlers := l.handlers.(processing := true)), events, acts, env).handlers.(processing := false)
  }

  lemma DispatchedSplits(l: Loop, events: seq<H.Event>, acts: nat -> Act, env: Env) returns (behave: nat -> seq<H.Op>)
    requires HandlersOk(l) && H.Reportable(l.handlers, events)
    ensures behave == AsksOf(l.(handlers := l.handlers.(processing := true)), events, acts, env)
    ensures Dispatched(l, events, acts, env) == H.Dispatched(l.handlers, events, behave)
    ensures Next(l, Wait(events, acts), env).handlers == H.Batch(l.handlers, events, behave).0
  {
    ReportedNodesDiffer(l.handlers, events);
    hide DispatchAll, H.DispatchAll, H.PruneFrom, HP.Inv, AsksOf;
    behave := AsksOf(l.(handlers := l.handlers.(processing := true)), events, acts, env);
    DispatchShadows(l.(handlers := l.handlers.(processing := true)), events, acts, env);
  }

  const IDLE := Act(0, 0, M.Readings(0, 0), (id: nat) => [], [])

  /** A registered handler is called by a round of the loop that reports it. */
  lemma StillCalled(l: Loop, fd: H.Fd, env: Env)
    requires HandlersOk(l) && fd in l.handlers.interest
    ensures var node := l.handlers.interest[fd];
            !HP.NeverCalled(Run(l, [Wait([H.Event(fd, node)], (n: nat) => IDLE)], env).handlers.log,
                            |l.handlers.log|, node)
  {
    var event := H.Event(fd, l.handlers.interest[fd]);
    assert fd in l.handlers.interest.Keys && |l.handlers.interest.Keys| == |l.handlers.interest|;
    var acts := (n: nat) => IDLE;
    var behave := DispatchedSplits(l, [event], acts, env);
    HP.BatchKeeps(l.handlers, [event], behave);
    HP.CallsAt(l.handlers.handlers, [event]);
    hide Next, HP.Inv, H.Batch, DispatchAll;
    var m := Next(l, Wait([event], acts), env);
    assert [Wait([event], acts)][1..] == [];
    assert Run(l, [Wait([event], acts)], env) == Run(m, [], env) == m;
    assert m.handlers.log[|l.handlers.log|].node == event.node;
  }

  /** In every state between rounds: a handler element is never called again, however the
      loop runs on, if and only if epoll cannot report it. */
  lemma NeverCalledIffUnwatched(l: Loop, node: nat, env: Env)
    requires HandlersOk(l) && node < l.handlers.nextNode
    ensures HP.Unwatched(l.handlers, node)
            <==> forall rounds :: HP.NeverCalled(Run(l, rounds, env).handlers.log, |l.handlers.log|, node)
  {
    hide Run, HP.Run, HP.Inv, HP.NeverCalled;
    if HP.Unwatched(l.handlers, node) {
      forall rounds ensures HP.NeverCalled(Run(l, rounds, env).handlers.log, |l.handlers.log|, node) {
        var p := SplitOf(l, rounds, env);
        EveryLoopRunSplits(l, rounds, env);
        HP.UnwatchedIsNeverCalled(l.handlers, p.handlers, node);
      }
    } else {
      var fd :| fd in l.handlers.interest && l.handlers.interest[fd] == node;
      StillCalled(l, fd, env);
    }
  }

  /** Whatever asked for its removal during a batch, a timeout, a callback or another
      handler: a handler is never called after that batch, however the loop runs on, if
      and only if pruning reached it or the kernel had stopped watching its descriptor. */
  lemma NeverCalledIffReached(l: Loop, events: seq<H.Event>, acts: nat -> Act, fd: H.Fd, env: Env)
    requires HandlersOk(l) && H.Reportable(l.handlers, events) && fd in Dispatched(l, events, acts, env).handlers
    ensures var t, d := Next(l, Wait(events, acts), env), Dispatched(l, events, acts, env);
            HR.Reaches(d, 0, fd) || fd !in d.interest
            <==> forall rounds ::
                   HP.NeverCalled(Run(t, rounds, env).handlers.log, |t.handlers.log|, d.handlers[fd].node)
  {
    var behave := DispatchedSplits(l, events, acts, env);
    var t, d := Next(l, Wait(events, acts), env), Dispatched(l, events, acts, env);
    HandlersStayOk(l, t, HP.Wait(events, behave));
    HP.DispatchedKeeps(l.handlers, events, behave);
    HP.PruneKeeps(d, 0);
    HR.UnwatchedIffReached(l.handlers, events, behave, fd);
    hide Next, Run, Dispatched, H.Dispatched, H.PruneFrom, HR.Reaches, HP.NeverCalled, HP.Unwatched;
    NeverCalledIffUnwatched(t, d.handlers[fd].node, env);
  }

  /** With no descriptor ever closed while it has a handler, that is every handler
      removed during the batch. */
  lemma RemovedHandlerIsNeverCalled(l: Loop, events: seq<H.Event>, acts: nat -> Act, fd: H.Fd, rounds: seq<Round>,
                                    env: Env)
    requires HandlersOk(l) && HP.Agree(l.handlers) && l.handlers.removed == [] && H.Reportable(l.handlers, events)
    requires fd in Dispatched(l, events, acts, env).removed && !Next(l, Wait(events, acts), env).handlers.careless
    ensures var t, d := Next(l, Wait(events, acts), env), Dispatched(l, events, acts, env);
            && fd in d.handlers
            && HP.NeverCalled(Run(t, rounds, env).handlers.log, |t.handlers.log|, d.handlers[fd].node)
  {
    var behave := DispatchedSplits(l, events, acts, env);
    hide Run, Next, Dispatched, H.Dispatched, H.Batch, HR.Reaches, HP.NeverCalled, HP.Inv, H.Reportable, HP.Agree;
    HR.CarefulReaches(l.handlers, events, behave, fd);
    NeverCalledIffReached(l, events, acts, fd, env);
  }

  /** Over every run of the loop: map, interest set and counter match afterwards if and
      only if no descriptor was ever closed while it had a handler. */
  lemma EveryLoopRunAgreesIff(l: Loop, rounds: seq<Round>, env: Env)
    requires HandlersOk(l) && HP.Agree(l.handlers) && !l.handlers.careless
    ensures HP.Agree(Run(l, rounds, env).handlers) <==> !Run(l, rounds, env).handlers.careless
  {
    hide HP.Inv, HP.Agree, HP.Run, Run, HP.NothingWild;
    var p := SplitOf(l, rounds, env);
    EveryLoopRunSplits(l, rounds, env);
    HP.EveryRunAgreesIff(l.handlers, p.handlers);
  }

  /** And then nothing is waiting to be pruned between rounds. */
  lemma EveryCarefulLoopRunSettles(l: Loop, rounds: seq<Round>, env: Env)
    requires HandlersOk(l) && HP.Agree(l.handlers) && l.handlers.removed == []
    requires !Run(l, rounds, env).handlers.careless
    ensures HP.Agree(Run(l, rounds, env).handlers) && Run(l, rounds, env).handlers.removed == []
  {
    hide HP.Inv, HP.Agree, HP.Run, Run, HP.NothingWild;
    var p := SplitOf(l, rounds, env);
    EveryLoopRunSplits(l, rounds, env);
    HP.EveryCarefulRunSettles(l.handlers, p.handlers);
  }

  // ------------------------------------------------ the loop as it is written

  /** Which runs of the loop as written the model describes. The return of
      add_periodic_timeout is undefined in every run that ever adds a periodic timeout
      and in no other; apart from that return, what is undefined is exactly a pass
      whose callbacks remove a periodic timeout that they added. */
  lemma EveryLoopRunDefinedIff(l: Loop, rounds: seq<Round>, env: Env)
    requires LoopInv(l) && P.IsSort(env.sort) && PW.Tainted(l.periodics)
    ensures var s, p := Run(l, rounds, env).periodics, SplitOf(l, rounds, env);
            && (s.undefinedReturn <==> s.ledger != [])
            && (s.undefinedErase <==> l.periodics.undefinedErase || PW.AnyStrays(l.periodics, p.periodics, env.sort))
  {
    hide TP.Inv, PP.Inv, HP.Inv, C.Inv, TP.Run, PP.Run, HP.Run, C.Run, Run, SplitOf, P.IsSort, HP.NothingWild,
         PW.AnyStrays;
    var p := SplitOf(l, rounds, env);
    EveryLoopRunSplits(l, rounds, env);
    PW.EveryRunIsTainted(l.periodics, p.periodics, env.sort);
    PW.ErasesIffStrays(l.periodics, p.periodics, env.sort);
  }

  /** As written, a run of the loop keeps every one-shot handle accounted for if and only
      if no pass of process_timeouts in it begins with a timeout it would leave over, and
      then its one-shot timeouts end up as was intended. */
  lemma EveryLoopRunConservesIff(l: Loop, rounds: seq<Round>, env: Env)
    requires LoopInv(l) && env.variant == T.AsWritten && TW.NothingDropped(l.timeouts)
    ensures var t, p := Run(l, rounds, env).timeouts, SplitOf(l, rounds, env);
            && (TW.NothingDropped(t) <==> TW.Lossless(l.timeouts, p.timeouts))
            && (TW.Lossless(l.timeouts, p.timeouts) ==> t == TP.Run(l.timeouts, p.timeouts, T.Intended))
  {
    hide TP.Inv, PP.Inv, HP.Inv, C.Inv, TP.Run, PP.Run, HP.Run, C.Run, Run, SplitOf, HP.NothingWild,
         TW.NothingDropped, TW.Lossless;
    EveryLoopRunSplits(l, rounds, env);
    TW.ConservesIffLossless(l.timeouts, SplitOf(l, rounds, env).timeouts);
  }
}
