/** linuxpp::ioloop as a whole. One thread waits on epoll and calls back; a callback,
    whatever called it, may use every part of the loop. Calls of add_callback are
    whole critical sections here; CallbackQueue takes them apart. */
module IoLoop {
  import T = OneShotTimeouts
  import P = PeriodicTimeouts
  import H = Handlers
  import C = CallbackQueue
  import M = MonotonicTimer

  datatype Op =
    | Timeout(timeout: T.Op)
    | Periodic(periodic: P.Op)
    | Handler(handler: H.Op)
    | Post(thread: C.Thread, callback: C.Callback)

  datatype Loop = Loop(timeouts: T.State, periodics: P.State, handlers: H.State, callbacks: C.State)

  /** What the source leaves open: which of the two readings of process_timeouts, and
      how std::sort orders equal deadlines. */
  datatype Env = Env(variant: T.Variant, sort: seq<P.Entry> -> seq<P.Entry>)

  /** The handlers the constructor registers, by the element they become. */
  const CALLBACKS: nat := 0
  const STOP: nat := 1
  const TIMEOUTS: nat := 2
  const PERIODICS: nat := 3

  function Register(fd: H.Fd, callback: nat): seq<H.Op> {
    [H.Open(fd), H.AddHandler(fd, 1, callback)]
  }

  function Create(callbacks: H.Fd, stop: H.Fd, timeouts: H.Fd, periodics: H.Fd): Loop {
    Loop(T.INITIAL, P.INITIAL,
         H.RunOps(H.RunOps(H.RunOps(H.RunOps(H.INITIAL,
           Register(callbacks, CALLBACKS)), Register(stop, STOP)),
           Register(timeouts, TIMEOUTS)), Register(periodics, PERIODICS)),
         C.INITIAL)
  }

  // ----------------------------------------------------------------- operations

  function PostSteps(thread: C.Thread, callback: C.Callback): seq<C.Step> {
    [C.Lock(thread, callback), C.Push(thread), C.Write(thread)]
  }

  function Apply(l: Loop, op: Op): Loop {
    match op
    case Timeout(o) => l.(timeouts := T.Apply(l.timeouts, o))
    case Periodic(o) => l.(periodics := P.Apply(l.periodics, o))
    case Handler(o) => l.(handlers := H.Apply(l.handlers, o).0)
    case Post(t, c) => l.(callbacks := C.Run(l.callbacks, PostSteps(t, c)))
  }

  lemma {:induction false} PostLeavesLoop(s: C.State, steps: seq<C.Step>)
    requires forall k :: 0 <= k < |steps| ==> steps[k].Lock? || steps[k].Push? || steps[k].Write?
    ensures C.Run(s, steps).loop == s.loop
    decreases |steps|
  {
    if steps != [] {
      PostLeavesLoop(if C.Enabled(s, steps[0]) then C.Next(s, steps[0]) else s, steps[1..]);
    }
  }

  /** A callback, run. While a list is being traversed, no operation of any kind moves,
      adds or drops one of its entries. */
  function RunOps(l: Loop, ops: seq<Op>): (r: Loop)
    ensures l.timeouts.processing ==> T.Frozen(l.timeouts, r.timeouts)
    ensures l.periodics.processing ==> P.Frozen(l.periodics, r.periodics)
    ensures r.callbacks.loop == l.callbacks.loop
    decreases |ops|
  {
    if ops == [] then l
    else
      assert ops[0].Post? ==> Apply(l, ops[0]).callbacks.loop == l.callbacks.loop by {
        if ops[0].Post? { PostLeavesLoop(l.callbacks, PostSteps(ops[0].thread, ops[0].callback)); }
      }
      RunOps(Apply(l, ops[0]), ops[1..])
  }

  // -------------------------------------------------------- what the events run

  function RunTimeouts(l: Loop, i: nat, now: int, behave: nat -> seq<Op>): (r: (Loop, nat))
    requires l.timeouts.processing && i <= |l.timeouts.list|
    ensures r.1 <= |r.0.timeouts.list|
    decreases |l.timeouts.list| - i
  {
    if i == |l.timeouts.list| then (l, i)
    else if l.timeouts.list[i].remove then RunTimeouts(l, i + 1, now, behave)
    else if l.timeouts.list[i].deadline <= now then
      var begun := l.(timeouts := T.Begin(l.timeouts, i, now));
      RunTimeouts(RunOps(begun, behave(l.timeouts.list[i].id)), i + 1, now, behave)
    else (l, i)
  }

  function ProcessTimeouts(l: Loop, act: Act, env: Env): Loop {
    if !M.Readable(l.timeouts.timer, act.now) then l
    else
      var begun := l.(timeouts := l.timeouts.(processing := true, timer := M.Idle));
      var (m, i) := RunTimeouts(begun, 0, act.now, act.behave);
      m.(timeouts := T.Finish(m.timeouts, i, act.clock, env.variant))
  }

  function RunPeriodics(l: Loop, i: nat, now: int, behave: nat -> seq<Op>): Loop
    requires l.periodics.processing && i <= |l.periodics.list|
    decreases |l.periodics.list| - i
  {
    if i == |l.periodics.list| then l
    else if l.periodics.list[i].remove then RunPeriodics(l, i + 1, now, behave)
    else if l.periodics.list[i].deadline <= now then
      var begun := l.(periodics := P.Begin(l.periodics, i, now));
      RunPeriodics(RunOps(begun, behave(l.periodics.list[i].id)), i + 1, now, behave)
    else l
  }

  function ProcessPeriodics(l: Loop, act: Act, env: Env): Loop {
    if !M.Readable(l.periodics.timer, act.now) then l
    else
      var begun := l.(periodics := l.periodics.(processing := true, timer := M.Idle));
      var m := RunPeriodics(begun, 0, act.now, act.behave);
      m.(periodics := P.Rearm(P.Merge(P.Renew(m.periodics, act.later, env.sort)), act.clock))
  }

  /** The moved callbacks, one after another. */
  function RunCallbacks(l: Loop, behave: nat -> seq<Op>): Loop
    requires l.callbacks.loop.Running?
    decreases |l.callbacks.loop.batch| - l.callbacks.loop.next
  {
    var at := l.callbacks.loop;
    if at.next >= |at.batch| then l.(callbacks := C.Next(l.callbacks, C.LoopDone))
    else RunCallbacks(RunOps(l.(callbacks := C.Next(l.callbacks, C.LoopCall)), behave(at.batch[at.next])), behave)
  }

  const MOVE_OUT: seq<C.Step> := [C.LoopRead, C.LoopLock, C.LoopMove, C.LoopUnlock]

  function ProcessCallbacks(l: Loop, act: Act): Loop {
    var m := l.(callbacks := C.Run(l.callbacks, MOVE_OUT));
    if m.callbacks.loop.Running? then RunCallbacks(m, act.behave) else m
  }

  /** What one dispatched event meets: clock readings, what each callback does, and
      what a handler of the user does. */
  datatype Act = Act(now: int, later: int, clock: M.Clock, behave: nat -> seq<Op>, ops: seq<Op>)

  function Perform(l: Loop, node: nat, act: Act, env: Env): Loop {
    if node == CALLBACKS then ProcessCallbacks(l, act)
    else if node == STOP then l
    else if node == TIMEOUTS then ProcessTimeouts(l, act, env)
    else if node == PERIODICS then ProcessPeriodics(l, act, env)
    else RunOps(l, act.ops)
  }

  // -------------------------------------------------------------------- batches

  function Called(l: Loop, event: H.Event): Loop {
    l.(handlers := l.handlers.(log := l.handlers.log + [H.Follow(l.handlers, event)]))
  }

  function DispatchAll(l: Loop, events: seq<H.Event>, acts: nat -> Act, env: Env): Loop
    decreases |events|
  {
    if events == [] then l
    else DispatchAll(Perform(Called(l, events[0]), events[0].node, acts(events[0].node), env), events[1..], acts, env)
  }

  function Batch(l: Loop, events: seq<H.Event>, acts: nat -> Act, env: Env): Loop {
    var m := DispatchAll(l.(handlers := l.handlers.(processing := true)), events, acts, env);
    m.(handlers := H.PruneFrom(m.handlers.(processing := false), 0).0)
  }

  datatype Round = Outside(op: Op) | Wait(events: seq<H.Event>, acts: nat -> Act) | Interrupted

  ghost function Next(l: Loop, round: Round, env: Env): Loop {
    match round
    case Outside(op) => Apply(l, op)
    case Wait(events, acts) => if H.Reportable(l.handlers, events) then Batch(l, events, acts, env) else l
    case Interrupted => l
  }

  ghost function Run(l: Loop, rounds: seq<Round>, env: Env): Loop
    decreases |rounds|
  {
    if rounds == [] then l else Run(Next(l, rounds[0], env), rounds[1..], env)
  }
}
