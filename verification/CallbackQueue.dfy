/** The cross-thread callbacks of linuxpp::ioloop: add_callback, called by any
    number of threads, against process_callbacks, run by the loop's thread. The
    steps of both are interleaved freely; the mutex and the eventfd are the only
    things that order them. */
module CallbackQueue {

  type Thread = nat
  type Callback = nat

  /** The largest value an eventfd counter holds; a write that would pass it fails
      with EAGAIN. */
  const SATURATED: nat := 0xFFFF_FFFF_FFFF_FFFE

  datatype Owner = Free | Producer(thread: Thread) | Loop

  /** Where a producer stands inside add_callback. */
  datatype ProducerAt = Outside | Locked(callback: Callback) | Pushed

  /** Where the loop stands: waiting in epoll_wait (or elsewhere), between the read
      of the eventfd and the lock, holding the lock before and after the move, or
      running the moved callbacks, `next` being the one to call next. */
  datatype LoopAt =
    | Waiting
    | HasRead
    | HasLock
    | HasMoved(batch: seq<Callback>)
    | Running(batch: seq<Callback>, next: nat)

  /** `added` is every callback pushed so far, in the order of the lock; `executed`
      every callback called so far. `strays` counts the queued callbacks whose write
      failed for another reason than saturation, which add_callback reports by
      throwing. */
  datatype State = State(
    owner: Owner,
    producers: map<Thread, ProducerAt>,
    loop: LoopAt,
    queue: seq<Callback>,
    counter: nat,
    strays: nat,
    added: seq<Callback>,
    executed: seq<Callback>)

  const INITIAL := State(Free, map[], Waiting, [], 0, 0, [], [])

  datatype Step =
    | Lock(thread: Thread, callback: Callback)
    | Push(thread: Thread)
    | Write(thread: Thread)
    | WriteFails(thread: Thread)
    | LoopRead
    | LoopLock
    | LoopMove
    | LoopUnlock
    | LoopCall
    | LoopDone

  function At(s: State, t: Thread): ProducerAt {
    if t in s.producers then s.producers[t] else Outside
  }

  predicate Enabled(s: State, step: Step) {
    match step
    case Lock(t, _) => At(s, t) == Outside && s.owner == Free
    case Push(t) => At(s, t).Locked?
    case Write(t) => At(s, t) == Pushed
    case WriteFails(t) => At(s, t) == Pushed
    case LoopRead => s.loop == Waiting && s.counter > 0
    case LoopLock => s.loop == HasRead && s.owner == Free
    case LoopMove => s.loop == HasLock
    case LoopUnlock => s.loop.HasMoved?
    case LoopCall => s.loop.Running? && s.loop.next < |s.loop.batch|
    case LoopDone => s.loop.Running? && s.loop.next >= |s.loop.batch|
  }

  /** A write and the release of the lock that follows it are one step: nothing
      another thread can see lies between them. */
  function Next(s: State, step: Step): State
    requires Enabled(s, step)
  {
    match step
    case Lock(t, c) => s.(owner := Producer(t), producers := s.producers[t := Locked(c)])
    case Push(t) =>
      var c := At(s, t).callback;
      s.(queue := s.queue + [c], added := s.added + [c], producers := s.producers[t := Pushed])
    case Write(t) =>
      s.(counter := if s.counter < SATURATED then s.counter + 1 else s.counter,
         owner := Free, producers := s.producers[t := Outside])
    case WriteFails(t) => s.(strays := s.strays + 1, owner := Free, producers := s.producers[t := Outside])
    case LoopRead => s.(counter := 0, loop := HasRead)
    case LoopLock => s.(owner := Loop, loop := HasLock)
    case LoopMove => s.(loop := HasMoved(s.queue), queue := [], strays := 0)
    case LoopUnlock => s.(owner := Free, loop := Running(s.loop.batch, 0))
    case LoopCall =>
      s.(executed := s.executed + [s.loop.batch[s.loop.next]], loop := Running(s.loop.batch, s.loop.next + 1))
    case LoopDone => s.(loop := Waiting)
  }

  /** Disabled steps wait: a schedule that names one leaves the state alone. */
  function Run(s: State, steps: seq<Step>): State
    decreases |steps|
  {
    if steps == [] then s
    else Run(if Enabled(s, steps[0]) then Next(s, steps[0]) else s, steps[1..])
  }

  // ------------------------------------------------------------ the invariant

  /** Moved out of the queue and not yet called. */
  function InHand(loop: LoopAt): seq<Callback> {
    match loop
    case HasMoved(batch) => batch
    case Running(batch, next) => if next <= |batch| then batch[next..] else []
    case _ => []
  }

  /** The mutex: only its owner is between lock and unlock. */
  ghost predicate Exclusive(s: State) {
    && (forall t :: At(s, t) != Outside <==> s.owner == Producer(t))
    && (s.loop.HasLock? || s.loop.HasMoved? <==> s.owner == Loop)
    && (s.loop.Running? ==> s.loop.next <= |s.loop.batch|)
  }

  /** Exactly once and first in, first out. */
  ghost predicate Conserved(s: State) {
    s.executed + InHand(s.loop) + s.queue == s.added
  }

  /** The loop has read the counter and not yet moved the queue out. */
  predicate AboutToMove(s: State) {
    s.loop == HasRead || s.loop == HasLock
  }

  /** A producer has pushed and not yet written. */
  ghost predicate AboutToWrite(s: State) {
    s.owner.Producer? && At(s, s.owner.thread) == Pushed
  }

  /** No lost wake-up: the counter is up, or the loop is on its way to the queue, or
      every queued callback is one whose write failed or is still to come. */
  ghost predicate WokenUp(s: State) {
    var unwritten := s.strays + if AboutToWrite(s) then 1 else 0;
    unwritten <= |s.queue| && (s.counter > 0 || AboutToMove(s) || unwritten == |s.queue|)
  }

  ghost predicate Inv(s: State) {
    Exclusive(s) && Conserved(s) && WokenUp(s) && s.counter <= SATURATED
  }

  lemma NextExclusive(s: State, step: Step)
    requires Exclusive(s) && Enabled(s, step)
    ensures Exclusive(Next(s, step))
  {
    match step {
      case Push(p) => assert At(s, p) != Outside;
      case Write(p) => assert At(s, p) != Outside;
      case WriteFails(p) => assert At(s, p) != Outside;
      case _ =>
    }
  }

  lemma NextConserved(s: State, step: Step)
    requires Exclusive(s) && Conserved(s) && Enabled(s, step)
    ensures Conserved(Next(s, step))
  {
    hide At;
    match step {
      case Push(p) =>
        var c := At(s, p).callback;
        assert s.executed + InHand(s.loop) + (s.queue + [c]) == (s.executed + InHand(s.loop) + s.queue) + [c];
      case LoopMove =>
        assert s.executed + s.queue + [] == s.executed + [] + s.queue;
      case LoopCall =>
        var b, n := s.loop.batch, s.loop.next;
        assert b[n..] == [b[n]] + b[n + 1..];
        assert s.executed + ([b[n]] + b[n + 1..]) == (s.executed + [b[n]]) + b[n + 1..];
      case _ =>
    }
  }

  lemma NextWoken(s: State, step: Step)
    requires Exclusive(s) && WokenUp(s) && Enabled(s, step) && s.counter <= SATURATED
    ensures WokenUp(Next(s, step)) && Next(s, step).counter <= SATURATED
  {
    match step {
      case Push(p) => assert At(s, p) != Outside;
      case Write(p) => assert At(s, p) != Outside;
      case WriteFails(p) => assert At(s, p) != Outside;
      case _ =>
    }
  }

  lemma NextKeeps(s: State, step: Step)
    requires Inv(s) && Enabled(s, step)
    ensures Inv(Next(s, step))
  {
    hide Exclusive, Conserved, WokenUp, Next, Enabled;
    NextExclusive(s, step);
    NextConserved(s, step);
    NextWoken(s, step);
  }

  /** Over every interleaving of any number of producers with the loop: every
      callback added is called, in hand or queued, exactly once and in the order
      of the lock, and a queue that is not empty has its wake-up under way. */
  lemma {:induction false} EveryInterleavingKeepsInvariant(s: State, steps: seq<Step>)
    requires Inv(s)
    ensures Inv(Run(s, steps))
    decreases |steps|
  {
    if steps != [] {
      if Enabled(s, steps[0]) {
        NextKeeps(s, steps[0]);
        EveryInterleavingKeepsInvariant(Next(s, steps[0]), steps[1..]);
      } else {
        EveryInterleavingKeepsInvariant(s, steps[1..]);
      }
    }
  }

  // ------------------------------------------------------------------ delivery

  /** Nobody is inside add_callback, and the loop is waiting. */
  ghost predicate AtRest(s: State) {
    s.owner == Free && s.loop == Waiting
  }

  function Calls(n: nat): seq<Step> {
    if n == 0 then [LoopDone] else [LoopCall] + Calls(n - 1)
  }

  lemma TakeOne(executed: seq<Callback>, callbacks: seq<Callback>, k: nat)
    requires k < |callbacks|
    ensures executed + callbacks[k..] == (executed + [callbacks[k]]) + callbacks[k + 1..]
  {
    assert callbacks[k..] == [callbacks[k]] + callbacks[k + 1..];
  }

  lemma {:induction false} CallsEmptyTheBatch(s: State)
    requires s.loop.Running? && s.loop.next <= |s.loop.batch|
    ensures Run(s, Calls(|s.loop.batch| - s.loop.next)) ==
            s.(executed := s.executed + s.loop.batch[s.loop.next..], loop := Waiting)
    decreases |s.loop.batch| - s.loop.next
  {
    var b, n := s.loop.batch, s.loop.next;
    if n == |b| {
      assert Calls(0) == [LoopDone];
      assert Run(s, [LoopDone]) == Run(Next(s, LoopDone), []);
      assert s.executed + b[n..] == s.executed;
    } else {
      var t := Next(s, LoopCall);
      CallsEmptyTheBatch(t);
      assert Calls(|b| - n)[1..] == Calls(|b| - n - 1);
      TakeOne(s.executed, b, n);
    }
  }

  /** One round of process_callbacks from rest. */
  function Round(s: State): seq<Step> {
    [LoopRead] + ([LoopLock] + ([LoopMove] + ([LoopUnlock] + Calls(|s.queue|))))
  }

  lemma RunCons(s: State, step: Step, rest: seq<Step>)
    requires Enabled(s, step)
    ensures Run(s, [step] + rest) == Run(Next(s, step), rest)
  {
    assert ([step] + rest)[1..] == rest;
  }

  /** The first four steps of a round. */
  lemma RunFour(s: State, rest: seq<Step>)
    requires s.owner == Free && s.loop == Waiting && s.counter > 0
    ensures Run(s, [LoopRead] + ([LoopLock] + ([LoopMove] + ([LoopUnlock] + rest)))) ==
            Run(s.(counter := 0, strays := 0, queue := [], loop := Running(s.queue, 0)), rest)
  {
    var a := Next(s, LoopRead);
    var b := Next(a, LoopLock);
    var c := Next(b, LoopMove);
    var d := Next(c, LoopUnlock);
    assert Enabled(s, LoopRead) && Enabled(a, LoopLock) && Enabled(b, LoopMove) && Enabled(c, LoopUnlock);
    assert d == s.(counter := 0, strays := 0, queue := [], loop := Running(s.queue, 0));
    hide Run, Next, Enabled;
    RunCons(s, LoopRead, [LoopLock] + ([LoopMove] + ([LoopUnlock] + rest)));
    RunCons(a, LoopLock, [LoopMove] + ([LoopUnlock] + rest));
    RunCons(b, LoopMove, [LoopUnlock] + rest);
    RunCons(c, LoopUnlock, rest);
  }

  lemma RoundDelivers(s: State)
    requires Conserved(s) && AtRest(s) && s.counter > 0
    ensures Run(s, Round(s)).executed == s.added
  {
    hide Run, Calls;
    RunFour(s, Calls(|s.queue|));
    CallsEmptyTheBatch(s.(counter := 0, strays := 0, queue := [], loop := Running(s.queue, 0)));
    assert s.executed + [] + s.queue == s.executed + s.queue[0..];
  }

  predicate ByLoop(step: Step) {
    step.LoopRead? || step.LoopLock? || step.LoopMove? || step.LoopUnlock? || step.LoopCall? || step.LoopDone?
  }

  ghost predicate LoopAlone(steps: seq<Step>) {
    forall k :: 0 <= k < |steps| ==> ByLoop(steps[k])
  }

  /** The loop alone, with no further call of add_callback, can get everything called
      that has been added. */
  ghost predicate Deliverable(s: State) {
    exists steps :: LoopAlone(steps) && Run(s, steps).executed == s.added
  }

  /** Whether the loop is on its way to the queue, or will be woken. */
  ghost predicate Awake(s: State) {
    s.counter > 0 || AboutToMove(s)
  }

  /** What the loop does next until nothing is left to do, ordered so that it ends. */
  function Phase(s: State): nat {
    match s.loop
    case HasMoved(_) => if s.queue == [] then 3 else 10
    case Running(_, _) => if s.queue == [] then 2 else 9
    case Waiting => if s.queue == [] then 1 else 8
    case HasRead => if s.queue == [] then 5 else 7
    case HasLock => if s.queue == [] then 4 else 6
  }

  function NextOfLoop(s: State): Step {
    match s.loop
    case HasMoved(_) => LoopUnlock
    case Running(batch, next) => if next < |batch| then LoopCall else LoopDone
    case Waiting => LoopRead
    case HasRead => LoopLock
    case HasLock => LoopMove
  }

  function CallsLeft(s: State): int {
    if s.loop.Running? then |s.loop.batch| - s.loop.next else 0
  }

  lemma LoopAdvances(s: State)
    requires Inv(s) && !s.owner.Producer? && (s.queue == [] || Awake(s)) && !(s.loop == Waiting && s.queue == [])
    ensures Enabled(s, NextOfLoop(s))
    ensures var t := Next(s, NextOfLoop(s));
            && !t.owner.Producer? && (t.queue == [] || Awake(t)) && t.added == s.added
            && (Phase(t) < Phase(s) || (Phase(t) == Phase(s) && CallsLeft(t) < CallsLeft(s)))
  {
    assert s.loop.HasRead? ==> s.owner == Free;
  }

  lemma {:induction false} LoopDrains(s: State) returns (steps: seq<Step>)
    requires Inv(s) && !s.owner.Producer? && (s.queue == [] || Awake(s))
    ensures LoopAlone(steps) && Run(s, steps).executed == s.added
    decreases Phase(s), CallsLeft(s)
  {
    steps := [];
    if s.loop == Waiting && s.queue == [] {
      assert s.executed + [] + [] == s.executed;
    } else {
      var step := NextOfLoop(s);
      LoopAdvances(s);
      NextKeeps(s, step);
      hide Inv, Enabled, Next, Awake, Phase, CallsLeft;
      var rest := LoopDrains(Next(s, step));
      RunCons(s, step, rest);
      steps := [step] + rest;
    }
  }

  /** A queue that nothing announces is left alone by the loop. */
  lemma {:induction false} LoopIgnores(s: State, steps: seq<Step>)
    requires !Awake(s) && LoopAlone(steps)
    ensures var t := Run(s, steps); !Awake(t) && t.queue == s.queue && t.added == s.added
    decreases |steps|
  {
    if steps != [] {
      assert ByLoop(steps[0]) && LoopAlone(steps[1..]);
      LoopIgnores(if Enabled(s, steps[0]) then Next(s, steps[0]) else s, steps[1..]);
    }
  }

  /** In any reachable state with nobody inside add_callback, wherever the loop stands:
      the loop alone gets everything called if and only if the queue is empty, the
      eventfd is readable, or the loop is already on its way to the queue. */
  lemma DeliverableIff(s: State)
    requires Inv(s) && !s.owner.Producer?
    ensures Deliverable(s) <==> s.queue == [] || Awake(s)
  {
    if s.queue == [] || Awake(s) {
      var steps := LoopDrains(s);
    } else {
      forall steps | LoopAlone(steps) ensures Run(s, steps).executed != s.added {
        LoopIgnores(s, steps);
        EveryInterleavingKeepsInvariant(s, steps);
        var t := Run(s, steps);
        assert t.executed + InHand(t.loop) + t.queue == t.added;
        assert |t.executed| < |t.added|;
      }
    }
  }

  /** From rest in any reachable state: the loop alone gets a queue that is not empty
      called if and only if the eventfd is readable, one round of process_callbacks
      then being enough; it is if the write of even one queued callback went through
      or met a saturated counter. An empty queue has been called already. */
  lemma NothingIsLost(s: State)
    requires Inv(s) && AtRest(s)
    ensures s.queue == [] ==> s.executed == s.added
    ensures s.queue != [] ==> (Deliverable(s) <==> s.counter > 0)
    ensures s.counter > 0 ==> Run(s, Round(s)).executed == s.added
    ensures s.strays < |s.queue| ==> s.counter > 0
  {
    DeliverableIff(s);
    if s.counter > 0 {
      RoundDelivers(s);
    }
  }

  // ------------------------------------------------- when the eventfd is readable

  function Stepped(s: State, step: Step): State {
    if Enabled(s, step) then Next(s, step) else s
  }

  /** The run reads the eventfd. */
  predicate Reads(s: State, steps: seq<Step>)
    decreases |steps|
  {
    steps != [] &&
    ((steps[0].LoopRead? && Enabled(s, steps[0])) || Reads(Stepped(s, steps[0]), steps[1..]))
  }

  /** Some add_callback of the run writes to the eventfd and nothing reads it after. */
  predicate Writes(s: State, steps: seq<Step>)
    decreases |steps|
  {
    steps != [] &&
    (|| (steps[0].Write? && Enabled(s, steps[0]) && !Reads(Stepped(s, steps[0]), steps[1..]))
     || Writes(Stepped(s, steps[0]), steps[1..]))
  }

  /** After any run the eventfd is readable if and only if some write came after the
      last read, or it was readable before and nothing read it. */
  lemma {:induction false} ReadableIff(s: State, steps: seq<Step>)
    ensures Run(s, steps).counter > 0 <==> Writes(s, steps) || (s.counter > 0 && !Reads(s, steps))
    decreases |steps|
  {
    if steps != [] {
      ReadableIff(Stepped(s, steps[0]), steps[1..]);
    }
  }

  /** How often the run writes after its last read, n writes having come before it. */
  function WritesSince(s: State, steps: seq<Step>, n: nat): nat
    decreases |steps|
  {
    if steps == [] then n
    else
      var m := if !Enabled(s, steps[0]) then n
               else if steps[0].LoopRead? then 0
               else if steps[0].Write? then n + 1
               else n;
      WritesSince(Stepped(s, steps[0]), steps[1..], m)
  }

  /** The counter holds how many writes came after the last read, as far as it goes. */
  lemma {:induction false} CounterCounts(s: State, steps: seq<Step>, n: nat)
    requires s.counter == if n < SATURATED then n else SATURATED
    ensures var w := WritesSince(s, steps, n); Run(s, steps).counter == if w < SATURATED then w else SATURATED
    decreases |steps|
  {
    if steps != [] {
      var step := steps[0];
      var m := if !Enabled(s, step) then n else if step.LoopRead? then 0 else if step.Write? then n + 1 else n;
      CounterCounts(Stepped(s, step), steps[1..], m);
    }
  }

  /** So over every interleaving that ends at rest with callbacks queued: the loop alone
      calls them if and only if a write came after its last read. */
  lemma EveryRunDeliversIff(steps: seq<Step>)
    requires var t := Run(INITIAL, steps); AtRest(t) && t.queue != []
    ensures Deliverable(Run(INITIAL, steps)) <==> Writes(INITIAL, steps)
  {
    EveryInterleavingKeepsInvariant(INITIAL, steps);
    ReadableIff(INITIAL, steps);
    NothingIsLost(Run(INITIAL, steps));
  }

  /** Writes do fail: the call of add_callback throws but leaves its callback in the
      queue with nothing to wake the loop. */
  lemma FailedWriteStrandsCallback(c: Callback)
    ensures var s := Run(INITIAL, [Lock(0, c), Push(0), WriteFails(0)]);
            AtRest(s) && s.queue == [c] && s.strays == 1 && !Deliverable(s)
  {
    var steps := [Lock(0, c), Push(0), WriteFails(0)];
    var a := Next(INITIAL, Lock(0, c));
    var b := Next(a, Push(0));
    assert steps == [Lock(0, c)] + ([Push(0)] + ([WriteFails(0)] + []));
    RunCons(INITIAL, Lock(0, c), [Push(0)] + ([WriteFails(0)] + []));
    RunCons(a, Push(0), [WriteFails(0)] + []);
    RunCons(b, WriteFails(0), []);
    EveryInterleavingKeepsInvariant(INITIAL, steps);
    hide Run;
    NothingIsLost(Run(INITIAL, steps));
  }

  // --------------------------------------------------- the two members themselves

  /** The outcome of the eventfd write in add_callback. */
  datatype WriteResult = Written | Errno(other: nat)

  function Concat(parts: nat -> seq<Callback>, n: nat): seq<Callback> {
    if n == 0 then [] else Concat(parts, n - 1) + parts(n - 1)
  }

  /** add_callback and process_callbacks over the members they share. The calls other
      threads make meanwhile are arguments: `early` between the read and the lock,
      `during(k)` while the k-th callback runs (its own calls included). */
  class Callbacks {
    var newCallbacks: seq<Callback>
    var counter: nat
    ghost var added: seq<Callback>
    ghost var inHand: seq<Callback>
    ghost var executed: seq<Callback>

    ghost predicate Valid()
      reads this
    {
      executed + inHand + newCallbacks == added && counter <= SATURATED
    }

    constructor ()
      ensures Valid() && added == [] && inHand == [] && counter == 0
    {
      newCallbacks, counter, added, inHand, executed := [], 0, [], [], [];
    }

    /** A write that meets a saturated counter fails with EAGAIN, which is no error. */
    method AddCallback(callback: Callback, result: WriteResult) returns (threw: bool)
      requires Valid()
      modifies this`newCallbacks, this`counter, this`added
      ensures Valid() && added == old(added) + [callback] && newCallbacks == old(newCallbacks) + [callback]
      ensures threw == result.Errno?
      ensures if threw then counter == old(counter) else counter > 0
    {
      newCallbacks := newCallbacks + [callback];
      added := added + [callback];
      assert executed + inHand + newCallbacks == old(executed + inHand + newCallbacks) + [callback];
      if result == Written {
        counter := if counter < SATURATED then counter + 1 else counter;
      }
      threw := result != Written;
    }

    method AddAll(callbacks: seq<Callback>)
      requires Valid()
      modifies this`newCallbacks, this`counter, this`added
      ensures Valid() && added == old(added) + callbacks && newCallbacks == old(newCallbacks) + callbacks
      ensures if callbacks == [] then counter == old(counter) else counter > 0
    {
      var i := 0;
      while i < |callbacks|
        invariant i <= |callbacks| && Valid()
        invariant added == old(added) + callbacks[..i] && newCallbacks == old(newCallbacks) + callbacks[..i]
        invariant if i == 0 then counter == old(counter) else counter > 0
      {
        var _ := AddCallback(callbacks[i], Written);
        assert callbacks[..i + 1] == callbacks[..i] + [callbacks[i]];
        i := i + 1;
      }
      assert callbacks[..i] == callbacks;
    }

    /** Everything added before the move is called before this returns; everything
        added after it stays queued, in order, with the eventfd readable again. */
    method ProcessCallbacks(early: seq<Callback>, during: nat -> seq<Callback>)
      requires Valid() && inHand == [] && counter > 0
      modifies this
      ensures Valid() && inHand == []
      ensures executed == old(added) + early
      ensures newCallbacks == Concat(during, |old(newCallbacks) + early|)
      ensures newCallbacks != [] ==> counter > 0
    {
      counter := 0;
      AddAll(early);
      var callbacks := newCallbacks;
      newCallbacks := [];
      inHand := callbacks;
      ghost var moved := added;
      var k := 0;
      while k < |callbacks|
        invariant k <= |callbacks| && Valid()
        invariant inHand == callbacks[k..] && executed + inHand == moved
        invariant newCallbacks == Concat(during, k)
        invariant newCallbacks != [] ==> counter > 0
      {
        TakeOne(executed, callbacks, k);
        executed := executed + [callbacks[k]];
        inHand := callbacks[k + 1..];
        AddAll(during(k));
        k := k + 1;
      }
    }
  }
}
