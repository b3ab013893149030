/** What each request about a handler does, and what stays as it was. */
module HandlerEffects {
  import opened Handlers
  import opened HandlerProofs

  /** Every registration but that of fd is the same, in the map and in the kernel. */
  ghost predicate OthersSame(s: State, t: State, fd: Fd) {
    && (forall x :: x != fd ==> (x in s.handlers <==> x in t.handlers) && (x in s.interest <==> x in t.interest))
    && (forall x :: x != fd && x in s.handlers ==> t.handlers[x] == s.handlers[x])
    && (forall x :: x != fd && x in s.interest ==> t.interest[x] == s.interest[x])
    && t.open == s.open && t.log == s.log && t.processing == s.processing
  }

  lemma OneMore<V(!new)>(m: map<Fd, V>, n: map<Fd, V>, fd: Fd)
    requires fd in n && forall x :: x != fd ==> (x in m <==> x in n) && (x in m ==> n[x] == m[x])
    ensures n == m[fd := n[fd]]
  {
    var more := m[fd := n[fd]];
    forall x ensures (x in more <==> x in n) && (x in n ==> more[x] == n[x]) {
      assert x != fd ==> (x in m <==> x in n);
    }
  }

  lemma OneAdded(s: State, t: State, fd: Fd)
    requires OthersSame(s, t, fd) && fd in t.handlers && fd in t.interest
    ensures t.handlers == s.handlers[fd := t.handlers[fd]] && t.interest == s.interest[fd := t.interest[fd]]
  {
    OneMore(s.handlers, t.handlers, fd);
    OneMore(s.interest, t.interest, fd);
  }

  // -------------------------------------------------------------------- additions

  /** An addition succeeds exactly for an open descriptor that has no handler. */
  lemma AdditionSucceedsIff(s: State, fd: Fd, events: nat, callback: nat)
    requires Inv(s)
    ensures AddHandlerOp(s, fd, events, callback).1 <==> fd in s.handlers || fd !in s.open
  {}

  /** It registers a new element with the events and the callback asked for, in the map
      and in the kernel alike, and makes room for one more event. */
  lemma AdditionTakesEffect(s: State, fd: Fd, events: nat, callback: nat)
    requires Inv(s)
    ensures var (t, threw) := AddHandlerOp(s, fd, events, callback);
            if threw then t == s
            else
              && fd in t.handlers && t.handlers[fd] == Handler(s.nextNode, events, callback)
              && fd in t.interest && t.interest[fd] == s.nextNode
              && t.nextNode == s.nextNode + 1 && t.sizeEvents == s.sizeEvents + 1 && t.removed == s.removed
              && t.careless == s.careless && OthersSame(s, t, fd)
  {}

  // --------------------------------------------------------------------- removals

  /** Outside a batch a removal takes the handler out of the map and out of the kernel at
      once, and its place in the event buffer with it; it throws exactly when the
      descriptor is not open any more. */
  lemma RemovalOutside(s: State, fd: Fd)
    requires Inv(s) && !s.processing && fd in s.handlers
    ensures var (t, threw) := RemoveHandlerOp(s, fd);
            && fd !in t.handlers && fd !in t.interest
            && Dead(t, s.handlers[fd].node)
            && t.sizeEvents == s.sizeEvents - (if fd in s.interest then 1 else 0)
            && t.nextNode == s.nextNode && t.removed == s.removed
            && OthersSame(s, t, fd)
            && (threw <==> fd !in s.open)
  {
    var t := RemoveHandlerOp(s, fd).0;
    assert fd in s.interest ==> fd in s.open;
    forall x | x in t.handlers ensures t.handlers[x].node != s.handlers[fd].node {
      assert x in s.handlers && x != fd;
    }
  }

  /** During a batch it is put off: nothing changes but the list of removals to come. */
  lemma RemovalInside(s: State, fd: Fd)
    requires s.processing && fd in s.handlers
    ensures RemoveHandlerOp(s, fd) == (s.(removed := s.removed + [fd]), false)
  {}

  /** Removing a handler that is not there is no error and changes nothing. */
  lemma RemovalOfNobody(s: State, fd: Fd)
    requires fd !in s.handlers
    ensures RemoveHandlerOp(s, fd) == (s, false)
  {}

  /** Over every run: a handler removed outside a batch is never called again. */
  lemma RemovedOutsideIsNeverCalled(s: State, fd: Fd, rounds: seq<Round>)
    requires Inv(s) && !s.processing && NothingWild(s.log) && fd in s.handlers
    ensures var t := Next(s, Outside(RemoveHandler(fd)));
            NeverCalled(Run(t, rounds).log, |s.log|, s.handlers[fd].node)
  {
    RemovalOutside(s, fd);
    NextKeeps(s, Outside(RemoveHandler(fd)));
    hide Inv, RemoveHandlerOp, Run;
    DeadIsNeverCalled(Next(s, Outside(RemoveHandler(fd))), rounds, s.handlers[fd].node);
  }

  // --------------------------------------------------------------- a whole batch

  /** What the called handlers ask for, one after another. */
  function Asked(events: seq<Event>, behave: nat -> seq<Op>): seq<Op> {
    if events == [] then [] else behave(events[0].node) + Asked(events[1..], behave)
  }

  lemma {:induction false} RunOpsConcat(s: State, a: seq<Op>, b: seq<Op>)
    ensures RunOps(s, a + b) == RunOps(RunOps(s, a), b)
    decreases |a|
  {
    if a == [] {
      assert a + b == b;
    } else {
      assert (a + b)[1..] == a[1..] + b;
      RunOpsConcat(Apply(s, a[0]).0, a[1..], b);
    }
  }

  lemma ApplyIgnoresLog(s: State, op: Op, log: seq<Dispatch>)
    ensures Apply(s.(log := log), op).0 == Apply(s, op).0.(log := log)
  {}

  lemma {:induction false} RunOpsIgnoresLog(s: State, ops: seq<Op>, log: seq<Dispatch>)
    ensures RunOps(s.(log := log), ops) == RunOps(s, ops).(log := log)
    decreases |ops|
  {
    if ops != [] {
      ApplyIgnoresLog(s, ops[0], log);
      hide Apply;
      RunOpsIgnoresLog(Apply(s, ops[0]).0, ops[1..], log);
    }
  }

  /** A batch does exactly what its handlers ask for, in the order of their events, and
      logs a call for each. */
  lemma {:induction false} DispatchDoesWhatIsAsked(s: State, events: seq<Event>, behave: nat -> seq<Op>)
    requires s.processing && Live(s, events)
    ensures DispatchAll(s, events, behave)
            == RunOps(s, Asked(events, behave)).(log := s.log + CallsOf(s.handlers, events))
    decreases |events|
  {
    DispatchFollowsLivePointers(s, events, behave);
    if events != [] {
      var ops := behave(events[0].node);
      var called := s.(log := s.log + [Follow(s, events[0])]);
      var t := RunOps(called, ops);
      RunOpsGrows(called, ops);
      assert Live(t, events[1..]);
      RunOpsIgnoresLog(s, ops, called.log);
      hide RunOps, CallsOf, Live, Follow;
      DispatchDoesWhatIsAsked(t, events[1..], behave);
      RunOpsConcat(s, ops, Asked(events[1..], behave));
      RunOpsIgnoresLog(RunOps(s, ops), Asked(events[1..], behave), called.log);
    }
  }
}
