/** What every run of the descriptor handlers keeps. */
module HandlerProofs {
  import opened Handlers

  // ------------------------------------------------------- the weak invariant

  ghost predicate NodesOk(s: State) {
    && (forall fd :: fd in s.handlers ==> s.handlers[fd].node < s.nextNode)
    && (forall fd, fd' :: fd in s.handlers && fd' in s.handlers && fd != fd' ==>
          s.handlers[fd].node != s.handlers[fd'].node)
  }

  /** Whatever is done with the descriptors: everything registered is open and has
      its handler, and the event buffer is large enough for all of it. */
  ghost predicate Inv(s: State) {
    && NodesOk(s)
    && (forall fd :: fd in s.interest ==> fd in s.handlers && fd in s.open && s.handlers[fd].node == s.interest[fd])
    && |s.interest| <= s.sizeEvents
  }

  lemma MapSizes(m: map<Fd, nat>, fd: Fd, node: nat)
    ensures fd in m ==> |m - {fd}| == |m| - 1
    ensures fd !in m ==> |m - {fd}| == |m| && |m[fd := node]| == |m| + 1
  {
    assert (m - {fd}).Keys == m.Keys - {fd};
    assert m[fd := node].Keys == m.Keys + {fd};
  }

  lemma NewNode(s: State, t: State, fd: Fd, h: Handler)
    requires NodesOk(s) && fd !in s.handlers && h.node == s.nextNode
    requires t.handlers == s.handlers[fd := h] && t.nextNode == s.nextNode + 1
    ensures NodesOk(t)
  {
    forall a | a in t.handlers && a != fd ensures t.handlers[a] == s.handlers[a] && t.handlers[a].node < s.nextNode {}
  }

  /** A new registration of an open descriptor. */
  lemma JoinKeeps(s: State, t: State, fd: Fd, h: Handler)
    requires Inv(s) && fd !in s.handlers && fd in s.open && h.node == s.nextNode
    requires t.handlers == s.handlers[fd := h] && t.interest == s.interest[fd := h.node]
    requires t.nextNode == s.nextNode + 1 && t.sizeEvents == s.sizeEvents + 1 && t.open == s.open
    ensures Inv(t)
  {
    NewNode(s, t, fd, h);
    hide NodesOk;
    MapSizes(s.interest, fd, h.node);
  }

  lemma AddKeeps(s: State, fd: Fd, events: nat, callback: nat)
    requires Inv(s)
    ensures Inv(AddHandlerOp(s, fd, events, callback).0)
  {
    assert fd in s.interest ==> fd in s.handlers;
    hide Inv;
    if fd !in s.handlers && fd in s.open {
      JoinKeeps(s, AddHandlerOp(s, fd, events, callback).0, fd, Handler(s.nextNode, events, callback));
    }
  }

  /** A descriptor taken out of the interest set, and out of the map or not. */
  lemma DropKeeps(s: State, t: State, fd: Fd)
    requires Inv(s) && t.nextNode == s.nextNode
    requires t.interest == s.interest - {fd} && s.open - {fd} <= t.open
    requires t.handlers == s.handlers || t.handlers == s.handlers - {fd}
    requires t.sizeEvents >= s.sizeEvents - if fd in s.interest then 1 else 0
    ensures Inv(t)
  {
    MapSizes(s.interest, fd, 0);
  }

  lemma SameRegistrations(s: State, t: State)
    requires Inv(s) && s.open <= t.open
    requires t.handlers == s.handlers && t.interest == s.interest && t.sizeEvents == s.sizeEvents
             && t.nextNode == s.nextNode
    ensures Inv(t)
  {}

  lemma ApplyKeeps(s: State, op: Op)
    requires Inv(s)
    ensures Inv(Apply(s, op).0)
  {
    hide Inv;
    var t := Apply(s, op).0;
    match op
    case AddHandler(fd, events, callback) => AddKeeps(s, fd, events, callback);
    case RemoveHandler(fd) =>
      if fd in s.handlers && !s.processing {
        assert fd !in s.interest ==> s.interest - {fd} == s.interest;
        if fd in s.open {
          DropKeeps(s, t, fd);
        } else {
          NotOpenNotRegistered(s, fd);
          DropKeeps(s, t, fd);
        }
      } else {
        SameRegistrations(s, t);
      }
    case Open(fd) => SameRegistrations(s, t);
    case Close(fd) => DropKeeps(s, t, fd);
  }

  lemma NotOpenNotRegistered(s: State, fd: Fd)
    requires Inv(s) && fd !in s.open
    ensures fd !in s.interest
  {}

  lemma {:induction false} RunOpsKeeps(s: State, ops: seq<Op>)
    requires Inv(s)
    ensures Inv(RunOps(s, ops))
    decreases |ops|
  {
    hide Inv;
    if ops != [] {
      ApplyKeeps(s, ops[0]);
      RunOpsKeeps(Apply(s, ops[0]).0, ops[1..]);
    }
  }

  // -------------------------------------------- elements outlive their batch

  /** While a batch is dispatched no element leaves the map; elements that join it
      are new ones. */
  ghost predicate Grows(s: State, t: State) {
    && t.processing == s.processing
    && s.nextNode <= t.nextNode
    && (forall fd :: fd in s.handlers ==> fd in t.handlers && t.handlers[fd] == s.handlers[fd])
    && (forall fd :: fd in t.handlers && fd !in s.handlers ==> t.handlers[fd].node >= s.nextNode)
    && s.removed <= t.removed
  }

  lemma {:induction false} RunOpsGrows(s: State, ops: seq<Op>)
    requires s.processing
    ensures Grows(s, RunOps(s, ops)) && RunOps(s, ops).log == s.log
    decreases |ops|
  {
    if ops != [] {
      assert Grows(s, Apply(s, ops[0]).0);
      RunOpsGrows(Apply(s, ops[0]).0, ops[1..]);
    }
  }

  ghost predicate Live(s: State, events: seq<Event>) {
    forall k :: 0 <= k < |events| ==>
      events[k].fd in s.handlers && s.handlers[events[k].fd].node == events[k].node
  }

  /** The calls that `events` stand for, by the handlers as they were reported. */
  function CallsOf(handlers: map<Fd, Handler>, events: seq<Event>): seq<Dispatch>
    requires forall k :: 0 <= k < |events| ==> events[k].fd in handlers
  {
    if events == [] then []
    else [Called(events[0].fd, events[0].node, handlers[events[0].fd].callback)] + CallsOf(handlers, events[1..])
  }

  lemma {:induction false} CallsSame(s: State, t: State, events: seq<Event>)
    requires Grows(s, t) && Live(s, events)
    ensures Live(t, events) && CallsOf(t.handlers, events) == CallsOf(s.handlers, events)
    decreases |events|
  {
    if events != [] {
      assert Live(s, events[1..]);
      CallsSame(s, t, events[1..]);
    }
  }

  lemma {:induction false} CallsAt(handlers: map<Fd, Handler>, events: seq<Event>)
    requires forall k :: 0 <= k < |events| ==> events[k].fd in handlers
    ensures |CallsOf(handlers, events)| == |events|
    ensures forall k :: 0 <= k < |events| ==>
              CallsOf(handlers, events)[k] == Called(events[k].fd, events[k].node, handlers[events[k].fd].callback)
    decreases |events|
  {
    if events != [] {
      CallsAt(handlers, events[1..]);
    }
  }

  lemma GrowsTrans(s: State, t: State, u: State)
    requires Grows(s, t) && Grows(t, u)
    ensures Grows(s, u)
  {}

  /** Every reported event calls the handler it was reported for, whatever the
      handlers called before it did to the map. */
  lemma {:induction false} DispatchFollowsLivePointers(s: State, events: seq<Event>, behave: nat -> seq<Op>)
    requires s.processing && Live(s, events)
    ensures Grows(s, DispatchAll(s, events, behave))
    ensures DispatchAll(s, events, behave).log == s.log + CallsOf(s.handlers, events)
    decreases |events|
  {
    if events != [] {
      var first := Follow(s, events[0]);
      var called := s.(log := s.log + [first]);
      var t := RunOps(called, behave(events[0].node));
      RunOpsGrows(called, behave(events[0].node));
      assert Grows(s, t) && Live(s, events[1..]);
      CallsSame(s, t, events[1..]);
      var rest := CallsOf(t.handlers, events[1..]);
      assert CallsOf(s.handlers, events) == [first] + rest;
      DispatchFollowsLivePointers(t, events[1..], behave);
      GrowsTrans(s, t, DispatchAll(t, events[1..], behave));
      hide Grows, Live, CallsOf;
      assert s.log + ([first] + rest) == (s.log + [first]) + rest;
    }
  }

  lemma RunOpsStaysInBatch(s: State, ops: seq<Op>)
    requires s.processing
    ensures RunOps(s, ops).processing
  {
    RunOpsGrows(s, ops);
  }

  lemma {:induction false} DispatchKeeps(s: State, events: seq<Event>, behave: nat -> seq<Op>)
    requires Inv(s)
    ensures Inv(DispatchAll(s, events, behave))
    decreases |events|
  {
    if events != [] {
      var called := s.(log := s.log + [Follow(s, events[0])]);
      RunOpsKeeps(called, behave(events[0].node));
      DispatchKeeps(RunOps(called, behave(events[0].node)), events[1..], behave);
    }
  }

  lemma EraseKeeps(s: State, fd: Fd)
    requires Inv(s) && fd in s.open
    ensures var t := Erased(s, fd);
            && Inv(t) && t.log == s.log && t.nextNode == s.nextNode && t.processing == s.processing
            && t.removed == s.removed && t.handlers == s.handlers - {fd}
  {
    hide Inv;
    assert fd !in s.interest ==> s.interest - {fd} == s.interest;
    DropKeeps(s, Erased(s, fd), fd);
  }

  lemma {:induction false} PruneKeeps(s: State, k: nat)
    requires Inv(s)
    ensures Inv(PruneFrom(s, k).0)
    ensures PruneFrom(s, k).0.log == s.log && PruneFrom(s, k).0.nextNode == s.nextNode
    ensures PruneFrom(s, k).0.processing == s.processing
    ensures PruneFrom(s, k).0.handlers.Keys <= s.handlers.Keys
    ensures forall fd :: fd in PruneFrom(s, k).0.handlers ==> PruneFrom(s, k).0.handlers[fd] == s.handlers[fd]
    decreases |s.removed| - k
  {
    if k < |s.removed| && s.removed[k] in s.open {
      EraseKeeps(s, s.removed[k]);
      hide Inv, Erased;
      PruneKeeps(Erased(s, s.removed[k]), k + 1);
    }
  }

  // ---------------------------------------------------------------- whole runs

  /** Between waits anybody on the loop's thread may act; a wait reports events or
      is interrupted. */
  datatype Round = Outside(op: Op) | Wait(events: seq<Event>, behave: nat -> seq<Op>) | Interrupted

  ghost function Next(s: State, round: Round): State {
    match round
    case Outside(op) => Apply(s, op).0
    case Wait(events, behave) => if Reportable(s, events) then Batch(s, events, behave).0 else s
    case Interrupted => s
  }

  ghost function Run(s: State, rounds: seq<Round>): State
    decreases |rounds|
  {
    if rounds == [] then s else Run(Next(s, rounds[0]), rounds[1..])
  }

  ghost predicate NothingWild(log: seq<Dispatch>) {
    forall k :: 0 <= k < |log| ==> log[k].Called?
  }

  lemma DispatchedKeeps(s: State, events: seq<Event>, behave: nat -> seq<Op>)
    requires Inv(s) && Reportable(s, events)
    ensures Inv(Dispatched(s, events, behave))
    ensures Grows(s.(processing := true), Dispatched(s, events, behave).(processing := true))
  {
    var begun := s.(processing := true);
    assert Live(begun, events);
    assert Inv(begun);
    hide Inv;
    DispatchKeeps(begun, events, behave);
    DispatchFollowsLivePointers(begun, events, behave);
    SameRegistrations(DispatchAll(begun, events, behave), Dispatched(s, events, behave));
  }

  lemma BatchKeeps(s: State, events: seq<Event>, behave: nat -> seq<Op>)
    requires Inv(s) && Reportable(s, events)
    ensures Inv(Batch(s, events, behave).0) && !Batch(s, events, behave).0.processing
    ensures Batch(s, events, behave).0.log == s.log + CallsOf(s.handlers, events)
  {
    DispatchedKeeps(s, events, behave);
    var begun := s.(processing := true);
    assert Live(begun, events);
    hide Inv, Reportable;
    DispatchFollowsLivePointers(begun, events, behave);
    PruneKeeps(Dispatched(s, events, behave), 0);
  }

  lemma NextKeeps(s: State, round: Round)
    requires Inv(s) && !s.processing && NothingWild(s.log)
    ensures Inv(Next(s, round)) && !Next(s, round).processing
    ensures NothingWild(Next(s, round).log) && s.log <= Next(s, round).log
  {
    match round
    case Outside(op) => ApplyKeeps(s, op);
    case Wait(events, behave) =>
      if Reportable(s, events) {
        BatchKeeps(s, events, behave);
        CallsAt(s.handlers, events);
      }
    case Interrupted =>
  }

  /** In every run, even one that closes registered descriptors: each dispatch finds
      its handler alive, everything registered has a handler and is open, and the
      event buffer can take everything registered. */
  lemma {:induction false} EveryDispatchIsLive(s: State, rounds: seq<Round>)
    requires Inv(s) && !s.processing && NothingWild(s.log)
    ensures Inv(Run(s, rounds)) && !Run(s, rounds).processing && NothingWild(Run(s, rounds).log)
    decreases |rounds|
  {
    hide Inv;
    if rounds != [] {
      NextKeeps(s, rounds[0]);
      EveryDispatchIsLive(Next(s, rounds[0]), rounds[1..]);
    }
  }

  // ------------------------------------------------- removed and gone for good

  /** An element that has left the map. */
  ghost predicate Dead(s: State, node: nat) {
    node < s.nextNode && forall fd :: fd in s.handlers ==> s.handlers[fd].node != node
  }

  ghost predicate NeverCalled(log: seq<Dispatch>, start: nat, node: nat) {
    forall k :: start <= k < |log| ==> log[k].node != node
  }

  /** An element that epoll cannot report. */
  ghost predicate Unwatched(s: State, node: nat) {
    node < s.nextNode && forall fd :: fd in s.interest ==> s.interest[fd] != node
  }

  lemma DeadIsUnwatched(s: State, node: nat)
    requires Inv(s) && Dead(s, node)
    ensures Unwatched(s, node)
  {}

  lemma {:induction false} RunOpsUnwatched(s: State, ops: seq<Op>, node: nat)
    requires Unwatched(s, node)
    ensures Unwatched(RunOps(s, ops), node)
    decreases |ops|
  {
    if ops != [] {
      RunOpsUnwatched(Apply(s, ops[0]).0, ops[1..], node);
    }
  }

  lemma {:induction false} DispatchUnwatched(s: State, events: seq<Event>, behave: nat -> seq<Op>, node: nat)
    requires Unwatched(s, node)
    ensures Unwatched(DispatchAll(s, events, behave), node)
    decreases |events|
  {
    if events != [] {
      var called := s.(log := s.log + [Follow(s, events[0])]);
      RunOpsUnwatched(called, behave(events[0].node), node);
      DispatchUnwatched(RunOps(called, behave(events[0].node)), events[1..], behave, node);
    }
  }

  lemma {:induction false} PruneUnwatched(s: State, k: nat, node: nat)
    requires Unwatched(s, node)
    ensures Unwatched(PruneFrom(s, k).0, node)
    decreases |s.removed| - k
  {
    if k < |s.removed| && EpollDel(s, s.removed[k]).1 != EBADF {
      PruneUnwatched(Erased(s, s.removed[k]), k + 1, node);
    }
  }

  lemma BatchUnwatched(s: State, events: seq<Event>, behave: nat -> seq<Op>, node: nat)
    requires Inv(s) && Reportable(s, events) && Unwatched(s, node)
    ensures var t := Batch(s, events, behave).0;
            Unwatched(t, node) && s.log <= t.log && NeverCalled(t.log, |s.log|, node)
  {
    DispatchUnwatched(s.(processing := true), events, behave, node);
    PruneUnwatched(Dispatched(s, events, behave), 0, node);
    BatchKeeps(s, events, behave);
    CallsAt(s.handlers, events);
    hide Inv, DispatchAll, PruneFrom, CallsOf;
  }

  lemma NextUnwatched(s: State, round: Round, node: nat)
    requires Inv(s) && Unwatched(s, node)
    ensures Unwatched(Next(s, round), node)
    ensures s.log <= Next(s, round).log && NeverCalled(Next(s, round).log, |s.log|, node)
  {
    hide Inv;
    match round
    case Outside(op) =>
    case Wait(events, behave) =>
      if Reportable(s, events) {
        BatchUnwatched(s, events, behave, node);
        hide Batch;
      }
    case Interrupted =>
  }

  /** What epoll cannot report is never called again, whatever happens: a later
      registration of its descriptor is a new element. */
  lemma {:induction false} UnwatchedIsNeverCalled(s: State, rounds: seq<Round>, node: nat)
    requires Inv(s) && !s.processing && NothingWild(s.log) && Unwatched(s, node)
    ensures s.log <= Run(s, rounds).log && NeverCalled(Run(s, rounds).log, |s.log|, node)
    decreases |rounds|
  {
    if rounds != [] {
      var t := Next(s, rounds[0]);
      NextKeeps(s, rounds[0]);
      NextUnwatched(s, rounds[0], node);
      hide Inv, Next, Unwatched;
      UnwatchedIsNeverCalled(t, rounds[1..], node);
      var u := Run(t, rounds[1..]);
      forall k | |s.log| <= k < |u.log| ensures u.log[k].node != node {
        assert k < |t.log| ==> u.log[k] == t.log[k];
      }
    }
  }

  /** Over every run: an element that has left the map is never called again. */
  lemma DeadIsNeverCalled(s: State, rounds: seq<Round>, node: nat)
    requires Inv(s) && !s.processing && NothingWild(s.log) && Dead(s, node)
    ensures s.log <= Run(s, rounds).log && NeverCalled(Run(s, rounds).log, |s.log|, node)
  {
    DeadIsUnwatched(s, node);
    UnwatchedIsNeverCalled(s, rounds, node);
  }

  // ------------------------------------------------------- exact agreement

  /** Map, kernel and counter match. */
  ghost predicate Agree(s: State) {
    s.handlers.Keys == s.interest.Keys && s.sizeEvents == |s.interest|
  }

  /** What was careless once stays so. */
  lemma {:induction false} RunOpsCareless(s: State, ops: seq<Op>)
    ensures s.careless ==> RunOps(s, ops).careless
    decreases |ops|
  {
    if ops != [] {
      RunOpsCareless(Apply(s, ops[0]).0, ops[1..]);
    }
  }

  lemma {:induction false} DispatchCareless(s: State, events: seq<Event>, behave: nat -> seq<Op>)
    ensures s.careless ==> DispatchAll(s, events, behave).careless
    decreases |events|
  {
    if events != [] {
      var called := s.(log := s.log + [Follow(s, events[0])]);
      RunOpsCareless(called, behave(events[0].node));
      DispatchCareless(RunOps(called, behave(events[0].node)), events[1..], behave);
    }
  }

  lemma {:induction false} PruneCareless(s: State, k: nat)
    ensures PruneFrom(s, k).0.careless == s.careless
    decreases |s.removed| - k
  {
    if k < |s.removed| && EpollDel(s, s.removed[k]).1 != EBADF {
      PruneCareless(Erased(s, s.removed[k]), k + 1);
    }
  }

  lemma NextCareless(s: State, round: Round)
    ensures s.careless ==> Next(s, round).careless
  {
    if round.Wait? {
      DispatchCareless(s.(processing := true), round.events, round.behave);
      PruneCareless(Dispatched(s, round.events, round.behave), 0);
    }
  }

  lemma {:induction false} RunCareless(s: State, rounds: seq<Round>)
    ensures s.careless ==> Run(s, rounds).careless
    decreases |rounds|
  {
    if rounds != [] {
      NextCareless(s, rounds[0]);
      RunCareless(Next(s, rounds[0]), rounds[1..]);
    }
  }

  ghost predicate RemovedKnown(s: State) {
    forall k :: 0 <= k < |s.removed| ==> s.removed[k] in s.handlers
  }

  lemma ApplyAgrees(s: State, op: Op)
    requires Inv(s) && Agree(s) && !Apply(s, op).0.careless
    ensures Agree(Apply(s, op).0)
    ensures s.processing && RemovedKnown(s) ==> RemovedKnown(Apply(s, op).0)
    ensures !s.processing ==> Apply(s, op).0.removed == s.removed
    ensures op.RemoveHandler? ==> !Apply(s, op).1
  {
    MapSizes(s.interest, op.fd, s.nextNode);
    assert op.fd !in s.interest ==> s.interest - {op.fd} == s.interest;
  }

  lemma {:induction false} RunOpsAgrees(s: State, ops: seq<Op>)
    requires Inv(s) && Agree(s) && s.processing && RemovedKnown(s) && !RunOps(s, ops).careless
    ensures Agree(RunOps(s, ops)) && RemovedKnown(RunOps(s, ops))
    decreases |ops|
  {
    if ops != [] {
      RunOpsCareless(Apply(s, ops[0]).0, ops[1..]);
      ApplyKeeps(s, ops[0]);
      ApplyAgrees(s, ops[0]);
      hide Inv, Agree, RemovedKnown;
      RunOpsAgrees(Apply(s, ops[0]).0, ops[1..]);
    }
  }

  lemma {:induction false} DispatchAgrees(s: State, events: seq<Event>, behave: nat -> seq<Op>)
    requires Inv(s) && Agree(s) && s.processing && RemovedKnown(s)
    requires !DispatchAll(s, events, behave).careless
    ensures Agree(DispatchAll(s, events, behave)) && RemovedKnown(DispatchAll(s, events, behave))
    decreases |events|
  {
    if events != [] {
      var called := s.(log := s.log + [Follow(s, events[0])]);
      var t := RunOps(called, behave(events[0].node));
      DispatchCareless(t, events[1..], behave);
      RunOpsKeeps(called, behave(events[0].node));
      RunOpsAgrees(called, behave(events[0].node));
      RunOpsStaysInBatch(called, behave(events[0].node));
      hide Inv, Agree, RemovedKnown;
      DispatchAgrees(t, events[1..], behave);
    }
  }

  /** Pruning throws exactly when a descriptor whose handler was removed in the batch
      is no longer open. A descriptor removed twice is no reason. */
  lemma {:induction false} PruneThrowsIffClosed(s: State, k: nat)
    ensures PruneFrom(s, k).1 <==> exists j :: k <= j < |s.removed| && s.removed[j] !in s.open
    decreases |s.removed| - k
  {
    if k < |s.removed| && s.removed[k] in s.open {
      PruneThrowsIffClosed(Erased(s, s.removed[k]), k + 1);
    }
  }

  lemma EraseAgrees(s: State, fd: Fd)
    requires Agree(s) && fd in s.open
    ensures var t := Erased(s, fd);
            Agree(t) && t.open == s.open && t.removed == s.removed && t.handlers.Keys == s.handlers.Keys - {fd}
  {
    MapSizes(s.interest, fd, 0);
    assert (s.handlers - {fd}).Keys == s.handlers.Keys - {fd};
    assert (s.interest - {fd}).Keys == s.interest.Keys - {fd};
    assert fd !in s.interest ==> s.interest - {fd} == s.interest;
  }

  function FdsFrom(fds: seq<Fd>, k: nat): set<Fd>
    decreases |fds| - k
  {
    if k >= |fds| then {} else {fds[k]} + FdsFrom(fds, k + 1)
  }

  lemma {:induction false} PruneAgrees(s: State, k: nat)
    requires Agree(s) && k <= |s.removed| && forall j :: k <= j < |s.removed| ==> s.removed[j] in s.open
    ensures var (t, threw) := PruneFrom(s, k);
            !threw && Agree(t) && t.removed == [] && t.handlers.Keys == s.handlers.Keys - FdsFrom(s.removed, k)
    decreases |s.removed| - k
  {
    if k < |s.removed| {
      var fd := s.removed[k];
      EraseAgrees(s, fd);
      assert PruneFrom(s, k) == PruneFrom(Erased(s, fd), k + 1);
      hide Agree, Erased;
      PruneAgrees(Erased(s, fd), k + 1);
    }
  }

  lemma RegisteredIsOpen(s: State, fd: Fd)
    requires Inv(s) && Agree(s) && fd in s.handlers
    ensures fd in s.open
  {
    assert fd in s.interest.Keys;
  }

  /** What a careful batch leaves to be pruned is open and has its handler. */
  lemma CarefulLeavesOpen(s: State, events: seq<Event>, behave: nat -> seq<Op>)
    requires Inv(s) && Agree(s) && s.removed == [] && !Batch(s, events, behave).0.careless
    ensures var d := Dispatched(s, events, behave);
            Agree(d) && forall j :: 0 <= j < |d.removed| ==> d.removed[j] in d.open && d.removed[j] in d.handlers
  {
    var begun := s.(processing := true);
    assert Inv(begun) && Agree(begun) && RemovedKnown(begun);
    PruneCareless(Dispatched(s, events, behave), 0);
    DispatchKeeps(begun, events, behave);
    DispatchAgrees(begun, events, behave);
    var d := Dispatched(s, events, behave);
    SameRegistrations(DispatchAll(begun, events, behave), d);
    forall j | 0 <= j < |d.removed| ensures d.removed[j] in d.open && d.removed[j] in d.handlers {
      assert d.removed[j] in d.handlers;
      RegisteredIsOpen(d, d.removed[j]);
    }
  }

  /** One batch whose callbacks close no descriptor that has a handler: pruning does
      not throw, afterwards map, interest set and counter match exactly, nothing is
      left to prune, and exactly the descriptors removed during the batch, once or
      several times, are gone. */
  lemma BatchAgrees(s: State, events: seq<Event>, behave: nat -> seq<Op>)
    requires Inv(s) && Agree(s) && !s.processing && s.removed == [] && Reportable(s, events)
    requires !Batch(s, events, behave).0.careless
    ensures var (t, threw) := Batch(s, events, behave);
            var d := Dispatched(s, events, behave);
            && !threw && Agree(t) && t.removed == []
            && t.handlers.Keys == d.handlers.Keys - FdsFrom(d.removed, 0)
  {
    var d := Dispatched(s, events, behave);
    CarefulLeavesOpen(s, events, behave);
    hide Inv;
    PruneAgrees(d, 0);
  }

  /** The counter against the interest set: they match, and the map with them, as long
      as no descriptor has been closed while it had a handler; from then on the counter
      is too large. */
  ghost predicate Tally(s: State) {
    && (s.careless ==> |s.interest| < s.sizeEvents)
    && (!s.careless ==> Agree(s))
  }

  lemma ApplyTallies(s: State, op: Op)
    requires Inv(s) && Tally(s)
    ensures Tally(Apply(s, op).0)
  {
    MapSizes(s.interest, op.fd, s.nextNode);
    assert op.fd !in s.interest ==> s.interest - {op.fd} == s.interest;
    assert op.fd in s.handlers ==> op.fd in s.handlers.Keys;
    if !s.careless && op.fd in s.handlers {
      RegisteredIsOpen(s, op.fd);
    }
  }

  lemma {:induction false} RunOpsTallies(s: State, ops: seq<Op>)
    requires Inv(s) && Tally(s)
    ensures Tally(RunOps(s, ops))
    decreases |ops|
  {
    hide Inv, Tally;
    if ops != [] {
      ApplyKeeps(s, ops[0]);
      ApplyTallies(s, ops[0]);
      RunOpsTallies(Apply(s, ops[0]).0, ops[1..]);
    }
  }

  lemma SameTally(s: State, t: State)
    requires Tally(s) && t.handlers == s.handlers && t.interest == s.interest
    requires t.sizeEvents == s.sizeEvents && t.careless == s.careless
    ensures Tally(t)
  {}

  lemma {:induction false} DispatchTallies(s: State, events: seq<Event>, behave: nat -> seq<Op>)
    requires Inv(s) && Tally(s)
    ensures Tally(DispatchAll(s, events, behave))
    decreases |events|
  {
    hide Inv, Tally;
    if events != [] {
      var called := s.(log := s.log + [Follow(s, events[0])]);
      SameRegistrations(s, called);
      SameTally(s, called);
      RunOpsKeeps(called, behave(events[0].node));
      RunOpsTallies(called, behave(events[0].node));
      DispatchTallies(RunOps(called, behave(events[0].node)), events[1..], behave);
    }
  }

  lemma EraseTallies(s: State, fd: Fd)
    requires Tally(s) && fd in s.open
    ensures Tally(Erased(s, fd))
  {
    MapSizes(s.interest, fd, 0);
    if !s.careless {
      EraseAgrees(s, fd);
    }
  }

  lemma {:induction false} PruneTallies(s: State, k: nat)
    requires Tally(s)
    ensures Tally(PruneFrom(s, k).0)
    decreases |s.removed| - k
  {
    if k < |s.removed| && s.removed[k] in s.open {
      EraseTallies(s, s.removed[k]);
      hide Tally;
      PruneTallies(Erased(s, s.removed[k]), k + 1);
    }
  }

  lemma NextTallies(s: State, round: Round)
    requires Inv(s) && Tally(s)
    ensures Inv(Next(s, round)) && Tally(Next(s, round))
  {
    match round
    case Outside(op) =>
      ApplyKeeps(s, op);
      ApplyTallies(s, op);
    case Wait(events, behave) =>
      if Reportable(s, events) {
        var begun, d := s.(processing := true), Dispatched(s, events, behave);
        BatchKeeps(s, events, behave);
        SameRegistrations(s, begun);
        SameTally(s, begun);
        DispatchTallies(begun, events, behave);
        SameTally(DispatchAll(begun, events, behave), d);
        hide Inv, Tally, DispatchAll;
        PruneTallies(d, 0);
      }
    case Interrupted =>
  }

  lemma {:induction false} RunTallies(s: State, rounds: seq<Round>)
    requires Inv(s) && Tally(s)
    ensures Tally(Run(s, rounds))
    decreases |rounds|
  {
    hide Inv, Tally, Next;
    if rounds != [] {
      NextTallies(s, rounds[0]);
      RunTallies(Next(s, rounds[0]), rounds[1..]);
    }
  }

  /** Over every run: the handler map, the kernel's interest set and the event counter
      match afterwards if and only if no descriptor was ever closed while it had a
      handler. Nothing that is done later repairs it. */
  lemma EveryRunAgreesIff(s: State, rounds: seq<Round>)
    requires Inv(s) && Agree(s) && !s.careless
    ensures Agree(Run(s, rounds)) <==> !Run(s, rounds).careless
  {
    hide Run, Inv;
    RunTallies(s, rounds);
  }

  /** A run that is careful in this sense also leaves nothing waiting to be pruned. */
  lemma {:induction false} EveryCarefulRunSettles(s: State, rounds: seq<Round>)
    requires Inv(s) && Agree(s) && !s.processing && s.removed == [] && NothingWild(s.log)
    requires !Run(s, rounds).careless
    ensures Agree(Run(s, rounds)) && Run(s, rounds).removed == []
    decreases |rounds|
  {
    if rounds != [] {
      RunCareless(Next(s, rounds[0]), rounds[1..]);
      NextKeeps(s, rounds[0]);
      match rounds[0] {
        case Outside(op) => ApplyAgrees(s, op);
        case Wait(events, behave) => if Reportable(s, events) { BatchAgrees(s, events, behave); }
        case Interrupted =>
      }
      hide Inv, Agree;
      EveryCarefulRunSettles(Next(s, rounds[0]), rounds[1..]);
    }
  }

  /** Carelessness is easy: a handler that removes and closes its own descriptor, in
      that order, makes the loop throw, because the removal is put off past the
      close and epoll then answers EBADF, not ENOENT. */
  lemma RemoveThenCloseThrows(s: State, fd: Fd, behave: nat -> seq<Op>)
    requires Inv(s) && !s.processing && s.removed == [] && fd in s.interest
    requires behave(s.interest[fd]) == [RemoveHandler(fd), Close(fd)]
    ensures var events := [Event(fd, s.interest[fd])];
            && Reportable(s, events)
            && Batch(s, events, behave) ==
                 (s.(log := s.log + [Follow(s, events[0])], removed := [fd], open := s.open - {fd},
                     interest := s.interest - {fd}, careless := true), true)
  {
    var events := [Event(fd, s.interest[fd])];
    assert fd in s.interest.Keys && |s.interest.Keys| == |s.interest|;
    var called := s.(processing := true, log := s.log + [Follow(s, events[0])]);
    var a := Apply(called, RemoveHandler(fd)).0;
    var b := Apply(a, Close(fd)).0;
    assert [RemoveHandler(fd), Close(fd)][1..] == [Close(fd)];
    assert RunOps(a, [Close(fd)]) == RunOps(b, []);
    assert events[1..] == [] && DispatchAll(b, [], behave) == b;
    assert DispatchAll(s.(processing := true), events, behave) == DispatchAll(b, events[1..], behave);
    assert s.removed + [fd] == [fd];
    assert b.removed == [fd] && b.careless;
  }
}
