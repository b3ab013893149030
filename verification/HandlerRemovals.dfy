/** What becomes of a handler that is removed while a batch is being dispatched. */
module HandlerRemovals {
  import opened Handlers
  import opened HandlerProofs

  /** Pruning from position k gets as far as an occurrence of fd: every descriptor up
      to and including it is open. */
  ghost predicate Reaches(s: State, k: nat, fd: Fd) {
    exists j :: k <= j < |s.removed| && s.removed[j] == fd && AllOpen(s, k, j)
  }

  ghost predicate AllOpen(s: State, k: nat, j: int) {
    forall i :: k <= i <= j && i < |s.removed| ==> s.removed[i] in s.open
  }

  lemma ReachesStep(s: State, k: nat, fd: Fd)
    requires k < |s.removed|
    ensures Reaches(s, k, fd)
            <==> s.removed[k] in s.open && (s.removed[k] == fd || Reaches(Erased(s, s.removed[k]), k + 1, fd))
  {
    var t := Erased(s, s.removed[k]);
    if s.removed[k] in s.open {
      if s.removed[k] == fd {
        assert AllOpen(s, k, k);
      }
      if j :| k + 1 <= j < |t.removed| && t.removed[j] == fd && AllOpen(t, k + 1, j) {
        assert AllOpen(s, k, j);
      }
      if j :| k <= j < |s.removed| && s.removed[j] == fd && AllOpen(s, k, j) && s.removed[k] != fd {
        assert AllOpen(t, k + 1, j);
      }
    }
  }

  /** Pruning erases exactly the handlers it reaches before it throws. */
  lemma {:induction false} PruneErasesReached(s: State, k: nat, fd: Fd)
    requires fd in s.handlers
    ensures fd !in PruneFrom(s, k).0.handlers <==> Reaches(s, k, fd)
    ensures !Reaches(s, k, fd) && fd in s.interest ==> fd in PruneFrom(s, k).0.interest
    decreases |s.removed| - k
  {
    if k < |s.removed| {
      ReachesStep(s, k, fd);
      hide Reaches;
      if s.removed[k] in s.open {
        var t := Erased(s, s.removed[k]);
        if s.removed[k] == fd {
          PruneAddsNothing(t, k + 1);
        } else {
          PruneErasesReached(t, k + 1, fd);
        }
      }
    }
  }

  lemma {:induction false} PruneAddsNothing(s: State, k: nat)
    ensures PruneFrom(s, k).0.handlers.Keys <= s.handlers.Keys
    decreases |s.removed| - k
  {
    if k < |s.removed| && EpollDel(s, s.removed[k]).1 != EBADF {
      PruneAddsNothing(Erased(s, s.removed[k]), k + 1);
    }
  }

  /** After a batch an element that was in the map is gone exactly when its descriptor
      waits to be pruned and no descriptor up to its first occurrence is closed. */
  lemma RemovedIsDeadIff(s: State, events: seq<Event>, behave: nat -> seq<Op>, fd: Fd)
    requires Inv(s) && Reportable(s, events) && fd in Dispatched(s, events, behave).handlers
    ensures var d := Dispatched(s, events, behave);
            Dead(Batch(s, events, behave).0, d.handlers[fd].node) <==> Reaches(d, 0, fd)
  {
    DispatchedKeeps(s, events, behave);
    var d := Dispatched(s, events, behave);
    PruneKeeps(d, 0);
    PruneErasesReached(d, 0, fd);
    hide Reaches, Dispatched, PruneFrom;
    var t := PruneFrom(d, 0).0;
    if fd !in t.handlers {
      forall x | x in t.handlers ensures t.handlers[x].node != d.handlers[fd].node {
        assert t.handlers[x] == d.handlers[x];
      }
    }
  }

  /** Over every run that goes on from there: it is never called again. */
  lemma ReachedIsNeverCalled(s: State, events: seq<Event>, behave: nat -> seq<Op>, fd: Fd, rounds: seq<Round>)
    requires Inv(s) && !s.processing && NothingWild(s.log) && Reportable(s, events)
    requires fd in Dispatched(s, events, behave).handlers && Reaches(Dispatched(s, events, behave), 0, fd)
    ensures var t := Batch(s, events, behave).0;
            NeverCalled(Run(t, rounds).log, |t.log|, Dispatched(s, events, behave).handlers[fd].node)
  {
    RemovedIsDeadIff(s, events, behave, fd);
    NextKeeps(s, Wait(events, behave));
    hide Inv, Dead, NeverCalled, Reaches;
    DeadIsNeverCalled(Batch(s, events, behave).0, rounds, Dispatched(s, events, behave).handlers[fd].node);
  }

  /** In any state between batches: an element is never called again, in any run, if and
      only if epoll cannot report it. */
  lemma NeverCalledIffUnwatched(t: State, node: nat)
    requires Inv(t) && !t.processing && NothingWild(t.log) && node < t.nextNode
    ensures Unwatched(t, node) <==> forall rounds :: NeverCalled(Run(t, rounds).log, |t.log|, node)
  {
    if Unwatched(t, node) {
      forall rounds ensures NeverCalled(Run(t, rounds).log, |t.log|, node) {
        UnwatchedIsNeverCalled(t, rounds, node);
      }
    } else {
      var fd :| fd in t.interest && t.interest[fd] == node;
      StillCalled(t, fd, _ => []);
      assert !NeverCalled(Run(t, [Wait([Event(fd, node)], _ => [])]).log, |t.log|, node);
    }
  }

  /** After a batch an element that was in the map cannot be reported exactly when
      pruning reached it or the kernel had stopped watching its descriptor. */
  lemma UnwatchedIffReached(s: State, events: seq<Event>, behave: nat -> seq<Op>, fd: Fd)
    requires Inv(s) && Reportable(s, events) && fd in Dispatched(s, events, behave).handlers
    ensures var d := Dispatched(s, events, behave);
            Unwatched(Batch(s, events, behave).0, d.handlers[fd].node) <==> Reaches(d, 0, fd) || fd !in d.interest
  {
    DispatchedKeeps(s, events, behave);
    var d := Dispatched(s, events, behave);
    var node := d.handlers[fd].node;
    PruneKeeps(d, 0);
    PruneErasesReached(d, 0, fd);
    if Reaches(d, 0, fd) {
      RemovedIsDeadIff(s, events, behave, fd);
      DeadIsUnwatched(PruneFrom(d, 0).0, node);
    } else if fd !in d.interest {
      assert Unwatched(d, node);
      PruneUnwatched(d, 0, node);
    }
  }

  /** So over all runs that go on after a batch: a handler that was in the map is never
      called again if and only if pruning reached it or the kernel had stopped watching
      its descriptor. */
  lemma NeverCalledIffReached(s: State, events: seq<Event>, behave: nat -> seq<Op>, fd: Fd)
    requires Inv(s) && !s.processing && NothingWild(s.log) && Reportable(s, events)
    requires fd in Dispatched(s, events, behave).handlers
    ensures var t, d := Batch(s, events, behave).0, Dispatched(s, events, behave);
            Reaches(d, 0, fd) || fd !in d.interest
            <==> forall rounds :: NeverCalled(Run(t, rounds).log, |t.log|, d.handlers[fd].node)
  {
    UnwatchedIffReached(s, events, behave, fd);
    NextKeeps(s, Wait(events, behave));
    DispatchedKeeps(s, events, behave);
    PruneKeeps(Dispatched(s, events, behave), 0);
    hide Unwatched, NeverCalled, Reaches, Reportable, PruneFrom, Dispatched;
    NeverCalledIffUnwatched(Batch(s, events, behave).0, Dispatched(s, events, behave).handlers[fd].node);
  }

  /** A registered handler is called by a batch that reports it. */
  lemma StillCalled(t: State, fd: Fd, behave: nat -> seq<Op>)
    requires Inv(t) && fd in t.interest
    ensures fd in t.handlers
    ensures !NeverCalled(Run(t, [Wait([Event(fd, t.handlers[fd].node)], behave)]).log, |t.log|, t.handlers[fd].node)
  {
    var event := Event(fd, t.handlers[fd].node);
    assert fd in t.interest.Keys && |t.interest.Keys| == |t.interest|;
    BatchKeeps(t, [event], behave);
    CallsAt(t.handlers, [event]);
    hide Inv, Batch;
    assert [Wait([event], behave)][1..] == [];
    var u := Next(t, Wait([event], behave));
    assert Run(t, [Wait([event], behave)]) == Run(u, []) == u;
    assert u.log[|t.log|].node == event.node;
  }

  // ------------------------------------------------- requests made in the batch

  lemma {:induction false} RunOpsRecords(s: State, ops: seq<Op>, fd: Fd)
    requires s.processing && fd in s.handlers && RemoveHandler(fd) in ops
    ensures fd in RunOps(s, ops).removed
    decreases |ops|
  {
    var t := Apply(s, ops[0]).0;
    if ops[0] == RemoveHandler(fd) {
      assert t.removed[|s.removed|] == fd;
      RunOpsGrows(t, ops[1..]);
    } else {
      RunOpsRecords(t, ops[1..], fd);
    }
  }

  lemma {:induction false} DispatchRecords(s: State, events: seq<Event>, behave: nat -> seq<Op>, fd: Fd, k: nat)
    requires s.processing && fd in s.handlers && Live(s, events)
    requires k < |events| && RemoveHandler(fd) in behave(events[k].node)
    ensures fd in DispatchAll(s, events, behave).removed
    decreases |events|
  {
    var called := s.(log := s.log + [Follow(s, events[0])]);
    var t := RunOps(called, behave(events[0].node));
    RunOpsGrows(called, behave(events[0].node));
    assert Live(t, events[1..]);
    if k == 0 {
      RunOpsRecords(called, behave(events[0].node), fd);
      hide RunOps;
      DispatchFollowsLivePointers(t, events[1..], behave);
    } else {
      hide RunOps;
      DispatchRecords(t, events[1..], behave, fd, k - 1);
    }
  }

  /** In a careful batch everything waiting to be pruned is reached. */
  lemma CarefulReaches(s: State, events: seq<Event>, behave: nat -> seq<Op>, fd: Fd)
    requires Inv(s) && Agree(s) && s.removed == [] && Reportable(s, events) && !Batch(s, events, behave).0.careless
    requires fd in Dispatched(s, events, behave).removed
    ensures var d := Dispatched(s, events, behave); fd in d.handlers && Reaches(d, 0, fd)
  {
    var d := Dispatched(s, events, behave);
    CarefulLeavesOpen(s, events, behave);
    var j :| 0 <= j < |d.removed| && d.removed[j] == fd;
    assert AllOpen(d, 0, j);
  }

  /** A descriptor removed by a handler of a careful batch is not dispatched again in
      any later batch, however the run goes on; a new registration is a new element. */
  lemma RemovedIsNeverCalledAgain(s: State, events: seq<Event>, behave: nat -> seq<Op>, fd: Fd, k: nat,
                                  rounds: seq<Round>)
    requires Inv(s) && Agree(s) && !s.processing && s.removed == [] && NothingWild(s.log) && Reportable(s, events)
    requires fd in s.handlers && k < |events| && RemoveHandler(fd) in behave(events[k].node)
    requires !Batch(s, events, behave).0.careless
    ensures var t := Batch(s, events, behave).0;
            fd !in t.handlers && NeverCalled(Run(t, rounds).log, |t.log|, s.handlers[fd].node)
  {
    var begun := s.(processing := true);
    assert Live(begun, events);
    DispatchRecords(begun, events, behave, fd, k);
    CarefulReaches(s, events, behave, fd);
    DispatchedKeeps(s, events, behave);
    PruneErasesReached(Dispatched(s, events, behave), 0, fd);
    hide Inv, Agree, NeverCalled, Reaches, Reportable;
    ReachedIsNeverCalled(s, events, behave, fd, rounds);
  }

  // ----------------------------------------------------------- after a throw

  const BEFORE := State(map[5 := Handler(0, 1, 50), 6 := Handler(1, 1, 60)], false, [], 2,
                        map[5 := 0, 6 := 1], {5, 6}, 2, [], false)

  const AFTER := State(map[5 := Handler(0, 1, 50), 6 := Handler(1, 1, 60)], false, [5, 6], 2,
                       map[6 := 1], {6}, 2, [Called(5, 0, 50)], true)

  const SCRIPT: nat -> seq<Op> := node => if node == 0 then [RemoveHandler(5), Close(5), RemoveHandler(6)] else []

  /** Two handlers, the second of which is to be removed behind a descriptor that the
      first one closes: pruning throws, the second handler stays, and the next batch
      calls it although it was removed. */
  lemma RemovedIsCalledAgain()
    ensures Inv(BEFORE) && Agree(BEFORE) && Reportable(BEFORE, [Event(5, 0)])
    ensures Batch(BEFORE, [Event(5, 0)], SCRIPT) == (AFTER, true)
    ensures Reportable(AFTER, [Event(6, 1)]) && 6 in AFTER.removed
    ensures Batch(AFTER, [Event(6, 1)], SCRIPT).0.log == [Called(5, 0, 50), Called(6, 1, 60)]
  {
    BeforeIsInOrder();
    PruningThrows();
    BatchKeeps(BEFORE, [Event(5, 0)], SCRIPT);
    hide Inv, Batch;
    assert AFTER.interest[6] == 1;
    BatchKeeps(AFTER, [Event(6, 1)], SCRIPT);
    CallsAt(AFTER.handlers, [Event(6, 1)]);
    assert CallsOf(AFTER.handlers, [Event(6, 1)]) == [Called(6, 1, 60)];
  }

  lemma BeforeIsInOrder()
    ensures Inv(BEFORE) && Agree(BEFORE) && Reportable(BEFORE, [Event(5, 0)])
  {
    TwoRegistered();
  }

  lemma TwoRegistered()
    ensures |BEFORE.interest| == 2
  {
    MapSizes(map[], 5, 0);
    MapSizes(map[5 := 0], 6, 1);
    assert BEFORE.interest == map[5 := 0][6 := 1];
  }

  lemma PruningThrows()
    ensures Batch(BEFORE, [Event(5, 0)], SCRIPT) == (AFTER, true)
  {
    var called := BEFORE.(processing := true, log := [Called(5, 0, 50)]);
    OneEvent(BEFORE, Event(5, 0), SCRIPT);
    assert Follow(BEFORE, Event(5, 0)) == Called(5, 0, 50);
    assert BEFORE.log + [Called(5, 0, 50)] == [Called(5, 0, 50)];
    ThreeOps(called, RemoveHandler(5), Close(5), RemoveHandler(6));
    assert BEFORE.interest - {5} == AFTER.interest;
    assert BEFORE.open - {5} == AFTER.open;
    assert [] + [5] == [5] && [5] + [6] == [5, 6];
    assert Dispatched(BEFORE, [Event(5, 0)], SCRIPT) == AFTER;
    assert AFTER.removed[0] !in AFTER.open;
    assert PruneFrom(AFTER, 0) == (AFTER, true);
  }

  lemma ThreeOps(s: State, a: Op, b: Op, c: Op)
    ensures RunOps(s, [a, b, c]) == Apply(Apply(Apply(s, a).0, b).0, c).0
  {
    hide Apply;
    assert [a, b, c][1..] == [b, c] && [b, c][1..] == [c] && [c][1..] == [];
    var t := Apply(s, a).0;
    var u := Apply(t, b).0;
    assert RunOps(s, [a, b, c]) == RunOps(t, [b, c]) == RunOps(u, [c]) == RunOps(Apply(u, c).0, []);
  }

  lemma OneEvent(s: State, event: Event, behave: nat -> seq<Op>)
    ensures var called := s.(processing := true, log := s.log + [Follow(s, event)]);
            Dispatched(s, [event], behave) == RunOps(called, behave(event.node)).(processing := false)
  {
    var called := s.(processing := true, log := s.log + [Follow(s, event)]);
    assert [event][1..] == [];
    assert DispatchAll(s.(processing := true), [event], behave)
           == DispatchAll(RunOps(called, behave(event.node)), [], behave);
  }

  /** What such a throw leaves to be pruned outlives its cause. A handler removes and
      closes its descriptor, the loop throws; the handler is removed again, and the
      descriptor opened and registered anew. Then every batch erases the new handler,
      which nobody removed, as long as its descriptor stays open. */
  lemma StaleRemovalErases(s: State, fd: Fd, callback: nat, behave: nat -> seq<Op>, events: seq<Event>,
                           g: nat -> seq<Op>)
    requires Inv(s) && Agree(s) && !s.processing && s.removed == [] && fd in s.interest
    requires behave(s.interest[fd]) == [RemoveHandler(fd), Close(fd)]
    ensures var rounds := [Wait([Event(fd, s.interest[fd])], behave), Outside(RemoveHandler(fd)),
                           Outside(Open(fd)), Outside(AddHandler(fd, 1, callback))];
            var t := Run(s, rounds);
            && fd in t.interest && fd in t.handlers && t.handlers[fd] == Handler(s.nextNode, 1, callback)
            && (Reportable(t, events) && fd in Dispatched(t, events, g).open ==>
                  fd !in Batch(t, events, g).0.handlers)
  {
    RemoveThenCloseThrows(s, fd, behave);
    var wait := Wait([Event(fd, s.interest[fd])], behave);
    BatchKeeps(s, [Event(fd, s.interest[fd])], behave);
    var a := Next(s, wait);
    var b, c, d := Outside(RemoveHandler(fd)), Outside(Open(fd)), Outside(AddHandler(fd, 1, callback));
    var t := Next(Next(Next(a, b), c), d);
    NextKeepsInv(a, b);
    NextKeepsInv(Next(a, b), c);
    NextKeepsInv(Next(Next(a, b), c), d);
    hide Inv, Agree;
    FourRounds(s, wait, b, c, d);
    assert t.removed == [fd] && fd in t.handlers;
    if Reportable(t, events) {
      StaleBatchPrunes(t, fd, events, g);
    }
  }

  lemma NextKeepsInv(s: State, round: Round)
    requires Inv(s) && round.Outside?
    ensures Inv(Next(s, round))
  {
    ApplyKeeps(s, round.op);
  }

  lemma FourRounds(s: State, a: Round, b: Round, c: Round, d: Round)
    ensures Run(s, [a, b, c, d]) == Next(Next(Next(Next(s, a), b), c), d)
  {
    hide Next;
    var rounds := [a, b, c, d];
    assert rounds[1..] == [b, c, d] && [b, c, d][1..] == [c, d] && [c, d][1..] == [d] && [d][1..] == [];
    var s1 := Next(s, a);
    var s2 := Next(s1, b);
    var s3 := Next(s2, c);
    assert Run(s, rounds) == Run(s1, [b, c, d]) == Run(s2, [c, d]) == Run(s3, [d]) == Run(Next(s3, d), []);
  }

  lemma StaleBatchPrunes(s: State, fd: Fd, events: seq<Event>, behave: nat -> seq<Op>)
    requires Inv(s) && s.removed == [fd] && fd in s.handlers && Reportable(s, events)
    ensures fd in Dispatched(s, events, behave).open ==> fd !in Batch(s, events, behave).0.handlers
  {
    DispatchedKeeps(s, events, behave);
    var d := Dispatched(s, events, behave);
    hide Inv, Reportable, Dispatched;
    assert d.removed[0] == fd;
    assert fd in d.open ==> AllOpen(d, 0, 0);
    PruneErasesReached(d, 0, fd);
  }
}
