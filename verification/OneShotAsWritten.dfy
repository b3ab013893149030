/** Where process_timeouts departs from its intent: its iterator has already
    moved past the entry that ends the loop, so that entry is erased unrun. */
module OneShotAsWritten {
  import opened MonotonicTimer
  import opened OneShotTimeouts
  import opened OneShotProofs
  import opened OneShotPlan

  lemma SetFateCommutes(ledger: seq<Record>, a: nat, f: Fate, b: nat, g: Fate)
    requires a != b
    ensures SetFate(SetFate(ledger, a, f), b, g) == SetFate(SetFate(ledger, b, g), a, f)
  {}

  lemma {:induction false} MergeCarriesDrop(s: State, t: State, x: nat)
    requires t.pending == s.pending && t.log == s.log && t.ledger == SetFate(s.ledger, x, Dropped)
    requires forall j :: 0 <= j < |s.pending| ==> s.pending[j].id != x
    ensures Merge(t).ledger == SetFate(Merge(s).ledger, x, Dropped)
    decreases |s.pending|
  {
    if s.pending != [] {
      SetFateCommutes(s.ledger, x, Dropped, s.pending[0].id, Queued);
      MergeCarriesDrop(MergeOne(s), MergeOne(t), x);
    }
  }

  lemma {:induction false} MergeKeepsFate(s: State, x: nat)
    requires x < |s.ledger| && forall j :: 0 <= j < |s.pending| ==> s.pending[j].id != x
    ensures |Merge(s).ledger| == |s.ledger| && Merge(s).ledger[x] == s.ledger[x]
    decreases |s.pending|
  {
    if s.pending != [] {
      MergeKeepsFate(MergeOne(s), x);
    }
  }

  lemma FinishAgrees(t: State, clock: Clock)
    ensures Finish(t, |t.list|, clock, AsWritten) == Finish(t, |t.list|, clock, Intended)
  {}

  lemma FinishDiffers(t: State, i: nat, clock: Clock)
    requires Core(t, i) && i < |t.list| && !t.list[i].remove
    ensures var x, written, intended := t.list[i].id, Finish(t, i, clock, AsWritten), Finish(t, i, clock, Intended);
            && x < |intended.ledger| && intended.ledger[x].fate == Queued
            && written.ledger == SetFate(intended.ledger, x, Dropped)
            && written.log == intended.log
  {
    var x := t.list[i].id;
    var a, b := Prune(ErasePassed(t, i, Intended)), Prune(ErasePassed(t, i, AsWritten));
    assert Registered(t, t.list[i]) && t.ledger[x].fate == Queued;
    assert forall j :: 0 <= j < |t.pending| ==> t.pending[j].id != x;
    hide Core, Merge, Unmarked;
    MergeCarriesDrop(a, b, x);
    MergeKeepsFate(a, x);
    MergeLog(a);
    MergeLog(b);
  }

  /** The two variants run the same callbacks and agree on every handle except
      the entry that stopped the loop: queued as intended, dropped as written.
      When the loop reached the end they agree altogether. */
  lemma VariantsDifferInOneHandle(s: State, now: int, behave: nat -> seq<Op>, clock: Clock)
    requires Inv(s)
    ensures var (t, i) := Traversed(s, now, behave);
            var written, intended := Pass(s, now, behave, clock, AsWritten), Pass(s, now, behave, clock, Intended);
            if i == |t.list| then written == intended
            else
              var x := t.list[i].id;
              && x < |intended.ledger| && intended.ledger[x].fate == Queued
              && written.ledger == SetFate(intended.ledger, x, Dropped)
              && written.log == intended.log
  {
    TraversedOutcome(s, now, behave);
    var (t, i) := Traversed(s, now, behave);
    hide Core, Inv, Traversed;
    if i < |t.list| {
      FinishDiffers(t, i, clock);
    } else {
      FinishAgrees(t, clock);
    }
  }

  ghost predicate DropsSomething(s: State, t: State) {
    exists id ::
      0 <= id < |t.ledger| && t.ledger[id].fate == Dropped && (id < |s.ledger| ==> s.ledger[id].fate != Dropped)
  }

  /** As written, a pass loses a handle exactly when the intended pass would leave
      one of the entries it found in the queue; it then loses exactly one. */
  lemma DropsIffSomethingSurvives(s: State, now: int, behave: nat -> seq<Op>, clock: Clock)
    requires Inv(s)
    ensures |s.ledger| <= |Pass(s, now, behave, clock, Intended).ledger|
    ensures forall k :: 0 <= k < |s.list| ==> Registered(s, s.list[k])
    ensures DropsSomething(s, Pass(s, now, behave, clock, AsWritten)) <==>
            exists k :: 0 <= k < |s.list| && Pass(s, now, behave, clock, Intended).ledger[s.list[k].id].fate == Queued
    ensures DropsSomething(s, Pass(s, now, behave, clock, AsWritten)) <==>
            Pass(s, now, behave, clock, AsWritten) != Pass(s, now, behave, clock, Intended)
  {
    var (t, i) := Traversed(s, now, behave);
    var written, intended := Pass(s, now, behave, clock, AsWritten), Pass(s, now, behave, clock, Intended);
    VariantsDifferInOneHandle(s, now, behave, clock);
    PassExtends(s, now, behave, clock, Intended);
    TraversedOutcome(s, now, behave);
    QueueRegistered(s, 0);
    if i < |t.list| {
      var x := t.list[i].id;
      assert t.list[i].(remove := true) == s.list[i].(remove := true);
      assert s.ledger[x].fate == Queued;
      assert written.ledger[x].fate == Dropped;
    } else {
      forall k | 0 <= k < |s.list| ensures intended.ledger[s.list[k].id].fate in {Ran, Removed} {
        DueIsSettled(s, now, behave, clock, Intended, k);
      }
    }
  }

  // ------------------------------------------------ told before the pass begins

  /** As written, a pass loses a handle exactly when some timeout is not due and no
      callback that the plan runs cancels it. */
  lemma DropsIffSomeLeftOver(s: State, now: int, behave: nat -> seq<Op>, clock: Clock)
    requires Inv(s)
    ensures DropsSomething(s, Pass(s, now, behave, clock, AsWritten)) <==> LeavesSome(s.list, now, behave)
  {
    VariantsDifferInOneHandle(s, now, behave, clock);
    DropsIffSomethingSurvives(s, now, behave, clock);
    TraversedFollowsPlan(s, now, behave);
    var (t, i) := Traversed(s, now, behave);
    assert i < |t.list| ==> Pass(s, now, behave, clock, AsWritten).ledger[t.list[i].id].fate == Dropped;
  }

  // --------------------------------------------------------------- whole runs

  ghost predicate NothingDropped(s: State) {
    forall id :: 0 <= id < |s.ledger| ==> s.ledger[id].fate != Dropped
  }

  /** Whenever a pass of the run begins, every timeout in the queue is due or will be
      cancelled by a callback of that pass. */
  ghost predicate Lossless(s: State, events: seq<Event>)
    decreases |events|
  {
    events == [] ||
    (LosesNothing(s, events[0]) && Lossless(Step(s, events[0], Intended), events[1..]))
  }

  ghost predicate LosesNothing(s: State, event: Event) {
    event.Fire? && Readable(s.timer, event.now) ==> !LeavesSome(s.list, event.now, event.behave)
  }

  lemma StepLoses(s: State, event: Event)
    requires Inv(s) && NothingDropped(s)
    ensures NothingDropped(Step(s, event, AsWritten)) <==> LosesNothing(s, event)
    ensures LosesNothing(s, event) <==> Step(s, event, AsWritten) == Step(s, event, Intended)
  {
    StepExtends(s, event, Intended);
    match event
    case Call(op) =>
    case Fire(now, behave, clock) =>
      DropsIffSomethingSurvives(s, now, behave, clock);
      DropsIffSomeLeftOver(s, now, behave, clock);
  }

  /** Over whole runs the code as written keeps every handle accounted for (pending,
      queued, run or removed) if and only if no pass begins with a timeout it would
      leave over, and then it reaches the state that was intended. */
  lemma {:induction false} ConservesIffLossless(s: State, events: seq<Event>)
    requires Inv(s) && NothingDropped(s)
    ensures NothingDropped(Run(s, events, AsWritten)) <==> Lossless(s, events)
    ensures Lossless(s, events) ==> Run(s, events, AsWritten) == Run(s, events, Intended)
    decreases |events|
  {
    if events != [] {
      var t := Step(s, events[0], AsWritten);
      StepKeeps(s, events[0], AsWritten);
      StepLoses(s, events[0]);
      if NothingDropped(t) {
        hide Inv;
        ConservesIffLossless(t, events[1..]);
      } else {
        EveryRunExtendsHistory(t, events[1..], AsWritten);
      }
    }
  }

  lemma LosesTheSecond(s: State, now: int, behave: nat -> seq<Op>, clock: Clock)
    requires |s.list| == |s.ledger| == 2 && s.pending == [] && behave(s.list[0].id) == []
    requires s.list[0].id == 0 && s.list[0].deadline <= now && !s.list[0].remove
    requires s.list[1].id == 1 && s.list[1].deadline > now && !s.list[1].remove
    ensures var t := Pass(s, now, behave, clock, AsWritten); |t.ledger| == 2 && t.ledger[1].fate == Dropped
  {
    var c := Begin(s.(processing := true, timer := Idle), 0, now);
    assert Traverse(c, 1, now, behave) == (c, 1);
    assert Traversed(s, now, behave) == (c, 1);
  }

  /** Two timeouts, one due and one not: the first wake-up loses the second. */
  lemma LosesATimeout(clock: Clock, callback: nat)
    ensures var now := Expiry(SetOneshot(0, clock));
            var events := [Call(Add(0, callback, clock)), Call(Add(now + 1, callback, clock)),
                           Fire(now, _ => [], clock)];
            && |Run(INITIAL, events, AsWritten).ledger| == 2
            && Run(INITIAL, events, AsWritten).ledger[1].fate == Dropped
  {
    OneshotNeverEarlyNeverLost(0, clock);
    var now := Expiry(SetOneshot(0, clock));
    var behave: nat -> seq<Op> := _ => [];
    var a := Apply(INITIAL, Add(0, callback, clock));
    var b := Apply(a, Add(now + 1, callback, clock));
    assert b.list == [Entry(0, 0, callback, false), Entry(1, now + 1, callback, false)];
    LosesTheSecond(b, now, behave, clock);
    var events := [Call(Add(0, callback, clock)), Call(Add(now + 1, callback, clock)), Fire(now, behave, clock)];
    hide Pass;
    assert events[1..][1..] == [Fire(now, behave, clock)];
    assert Run(b, [Fire(now, behave, clock)], AsWritten) == Step(b, Fire(now, behave, clock), AsWritten);
  }
}
