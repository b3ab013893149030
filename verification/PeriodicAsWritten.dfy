/** Which runs of the periodic timeouts as written are defined, and so do what the
    model does. */
module PeriodicAsWritten {
  import opened MonotonicTimer
  import opened PeriodicTimeouts
  import opened PeriodicProofs
  import opened PeriodicPlan
  import opened PeriodicEffects

  // ------------------------------------------------------ once undefined, always

  lemma {:induction false} RunOpsUndefined(s: State, ops: seq<Op>)
    ensures s.undefinedReturn ==> RunOps(s, ops).undefinedReturn
    ensures s.undefinedErase ==> RunOps(s, ops).undefinedErase
    decreases |ops|
  {
    if ops != [] {
      RunOpsUndefined(Apply(s, ops[0]), ops[1..]);
    }
  }

  lemma {:induction false} TraverseUndefined(s: State, i: nat, now: int, behave: nat -> seq<Op>)
    requires s.processing && i <= |s.list|
    ensures s.undefinedReturn ==> Traverse(s, i, now, behave).0.undefinedReturn
    ensures s.undefinedErase ==> Traverse(s, i, now, behave).0.undefinedErase
    decreases |s.list| - i
  {
    if i < |s.list| {
      if s.list[i].remove {
        TraverseUndefined(s, i + 1, now, behave);
      } else if s.list[i].deadline <= now {
        RunOpsUndefined(Begin(s, i, now), behave(s.list[i].id));
        TraverseUndefined(RunOps(Begin(s, i, now), behave(s.list[i].id)), i + 1, now, behave);
      }
    }
  }

  lemma {:induction false} MergeUndefined(s: State)
    ensures Merge(s).undefinedReturn == s.undefinedReturn && Merge(s).undefinedErase == s.undefinedErase
    ensures Merge(s).ledger == s.ledger
    decreases |s.pending|
  {
    if s.pending != [] {
      MergeUndefined(MergeOne(s));
    }
  }

  lemma PassUndefined(s: State, now: int, later: int, behave: nat -> seq<Op>, clock: Clock,
                      sort: seq<Entry> -> seq<Entry>)
    ensures var t, u := Pass(s, now, later, behave, clock, sort), Traversed(s, now, behave).0;
            t.undefinedReturn == u.undefinedReturn && t.undefinedErase == u.undefinedErase && t.ledger == u.ledger
  {
    MergeUndefined(Renew(Traversed(s, now, behave).0, later, sort));
  }

  // ------------------------------------------------------- the undefined return

  /** The undefined return comes with the first handle, and everything undefined comes
      with some handle. */
  ghost predicate Tainted(s: State) {
    && (s.undefinedReturn <==> s.ledger != [])
    && (s.undefinedErase ==> s.ledger != [])
  }

  lemma NoHandlesNoEntries(s: State)
    requires Inv(s) && s.ledger == []
    ensures s.list == [] && s.pending == []
  {
    assert forall k :: 0 <= k < |s.list| ==> s.list[k] in s.list;
  }

  lemma StepTainted(s: State, event: Event, sort: seq<Entry> -> seq<Entry>)
    requires Inv(s) && Tainted(s)
    ensures Tainted(Step(s, event, sort))
  {
    if s.ledger == [] {
      NoHandlesNoEntries(s);
    }
    hide Inv;
    if event.Fire? {
      PassUndefined(s, event.now, event.later, event.behave, event.clock, sort);
      TraverseUndefined(s.(processing := true, timer := Idle), 0, event.now, event.behave);
    }
  }

  lemma {:induction false} EveryRunIsTainted(s: State, events: seq<Event>, sort: seq<Entry> -> seq<Entry>)
    requires Inv(s) && IsSort(sort) && Tainted(s)
    ensures Tainted(Run(s, events, sort))
    decreases |events|
  {
    hide Inv, IsSort, Tainted;
    if events != [] {
      StepKeeps(s, events[0], sort);
      StepTainted(s, events[0], sort);
      EveryRunIsTainted(Step(s, events[0], sort), events[1..], sort);
    }
  }

  ghost predicate Adds(events: seq<Event>) {
    exists k :: 0 <= k < |events| && events[k].Call? && events[k].op.Add?
  }

  lemma {:induction false} RunGrowsLedger(s: State, events: seq<Event>, sort: seq<Entry> -> seq<Entry>)
    ensures |s.ledger| <= |Run(s, events, sort).ledger|
    decreases |events|
  {
    if events != [] {
      if events[0].Fire? {
        PassUndefined(s, events[0].now, events[0].later, events[0].behave, events[0].clock, sort);
      }
      hide Pass;
      RunGrowsLedger(Step(s, events[0], sort), events[1..], sort);
    }
  }

  lemma {:induction false} IssuesIffAdds(s: State, events: seq<Event>, sort: seq<Entry> -> seq<Entry>)
    requires Inv(s) && IsSort(sort) && s.ledger == []
    ensures Run(s, events, sort).ledger != [] <==> Adds(events)
    decreases |events|
  {
    if events != [] {
      var t := Step(s, events[0], sort);
      StepKeeps(s, events[0], sort);
      NoHandlesNoEntries(s);
      hide Inv, IsSort;
      if events[0].Call? && events[0].op.Add? {
        RunGrowsLedger(t, events[1..], sort);
      } else {
        if events[0].Fire? {
          PassUndefined(s, events[0].now, events[0].later, events[0].behave, events[0].clock, sort);
        }
        assert t.ledger == [];
        IssuesIffAdds(t, events[1..], sort);
        AddsLater(events);
      }
    }
  }

  lemma AddsLater(events: seq<Event>)
    requires events != [] && !(events[0].Call? && events[0].op.Add?)
    ensures Adds(events) <==> Adds(events[1..])
  {
    if k :| 0 <= k < |events| && events[k].Call? && events[k].op.Add? {
      assert events[1..][k - 1] == events[k];
    }
    if k :| 0 <= k < |events[1..]| && events[1..][k].Call? && events[1..][k].op.Add? {
      assert events[k + 1] == events[1..][k];
    }
  }

  /** As written, a run from the beginning is defined if and only if it adds no
      periodic timeout at all: the very first addition returns the front of an empty
      vector. */
  lemma DefinedIffNothingAdded(events: seq<Event>, sort: seq<Entry> -> seq<Entry>)
    requires IsSort(sort)
    ensures var s := Run(INITIAL, events, sort);
            !s.undefinedReturn && !s.undefinedErase <==> !Adds(events)
  {
    InitialInv(INITIAL);
    hide Inv, IsSort;
    EveryRunIsTainted(INITIAL, events, sort);
    IssuesIffAdds(INITIAL, events, sort);
  }

  // -------------------------------------------------------- the undefined erase

  function Additions(ops: seq<Op>): nat {
    if ops == [] then 0 else (if ops[0].Add? then 1 else 0) + Additions(ops[1..])
  }

  /** Some operation removes a handle issued in this pass, whose first is n, by an
      operation before it; next is the next handle. */
  predicate RemovesOwn(ops: seq<Op>, n: nat, next: nat) {
    ops != [] &&
    (|| (ops[0].Remove? && n <= ops[0].id < next)
     || RemovesOwn(ops[1..], n, if ops[0].Add? then next + 1 else next))
  }

  lemma {:induction false} RemovesOwnConcat(a: seq<Op>, b: seq<Op>, n: nat, next: nat)
    ensures RemovesOwn(a + b, n, next) <==> RemovesOwn(a, n, next) || RemovesOwn(b, n, next + Additions(a))
    ensures Additions(a + b) == Additions(a) + Additions(b)
    decreases |a|
  {
    if a == [] {
      assert a + b == b;
    } else {
      assert (a + b)[1..] == a[1..] + b;
      RemovesOwnConcat(a[1..], b, n, if a[0].Add? then next + 1 else next);
    }
  }

  /** Until something undefined happens, what is held back is every handle issued
      since n, in order. */
  ghost predicate HoldsBack(s: State, n: nat) {
    && s.processing && n <= |s.ledger|
    && (forall k :: 0 <= k < |s.list| ==> s.list[k].id < n)
    && (!s.undefinedErase ==>
          && |s.pending| == |s.ledger| - n
          && forall j :: 0 <= j < |s.pending| ==> s.pending[j].id == n + j)
  }

  lemma ApplyHoldsBack(s: State, op: Op, n: nat)
    requires HoldsBack(s, n)
    ensures HoldsBack(Apply(s, op), n)
    ensures |Apply(s, op).ledger| == |s.ledger| + if op.Add? then 1 else 0
    ensures Apply(s, op).undefinedErase <==> s.undefinedErase || (op.Remove? && n <= op.id < |s.ledger|)
  {
    if op.Remove? && !s.undefinedErase && n <= op.id < |s.ledger| {
      assert s.pending[op.id - n].id == op.id;
    }
  }

  lemma {:induction false} RunOpsHoldsBack(s: State, ops: seq<Op>, n: nat)
    requires HoldsBack(s, n)
    ensures HoldsBack(RunOps(s, ops), n)
    ensures |RunOps(s, ops).ledger| == |s.ledger| + Additions(ops)
    ensures RunOps(s, ops).undefinedErase <==> s.undefinedErase || RemovesOwn(ops, n, |s.ledger|)
    decreases |ops|
  {
    if ops != [] {
      ApplyHoldsBack(s, ops[0], n);
      hide HoldsBack, Apply;
      RunOpsHoldsBack(Apply(s, ops[0]), ops[1..], n);
    }
  }

  /** t was reached from s by callbacks, and something undefined happened on the way
      exactly if they remove what they added. */
  ghost predicate Erases(s: State, t: State, behave: nat -> seq<Op>, n: nat) {
    && s.log <= t.log
    && (t.undefinedErase <==> s.undefinedErase || RemovesOwn(Performed(t.log[|s.log|..], behave), n, |s.ledger|))
  }

  lemma ErasesNothing(s: State, behave: nat -> seq<Op>, n: nat)
    ensures Erases(s, s, behave, n)
  {
    assert s.log[|s.log|..] == [];
  }

  lemma ErasesFirst(s: State, m: State, t: State, e: Execution, behave: nat -> seq<Op>, n: nat)
    requires m.log == s.log + [e] && |m.ledger| == |s.ledger| + Additions(behave(e.id))
    requires m.undefinedErase <==> s.undefinedErase || RemovesOwn(behave(e.id), n, |s.ledger|)
    requires Erases(m, t, behave, n)
    ensures Erases(s, t, behave, n)
  {
    hide RemovesOwn, Additions;
    LogFirst(s.log, e, t.log);
    assert ([e] + t.log[|m.log|..])[1..] == t.log[|m.log|..];
    RemovesOwnConcat(behave(e.id), Performed(t.log[|m.log|..], behave), n, |s.ledger|);
  }

  lemma {:induction false} TraverseErases(s: State, i: nat, now: int, behave: nat -> seq<Op>, n: nat)
    requires HoldsBack(s, n) && i <= |s.list|
    ensures Erases(s, Traverse(s, i, now, behave).0, behave, n)
    decreases |s.list| - i
  {
    ErasesNothing(s, behave, n);
    if i < |s.list| {
      if s.list[i].remove {
        TraverseErases(s, i + 1, now, behave, n);
      } else if s.list[i].deadline <= now {
        var b := Begin(s, i, now);
        var ops := behave(s.list[i].id);
        assert HoldsBack(b, n);
        RunOpsHoldsBack(b, ops, n);
        hide HoldsBack, RunOps, Erases, RemovesOwn, Additions;
        TraverseErases(RunOps(b, ops), i + 1, now, behave, n);
        ErasesFirst(s, RunOps(b, ops), Traverse(s, i, now, behave).0,
                    Execution(s.list[i].id, s.list[i].callback, now), behave, n);
      }
    }
  }

  /** The callbacks of a pass, by the plan, remove a handle that one of them added. */
  ghost predicate Strays(s: State, event: Event) {
    && event.Fire? && Readable(s.timer, event.now)
    && RemovesOwn(Performed(PlanOf(s.list, event.now, event.behave, {}).runs, event.behave), |s.ledger|, |s.ledger|)
  }

  lemma StepErases(s: State, event: Event, sort: seq<Entry> -> seq<Entry>)
    requires Inv(s)
    ensures Step(s, event, sort).undefinedErase <==> s.undefinedErase || Strays(s, event)
  {
    if event.Fire? && Readable(s.timer, event.now) {
      PassUndefined(s, event.now, event.later, event.behave, event.clock, sort);
      TraversedFollowsPlan(s, event.now, event.behave);
      var begun := s.(processing := true, timer := Idle);
      BeginsHolding(s);
      hide Inv, PlanOf, Pass;
      TraverseErases(begun, 0, event.now, event.behave, |s.ledger|);
      var u, runs := Traversed(s, event.now, event.behave).0, PlanOf(s.list, event.now, event.behave, {}).runs;
      assert (s.log + runs)[|s.log|..] == runs;
    }
  }

  lemma BeginsHolding(s: State)
    requires Inv(s)
    ensures HoldsBack(s.(processing := true, timer := Idle), |s.ledger|)
  {
    assert forall k :: 0 <= k < |s.list| ==> s.list[k] in s.list;
  }

  /** Some pass of the run strays. */
  ghost predicate AnyStrays(s: State, events: seq<Event>, sort: seq<Entry> -> seq<Entry>)
    decreases |events|
  {
    events != [] && (Strays(s, events[0]) || AnyStrays(Step(s, events[0], sort), events[1..], sort))
  }

  /** With the return repaired, a run is defined if and only if in no pass of it a
      callback removes a handle that a callback of the same pass added. */
  lemma {:induction false} ErasesIffStrays(s: State, events: seq<Event>, sort: seq<Entry> -> seq<Entry>)
    requires Inv(s) && IsSort(sort)
    ensures Run(s, events, sort).undefinedErase <==> s.undefinedErase || AnyStrays(s, events, sort)
    decreases |events|
  {
    hide Inv, IsSort, Strays;
    if events != [] {
      StepKeeps(s, events[0], sort);
      StepErases(s, events[0], sort);
      ErasesIffStrays(Step(s, events[0], sort), events[1..], sort);
    }
  }

  /** The second departure is as easy to reach: a callback that adds a timeout and
      removes it again. */
  lemma AddThenRemoveStrays(s: State, now: int, later: int, behave: nat -> seq<Op>, clock: Clock)
    requires Inv(s) && s.list != [] && s.list[0].deadline <= now && Readable(s.timer, now)
    requires var ops := behave(s.list[0].id);
             |ops| == 2 && ops[0].Add? && ops[1] == Remove(|s.ledger|)
    ensures Strays(s, Fire(now, later, behave, clock))
  {
    var ops := behave(s.list[0].id);
    var plan := PlanOf(s.list, now, behave, {});
    var n := |s.ledger|;
    assert plan.runs[0].id == s.list[0].id;
    assert RemovesOwn(ops[1..], n, n + 1);
    RemovesOwnConcat(ops, Performed(plan.runs[1..], behave), n, n);
  }
}
