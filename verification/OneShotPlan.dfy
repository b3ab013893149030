/** What a pass of process_timeouts runs, told from the queue and the callbacks alone,
    without the marks, the iterator or the held-back additions. */
module OneShotPlan {
  import opened MonotonicTimer
  import opened OneShotTimeouts
  import opened OneShotProofs
  import opened OneShotRequests

  function Removals(ops: seq<Op>): (r: set<nat>)
    ensures forall id :: id in r <==> Remove(id) in ops
  {
    if ops == [] then {}
    else (if ops[0].Remove? then {ops[0].id} else {}) + Removals(ops[1..])
  }

  /** What runs, and what is cancelled. */
  datatype Plan = Plan(runs: seq<Execution>, cancelled: set<nat>)

  /** The due entries in order, but for those that a callback before them cancels. */
  function PlanOf(list: seq<Entry>, now: int, behave: nat -> seq<Op>, cancelled: set<nat>): Plan {
    if list == [] || list[0].deadline > now then Plan([], cancelled)
    else if list[0].id in cancelled then PlanOf(list[1..], now, behave, cancelled)
    else
      var p := PlanOf(list[1..], now, behave, cancelled + Removals(behave(list[0].id)));
      Plan([Execution(list[0].id, list[0].callback, now)] + p.runs, p.cancelled)
  }

  /** Some entry is neither due nor cancelled. */
  ghost predicate LeavesSome(list: seq<Entry>, now: int, behave: nat -> seq<Op>) {
    exists k :: 0 <= k < |list| && list[k].deadline > now && list[k].id !in PlanOf(list, now, behave, {}).cancelled
  }

  /** Equal but for the marks. */
  ghost predicate Alike(a: seq<Entry>, b: seq<Entry>) {
    |a| == |b| && forall k :: 0 <= k < |a| ==> a[k].(remove := true) == b[k].(remove := true)
  }

  lemma {:induction false} PlanIgnoresMarks(a: seq<Entry>, b: seq<Entry>, now: int, behave: nat -> seq<Op>,
                                            cancelled: set<nat>)
    requires Alike(a, b)
    ensures PlanOf(a, now, behave, cancelled) == PlanOf(b, now, behave, cancelled)
    decreases |a|
  {
    if a != [] {
      assert a[0].(remove := true) == b[0].(remove := true);
      assert Alike(a[1..], b[1..]);
      PlanIgnoresMarks(a[1..], b[1..], now, behave, cancelled);
      PlanIgnoresMarks(a[1..], b[1..], now, behave, cancelled + Removals(behave(a[0].id)));
    }
  }

  ghost predicate Marked(list: seq<Entry>, cancelled: set<nat>) {
    forall k :: 0 <= k < |list| ==> (list[k].remove <==> list[k].id in cancelled)
  }

  ghost predicate Unique(list: seq<Entry>) {
    forall j, k :: 0 <= j < k < |list| ==> list[j].id != list[k].id
  }

  /** A callback marks exactly what it removes. */
  lemma {:induction false} RunOpsMarks(s: State, ops: seq<Op>, cancelled: set<nat>)
    requires s.processing && Marked(s.list, cancelled) && Unique(s.list)
    ensures Marked(RunOps(s, ops).list, cancelled + Removals(ops))
    decreases |ops|
  {
    if ops != [] {
      var one := if ops[0].Remove? then {ops[0].id} else {};
      var t := Apply(s, ops[0]);
      ApplyMarks(s, ops[0], cancelled);
      RunOpsMarks(t, ops[1..], cancelled + one);
      assert cancelled + one + Removals(ops[1..]) == cancelled + Removals(ops);
    }
  }

  lemma ApplyMarks(s: State, op: Op, cancelled: set<nat>)
    requires s.processing && Marked(s.list, cancelled) && Unique(s.list)
    ensures Marked(Apply(s, op).list, cancelled + if op.Remove? then {op.id} else {})
    ensures Unique(Apply(s, op).list)
  {
    var t := Apply(s, op);
    forall k | 0 <= k < |t.list|
      ensures t.list[k].remove <==> s.list[k].remove || (op.Remove? && t.list[k].id == op.id)
      ensures t.list[k].id == s.list[k].id
    {
      if op.Remove? {
        var i := IndexOf(s.list, op.id);
        assert i < k ==> i < |s.list|;
      }
    }
  }

  /** From entry i of s on, t was reached by running the plan up to entry stop. */
  ghost predicate Follows(s: State, i: nat, t: State, stop: nat, plan: Plan, now: int) {
    && t.log == s.log + plan.runs
    && Marked(t.list, plan.cancelled)
    && stop <= |s.list|
    && forall k :: i <= k < stop && s.list[k].deadline > now ==> s.list[k].id in plan.cancelled
  }

  lemma FollowsFirst(s: State, m: State, i: nat, t: State, stop: nat, e: Execution, p: Plan, now: int)
    requires i < |s.list| && s.list[i].deadline <= now && Alike(s.list, m.list) && m.log == s.log + [e]
    requires Follows(m, i + 1, t, stop, p, now)
    ensures Follows(s, i, t, stop, Plan([e] + p.runs, p.cancelled), now)
  {
    assert s.log + ([e] + p.runs) == m.log + p.runs;
    forall k | i <= k < stop && s.list[k].deadline > now ensures s.list[k].id in p.cancelled {
      assert s.list[k].(remove := true) == m.list[k].(remove := true);
    }
  }

  ghost predicate Ascending(list: seq<Entry>) {
    forall j, k :: 0 <= j < k < |list| ==> list[j].deadline <= list[k].deadline
  }

  lemma {:induction false} TraverseFollowsPlan(s: State, i: nat, now: int, behave: nat -> seq<Op>, cancelled: set<nat>)
    requires s.processing && i <= |s.list| && Marked(s.list, cancelled) && Unique(s.list) && Ascending(s.list)
    ensures var (t, stop) := Traverse(s, i, now, behave);
            Follows(s, i, t, stop, PlanOf(s.list[i..], now, behave, cancelled), now)
    decreases |s.list| - i
  {
    if i < |s.list| {
      assert s.list[i..][1..] == s.list[i + 1..];
      if s.list[i].remove {
        TraverseFollowsPlan(s, i + 1, now, behave, cancelled);
      } else if s.list[i].deadline <= now {
        var b := Begin(s, i, now);
        var ops := behave(s.list[i].id);
        var m := RunOps(b, ops);
        RunOpsMarks(b, ops, cancelled);
        FrozenIsAlike(s, m);
        hide RunOps, Removals, Marked, Unique, Ascending, Alike, Follows;
        TraverseFollowsPlan(m, i + 1, now, behave, cancelled + Removals(ops));
        AlikeRest(s.list, m.list, i + 1);
        PlanIgnoresMarks(s.list[i + 1..], m.list[i + 1..], now, behave, cancelled + Removals(ops));
        var (t, stop) := Traverse(s, i, now, behave);
        FollowsFirst(s, m, i, t, stop, Execution(s.list[i].id, s.list[i].callback, now),
                     PlanOf(s.list[i + 1..], now, behave, cancelled + Removals(ops)), now);
      }
    }
  }

  lemma FrozenIsAlike(s: State, m: State)
    requires |s.list| == |m.list|
    requires forall k :: 0 <= k < |s.list| ==> m.list[k] == s.list[k] || m.list[k] == s.list[k].(remove := true)
    ensures Alike(s.list, m.list)
    ensures Unique(s.list) ==> Unique(m.list)
    ensures Ascending(s.list) ==> Ascending(m.list)
  {
  }

  lemma AlikeRest(a: seq<Entry>, b: seq<Entry>, i: nat)
    requires Alike(a, b) && i <= |a|
    ensures |a| == |b| && Alike(a[i..], b[i..])
  {
  }

  lemma QueueIsUnique(s: State)
    requires Inv(s)
    ensures Unique(s.list) && Marked(s.list, {})
    ensures Ascending(s.list)
  {
    forall j, k | 0 <= j < k < |s.list|
      ensures s.list[j].id != s.list[k].id && s.list[j].deadline <= s.list[k].deadline
    {
      DistinctIds(s, 0, k);
      assert Before(s.list[j], s.list[k]);
    }
  }

  /** The loop runs what the plan says, and stops before the end exactly when something
      is left over. */
  lemma TraversedFollowsPlan(s: State, now: int, behave: nat -> seq<Op>)
    requires Inv(s)
    ensures var (t, i) := Traversed(s, now, behave);
            && t.log == s.log + PlanOf(s.list, now, behave, {}).runs
            && Marked(t.list, PlanOf(s.list, now, behave, {}).cancelled)
            && Alike(s.list, t.list)
            && (i < |t.list| <==> LeavesSome(s.list, now, behave))
            && (forall k :: 0 <= k < i && s.list[k].deadline > now ==>
                  s.list[k].id in PlanOf(s.list, now, behave, {}).cancelled)
  {
    QueueIsUnique(s);
    TraversedOutcome(s, now, behave);
    hide Inv, Core;
    var begun := s.(processing := true, timer := Idle);
    TraverseFollowsPlan(begun, 0, now, behave, {});
    assert begun.list[0..] == s.list;
    var (t, i) := Traversed(s, now, behave);
    if i < |t.list| {
      assert t.list[i].(remove := true) == s.list[i].(remove := true);
    }
  }

  /** The whole pass: its callbacks are exactly those of the plan, in that order; and a
      timeout that is not due is removed exactly when the plan cancels it. */
  lemma PassFollowsPlan(s: State, now: int, behave: nat -> seq<Op>, clock: Clock, v: Variant)
    requires Inv(s)
    ensures var t, plan := Pass(s, now, behave, clock, v), PlanOf(s.list, now, behave, {});
            && t.log == s.log + plan.runs
            && |s.ledger| <= |t.ledger|
            && forall k :: 0 <= k < |s.list| && s.list[k].deadline > now ==>
                 && Registered(s, s.list[k])
                 && (t.ledger[s.list[k].id].fate == Removed <==> s.list[k].id in plan.cancelled)
  {
    var (u, i) := Traversed(s, now, behave);
    MergeLog(Prune(ErasePassed(u, i, v)));
    PassExtends(s, now, behave, clock, v);
    QueueRegistered(s, 0);
    forall k | 0 <= k < |s.list| && s.list[k].deadline > now
      ensures Pass(s, now, behave, clock, v).ledger[s.list[k].id].fate == Removed
              <==> s.list[k].id in PlanOf(s.list, now, behave, {}).cancelled
    {
      NotDueFate(s, now, behave, clock, v, k);
    }
    TraversedFollowsPlan(s, now, behave);
  }

  lemma FinishKeepsFate(t: State, i: nat, clock: Clock, v: Variant, id: nat)
    requires Core(t, i) && (i < |t.list| ==> !t.list[i].remove) && id < |t.ledger|
    ensures var r := Finish(t, i, clock, v);
            && id < |r.ledger|
            && (t.ledger[id].fate in {Ran, Removed} ==> r.ledger[id].fate == t.ledger[id].fate)
            && (t.ledger[id].fate == Queued ==> r.ledger[id].fate != Removed)
  {
    FinishExtends(t, i, clock, v);
    assert i <= |t.list|;
    hide Core, Finish;
    if IsRemoved(Finish(t, i, clock, v), id) {
      FinishRemovesNothing(t, i, clock, v, id);
    }
  }

  lemma NotDueFate(s: State, now: int, behave: nat -> seq<Op>, clock: Clock, v: Variant, k: nat)
    requires Inv(s) && k < |s.list| && s.list[k].deadline > now
    ensures var t := Pass(s, now, behave, clock, v);
            && s.list[k].id < |t.ledger|
            && (t.ledger[s.list[k].id].fate == Removed <==> s.list[k].id in PlanOf(s.list, now, behave, {}).cancelled)
  {
    var (t, i) := Traversed(s, now, behave);
    NotDueTraversed(s, now, behave, k);
    NotDueDoesNotRun(s, now, behave, clock, v, k);
    TraversedOutcome(s, now, behave);
    assert Pass(s, now, behave, clock, v) == Finish(t, i, clock, v);
    hide Inv, Core, Traversed, PlanOf, Finish, Pass;
    FinishKeepsFate(t, i, clock, v, s.list[k].id);
  }

  /** After the loop, before anything is erased. */
  lemma NotDueTraversed(s: State, now: int, behave: nat -> seq<Op>, k: nat)
    requires Inv(s) && k < |s.list| && s.list[k].deadline > now
    ensures var t, id := Traversed(s, now, behave).0, s.list[k].id;
            && id < |t.ledger|
            && var cancelled := PlanOf(s.list, now, behave, {}).cancelled;
               t.ledger[id].fate in (if id in cancelled then {Ran, Removed} else {Queued})
  {
    var (t, i) := Traversed(s, now, behave);
    TraversedFollowsPlan(s, now, behave);
    TraversedOutcome(s, now, behave);
    hide Inv, Traversed, PlanOf, Sorted, PendingOk, LogOk, Located;
    assert t.list[k].(remove := true) == s.list[k].(remove := true);
    assert Registered(t, t.list[k]);
    assert k < i ==> s.list[k].id in PlanOf(s.list, now, behave, {}).cancelled;
  }
}
