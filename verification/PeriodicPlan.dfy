/** What a pass of process_periodic_timeouts runs, told from the queue and the
    callbacks alone, without the marks, the flags or the held-back additions. */
module PeriodicPlan {
  import opened MonotonicTimer
  import opened PeriodicTimeouts
  import opened PeriodicProofs

  function Removals(ops: seq<Op>): (r: set<nat>)
    ensures forall id :: id in r <==> Remove(id) in ops
  {
    if ops == [] then {}
    else (if ops[0].Remove? then {ops[0].id} else {}) + Removals(ops[1..])
  }

  /** What runs, and what is cancelled. */
  datatype Plan = Plan(runs: seq<Execution>, cancelled: set<nat>)

  /** The due entries in order, but for those that a callback before them cancels. */
  function PlanOf(list: seq<Entry>, now: int, behave: nat -> seq<Op>, cancelled: set<nat>): Plan {
    if list == [] || list[0].deadline > now then Plan([], cancelled)
    else if list[0].id in cancelled then PlanOf(list[1..], now, behave, cancelled)
    else
      var p := PlanOf(list[1..], now, behave, cancelled + Removals(behave(list[0].id)));
      Plan([Execution(list[0].id, list[0].callback, now)] + p.runs, p.cancelled)
  }

  /** Equal but for the marks and flags. */
  ghost predicate Alike(a: seq<Entry>, b: seq<Entry>) {
    |a| == |b| &&
    forall k :: 0 <= k < |a| ==> a[k].(remove := true, processed := true) == b[k].(remove := true, processed := true)
  }

  lemma {:induction false} PlanIgnoresMarks(a: seq<Entry>, b: seq<Entry>, now: int, behave: nat -> seq<Op>,
                                            cancelled: set<nat>)
    requires Alike(a, b)
    ensures PlanOf(a, now, behave, cancelled) == PlanOf(b, now, behave, cancelled)
    decreases |a|
  {
    if a != [] {
      assert a[0].(remove := true, processed := true) == b[0].(remove := true, processed := true);
      assert Alike(a[1..], b[1..]);
      PlanIgnoresMarks(a[1..], b[1..], now, behave, cancelled);
      PlanIgnoresMarks(a[1..], b[1..], now, behave, cancelled + Removals(behave(a[0].id)));
    }
  }

  ghost predicate Marked(list: seq<Entry>, cancelled: set<nat>) {
    forall k :: 0 <= k < |list| ==> (list[k].remove <==> list[k].id in cancelled)
  }

  lemma ApplyMarks(s: State, op: Op, cancelled: set<nat>)
    requires s.processing && Marked(s.list, cancelled) && Distinct(s.list)
    ensures Marked(Apply(s, op).list, cancelled + if op.Remove? then {op.id} else {})
    ensures Distinct(Apply(s, op).list)
  {
    var t := Apply(s, op);
    forall k | 0 <= k < |t.list|
      ensures t.list[k].remove <==> s.list[k].remove || (op.Remove? && t.list[k].id == op.id)
      ensures t.list[k].id == s.list[k].id
    {
      if op.Remove? {
        var i := IndexOf(s.list, op.id);
        assert i < k ==> i < |s.list|;
      }
    }
  }

  /** A callback marks exactly what it removes. */
  lemma {:induction false} RunOpsMarks(s: State, ops: seq<Op>, cancelled: set<nat>)
    requires s.processing && Marked(s.list, cancelled) && Distinct(s.list)
    ensures Marked(RunOps(s, ops).list, cancelled + Removals(ops))
    decreases |ops|
  {
    if ops != [] {
      var one := if ops[0].Remove? then {ops[0].id} else {};
      ApplyMarks(s, ops[0], cancelled);
      RunOpsMarks(Apply(s, ops[0]), ops[1..], cancelled + one);
      assert cancelled + one + Removals(ops[1..]) == cancelled + Removals(ops);
    }
  }

  lemma FrozenIsAlike(s: State, i: nat, now: int, m: State)
    requires i < |s.list| && Frozen(Begin(s, i, now), m)
    ensures Alike(s.list, m.list)
    ensures Distinct(s.list) ==> Distinct(m.list)
    ensures Sorted(s.list) ==> Sorted(m.list)
  {
  }

  lemma AlikeRest(a: seq<Entry>, b: seq<Entry>, i: nat)
    requires Alike(a, b) && i <= |a|
    ensures |a| == |b| && Alike(a[i..], b[i..])
  {
  }

  /** From s on, t was reached by running the plan. */
  ghost predicate Follows(s: State, t: State, plan: Plan) {
    t.log == s.log + plan.runs && Marked(t.list, plan.cancelled)
  }

  lemma FollowsFirst(s: State, m: State, t: State, e: Execution, p: Plan)
    requires m.log == s.log + [e] && Follows(m, t, p)
    ensures Follows(s, t, Plan([e] + p.runs, p.cancelled))
  {
    assert s.log + ([e] + p.runs) == m.log + p.runs;
  }

  lemma FollowsNothing(s: State, cancelled: set<nat>)
    requires Marked(s.list, cancelled)
    ensures Follows(s, s, Plan([], cancelled))
  {
  }

  lemma {:induction false} TraverseFollowsPlan(s: State, i: nat, now: int, behave: nat -> seq<Op>, cancelled: set<nat>)
    requires s.processing && i <= |s.list| && Marked(s.list, cancelled) && Distinct(s.list) && Sorted(s.list)
    ensures Follows(s, Traverse(s, i, now, behave).0, PlanOf(s.list[i..], now, behave, cancelled))
    decreases |s.list| - i
  {
    FollowsNothing(s, cancelled);
    if i < |s.list| {
      assert s.list[i..][1..] == s.list[i + 1..];
      if s.list[i].remove {
        TraverseFollowsPlan(s, i + 1, now, behave, cancelled);
      } else if s.list[i].deadline <= now {
        var b := Begin(s, i, now);
        var ops := behave(s.list[i].id);
        var m := RunOps(b, ops);
        RunOpsMarks(b, ops, cancelled);
        FrozenIsAlike(s, i, now, m);
        hide RunOps, Removals, Marked, Distinct, Sorted, Alike, Frozen, Follows;
        TraverseFollowsPlan(m, i + 1, now, behave, cancelled + Removals(ops));
        AlikeRest(s.list, m.list, i + 1);
        PlanIgnoresMarks(s.list[i + 1..], m.list[i + 1..], now, behave, cancelled + Removals(ops));
        FollowsFirst(s, m, Traverse(s, i, now, behave).0, Execution(s.list[i].id, s.list[i].callback, now),
                     PlanOf(s.list[i + 1..], now, behave, cancelled + Removals(ops)));
      }
    }
  }

  lemma QueueIsUnmarked(s: State)
    requires Inv(s)
    ensures Distinct(s.list) && Marked(s.list, {}) && Sorted(s.list)
  {
    assert forall k :: 0 <= k < |s.list| ==> s.list[k] in s.list;
  }

  /** The loop runs what the plan says and marks what the plan cancels. */
  lemma TraversedFollowsPlan(s: State, now: int, behave: nat -> seq<Op>)
    requires Inv(s)
    ensures var u, plan := Traversed(s, now, behave).0, PlanOf(s.list, now, behave, {});
            u.log == s.log + plan.runs && Marked(u.list, plan.cancelled)
  {
    QueueIsUnmarked(s);
    hide Inv;
    TraverseFollowsPlan(s.(processing := true, timer := Idle), 0, now, behave, {});
    assert s.list[0..] == s.list;
  }

  /** The whole pass: its callbacks are exactly those of the plan, in that order; an
      entry it found is removed exactly when the plan cancels it, and otherwise is in
      the list afterwards, one period after `later` if it was due and as it was if not. */
  lemma PassFollowsPlan(s: State, now: int, later: int, behave: nat -> seq<Op>, clock: Clock,
                        sort: seq<Entry> -> seq<Entry>, k: nat)
    requires Inv(s) && IsSort(sort) && k < |s.list|
    ensures var t, plan, e := Pass(s, now, later, behave, clock, sort), PlanOf(s.list, now, behave, {}), s.list[k];
            && t.log == s.log + plan.runs
            && e.id < |t.ledger| && (t.ledger[e.id].removed <==> e.id in plan.cancelled)
            && (Has(t.list, e.id) <==> e.id !in plan.cancelled)
            && (e.id !in plan.cancelled ==> Following(e, now, later) in t.list)
  {
    TraversedFollowsPlan(s, now, behave);
    RemovedIsMarked(s, now, behave, k);
    PassParts(s, now, later, behave, clock, sort);
    var pos := PassOutcome(s, now, later, behave, clock, sort);
    PassKeeps(s, now, later, behave, clock, sort);
    var t, e := Pass(s, now, later, behave, clock, sort), s.list[k];
    NotQueuedIfRemoved(t, e.id);
    hide Inv, IsSort, PlanOf, Pass, Traversed, Marked, LogsInOrder;
    var kept := Following(e, now, later);
    assert kept in t.list ==> Has(t.list, kept.id);
  }

  lemma NotQueuedIfRemoved(t: State, id: nat)
    requires Inv(t) && id < |t.ledger|
    ensures t.ledger[id].removed ==> !Has(t.list, id)
  {
  }

  lemma RemovedIsMarked(s: State, now: int, behave: nat -> seq<Op>, k: nat)
    requires Inv(s) && k < |s.list|
    ensures var u := Traversed(s, now, behave).0;
            |u.list| == |s.list| && s.list[k].id < |u.ledger| && u.list[k].id == s.list[k].id
            && u.ledger[s.list[k].id].removed == u.list[k].remove
  {
    var pos := TraversedOutcome(s, now, behave);
    var (u, i) := Traversed(s, now, behave);
    hide Traversed, Inv, PendingOk, Located, LogOk, Sorted;
    assert u.list[k].(remove := true, processed := true) == s.list[k].(remove := true, processed := true);
    assert u.list[k] in u.list;
  }
}
