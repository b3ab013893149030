/** Only a request removes a one-shot timeout; so a pass decides the fate of every
    timeout that nobody asks to remove. */
module OneShotRequests {
  import opened MonotonicTimer
  import opened OneShotTimeouts
  import opened OneShotProofs

  ghost predicate IsRemoved(s: State, id: nat) {
    id < |s.ledger| && s.ledger[id].fate == Removed
  }

  lemma ApplyRemovesRequested(s: State, op: Op, id: nat)
    requires IsRemoved(Apply(s, op), id)
    ensures IsRemoved(s, id) || op == Remove(id)
  {
  }

  lemma {:induction false} RunOpsRemovesRequested(s: State, ops: seq<Op>, id: nat)
    requires IsRemoved(RunOps(s, ops), id)
    ensures IsRemoved(s, id) || Remove(id) in ops
    decreases |ops|
  {
    if ops != [] {
      var t := Apply(s, ops[0]);
      RunOpsRemovesRequested(t, ops[1..], id);
      if IsRemoved(t, id) {
        ApplyRemovesRequested(s, ops[0], id);
      }
    }
  }

  lemma {:induction false} TraverseRemovesRequested(s: State, i: nat, now: int, behave: nat -> seq<Op>, id: nat)
    requires s.processing && i <= |s.list| && IsRemoved(Traverse(s, i, now, behave).0, id)
    ensures IsRemoved(s, id) || exists h :: Remove(id) in behave(h)
    decreases |s.list| - i
  {
    if i < |s.list| {
      if s.list[i].remove {
        TraverseRemovesRequested(s, i + 1, now, behave, id);
      } else if s.list[i].deadline <= now {
        var m := RunOps(Begin(s, i, now), behave(s.list[i].id));
        TraverseRemovesRequested(m, i + 1, now, behave, id);
        if IsRemoved(m, id) {
          RunOpsRemovesRequested(Begin(s, i, now), behave(s.list[i].id), id);
        }
      }
    }
  }

  lemma {:induction false} MergeRemovesNothing(s: State, id: nat)
    requires IsRemoved(Merge(s), id)
    ensures IsRemoved(s, id)
    decreases |s.pending|
  {
    if s.pending != [] {
      MergeRemovesNothing(MergeOne(s), id);
    }
  }

  lemma FinishRemovesNothing(t: State, i: nat, clock: Clock, v: Variant, id: nat)
    requires i <= |t.list| && IsRemoved(Finish(t, i, clock, v), id)
    ensures IsRemoved(t, id)
  {
    MergeRemovesNothing(Prune(ErasePassed(t, i, v)), id);
  }

  lemma PassRemovesRequested(s: State, now: int, behave: nat -> seq<Op>, clock: Clock, v: Variant, id: nat)
    requires IsRemoved(Pass(s, now, behave, clock, v), id)
    ensures IsRemoved(s, id) || exists h :: Remove(id) in behave(h)
  {
    var (t, i) := Traversed(s, now, behave);
    FinishRemovesNothing(t, i, clock, v, id);
    TraverseRemovesRequested(s.(processing := true, timer := Idle), 0, now, behave, id);
  }

  /** A queued timeout nobody removes runs in the pass that finds it due and, as
      intended, stays queued in a pass that does not. */
  lemma PassDecides(s: State, now: int, behave: nat -> seq<Op>, clock: Clock, v: Variant, k: nat)
    requires Inv(s) && k < |s.list|
    requires forall h :: Remove(s.list[k].id) !in behave(h)
    ensures var t, id := Pass(s, now, behave, clock, v), s.list[k].id;
            && id < |t.ledger|
            && (s.list[k].deadline <= now ==> t.ledger[id].fate == Ran)
            && (s.list[k].deadline > now ==> t.ledger[id].fate in {Queued, Dropped})
            && (s.list[k].deadline > now && v == Intended ==> t.ledger[id].fate == Queued)
  {
    var t, id := Pass(s, now, behave, clock, v), s.list[k].id;
    PassSettlesDue(s, now, behave, clock, v);
    assert Registered(s, s.list[k]) && s.ledger[id].fate == Queued;
    PassExtends(s, now, behave, clock, v);
    hide Inv, Pass;
    if IsRemoved(t, id) {
      PassRemovesRequested(s, now, behave, clock, v, id);
    }
  }
}
