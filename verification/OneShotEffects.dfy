/** What each request to the one-shot timeouts does, told without the queue's own
    functions, and what stays as it was. */
module OneShotEffects {
  import opened MonotonicTimer
  import opened OneShotTimeouts
  import opened OneShotProofs

  /** The entries of other handles, in order. */
  function Without(list: seq<Entry>, id: nat): seq<Entry> {
    if list == [] then []
    else (if list[0].id == id then [] else [list[0]]) + Without(list[1..], id)
  }

  lemma {:induction false} WithoutConcat(a: seq<Entry>, b: seq<Entry>, id: nat)
    ensures Without(a + b, id) == Without(a, id) + Without(b, id)
    decreases |a|
  {
    if a == [] {
      assert a + b == b;
    } else {
      assert (a + b)[1..] == a[1..] + b;
      WithoutConcat(a[1..], b, id);
    }
  }

  lemma {:induction false} WithoutNone(list: seq<Entry>, id: nat)
    requires forall k :: 0 <= k < |list| ==> list[k].id != id
    ensures Without(list, id) == list
    decreases |list|
  {
    if list != [] {
      WithoutNone(list[1..], id);
      assert list == [list[0]] + list[1..];
    }
  }

  lemma WithoutOne(a: seq<Entry>, e: Entry, b: seq<Entry>)
    requires forall k :: 0 <= k < |a| ==> a[k].id != e.id
    requires forall k :: 0 <= k < |b| ==> b[k].id != e.id
    ensures Without(a + [e] + b, e.id) == a + b
  {
    assert Without([e], e.id) == [] + Without([], e.id);
    hide Without;
    WithoutConcat(a + [e], b, e.id);
    WithoutConcat(a, [e], e.id);
    WithoutNone(a, e.id);
    WithoutNone(b, e.id);
    assert Without([], e.id) == [] by { WithoutNone([], e.id); }
    assert a + ([] + []) == a;
  }

  /** A handle that is still wanted. */
  ghost predicate Wanted(s: State, id: nat) {
    id < |s.ledger| && s.ledger[id].fate in {Queued, Pending}
  }

  lemma SplitAt(list: seq<Entry>, i: nat)
    requires i < |list|
    ensures list[..i] + [list[i]] + list[i + 1..] == list
  {}

  lemma EraseIsWithout(list: seq<Entry>, i: nat)
    requires i < |list| && forall j :: 0 <= j < |list| && j != i ==> list[j].id != list[i].id
    ensures Erase(list, i) == Without(list, list[i].id)
  {
    hide Without;
    var a, e, b := list[..i], list[i], list[i + 1..];
    forall k | 0 <= k < |a| ensures a[k].id != e.id {
      assert a[k] == list[k];
    }
    forall k | 0 <= k < |b| ensures b[k].id != e.id {
      assert b[k] == list[i + 1 + k];
    }
    WithoutOne(a, e, b);
    SplitAt(list, i);
  }

  /** Whatever is removed: the record of a wanted handle says so afterwards, and nothing
      else of the history changes, nor does the timer. */
  lemma RemovalIsRecorded(s: State, id: nat, done: nat)
    requires Core(s, done) && (s.processing || (done == 0 && Quiet(s)))
    ensures var t := RemoveTimeout(s, id);
            && t.log == s.log && t.timer == s.timer && t.processing == s.processing
            && t.ledger == if Wanted(s, id) then s.ledger[id := s.ledger[id].(fate := Removed)] else s.ledger
  {
    var i, j := IndexOf(s.list, id), IndexOf(s.pending, id);
    if i < |s.list| {
      assert Registered(s, s.list[i]);
      assert Has(s.list, 0, id);
    }
    if j < |s.pending| {
      assert Registered(s, s.pending[j]);
    }
    if Wanted(s, id) {
      WantedIsSomewhere(s, id, done);
    }
    hide Core, Quiet, IndexOf, Erase;
  }

  lemma WantedIsSomewhere(s: State, id: nat, done: nat)
    requires Core(s, done) && Wanted(s, id)
    ensures IndexOf(s.list, id) < |s.list| || IndexOf(s.pending, id) < |s.pending|
  {
    assert Has(s.list, done, id) || Has(s.pending, 0, id);
    hide Core, IndexOf;
  }

  /** Outside a traversal a removal takes the handle's entry out of the queue and leaves
      every other one, in order. */
  lemma RemovalOutside(s: State, id: nat)
    requires Inv(s)
    ensures var t := RemoveTimeout(s, id);
            t.list == Without(s.list, id) && !Has(t.list, 0, id) && t.pending == []
    ensures !Wanted(s, id) ==> RemoveTimeout(s, id) == s
  {
    var i := IndexOf(s.list, id);
    if i < |s.list| {
      DistinctIds(s, 0, i);
      EraseIsWithout(s.list, i);
    } else {
      WithoutNone(s.list, id);
    }
    WithoutHas(s.list, id);
    RemovalIsRecorded(s, id, 0);
    if i < |s.list| {
      assert Registered(s, s.list[i]);
    }
    hide Core, IndexOf, Erase;
  }

  lemma {:induction false} WithoutHas(list: seq<Entry>, id: nat)
    ensures !Has(Without(list, id), 0, id)
    decreases |list|
  {
    if list != [] {
      WithoutHas(list[1..], id);
      var rest := Without(list[1..], id);
      forall k | 0 <= k < |Without(list, id)| ensures Without(list, id)[k].id != id {
        if list[0].id == id {
          assert Without(list, id) == rest;
        } else if k > 0 {
          assert Without(list, id)[k] == rest[k - 1];
        }
        assert !Has(rest, 0, id);
      }
    }
  }

  /** During one it marks the handle's entry, or takes a held-back addition back. */
  lemma RemovalInside(s: State, id: nat, done: nat)
    requires Core(s, done) && s.processing
    ensures var t := RemoveTimeout(s, id);
            && |t.list| == |s.list|
            && (forall k :: 0 <= k < |s.list| ==>
                  t.list[k] == if s.list[k].id == id then s.list[k].(remove := true) else s.list[k])
            && t.pending == if Has(s.list, 0, id) then s.pending else Without(s.pending, id)
  {
    var i, j := IndexOf(s.list, id), IndexOf(s.pending, id);
    if i < |s.list| {
      DistinctIds(s, done, i);
      assert Has(s.list, 0, id);
    } else if j < |s.pending| {
      EraseIsWithout(s.pending, j);
    } else {
      WithoutNone(s.pending, id);
    }
    hide Core, IndexOf, Erase;
  }

  lemma RemovedIsNotLogged(s: State, id: nat)
    requires Inv(s) && id < |s.ledger| && s.ledger[id].fate == Removed
    ensures forall k :: 0 <= k < |s.log| ==> s.log[k].id != id
  {}

  /** Over every run: a wanted timeout that is removed is removed for good, and its
      callback is never called. */
  lemma RemovedNeverRuns(s: State, id: nat, events: seq<Event>, v: Variant)
    requires Inv(s) && Wanted(s, id)
    ensures var t := Run(Step(s, Call(Remove(id)), v), events, v);
            && id < |t.ledger| && t.ledger[id].fate == Removed
            && forall k :: 0 <= k < |t.log| ==> t.log[k].id != id
  {
    var u := RemoveTimeout(s, id);
    RemovalIsRecorded(s, id, 0);
    StepKeeps(s, Call(Remove(id)), v);
    hide Inv, RemoveTimeout, Run;
    EveryRunKeepsInvariant(u, events, v);
    EveryRunExtendsHistory(u, events, v);
    RemovedIsNotLogged(Run(u, events, v), id);
  }

  // ------------------------------------------------------------------- additions

  /** The entry that an addition makes. */
  function Asked(s: State, deadline: int, callback: nat): Entry {
    Entry(|s.ledger|, deadline, callback, false)
  }

  /** An addition issues the next handle, for the deadline and the callback asked for. */
  lemma AdditionIsRecorded(s: State, deadline: int, callback: nat, clock: Clock)
    ensures var t := AddTimeout(s, deadline, callback, clock);
            && t.ledger == s.ledger + [Record(deadline, callback, if s.processing then Pending else Queued)]
            && t.log == s.log && t.processing == s.processing
  {}

  lemma FrontIsEarliest(list: seq<Entry>, deadline: int)
    requires Sorted(list)
    ensures (forall k :: 0 <= k < |list| ==> deadline < list[k].deadline) <==> list == [] || list[0].deadline > deadline
  {
    forall i | 0 < i < |list| ensures list[0].deadline <= list[i].deadline {
      assert Before(list[0], list[i]);
    }
  }

  lemma InsertIsAmong(list: seq<Entry>, e: Entry)
    requires forall k :: 0 <= k < |list| ==> list[k].id != e.id
    ensures e in Insert(list, e) && Without(Insert(list, e), e.id) == list
  {
    var k := LowerBound(list, e.deadline);
    hide Without, LowerBound;
    WithoutOne(list[..k], e, list[k..]);
    assert list == list[..k] + list[k..];
    assert Insert(list, e)[k] == e;
  }

  /** Outside a traversal it is queued among the others, which stay in order; the timer
      is armed for it if it is now the earliest of all, and left alone otherwise. */
  lemma AdditionOutside(s: State, deadline: int, callback: nat, clock: Clock)
    requires Inv(s)
    ensures var t, e := AddTimeout(s, deadline, callback, clock), Asked(s, deadline, callback);
            && e in t.list && Without(t.list, e.id) == s.list && t.pending == []
            && t.timer == if forall k :: 0 <= k < |s.list| ==> deadline < s.list[k].deadline
                          then Armed(deadline, clock) else s.timer
  {
    var e := Asked(s, deadline, callback);
    QueueRegistered(s, 0);
    assert s.pending == [] && !s.processing && Sorted(s.list);
    hide Inv, Without, Insert, Sorted;
    InsertIsAmong(s.list, e);
    FrontIsEarliest(s.list, deadline);
  }

  /** During one it is held back behind the others. */
  lemma AdditionInside(s: State, deadline: int, callback: nat, clock: Clock)
    requires s.processing
    ensures var t := AddTimeout(s, deadline, callback, clock);
            t.list == s.list && t.timer == s.timer && t.pending == s.pending + [Asked(s, deadline, callback)]
  {}

  // ------------------------------------------------------------------- the timer

  lemma {:induction false} MergeTimer(s: State)
    ensures Merge(s).timer == s.timer
    decreases |s.pending|
  {
    if s.pending != [] { MergeTimer(MergeOne(s)); }
  }

  lemma {:induction false} TraverseTimer(s: State, i: nat, now: int, behave: nat -> seq<Op>)
    requires s.processing && i <= |s.list|
    ensures Traverse(s, i, now, behave).0.timer == s.timer
    decreases |s.list| - i
  {
    if i < |s.list| {
      if s.list[i].remove {
        TraverseTimer(s, i + 1, now, behave);
      } else if s.list[i].deadline <= now {
        TraverseTimer(RunOps(Begin(s, i, now), behave(s.list[i].id)), i + 1, now, behave);
      }
    }
  }

  /** After a pass the timer is armed for exactly the earliest deadline left, and off if
      there is none. */
  lemma PassRearms(s: State, now: int, behave: nat -> seq<Op>, clock: Clock, v: Variant)
    ensures var t := Pass(s, now, behave, clock, v);
            t.timer == if t.list == [] then Idle else Armed(t.list[0].deadline, clock)
  {
    var (u, i) := Traversed(s, now, behave);
    TraverseTimer(s.(processing := true, timer := Idle), 0, now, behave);
    MergeTimer(Prune(ErasePassed(u, i, v)));
    hide Traverse, Merge, Unmarked;
  }

  /** The timer is only ever armed for a deadline somebody asked for. */
  ghost predicate Aimed(s: State) {
    s.timer.Armed? ==> exists id :: 0 <= id < |s.ledger| && s.ledger[id].deadline == s.timer.aim
  }

  lemma AddAims(s: State, deadline: int, callback: nat, clock: Clock)
    requires Inv(s) && Aimed(s)
    ensures Aimed(AddTimeout(s, deadline, callback, clock))
  {
    var t := AddTimeout(s, deadline, callback, clock);
    AdditionIsRecorded(s, deadline, callback, clock);
    AdditionOutside(s, deadline, callback, clock);
    hide Inv, AddTimeout, Without;
    assert t.ledger[|s.ledger|].deadline == deadline;
    if s.timer.Armed? {
      var id :| 0 <= id < |s.ledger| && s.ledger[id].deadline == s.timer.aim;
      assert t.ledger[id].deadline == s.timer.aim;
    }
  }

  lemma PassAims(s: State, now: int, behave: nat -> seq<Op>, clock: Clock, v: Variant)
    requires Inv(s)
    ensures Aimed(Pass(s, now, behave, clock, v))
  {
    var t := Pass(s, now, behave, clock, v);
    PassRearms(s, now, behave, clock, v);
    PassKeeps(s, now, behave, clock, v);
    hide Pass;
    assert t.list != [] ==> Registered(t, t.list[0]);
  }

  lemma StepAims(s: State, event: Event, v: Variant)
    requires Inv(s) && Aimed(s)
    ensures Aimed(Step(s, event, v))
  {
    hide Aimed, AddTimeout, RemoveTimeout, Pass;
    match event
    case Call(Add(deadline, callback, clock)) =>
      AddAims(s, deadline, callback, clock);
    case Call(Remove(id)) =>
      RemovalIsRecorded(s, id, 0);
      StepExtends(s, event, v);
      SameAim(s, RemoveTimeout(s, id), v);
    case Fire(now, behave, clock) =>
      PassAims(s, now, behave, clock, v);
  }

  lemma SameAim(s: State, t: State, v: Variant)
    requires Aimed(s) && Extends(s, t, v) && t.timer == s.timer
    ensures Aimed(t)
  {
    if s.timer.Armed? {
      var id :| 0 <= id < |s.ledger| && s.ledger[id].deadline == s.timer.aim;
      assert t.ledger[id].deadline == t.timer.aim;
    }
  }

  lemma {:induction false} EveryRunAims(s: State, events: seq<Event>, v: Variant)
    requires Inv(s) && Aimed(s)
    ensures Aimed(Run(s, events, v))
    decreases |events|
  {
    hide Inv, Aimed;
    if events != [] {
      StepKeeps(s, events[0], v);
      StepAims(s, events[0], v);
      EveryRunAims(Step(s, events[0], v), events[1..], v);
    }
  }

  // ------------------------------------------------- what is added is issued, always

  /** No record changes what it was asked for. */
  ghost predicate Records(s: State, t: State) {
    && |s.ledger| <= |t.ledger|
    && forall id :: 0 <= id < |s.ledger| ==>
         t.ledger[id].deadline == s.ledger[id].deadline && t.ledger[id].callback == s.ledger[id].callback
  }

  /** Between the two states a handle was issued for it. */
  ghost predicate Issued(s: State, t: State, deadline: int, callback: nat) {
    exists id :: |s.ledger| <= id < |t.ledger| && t.ledger[id].deadline == deadline && t.ledger[id].callback == callback
  }

  lemma IssuedThen(s: State, t: State, u: State, deadline: int, callback: nat)
    requires Records(s, t) && Records(t, u)
    ensures Records(s, u)
    ensures Issued(s, t, deadline, callback) || Issued(t, u, deadline, callback) ==> Issued(s, u, deadline, callback)
  {
    if Issued(s, t, deadline, callback) {
      var id :| |s.ledger| <= id < |t.ledger| && t.ledger[id].deadline == deadline && t.ledger[id].callback == callback;
      assert u.ledger[id].deadline == deadline;
    }
  }

  lemma ApplyKeepsRecords(s: State, op: Op)
    ensures Records(s, Apply(s, op))
    ensures op.Add? ==> Issued(s, Apply(s, op), op.deadline, op.callback)
  {
    if op.Add? {
      assert Apply(s, op).ledger[|s.ledger|].deadline == op.deadline;
    }
  }

  lemma {:induction false} RunOpsKeepsRecords(s: State, ops: seq<Op>)
    ensures Records(s, RunOps(s, ops))
    decreases |ops|
  {
    hide Apply, Issued;
    if ops != [] {
      var t := Apply(s, ops[0]);
      ApplyKeepsRecords(s, ops[0]);
      RunOpsKeepsRecords(t, ops[1..]);
      IssuedThen(s, t, RunOps(t, ops[1..]), 0, 0);
    }
  }

  /** What a callback adds is issued. */
  lemma {:induction false} RunOpsIssuesAdditions(s: State, ops: seq<Op>, deadline: int, callback: nat, clock: Clock)
    requires Add(deadline, callback, clock) in ops
    ensures Issued(s, RunOps(s, ops), deadline, callback)
    decreases |ops|
  {
    hide Apply, Records, Issued;
    var t := Apply(s, ops[0]);
    ApplyKeepsRecords(s, ops[0]);
    RunOpsKeepsRecords(t, ops[1..]);
    IssuedThen(s, t, RunOps(t, ops[1..]), deadline, callback);
    if ops[0] != Add(deadline, callback, clock) {
      RunOpsIssuesAdditions(t, ops[1..], deadline, callback, clock);
    }
  }

  lemma {:induction false} TraverseKeepsRecords(s: State, i: nat, now: int, behave: nat -> seq<Op>)
    requires s.processing && i <= |s.list|
    ensures Records(s, Traverse(s, i, now, behave).0)
    decreases |s.list| - i
  {
    if i < |s.list| {
      if s.list[i].remove {
        TraverseKeepsRecords(s, i + 1, now, behave);
      } else if s.list[i].deadline <= now {
        var b, ops := Begin(s, i, now), behave(s.list[i].id);
        var c := RunOps(b, ops);
        RunOpsKeepsRecords(b, ops);
        assert Records(s, b);
        assert c.processing && |c.list| == |s.list|;
        hide Begin, RunOps, Frozen, Records, Issued;
        TraverseKeepsRecords(c, i + 1, now, behave);
        IssuedThen(s, b, c, 0, 0);
        IssuedThen(s, c, Traverse(c, i + 1, now, behave).0, 0, 0);
      }
    }
  }

  lemma {:induction false} MergeKeepsRecords(s: State)
    ensures Records(s, Merge(s))
    decreases |s.pending|
  {
    if s.pending != [] {
      var t := MergeOne(s);
      assert Records(s, t);
      MergeKeepsRecords(t);
      hide MergeOne, Issued;
      IssuedThen(s, t, Merge(t), 0, 0);
    }
  }

  lemma FinishKeepsRecords(s: State, i: nat, clock: Clock, v: Variant)
    requires i <= |s.list|
    ensures Records(s, Finish(s, i, clock, v))
  {
    MergeKeepsRecords(Prune(ErasePassed(s, i, v)));
    assert Records(s, ErasePassed(s, i, v));
    hide Merge, Unmarked, ErasePassed, Issued;
    IssuedThen(s, Prune(ErasePassed(s, i, v)), Merge(Prune(ErasePassed(s, i, v))), 0, 0);
  }

  lemma StepKeepsRecords(s: State, event: Event, v: Variant)
    ensures Records(s, Step(s, event, v))
  {
    match event
    case Call(op) => ApplyKeepsRecords(s, op);
    case Fire(now, behave, clock) =>
      var (u, i) := Traversed(s, now, behave);
      TraverseKeepsRecords(s.(processing := true, timer := Idle), 0, now, behave);
      FinishKeepsRecords(u, i, clock, v);
      hide Traverse, Finish;
  }

  lemma {:induction false} RunKeepsRecords(s: State, events: seq<Event>, v: Variant)
    ensures Records(s, Run(s, events, v))
    decreases |events|
  {
    hide Step, Issued;
    if events != [] {
      var t := Step(s, events[0], v);
      StepKeepsRecords(s, events[0], v);
      RunKeepsRecords(t, events[1..], v);
      IssuedThen(s, t, Run(t, events[1..], v), 0, 0);
    }
  }

  /** What the callbacks of these executions do, one after another. */
  function Performed(runs: seq<Execution>, behave: nat -> seq<Op>): seq<Op> {
    if runs == [] then [] else behave(runs[0].id) + Performed(runs[1..], behave)
  }

  lemma LogFirst(log: seq<Execution>, e: Execution, all: seq<Execution>)
    requires log + [e] <= all
    ensures log <= all && all[|log|..] == [e] + all[|log| + 1..]
  {
    assert all[..|log| + 1] == log + [e];
  }

  lemma {:induction false} TraverseIssuesAdditions(s: State, i: nat, now: int, behave: nat -> seq<Op>,
                                                   deadline: int, callback: nat, clock: Clock)
    requires s.processing && i <= |s.list|
    ensures var t := Traverse(s, i, now, behave).0;
            && s.log <= t.log
            && (Add(deadline, callback, clock) in Performed(t.log[|s.log|..], behave) ==>
                  Issued(s, t, deadline, callback))
    decreases |s.list| - i
  {
    assert s.log[|s.log|..] == [];
    if i < |s.list| {
      if s.list[i].remove {
        TraverseIssuesAdditions(s, i + 1, now, behave, deadline, callback, clock);
      } else if s.list[i].deadline <= now {
        var b, ops := Begin(s, i, now), behave(s.list[i].id);
        var c, e := RunOps(b, ops), Execution(s.list[i].id, s.list[i].callback, now);
        assert Records(s, b);
        assert c.processing && |c.list| == |s.list| && c.log == s.log + [e];
        RunOpsKeepsRecords(b, ops);
        if Add(deadline, callback, clock) in ops {
          RunOpsIssuesAdditions(b, ops, deadline, callback, clock);
        }
        hide Begin, RunOps, Frozen, Records, Issued;
        TraverseKeepsRecords(c, i + 1, now, behave);
        TraverseIssuesAdditions(c, i + 1, now, behave, deadline, callback, clock);
        var t := Traverse(c, i + 1, now, behave).0;
        IssuedThen(s, b, c, deadline, callback);
        IssuedThen(s, c, t, deadline, callback);
        LogFirst(s.log, e, t.log);
        assert ([e] + t.log[|c.log|..])[1..] == t.log[|c.log|..];
      }
    }
  }

  /** What the callbacks of a pass add, the pass issues. */
  lemma PassIssuesAdditions(s: State, now: int, behave: nat -> seq<Op>, after: Clock, v: Variant,
                            deadline: int, callback: nat, clock: Clock)
    requires var t := Pass(s, now, behave, after, v);
             s.log <= t.log && Add(deadline, callback, clock) in Performed(t.log[|s.log|..], behave)
    ensures Issued(s, Pass(s, now, behave, after, v), deadline, callback)
  {
    var begun := s.(processing := true, timer := Idle);
    var (u, i) := Traversed(s, now, behave);
    TraverseKeepsRecords(begun, 0, now, behave);
    TraverseIssuesAdditions(begun, 0, now, behave, deadline, callback, clock);
    FinishKeepsRecords(u, i, after, v);
    MergeLog(Prune(ErasePassed(u, i, v)));
    hide Traverse, Finish, Records;
    IssuedThen(begun, u, Finish(u, i, after, v), deadline, callback);
  }
}
