/** What each request to the periodic timeouts does, told without the queue's own
    functions, and what stays as it was. */
module PeriodicEffects {
  import opened MonotonicTimer
  import opened PeriodicTimeouts
  import opened PeriodicProofs

  // -------------------------------------------------------------------- removals

  /** A handle that is still wanted. */
  ghost predicate Wanted(s: State, id: nat) {
    id < |s.ledger| && !s.ledger[id].removed
  }

  /** b is a without one entry of the handle, if it has one; the others stay in order. */
  ghost predicate TakenOut(a: seq<Entry>, b: seq<Entry>, id: nat) {
    if Has(a, id) then exists i :: 0 <= i < |a| && a[i].id == id && b == a[..i] + a[i + 1..] else b == a
  }

  lemma EraseTakesOut(list: seq<Entry>, id: nat)
    requires Distinct(list)
    ensures var i := IndexOf(list, id);
            && (i < |list| <==> Has(list, id))
            && TakenOut(list, if i < |list| then Erase(list, i) else list, id)
            && !Has(if i < |list| then Erase(list, i) else list, id)
  {
    var i := IndexOf(list, id);
    if i < |list| {
      assert list[i] in list;
      EraseMembers(list, i);
    }
  }

  lemma WantedIsSomewhere(s: State, id: nat)
    requires Core(s) && Wanted(s, id)
    ensures Has(s.list, id) || Has(s.pending, id)
  {}

  /** Whatever is removed: the record of a wanted handle says so afterwards, and nothing
      else of the history changes, nor does the timer. */
  lemma RemovalIsRecorded(s: State, id: nat)
    requires Core(s)
    ensures var t := RemovePeriodic(s, id);
            && t.log == s.log && t.timer == s.timer && t.processing == s.processing
            && t.ledger == if Wanted(s, id) then s.ledger[id := s.ledger[id].(removed := true)] else s.ledger
  {
    var i, j := IndexOf(s.list, id), IndexOf(s.pending, id);
    if Wanted(s, id) {
      WantedIsSomewhere(s, id);
    }
    if i < |s.list| {
      assert s.list[i] in s.list;
    } else if j < |s.pending| {
      assert Registered(s, s.pending[j]);
    }
    hide IndexOf, Erase;
  }

  /** Outside a pass a removal takes the handle's entry out of the queue. */
  lemma RemovalOutside(s: State, id: nat)
    requires Inv(s)
    ensures var t := RemovePeriodic(s, id);
            TakenOut(s.list, t.list, id) && !Has(t.list, id) && t.pending == []
  {
    EraseTakesOut(s.list, id);
    hide Core, IndexOf, Erase, TakenOut, Has;
  }

  /** During one it marks the handle's entry, or takes a held-back addition back. */
  lemma RemovalInside(s: State, id: nat)
    requires Core(s) && s.processing
    ensures var t := RemovePeriodic(s, id);
            && |t.list| == |s.list|
            && (forall k :: 0 <= k < |s.list| ==>
                  t.list[k] == if s.list[k].id == id then s.list[k].(remove := true) else s.list[k])
            && if Has(s.list, id) then t.pending == s.pending
               else TakenOut(s.pending, t.pending, id) && !Has(t.pending, id)
  {
    var i := IndexOf(s.list, id);
    assert Distinct(s.pending);
    EraseTakesOut(s.pending, id);
    EraseTakesOut(s.list, id);
    hide Core, IndexOf, Erase, TakenOut, Has;
  }

  /** Over every run: a wanted handle that is removed is removed for good, and its
      callback never starts again. */
  lemma RemovedNeverStarts(s: State, id: nat, events: seq<Event>, sort: seq<Entry> -> seq<Entry>)
    requires Inv(s) && IsSort(sort) && Wanted(s, id)
    ensures var t := Run(Step(s, Call(Remove(id)), sort), events, sort);
            IsRemoved(t, id) && Silent(t.log, |s.log|, id)
  {
    var u := RemovePeriodic(s, id);
    RemovalIsRecorded(s, id);
    StepKeeps(s, Call(Remove(id)), sort);
    hide Inv, IsSort, RemovePeriodic, Run;
    RemovedStaysSilent(u, events, sort, id);
  }

  // ------------------------------------------------------------------- additions

  /** The entry that an addition makes. */
  function Asked(s: State, period: int, callback: nat, now: int): Entry {
    Entry(|s.ledger|, period, now + period, callback, false, false)
  }

  /** An addition issues the next handle, for the period and the callback asked for. */
  lemma AdditionIsRecorded(s: State, period: int, callback: nat, now: int, clock: Clock)
    ensures var t := AddPeriodic(s, period, callback, now, clock);
            && t.ledger == s.ledger + [Record(period, callback, false)]
            && t.log == s.log && t.processing == s.processing
  {}

  /** b is a with e put behind everything earlier and before everything else. */
  ghost predicate PutIn(a: seq<Entry>, e: Entry, b: seq<Entry>) {
    exists k :: 0 <= k <= |a| && b == a[..k] + [e] + a[k..] && Divides(a, k, e.deadline)
  }

  ghost predicate Divides(a: seq<Entry>, k: nat, deadline: int) {
    && (forall i :: 0 <= i < k && i < |a| ==> a[i].deadline < deadline)
    && (forall i :: k <= i < |a| ==> a[i].deadline >= deadline)
  }

  lemma FrontIsEarliest(list: seq<Entry>, deadline: int)
    requires Sorted(list)
    ensures (forall k :: 0 <= k < |list| ==> deadline < list[k].deadline) <==> list == [] || list[0].deadline > deadline
  {
    assert forall i :: 0 < i < |list| ==> list[0].deadline <= list[i].deadline;
  }

  lemma InsertPutsIn(list: seq<Entry>, e: Entry)
    requires Sorted(list)
    ensures PutIn(list, e, Insert(list, e))
  {
    var k := LowerBound(list, e.deadline);
    assert Divides(list, k, e.deadline);
  }

  /** Outside a pass it is queued for one period after now; the timer is armed for it if
      it is now the earliest of all, and left alone otherwise. */
  lemma AdditionOutside(s: State, period: int, callback: nat, now: int, clock: Clock)
    requires Inv(s)
    ensures var t := AddPeriodic(s, period, callback, now, clock);
            && PutIn(s.list, Asked(s, period, callback, now), t.list) && t.pending == []
            && t.timer == if forall k :: 0 <= k < |s.list| ==> now + period < s.list[k].deadline
                          then Armed(now + period, clock) else s.timer
  {
    assert s.pending == [] && !s.processing && Sorted(s.list);
    hide Inv, Insert, PutIn, Sorted;
    InsertPutsIn(s.list, Asked(s, period, callback, now));
    FrontIsEarliest(s.list, now + period);
  }

  /** During one it is held back behind the others. */
  lemma AdditionInside(s: State, period: int, callback: nat, now: int, clock: Clock)
    requires s.processing
    ensures var t := AddPeriodic(s, period, callback, now, clock);
            && t.list == s.list && t.timer == s.timer
            && t.pending == s.pending + [Asked(s, period, callback, now)]
  {}

  // ------------------------------------------------------------------- the timer

  lemma {:induction false} MergeTimer(s: State)
    ensures Merge(s).timer == s.timer
    decreases |s.pending|
  {
    if s.pending != [] { MergeTimer(MergeOne(s)); }
  }

  lemma {:induction false} TraverseTimer(s: State, i: nat, now: int, behave: nat -> seq<Op>)
    requires s.processing && i <= |s.list|
    ensures Traverse(s, i, now, behave).0.timer == s.timer
    decreases |s.list| - i
  {
    if i < |s.list| {
      if s.list[i].remove {
        TraverseTimer(s, i + 1, now, behave);
      } else if s.list[i].deadline <= now {
        TraverseTimer(RunOps(Begin(s, i, now), behave(s.list[i].id)), i + 1, now, behave);
      }
    }
  }

  /** After a pass the timer is armed for exactly the earliest deadline, and off if there
      is none. */
  lemma PassRearms(s: State, now: int, later: int, behave: nat -> seq<Op>, clock: Clock,
                   sort: seq<Entry> -> seq<Entry>)
    ensures var t := Pass(s, now, later, behave, clock, sort);
            t.timer == if t.list == [] then Idle else Armed(t.list[0].deadline, clock)
  {
    TraverseTimer(s.(processing := true, timer := Idle), 0, now, behave);
    MergeTimer(Renew(Traversed(s, now, behave).0, later, sort));
    hide Traverse, Merge, Unmarked;
  }

  // ------------------------------------------------------------ one period at least

  /** The first execution of the handle from position `start` on is at `due` or later. */
  ghost predicate FirstNotBefore(log: seq<Execution>, start: nat, id: nat, due: int) {
    forall k :: start <= k < |log| && log[k].id == id && Quiet(log, start, k, id) ==> log[k].at >= due
  }

  ghost predicate Quiet(log: seq<Execution>, start: nat, end: nat, id: nat) {
    forall j :: start <= j < end && j < |log| ==> log[j].id != id
  }

  /** Until its callback starts, the handle's entry keeps its deadline. */
  ghost predicate Awaits(s: State, start: nat, id: nat, due: int) {
    && start <= |s.log| && id < |s.ledger|
    && FirstNotBefore(s.log, start, id, due)
    && (Silent(s.log, start, id) ==> forall x :: x in s.list && x.id == id ==> x.deadline == due)
  }

  lemma CallAwaits(s: State, op: Op, start: nat, id: nat, due: int)
    requires Inv(s) && Awaits(s, start, id, due)
    ensures Awaits(Apply(s, op), start, id, due)
  {
    match op
    case Add(period, callback, now, clock) =>
      InsertMembers(s.list, Asked(s, period, callback, now));
    case Remove(r) =>
      if IndexOf(s.list, r) < |s.list| {
        EraseMembers(s.list, IndexOf(s.list, r));
      }
  }

  /** What a pass logs of one handle: nothing, or one execution at `now` of an entry
      that is due. */
  lemma PassLogsOnce(s: State, now: int, later: int, behave: nat -> seq<Op>, clock: Clock,
                     sort: seq<Entry> -> seq<Entry>, id: nat)
    requires Inv(s) && IsSort(sort)
    ensures var t := Pass(s, now, later, behave, clock, sort);
            && s.log <= t.log
            && forall k :: |s.log| <= k < |t.log| && t.log[k].id == id ==>
                 t.log[k].at == now && exists x :: x in s.list && x.id == id && x.deadline <= now
  {
    var pos := PassOutcome(s, now, later, behave, clock, sort);
    var t := Pass(s, now, later, behave, clock, sort);
    hide Pass, Inv, IsSort;
    forall k | |s.log| <= k < |t.log| && t.log[k].id == id
      ensures t.log[k].at == now && exists x :: x in s.list && x.id == id && x.deadline <= now
    {
      var p := pos[k - |s.log|];
      assert t.log[|s.log| + (k - |s.log|)] == Execution(s.list[p].id, s.list[p].callback, now);
      assert s.list[p] in s.list;
    }
  }

  /** A pass in which the handle does not run leaves its entry's deadline. */
  lemma PassKeepsDeadline(s: State, now: int, later: int, behave: nat -> seq<Op>, clock: Clock,
                          sort: seq<Entry> -> seq<Entry>, id: nat, x: Entry)
    requires Inv(s) && IsSort(sort) && id < |s.ledger|
    requires var t := Pass(s, now, later, behave, clock, sort);
             x in t.list && x.id == id && Silent(t.log, |s.log|, id)
    ensures x in s.list
  {
    PassAddsOnlyNew(s, now, later, behave, clock, sort, x);
    var k :| 0 <= k < |s.list| && s.list[k].id == id;
    var pos := PassOutcome(s, now, later, behave, clock, sort);
    PassKeeps(s, now, later, behave, clock, sort);
    var t := Pass(s, now, later, behave, clock, sort);
    ListedOnce(t, x, Following(s.list[k], now, later));
    hide Pass, Inv, IsSort, LogsInOrder;
    if k in pos {
      RanIsHeard(s, t.log, pos, now, k);
    }
  }

  lemma ListedOnce(t: State, x: Entry, y: Entry)
    requires Inv(t) && x in t.list
    ensures x.id < |t.ledger| && !t.ledger[x.id].removed
    ensures y in t.list && y.id == x.id ==> y == x
  {
    var i :| 0 <= i < |t.list| && t.list[i] == x;
    if y in t.list && y.id == x.id {
      var j :| 0 <= j < |t.list| && t.list[j] == y;
      assert i == j;
    }
  }

  lemma PassAwaits(s: State, now: int, later: int, behave: nat -> seq<Op>, clock: Clock,
                   sort: seq<Entry> -> seq<Entry>, start: nat, id: nat, due: int)
    requires Inv(s) && IsSort(sort) && Awaits(s, start, id, due)
    ensures Awaits(Pass(s, now, later, behave, clock, sort), start, id, due)
  {
    var t := Pass(s, now, later, behave, clock, sort);
    PassLogsOnce(s, now, later, behave, clock, sort, id);
    PassParts(s, now, later, behave, clock, sort);
    hide Pass, Inv, IsSort;
    assert |s.ledger| <= |t.ledger|;
    forall k | start <= k < |t.log| && t.log[k].id == id && Quiet(t.log, start, k, id) ensures t.log[k].at >= due {
      if k < |s.log| {
        assert t.log[k] == s.log[k];
        assert forall j :: start <= j < k ==> t.log[j] == s.log[j];
      } else {
        SilentBefore(s.log, t.log, start, k, id);
      }
    }
    if Silent(t.log, start, id) {
      assert Silent(s.log, start, id) by {
        forall j | start <= j < |s.log| ensures s.log[j].id != id {
          assert t.log[j] == s.log[j];
        }
      }
      forall x | x in t.list && x.id == id ensures x.deadline == due {
        PassKeepsDeadline(s, now, later, behave, clock, sort, id, x);
      }
    }
  }

  lemma SilentBefore(log: seq<Execution>, all: seq<Execution>, start: nat, k: nat, id: nat)
    requires log <= all && |log| <= k && Quiet(all, start, k, id)
    ensures Silent(log, start, id)
  {
    forall j | start <= j < |log| ensures log[j].id != id {
      assert all[j] == log[j];
    }
  }

  lemma {:induction false} RunAwaits(s: State, events: seq<Event>, sort: seq<Entry> -> seq<Entry>,
                                     start: nat, id: nat, due: int)
    requires Inv(s) && IsSort(sort) && Awaits(s, start, id, due)
    ensures Awaits(Run(s, events, sort), start, id, due)
    decreases |events|
  {
    if events != [] {
      StepKeeps(s, events[0], sort);
      match events[0] {
        case Call(op) => CallAwaits(s, op, start, id, due);
        case Fire(now, later, behave, clock) => PassAwaits(s, now, later, behave, clock, sort, start, id, due);
      }
      hide Inv, IsSort, Awaits, Pass, Apply;
      RunAwaits(Step(s, events[0], sort), events[1..], sort, start, id, due);
    }
  }

  /** Over every run: after a pass that ran a callback nobody removed, it does not start
      again before one period has passed since that pass renewed it. */
  lemma OnePeriodApart(s: State, k: nat, now: int, later: int, behave: nat -> seq<Op>, clock: Clock,
                       sort: seq<Entry> -> seq<Entry>, events: seq<Event>)
    requires Inv(s) && IsSort(sort) && k < |s.list| && s.list[k].deadline <= now
    ensures var t := Pass(s, now, later, behave, clock, sort);
            s.list[k].id < |t.ledger| && !t.ledger[s.list[k].id].removed ==>
              FirstNotBefore(Run(t, events, sort).log, |t.log|, s.list[k].id, later + s.list[k].period)
  {
    var t, id, due := Pass(s, now, later, behave, clock, sort), s.list[k].id, later + s.list[k].period;
    var pos := PassOutcome(s, now, later, behave, clock, sort);
    PassKeeps(s, now, later, behave, clock, sort);
    if id < |t.ledger| && !t.ledger[id].removed {
      forall x | x in t.list && x.id == id ensures x.deadline == due {
        ListedOnce(t, x, Following(s.list[k], now, later));
      }
      hide Inv, IsSort, Pass;
      RunAwaits(t, events, sort, |t.log|, id, due);
    }
  }

  // ------------------------------------------------- what is added is issued, always

  /** No record changes what it was asked for. */
  ghost predicate Records(s: State, t: State) {
    && |s.ledger| <= |t.ledger|
    && forall id :: 0 <= id < |s.ledger| ==>
         t.ledger[id].period == s.ledger[id].period && t.ledger[id].callback == s.ledger[id].callback
  }

  /** Between the two states a handle was issued for it. */
  ghost predicate Issued(s: State, t: State, period: int, callback: nat) {
    exists id :: |s.ledger| <= id < |t.ledger| && t.ledger[id].period == period && t.ledger[id].callback == callback
  }

  lemma IssuedThen(s: State, t: State, u: State, period: int, callback: nat)
    requires Records(s, t) && Records(t, u)
    ensures Records(s, u)
    ensures Issued(s, t, period, callback) || Issued(t, u, period, callback) ==> Issued(s, u, period, callback)
  {
    if Issued(s, t, period, callback) {
      var id :| |s.ledger| <= id < |t.ledger| && t.ledger[id].period == period && t.ledger[id].callback == callback;
      assert u.ledger[id].period == period;
    }
  }

  lemma ApplyKeepsRecords(s: State, op: Op)
    ensures Records(s, Apply(s, op))
    ensures op.Add? ==> Issued(s, Apply(s, op), op.period, op.callback)
  {
    if op.Add? {
      assert Apply(s, op).ledger[|s.ledger|].period == op.period;
    }
  }

  lemma {:induction false} RunOpsKeepsRecords(s: State, ops: seq<Op>)
    ensures Records(s, RunOps(s, ops))
    decreases |ops|
  {
    hide Apply, Issued;
    if ops != [] {
      var t := Apply(s, ops[0]);
      ApplyKeepsRecords(s, ops[0]);
      RunOpsKeepsRecords(t, ops[1..]);
      IssuedThen(s, t, RunOps(t, ops[1..]), 0, 0);
    }
  }

  /** What a callback adds is issued. */
  lemma {:induction false} RunOpsIssuesAdditions(s: State, ops: seq<Op>, period: int, callback: nat, at: int,
                                                 clock: Clock)
    requires Add(period, callback, at, clock) in ops
    ensures Issued(s, RunOps(s, ops), period, callback)
    decreases |ops|
  {
    hide Apply, Records, Issued;
    var t := Apply(s, ops[0]);
    ApplyKeepsRecords(s, ops[0]);
    RunOpsKeepsRecords(t, ops[1..]);
    IssuedThen(s, t, RunOps(t, ops[1..]), period, callback);
    if ops[0] != Add(period, callback, at, clock) {
      RunOpsIssuesAdditions(t, ops[1..], period, callback, at, clock);
    }
  }

  lemma {:induction false} TraverseKeepsRecords(s: State, i: nat, now: int, behave: nat -> seq<Op>)
    requires s.processing && i <= |s.list|
    ensures Records(s, Traverse(s, i, now, behave).0)
    decreases |s.list| - i
  {
    if i < |s.list| {
      if s.list[i].remove {
        TraverseKeepsRecords(s, i + 1, now, behave);
      } else if s.list[i].deadline <= now {
        var b, ops := Begin(s, i, now), behave(s.list[i].id);
        var c := RunOps(b, ops);
        RunOpsKeepsRecords(b, ops);
        assert Records(s, b);
        assert c.processing && |c.list| == |s.list|;
        hide Begin, RunOps, Frozen, Records, Issued;
        TraverseKeepsRecords(c, i + 1, now, behave);
        IssuedThen(s, b, c, 0, 0);
        IssuedThen(s, c, Traverse(c, i + 1, now, behave).0, 0, 0);
      }
    }
  }

  lemma {:induction false} MergeKeepsRecords(s: State)
    ensures Records(s, Merge(s))
    decreases |s.pending|
  {
    if s.pending != [] {
      var t := MergeOne(s);
      assert Records(s, t);
      MergeKeepsRecords(t);
      hide MergeOne, Issued;
      IssuedThen(s, t, Merge(t), 0, 0);
    }
  }

  lemma FinishKeepsRecords(s: State, later: int, clock: Clock, sort: seq<Entry> -> seq<Entry>)
    ensures Records(s, Rearm(Merge(Renew(s, later, sort)), clock))
  {
    MergeKeepsRecords(Renew(s, later, sort));
    hide Merge, Unmarked, ResetPrefix;
  }

  lemma StepKeepsRecords(s: State, event: Event, sort: seq<Entry> -> seq<Entry>)
    ensures Records(s, Step(s, event, sort))
  {
    match event
    case Call(op) => ApplyKeepsRecords(s, op);
    case Fire(now, later, behave, clock) =>
      TraverseKeepsRecords(s.(processing := true, timer := Idle), 0, now, behave);
      FinishKeepsRecords(Traversed(s, now, behave).0, later, clock, sort);
      hide Traverse, Merge, Renew;
  }

  lemma {:induction false} RunKeepsRecords(s: State, events: seq<Event>, sort: seq<Entry> -> seq<Entry>)
    ensures Records(s, Run(s, events, sort))
    decreases |events|
  {
    hide Step, Issued;
    if events != [] {
      var t := Step(s, events[0], sort);
      StepKeepsRecords(s, events[0], sort);
      RunKeepsRecords(t, events[1..], sort);
      IssuedThen(s, t, Run(t, events[1..], sort), 0, 0);
    }
  }

  /** What the callbacks of these executions do, one after another. */
  function Performed(runs: seq<Execution>, behave: nat -> seq<Op>): seq<Op> {
    if runs == [] then [] else behave(runs[0].id) + Performed(runs[1..], behave)
  }

  lemma LogFirst(log: seq<Execution>, e: Execution, all: seq<Execution>)
    requires log + [e] <= all
    ensures log <= all && all[|log|..] == [e] + all[|log| + 1..]
  {
    assert all[..|log| + 1] == log + [e];
  }

  lemma FirstIssues(s: State, c: State, t: State, e: Execution, behave: nat -> seq<Op>, op: Op)
    requires op.Add? && c.log == s.log + [e] <= t.log && Records(s, c) && Records(c, t)
    requires op in behave(e.id) ==> Issued(s, c, op.period, op.callback)
    requires op in Performed(t.log[|c.log|..], behave) ==> Issued(c, t, op.period, op.callback)
    ensures s.log <= t.log
    ensures op in Performed(t.log[|s.log|..], behave) ==> Issued(s, t, op.period, op.callback)
  {
    LogFirst(s.log, e, t.log);
    assert ([e] + t.log[|c.log|..])[1..] == t.log[|c.log|..];
    assert Performed(t.log[|s.log|..], behave) == behave(e.id) + Performed(t.log[|c.log|..], behave);
    hide Performed, Records, Issued;
    IssuedThen(s, c, t, op.period, op.callback);
  }

  lemma {:induction false} TraverseIssuesAdditions(s: State, i: nat, now: int, behave: nat -> seq<Op>,
                                                   period: int, callback: nat, at: int, clock: Clock)
    requires s.processing && i <= |s.list|
    ensures var t := Traverse(s, i, now, behave).0;
            && s.log <= t.log
            && (Add(period, callback, at, clock) in Performed(t.log[|s.log|..], behave) ==>
                  Issued(s, t, period, callback))
    decreases |s.list| - i
  {
    assert s.log[|s.log|..] == [];
    TraverseStep(s, i, now, behave);
    if i < |s.list| {
      hide Traverse, Frozen;
      if s.list[i].remove {
        TraverseIssuesAdditions(s, i + 1, now, behave, period, callback, at, clock);
      } else if s.list[i].deadline <= now {
        var b, ops := Begin(s, i, now), behave(s.list[i].id);
        var c, e := RunOps(b, ops), Execution(s.list[i].id, s.list[i].callback, now);
        assert Records(s, b);
        hide Begin, RunOps, Records, Issued, Performed;
        RunOpsKeepsRecords(b, ops);
        if Add(period, callback, at, clock) in ops {
          RunOpsIssuesAdditions(b, ops, period, callback, at, clock);
        }
        TraverseKeepsRecords(c, i + 1, now, behave);
        TraverseIssuesAdditions(c, i + 1, now, behave, period, callback, at, clock);
        IssuedThen(s, b, c, period, callback);
        FirstIssues(s, c, Traverse(c, i + 1, now, behave).0, e, behave, Add(period, callback, at, clock));
      }
    }
  }

  /** What the callbacks of a pass add, the pass issues. */
  lemma PassIssuesAdditions(s: State, now: int, later: int, behave: nat -> seq<Op>, after: Clock,
                            sort: seq<Entry> -> seq<Entry>, period: int, callback: nat, at: int, clock: Clock)
    requires var t := Pass(s, now, later, behave, after, sort);
             s.log <= t.log && Add(period, callback, at, clock) in Performed(t.log[|s.log|..], behave)
    ensures Issued(s, Pass(s, now, later, behave, after, sort), period, callback)
  {
    var begun := s.(processing := true, timer := Idle);
    var u := Traversed(s, now, behave).0;
    TraverseKeepsRecords(begun, 0, now, behave);
    TraverseIssuesAdditions(begun, 0, now, behave, period, callback, at, clock);
    FinishKeepsRecords(u, later, after, sort);
    PassParts(s, now, later, behave, after, sort);
    hide Traverse, Pass, Records;
    IssuedThen(begun, u, Pass(s, now, later, behave, after, sort), period, callback);
  }
}
