/** What every run of the one-shot timeouts keeps. */
module OneShotProofs {
  import opened MonotonicTimer
  import opened OneShotTimeouts

  // ------------------------------------------------------------ the invariant

  ghost predicate Registered(s: State, e: Entry) {
    e.id < |s.ledger| && s.ledger[e.id].deadline == e.deadline && s.ledger[e.id].callback == e.callback
  }

  ghost predicate Has(list: seq<Entry>, start: nat, id: nat) {
    exists i :: start <= i < |list| && list[i].id == id
  }

  ghost predicate Logged(log: seq<Execution>, id: nat) {
    exists k :: 0 <= k < |log| && log[k].id == id
  }

  /** The queue, with its first `done` entries already passed by a traversal. */
  ghost predicate QueueOk(s: State, done: nat) {
    && done <= |s.list|
    && Sorted(s.list)
    && (forall i :: 0 <= i < |s.list| ==> Registered(s, s.list[i]))
    && (forall i :: 0 <= i < done ==> s.ledger[s.list[i].id].fate in {Ran, Removed})
    && (forall i :: done <= i < |s.list| ==>
          s.ledger[s.list[i].id].fate == if s.list[i].remove then Removed else Queued)
  }

  /** The held-back additions: in order of issue, all newer than the queue. */
  ghost predicate PendingOk(s: State) {
    && (forall j :: 0 <= j < |s.pending| ==>
          Registered(s, s.pending[j]) && !s.pending[j].remove && s.ledger[s.pending[j].id].fate == Pending)
    && (forall j, k :: 0 <= j < k < |s.pending| ==> s.pending[j].id < s.pending[k].id)
    && (forall i, j :: 0 <= i < |s.list| && 0 <= j < |s.pending| ==> s.list[i].id < s.pending[j].id)
  }

  /** Nothing ran twice, before its deadline, or with another handle's callback. */
  ghost predicate LogOk(s: State) {
    && (forall k :: 0 <= k < |s.log| ==>
          && s.log[k].id < |s.ledger|
          && s.ledger[s.log[k].id].fate == Ran
          && s.ledger[s.log[k].id].callback == s.log[k].callback
          && s.ledger[s.log[k].id].deadline <= s.log[k].at)
    && (forall k, l :: 0 <= k < l < |s.log| ==> s.log[k].id != s.log[l].id)
  }

  /** The ledger does not lie: what it calls queued, pending or run is in the
      queue, in the held-back additions or in the log. */
  ghost predicate Located(s: State, done: nat) {
    QueuedHas(s, done) && PendingHas(s) && RanHas(s)
  }

  ghost predicate QueuedHas(s: State, done: nat) {
    forall id {:trigger Has(s.list, done, id)} ::
      0 <= id < |s.ledger| && s.ledger[id].fate == Queued ==> Has(s.list, done, id)
  }

  ghost predicate PendingHas(s: State) {
    forall id {:trigger Has(s.pending, 0, id)} ::
      0 <= id < |s.ledger| && s.ledger[id].fate == Pending ==> Has(s.pending, 0, id)
  }

  ghost predicate RanHas(s: State) {
    forall id {:trigger Logged(s.log, id)} ::
      0 <= id < |s.ledger| && s.ledger[id].fate == Ran ==> Logged(s.log, id)
  }

  ghost predicate Core(s: State, done: nat) {
    QueueOk(s, done) && PendingOk(s) && LogOk(s) && Located(s, done)
  }

  ghost predicate NoMarks(s: State) {
    forall i :: 0 <= i < |s.list| ==> !s.list[i].remove
  }

  /** The wake-up: a queue with entries has its timer armed, or expired and
      unread, for a deadline no later than its earliest. */
  ghost predicate WakeUp(s: State) {
    s.list != [] ==> s.timer.Armed? && s.timer.aim <= s.list[0].deadline
  }

  /** Outside a traversal. */
  ghost predicate Quiet(s: State) {
    !s.processing && s.pending == [] && NoMarks(s) && WakeUp(s)
  }

  ghost predicate Inv(s: State) {
    Core(s, 0) && Quiet(s)
  }

  lemma InitialInv(s: State)
    requires s == INITIAL
    ensures Inv(s)
  {}

  // ------------------------------------------------------------ what is untouched

  /** The same handles have the fate in both states, with the same records. */
  ghost predicate SameOf(s: State, t: State, fate: Fate) {
    && |s.ledger| <= |t.ledger|
    && (forall id :: 0 <= id < |s.ledger| && s.ledger[id].fate == fate ==> t.ledger[id] == s.ledger[id])
    && (forall id :: 0 <= id < |t.ledger| && t.ledger[id].fate == fate ==> id < |s.ledger| && s.ledger[id].fate == fate)
  }

  lemma FrameLog(s: State, t: State)
    requires LogOk(s) && RanHas(s) && t.log == s.log && SameOf(s, t, Ran)
    ensures LogOk(t) && RanHas(t)
  {}

  lemma FramePending(s: State, t: State)
    requires PendingOk(s) && PendingHas(s) && t.pending == s.pending && SameOf(s, t, Pending)
    requires forall i :: 0 <= i < |t.list| ==> Has(s.list, 0, t.list[i].id)
    ensures PendingOk(t) && PendingHas(t)
  {
    forall i, j | 0 <= i < |t.list| && 0 <= j < |t.pending| ensures t.list[i].id < t.pending[j].id {
      assert Has(s.list, 0, t.list[i].id);
    }
  }

  // -------------------------------------------------------- single operations

  lemma InsertAt(list: seq<Entry>, e: Entry, i: nat)
    requires i <= |list|
    ensures var k := LowerBound(list, e.deadline);
            Insert(list, e)[i] == if i < k then list[i] else if i == k then e else list[i - 1]
  {}

  lemma InsertMembers(list: seq<Entry>, e: Entry)
    ensures forall x :: x in Insert(list, e) <==> x == e || x in list
  {
    var k := LowerBound(list, e.deadline);
    assert list == list[..k] + list[k..];
  }

  lemma InsertOrdered(list: seq<Entry>, e: Entry)
    requires Sorted(list)
    requires forall i :: 0 <= i < |list| ==> list[i].id < e.id
    ensures Sorted(Insert(list, e))
  {
    var k := LowerBound(list, e.deadline);
    var r := Insert(list, e);
    forall i, j | 0 <= i < j < |r| ensures Before(r[i], r[j]) {
      InsertAt(list, e, i);
      InsertAt(list, e, j);
      if i == k {
        assert list[j - 1] == list[k] || Before(list[k], list[j - 1]);
      }
    }
  }

  lemma HasIn(list: seq<Entry>, id: nat)
    ensures Has(list, 0, id) <==> exists e :: e in list && e.id == id
  {
    if Has(list, 0, id) {
      var i :| 0 <= i < |list| && list[i].id == id;
      assert list[i] in list;
    }
  }

  lemma IssueKeeps(s: State, t: State, done: nat)
    requires QueueOk(s, done) && LogOk(s)
    requires t.list == s.list && t.log == s.log && s.ledger <= t.ledger
    ensures QueueOk(t, done) && LogOk(t)
  {}

  /** Adding while a traversal is under way. */
  lemma AddPendingKeeps(s: State, deadline: int, callback: nat, clock: Clock, done: nat)
    requires Core(s, done) && s.processing
    ensures Core(AddTimeout(s, deadline, callback, clock), done)
  {
    var t := AddTimeout(s, deadline, callback, clock);
    IssueKeeps(s, t, done);
    hide QueueOk, LogOk;
    assert t.pending[|s.pending|].id == |s.ledger|;
    assert PendingOk(t) by {
      assert forall i :: 0 <= i < |s.list| ==> Registered(s, s.list[i]) by { QueueRegistered(s, done); }
    }
    forall id | 0 <= id < |t.ledger| && t.ledger[id].fate == Pending
      ensures Has(t.pending, 0, id)
    {
      if id < |s.ledger| {
        assert Has(s.pending, 0, id);
        var i :| 0 <= i < |s.pending| && s.pending[i].id == id;
        assert t.pending[i].id == id;
      }
    }
  }

  lemma QueueRegistered(s: State, done: nat)
    requires QueueOk(s, done)
    ensures forall i :: 0 <= i < |s.list| ==> Registered(s, s.list[i])
  {}

  /** A new entry in the queue, whether added directly or moved from the held-back ones. */
  lemma InsertKeepsQueue(s: State, e: Entry, t: State)
    requires QueueOk(s, 0) && forall i :: 0 <= i < |s.list| ==> s.list[i].id < e.id
    requires t.list == Insert(s.list, e)
    requires Registered(t, e) && !e.remove && t.ledger[e.id].fate == Queued
    requires |s.ledger| <= |t.ledger|
    requires forall id :: 0 <= id < |s.ledger| && id != e.id ==> t.ledger[id] == s.ledger[id]
    ensures QueueOk(t, 0)
    ensures forall id :: Has(s.list, 0, id) || id == e.id ==> Has(t.list, 0, id)
  {
    InsertOrdered(s.list, e);
    InsertMembers(s.list, e);
    forall i | 0 <= i < |t.list|
      ensures Registered(t, t.list[i])
      ensures t.ledger[t.list[i].id].fate == if t.list[i].remove then Removed else Queued
    {
      assert t.list[i] in t.list;
      if t.list[i] != e {
        assert t.list[i] in s.list;
      }
    }
    forall id | Has(s.list, 0, id) || id == e.id ensures Has(t.list, 0, id) {
      HasIn(s.list, id);
      HasIn(t.list, id);
      assert e in t.list;
    }
  }

  lemma AddQueuedKeeps(s: State, deadline: int, callback: nat, clock: Clock)
    requires Inv(s)
    ensures Inv(AddTimeout(s, deadline, callback, clock))
  {
    var t := AddTimeout(s, deadline, callback, clock);
    var e := Entry(|s.ledger|, deadline, callback, false);
    InsertKeepsQueue(s, e, t);
    InsertAt(s.list, e, 0);
    forall i | 0 <= i < |t.list| ensures !t.list[i].remove {
      InsertMembers(s.list, e);
      assert t.list[i] in t.list;
    }
  }

  // ------------------------------------------------------------------ removal

  lemma DistinctIds(s: State, done: nat, i: nat)
    requires QueueOk(s, done) && i < |s.list|
    ensures forall j :: 0 <= j < |s.list| && j != i ==> s.list[j].id != s.list[i].id
  {
    forall j | 0 <= j < |s.list| && j != i ensures s.list[j].id != s.list[i].id {
      assert Before(s.list[i], s.list[j]) || Before(s.list[j], s.list[i]);
    }
  }

  lemma MarkQueue(s: State, id: nat, done: nat)
    requires QueueOk(s, done) && QueuedHas(s, done) && s.processing && IndexOf(s.list, id) < |s.list|
    ensures QueueOk(RemoveTimeout(s, id), done) && QueuedHas(RemoveTimeout(s, id), done)
  {
    var t := RemoveTimeout(s, id);
    var i := IndexOf(s.list, id);
    DistinctIds(s, done, i);
    hide IndexOf;
    forall a | 0 <= a < |t.ledger| && t.ledger[a].fate == Queued ensures Has(t.list, done, a) {
      assert Has(s.list, done, a);
      var k :| done <= k < |s.list| && s.list[k].id == a;
      assert t.list[k].id == a;
    }
  }

  lemma MarkKeeps(s: State, id: nat, done: nat)
    requires Core(s, done) && s.processing && IndexOf(s.list, id) < |s.list|
    ensures Core(RemoveTimeout(s, id), done)
  {
    var t := RemoveTimeout(s, id);
    var i := IndexOf(s.list, id);
    DistinctIds(s, done, i);
    assert Registered(s, s.list[i]);
    assert s.ledger[id].fate in {Queued, Ran, Removed};
    hide IndexOf;
    MarkQueue(s, id, done);
    hide QueueOk;
    FrameLog(s, t);
    hide LogOk, RanHas;
    forall k | 0 <= k < |t.list| ensures Has(s.list, 0, t.list[k].id) {
      assert t.list[k].id == s.list[k].id;
    }
    FramePending(s, t);
  }

  lemma EraseAt(list: seq<Entry>, i: nat, j: nat)
    requires i < |list| && j < |list| - 1
    ensures Erase(list, i)[j] == list[if j < i then j else j + 1]
  {}

  lemma EraseHas(list: seq<Entry>, i: nat, id: nat)
    requires i < |list| && Has(list, 0, id) && list[i].id != id
    ensures Has(Erase(list, i), 0, id)
  {
    var k :| 0 <= k < |list| && list[k].id == id;
    var j := if k < i then k else k - 1;
    EraseAt(list, i, j);
  }

  lemma EraseQueue(s: State, id: nat)
    requires QueueOk(s, 0) && QueuedHas(s, 0) && !s.processing && IndexOf(s.list, id) < |s.list|
    ensures QueueOk(RemoveTimeout(s, id), 0) && QueuedHas(RemoveTimeout(s, id), 0)
  {
    var t := RemoveTimeout(s, id);
    var i := IndexOf(s.list, id);
    DistinctIds(s, 0, i);
    hide IndexOf;
    forall j | 0 <= j < |t.list| ensures t.list[j] == s.list[if j < i then j else j + 1] {
      EraseAt(s.list, i, j);
    }
    hide Erase;
    forall a | 0 <= a < |t.ledger| && t.ledger[a].fate == Queued ensures Has(t.list, 0, a) {
      EraseHas(s.list, i, a);
    }
  }

  lemma EraseQuiet(s: State, id: nat)
    requires Quiet(s) && Sorted(s.list) && IndexOf(s.list, id) < |s.list|
    ensures Quiet(RemoveTimeout(s, id))
  {
    var t := RemoveTimeout(s, id);
    var i := IndexOf(s.list, id);
    assert |s.list| > 1 ==> Before(s.list[0], s.list[1]);
    hide IndexOf, Sorted;
    forall j | 0 <= j < |t.list| ensures t.list[j] == s.list[if j < i then j else j + 1] {
      EraseAt(s.list, i, j);
    }
    hide Erase;
  }

  lemma EraseQueuedKeeps(s: State, id: nat)
    requires Inv(s) && IndexOf(s.list, id) < |s.list|
    ensures Inv(RemoveTimeout(s, id))
  {
    var t := RemoveTimeout(s, id);
    var i := IndexOf(s.list, id);
    assert Registered(s, s.list[i]) && s.ledger[id].fate == Queued;
    EraseQueue(s, id);
    EraseQuiet(s, id);
    hide QueueOk, QueuedHas, Quiet, IndexOf;
    FrameLog(s, t);
    hide LogOk, RanHas;
    forall j | 0 <= j < |t.list| ensures Has(s.list, 0, t.list[j].id) {
      EraseAt(s.list, i, j);
      assert s.list[if j < i then j else j + 1].id == t.list[j].id;
    }
    hide Erase;
    FramePending(s, t);
  }

  lemma FateKeeps(s: State, t: State, id: nat, fate: Fate, done: nat)
    requires QueueOk(s, done) && QueuedHas(s, done) && IndexOf(s.list, id) == |s.list|
    requires id < |s.ledger| && s.ledger[id].fate == Pending && fate != Queued
    requires t.list == s.list && t.ledger == SetFate(s.ledger, id, fate)
    ensures QueueOk(t, done) && QueuedHas(t, done)
  {
    hide IndexOf;
  }

  lemma ErasePending(s: State, id: nat)
    requires PendingOk(s) && PendingHas(s) && IndexOf(s.list, id) == |s.list| && IndexOf(s.pending, id) < |s.pending|
    ensures PendingOk(RemoveTimeout(s, id)) && PendingHas(RemoveTimeout(s, id))
  {
    var t := RemoveTimeout(s, id);
    var i := IndexOf(s.pending, id);
    hide IndexOf;
    forall j | 0 <= j < |t.pending| ensures t.pending[j] == s.pending[if j < i then j else j + 1] {
      EraseAt(s.pending, i, j);
    }
    hide Erase;
    forall a | 0 <= a < |t.ledger| && t.ledger[a].fate == Pending ensures Has(t.pending, 0, a) {
      EraseHas(s.pending, i, a);
    }
  }

  lemma ErasePendingKeeps(s: State, id: nat, done: nat)
    requires Core(s, done) && s.processing
    requires IndexOf(s.list, id) == |s.list| && IndexOf(s.pending, id) < |s.pending|
    ensures Core(RemoveTimeout(s, id), done)
  {
    var t := RemoveTimeout(s, id);
    assert Registered(s, s.pending[IndexOf(s.pending, id)]) && s.ledger[id].fate == Pending;
    ErasePending(s, id);
    hide PendingOk, PendingHas, IndexOf;
    FateKeeps(s, t, id, Removed, done);
    hide QueueOk, QueuedHas;
    FrameLog(s, t);
  }

  /** Every operation keeps the invariant, inside and outside a traversal. */
  lemma ApplyKeeps(s: State, op: Op, done: nat)
    requires Core(s, done)
    requires s.processing || (done == 0 && Quiet(s))
    ensures Core(Apply(s, op), done) && (!s.processing ==> Quiet(Apply(s, op)))
  {
    match op
    case Add(deadline, callback, clock) =>
      if s.processing {
        AddPendingKeeps(s, deadline, callback, clock, done);
      } else {
        AddQueuedKeeps(s, deadline, callback, clock);
      }
    case Remove(id) =>
      if IndexOf(s.list, id) < |s.list| {
        if s.processing { MarkKeeps(s, id, done); } else { EraseQueuedKeeps(s, id); }
      } else if IndexOf(s.pending, id) < |s.pending| {
        ErasePendingKeeps(s, id, done);
      }
  }

  lemma {:induction false} RunOpsKeeps(s: State, ops: seq<Op>, done: nat)
    requires Core(s, done) && s.processing
    ensures Core(RunOps(s, ops), done)
    decreases |ops|
  {
    if ops != [] {
      ApplyKeeps(s, ops[0], done);
      RunOpsKeeps(Apply(s, ops[0]), ops[1..], done);
    }
  }

  // ----------------------------------------------------------------- one pass

  lemma BeginQueue(s: State, i: nat, now: int)
    requires QueueOk(s, i) && QueuedHas(s, i) && i < |s.list| && !s.list[i].remove
    ensures QueueOk(Begin(s, i, now), i + 1) && QueuedHas(Begin(s, i, now), i + 1)
  {
    var t := Begin(s, i, now);
    DistinctIds(s, i, i);
    forall a | 0 <= a < |t.ledger| && t.ledger[a].fate == Queued ensures Has(t.list, i + 1, a) {
      assert Has(s.list, i, a);
      var k :| i <= k < |s.list| && s.list[k].id == a;
      assert k != i;
    }
  }

  lemma BeginLog(s: State, i: nat, now: int)
    requires QueueOk(s, i) && LogOk(s) && RanHas(s)
    requires i < |s.list| && !s.list[i].remove && s.list[i].deadline <= now
    ensures LogOk(Begin(s, i, now)) && RanHas(Begin(s, i, now))
  {
    var t := Begin(s, i, now);
    var id := s.list[i].id;
    assert Registered(s, s.list[i]) && s.ledger[id].fate == Queued;
    hide QueueOk;
    assert t.log[|s.log|].id == id;
    forall a | 0 <= a < |t.ledger| && t.ledger[a].fate == Ran ensures Logged(t.log, a) {
      if a != id {
        assert Logged(s.log, a);
        var k :| 0 <= k < |s.log| && s.log[k].id == a;
        assert t.log[k].id == a;
      }
    }
  }

  lemma BeginKeeps(s: State, i: nat, now: int)
    requires Core(s, i) && i < |s.list| && !s.list[i].remove && s.list[i].deadline <= now
    ensures Core(Begin(s, i, now), i + 1)
  {
    var t := Begin(s, i, now);
    BeginQueue(s, i, now);
    BeginLog(s, i, now);
    assert Registered(s, s.list[i]) && s.ledger[s.list[i].id].fate == Queued;
    hide QueueOk, QueuedHas, LogOk, RanHas;
    assert forall k :: 0 <= k < |s.list| ==> Has(s.list, 0, s.list[k].id);
    FramePending(s, t);
  }

  lemma SkipKeeps(s: State, i: nat)
    requires Core(s, i) && i < |s.list| && s.list[i].remove
    ensures Core(s, i + 1)
  {
    forall a | 0 <= a < |s.ledger| && s.ledger[a].fate == Queued ensures Has(s.list, i + 1, a) {
      assert Has(s.list, i, a);
      var k :| i <= k < |s.list| && s.list[k].id == a;
      assert k != i;
    }
  }

  /** The traversal stays valid whatever its callbacks do, and stops only at the
      end or at an entry that is live and not yet due. */
  lemma {:induction false} TraverseKeeps(s: State, i: nat, now: int, behave: nat -> seq<Op>)
    requires Core(s, i) && s.processing
    ensures var (t, k) := Traverse(s, i, now, behave);
            Core(t, k) && (k < |t.list| ==> !t.list[k].remove && t.list[k].deadline > now)
    decreases |s.list| - i
  {
    hide Core;
    if i < |s.list| {
      if s.list[i].remove {
        SkipKeeps(s, i);
        TraverseKeeps(s, i + 1, now, behave);
      } else if s.list[i].deadline <= now {
        BeginKeeps(s, i, now);
        RunOpsKeeps(Begin(s, i, now), behave(s.list[i].id), i + 1);
        TraverseKeeps(RunOps(Begin(s, i, now), behave(s.list[i].id)), i + 1, now, behave);
      }
    }
  }

  lemma ErasePassedAt(s: State, i: nat, v: Variant, j: nat)
    requires i <= |s.list| && j < |ErasePassed(s, i, v).list|
    ensures var t := ErasePassed(s, i, v); t.list[j] == s.list[|s.list| - |t.list| + j]
  {}

  lemma ErasePassedQueue(s: State, i: nat, v: Variant)
    requires QueueOk(s, i) && (i < |s.list| ==> !s.list[i].remove)
    ensures QueueOk(ErasePassed(s, i, v), 0)
  {
    var t := ErasePassed(s, i, v);
    if i < |s.list| { DistinctIds(s, i, i); }
    forall j | 0 <= j < |t.list| ensures t.list[j] == s.list[|s.list| - |t.list| + j] {
      ErasePassedAt(s, i, v, j);
    }
  }

  lemma ErasePassedHas(s: State, i: nat, v: Variant)
    requires QueueOk(s, i) && QueuedHas(s, i)
    ensures QueuedHas(ErasePassed(s, i, v), 0)
  {
    var t := ErasePassed(s, i, v);
    var cut := |s.list| - |t.list|;
    assert i < |s.list| ==> Registered(s, s.list[i]);
    hide QueueOk;
    forall a | 0 <= a < |t.ledger| && t.ledger[a].fate == Queued ensures Has(t.list, 0, a) {
      assert Has(s.list, i, a);
      var k :| i <= k < |s.list| && s.list[k].id == a;
      ErasePassedAt(s, i, v, k - cut);
    }
  }

  lemma ErasePassedKeeps(s: State, i: nat, v: Variant)
    requires Core(s, i)
    requires i < |s.list| ==> !s.list[i].remove
    ensures Core(ErasePassed(s, i, v), 0)
  {
    var t := ErasePassed(s, i, v);
    ErasePassedQueue(s, i, v);
    ErasePassedHas(s, i, v);
    if i < |s.list| {
      assert Registered(s, s.list[i]) && s.ledger[s.list[i].id].fate == Queued;
    }
    hide QueueOk, QueuedHas;
    FrameLog(s, t);
    hide LogOk, RanHas;
    var cut := |s.list| - |t.list|;
    forall j | 0 <= j < |t.list| ensures Has(s.list, 0, t.list[j].id) {
      ErasePassedAt(s, i, v, j);
      assert t.list[j] == s.list[cut + j];
    }
    hide ErasePassed;
    FramePending(s, t);
  }

  lemma {:induction false} UnmarkedSorted(list: seq<Entry>)
    requires Sorted(list)
    ensures Sorted(Unmarked(list))
  {
    if list != [] {
      UnmarkedSorted(list[1..]);
      var rest := Unmarked(list[1..]);
      forall j | 0 <= j < |rest| ensures Before(list[0], rest[j]) {
        assert rest[j] in list[1..];
      }
    }
  }

  lemma PruneKeeps(s: State)
    requires Core(s, 0)
    ensures Core(Prune(s), 0) && NoMarks(Prune(s))
  {
    var t := Prune(s);
    UnmarkedSorted(s.list);
    forall j | 0 <= j < |t.list| ensures t.list[j] in s.list && !t.list[j].remove {
      assert t.list[j] in t.list;
    }
    forall a | 0 <= a < |t.ledger| && t.ledger[a].fate == Queued ensures Has(t.list, 0, a) {
      assert Has(s.list, 0, a);
      var k :| 0 <= k < |s.list| && s.list[k].id == a;
      assert s.list[k] in t.list;
      HasIn(t.list, a);
    }
  }

  lemma MergeOneQueue(s: State)
    requires QueueOk(s, 0) && QueuedHas(s, 0) && PendingOk(s) && NoMarks(s) && s.pending != []
    ensures QueueOk(MergeOne(s), 0) && QueuedHas(MergeOne(s), 0) && NoMarks(MergeOne(s))
  {
    var e := s.pending[0];
    var t := MergeOne(s);
    InsertKeepsQueue(s, e, t);
    InsertMembers(s.list, e);
    hide QueueOk, PendingOk, Insert;
    forall i | 0 <= i < |t.list| ensures !t.list[i].remove {
      assert t.list[i] in t.list;
    }
  }

  lemma MergeOnePending(s: State)
    requires PendingOk(s) && PendingHas(s) && s.pending != []
    ensures PendingOk(MergeOne(s)) && PendingHas(MergeOne(s))
  {
    var e := s.pending[0];
    var t := MergeOne(s);
    InsertMembers(s.list, e);
    hide Insert;
    forall i | 0 <= i < |t.list| ensures t.list[i].id <= e.id {
      assert t.list[i] in t.list;
    }
    forall a | 0 <= a < |t.ledger| && t.ledger[a].fate == Pending ensures Has(t.pending, 0, a) {
      assert Has(s.pending, 0, a);
      var k :| 0 <= k < |s.pending| && s.pending[k].id == a;
      assert t.pending[k - 1].id == a;
    }
  }

  lemma MergeOneKeeps(s: State)
    requires Core(s, 0) && NoMarks(s) && s.pending != []
    ensures Core(MergeOne(s), 0) && NoMarks(MergeOne(s))
  {
    var e := s.pending[0];
    var t := MergeOne(s);
    assert s.ledger[e.id].fate == Pending;
    MergeOneQueue(s);
    MergeOnePending(s);
    hide QueueOk, QueuedHas, PendingOk, PendingHas, Insert;
    FrameLog(s, t);
  }

  lemma {:induction false} MergeKeeps(s: State)
    requires Core(s, 0) && NoMarks(s)
    ensures Core(Merge(s), 0) && NoMarks(Merge(s)) && Merge(s).pending == []
    ensures Merge(s).processing == s.processing
    decreases |s.pending|
  {
    hide Core, NoMarks;
    if s.pending != [] {
      MergeOneKeeps(s);
      MergeKeeps(MergeOne(s));
    }
  }

  lemma StartKeeps(s: State)
    requires Inv(s)
    ensures Core(s.(processing := true, timer := Idle), 0)
  {}

  /** process_timeouts keeps the invariant, as written and as intended. */
  lemma PassKeeps(s: State, now: int, behave: nat -> seq<Op>, clock: Clock, v: Variant)
    requires Inv(s)
    ensures Inv(Pass(s, now, behave, clock, v))
  {
    hide Inv, Core, NoMarks;
    StartKeeps(s);
    TraverseKeeps(s.(processing := true, timer := Idle), 0, now, behave);
    var (t, i) := Traversed(s, now, behave);
    ErasePassedKeeps(t, i, v);
    PruneKeeps(ErasePassed(t, i, v));
    MergeKeeps(Prune(ErasePassed(t, i, v)));
    RearmKeeps(Merge(Prune(ErasePassed(t, i, v))), clock);
  }

  lemma RearmKeeps(s: State, clock: Clock)
    requires Core(s, 0) && NoMarks(s) && s.pending == [] && !s.processing
    ensures Inv(Rearm(s, clock))
  {}

  // --------------------------------------------------------------- whole runs

  /** Somebody calls add_timeout or remove_timeout outside a traversal, or epoll
      reports the timer and process_timeouts runs. */
  datatype Event = Call(op: Op) | Fire(now: int, behave: nat -> seq<Op>, clock: Clock)

  /** process_timeouts starts by reading the timer, which waits for the expiry. */
  function Step(s: State, event: Event, v: Variant): State {
    match event
    case Call(op) => Apply(s, op)
    case Fire(now, behave, clock) => if Readable(s.timer, now) then Pass(s, now, behave, clock, v) else s
  }

  function Run(s: State, events: seq<Event>, v: Variant): State
    decreases |events|
  {
    if events == [] then s else Run(Step(s, events[0], v), events[1..], v)
  }

  lemma StepKeeps(s: State, event: Event, v: Variant)
    requires Inv(s)
    ensures Inv(Step(s, event, v))
  {
    match event
    case Call(op) => ApplyKeeps(s, op, 0);
    case Fire(now, behave, clock) => PassKeeps(s, now, behave, clock, v);
  }

  /** Order, conservation, once-only and wake-up hold in every reachable state. */
  lemma {:induction false} EveryRunKeepsInvariant(s: State, events: seq<Event>, v: Variant)
    requires Inv(s)
    ensures Inv(Run(s, events, v))
    decreases |events|
  {
    hide Inv;
    if events != [] {
      StepKeeps(s, events[0], v);
      EveryRunKeepsInvariant(Step(s, events[0], v), events[1..], v);
    }
  }

  // ------------------------------------------------------------ what is final

  predicate Final(fate: Fate) {
    fate in {Ran, Removed, Dropped}
  }

  /** History only grows: what was asked for is not rewritten, what ran stays
      run, and a handle that has run or been removed keeps that fate for ever.
      With `Intended`, nothing is dropped on the way either. */
  ghost predicate Extends(s: State, t: State, v: Variant) {
    && |s.ledger| <= |t.ledger|
    && s.log <= t.log
    && (forall id :: 0 <= id < |s.ledger| ==>
          && t.ledger[id].deadline == s.ledger[id].deadline
          && t.ledger[id].callback == s.ledger[id].callback
          && (Final(s.ledger[id].fate) ==> t.ledger[id].fate == s.ledger[id].fate)
          && (t.ledger[id].fate == Pending ==> s.ledger[id].fate == Pending))
    && (v == Intended ==> forall id :: 0 <= id < |t.ledger| && t.ledger[id].fate == Dropped ==>
          id < |s.ledger| && s.ledger[id].fate == Dropped)
  }

  lemma ExtendsTrans(s: State, t: State, u: State, v: Variant)
    requires Extends(s, t, v) && Extends(t, u, v)
    ensures Extends(s, u, v)
  {}

  lemma RemoveExtends(s: State, id: nat, done: nat, v: Variant)
    requires Core(s, done)
    requires s.processing || (done == 0 && Quiet(s))
    ensures Extends(s, RemoveTimeout(s, id), v)
  {
    var i, j := IndexOf(s.list, id), IndexOf(s.pending, id);
    assert i < |s.list| ==> Registered(s, s.list[i]);
    assert j < |s.pending| ==> Registered(s, s.pending[j]);
    assert i < |s.list| && !s.processing ==> s.ledger[id].fate == Queued;
    hide Core, Quiet;
  }

  lemma ApplyExtends(s: State, op: Op, done: nat, v: Variant)
    requires Core(s, done)
    requires s.processing || (done == 0 && Quiet(s))
    ensures Extends(s, Apply(s, op), v)
  {
    match op
    case Add(deadline, callback, clock) => hide Core, Quiet;
    case Remove(id) => RemoveExtends(s, id, done, v);
  }

  lemma {:induction false} RunOpsExtends(s: State, ops: seq<Op>, done: nat, v: Variant)
    requires Core(s, done) && s.processing
    ensures Extends(s, RunOps(s, ops), v)
    decreases |ops|
  {
    hide Core, Extends;
    if ops == [] {
      assert Extends(s, s, v) by { ExtendsRefl(s, v); }
    } else {
      var t := Apply(s, ops[0]);
      ApplyExtends(s, ops[0], done, v);
      ApplyKeeps(s, ops[0], done);
      RunOpsExtends(t, ops[1..], done, v);
      ExtendsTrans(s, t, RunOps(t, ops[1..]), v);
    }
  }

  lemma ExtendsRefl(s: State, v: Variant)
    ensures Extends(s, s, v)
  {}

  lemma BeginExtends(s: State, i: nat, now: int, v: Variant)
    requires Core(s, i) && i < |s.list| && !s.list[i].remove
    ensures Extends(s, Begin(s, i, now), v)
  {}

  lemma {:induction false} TraverseExtends(s: State, i: nat, now: int, behave: nat -> seq<Op>, v: Variant)
    requires Core(s, i) && s.processing
    ensures Extends(s, Traverse(s, i, now, behave).0, v)
    decreases |s.list| - i
  {
    hide Core, Extends;
    ExtendsRefl(s, v);
    if i < |s.list| {
      if s.list[i].remove {
        SkipKeeps(s, i);
        TraverseExtends(s, i + 1, now, behave, v);
      } else if s.list[i].deadline <= now {
        var b := Begin(s, i, now);
        var c := RunOps(b, behave(s.list[i].id));
        BeginKeeps(s, i, now);
        BeginExtends(s, i, now, v);
        RunOpsKeeps(b, behave(s.list[i].id), i + 1);
        RunOpsExtends(b, behave(s.list[i].id), i + 1, v);
        ExtendsTrans(s, b, c, v);
        TraverseExtends(c, i + 1, now, behave, v);
        ExtendsTrans(s, c, Traverse(c, i + 1, now, behave).0, v);
      }
    }
  }

  lemma ErasePassedExtends(s: State, i: nat, v: Variant)
    requires Core(s, i) && (i < |s.list| ==> !s.list[i].remove)
    ensures Extends(s, ErasePassed(s, i, v), v)
  {}

  lemma {:induction false} MergeExtends(s: State, v: Variant)
    requires Core(s, 0) && NoMarks(s)
    ensures Extends(s, Merge(s), v)
    decreases |s.pending|
  {
    ExtendsRefl(s, v);
    if s.pending != [] {
      var t := MergeOne(s);
      assert Extends(s, t, v);
      MergeOneKeeps(s);
      hide Core, Extends, NoMarks;
      MergeExtends(t, v);
      ExtendsTrans(s, t, Merge(t), v);
    }
  }

  lemma ExtendsBySameHistory(s: State, s': State, t: State, t': State, v: Variant)
    requires Extends(s, t, v)
    requires s.ledger == s'.ledger && s.log == s'.log && t.ledger == t'.ledger && t.log == t'.log
    ensures Extends(s', t', v)
  {}

  lemma PruneExtends(s: State, t: State, v: Variant)
    requires Extends(s, t, v)
    ensures Extends(s, Prune(t), v)
  {
    hide Extends, Unmarked;
    ExtendsBySameHistory(s, s, t, Prune(t), v);
  }

  lemma FinishExtends(t: State, i: nat, clock: Clock, v: Variant)
    requires Core(t, i) && (i < |t.list| ==> !t.list[i].remove)
    ensures Extends(t, Finish(t, i, clock, v), v)
  {
    assert i <= |t.list|;
    hide Core, NoMarks, Extends, ErasePassed, Merge, Prune;
    var e := ErasePassed(t, i, v);
    ErasePassedKeeps(t, i, v);
    ErasePassedExtends(t, i, v);
    PruneKeeps(e);
    PruneExtends(t, e, v);
    MergeExtends(Prune(e), v);
    ExtendsTrans(t, Prune(e), Merge(Prune(e)), v);
    ExtendsBySameHistory(t, t, Merge(Prune(e)), Rearm(Merge(Prune(e)), clock), v);
  }

  lemma PassExtends(s: State, now: int, behave: nat -> seq<Op>, clock: Clock, v: Variant)
    requires Inv(s)
    ensures Extends(s, Pass(s, now, behave, clock, v), v)
  {
    hide Core, NoMarks, Inv, Extends;
    var begun := s.(processing := true, timer := Idle);
    StartKeeps(s);
    TraverseKeeps(begun, 0, now, behave);
    TraverseExtends(begun, 0, now, behave, v);
    var (t, i) := Traversed(s, now, behave);
    FinishExtends(t, i, clock, v);
    ExtendsBySameHistory(begun, s, t, t, v);
    ExtendsTrans(s, t, Finish(t, i, clock, v), v);
  }

  lemma StepExtends(s: State, event: Event, v: Variant)
    requires Inv(s)
    ensures Extends(s, Step(s, event, v), v)
  {
    match event
    case Call(op) => ApplyExtends(s, op, 0, v);
    case Fire(now, behave, clock) =>
      PassExtends(s, now, behave, clock, v);
      ExtendsRefl(s, v);
  }

  /** Over every run: a handle that has run or been removed never changes again,
      so nothing runs after its removal, and nothing that ran is forgotten. As
      intended, no handle is ever dropped. */
  lemma {:induction false} EveryRunExtendsHistory(s: State, events: seq<Event>, v: Variant)
    requires Inv(s)
    ensures Extends(s, Run(s, events, v), v)
    decreases |events|
  {
    hide Inv, Extends;
    if events == [] {
      ExtendsRefl(s, v);
    } else {
      var t := Step(s, events[0], v);
      StepKeeps(s, events[0], v);
      StepExtends(s, events[0], v);
      EveryRunExtendsHistory(t, events[1..], v);
      ExtendsTrans(s, t, Run(t, events[1..], v), v);
    }
  }

  // ------------------------------------------------- what one pass runs, and when

  /** `log` from `start` on is the entries of `list` at the positions `pos`, in
      the order of the list, all due at `now` and all run at `now`. */
  ghost predicate RanInOrder(list: seq<Entry>, first: nat, log: seq<Execution>, start: nat, pos: seq<nat>, now: int) {
    && start + |pos| == |log|
    && (forall k :: 0 <= k < |pos| ==>
          && first <= pos[k] < |list|
          && list[pos[k]].deadline <= now
          && log[start + k] == Execution(list[pos[k]].id, list[pos[k]].callback, now))
    && (forall k, l :: 0 <= k < l < |pos| ==> pos[k] < pos[l])
  }

  lemma RanFirst(list: seq<Entry>, list': seq<Entry>, i: nat, log: seq<Execution>, start: nat, pos: seq<nat>, now: int)
    requires i < |list| == |list'| && list[i].deadline <= now
    requires forall k :: 0 <= k < |list| ==> list'[k].(remove := true) == list[k].(remove := true)
    requires start < |log| && log[start] == Execution(list[i].id, list[i].callback, now)
    requires RanInOrder(list', i + 1, log, start + 1, pos, now)
    ensures RanInOrder(list, i, log, start, [i] + pos, now)
  {
    var all := [i] + pos;
    forall k | 0 <= k < |all|
      ensures i <= all[k] < |list| && list[all[k]].deadline <= now
      ensures log[start + k] == Execution(list[all[k]].id, list[all[k]].callback, now)
    {
      if k > 0 {
        assert log[start + 1 + (k - 1)] == Execution(list'[pos[k - 1]].id, list'[pos[k - 1]].callback, now);
        assert list'[pos[k - 1]].(remove := true) == list[all[k]].(remove := true);
      }
    }
  }

  /** One entry run, and the rest of the traversal. */
  lemma RanStep(s: State, i: nat, now: int, c: State, log: seq<Execution>, rest: seq<nat>)
    requires i < |s.list| && s.list[i].deadline <= now && Frozen(Begin(s, i, now), c) && c.log <= log
    requires RanInOrder(c.list, i + 1, log, |c.log|, rest, now)
    ensures RanInOrder(s.list, i, log, |s.log|, [i] + rest, now) && s.log <= log
  {
    hide RanInOrder;
    assert log[|s.log|] == c.log[|s.log|];
    assert s.log <= c.log;
    RanFirst(s.list, c.list, i, log, |s.log|, rest, now);
  }

  lemma {:induction false} TraverseInOrder(s: State, i: nat, now: int, behave: nat -> seq<Op>) returns (pos: seq<nat>)
    requires s.processing && i <= |s.list|
    ensures RanInOrder(s.list, i, Traverse(s, i, now, behave).0.log, |s.log|, pos, now)
    ensures s.log <= Traverse(s, i, now, behave).0.log
    decreases |s.list| - i
  {
    pos := [];
    if i < |s.list| {
      if s.list[i].remove {
        pos := TraverseInOrder(s, i + 1, now, behave);
      } else if s.list[i].deadline <= now {
        var c := RunOps(Begin(s, i, now), behave(s.list[i].id));
        assert c.processing && |c.list| == |s.list| && Frozen(Begin(s, i, now), c);
        hide RanInOrder, RunOps, Frozen, Begin;
        var rest := TraverseInOrder(c, i + 1, now, behave);
        RanStep(s, i, now, c, Traverse(c, i + 1, now, behave).0.log, rest);
        pos := [i] + rest;
      }
    }
  }

  lemma {:induction false} MergeLog(s: State)
    ensures Merge(s).log == s.log
    decreases |s.pending|
  {
    if s.pending != [] { MergeLog(MergeOne(s)); }
  }

  /** One pass runs callbacks in queue order: by deadline, and newest first among
      equal deadlines (the queue is sorted that way), each at its own deadline or
      later, with the callback its handle was issued with. */
  lemma PassRunsInOrder(s: State, now: int, behave: nat -> seq<Op>, clock: Clock, v: Variant) returns (pos: seq<nat>)
    requires Inv(s)
    ensures s.log <= Pass(s, now, behave, clock, v).log
    ensures RanInOrder(s.list, 0, Pass(s, now, behave, clock, v).log, |s.log|, pos, now)
    ensures forall k, l :: 0 <= k < l < |pos| ==> Before(s.list[pos[k]], s.list[pos[l]])
  {
    var begun := s.(processing := true, timer := Idle);
    pos := TraverseInOrder(begun, 0, now, behave);
    var (t, i) := Traverse(begun, 0, now, behave);
    MergeLog(Prune(ErasePassed(t, i, v)));
  }

  /** A traversal leaves the handles, deadlines and callbacks of its list alone. */
  lemma {:induction false} TraverseFrozen(s: State, i: nat, now: int, behave: nat -> seq<Op>)
    requires s.processing && i <= |s.list|
    ensures forall k :: 0 <= k < |s.list| ==>
              Traverse(s, i, now, behave).0.list[k].(remove := true) == s.list[k].(remove := true)
    decreases |s.list| - i
  {
    if i < |s.list| {
      if s.list[i].remove {
        TraverseFrozen(s, i + 1, now, behave);
      } else if s.list[i].deadline <= now {
        TraverseFrozen(RunOps(Begin(s, i, now), behave(s.list[i].id)), i + 1, now, behave);
      }
    }
  }

  /** What the loop leaves: due entries have run or been removed. */
  lemma TraversedOutcome(s: State, now: int, behave: nat -> seq<Op>)
    requires Inv(s)
    ensures var (t, i) := Traversed(s, now, behave);
            && Core(t, i)
            && |t.list| == |s.list|
            && (i < |t.list| ==> !t.list[i].remove && t.list[i].deadline > now)
            && (forall k :: 0 <= k < |s.list| ==> t.list[k].(remove := true) == s.list[k].(remove := true))
            && (forall k :: 0 <= k < |s.list| && s.list[k].deadline <= now ==> k < i)
  {
    var begun := s.(processing := true, timer := Idle);
    StartKeeps(s);
    TraverseKeeps(begun, 0, now, behave);
    TraverseFrozen(begun, 0, now, behave);
    var (t, i) := Traversed(s, now, behave);
    assert Sorted(t.list);
    hide Core, Inv;
    forall k | i <= k < |s.list| ensures s.list[k].deadline > now {
      assert t.list[k].(remove := true) == s.list[k].(remove := true);
      assert i < k ==> Before(t.list[i], t.list[k]);
    }
  }

  lemma DueIsSettled(s: State, now: int, behave: nat -> seq<Op>, clock: Clock, v: Variant, k: nat)
    requires Inv(s) && k < |s.list|
    requires k < Traversed(s, now, behave).1
    ensures Registered(s, s.list[k])
    ensures var t := Pass(s, now, behave, clock, v);
            |s.ledger| <= |t.ledger| && t.ledger[s.list[k].id].fate in {Ran, Removed}
  {
    TraversedOutcome(s, now, behave);
    var (t, i) := Traversed(s, now, behave);
    FinishExtends(t, i, clock, v);
    PassExtends(s, now, behave, clock, v);
    assert t.list[k].(remove := true) == s.list[k].(remove := true);
    assert t.ledger[t.list[k].id].fate in {Ran, Removed};
  }

  /** An entry that is not due does not run. */
  lemma NotDueDoesNotRun(s: State, now: int, behave: nat -> seq<Op>, clock: Clock, v: Variant, k: nat)
    requires Inv(s) && k < |s.list| && s.list[k].deadline > now
    ensures Registered(s, s.list[k])
    ensures var t := Pass(s, now, behave, clock, v);
            |s.ledger| <= |t.ledger| && t.ledger[s.list[k].id].fate in {Queued, Removed, Dropped}
  {
    var t := Pass(s, now, behave, clock, v);
    var id := s.list[k].id;
    PassKeeps(s, now, behave, clock, v);
    PassExtends(s, now, behave, clock, v);
    var pos := PassRunsInOrder(s, now, behave, clock, v);
    assert Registered(s, s.list[k]) && s.ledger[id].fate == Queued;
    forall l | 0 <= l < |t.log| ensures t.log[l].id != id {
      if l < |s.log| {
        assert t.log[l] == s.log[l];
      } else {
        var p := pos[l - |s.log|];
        assert t.log[|s.log| + (l - |s.log|)].id == s.list[p].id;
        assert Registered(s, s.list[p]);
      }
    }
    assert !Logged(t.log, id) && !Has(t.pending, 0, id);
  }

  /** One pass settles exactly the due entries: each has run or was removed by a
      callback of this pass; an entry that is not due has not run. */
  lemma PassSettlesDue(s: State, now: int, behave: nat -> seq<Op>, clock: Clock, v: Variant)
    requires Inv(s)
    ensures |s.ledger| <= |Pass(s, now, behave, clock, v).ledger|
    ensures forall k :: 0 <= k < |s.list| ==>
              && Registered(s, s.list[k])
              && Pass(s, now, behave, clock, v).ledger[s.list[k].id].fate
                 in (if s.list[k].deadline <= now then {Ran, Removed} else {Queued, Removed, Dropped})
  {
    PassExtends(s, now, behave, clock, v);
    forall k | 0 <= k < |s.list|
      ensures Registered(s, s.list[k])
      ensures Pass(s, now, behave, clock, v).ledger[s.list[k].id].fate
              in (if s.list[k].deadline <= now then {Ran, Removed} else {Queued, Removed, Dropped})
    {
      hide Inv;
      if s.list[k].deadline <= now {
        TraversedOutcome(s, now, behave);
        DueIsSettled(s, now, behave, clock, v, k);
      } else {
        NotDueDoesNotRun(s, now, behave, clock, v, k);
      }
    }
  }

  // ---------------------------------------------------- the wake-up is not lost

  /** In every reachable state a queued handle has its wake-up: from the instant
      its deadline has come (or 1 ns has passed since the timer was last armed),
      plus the lag of that arming, the timer is readable, and reading it runs the
      callback in that very pass unless another callback removes it first. */
  lemma NoTimeoutStarves(s: State, id: nat, now: int, behave: nat -> seq<Op>, clock: Clock, v: Variant)
    requires Inv(s) && id < |s.ledger| && s.ledger[id].fate == Queued
    requires s.timer.Armed? ==>
               now >= Max(s.ledger[id].deadline, s.timer.clock.read + 1) + (s.timer.clock.armed - s.timer.clock.read)
    ensures s.timer.Armed? && Readable(s.timer, now)
    ensures var t := Step(s, Fire(now, behave, clock), v);
            |s.ledger| <= |t.ledger| && t.ledger[id].fate in {Ran, Removed}
  {
    assert Has(s.list, 0, id);
    var k :| 0 <= k < |s.list| && s.list[k].id == id;
    assert Registered(s, s.list[k]);
    assert k > 0 ==> Before(s.list[0], s.list[k]);
    assert s.timer.Armed? && s.timer.aim <= s.list[k].deadline;
    hide Inv, Pass, Readable;
    ReadableInTime(s.timer, s.list[k].deadline, now);
    PassSettlesDue(s, now, behave, clock, v);
  }
}
