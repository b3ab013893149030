/** What every run of the periodic timeouts keeps. */
module PeriodicProofs {
  import opened MonotonicTimer
  import opened PeriodicTimeouts

  // ------------------------------------------------------------ the invariant

  ghost predicate Registered(s: State, e: Entry) {
    e.id < |s.ledger| && s.ledger[e.id].period == e.period && s.ledger[e.id].callback == e.callback
  }

  ghost predicate Distinct(list: seq<Entry>) {
    forall i, j :: 0 <= i < j < |list| ==> list[i].id != list[j].id
  }

  /** The entries of the list: known to the ledger, marked when removed. */
  ghost predicate EntriesOk(s: State) {
    && Distinct(s.list)
    && forall e :: e in s.list ==> Registered(s, e) && e.remove == s.ledger[e.id].removed
  }

  /** Sorted; and of a traversal that has passed `done` entries, exactly those of
      them that are still wanted have been invoked. */
  ghost predicate OrderOk(s: State, done: nat) {
    && done <= |s.list|
    && Sorted(s.list)
    && (forall i :: 0 <= i < done ==> s.list[i].processed || s.list[i].remove)
    && (forall i :: done <= i < |s.list| ==> !s.list[i].processed)
  }

  ghost predicate PendingOk(s: State) {
    && (forall j :: 0 <= j < |s.pending| ==>
          && Registered(s, s.pending[j])
          && !s.pending[j].remove && !s.pending[j].processed && !s.ledger[s.pending[j].id].removed)
    && (forall j, k :: 0 <= j < k < |s.pending| ==> s.pending[j].id < s.pending[k].id)
    && (forall e, j :: e in s.list && 0 <= j < |s.pending| ==> e.id < s.pending[j].id)
  }

  ghost predicate Has(list: seq<Entry>, id: nat) {
    exists e :: e in list && e.id == id
  }

  /** Every handle that has not been removed is queued or held back. */
  ghost predicate Located(s: State) {
    forall id {:trigger Has(s.list, id)} {:trigger Has(s.pending, id)} ::
      0 <= id < |s.ledger| && !s.ledger[id].removed ==> Has(s.list, id) || Has(s.pending, id)
  }

  ghost predicate LogOk(s: State) {
    forall k :: 0 <= k < |s.log| ==> s.log[k].id < |s.ledger| && s.ledger[s.log[k].id].callback == s.log[k].callback
  }

  ghost predicate Core(s: State) {
    EntriesOk(s) && PendingOk(s) && Located(s) && LogOk(s)
  }

  ghost predicate WakeUp(s: State) {
    s.list != [] ==> s.timer.Armed? && s.timer.aim <= s.list[0].deadline
  }

  ghost predicate NoFlags(list: seq<Entry>) {
    forall e :: e in list ==> !e.remove && !e.processed
  }

  ghost predicate Inv(s: State) {
    Core(s) && Sorted(s.list) && NoFlags(s.list) && !s.processing && s.pending == [] && WakeUp(s)
  }

  lemma InitialInv(s: State)
    requires s == INITIAL
    ensures Inv(s)
  {}

  // --------------------------------------------------------------- insertion

  lemma InsertAt(list: seq<Entry>, e: Entry, i: nat)
    requires i <= |list|
    ensures var k := LowerBound(list, e.deadline);
            Insert(list, e)[i] == if i < k then list[i] else if i == k then e else list[i - 1]
  {}

  lemma InsertMembers(list: seq<Entry>, e: Entry)
    ensures forall x :: x in Insert(list, e) <==> x == e || x in list
  {
    var k := LowerBound(list, e.deadline);
    assert list == list[..k] + list[k..];
  }

  lemma InsertOrdered(list: seq<Entry>, e: Entry)
    requires Sorted(list)
    ensures Sorted(Insert(list, e))
  {
    var r := Insert(list, e);
    forall i, j | 0 <= i < j < |r| ensures r[i].deadline <= r[j].deadline {
      InsertAt(list, e, i);
      InsertAt(list, e, j);
      var k := LowerBound(list, e.deadline);
      assert i == k ==> list[k].deadline <= list[j - 1].deadline;
    }
  }

  lemma InsertDistinct(list: seq<Entry>, e: Entry)
    requires Distinct(list) && forall x :: x in list ==> x.id != e.id
    ensures Distinct(Insert(list, e))
  {
    var r := Insert(list, e);
    forall i, j | 0 <= i < j < |r| ensures r[i].id != r[j].id {
      InsertAt(list, e, i);
      InsertAt(list, e, j);
      assert forall k :: 0 <= k < |list| ==> list[k] in list;
    }
  }

  // -------------------------------------------------------- single operations

  /** Adding while a traversal is under way. */
  lemma AddPendingKeeps(s: State, period: int, callback: nat, now: int, clock: Clock)
    requires Core(s) && s.processing
    ensures Core(AddPeriodic(s, period, callback, now, clock))
  {
    var t := AddPeriodic(s, period, callback, now, clock);
    assert EntriesOk(t) && LogOk(t);
    assert forall e :: e in s.list ==> e.id < |s.ledger|;
    assert PendingOk(t);
    hide EntriesOk, LogOk, PendingOk;
    forall id | 0 <= id < |t.ledger| && !t.ledger[id].removed ensures Has(t.list, id) || Has(t.pending, id) {
      if id == |s.ledger| {
        assert t.pending[|s.pending|] in t.pending;
      } else {
        assert Has(s.list, id) || Has(s.pending, id);
      }
    }
  }

  /** A new entry in the queue. */
  lemma InsertKeepsEntries(s: State, e: Entry, t: State)
    requires EntriesOk(s) && t.list == Insert(s.list, e)
    requires |s.ledger| <= |t.ledger| && forall id :: 0 <= id < |s.ledger| ==> t.ledger[id] == s.ledger[id]
    requires Registered(t, e) && e.remove == t.ledger[e.id].removed
    requires forall x :: x in s.list ==> x.id != e.id
    ensures EntriesOk(t)
  {
    InsertMembers(s.list, e);
    InsertDistinct(s.list, e);
  }

  lemma AddQueuedCore(s: State, period: int, callback: nat, now: int, clock: Clock)
    requires Core(s) && !s.processing && s.pending == []
    ensures Core(AddPeriodic(s, period, callback, now, clock))
  {
    var t := AddPeriodic(s, period, callback, now, clock);
    var e := Entry(|s.ledger|, period, now + period, callback, false, false);
    assert forall x :: x in s.list ==> x.id != e.id;
    InsertKeepsEntries(s, e, t);
    hide EntriesOk;
    InsertMembers(s.list, e);
    hide Insert;
    assert LogOk(t) && PendingOk(t);
    hide LogOk, PendingOk;
    forall id | 0 <= id < |t.ledger| && !t.ledger[id].removed ensures Has(t.list, id) {
      if id == |s.ledger| {
        assert e in t.list;
      } else {
        assert Has(s.list, id) || Has(s.pending, id);
      }
    }
  }

  lemma InsertFront(list: seq<Entry>, e: Entry)
    ensures var r := Insert(list, e);
            r != [] && r[0] == if list == [] || list[0].deadline >= e.deadline then e else list[0]
  {}

  lemma AddQueuedKeeps(s: State, period: int, callback: nat, now: int, clock: Clock)
    requires Inv(s)
    ensures Inv(AddPeriodic(s, period, callback, now, clock))
  {
    var e := Entry(|s.ledger|, period, now + period, callback, false, false);
    AddQueuedCore(s, period, callback, now, clock);
    hide Core, Sorted, Insert;
    InsertOrdered(s.list, e);
    InsertMembers(s.list, e);
    InsertFront(s.list, e);
  }

  // ------------------------------------------------------------------ removal

  lemma EraseAt(list: seq<Entry>, i: nat, j: nat)
    requires i < |list| && j < |list| - 1
    ensures Erase(list, i)[j] == list[if j < i then j else j + 1]
  {}

  lemma EraseMembers(list: seq<Entry>, i: nat)
    requires i < |list| && Distinct(list)
    ensures Distinct(Erase(list, i))
    ensures Sorted(list) ==> Sorted(Erase(list, i))
    ensures forall x :: x in Erase(list, i) <==> x in list && x.id != list[i].id
  {
    var r := Erase(list, i);
    forall j | 0 <= j < |r| ensures r[j] == list[if j < i then j else j + 1] {
      EraseAt(list, i, j);
    }
    forall x | x in list && x.id != list[i].id ensures x in r {
      var k :| 0 <= k < |list| && list[k] == x;
      assert r[if k < i then k else k - 1] == x;
    }
  }

  lemma MarkMembers(list: seq<Entry>, i: nat)
    requires i < |list| && Distinct(list)
    ensures var r := list[i := list[i].(remove := true)];
            && Distinct(r)
            && (forall x :: x in r <==> (x in list && x.id != list[i].id) || x == list[i].(remove := true))
  {
    var r := list[i := list[i].(remove := true)];
    forall x | x in list && x.id != list[i].id ensures x in r {
      var k :| 0 <= k < |list| && list[k] == x;
      assert r[k] == x;
    }
    assert r[i] in r;
  }

  lemma MarkKeeps(s: State, id: nat)
    requires Core(s) && s.processing && IndexOf(s.list, id) < |s.list|
    ensures Core(RemovePeriodic(s, id))
  {
    var t := RemovePeriodic(s, id);
    var i := IndexOf(s.list, id);
    MarkMembers(s.list, i);
    assert s.list[i] in s.list;
    assert EntriesOk(t) && LogOk(t) && PendingOk(t);
    hide EntriesOk, LogOk, PendingOk;
    forall a | 0 <= a < |t.ledger| && !t.ledger[a].removed ensures Has(t.list, a) || Has(t.pending, a) {
      assert Has(s.list, a) || Has(s.pending, a);
    }
  }

  lemma EraseQueuedEntries(s: State, id: nat)
    requires EntriesOk(s) && !s.processing && IndexOf(s.list, id) < |s.list|
    ensures EntriesOk(RemovePeriodic(s, id))
  {
    var i := IndexOf(s.list, id);
    EraseMembers(s.list, i);
    assert s.list[i] in s.list;
    hide IndexOf, Erase;
  }

  lemma EraseQueuedKeepsCore(s: State, id: nat)
    requires Core(s) && !s.processing && s.pending == [] && IndexOf(s.list, id) < |s.list|
    ensures Core(RemovePeriodic(s, id))
  {
    var t := RemovePeriodic(s, id);
    var i := IndexOf(s.list, id);
    EraseQueuedEntries(s, id);
    assert s.list[i] in s.list && Distinct(s.list);
    EraseMembers(s.list, i);
    hide IndexOf, Erase, EntriesOk, Distinct;
    assert LogOk(t) && PendingOk(t);
    hide LogOk, PendingOk;
    forall a | 0 <= a < |t.ledger| && !t.ledger[a].removed ensures Has(t.list, a) {
      assert Has(s.list, a) || Has(s.pending, a);
    }
  }

  lemma EraseQueuedKeeps(s: State, id: nat)
    requires Inv(s) && IndexOf(s.list, id) < |s.list|
    ensures Inv(RemovePeriodic(s, id))
  {
    var t := RemovePeriodic(s, id);
    var i := IndexOf(s.list, id);
    EraseQueuedKeepsCore(s, id);
    EraseMembers(s.list, i);
    hide Core;
    if t.list != [] {
      EraseAt(s.list, i, 0);
    }
  }

  lemma PendingAfterErase(s: State, t: State, i: nat)
    requires PendingOk(s) && i < |s.pending|
    requires t.list == s.list && t.pending == Erase(s.pending, i) && t.ledger == MarkRemoved(s.ledger, s.pending[i].id)
    ensures PendingOk(t)
  {
    forall j | 0 <= j < |t.pending| ensures t.pending[j] == s.pending[if j < i then j else j + 1] {
      EraseAt(s.pending, i, j);
    }
  }

  lemma ErasePendingKeeps(s: State, id: nat)
    requires Core(s) && s.processing
    requires IndexOf(s.list, id) == |s.list| && IndexOf(s.pending, id) < |s.pending|
    ensures Core(RemovePeriodic(s, id))
  {
    var t := RemovePeriodic(s, id);
    var i := IndexOf(s.pending, id);
    assert forall e :: e in s.list ==> e.id < s.pending[i].id;
    assert Distinct(s.pending);
    hide IndexOf;
    PendingAfterErase(s, t, i);
    hide PendingOk, Erase;
    assert LogOk(t);
    hide LogOk;
    assert EntriesOk(t);
    hide EntriesOk;
    EraseMembers(s.pending, i);
    hide Distinct;
    forall a | 0 <= a < |t.ledger| && !t.ledger[a].removed ensures Has(t.list, a) || Has(t.pending, a) {
      assert Has(s.list, a) || Has(s.pending, a);
      if Has(s.pending, a) {
        var x :| x in s.pending && x.id == a;
        assert x in t.pending;
      }
    }
  }

  /** A handle issued during a traversal is held back, so removing it in the same
      traversal always takes the path that erases through the wrong vector. */
  lemma FreshHandleIsHeldBack(s: State, period: int, callback: nat, now: int, clock: Clock)
    requires Core(s) && s.processing
    ensures var t := AddPeriodic(s, period, callback, now, clock);
            IndexOf(t.list, |s.ledger|) == |t.list| && IndexOf(t.pending, |s.ledger|) < |t.pending|
  {
    var t := AddPeriodic(s, period, callback, now, clock);
    assert forall i :: 0 <= i < |s.list| ==> s.list[i] in s.list;
    assert t.pending[|s.pending|].id == |s.ledger|;
  }

  lemma ApplyKeepsCore(s: State, op: Op)
    requires Core(s) && s.processing
    ensures Core(Apply(s, op))
  {
    match op
    case Add(period, callback, now, clock) => AddPendingKeeps(s, period, callback, now, clock);
    case Remove(id) =>
      if IndexOf(s.list, id) < |s.list| {
        MarkKeeps(s, id);
      } else if IndexOf(s.pending, id) < |s.pending| {
        ErasePendingKeeps(s, id);
      }
  }

  lemma ApplyKeeps(s: State, op: Op)
    requires Inv(s)
    ensures Inv(Apply(s, op))
  {
    match op
    case Add(period, callback, now, clock) => AddQueuedKeeps(s, period, callback, now, clock);
    case Remove(id) =>
      if IndexOf(s.list, id) < |s.list| {
        EraseQueuedKeeps(s, id);
      }
  }

  // ---------------------------------------------------------------- one pass

  lemma ApplyOrder(s: State, op: Op, done: nat)
    requires s.processing && OrderOk(s, done)
    ensures OrderOk(Apply(s, op), done)
  {}

  lemma {:induction false} RunOpsKeeps(s: State, ops: seq<Op>, done: nat)
    requires Core(s) && s.processing && OrderOk(s, done)
    ensures Core(RunOps(s, ops)) && OrderOk(RunOps(s, ops), done)
    decreases |ops|
  {
    hide Core, OrderOk;
    if ops != [] {
      ApplyKeepsCore(s, ops[0]);
      ApplyOrder(s, ops[0], done);
      RunOpsKeeps(Apply(s, ops[0]), ops[1..], done);
    }
  }

  lemma BeginKeeps(s: State, i: nat, now: int)
    requires Core(s) && OrderOk(s, i) && i < |s.list| && !s.list[i].remove
    ensures Core(Begin(s, i, now)) && OrderOk(Begin(s, i, now), i + 1)
  {
    var t := Begin(s, i, now);
    var e := s.list[i];
    assert OrderOk(t, i + 1);
    hide OrderOk;
    assert e in s.list;
    forall x | x in t.list ensures x == e.(processed := true) || x in s.list {}
    assert EntriesOk(t) && PendingOk(t) && LogOk(t);
    hide EntriesOk, PendingOk, LogOk;
    forall a | 0 <= a < |t.ledger| && !t.ledger[a].removed ensures Has(t.list, a) || Has(t.pending, a) {
      assert Has(s.list, a) || Has(s.pending, a);
      if Has(s.list, a) {
        var x :| x in s.list && x.id == a;
        var k :| 0 <= k < |s.list| && s.list[k] == x;
        assert t.list[k] in t.list;
      }
    }
  }

  /** One turn of the loop. */
  lemma TraverseStep(s: State, i: nat, now: int, behave: nat -> seq<Op>)
    requires s.processing && i <= |s.list|
    ensures var r := Traverse(s, i, now, behave);
            if i == |s.list| then r == (s, i)
            else if s.list[i].remove then r == Traverse(s, i + 1, now, behave)
            else if s.list[i].deadline > now then r == (s, i)
            else
              var c := RunOps(Begin(s, i, now), behave(s.list[i].id));
              && c.processing && |c.list| == |s.list|
              && c.log == s.log + [Execution(s.list[i].id, s.list[i].callback, now)]
              && r == Traverse(c, i + 1, now, behave)
  {}

  lemma SkipKeeps(s: State, i: nat)
    requires OrderOk(s, i) && i < |s.list| && s.list[i].remove
    ensures OrderOk(s, i + 1)
  {}

  lemma BeginProcessing(s: State, i: nat, now: int)
    requires i < |s.list|
    ensures Begin(s, i, now).processing == s.processing
  {}

  /** The traversal stays valid whatever its callbacks do. */
  lemma {:induction false} TraverseKeeps(s: State, i: nat, now: int, behave: nat -> seq<Op>)
    requires Core(s) && s.processing && OrderOk(s, i)
    ensures var (t, k) := Traverse(s, i, now, behave);
            && Core(t) && OrderOk(t, k)
            && (k < |t.list| ==> !t.list[k].remove && t.list[k].deadline > now)
    decreases |s.list| - i
  {
    assert i <= |s.list|;
    TraverseStep(s, i, now, behave);
    hide Core, OrderOk, Traverse, RunOps, Begin, Frozen;
    if i < |s.list| {
      if s.list[i].remove {
        SkipKeeps(s, i);
        TraverseKeeps(s, i + 1, now, behave);
      } else if s.list[i].deadline <= now {
        var b, ops := Begin(s, i, now), behave(s.list[i].id);
        BeginKeeps(s, i, now);
        BeginProcessing(s, i, now);
        RunOpsKeeps(b, ops, i + 1);
        TraverseKeeps(RunOps(b, ops), i + 1, now, behave);
      }
    }
  }

  // -------------------------------------------- after the loop: prune and reset

  /** All processed entries, then all others. */
  ghost predicate ProcessedFirst(list: seq<Entry>) {
    forall i, j :: 0 <= i < j < |list| && list[j].processed ==> list[i].processed
  }

  /** An entry that ran is due again one period after now. */
  function Renewed(e: Entry, now: int): Entry {
    if e.processed then Entry(e.id, e.period, now + e.period, e.callback, e.remove, false) else e
  }

  lemma {:induction false} UnmarkedKeepsOrder(list: seq<Entry>, done: nat)
    requires done <= |list|
    requires forall i :: 0 <= i < done ==> list[i].processed || list[i].remove
    requires forall i :: done <= i < |list| ==> !list[i].processed
    ensures ProcessedFirst(Unmarked(list))
    decreases |list|
  {
    if list != [] {
      var rest := Unmarked(list[1..]);
      if done > 0 {
        UnmarkedKeepsOrder(list[1..], done - 1);
      } else {
        UnmarkedKeepsOrder(list[1..], 0);
        assert forall j :: 0 <= j < |rest| ==> rest[j] in list[1..];
      }
    }
  }

  lemma {:induction false} UnmarkedDistinct(list: seq<Entry>)
    requires Distinct(list)
    ensures Distinct(Unmarked(list))
  {
    if list != [] {
      UnmarkedDistinct(list[1..]);
      var rest := Unmarked(list[1..]);
      assert forall j :: 0 <= j < |rest| ==> rest[j] in list[1..];
    }
  }

  /** The reset loop stops at the first unprocessed entry, yet resets every
      processed one, because the processed entries come first. */
  lemma {:induction false} ResetPrefixResetsAll(list: seq<Entry>, now: int)
    requires ProcessedFirst(list)
    ensures |ResetPrefix(list, now)| == |list|
    ensures forall i :: 0 <= i < |list| ==> ResetPrefix(list, now)[i] == Renewed(list[i], now)
  {
    if list != [] {
      if list[0].processed {
        assert ProcessedFirst(list[1..]);
        ResetPrefixResetsAll(list[1..], now);
      } else {
        assert forall i :: 0 < i < |list| ==> !list[i].processed;
      }
    }
  }

  lemma CountsOnce(list: seq<Entry>, i: nat)
    requires Distinct(list) && i < |list|
    ensures multiset(list)[list[i]] == 1
  {
    assert list == list[..i] + [list[i]] + list[i + 1..];
    assert list[i] !in list[..i] && list[i] !in list[i + 1..];
  }

  lemma CountsTwice(list: seq<Entry>, i: nat, j: nat)
    requires i < j < |list| && list[i] == list[j]
    ensures multiset(list)[list[i]] >= 2
  {
    assert list == list[..i] + [list[i]] + list[i + 1..j] + [list[j]] + list[j + 1..];
  }

  lemma PermutationKeepsDistinct(a: seq<Entry>, b: seq<Entry>)
    requires Distinct(a) && multiset(a) == multiset(b)
    ensures Distinct(b)
    ensures forall e :: e in a <==> e in b
  {
    forall e ensures e in a <==> e in b {
      assert e in a <==> e in multiset(a);
      assert e in b <==> e in multiset(b);
    }
    forall i, j | 0 <= i < j < |b| ensures b[i].id != b[j].id {
      assert b[i] in a && b[j] in a;
      var k :| 0 <= k < |a| && a[k] == b[i];
      var l :| 0 <= l < |a| && a[l] == b[j];
      CountsOnce(a, k);
      if b[i] == b[j] { CountsTwice(b, i, j); assert false; }
    }
  }

  lemma ResetMembers(kept: seq<Entry>, reset: seq<Entry>, now: int)
    requires |reset| == |kept| && forall i :: 0 <= i < |kept| ==> reset[i] == Renewed(kept[i], now)
    ensures forall x :: x in reset <==> exists e :: e in kept && x == Renewed(e, now)
  {
    forall x ensures x in reset <==> exists e :: e in kept && x == Renewed(e, now) {
      if x in reset {
        var i :| 0 <= i < |reset| && reset[i] == x;
        assert kept[i] in kept;
      }
      if e :| e in kept && x == Renewed(e, now) {
        var i :| 0 <= i < |kept| && kept[i] == e;
        assert reset[i] == x;
      }
    }
  }

  /** What Renew leaves of the list: its unmarked entries, reset if processed,
      in deadline order, each once. */
  lemma RenewedList(s: State, done: nat, now: int, sort: seq<Entry> -> seq<Entry>)
    requires Distinct(s.list) && OrderOk(s, done) && IsSort(sort)
    ensures var list := Renew(s, now, sort).list;
            && Sorted(list) && Distinct(list)
            && (forall x :: x in list <==> exists e :: e in s.list && !e.remove && x == Renewed(e, now))
  {
    var kept := Unmarked(s.list);
    var reset := ResetPrefix(kept, now);
    UnmarkedKeepsOrder(s.list, done);
    UnmarkedDistinct(s.list);
    ResetPrefixResetsAll(kept, now);
    assert SortsTo(reset, sort(reset));
    assert Distinct(reset);
    PermutationKeepsDistinct(reset, sort(reset));
    ResetMembers(kept, reset, now);
    hide IsSort, OrderOk, ResetPrefix, Sorted, Distinct;
  }

  lemma RenewedEntry(s: State, e: Entry, now: int)
    requires EntriesOk(s) && PendingOk(s) && e in s.list && !e.remove
    ensures var x := Renewed(e, now);
            && Registered(s, x) && !x.remove && !x.processed && !s.ledger[x.id].removed
            && forall j :: 0 <= j < |s.pending| ==> x.id < s.pending[j].id
  {}

  /** Everything in the list is an unmarked entry of the old list, renewed. */
  ghost predicate RenewedFrom(s: State, t: State, now: int) {
    forall x :: x in t.list <==> exists e :: e in s.list && !e.remove && x == Renewed(e, now)
  }

  lemma RenewedEntries(s: State, t: State, now: int)
    requires EntriesOk(s) && PendingOk(s) && RenewedFrom(s, t, now) && Distinct(t.list)
    requires t.ledger == s.ledger && t.pending == s.pending
    ensures EntriesOk(t) && PendingOk(t) && NoFlags(t.list)
  {
    hide Distinct;
    forall x | x in t.list
      ensures Registered(t, x) && !x.remove && !x.processed && !t.ledger[x.id].removed
      ensures forall j :: 0 <= j < |t.pending| ==> x.id < t.pending[j].id
    {
      var e :| e in s.list && !e.remove && x == Renewed(e, now);
      RenewedEntry(s, e, now);
    }
  }

  lemma RenewedLocated(s: State, t: State, now: int)
    requires EntriesOk(s) && Located(s) && RenewedFrom(s, t, now) && t.ledger == s.ledger && t.pending == s.pending
    ensures Located(t)
  {
    forall a | 0 <= a < |t.ledger| && !t.ledger[a].removed ensures Has(t.list, a) || Has(t.pending, a) {
      assert Has(s.list, a) || Has(s.pending, a);
      if Has(s.list, a) {
        var e :| e in s.list && e.id == a;
        assert !e.remove by { MarkedIsRemoved(s, e); }
        assert Renewed(e, now) in t.list;
      }
    }
  }

  lemma RenewKeeps(s: State, done: nat, now: int, sort: seq<Entry> -> seq<Entry>)
    requires Core(s) && OrderOk(s, done) && IsSort(sort)
    ensures var t := Renew(s, now, sort); Core(t) && Sorted(t.list) && NoFlags(t.list)
  {
    var t := Renew(s, now, sort);
    assert Distinct(s.list);
    RenewedList(s, done, now, sort);
    hide OrderOk, IsSort, Sorted, Distinct, EntriesOk, PendingOk, Located;
    assert RenewedFrom(s, t, now);
    hide RenewedFrom;
    RenewedEntries(s, t, now);
    RenewedLocated(s, t, now);
  }

  lemma MarkedIsRemoved(s: State, e: Entry)
    requires EntriesOk(s) && e in s.list
    ensures Registered(s, e) && e.remove == s.ledger[e.id].removed
  {}

  lemma MergeOneKeeps(s: State)
    requires Core(s) && Sorted(s.list) && NoFlags(s.list) && s.pending != []
    ensures var t := MergeOne(s); Core(t) && Sorted(t.list) && NoFlags(t.list)
  {
    var t := MergeOne(s);
    var e := s.pending[0];
    InsertKeepsEntries(s, e, t);
    InsertMembers(s.list, e);
    InsertOrdered(s.list, e);
    assert e in t.list;
    assert PendingOk(t) && LogOk(t);
    hide EntriesOk, LogOk, PendingOk;
    forall a | 0 <= a < |t.ledger| && !t.ledger[a].removed ensures Has(t.list, a) || Has(t.pending, a) {
      assert Has(s.list, a) || Has(s.pending, a);
      if Has(s.pending, a) {
        var x :| x in s.pending && x.id == a;
        assert x == e || x in t.pending;
      }
    }
  }

  lemma {:induction false} MergeKeeps(s: State)
    requires Core(s) && Sorted(s.list) && NoFlags(s.list)
    ensures var t := Merge(s);
            Core(t) && Sorted(t.list) && NoFlags(t.list) && t.pending == [] && t.processing == s.processing
    decreases |s.pending|
  {
    hide Core, Sorted, NoFlags;
    if s.pending != [] {
      MergeOneKeeps(s);
      MergeKeeps(MergeOne(s));
    }
  }

  lemma StartKeeps(s: State)
    requires Inv(s)
    ensures var b := s.(processing := true, timer := Idle); Core(b) && OrderOk(b, 0)
  {
    assert forall i :: 0 <= i < |s.list| ==> s.list[i] in s.list;
  }

  /** process_periodic_timeouts keeps the invariant. */
  lemma PassKeeps(s: State, now: int, later: int, behave: nat -> seq<Op>, clock: Clock, sort: seq<Entry> -> seq<Entry>)
    requires Inv(s) && IsSort(sort)
    ensures Inv(Pass(s, now, later, behave, clock, sort))
  {
    StartKeeps(s);
    hide Inv, Core, OrderOk, IsSort, NoFlags;
    TraverseKeeps(s.(processing := true, timer := Idle), 0, now, behave);
    var (t, i) := Traversed(s, now, behave);
    RenewKeeps(t, i, later, sort);
    MergeKeeps(Renew(t, later, sort));
    RearmKeeps(Merge(Renew(t, later, sort)), clock);
  }

  lemma RearmKeeps(s: State, clock: Clock)
    requires Core(s) && Sorted(s.list) && NoFlags(s.list) && s.pending == [] && !s.processing
    ensures Inv(Rearm(s, clock))
  {}

  // --------------------------------------------------------------- whole runs

  datatype Event = Call(op: Op) | Fire(now: int, later: int, behave: nat -> seq<Op>, clock: Clock)

  function Step(s: State, event: Event, sort: seq<Entry> -> seq<Entry>): State {
    match event
    case Call(op) => Apply(s, op)
    case Fire(now, later, behave, clock) =>
      if Readable(s.timer, now) then Pass(s, now, later, behave, clock, sort) else s
  }

  function Run(s: State, events: seq<Event>, sort: seq<Entry> -> seq<Entry>): State
    decreases |events|
  {
    if events == [] then s else Run(Step(s, events[0], sort), events[1..], sort)
  }

  lemma StepKeeps(s: State, event: Event, sort: seq<Entry> -> seq<Entry>)
    requires Inv(s) && IsSort(sort)
    ensures Inv(Step(s, event, sort))
  {
    match event
    case Call(op) => ApplyKeeps(s, op);
    case Fire(now, later, behave, clock) => PassKeeps(s, now, later, behave, clock, sort);
  }

  /** In every reachable state the queue is sorted, its timer is armed for the
      front, and the handles queued are exactly those not removed. */
  lemma {:induction false} EveryRunKeepsInvariant(s: State, events: seq<Event>, sort: seq<Entry> -> seq<Entry>)
    requires Inv(s) && IsSort(sort)
    ensures Inv(Run(s, events, sort))
    decreases |events|
  {
    hide Inv, IsSort;
    if events != [] {
      StepKeeps(s, events[0], sort);
      EveryRunKeepsInvariant(Step(s, events[0], sort), events[1..], sort);
    }
  }

  // ------------------------------------------------- what one pass runs, and when

  /** `log` continues the log of `s` with the entries of its list at the positions
      `pos`, in list order, all due and run at `now`. */
  ghost predicate LogsInOrder(s: State, log: seq<Execution>, pos: seq<nat>, now: int) {
    && |log| == |s.log| + |pos|
    && s.log <= log
    && (forall k :: 0 <= k < |pos| ==>
          && pos[k] < |s.list|
          && s.list[pos[k]].deadline <= now
          && log[|s.log| + k] == Execution(s.list[pos[k]].id, s.list[pos[k]].callback, now))
    && (forall k, l :: 0 <= k < l < |pos| ==> pos[k] < pos[l])
  }

  /** `t` is `s` after a traversal from entry `first` to entry `stop` that invoked
      the positions `pos`: every entry passed and not marked is among them. */
  ghost predicate Invoked(s: State, first: nat, t: State, stop: nat, pos: seq<nat>, now: int) {
    && first <= stop <= |s.list| == |t.list|
    && (forall k :: 0 <= k < |s.list| ==>
          t.list[k].(remove := true, processed := true) == s.list[k].(remove := true, processed := true))
    && LogsInOrder(s, t.log, pos, now)
    && (forall k :: 0 <= k < |pos| ==> first <= pos[k] < stop)
    && (forall k :: first <= k < stop && !t.list[k].remove ==> k in pos)
  }

  lemma InvokedFirst(s: State, c: State, i: nat, t: State, stop: nat, pos: seq<nat>, now: int)
    requires i < |s.list| == |c.list| && s.list[i].deadline <= now
    requires forall k :: 0 <= k < |s.list| ==>
               c.list[k].(remove := true, processed := true) == s.list[k].(remove := true, processed := true)
    requires c.log == s.log + [Execution(s.list[i].id, s.list[i].callback, now)]
    requires Invoked(c, i + 1, t, stop, pos, now)
    ensures Invoked(s, i, t, stop, [i] + pos, now)
  {
    var all := [i] + pos;
    forall k | 0 <= k < |all|
      ensures i <= all[k] < stop && s.list[all[k]].deadline <= now
      ensures t.log[|s.log| + k] == Execution(s.list[all[k]].id, s.list[all[k]].callback, now)
    {
      if k == 0 {
        assert t.log[|s.log|] == c.log[|s.log|];
      } else {
        assert t.log[|c.log| + (k - 1)] == Execution(c.list[pos[k - 1]].id, c.list[pos[k - 1]].callback, now);
        assert c.list[pos[k - 1]].(remove := true, processed := true)
               == s.list[all[k]].(remove := true, processed := true);
      }
    }
    forall k | i <= k < stop && !t.list[k].remove ensures k in all {
      if k == i { assert all[0] == k; } else { assert k in pos; }
    }
  }

  lemma InvokedNothing(s: State, i: nat, now: int)
    requires i <= |s.list|
    ensures Invoked(s, i, s, i, [], now)
  {}

  lemma InvokedSkip(s: State, i: nat, t: State, stop: nat, pos: seq<nat>, now: int)
    requires i < |s.list| && Invoked(s, i + 1, t, stop, pos, now) && t.list[i].remove
    ensures Invoked(s, i, t, stop, pos, now)
  {}

  lemma {:induction false} TraverseInvokes(s: State, i: nat, now: int, behave: nat -> seq<Op>) returns (pos: seq<nat>)
    requires s.processing && i <= |s.list|
    ensures var (t, stop) := Traverse(s, i, now, behave); Invoked(s, i, t, stop, pos, now)
    decreases |s.list| - i
  {
    hide Invoked;
    pos := [];
    InvokedNothing(s, i, now);
    if i < |s.list| {
      if s.list[i].remove {
        pos := TraverseInvokes(s, i + 1, now, behave);
        StaysMarked(s, i + 1, now, behave, i);
        var (t, stop) := Traverse(s, i + 1, now, behave);
        InvokedSkip(s, i, t, stop, pos, now);
      } else if s.list[i].deadline <= now {
        var c := RunOps(Begin(s, i, now), behave(s.list[i].id));
        var rest := TraverseInvokes(c, i + 1, now, behave);
        var (t, stop) := Traverse(c, i + 1, now, behave);
        InvokedFirst(s, c, i, t, stop, rest, now);
        pos := [i] + rest;
      }
    }
  }

  lemma {:induction false} StaysMarked(s: State, i: nat, now: int, behave: nat -> seq<Op>, k: nat)
    requires s.processing && i <= |s.list| && k < |s.list| && s.list[k].remove
    ensures Traverse(s, i, now, behave).0.list[k].remove
    decreases |s.list| - i
  {
    if i < |s.list| {
      if s.list[i].remove {
        StaysMarked(s, i + 1, now, behave, k);
      } else if s.list[i].deadline <= now {
        StaysMarked(RunOps(Begin(s, i, now), behave(s.list[i].id)), i + 1, now, behave, k);
      }
    }
  }

  lemma {:induction false} MergeMembers(s: State)
    ensures forall x :: x in Merge(s).list <==> x in s.list || x in s.pending
    ensures Merge(s).log == s.log && Merge(s).ledger == s.ledger
    decreases |s.pending|
  {
    if s.pending != [] {
      InsertMembers(s.list, s.pending[0]);
      MergeMembers(MergeOne(s));
    }
  }

  ghost predicate PendingFrom(s: State, n: nat) {
    n <= |s.ledger| && forall x :: x in s.pending ==> x.id >= n
  }

  lemma {:induction false} RunOpsPendingNew(s: State, ops: seq<Op>, n: nat)
    requires PendingFrom(s, n)
    ensures PendingFrom(RunOps(s, ops), n)
    decreases |ops|
  {
    if ops != [] {
      RunOpsPendingNew(Apply(s, ops[0]), ops[1..], n);
    }
  }

  lemma {:induction false} TraversePendingNew(s: State, i: nat, now: int, behave: nat -> seq<Op>, n: nat)
    requires s.processing && i <= |s.list| && PendingFrom(s, n)
    ensures PendingFrom(Traverse(s, i, now, behave).0, n)
    decreases |s.list| - i
  {
    if i < |s.list| {
      if s.list[i].remove {
        TraversePendingNew(s, i + 1, now, behave, n);
      } else if s.list[i].deadline <= now {
        RunOpsPendingNew(Begin(s, i, now), behave(s.list[i].id), n);
        TraversePendingNew(RunOps(Begin(s, i, now), behave(s.list[i].id)), i + 1, now, behave, n);
      }
    }
  }

  lemma TraversedOutcome(s: State, now: int, behave: nat -> seq<Op>) returns (pos: seq<nat>)
    requires Inv(s)
    ensures var (u, i) := Traversed(s, now, behave);
            && Core(u) && OrderOk(u, i) && Invoked(s, 0, u, i, pos, now)
            && (i < |u.list| ==> u.list[i].deadline > now)
  {
    StartKeeps(s);
    var begun := s.(processing := true, timer := Idle);
    hide Inv, Core, OrderOk, Invoked;
    TraverseKeeps(begun, 0, now, behave);
    pos := TraverseInvokes(begun, 0, now, behave);
    var (u, i) := Traversed(s, now, behave);
    InvokedFrom(begun, s, u, i, pos, now);
  }

  lemma InvokedFrom(b: State, s: State, u: State, i: nat, pos: seq<nat>, now: int)
    requires b.list == s.list && b.log == s.log && Invoked(b, 0, u, i, pos, now)
    ensures Invoked(s, 0, u, i, pos, now)
  {}

  lemma InvokedAt(s: State, u: State, i: nat, pos: seq<nat>, now: int)
    requires Invoked(s, 0, u, i, pos, now)
    ensures LogsInOrder(s, u.log, pos, now) && |u.list| == |s.list|
    ensures forall k :: 0 <= k < |s.list| ==> u.list[k].id == s.list[k].id
  {
    forall k | 0 <= k < |s.list| ensures u.list[k].id == s.list[k].id {
      assert u.list[k].(remove := true, processed := true) == s.list[k].(remove := true, processed := true);
    }
  }

  /** An entry still wanted at the end of the loop was invoked exactly when it was due. */
  lemma EntryOutcome(s: State, u: State, i: nat, pos: seq<nat>, now: int, k: nat)
    requires NoFlags(s.list) && OrderOk(u, i) && Invoked(s, 0, u, i, pos, now)
    requires i < |u.list| ==> u.list[i].deadline > now
    requires k < |s.list| && !u.list[k].remove
    ensures u.list[k] == s.list[k].(processed := s.list[k].deadline <= now)
    ensures k in pos <==> s.list[k].deadline <= now
  {
    assert s.list[k] in s.list;
    assert u.list[k].(remove := true, processed := true) == s.list[k].(remove := true, processed := true);
    if k < i {
      assert k in pos;
    } else {
      assert u.list[i].deadline <= u.list[k].deadline;
    }
  }

  lemma PassParts(s: State, now: int, later: int, behave: nat -> seq<Op>, clock: Clock, sort: seq<Entry> -> seq<Entry>)
    ensures var t, u := Pass(s, now, later, behave, clock, sort), Traversed(s, now, behave).0;
            && t.log == u.log && t.ledger == u.ledger
            && forall x :: x in t.list <==> x in Renew(u, later, sort).list || x in u.pending
  {
    MergeMembers(Renew(Traversed(s, now, behave).0, later, sort));
  }

  /** What becomes of an entry that nobody removes, in a pass that starts at `now` and
      renews at `later`: due, it is due again one period after `later`, with the same
      handle and callback and both flags clear; otherwise it stays as it is. */
  function Following(e: Entry, now: int, later: int): Entry {
    if e.deadline <= now then Entry(e.id, e.period, later + e.period, e.callback, false, false) else e
  }

  lemma SurvivorOutcome(s: State, u: State, i: nat, pos: seq<nat>, now: int, later: int,
                        sort: seq<Entry> -> seq<Entry>, k: nat)
    requires NoFlags(s.list) && EntriesOk(u) && OrderOk(u, i) && Invoked(s, 0, u, i, pos, now) && IsSort(sort)
    requires i < |u.list| ==> u.list[i].deadline > now
    requires k < |s.list| && s.list[k].id < |u.ledger| && !u.ledger[s.list[k].id].removed
    ensures k in pos <==> s.list[k].deadline <= now
    ensures Following(s.list[k], now, later) in Renew(u, later, sort).list
  {
    assert s.list[k] in s.list;
    InvokedAt(s, u, i, pos, now);
    assert u.list[k] in u.list;
    MarkedIsRemoved(u, u.list[k]);
    EntryOutcome(s, u, i, pos, now, k);
    RenewedList(u, i, later, sort);
    hide IsSort, OrderOk, EntriesOk, Distinct, Invoked, Renew, LogsInOrder, Sorted;
    assert Renewed(u.list[k], later) in Renew(u, later, sort).list;
  }

  lemma CoreParts(s: State)
    requires Core(s)
    ensures EntriesOk(s) && Distinct(s.list) && forall k :: 0 <= k < |s.list| ==> s.list[k].id < |s.ledger|
  {
    assert forall k :: 0 <= k < |s.list| ==> s.list[k] in s.list;
  }

  /** One pass, in closed form. It runs due entries in queue order. Of the entries
      it found, each one not removed by a callback of this pass is still queued:
      run once, at `now`, and due again one period after `later` if it was due;
      otherwise not run and unchanged. */
  lemma PassOutcome(s: State, now: int, later: int, behave: nat -> seq<Op>, clock: Clock,
                    sort: seq<Entry> -> seq<Entry>) returns (pos: seq<nat>)
    requires Inv(s) && IsSort(sort)
    ensures var t := Pass(s, now, later, behave, clock, sort);
            && LogsInOrder(s, t.log, pos, now)
            && |s.ledger| <= |t.ledger|
            && (forall k :: 0 <= k < |s.list| ==> s.list[k].id < |s.ledger|)
            && forall k :: 0 <= k < |s.list| && !t.ledger[s.list[k].id].removed ==>
                 && (k in pos <==> s.list[k].deadline <= now)
                 && Following(s.list[k], now, later) in t.list
  {
    pos := TraversedOutcome(s, now, behave);
    PassParts(s, now, later, behave, clock, sort);
    var t := Pass(s, now, later, behave, clock, sort);
    var (u, i) := Traversed(s, now, behave);
    assert Core(s) && NoFlags(s.list);
    hide Inv, Core, IsSort, OrderOk, EntriesOk, Distinct, Invoked, LogsInOrder, Pass, Renew, NoFlags;
    CoreParts(s);
    CoreParts(u);
    InvokedAt(s, u, i, pos, now);
    forall k | 0 <= k < |s.list| && !t.ledger[s.list[k].id].removed
      ensures k in pos <==> s.list[k].deadline <= now
      ensures Following(s.list[k], now, later) in t.list
    {
      SurvivorOutcome(s, u, i, pos, now, later, sort, k);
    }
  }

  /** Nothing in the queue after a pass comes from anywhere else. */
  lemma PassAddsOnlyNew(s: State, now: int, later: int, behave: nat -> seq<Op>, clock: Clock,
                        sort: seq<Entry> -> seq<Entry>, x: Entry)
    requires Inv(s) && IsSort(sort) && x in Pass(s, now, later, behave, clock, sort).list
    ensures x.id >= |s.ledger| || exists k :: 0 <= k < |s.list| && s.list[k].id == x.id
  {
    var pos := TraversedOutcome(s, now, behave);
    PassParts(s, now, later, behave, clock, sort);
    assert s.pending == [];
    hide Inv, Core, Pass, OrderOk, LogsInOrder;
    TraversePendingNew(s.(processing := true, timer := Idle), 0, now, behave, |s.ledger|);
    var (u, i) := Traversed(s, now, behave);
    CoreParts(u);
    RenewedList(u, i, later, sort);
    hide Renew, Sorted, Distinct, IsSort, EntriesOk, Traversed;
    if x !in u.pending {
      var e :| e in u.list && !e.remove && x == Renewed(e, later);
      var k :| 0 <= k < |u.list| && u.list[k] == e;
      assert u.list[k].(remove := true, processed := true) == s.list[k].(remove := true, processed := true);
    }
  }

  // ------------------------------------------------------- removed means silent

  /** No execution of `id` in `log` from position `start` on. */
  ghost predicate Silent(log: seq<Execution>, start: nat, id: nat) {
    forall k :: start <= k < |log| ==> log[k].id != id
  }

  ghost predicate IsRemoved(s: State, id: nat) {
    id < |s.ledger| && s.ledger[id].removed
  }

  lemma {:induction false} RunOpsKeepsRemoved(s: State, ops: seq<Op>, id: nat)
    requires IsRemoved(s, id)
    ensures IsRemoved(RunOps(s, ops), id)
    decreases |ops|
  {
    if ops != [] {
      RunOpsKeepsRemoved(Apply(s, ops[0]), ops[1..], id);
    }
  }

  lemma SilentFrom(s: State, c: State, t: State, id: nat)
    requires |c.log| == |s.log| + 1 && c.log[|s.log|].id != id
    requires c.log <= t.log && Silent(t.log, |c.log|, id)
    ensures Silent(t.log, |s.log|, id)
  {
    assert t.log[|s.log|] == c.log[|s.log|];
  }

  lemma {:induction false} TraverseExtendsLog(s: State, i: nat, now: int, behave: nat -> seq<Op>)
    requires s.processing && i <= |s.list|
    ensures s.log <= Traverse(s, i, now, behave).0.log
  {
    var _ := TraverseInvokes(s, i, now, behave);
  }

  lemma BeginRemoved(s: State, i: nat, now: int, id: nat)
    requires i < |s.list| && IsRemoved(s, id) && Registered(s, s.list[i])
    requires s.list[i].remove == s.ledger[s.list[i].id].removed
    ensures IsRemoved(Begin(s, i, now), id) && (!s.list[i].remove ==> s.list[i].id != id)
  {}

  /** From the moment a handle is removed, even in the middle of a traversal and by
      the callback being run, the rest of the traversal does not start it. */
  lemma {:induction false} RemovedIsNotStarted(s: State, i: nat, now: int, behave: nat -> seq<Op>, id: nat)
    requires Core(s) && s.processing && OrderOk(s, i) && IsRemoved(s, id)
    ensures var t := Traverse(s, i, now, behave).0; Silent(t.log, |s.log|, id) && IsRemoved(t, id)
    decreases |s.list| - i
  {
    assert i <= |s.list|;
    TraverseStep(s, i, now, behave);
    if i < |s.list| {
      MarkedIsRemoved(s, s.list[i]);
      hide Core, OrderOk, Silent, IsRemoved, Traverse, RunOps, Begin, Frozen;
      if s.list[i].remove {
        SkipKeeps(s, i);
        RemovedIsNotStarted(s, i + 1, now, behave, id);
      } else if s.list[i].deadline <= now {
        var b, ops := Begin(s, i, now), behave(s.list[i].id);
        var c := RunOps(b, ops);
        BeginRemoved(s, i, now, id);
        BeginProcessing(s, i, now);
        BeginKeeps(s, i, now);
        RunOpsKeeps(b, ops, i + 1);
        RunOpsKeepsRemoved(b, ops, id);
        RemovedIsNotStarted(c, i + 1, now, behave, id);
        TraverseExtendsLog(c, i + 1, now, behave);
        SilentFrom(s, c, Traverse(c, i + 1, now, behave).0, id);
      }
    }
  }

  /** What ran stays in the log. */
  lemma {:induction false} RunExtendsLog(s: State, events: seq<Event>, sort: seq<Entry> -> seq<Entry>)
    ensures s.log <= Run(s, events, sort).log
    decreases |events|
  {
    if events != [] {
      match events[0]
      case Call(op) =>
        RunExtendsLog(Step(s, events[0], sort), events[1..], sort);
      case Fire(now, later, behave, clock) =>
        PassParts(s, now, later, behave, clock, sort);
        TraverseExtendsLog(s.(processing := true, timer := Idle), 0, now, behave);
        hide Pass;
        RunExtendsLog(Step(s, events[0], sort), events[1..], sort);
    }
  }

  lemma PassSilent(s: State, now: int, later: int, behave: nat -> seq<Op>, clock: Clock,
                   sort: seq<Entry> -> seq<Entry>, id: nat)
    requires Inv(s) && IsRemoved(s, id)
    ensures var t := Pass(s, now, later, behave, clock, sort);
            s.log <= t.log && Silent(t.log, |s.log|, id) && IsRemoved(t, id)
  {
    StartKeeps(s);
    hide Inv, Core, OrderOk, Silent;
    var begun := s.(processing := true, timer := Idle);
    RemovedIsNotStarted(begun, 0, now, behave, id);
    TraverseExtendsLog(begun, 0, now, behave);
    PassParts(s, now, later, behave, clock, sort);
    hide Pass, Renew;
  }

  lemma CallSilent(s: State, op: Op, id: nat)
    requires IsRemoved(s, id)
    ensures IsRemoved(Apply(s, op), id) && Apply(s, op).log == s.log
  {}

  lemma StepSilent(s: State, event: Event, sort: seq<Entry> -> seq<Entry>, id: nat)
    requires Inv(s) && IsSort(sort) && IsRemoved(s, id)
    ensures var t := Step(s, event, sort); s.log <= t.log && Silent(t.log, |s.log|, id) && IsRemoved(t, id)
  {
    hide Inv, IsSort;
    match event
    case Call(op) =>
      CallSilent(s, op, id);
    case Fire(now, later, behave, clock) =>
      PassSilent(s, now, later, behave, clock, sort, id);
      hide Pass;
  }

  /** Over every run: once removed, whether queued, being traversed or held back,
      a handle stays removed and its callback never starts again. */
  lemma {:induction false} RemovedStaysSilent(s: State, events: seq<Event>, sort: seq<Entry> -> seq<Entry>, id: nat)
    requires Inv(s) && IsSort(sort) && IsRemoved(s, id)
    ensures var t := Run(s, events, sort); s.log <= t.log && Silent(t.log, |s.log|, id) && IsRemoved(t, id)
    decreases |events|
  {
    if events != [] {
      var t := Step(s, events[0], sort);
      StepKeeps(s, events[0], sort);
      StepSilent(s, events[0], sort, id);
      hide Inv, IsSort;
      RemovedStaysSilent(t, events[1..], sort, id);
      var u := Run(t, events[1..], sort);
      forall k | |s.log| <= k < |u.log| ensures u.log[k].id != id {
        assert k < |t.log| ==> u.log[k] == t.log[k];
      }
    }
  }

  lemma ApplyRemovesRequested(s: State, op: Op, id: nat)
    requires IsRemoved(Apply(s, op), id)
    ensures IsRemoved(s, id) || op == Remove(id)
  {}

  /** ... and nothing but a request removes a handle. */
  lemma {:induction false} RunOpsRemovesRequested(s: State, ops: seq<Op>, id: nat)
    requires IsRemoved(RunOps(s, ops), id)
    ensures IsRemoved(s, id) || Remove(id) in ops
    decreases |ops|
  {
    if ops != [] {
      var t := Apply(s, ops[0]);
      RunOpsRemovesRequested(t, ops[1..], id);
      if IsRemoved(t, id) {
        ApplyRemovesRequested(s, ops[0], id);
      }
    }
  }

  lemma {:induction false} TraverseRemovesRequested(s: State, i: nat, now: int, behave: nat -> seq<Op>, id: nat)
    requires s.processing && i <= |s.list| && IsRemoved(Traverse(s, i, now, behave).0, id)
    ensures IsRemoved(s, id) || exists h :: Remove(id) in behave(h)
    decreases |s.list| - i
  {
    if i < |s.list| {
      if s.list[i].remove {
        TraverseRemovesRequested(s, i + 1, now, behave, id);
      } else if s.list[i].deadline <= now {
        TraverseRemovesRequested(RunOps(Begin(s, i, now), behave(s.list[i].id)), i + 1, now, behave, id);
        if IsRemoved(RunOps(Begin(s, i, now), behave(s.list[i].id)), id) {
          RunOpsRemovesRequested(Begin(s, i, now), behave(s.list[i].id), id);
        }
      }
    }
  }

  // ---------------------------------------------------- the wake-up is not lost

  lemma RanIsHeard(s: State, log: seq<Execution>, pos: seq<nat>, now: int, k: nat)
    requires LogsInOrder(s, log, pos, now) && k in pos
    ensures k < |s.list| && !Silent(log, |s.log|, s.list[k].id)
  {
    var l :| 0 <= l < |pos| && pos[l] == k;
    assert log[|s.log| + l].id == s.list[k].id;
  }

  /** In every reachable state a queued handle has its wake-up: from its deadline
      (or 1 ns after the timer was last armed) plus the lag of that arming, the
      timer is readable, and reading it runs the callback in that very pass and
      sets the next deadline, unless another callback removes the handle. */
  lemma NoTimeoutStarves(s: State, k: nat, now: int, later: int, behave: nat -> seq<Op>, clock: Clock,
                         sort: seq<Entry> -> seq<Entry>)
    requires Inv(s) && IsSort(sort) && k < |s.list|
    requires s.timer.Armed? ==>
               now >= Max(s.list[k].deadline, s.timer.clock.read + 1) + (s.timer.clock.armed - s.timer.clock.read)
    ensures s.timer.Armed? && Readable(s.timer, now)
    ensures var t := Step(s, Fire(now, later, behave, clock), sort);
            IsRemoved(t, s.list[k].id) ||
            (Following(s.list[k], now, later) in t.list && !Silent(t.log, |s.log|, s.list[k].id))
  {
    assert k > 0 ==> s.list[0].deadline <= s.list[k].deadline;
    assert s.timer.Armed? && s.timer.aim <= s.list[k].deadline;
    hide Inv, IsSort, Pass, Readable, LogsInOrder, Silent;
    ReadableInTime(s.timer, s.list[k].deadline, now);
    var pos := PassOutcome(s, now, later, behave, clock, sort);
    if k in pos {
      RanIsHeard(s, Pass(s, now, later, behave, clock, sort).log, pos, now, k);
    }
  }

  // -------------------------------------------------- sorting functions do exist

  function InsertionSort(list: seq<Entry>): seq<Entry> {
    if list == [] then [] else Insert(InsertionSort(list[1..]), list[0])
  }

  lemma InsertMultiset(list: seq<Entry>, e: Entry)
    ensures multiset(Insert(list, e)) == multiset(list) + multiset{e}
  {
    var k := LowerBound(list, e.deadline);
    assert list == list[..k] + list[k..];
  }

  lemma {:induction false} InsertionSortSorts(list: seq<Entry>)
    ensures SortsTo(list, InsertionSort(list))
  {
    hide Insert, LowerBound;
    if list != [] {
      var rest := InsertionSort(list[1..]);
      InsertionSortSorts(list[1..]);
      InsertOrdered(rest, list[0]);
      InsertMultiset(rest, list[0]);
      hide Sorted;
      assert list == [list[0]] + list[1..];
    }
  }

  lemma SortExists()
    ensures IsSort(InsertionSort)
  {
    forall list ensures SortsTo(list, InsertionSort(list)) {
      InsertionSortSorts(list);
    }
  }
}
