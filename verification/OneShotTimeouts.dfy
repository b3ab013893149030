/** The one-shot timeouts of linuxpp::ioloop: the sorted queue, the additions
    held back while the queue is being traversed, deferred removal, and the
    timer that wakes the loop.

    A callback is an arbitrary finite list of operations on the queue. What the
    callback of a handle does is the value of an arbitrary function `behave` at
    that handle, so a claim about all `behave` is a claim about all callbacks. */
module OneShotTimeouts {
  import opened MonotonicTimer

  /** Where a handle stands. `Dropped` is the fate of an entry that
      process_timeouts erases although it has neither run nor been removed. */
  datatype Fate = Pending | Queued | Ran | Removed | Dropped

  /** What was asked for when the handle was issued, and what became of it. */
  datatype Record = Record(deadline: int, callback: nat, fate: Fate)

  datatype Entry = Entry(id: nat, deadline: int, callback: nat, remove: bool)

  datatype Execution = Execution(id: nat, callback: nat, at: int)

  datatype Op = Add(deadline: int, callback: nat, clock: Clock) | Remove(id: nat)

  /** `list`, `pending`, `processing` and `timer` are the members of the source.
      `ledger` has one record per handle issued, indexed by the handle's id, so
      the next id is its length; `log` is every callback run so far, in order. */
  datatype State = State(
    list: seq<Entry>,
    pending: seq<Entry>,
    processing: bool,
    timer: Timer,
    ledger: seq<Record>,
    log: seq<Execution>)

  const INITIAL := State([], [], false, Idle, [], [])

  // ---------------------------------------------------------------- the queue

  /** Deadline ascending, and the handle issued last first among equals. */
  predicate Before(a: Entry, b: Entry) {
    a.deadline < b.deadline || (a.deadline == b.deadline && a.id > b.id)
  }

  ghost predicate Sorted(list: seq<Entry>) {
    forall i, j :: 0 <= i < j < |list| ==> Before(list[i], list[j])
  }

  /** std::lower_bound by deadline. */
  function LowerBound(list: seq<Entry>, deadline: int): (k: nat)
    ensures k <= |list|
    ensures forall i :: 0 <= i < k ==> list[i].deadline < deadline
    ensures k < |list| ==> list[k].deadline >= deadline
  {
    if list == [] || list[0].deadline >= deadline then 0
    else 1 + LowerBound(list[1..], deadline)
  }

  function Insert(list: seq<Entry>, e: Entry): seq<Entry> {
    var k := LowerBound(list, e.deadline);
    list[..k] + [e] + list[k..]
  }

  /** The first entry with the handle, or the length when there is none. */
  function IndexOf(list: seq<Entry>, id: nat): (i: nat)
    ensures i <= |list|
    ensures i < |list| ==> list[i].id == id
    ensures forall j :: 0 <= j < i ==> list[j].id != id
  {
    if list == [] || list[0].id == id then 0 else 1 + IndexOf(list[1..], id)
  }

  function Erase(list: seq<Entry>, i: nat): seq<Entry>
    requires i < |list|
  {
    list[..i] + list[i + 1..]
  }

  /** std::remove_if over the `remove` marks. */
  function Unmarked(list: seq<Entry>): (r: seq<Entry>)
    ensures forall e :: e in r <==> e in list && !e.remove
  {
    if list == [] then []
    else if list[0].remove then Unmarked(list[1..])
    else [list[0]] + Unmarked(list[1..])
  }

  function SetFate(ledger: seq<Record>, id: nat, fate: Fate): seq<Record> {
    if id < |ledger| then ledger[id := ledger[id].(fate := fate)] else ledger
  }

  // ----------------------------------------------------------- the operations

  function AddTimeout(s: State, deadline: int, callback: nat, clock: Clock): State {
    var e := Entry(|s.ledger|, deadline, callback, false);
    if s.processing then
      s.(pending := s.pending + [e], ledger := s.ledger + [Record(deadline, callback, Pending)])
    else
      var rearm := s.list == [] || s.list[0].deadline > deadline;
      s.(list := Insert(s.list, e),
         timer := if rearm then SetOneshot(deadline, clock) else s.timer,
         ledger := s.ledger + [Record(deadline, callback, Queued)])
  }

  function RemoveTimeout(s: State, id: nat): State {
    var i := IndexOf(s.list, id);
    var j := IndexOf(s.pending, id);
    if i < |s.list| then
      if s.processing then
        s.(list := s.list[i := s.list[i].(remove := true)],
           ledger := if id < |s.ledger| && s.ledger[id].fate == Queued
                     then SetFate(s.ledger, id, Removed) else s.ledger)
      else
        s.(list := Erase(s.list, i), ledger := SetFate(s.ledger, id, Removed))
    else if j < |s.pending| then
      s.(pending := Erase(s.pending, j), ledger := SetFate(s.ledger, id, Removed))
    else
      s
  }

  /** What a traversal relies on: its list keeps its length, its handles and its
      deadlines, marks are only ever turned on, and the timer is not touched. */
  ghost predicate Frozen(s: State, t: State) {
    && t.processing == s.processing
    && |t.list| == |s.list|
    && t.timer == s.timer
    && t.log == s.log
    && forall i :: 0 <= i < |s.list| ==>
         t.list[i] == s.list[i] || t.list[i] == s.list[i].(remove := true)
  }

  function Apply(s: State, op: Op): (t: State)
    ensures s.processing ==> Frozen(s, t)
  {
    match op
    case Add(deadline, callback, clock) => AddTimeout(s, deadline, callback, clock)
    case Remove(id) => RemoveTimeout(s, id)
  }

  /** A callback, run. Re-entrancy: while the queue is being traversed no
      sequence of operations moves, adds or drops an entry of its list. */
  function RunOps(s: State, ops: seq<Op>): (t: State)
    ensures s.processing ==> Frozen(s, t)
    decreases |ops|
  {
    if ops == [] then s else RunOps(Apply(s, ops[0]), ops[1..])
  }

  /** The moment before the callback of entry `i` is called. */
  function Begin(s: State, i: nat, now: int): State
    requires i < |s.list|
  {
    var e := s.list[i];
    s.(log := s.log + [Execution(e.id, e.callback, now)],
       ledger := SetFate(s.ledger, e.id, Ran))
  }

  /** The loop of process_timeouts, from entry `i`. It stops at the end or at the
      first unmarked entry whose deadline is after `now`; the second component
      is that position. It terminates because its callbacks leave the list
      frozen, even if every one of them adds a timeout that is already due. */
  function Traverse(s: State, i: nat, now: int, behave: nat -> seq<Op>): (r: (State, nat))
    requires s.processing && i <= |s.list|
    ensures r.0.processing && |r.0.list| == |s.list| && i <= r.1 <= |s.list|
    decreases |s.list| - i
  {
    if i == |s.list| then (s, i)
    else if s.list[i].remove then Traverse(s, i + 1, now, behave)
    else if s.list[i].deadline <= now then
      Traverse(RunOps(Begin(s, i, now), behave(s.list[i].id)), i + 1, now, behave)
    else (s, i)
  }

  /** The source advances its iterator before it tests the deadline, so the
      entry that stops the loop lies before the iterator and is erased with the
      expired ones. `Intended` leaves that entry in the queue. */
  datatype Variant = AsWritten | Intended

  function ErasePassed(s: State, i: nat, v: Variant): State
    requires i <= |s.list|
  {
    if v == AsWritten && i < |s.list| then
      s.(list := s.list[i + 1..], processing := false,
         ledger := SetFate(s.ledger, s.list[i].id, Dropped))
    else
      s.(list := s.list[i..], processing := false)
  }

  function Prune(s: State): State {
    s.(list := Unmarked(s.list))
  }

  /** Moves the oldest held-back addition into the queue. */
  function MergeOne(s: State): State
    requires s.pending != []
  {
    var e := s.pending[0];
    s.(list := Insert(s.list, e), pending := s.pending[1..], ledger := SetFate(s.ledger, e.id, Queued))
  }

  function Merge(s: State): State
    decreases |s.pending|
  {
    if s.pending == [] then s else Merge(MergeOne(s))
  }

  function Rearm(s: State, clock: Clock): State {
    if s.list == [] then s else s.(timer := SetOneshot(s.list[0].deadline, clock))
  }

  function Traversed(s: State, now: int, behave: nat -> seq<Op>): (r: (State, nat))
    ensures r.1 <= |r.0.list|
  {
    Traverse(s.(processing := true, timer := Idle), 0, now, behave)
  }

  /** Everything after the loop. */
  function Finish(s: State, i: nat, clock: Clock, v: Variant): State
    requires i <= |s.list|
  {
    Rearm(Merge(Prune(ErasePassed(s, i, v))), clock)
  }

  /** process_timeouts */
  function Pass(s: State, now: int, behave: nat -> seq<Op>, clock: Clock, v: Variant): State {
    var (t, i) := Traversed(s, now, behave);
    Finish(t, i, clock, v)
  }
}
