/** The periodic timeouts of linuxpp::ioloop. A callback is an arbitrary finite
    list of operations: `behave` gives, for one pass, what the callback of each
    handle does. std::sort may order equal deadlines in any way: `sort` is any
    function that returns a sorted permutation of its argument. */
module PeriodicTimeouts {
  import opened MonotonicTimer

  datatype Entry = Entry(id: nat, period: int, deadline: int, callback: nat, remove: bool, processed: bool)

  /** One record per handle issued, indexed by id. */
  datatype Record = Record(period: int, callback: nat, removed: bool)

  datatype Execution = Execution(id: nat, callback: nat, at: int)

  datatype Op = Add(period: int, callback: nat, now: int, clock: Clock) | Remove(id: nat)

  /** `log` is every callback run so far. The state is the intended one throughout;
      `undefinedReturn` and `undefinedErase` record whether the source has by then
      returned the front of an empty vector, or erased an iterator of one vector
      from another. */
  datatype State = State(
    list: seq<Entry>,
    pending: seq<Entry>,
    processing: bool,
    timer: Timer,
    ledger: seq<Record>,
    log: seq<Execution>,
    undefinedReturn: bool,
    undefinedErase: bool)

  const INITIAL := State([], [], false, Idle, [], [], false, false)

  // ---------------------------------------------------------------- the queue

  ghost predicate Sorted(list: seq<Entry>) {
    forall i, j :: 0 <= i < j < |list| ==> list[i].deadline <= list[j].deadline
  }

  ghost predicate SortsTo(list: seq<Entry>, sorted: seq<Entry>) {
    Sorted(sorted) && multiset(sorted) == multiset(list)
  }

  ghost predicate IsSort(sort: seq<Entry> -> seq<Entry>) {
    forall list :: SortsTo(list, sort(list))
  }

  function LowerBound(list: seq<Entry>, deadline: int): (k: nat)
    ensures k <= |list|
    ensures forall i :: 0 <= i < k ==> list[i].deadline < deadline
    ensures k < |list| ==> list[k].deadline >= deadline
  {
    if list == [] || list[0].deadline >= deadline then 0
    else 1 + LowerBound(list[1..], deadline)
  }

  function Insert(list: seq<Entry>, e: Entry): seq<Entry> {
    var k := LowerBound(list, e.deadline);
    list[..k] + [e] + list[k..]
  }

  function IndexOf(list: seq<Entry>, id: nat): (i: nat)
    ensures i <= |list|
    ensures i < |list| ==> list[i].id == id
    ensures forall j :: 0 <= j < i ==> list[j].id != id
  {
    if list == [] || list[0].id == id then 0 else 1 + IndexOf(list[1..], id)
  }

  function Erase(list: seq<Entry>, i: nat): seq<Entry>
    requires i < |list|
  {
    list[..i] + list[i + 1..]
  }

  function Unmarked(list: seq<Entry>): (r: seq<Entry>)
    ensures forall e :: e in r <==> e in list && !e.remove
  {
    if list == [] then []
    else if list[0].remove then Unmarked(list[1..])
    else [list[0]] + Unmarked(list[1..])
  }

  /** periodic_timeout_callback::reset */
  function Reset(e: Entry, now: int): Entry {
    e.(deadline := now + e.period, processed := false)
  }

  /** The reset loop gives up at the first entry that was not processed. */
  function ResetPrefix(list: seq<Entry>, now: int): seq<Entry> {
    if list == [] || !list[0].processed then list
    else [Reset(list[0], now)] + ResetPrefix(list[1..], now)
  }

  function MarkRemoved(ledger: seq<Record>, id: nat): seq<Record> {
    if id < |ledger| then ledger[id := ledger[id].(removed := true)] else ledger
  }

  // ----------------------------------------------------------- the operations

  function AddPeriodic(s: State, period: int, callback: nat, now: int, clock: Clock): State {
    var e := Entry(|s.ledger|, period, now + period, callback, false, false);
    var ledger := s.ledger + [Record(period, callback, false)];
    if s.processing then
      s.(pending := s.pending + [e], ledger := ledger)
    else
      var rearm := s.list == [] || e.deadline < s.list[0].deadline;
      s.(list := Insert(s.list, e),
         timer := if rearm then SetOneshot(e.deadline, clock) else s.timer,
         ledger := ledger,
         undefinedReturn := s.undefinedReturn || (s.list == [] && s.pending == []))
  }

  function RemovePeriodic(s: State, id: nat): State {
    var i := IndexOf(s.list, id);
    var j := IndexOf(s.pending, id);
    if i < |s.list| then
      s.(list := if s.processing then s.list[i := s.list[i].(remove := true)] else Erase(s.list, i),
         ledger := MarkRemoved(s.ledger, id))
    else if j < |s.pending| then
      s.(pending := Erase(s.pending, j), ledger := MarkRemoved(s.ledger, id), undefinedErase := true)
    else
      s
  }

  ghost predicate Frozen(s: State, t: State) {
    && t.processing == s.processing
    && |t.list| == |s.list|
    && t.timer == s.timer
    && t.log == s.log
    && forall i :: 0 <= i < |s.list| ==>
         t.list[i] == s.list[i] || t.list[i] == s.list[i].(remove := true)
  }

  lemma RemoveFrozen(s: State, id: nat)
    ensures s.processing ==> Frozen(s, RemovePeriodic(s, id))
    ensures |RemovePeriodic(s, id).ledger| == |s.ledger|
  {
    hide IndexOf, Erase;
  }

  function Apply(s: State, op: Op): (t: State)
    ensures s.processing ==> Frozen(s, t)
    ensures |s.ledger| <= |t.ledger|
  {
    match op
    case Add(period, callback, now, clock) => AddPeriodic(s, period, callback, now, clock)
    case Remove(id) => RemoveFrozen(s, id); RemovePeriodic(s, id)
  }

  /** Re-entrancy: while the list is being traversed no sequence of operations
      moves, adds or drops one of its entries. */
  function RunOps(s: State, ops: seq<Op>): (t: State)
    ensures s.processing ==> Frozen(s, t)
    ensures |s.ledger| <= |t.ledger|
    decreases |ops|
  {
    if ops == [] then s else RunOps(Apply(s, ops[0]), ops[1..])
  }

  /** periodic_timeout_callback::invoke, up to the call of the callback. */
  function Begin(s: State, i: nat, now: int): State
    requires i < |s.list|
  {
    var e := s.list[i];
    s.(list := s.list[i := e.(processed := true)], log := s.log + [Execution(e.id, e.callback, now)])
  }

  function Traverse(s: State, i: nat, now: int, behave: nat -> seq<Op>): (r: (State, nat))
    requires s.processing && i <= |s.list|
    ensures r.0.processing && |r.0.list| == |s.list| && i <= r.1 <= |s.list|
    ensures |s.ledger| <= |r.0.ledger|
    decreases |s.list| - i
  {
    if i == |s.list| then (s, i)
    else if s.list[i].remove then Traverse(s, i + 1, now, behave)
    else if s.list[i].deadline <= now then
      Traverse(RunOps(Begin(s, i, now), behave(s.list[i].id)), i + 1, now, behave)
    else (s, i)
  }

  function Traversed(s: State, now: int, behave: nat -> seq<Op>): (r: (State, nat))
    ensures r.1 <= |r.0.list| && |s.ledger| <= |r.0.ledger|
  {
    Traverse(s.(processing := true, timer := Idle), 0, now, behave)
  }

  function MergeOne(s: State): State
    requires s.pending != []
  {
    s.(list := Insert(s.list, s.pending[0]), pending := s.pending[1..])
  }

  function Merge(s: State): State
    decreases |s.pending|
  {
    if s.pending == [] then s else Merge(MergeOne(s))
  }

  function Rearm(s: State, clock: Clock): State {
    if s.list == [] then s else s.(timer := SetOneshot(s.list[0].deadline, clock))
  }

  /** The marked entries dropped, the processed ones reset, everything re-sorted. */
  function Renew(s: State, now: int, sort: seq<Entry> -> seq<Entry>): State {
    s.(processing := false, list := sort(ResetPrefix(Unmarked(s.list), now)))
  }

  /** process_periodic_timeouts: `now` is read before the callbacks, `later` after them. */
  function Pass(s: State, now: int, later: int, behave: nat -> seq<Op>, clock: Clock,
                sort: seq<Entry> -> seq<Entry>): State
  {
    Rearm(Merge(Renew(Traversed(s, now, behave).0, later, sort)), clock)
  }
}
