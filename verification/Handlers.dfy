/** The descriptor handlers of linuxpp::ioloop and the epoll instance they are
    mirrored into: registration, removal put off until a batch has been
    dispatched, dispatch through pointers into the handler map, and pruning. */
module Handlers {

  type Fd = int

  /** An element of the handler map. `node` is its identity: epoll hands back a
      pointer to the element, which is good only while that very element lives. */
  datatype Handler = Handler(node: nat, events: nat, callback: nat)

  datatype Errno = OK | EEXIST | EBADF | ENOENT

  /** What a handler, or anybody else on the loop's thread, may do. */
  datatype Op =
    | AddHandler(fd: Fd, events: nat, callback: nat)
    | RemoveHandler(fd: Fd)
    | Open(fd: Fd)
    | Close(fd: Fd)

  /** An event as epoll_wait reports it. */
  datatype Event = Event(fd: Fd, node: nat)

  /** One dispatch: the callback called, or a pointer to an element that is gone. */
  datatype Dispatch = Called(fd: Fd, node: nat, callback: nat) | Wild(node: nat)

  /** `open` and `interest` belong to the kernel; `nextNode` numbers the elements
      ever put into the map; `log` is every dispatch so far, and `careless` whether a
      descriptor was ever closed while it had a handler. */
  datatype State = State(
    handlers: map<Fd, Handler>,
    processing: bool,
    removed: seq<Fd>,
    sizeEvents: int,
    interest: map<Fd, nat>,
    open: set<Fd>,
    nextNode: nat,
    log: seq<Dispatch>,
    careless: bool)

  const INITIAL := State(map[], false, [], 0, map[], {}, 0, [], false)

  // --------------------------------------------------------------------- epoll

  /** epoll_ctl(EPOLL_CTL_ADD) and the event counter. */
  function EpollAdd(s: State, fd: Fd, node: nat): (State, Errno) {
    if fd !in s.open then (s, EBADF)
    else if fd in s.interest then (s, EEXIST)
    else (s.(interest := s.interest[fd := node], sizeEvents := s.sizeEvents + 1), OK)
  }

  /** epoll_ctl(EPOLL_CTL_DEL): a descriptor that is not open is EBADF, one that is
      open but not registered ENOENT. */
  function EpollDel(s: State, fd: Fd): (State, Errno) {
    if fd !in s.open then (s, EBADF)
    else if fd !in s.interest then (s, ENOENT)
    else (s.(interest := s.interest - {fd}, sizeEvents := s.sizeEvents - 1), OK)
  }

  // ---------------------------------------------------------------- operations

  function AddHandlerOp(s: State, fd: Fd, events: nat, callback: nat): (State, bool) {
    if fd in s.handlers then (s, true)
    else
      var (t, errno) := EpollAdd(s, fd, s.nextNode);
      if errno == OK then
        (t.(handlers := s.handlers[fd := Handler(s.nextNode, events, callback)], nextNode := s.nextNode + 1), false)
      else (s, true)
  }

  function RemoveHandlerOp(s: State, fd: Fd): (State, bool) {
    if fd !in s.handlers then (s, false)
    else if s.processing then (s.(removed := s.removed + [fd]), false)
    else
      var (t, errno) := EpollDel(s.(handlers := s.handlers - {fd}), fd);
      (t, errno == EBADF)
  }

  /** The state after an operation, and whether it threw. */
  function Apply(s: State, op: Op): (State, bool) {
    match op
    case AddHandler(fd, events, callback) => AddHandlerOp(s, fd, events, callback)
    case RemoveHandler(fd) => RemoveHandlerOp(s, fd)
    case Open(fd) => (s.(open := s.open + {fd}), false)
    case Close(fd) =>
      (s.(open := s.open - {fd}, interest := s.interest - {fd}, careless := s.careless || fd in s.handlers), false)
  }

  function RunOps(s: State, ops: seq<Op>): State
    decreases |ops|
  {
    if ops == [] then s else RunOps(Apply(s, ops[0]).0, ops[1..])
  }

  // ------------------------------------------------------------------ one batch

  /** handler->second.callback(handler->first, ...) through the reported pointer. */
  function Follow(s: State, event: Event): Dispatch {
    if event.fd in s.handlers && s.handlers[event.fd].node == event.node
    then Called(event.fd, event.node, s.handlers[event.fd].callback)
    else Wild(event.node)
  }

  /** The loop over the reported events; `behave` says what the callback of each
      element does in this batch. */
  function DispatchAll(s: State, events: seq<Event>, behave: nat -> seq<Op>): State
    decreases |events|
  {
    if events == [] then s
    else
      var called := s.(log := s.log + [Follow(s, events[0])]);
      DispatchAll(RunOps(called, behave(events[0].node)), events[1..], behave)
  }

  /** One element of removed_handlers_ that epoll does not refuse. */
  function Erased(s: State, fd: Fd): State {
    var t := EpollDel(s, fd).0;
    t.(handlers := t.handlers - {fd})
  }

  /** The loop over removed_handlers_: it throws at the first descriptor that epoll
      refuses with anything but ENOENT, before erasing its handler. */
  function PruneFrom(s: State, k: nat): (State, bool)
    decreases |s.removed| - k
  {
    if k >= |s.removed| then (s.(removed := []), false)
    else if EpollDel(s, s.removed[k]).1 == EBADF then (s, true)
    else PruneFrom(Erased(s, s.removed[k]), k + 1)
  }

  /** What epoll_wait may report, waiting without a time limit: at least one event, of
      registered descriptors, each once, no more than the buffer of size_events holds. */
  ghost predicate Reportable(s: State, events: seq<Event>) {
    && 0 < |events| <= s.sizeEvents
    && (forall k :: 0 <= k < |events| ==> events[k].fd in s.interest && s.interest[events[k].fd] == events[k].node)
    && (forall j, k :: 0 <= j < k < |events| ==> events[j].fd != events[k].fd)
  }

  function Dispatched(s: State, events: seq<Event>, behave: nat -> seq<Op>): State {
    DispatchAll(s.(processing := true), events, behave).(processing := false)
  }

  /** One round of start() after a successful wait. */
  function Batch(s: State, events: seq<Event>, behave: nat -> seq<Op>): (State, bool) {
    PruneFrom(Dispatched(s, events, behave), 0)
  }
}
