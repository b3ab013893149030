/** linuxpp::epoll and the handler members of linuxpp::ioloop, updated in place. */
module HandlerTable {
  import opened M = Handlers
  import P = HandlerProofs

  /** An epoll instance: the kernel's side of it, and the counter that sizes the
      event buffer. */
  class Epoll {
    var open: set<Fd>
    var interest: map<Fd, nat>
    var sizeEvents: int

    constructor (open: set<Fd>)
      ensures this.open == open && interest == map[] && sizeEvents == 0
    {
      this.open, interest, sizeEvents := open, map[], 0;
    }

    /** epoll_ctl(EPOLL_CTL_ADD) */
    method Add(fd: Fd, node: nat) returns (errno: Errno)
      modifies this`interest, this`sizeEvents
      ensures errno == OK <==> fd in open && fd !in old(interest)
      ensures errno == OK ==> interest == old(interest)[fd := node] && sizeEvents == old(sizeEvents) + 1
      ensures errno != OK ==> unchanged(this)
    {
      if fd !in open {
        return EBADF;
      }
      if fd in interest {
        return EEXIST;
      }
      interest := interest[fd := node];
      sizeEvents := sizeEvents + 1;
      errno := OK;
    }

    /** epoll_ctl(EPOLL_CTL_DEL) */
    method Del(fd: Fd) returns (errno: Errno)
      modifies this`interest, this`sizeEvents
      ensures errno == if fd !in open then EBADF else if fd !in old(interest) then ENOENT else OK
      ensures errno == OK ==> interest == old(interest) - {fd} && sizeEvents == old(sizeEvents) - 1
      ensures errno != OK ==> unchanged(this)
    {
      if fd !in open {
        return EBADF;
      }
      if fd !in interest {
        return ENOENT;
      }
      interest := interest - {fd};
      sizeEvents := sizeEvents - 1;
      errno := OK;
    }
  }

  class Table {
    const epoll: Epoll
    var handlers: map<Fd, Handler>
    var processing: bool
    var removed: seq<Fd>
    var nextNode: nat
    ghost var log: seq<Dispatch>
    ghost var careless: bool

    ghost function View(): State
      reads this, epoll
    {
      State(handlers, processing, removed, epoll.sizeEvents, epoll.interest, epoll.open, nextNode, log, careless)
    }

    constructor (epoll: Epoll)
      requires epoll.interest == map[] && epoll.sizeEvents == 0
      ensures this.epoll == epoll && View() == INITIAL.(open := epoll.open)
      ensures P.Inv(View()) && P.Agree(View())
    {
      this.epoll := epoll;
      handlers, processing, removed, nextNode := map[], false, [], 0;
      log, careless := [], false;
    }

    method AddHandler(fd: Fd, events: nat, callback: nat) returns (threw: bool)
      modifies this`handlers, this`nextNode, epoll`interest, epoll`sizeEvents
      ensures (View(), threw) == AddHandlerOp(old(View()), fd, events, callback)
    {
      if fd in handlers {
        return true;
      }
      handlers := handlers[fd := Handler(nextNode, events, callback)];
      var errno := epoll.Add(fd, nextNode);
      if errno != OK {
        handlers := handlers - {fd};
        assert handlers == old(handlers);
        return true;
      }
      nextNode := nextNode + 1;
      threw := false;
    }

    method RemoveHandler(fd: Fd) returns (threw: bool)
      modifies this`handlers, this`removed, epoll`interest, epoll`sizeEvents
      ensures (View(), threw) == RemoveHandlerOp(old(View()), fd)
    {
      if fd !in handlers {
        return false;
      }
      if processing {
        removed := removed + [fd];
        return false;
      }
      handlers := handlers - {fd};
      var errno := epoll.Del(fd);
      threw := errno != OK && errno != ENOENT;
    }

    /** A callback, called back into this object. */
    method RunCallback(ops: seq<Op>)
      modifies this, epoll
      ensures View() == RunOps(old(View()), ops)
    {
      var k := 0;
      while k < |ops|
        invariant k <= |ops|
        invariant RunOps(View(), ops[k..]) == RunOps(old(View()), ops)
      {
        ghost var before := View();
        match ops[k] {
          case AddHandler(fd, events, callback) => var _ := AddHandler(fd, events, callback);
          case RemoveHandler(fd) => var _ := RemoveHandler(fd);
          case Open(fd) => epoll.open := epoll.open + {fd};
          case Close(fd) =>
            epoll.open, epoll.interest := epoll.open - {fd}, epoll.interest - {fd};
            careless := careless || fd in handlers;
        }
        assert View() == Apply(before, ops[k]).0;
        assert ops[k..][1..] == ops[k + 1..];
        k := k + 1;
      }
    }

    /** The loop over the reported events. */
    method DispatchEvents(events: seq<Event>, behave: nat -> seq<Op>)
      modifies this, epoll
      ensures View() == DispatchAll(old(View()), events, behave)
    {
      var k := 0;
      while k < |events|
        invariant k <= |events|
        invariant DispatchAll(View(), events[k..], behave) == DispatchAll(old(View()), events, behave)
      {
        log := log + [Follow(View(), events[k])];
        RunCallback(behave(events[k].node));
        assert events[k..][1..] == events[k + 1..];
        k := k + 1;
      }
    }

    /** The loop over removed_handlers_. */
    method PruneRemoved() returns (threw: bool)
      modifies this`handlers, this`removed, epoll`interest, epoll`sizeEvents
      ensures (View(), threw) == PruneFrom(old(View()), 0)
    {
      var k := 0;
      while k < |removed|
        invariant k <= |removed| && removed == old(removed)
        invariant PruneFrom(View(), k) == PruneFrom(old(View()), 0)
      {
        ghost var before := View();
        var errno := epoll.Del(removed[k]);
        if errno != OK && errno != ENOENT {
          return true;
        }
        handlers := handlers - {removed[k]};
        assert View() == Erased(before, removed[k]);
        k := k + 1;
      }
      removed := [];
      threw := false;
    }

    /** One round of start() after a successful wait. */
    method RunOnce(events: seq<Event>, behave: nat -> seq<Op>) returns (threw: bool)
      requires P.Inv(View()) && !processing && Reportable(View(), events)
      modifies this, epoll
      ensures (View(), threw) == Batch(old(View()), events, behave)
      ensures P.Inv(View()) && log == old(log) + P.CallsOf(old(handlers), events)
    {
      P.BatchKeeps(View(), events, behave);
      hide P.Inv;
      processing := true;
      DispatchEvents(events, behave);
      processing := false;
      threw := PruneRemoved();
    }
  }
}
