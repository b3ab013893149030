/** linuxpp::subprocess::popen over processes whose tables change in place, proved
    against the functions of Descriptors and Spawn. */
module Popen {
  import D = Descriptors
  import Spawn
  import P = SpawnProofs

  /** A process, as far as its descriptors go. */
  class Process {
    var table: D.Table

    constructor (table: D.Table)
      ensures this.table == table
    {
      this.table := table;
    }

    /** Closing a descriptor that is not open is an error the source ignores. */
    method Close(fd: D.Fd)
      modifies this
      ensures table == D.Close(old(table), fd)
    {
      table := table - {fd};
    }

    method Dup2(from: D.Fd, to: D.Fd) returns (ok: bool)
      modifies this
      ensures ok <==> from in old(table)
      ensures table == if ok then old(table)[to := old(table)[from]] else old(table)
    {
      ok := from in table;
      if ok {
        table := table[to := table[from]];
      }
    }

    method HandleChildStream(owned: D.Fd, other: D.Fd, target: D.Fd) returns (ok: bool)
      modifies this
      ensures (table, ok) == D.HandleChildStream(old(table), owned, other, target)
    {
      if other != owned {
        Close(other);
      }
      ghost var before := table;
      ok := Dup2(owned, target);
      assert owned == target ==> table == before;
      if ok {
        Close(owned);
      }
    }

    method CloseAllViaProc(proc: D.Proc) returns (ok: bool)
      modifies this
      ensures (table, ok) == D.CloseViaProc(old(table), proc)
    {
      if proc.Unavailable? {
        return false;
      }
      table := table[proc.dirfd := D.Directory];
      if proc.entries == [] {
        Close(proc.dirfd);
        return false;
      }
      var i := 0;
      while i < |proc.entries|
        invariant 0 <= i <= |proc.entries|
        invariant D.CloseListed(table, proc.dirfd, proc.entries[i..])
               == D.CloseListed(old(table)[proc.dirfd := D.Directory], proc.dirfd, proc.entries)
      {
        var e := proc.entries[i];
        assert proc.entries[i..][1..] == proc.entries[i + 1..];
        if e.Number? && e.fd != 0 && e.fd != 1 && e.fd != 2 && e.fd != proc.dirfd {
          Close(e.fd);
        }
        i := i + 1;
      }
      Close(proc.dirfd);
      return !proc.fails;
    }

    method CloseByForce(limit: D.Limit)
      modifies this
      ensures table == D.CloseByForce(old(table), limit)
    {
      if limit.Finite? {
        var end := D.ToInt(limit.n);
        var i := 0;
        while i < end
          invariant 0 <= i
          invariant D.CloseRange(table, i, end) == D.CloseRange(old(table), 0, end)
        {
          if i != 0 && i != 1 && i != 2 {
            Close(i);
          }
          i := i + 1;
        }
      }
    }

    /** clone_handler, run by the child on its own copy of the table. */
    method CloneHandler(input: D.Stream, output: D.Stream, error: D.Stream, kernel: D.Kernel) returns (r: D.Child)
      modifies this
      ensures r == D.CloneHandler(old(table), input, output, error, kernel)
      ensures r.Exec? ==> table == r.table
    {
      if D.Present(input) {
        var ok := HandleChildStream(input.readFd, input.writeFd, 0);
        if !ok {
          return D.Exit(2);
        }
      }
      if D.Present(output) {
        var ok := HandleChildStream(output.writeFd, output.readFd, 1);
        if !ok {
          return D.Exit(3);
        }
      }
      if D.Present(error) {
        var ok := HandleChildStream(error.writeFd, error.readFd, 2);
        if !ok {
          return D.Exit(4);
        }
      }
      assert D.AttachAll(old(table), input, output, error) == D.Ready(table);
      r := CloseRestAndExec(kernel);
    }

    method CloseRestAndExec(kernel: D.Kernel) returns (r: D.Child)
      modifies this
      ensures var (u, closed) := D.CloseRest(old(table), kernel);
              && table == u
              && r == if !closed then D.Exit(6) else if !kernel.unblocked then D.Exit(5) else D.Exec(u)
    {
      var done := CloseAllViaProc(kernel.proc);
      if !done {
        if !kernel.gotLimit {
          return D.Exit(6);
        }
        CloseByForce(kernel.limit);
      }
      if !kernel.unblocked {
        return D.Exit(5);
      }
      return D.Exec(table);
    }

    /** A stream's open(), by the parent. */
    method OpenStream(request: Spawn.Request, answer: Spawn.Answer, serial: nat) returns (s: D.Stream, ok: bool)
      modifies this
      ensures (table, s, ok) == Spawn.OpenStream(old(table), request, answer, serial)
    {
      match request
      case NoStream => return D.ABSENT, true;
      case Given(r, w) => return D.Stream(r, w), true;
      case Path =>
        if answer.Refused? {
          return D.ABSENT, false;
        }
        table := table[answer.first := D.Opened(serial)];
        return D.Stream(answer.first, answer.first), true;
      case Pipe =>
        if answer.Refused? {
          return D.ABSENT, false;
        }
        table := table[answer.first := D.ReadEnd(serial)];
        table := table[answer.second := D.WriteEnd(serial)];
        return D.Stream(answer.first, answer.second), true;
    }

    method HandleParentStream(parentFd: D.Fd, childFd: D.Fd) returns (kept: D.Fd)
      modifies this
      ensures table == D.Close(old(table), childFd)
      ensures kept == if parentFd != childFd then parentFd else D.CLOSED
    {
      Close(childFd);
      kept := if parentFd != childFd then parentFd else D.CLOSED;
    }
  }

  /** The stream members of a popen object. */
  class Object {
    var input: D.Fd
    var output: D.Fd
    var error: D.Fd

    constructor ()
      ensures input == output == error == D.CLOSED
    {
      input, output, error := D.CLOSED, D.CLOSED, D.CLOSED;
    }

    /** What the object and the parent hold once the call is over. */
    ghost predicate Reflects(parent: Process, outcome: Spawn.Outcome)
      reads this, parent
    {
      && parent.table == outcome.parent
      && (outcome.Started? ==> input == outcome.input && output == outcome.output && error == outcome.error)
    }

    method KeepParentEnds(parent: Process, o: Spawn.Opening, child: D.Table)
      requires parent.table == o.table
      requires input == output == error == D.CLOSED
      modifies this, parent
      ensures Reflects(parent, Spawn.KeepParentEnds(o, child))
    {
      if D.Present(o.input) {
        input := parent.HandleParentStream(o.input.writeFd, o.input.readFd);
      }
      if D.Present(o.output) {
        output := parent.HandleParentStream(o.output.readFd, o.output.writeFd);
      }
      if D.Present(o.error) {
        error := parent.HandleParentStream(o.error.readFd, o.error.writeFd);
      }
    }

    method OpenAll(parent: Process, order: Spawn.Order, serial: nat) returns (o: Spawn.Opening)
      modifies parent
      ensures o == Spawn.OpenAll(old(parent.table), order, serial)
      ensures parent.table == o.table
    {
      var input, inputOk := parent.OpenStream(order.input, order.inputAnswer, serial);
      if !inputOk {
        return Spawn.Opening(parent.table, input, D.ABSENT, D.ABSENT, false);
      }
      var output, outputOk := parent.OpenStream(order.output, order.outputAnswer, serial + 1);
      if !outputOk {
        return Spawn.Opening(parent.table, input, output, D.ABSENT, false);
      }
      var error, errorOk := parent.OpenStream(order.error, order.errorAnswer, serial + 2);
      return Spawn.Opening(parent.table, input, output, error, errorOk);
    }

    /** popen::clone: the child, or null if it threw. */
    method Clone(parent: Process, order: Spawn.Order, serial: nat) returns (child: Process?)
      requires input == output == error == D.CLOSED
      modifies this, parent
      ensures Reflects(parent, Spawn.Clone(old(parent.table), order, serial))
      ensures child != null <==> Spawn.Clone(old(parent.table), order, serial).Started?
      ensures child != null <==> P.OpensAll(order) && order.cloned && order.executed
                                 && P.ExitCode(Spawn.OpenAll(old(parent.table), order, serial), order.kernel) == 0
      ensures child != null ==> fresh(child) && child.table == Spawn.Clone(old(parent.table), order, serial).child
      ensures child == null ==> input == output == error == D.CLOSED
    {
      P.StartsIff(parent.table, order, serial);
      hide P.ExitCode;
      var o := OpenAll(parent, order, serial);
      if !o.ok || !order.cloned {
        return null;
      }
      var copy := new Process(parent.table);
      var r := copy.CloneHandler(o.input, o.output, o.error, order.kernel);
      if r.Exit? || !order.executed {
        return null;
      }
      KeepParentEnds(parent, o, r.table);
      child := copy;
    }
  }
}
