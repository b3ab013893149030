/** The parent's side of linuxpp::subprocess::popen: opening the streams, cloning, and
    what the parent keeps. */
module Spawn {
  import opened Descriptors

  // ---------------------------------------------------------- opening the streams

  /** A stream passed to popen: none, a pipe_stream, a path_stream or null_stream, or
      an fd_stream over descriptors of the caller. */
  datatype Request = NoStream | Pipe | Path | Given(readFd: Fd, writeFd: Fd)

  /** The kernel's answer to open or pipe2; open takes the first descriptor only. */
  datatype Answer = Refused | Got(first: Fd, second: Fd)

  /** A stream's open(): the table, the stream, and false if it threw. The new files are
      numbered serial. */
  function OpenStream(t: Table, request: Request, answer: Answer, serial: nat): (Table, Stream, bool) {
    match request
    case NoStream => (t, ABSENT, true)
    case Given(r, w) => (t, Stream(r, w), true)
    case Path =>
      if answer.Refused? then (t, ABSENT, false)
      else (t[answer.first := Opened(serial)], Stream(answer.first, answer.first), true)
    case Pipe =>
      if answer.Refused? then (t, ABSENT, false)
      else (t[answer.first := ReadEnd(serial)][answer.second := WriteEnd(serial)],
            Stream(answer.first, answer.second), true)
  }

  /** One call of popen: the streams asked for and everything the kernel answers. */
  datatype Order = Order(
    input: Request, output: Request, error: Request,
    inputAnswer: Answer, outputAnswer: Answer, errorAnswer: Answer,
    cloned: bool, kernel: Kernel, executed: bool)

  datatype Opening = Opening(table: Table, input: Stream, output: Stream, error: Stream, ok: bool)

  function OpenAll(t: Table, order: Order, serial: nat): Opening {
    var (u, input, inputOk) := OpenStream(t, order.input, order.inputAnswer, serial);
    if !inputOk then Opening(u, input, ABSENT, ABSENT, false)
    else
      var (v, output, outputOk) := OpenStream(u, order.output, order.outputAnswer, serial + 1);
      if !outputOk then Opening(v, input, output, ABSENT, false)
      else
        var (w, error, errorOk) := OpenStream(v, order.error, order.errorAnswer, serial + 2);
        Opening(w, input, output, error, errorOk)
  }

  // -------------------------------------------------------------- the parent's ends

  /** handle_parent_stream, for a stream that is there: the table and the descriptor
      the popen object keeps. */
  function HandleParentStream(t: Table, s: Stream, parentFd: Fd, childFd: Fd): (Table, Fd) {
    if !Present(s) then (t, CLOSED)
    else (Close(t, childFd), if parentFd != childFd then parentFd else CLOSED)
  }

  datatype Outcome =
    | Started(parent: Table, child: Table, input: Fd, output: Fd, error: Fd)
    | Threw(parent: Table)

  function KeepParentEnds(o: Opening, child: Table): (r: Outcome)
    ensures r.Started? && r.child == child
  {
    var (t, input) := HandleParentStream(o.table, o.input, o.input.writeFd, o.input.readFd);
    var (u, output) := HandleParentStream(t, o.output, o.output.readFd, o.output.writeFd);
    var (v, error) := HandleParentStream(u, o.error, o.error.readFd, o.error.writeFd);
    Started(v, child, input, output, error)
  }

  /** popen::clone. */
  function Clone(t: Table, order: Order, serial: nat): Outcome {
    var o := OpenAll(t, order, serial);
    if !o.ok || !order.cloned then Threw(o.table)
    else
      match CloneHandler(o.table, o.input, o.output, o.error, order.kernel)
      case Exit(_) => Threw(o.table)
      case Exec(child) => if order.executed then KeepParentEnds(o, child) else Threw(o.table)
  }

  // --------------------------------------------------------------- many processes

  /** The parent, process 0, and every child started so far; the files popen opened;
      and the next number for a file. */
  datatype System = System(processes: seq<Table>, made: set<File>, serial: nat)

  predicate ByPopen(f: File) {
    f.Opened? || f.ReadEnd? || f.WriteEnd?
  }

  function Made(t: Table): set<File> {
    set fd | fd in t && ByPopen(t[fd]) :: t[fd]
  }

  function Step(s: System, order: Order): System
    requires s.processes != []
  {
    var made := s.made + Made(OpenAll(s.processes[0], order, s.serial).table);
    match Clone(s.processes[0], order, s.serial)
    case Threw(parent) => System([parent] + s.processes[1..], made, s.serial + 3)
    case Started(parent, child, _, _, _) =>
      System([parent] + s.processes[1..] + [child], made, s.serial + 3)
  }

  function Run(s: System, orders: seq<Order>): System
    requires s.processes != []
    decreases |orders|
  {
    if orders == [] then s else Run(Step(s, orders[0]), orders[1..])
  }
}
