/** The descriptor tables of linuxpp::subprocess::popen: what the child does to its
    copy of the table before it executes, and what the parent keeps. */
module Descriptors {

  type Fd = int

  /** The identity of an open file. */
  datatype File = Inherited(id: int) | Directory | Opened(n: nat) | ReadEnd(n: nat) | WriteEnd(n: nat)

  type Table = map<Fd, File>

  const CLOSED: Fd := -1

  /** stream_descriptors: what a stream's open() returned. */
  datatype Stream = Stream(readFd: Fd, writeFd: Fd)

  const ABSENT := Stream(CLOSED, CLOSED)

  predicate Present(s: Stream) {
    s.readFd != CLOSED && s.writeFd != CLOSED
  }

  function Close(t: Table, fd: Fd): Table {
    t - {fd}
  }

  predicate Standard(fd: Fd) {
    0 <= fd <= 2
  }

  /** The table with only stdin, stdout and stderr left in it. */
  function KeepStandard(t: Table): Table {
    map fd | fd in t && Standard(fd) :: t[fd]
  }

  // ------------------------------------------------------------ the three streams

  /** handle_child_stream: the table, and whether dup2 succeeded. dup2 of a descriptor
      onto itself does nothing, and the close that follows then closes it. */
  function HandleChildStream(t: Table, owned: Fd, other: Fd, target: Fd): (Table, bool) {
    var a := if other != owned then Close(t, other) else t;
    if owned !in a then (a, false)
    else
      var b := if owned == target then a else a[target := a[owned]];
      (Close(b, owned), true)
  }

  datatype SetUp = Ready(table: Table) | Failed(exitCode: nat, left: Table)

  function Attach(t: Table, s: Stream, owned: Fd, other: Fd, target: Fd, exitCode: nat): SetUp {
    if !Present(s) then Ready(t)
    else
      var (u, ok) := HandleChildStream(t, owned, other, target);
      if ok then Ready(u) else Failed(exitCode, u)
  }

  /** The stream part of clone_handler: stdin keeps its read end, stdout and stderr
      their write ends. */
  function AttachAll(t: Table, input: Stream, output: Stream, error: Stream): SetUp {
    match Attach(t, input, input.readFd, input.writeFd, 0, 2)
    case Failed(code, u) => Failed(code, u)
    case Ready(u) =>
      match Attach(u, output, output.writeFd, output.readFd, 1, 3)
      case Failed(code, v) => Failed(code, v)
      case Ready(v) => Attach(v, error, error.writeFd, error.readFd, 2, 4)
  }

  /** What the child is meant to execute with. */
  function Intended(t: Table, input: Stream, output: Stream, error: Stream): (r: Table)
    requires Present(input) ==> input.readFd in t
    requires Present(output) ==> output.writeFd in t
    requires Present(error) ==> error.writeFd in t
  {
    var a := if Present(input) then t[0 := t[input.readFd]] else t;
    var b := if Present(output) then a[1 := t[output.writeFd]] else a;
    var c := if Present(error) then b[2 := t[error.writeFd]] else b;
    KeepStandard(c)
  }

  // ------------------------------------------------------- closing everything else

  /** An entry of /proc/self/fd: a descriptor, or a name that is not a number. */
  datatype Dirent = Number(fd: Fd) | Name

  /** What reading /proc/self/fd does: it cannot be opened, or it yields entries and
      then ends or fails. */
  datatype Proc = Unavailable | Listing(dirfd: Fd, entries: seq<Dirent>, fails: bool)

  function CloseListed(t: Table, dirfd: Fd, entries: seq<Dirent>): Table
    decreases |entries|
  {
    if entries == [] then t
    else
      var e := entries[0];
      CloseListed(if e.Number? && !Standard(e.fd) && e.fd != dirfd then Close(t, e.fd) else t, dirfd, entries[1..])
  }

  /** close_all_descriptors_via_proc: the table, and whether it returned 0. The
      directory is itself open meanwhile, and closed on every way out. */
  function CloseViaProc(t: Table, proc: Proc): (Table, bool) {
    match proc
    case Unavailable => (t, false)
    case Listing(dirfd, entries, fails) =>
      (Close(CloseListed(t[dirfd := Directory], dirfd, entries), dirfd), !fails && entries != [])
  }

  /** The soft limit on descriptors. */
  datatype Limit = Infinity | Finite(n: nat)

  /** static_cast<int> of a 64-bit value. */
  function ToInt(n: nat): int {
    var m := n % 0x1_0000_0000;
    if m < 0x8000_0000 then m else m - 0x1_0000_0000
  }

  function CloseRange(t: Table, i: nat, end: int): Table
    decreases end - i
  {
    if i >= end then t else CloseRange(if Standard(i) then t else Close(t, i), i + 1, end)
  }

  function CloseByForce(t: Table, limit: Limit): Table {
    match limit
    case Infinity => t
    case Finite(n) => CloseRange(t, 0, ToInt(n))
  }

  /** What the kernel answers the child: the directory, getrlimit (or its failure) and
      pthread_sigmask. */
  datatype Kernel = Kernel(proc: Proc, gotLimit: bool, limit: Limit, unblocked: bool)

  /** The two ways of closing everything else, one after the other: the table, and
      whether the soft limit, if it was needed, was known. */
  function CloseRest(t: Table, kernel: Kernel): (Table, bool) {
    var (u, done) := CloseViaProc(t, kernel.proc);
    if done then (u, true)
    else if !kernel.gotLimit then (u, false)
    else (CloseByForce(u, kernel.limit), true)
  }

  // ------------------------------------------------------------------- the child

  datatype Child = Exec(table: Table) | Exit(code: nat)

  /** clone_handler, up to the call of execve. */
  function CloneHandler(t: Table, input: Stream, output: Stream, error: Stream, kernel: Kernel): Child {
    match AttachAll(t, input, output, error)
    case Failed(code, _) => Exit(code)
    case Ready(u) =>
      var (v, closed) := CloseRest(u, kernel);
      if !closed then Exit(6) else if !kernel.unblocked then Exit(5) else Exec(v)
  }
}
