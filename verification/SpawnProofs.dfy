/** What popen leaves in the parent and in its children, over any number of calls. */
module SpawnProofs {
  import opened Descriptors
  import opened DescriptorProofs
  import opened Spawn

  // ---------------------------------------------------------- opening the streams

  /** The kernel only hands out descriptors that are not open. */
  ghost predicate Free(t: Table, request: Request, answer: Answer) {
    answer.Got? ==>
      && (request.Pipe? || request.Path? ==> answer.first >= 0 && answer.first !in t)
      && (request.Pipe? ==> answer.second >= 0 && answer.second !in t && answer.first != answer.second)
  }

  /** u is t and new descriptors of files numbered from lo up to hi, each its own. */
  ghost predicate Grows(t: Table, u: Table, lo: nat, hi: nat) {
    && (forall fd | fd in t :: fd in u && u[fd] == t[fd])
    && (forall fd | fd in u && fd !in t :: ByPopen(u[fd]) && lo <= u[fd].n < hi)
    && (forall fd, fe | fd in u && fe in u && fd !in t && fe !in t && u[fd] == u[fe] :: fd == fe)
  }

  ghost predicate IsEnd(s: Stream, fd: Fd) {
    Present(s) && (fd == s.readFd || fd == s.writeFd)
  }

  lemma OpenGrows(t: Table, request: Request, answer: Answer, serial: nat)
    requires Free(t, request, answer)
    ensures var (u, s, _) := OpenStream(t, request, answer, serial);
            && Grows(t, u, serial, serial + 1)
            && forall fd | fd in u && fd !in t :: IsEnd(s, fd)
  {
  }

  lemma GrowsOn(t: Table, u: Table, v: Table, lo: nat, mid: nat, hi: nat)
    requires lo <= mid <= hi && Grows(t, u, lo, mid) && Grows(u, v, mid, hi)
    ensures Grows(t, v, lo, hi)
  {
  }

  /** Each answer is free at the time it is given. */
  ghost predicate AllFree(t: Table, order: Order, serial: nat) {
    && Free(t, order.input, order.inputAnswer)
    && var (u, _, inputOk) := OpenStream(t, order.input, order.inputAnswer, serial);
       && Free(u, order.output, order.outputAnswer)
       && var (v, _, outputOk) := OpenStream(u, order.output, order.outputAnswer, serial + 1);
          Free(v, order.error, order.errorAnswer)
  }

  lemma OpenAllGrows(t: Table, order: Order, serial: nat)
    requires AllFree(t, order, serial)
    ensures var o := OpenAll(t, order, serial);
            && Grows(t, o.table, serial, serial + 3)
            && forall fd | fd in o.table && fd !in t :: IsAnyEnd(o, fd)
  {
    hide OpenStream, Free, Grows, IsEnd;
    var (u, input, inputOk) := OpenStream(t, order.input, order.inputAnswer, serial);
    OpenGrows(t, order.input, order.inputAnswer, serial);
    var (v, output, outputOk) := OpenStream(u, order.output, order.outputAnswer, serial + 1);
    OpenGrows(u, order.output, order.outputAnswer, serial + 1);
    GrowsOn(t, u, v, serial, serial + 1, serial + 2);
    var (w, error, errorOk) := OpenStream(v, order.error, order.errorAnswer, serial + 2);
    OpenGrows(v, order.error, order.errorAnswer, serial + 2);
    GrowsOn(t, v, w, serial, serial + 2, serial + 3);
    GrowsMore(t, u, serial, serial + 1, serial + 3);
    GrowsMore(t, v, serial, serial + 2, serial + 3);
  }

  lemma GrowsMore(t: Table, u: Table, lo: nat, mid: nat, hi: nat)
    requires mid <= hi && Grows(t, u, lo, mid)
    ensures Grows(t, u, lo, hi)
  {
  }

  // --------------------------------------------------------------------- one call

  /** The end of its stream that becomes the child's standard descriptor k. */
  function End(o: Opening, k: Fd): Fd {
    if k == 0 && Present(o.input) then o.input.readFd
    else if k == 1 && Present(o.output) then o.output.writeFd
    else if k == 2 && Present(o.error) then o.error.writeFd
    else CLOSED
  }

  ghost predicate Kept(o: Opening, fd: Fd) {
    fd != CLOSED && (fd == End(o, 0) || fd == End(o, 1) || fd == End(o, 2))
  }

  ghost predicate Separate(o: Opening) {
    Apart(o.input, o.output, o.error)
  }

  ghost predicate Unshared(o: Opening) {
    Disjoint(o.input, o.output) && Disjoint(o.input, o.error) && Disjoint(o.output, o.error)
  }

  /** The child's closing loops, if they run to their end, reach everything. */
  ghost predicate Thorough(kernel: Kernel, t: Table) {
    && FreshDirectory(kernel.proc, t)
    && (CloseRest(t, kernel).1 ==> forall fd | fd in t && !Standard(fd) :: Reached(kernel, fd))
  }

  ghost predicate ThoroughAfter(o: Opening, kernel: Kernel) {
    var r := AttachAll(o.table, o.input, o.output, o.error);
    r.Ready? ==> Thorough(kernel, r.table)
  }

  /** A child that executes has what was asked for as stdin, stdout and stderr, the
      parent's otherwise, and nothing else. */
  lemma ChildHolds(o: Opening, kernel: Kernel)
    requires Separate(o) && ThoroughAfter(o, kernel)
    ensures var c := CloneHandler(o.table, o.input, o.output, o.error, kernel);
            c.Exec? ==> forall fd :: At(c.table, fd) == ChildAt(o, fd)
  {
    hide CloseRest, AttachAll, KeepStandard, Intended, Compatible, Right, At, Apart, Reached;
    var c := CloneHandler(o.table, o.input, o.output, o.error, kernel);
    FirstClosedEndDecides(o.table, o.input, o.output, o.error);
    if c.Exec? {
      var u := AttachAll(o.table, o.input, o.output, o.error).table;
      ClosesRestIff(u, kernel);
      ExecIsReplaced(o, u, c.table);
    }
  }

  function ChildAt(o: Opening, fd: Fd): Entry {
    if !Standard(fd) then Nothing
    else if End(o, fd) != CLOSED then At(o.table, End(o, fd))
    else At(o.table, fd)
  }

  lemma ExecIsReplaced(o: Opening, u: Table, c: Table)
    requires Right(o.table, o.input, o.output, o.error)
    requires AttachAll(o.table, o.input, o.output, o.error) == Ready(u)
    requires c == KeepStandard(u)
    ensures forall fd :: At(c, fd) == ChildAt(o, fd)
  {
    hide AttachAll, Intended;
    var r := Replaced(o.table, o.input, o.output, o.error);
    assert c == KeepStandard(r);
    forall fd ensures At(c, fd) == ChildAt(o, fd) {
      assert At(c, fd) == if Standard(fd) then At(r, fd) else Nothing;
    }
  }

  /** The parent loses exactly the ends the child keeps. */
  lemma ParentHolds(o: Opening, child: Table)
    ensures forall fd :: At(KeepParentEnds(o, child).parent, fd) == if Kept(o, fd) then Nothing else At(o.table, fd)
  {
  }

  // ------------------------------------------- where the child's descriptors come from

  /** The descriptor whose file is found at another, if there is one. */
  datatype Source = Nowhere | From(fd: Fd)

  /** Across one handle_child_stream. */
  function AttachSource(s: Stream, owned: Fd, other: Fd, target: Fd, fd: Fd): Source {
    if !Present(s) then From(fd)
    else if fd == owned then Nowhere
    else if fd == target then From(owned)
    else if fd == other then Nowhere
    else From(fd)
  }

  lemma AttachedFrom(t: Table, s: Stream, owned: Fd, other: Fd, target: Fd, fd: Fd)
    ensures AttachedAt(t, s, owned, other, target, fd) ==
            match AttachSource(s, owned, other, target, fd) case Nowhere => Nothing case From(x) => At(t, x)
  {
  }

  /** Across all three, told from the descriptors alone. */
  function SourceOf(o: Opening, fd: Fd): Source {
    match AttachSource(o.error, o.error.writeFd, o.error.readFd, 2, fd)
    case Nowhere => Nowhere
    case From(x) =>
      match AttachSource(o.output, o.output.writeFd, o.output.readFd, 1, x)
      case Nowhere => Nowhere
      case From(y) => AttachSource(o.input, o.input.readFd, o.input.writeFd, 0, y)
  }

  /** What the end of the second stream, or of the third, refers to when its turn comes. */
  function SecondEnd(o: Opening): Entry {
    FoundAt(o.table, AttachSource(o.input, o.input.readFd, o.input.writeFd, 0, o.output.writeFd))
  }

  function ThirdEnd(o: Opening): Entry {
    match AttachSource(o.output, o.output.writeFd, o.output.readFd, 1, o.error.writeFd)
    case Nowhere => Nothing
    case From(x) => FoundAt(o.table, AttachSource(o.input, o.input.readFd, o.input.writeFd, 0, x))
  }

  /** The exit code of the child's set-up, told from the descriptors and the kernel's
      answers: 0 if it gets as far as execve. */
  ghost function ExitCode(o: Opening, kernel: Kernel): nat {
    if Present(o.input) && o.input.readFd !in o.table then 2
    else if Present(o.output) && SecondEnd(o) == Nothing then 3
    else if Present(o.error) && ThirdEnd(o) == Nothing then 4
    else if !ListsAll(kernel.proc) && !kernel.gotLimit then 6
    else if !kernel.unblocked then 5
    else 0
  }

  lemma AttachedInTurn(o: Opening)
    ensures var r := AttachAll(o.table, o.input, o.output, o.error);
            if Present(o.input) && o.input.readFd !in o.table then r.Failed? && r.exitCode == 2
            else if Present(o.output) && SecondEnd(o) == Nothing then r.Failed? && r.exitCode == 3
            else if Present(o.error) && ThirdEnd(o) == Nothing then r.Failed? && r.exitCode == 4
            else r.Ready?
  {
    var t := o.table;
    var a := Attach(t, o.input, o.input.readFd, o.input.writeFd, 0, 2);
    AttachPointwise(t, o.input, o.input.readFd, o.input.writeFd, 0, 2);
    if a.Ready? {
      var u := a.table;
      AttachedFrom(t, o.input, o.input.readFd, o.input.writeFd, 0, o.output.writeFd);
      assert At(u, o.output.writeFd) == SecondEnd(o);
      var b := Attach(u, o.output, o.output.writeFd, o.output.readFd, 1, 3);
      AttachPointwise(u, o.output, o.output.writeFd, o.output.readFd, 1, 3);
      if b.Ready? {
        AttachedTwice(o, u, b.table);
        AttachPointwise(b.table, o.error, o.error.writeFd, o.error.readFd, 2, 4);
      }
    }
  }

  lemma AttachedTwice(o: Opening, u: Table, v: Table)
    requires forall fd :: At(u, fd) == AttachedAt(o.table, o.input, o.input.readFd, o.input.writeFd, 0, fd)
    requires forall fd :: At(v, fd) == AttachedAt(u, o.output, o.output.writeFd, o.output.readFd, 1, fd)
    ensures At(v, o.error.writeFd) == ThirdEnd(o)
  {
    hide At, AttachSource, AttachedAt;
    AttachedFrom(u, o.output, o.output.writeFd, o.output.readFd, 1, o.error.writeFd);
    match AttachSource(o.output, o.output.writeFd, o.output.readFd, 1, o.error.writeFd)
    case Nowhere =>
    case From(x) => AttachedFrom(o.table, o.input, o.input.readFd, o.input.writeFd, 0, x);
  }

  /** The child gets as far as execve, or exits with the code that says why not. */
  lemma ChildExitsWith(o: Opening, kernel: Kernel)
    ensures var c := CloneHandler(o.table, o.input, o.output, o.error, kernel);
            if ExitCode(o, kernel) == 0 then c.Exec? else c == Exit(ExitCode(o, kernel))
  {
    hide AttachAll, CloseRest, SecondEnd, ThirdEnd, ListsAll;
    AttachedInTurn(o);
    var r := AttachAll(o.table, o.input, o.output, o.error);
    if r.Ready? {
      ClosingEndsIff(r.table, kernel);
    }
  }

  /** Across the closing loops too. */
  ghost function ChildSource(o: Opening, kernel: Kernel, fd: Fd): Source {
    if !Standard(fd) && Reached(kernel, fd) then Nowhere else SourceOf(o, fd)
  }

  function FoundAt(t: Table, source: Source): Entry {
    match source case Nowhere => Nothing case From(x) => At(t, x)
  }

  /** The directory the child reads is a new descriptor. */
  ghost predicate FreshAfter(o: Opening, kernel: Kernel) {
    var r := AttachAll(o.table, o.input, o.output, o.error);
    r.Ready? ==> FreshDirectory(kernel.proc, r.table)
  }

  lemma AttachedSource(o: Opening, u: Table, fd: Fd)
    requires AttachAll(o.table, o.input, o.output, o.error) == Ready(u)
    ensures At(u, fd) == FoundAt(o.table, SourceOf(o, fd))
  {
    hide AttachAll, At, AttachSource, AttachedAt;
    var a, b, c := ReadyChains(o.table, o.input, o.output, o.error);
    AttachedFrom(b, o.error, o.error.writeFd, o.error.readFd, 2, fd);
    match AttachSource(o.error, o.error.writeFd, o.error.readFd, 2, fd)
    case Nowhere =>
    case From(x) =>
      AttachedFrom(a, o.output, o.output.writeFd, o.output.readFd, 1, x);
      match AttachSource(o.output, o.output.writeFd, o.output.readFd, 1, x)
      case Nowhere =>
      case From(y) => AttachedFrom(o.table, o.input, o.input.readFd, o.input.writeFd, 0, y);
  }

  lemma ChildFound(o: Opening, kernel: Kernel, fd: Fd)
    requires FreshAfter(o, kernel) && CloneHandler(o.table, o.input, o.output, o.error, kernel).Exec?
    ensures At(CloneHandler(o.table, o.input, o.output, o.error, kernel).table, fd)
            == FoundAt(o.table, ChildSource(o, kernel, fd))
  {
    hide AttachAll, CloseRest, At, Reached, SourceOf;
    var u := AttachAll(o.table, o.input, o.output, o.error).table;
    AttachedSource(o, u, fd);
    CloseRestAt(u, kernel, fd);
  }

  /** After any call, whatever was asked for: what the parent and the child hold,
      descriptor by descriptor. */
  lemma CloneOutcome(t: Table, order: Order, serial: nat)
    requires FreshAfter(OpenAll(t, order, serial), order.kernel)
    ensures var r, o := Clone(t, order, serial), OpenAll(t, order, serial);
            if r.Threw? then r.parent == o.table
            else
              && (forall fd :: At(r.parent, fd) == if Kept(o, fd) then Nothing else At(o.table, fd))
              && (forall fd :: At(r.child, fd) == FoundAt(o.table, ChildSource(o, order.kernel, fd)))
  {
    hide OpenAll, CloneHandler, KeepParentEnds, At, FoundAt, ChildSource, Kept, FreshAfter;
    var o := OpenAll(t, order, serial);
    var c := CloneHandler(o.table, o.input, o.output, o.error, order.kernel);
    if c.Exec? {
      ParentHolds(o, c.table);
      forall fd ensures At(c.table, fd) == FoundAt(o.table, ChildSource(o, order.kernel, fd)) {
        ChildFound(o, order.kernel, fd);
      }
    }
  }

  /** The kernel hands out free descriptors. */
  ghost predicate Honest(t: Table, order: Order, serial: nat) {
    AllFree(t, order, serial) && FreshAfter(OpenAll(t, order, serial), order.kernel)
  }

  /** Nothing passed to popen collides, and the child can see what it has to close. */
  ghost predicate Admissible(t: Table, order: Order, serial: nat) {
    && Honest(t, order, serial)
    && Separate(OpenAll(t, order, serial))
    && ThoroughAfter(OpenAll(t, order, serial), order.kernel)
  }

  ghost predicate Own(request: Request) {
    !request.Given?
  }

  /** Descriptors popen opens itself never collide with each other, nor with stdin,
      stdout and stderr if those were open to begin with. */
  lemma OwnStreamsAreApart(t: Table, order: Order, serial: nat)
    requires AllFree(t, order, serial)
    requires Own(order.input) && Own(order.output) && Own(order.error)
    ensures Unshared(OpenAll(t, order, serial))
    ensures 0 in t && 1 in t && 2 in t ==> Separate(OpenAll(t, order, serial))
  {
    hide OpenStream;
    var (u, input, inputOk) := OpenStream(t, order.input, order.inputAnswer, serial);
    OpensFree(t, order.input, order.inputAnswer, serial);
    var (v, output, outputOk) := OpenStream(u, order.output, order.outputAnswer, serial + 1);
    OpensFree(u, order.output, order.outputAnswer, serial + 1);
    OpensFree(v, order.error, order.errorAnswer, serial + 2);
  }

  lemma OpensFree(t: Table, request: Request, answer: Answer, serial: nat)
    requires Free(t, request, answer) && Own(request)
    ensures var (u, s, _) := OpenStream(t, request, answer, serial);
            && (Present(s) ==> s.readFd >= 0 && s.writeFd >= 0 && s.readFd !in t && s.writeFd !in t)
            && (Present(s) ==> s.readFd in u && s.writeFd in u)
            && (forall fd | fd in t :: fd in u)
  {
  }

  /** The descriptors the popen object is left with. */
  function Owned(r: Outcome): set<Fd>
    requires r.Started?
  {
    {r.input, r.output, r.error} - {CLOSED}
  }

  /** The parent's table is the old one and the parent's ends, and the popen object has
      exactly those, whatever the child does. */
  lemma ParentKeepsOnlyItsEnds(t: Table, order: Order, serial: nat)
    requires AllFree(t, order, serial)
    requires Own(order.input) && Own(order.output) && Own(order.error)
    ensures var r := Clone(t, order, serial);
            r.Started? ==> r.parent.Keys == t.Keys + Owned(r) && forall fd | fd in t :: r.parent[fd] == t[fd]
  {
    var r, o := Clone(t, order, serial), OpenAll(t, order, serial);
    if r.Started? {
      assert r == KeepParentEnds(o, r.child) by { hide OpenAll, CloneHandler; }
      hide Clone, OpenAll, KeepParentEnds, Unshared, Separate, AllFree, Kept, IsEnd, Owned, Own, At;
      ParentHolds(o, r.child);
      OpenAllGrows(t, order, serial);
      EndsAreNew(t, order, serial);
      OwnedEnds(t, order, serial);
      OwnStreamsAreApart(t, order, serial);
      OwnedOrKept(o, r);
      OldAndOwned(t, o, r);
    }
  }

  ghost predicate IsAnyEnd(o: Opening, fd: Fd) {
    IsEnd(o.input, fd) || IsEnd(o.output, fd) || IsEnd(o.error, fd)
  }

  lemma OldAndOwned(t: Table, o: Opening, r: Outcome)
    requires r.Started?
    requires forall fd :: At(r.parent, fd) == if Kept(o, fd) then Nothing else At(o.table, fd)
    requires forall fd | fd in t :: fd in o.table && o.table[fd] == t[fd]
    requires forall fd | fd in o.table && fd !in t :: IsAnyEnd(o, fd)
    requires forall fd | IsAnyEnd(o, fd) :: fd in o.table && fd !in t
    requires forall fd :: fd in Owned(r) <==> IsAnyEnd(o, fd) && !Kept(o, fd)
    requires forall fd :: Kept(o, fd) ==> IsAnyEnd(o, fd)
    ensures r.parent.Keys == t.Keys + Owned(r) && forall fd | fd in t :: r.parent[fd] == t[fd]
  {
    hide Kept, IsAnyEnd, Owned;
    forall fd ensures fd in r.parent <==> fd in t || fd in Owned(r) {
      assert At(r.parent, fd) == if Kept(o, fd) then Nothing else At(o.table, fd);
    }
    forall fd | fd in t ensures r.parent[fd] == t[fd] {
      assert At(r.parent, fd) == At(o.table, fd);
    }
  }

  ghost predicate PopenOwns(o: Opening, r: Outcome)
    requires r.Started?
  {
    && r.input == (if Present(o.input) && o.input.readFd != o.input.writeFd then o.input.writeFd else CLOSED)
    && r.output == (if Present(o.output) && o.output.readFd != o.output.writeFd then o.output.readFd else CLOSED)
    && r.error == (if Present(o.error) && o.error.readFd != o.error.writeFd then o.error.readFd else CLOSED)
  }

  /** Of the descriptors of the streams, each is either the child's or the popen
      object's. */
  lemma OwnedOrKept(o: Opening, r: Outcome)
    requires r.Started? && PopenOwns(o, r) && Unshared(o)
    ensures forall fd :: fd in Owned(r) <==> IsAnyEnd(o, fd) && !Kept(o, fd)
    ensures forall fd :: Kept(o, fd) ==> IsAnyEnd(o, fd)
  {
  }

  lemma OwnedEnds(t: Table, order: Order, serial: nat)
    requires Clone(t, order, serial).Started?
    ensures var r, o := Clone(t, order, serial), OpenAll(t, order, serial);
            PopenOwns(o, r)
  {
  }

  lemma EndsAreNew(t: Table, order: Order, serial: nat)
    requires AllFree(t, order, serial)
    requires Own(order.input) && Own(order.output) && Own(order.error)
    ensures var o := OpenAll(t, order, serial);
            forall fd | IsAnyEnd(o, fd) :: fd in o.table && fd !in t
  {
    hide OpenStream;
    var (u, input, inputOk) := OpenStream(t, order.input, order.inputAnswer, serial);
    OpensFree(t, order.input, order.inputAnswer, serial);
    var (v, output, outputOk) := OpenStream(u, order.output, order.outputAnswer, serial + 1);
    OpensFree(u, order.output, order.outputAnswer, serial + 1);
    OpensFree(v, order.error, order.errorAnswer, serial + 2);
  }

  // -------------------------------------------------------------- when popen throws

  ghost predicate Takes(request: Request, answer: Answer) {
    (request.Pipe? || request.Path?) && answer.Got?
  }

  ghost predicate Fails(request: Request, answer: Answer) {
    (request.Pipe? || request.Path?) && answer.Refused?
  }

  /** Whether anything is opened before the first stream that cannot be. */
  ghost predicate TakesAny(order: Order) {
    || Takes(order.input, order.inputAnswer)
    || (!Fails(order.input, order.inputAnswer)
        && (|| Takes(order.output, order.outputAnswer)
            || (!Fails(order.output, order.outputAnswer) && Takes(order.error, order.errorAnswer))))
  }

  /** A call that throws leaks what it opened: the parent's table is as before exactly
      when nothing was opened. */
  lemma ThrowLeaksIff(t: Table, order: Order, serial: nat)
    requires AllFree(t, order, serial) && Clone(t, order, serial).Threw?
    ensures Clone(t, order, serial).parent == t <==> !TakesAny(order)
  {
  }

  // ------------------------------------------------------------- when popen returns

  /** Every stream that is to be opened can be. */
  ghost predicate OpensAll(order: Order) {
    && !Fails(order.input, order.inputAnswer)
    && !Fails(order.output, order.outputAnswer)
    && !Fails(order.error, order.errorAnswer)
  }

  lemma OpenFailsIff(t: Table, request: Request, answer: Answer, serial: nat)
    ensures OpenStream(t, request, answer, serial).2 <==> !Fails(request, answer)
  {}

  /** A call starts a child exactly when every stream can be opened, the clone succeeds,
      the child's set-up gets as far as execve, and execve succeeds; else it throws. */
  lemma StartsIff(t: Table, order: Order, serial: nat)
    ensures Clone(t, order, serial).Started?
            <==> OpensAll(order) && order.cloned && order.executed
                 && ExitCode(OpenAll(t, order, serial), order.kernel) == 0
  {
    var o := OpenAll(t, order, serial);
    OpensAllIff(t, order, serial);
    hide OpenAll, CloneHandler, ExitCode, OpensAll;
    ChildExitsWith(o, order.kernel);
  }

  lemma OpensAllIff(t: Table, order: Order, serial: nat)
    ensures OpenAll(t, order, serial).ok <==> OpensAll(order)
  {
    hide OpenStream, Fails;
    var (u, input, inputOk) := OpenStream(t, order.input, order.inputAnswer, serial);
    OpenFailsIff(t, order.input, order.inputAnswer, serial);
    var (v, output, outputOk) := OpenStream(u, order.output, order.outputAnswer, serial + 1);
    OpenFailsIff(u, order.output, order.outputAnswer, serial + 1);
    OpenFailsIff(v, order.error, order.errorAnswer, serial + 2);
  }

  // ------------------------------------------------------ what each kind of stream is

  /** What open() gives: for a pipe the reading end and the writing end of the same new
      pipe, for a path one new open file, for the caller's own descriptors and for no
      stream nothing new; every other descriptor stays. */
  lemma OpenGives(t: Table, request: Request, answer: Answer, serial: nat)
    requires Free(t, request, answer) && !Fails(request, answer)
    ensures var (u, s, ok) := OpenStream(t, request, answer, serial);
            && ok
            && (request.Pipe? ==> s == Stream(answer.first, answer.second)
                                  && At(u, s.readFd) == Refers(ReadEnd(serial))
                                  && At(u, s.writeFd) == Refers(WriteEnd(serial)))
            && (request.Path? ==> s == Stream(answer.first, answer.first) && At(u, s.readFd) == Refers(Opened(serial)))
            && (request.Given? ==> s == Stream(request.readFd, request.writeFd) && u == t)
            && (request.NoStream? ==> !Present(s) && u == t)
            && forall fd :: !IsEnd(s, fd) || request.Given? ==> At(u, fd) == At(t, fd)
  {}

  /** The pipes of a call that starts a child, with stdin, stdout and stderr open before:
      each has one end in the child, as the standard descriptor it was asked for, and the
      other in the parent, where the popen object has it. */
  lemma PipesConnect(t: Table, order: Order, serial: nat)
    requires AllFree(t, order, serial) && 0 in t && 1 in t && 2 in t
    requires Own(order.input) && Own(order.output) && Own(order.error)
    requires ThoroughAfter(OpenAll(t, order, serial), order.kernel)
    ensures var r := Clone(t, order, serial);
            r.Started? ==>
              && (order.input.Pipe? ==> At(r.child, 0) == Refers(ReadEnd(serial))
                                        && At(r.parent, r.input) == Refers(WriteEnd(serial)))
              && (order.output.Pipe? ==> At(r.child, 1) == Refers(WriteEnd(serial + 1))
                                         && At(r.parent, r.output) == Refers(ReadEnd(serial + 1)))
              && (order.error.Pipe? ==> At(r.child, 2) == Refers(WriteEnd(serial + 2))
                                        && At(r.parent, r.error) == Refers(ReadEnd(serial + 2)))
              && (order.input.Path? ==> At(r.child, 0) == Refers(Opened(serial)) && r.input == CLOSED)
              && (order.output.Path? ==> At(r.child, 1) == Refers(Opened(serial + 1)) && r.output == CLOSED)
              && (order.error.Path? ==> At(r.child, 2) == Refers(Opened(serial + 2)) && r.error == CLOSED)
  {
    var r, o := Clone(t, order, serial), OpenAll(t, order, serial);
    if r.Started? {
      OwnStreamsAreApart(t, order, serial);
      OpenedStreams(t, order, serial);
      OwnedEnds(t, order, serial);
      ChildHolds(o, order.kernel);
      StartedChild(t, order, serial);
      hide Clone, OpenAll, CloneHandler, KeepParentEnds, ThoroughAfter, AllFree;
      ParentHolds(o, r.child);
      assert At(r.child, 0) == ChildAt(o, 0) && At(r.child, 1) == ChildAt(o, 1) && At(r.child, 2) == ChildAt(o, 2);
    }
  }

  lemma StartedChild(t: Table, order: Order, serial: nat)
    requires Clone(t, order, serial).Started?
    ensures var r, o := Clone(t, order, serial), OpenAll(t, order, serial);
            && o.ok && CloneHandler(o.table, o.input, o.output, o.error, order.kernel) == Exec(r.child)
            && r == KeepParentEnds(o, r.child)
  {
    hide OpenAll, CloneHandler, KeepParentEnds;
  }

  /** The streams of a call, opened one after another. */
  lemma OpenedStreams(t: Table, order: Order, serial: nat)
    requires AllFree(t, order, serial) && OpenAll(t, order, serial).ok
    requires Own(order.input) && Own(order.output) && Own(order.error)
    ensures var o := OpenAll(t, order, serial);
            && Opens(o.table, order.input, o.input, serial)
            && Opens(o.table, order.output, o.output, serial + 1)
            && Opens(o.table, order.error, o.error, serial + 2)
  {
    hide OpenStream, Opens;
    OpensAllIff(t, order, serial);
    var (u, input, inputOk) := OpenStream(t, order.input, order.inputAnswer, serial);
    OpensOne(t, order.input, order.inputAnswer, serial);
    OpenGrows(t, order.input, order.inputAnswer, serial);
    var (v, output, outputOk) := OpenStream(u, order.output, order.outputAnswer, serial + 1);
    OpensOne(u, order.output, order.outputAnswer, serial + 1);
    OpenGrows(u, order.output, order.outputAnswer, serial + 1);
    var (w, error, errorOk) := OpenStream(v, order.error, order.errorAnswer, serial + 2);
    OpensOne(v, order.error, order.errorAnswer, serial + 2);
    OpenGrows(v, order.error, order.errorAnswer, serial + 2);
    StillOpens(u, v, order.input, input, serial);
    StillOpens(v, w, order.input, input, serial);
    StillOpens(v, w, order.output, output, serial + 1);
  }

  /** What a stream popen opened has in the table. */
  ghost predicate Opens(t: Table, request: Request, s: Stream, serial: nat) {
    && (request.Pipe? ==> Present(s) && s.readFd != s.writeFd
                          && At(t, s.readFd) == Refers(ReadEnd(serial))
                          && At(t, s.writeFd) == Refers(WriteEnd(serial)))
    && (request.Path? ==> Present(s) && s.readFd == s.writeFd && At(t, s.readFd) == Refers(Opened(serial)))
  }

  lemma OpensOne(t: Table, request: Request, answer: Answer, serial: nat)
    requires Free(t, request, answer) && Own(request) && OpenStream(t, request, answer, serial).2
    ensures Opens(OpenStream(t, request, answer, serial).0, request, OpenStream(t, request, answer, serial).1, serial)
  {}

  lemma StillOpens(t: Table, u: Table, request: Request, s: Stream, serial: nat)
    requires Opens(t, request, s, serial) && forall fd | fd in t :: fd in u && u[fd] == t[fd]
    ensures Opens(u, request, s, serial)
  {}

  // ----------------------------------------------------------- when streams collide

  /** One descriptor for both stdout and stderr never works. */
  lemma SharedDescriptorFails(t: Table, input: Stream, output: Stream, error: Stream)
    requires Present(output) && Present(error) && output.writeFd == error.writeFd
    ensures AttachAll(t, input, output, error).Failed?
  {
  }

  const QUIET := Kernel(Listing(9, [Number(1), Number(2), Number(3), Number(9)], false), false, Infinity, true)

  const NO_STDIN: Table := map[1 := Inherited(1), 2 := Inherited(2)]
  const STDIN_PIPE := Order(Pipe, NoStream, NoStream, Got(0, 3), Refused, Refused, true, QUIET, true)

  /** In a parent without stdin, the pipe meant for the child's stdin becomes
      descriptor 0 itself, and the child closes it: it executes without stdin. */
  lemma StdinIsLost()
    ensures AllFree(NO_STDIN, STDIN_PIPE, 0)
    ensures Clone(NO_STDIN, STDIN_PIPE, 0) == Started(NO_STDIN[3 := WriteEnd(0)], NO_STDIN, 3, CLOSED, CLOSED)
  {
    var o := OpenAll(NO_STDIN, STDIN_PIPE, 0);
    StdinIsClosed(o);
    hide CloneHandler;
    assert o.table - {0} == NO_STDIN[3 := WriteEnd(0)];
  }

  lemma StdinIsClosed(o: Opening)
    requires o == OpenAll(NO_STDIN, STDIN_PIPE, 0)
    ensures CloneHandler(o.table, o.input, o.output, o.error, QUIET) == Exec(NO_STDIN)
  {
    assert o.table == NO_STDIN[0 := ReadEnd(0)][3 := WriteEnd(0)];
    assert AttachAll(o.table, o.input, o.output, o.error) == Ready(NO_STDIN);
    ClosesRestIff(NO_STDIN, QUIET);
    hide AttachAll, CloseRest;
    assert KeepStandard(NO_STDIN) == NO_STDIN;
  }
}
