/** What the child executes with, and exactly when that is what was asked for. */
module DescriptorProofs {
  import opened Descriptors

  /** What a descriptor refers to. */
  datatype Entry = Nothing | Refers(file: File)

  function At(t: Table, fd: Fd): Entry {
    if fd in t then Refers(t[fd]) else Nothing
  }

  // ------------------------------------------------------------ the three streams

  /** What handle_child_stream leaves at fd. */
  function AttachedAt(t: Table, s: Stream, owned: Fd, other: Fd, target: Fd, fd: Fd): Entry {
    if !Present(s) then At(t, fd)
    else if fd == owned then Nothing
    else if fd == target then At(t, owned)
    else if fd == other then Nothing
    else At(t, fd)
  }

  lemma AttachPointwise(t: Table, s: Stream, owned: Fd, other: Fd, target: Fd, exitCode: nat)
    ensures var r := Attach(t, s, owned, other, target, exitCode);
            && (r.Ready? <==> (Present(s) ==> owned in t))
            && (r.Ready? ==> forall fd :: At(r.table, fd) == AttachedAt(t, s, owned, other, target, fd))
  {
  }

  /** Each stream's kept end is open. */
  ghost predicate EndsOpen(t: Table, input: Stream, output: Stream, error: Stream) {
    && (Present(input) ==> input.readFd in t)
    && (Present(output) ==> output.writeFd in t)
    && (Present(error) ==> error.writeFd in t)
  }

  /** The child's standard descriptors are set up, and are what was asked for. */
  ghost predicate Right(t: Table, input: Stream, output: Stream, error: Stream) {
    && EndsOpen(t, input, output, error)
    && var r := AttachAll(t, input, output, error);
       r.Ready? && KeepStandard(r.table) == Intended(t, input, output, error)
  }

  /** A kept end is open and is not the descriptor it is to become. */
  ghost predicate KeepsTo(t: Table, s: Stream, owned: Fd, target: Fd) {
    Present(s) ==> owned in t && owned != target
  }

  ghost predicate Spares(s: Stream, slot: Fd) {
    Present(s) ==> slot != s.readFd && slot != s.writeFd
  }

  /** A later stream's kept end survives the set-up of an earlier stream. */
  ghost predicate Survives(s: Stream, owned: Fd, earlier: Stream, slot: Fd) {
    Present(s) && Present(earlier) ==> owned != earlier.readFd && owned != earlier.writeFd && owned != slot
  }

  /** What a caller can check before the call, knowing only which descriptors are
      open: every kept end is open and not already the descriptor it is to become; no
      kept end is closed or overwritten before its turn; and no standard descriptor
      that is already set up, or is to be inherited, is an end of another stream. */
  ghost predicate Compatible(t: Table, input: Stream, output: Stream, error: Stream) {
    && KeepsTo(t, input, input.readFd, 0)
    && KeepsTo(t, output, output.writeFd, 1)
    && KeepsTo(t, error, error.writeFd, 2)
    && Survives(output, output.writeFd, input, 0)
    && Survives(error, error.writeFd, input, 0)
    && Survives(error, error.writeFd, output, 1)
    && (Present(input) || 0 in t ==> Spares(output, 0) && Spares(error, 0))
    && (!Present(output) && 1 in t ==> Spares(input, 1))
    && (Present(output) || 1 in t ==> Spares(error, 1))
    && (!Present(error) && 2 in t ==> Spares(input, 2) && Spares(output, 2))
  }

  lemma StandardByEntry(a: Table, b: Table)
    ensures KeepStandard(a) == KeepStandard(b)
            <==> At(a, 0) == At(b, 0) && At(a, 1) == At(b, 1) && At(a, 2) == At(b, 2)
  {
    var k, l := KeepStandard(a), KeepStandard(b);
    if k == l {
      assert forall fd | Standard(fd) :: (fd in k <==> fd in a) && (fd in l <==> fd in b);
    }
  }

  function Replaced(t: Table, input: Stream, output: Stream, error: Stream): (r: Table)
    requires EndsOpen(t, input, output, error)
    ensures KeepStandard(r) == Intended(t, input, output, error)
    ensures At(r, 0) == At(t, if Present(input) then input.readFd else 0)
    ensures At(r, 1) == At(t, if Present(output) then output.writeFd else 1)
    ensures At(r, 2) == At(t, if Present(error) then error.writeFd else 2)
  {
    var a := if Present(input) then t[0 := t[input.readFd]] else t;
    var b := if Present(output) then a[1 := t[output.writeFd]] else a;
    if Present(error) then b[2 := t[error.writeFd]] else b
  }

  /** The tables between the three set-ups. */
  ghost predicate Chain(t: Table, input: Stream, output: Stream, error: Stream, u: Table, v: Table, w: Table) {
    && (forall fd :: At(u, fd) == AttachedAt(t, input, input.readFd, input.writeFd, 0, fd))
    && (forall fd :: At(v, fd) == AttachedAt(u, output, output.writeFd, output.readFd, 1, fd))
    && (forall fd :: At(w, fd) == AttachedAt(v, error, error.writeFd, error.readFd, 2, fd))
    && (Present(input) ==> input.readFd in t)
    && (Present(output) ==> output.writeFd in u)
    && (Present(error) ==> error.writeFd in v)
  }

  lemma ReadyChains(t: Table, input: Stream, output: Stream, error: Stream) returns (u: Table, v: Table, w: Table)
    requires AttachAll(t, input, output, error).Ready?
    ensures Chain(t, input, output, error, u, v, w)
    ensures AttachAll(t, input, output, error) == Ready(w)
  {
    hide Attach, At, AttachedAt, Present;
    AttachPointwise(t, input, input.readFd, input.writeFd, 0, 2);
    u := Attach(t, input, input.readFd, input.writeFd, 0, 2).table;
    AttachPointwise(u, output, output.writeFd, output.readFd, 1, 3);
    v := Attach(u, output, output.writeFd, output.readFd, 1, 3).table;
    AttachPointwise(v, error, error.writeFd, error.readFd, 2, 4);
    w := Attach(v, error, error.writeFd, error.readFd, 2, 4).table;
  }

  lemma CompatibleIsReady(t: Table, input: Stream, output: Stream, error: Stream)
    requires Compatible(t, input, output, error)
    ensures AttachAll(t, input, output, error).Ready?
  {
    hide Attach;
    AttachPointwise(t, input, input.readFd, input.writeFd, 0, 2);
    var u := Attach(t, input, input.readFd, input.writeFd, 0, 2).table;
    assert Present(output) ==> At(u, output.writeFd) == At(t, output.writeFd);
    assert Present(error) ==> At(u, error.writeFd) == At(t, error.writeFd);
    AttachPointwise(u, output, output.writeFd, output.readFd, 1, 3);
    var v := Attach(u, output, output.writeFd, output.readFd, 1, 3).table;
    assert Present(error) ==> At(v, error.writeFd) == At(u, error.writeFd);
    AttachPointwise(v, error, error.writeFd, error.readFd, 2, 4);
  }

  /** Whatever the streams are, as long as the descriptors are compatible, stdin,
      stdout and stderr become the right end of their stream or stay as inherited. */
  lemma CompatibleIsRight(t: Table, input: Stream, output: Stream, error: Stream)
    requires Compatible(t, input, output, error)
    ensures Right(t, input, output, error)
  {
    hide KeepStandard, AttachAll, Intended, AttachedAt;
    CompatibleIsReady(t, input, output, error);
    var u, v, w := ReadyChains(t, input, output, error);
    var r := Replaced(t, input, output, error);
    ChainedEntries(t, input, output, error, u, v, w);
    StandardByEntry(w, r);
  }

  lemma ChainedEntries(t: Table, input: Stream, output: Stream, error: Stream, u: Table, v: Table, w: Table)
    requires Compatible(t, input, output, error)
    requires Chain(t, input, output, error, u, v, w)
    ensures At(w, 0) == At(t, if Present(input) then input.readFd else 0)
    ensures At(w, 1) == At(t, if Present(output) then output.writeFd else 1)
    ensures At(w, 2) == At(t, if Present(error) then error.writeFd else 2)
  {
  }

  /** Distinct descriptors are distinct open files. */
  ghost predicate Injective(t: Table) {
    forall a, b :: a in t && b in t && t[a] == t[b] ==> a == b
  }

  lemma RightIsCompatible(t: Table, input: Stream, output: Stream, error: Stream)
    requires Injective(t) && Right(t, input, output, error)
    ensures Compatible(t, input, output, error)
  {
    hide KeepStandard, AttachAll, Intended;
    var u, v, w := ReadyChains(t, input, output, error);
    var r := Replaced(t, input, output, error);
    StandardByEntry(w, r);
  }

  /** The descriptors alone decide: they are compatible exactly when every table that
      has those descriptors open, whatever they refer to, ends up right. */
  lemma CompatibleIffAlwaysRight(t: Table, input: Stream, output: Stream, error: Stream)
    ensures Compatible(t, input, output, error)
            <==> forall u: Table | u.Keys == t.Keys :: Right(u, input, output, error)
  {
    if Compatible(t, input, output, error) {
      forall u: Table | u.Keys == t.Keys ensures Right(u, input, output, error) {
        SameKeysSameCompatible(t, u, input, output, error);
        CompatibleIsRight(u, input, output, error);
      }
    } else {
      var u: Table := map fd | fd in t :: Inherited(fd);
      assert u.Keys == t.Keys && Injective(u);
      SameKeysSameCompatible(t, u, input, output, error);
      if Right(u, input, output, error) {
        RightIsCompatible(u, input, output, error);
      }
    }
  }

  lemma SameKeysSameCompatible(t: Table, u: Table, input: Stream, output: Stream, error: Stream)
    requires u.Keys == t.Keys
    ensures Compatible(t, input, output, error) == Compatible(u, input, output, error)
  {
  }

  /** Every descriptor of the streams is at least 3, and no two streams share one. */
  ghost predicate Apart(input: Stream, output: Stream, error: Stream) {
    && (Present(input) ==> input.readFd >= 3 && input.writeFd >= 3)
    && (Present(output) ==> output.readFd >= 3 && output.writeFd >= 3)
    && (Present(error) ==> error.readFd >= 3 && error.writeFd >= 3)
    && Disjoint(input, output) && Disjoint(input, error) && Disjoint(output, error)
  }

  ghost predicate Disjoint(a: Stream, b: Stream) {
    Present(a) && Present(b) ==> {a.readFd, a.writeFd} !! {b.readFd, b.writeFd}
  }

  /** The streams fail in order: 2, 3 or 4 says which is the first whose kept end is
      not open. */
  lemma FirstClosedEndDecides(t: Table, input: Stream, output: Stream, error: Stream)
    requires Apart(input, output, error)
    ensures var r := AttachAll(t, input, output, error);
            if Present(input) && input.readFd !in t then r.Failed? && r.exitCode == 2
            else if Present(output) && output.writeFd !in t then r.Failed? && r.exitCode == 3
            else if Present(error) && error.writeFd !in t then r.Failed? && r.exitCode == 4
            else Compatible(t, input, output, error) && Right(t, input, output, error)
  {
    if EndsOpen(t, input, output, error) {
      assert Compatible(t, input, output, error);
      CompatibleIsRight(t, input, output, error);
    } else if Present(input) ==> input.readFd in t {
      AttachPointwise(t, input, input.readFd, input.writeFd, 0, 2);
      var u := Attach(t, input, input.readFd, input.writeFd, 0, 2).table;
      assert Present(output) ==> At(u, output.writeFd) == At(t, output.writeFd);
      assert Present(error) ==> At(u, error.writeFd) == At(t, error.writeFd);
      if Present(output) ==> output.writeFd in t {
        AttachPointwise(u, output, output.writeFd, output.readFd, 1, 3);
        var v := Attach(u, output, output.writeFd, output.readFd, 1, 3).table;
        assert Present(error) ==> At(v, error.writeFd) == At(u, error.writeFd);
      }
    }
  }

  // ------------------------------------------------------- closing everything else

  lemma {:induction false} CloseListedAt(t: Table, dirfd: Fd, entries: seq<Dirent>, fd: Fd)
    ensures At(CloseListed(t, dirfd, entries), fd)
            == if !Standard(fd) && fd != dirfd && Number(fd) in entries then Nothing else At(t, fd)
    decreases |entries|
  {
    if entries != [] {
      var e := entries[0];
      var u := if e.Number? && !Standard(e.fd) && e.fd != dirfd then Close(t, e.fd) else t;
      CloseListedAt(u, dirfd, entries[1..], fd);
      assert entries == [e] + entries[1..];
    }
  }

  lemma {:induction false} CloseRangeAt(t: Table, i: nat, end: int, fd: Fd)
    ensures At(CloseRange(t, i, end), fd)
            == if !Standard(fd) && i <= fd < end then Nothing else At(t, fd)
    decreases end - i
  {
    if i < end {
      CloseRangeAt(if Standard(i) then t else Close(t, i), i + 1, end, fd);
    }
  }

  /** Whether the listing reaches fd. */
  ghost predicate Listed(proc: Proc, fd: Fd) {
    proc.Listing? && Number(fd) in proc.entries
  }

  /** Whether the brute-force loop reaches fd. */
  ghost predicate Below(limit: Limit, fd: Fd) {
    limit.Finite? && 0 <= fd < ToInt(limit.n)
  }

  /** The directory descriptor is a new one. */
  ghost predicate FreshDirectory(proc: Proc, t: Table) {
    proc.Listing? ==> proc.dirfd !in t
  }

  ghost predicate ListsAll(proc: Proc) {
    proc.Listing? && proc.entries != [] && !proc.fails
  }

  lemma ViaProcAt(t: Table, proc: Proc, fd: Fd)
    requires FreshDirectory(proc, t)
    ensures At(CloseViaProc(t, proc).0, fd)
            == if !Standard(fd) && Listed(proc, fd) then Nothing else At(t, fd)
  {
    if proc.Listing? {
      CloseListedAt(t[proc.dirfd := Directory], proc.dirfd, proc.entries, fd);
    }
  }

  lemma ByForceAt(t: Table, limit: Limit, fd: Fd)
    ensures At(CloseByForce(t, limit), fd)
            == if !Standard(fd) && Below(limit, fd) then Nothing else At(t, fd)
  {
    if limit.Finite? {
      CloseRangeAt(t, 0, ToInt(limit.n), fd);
    }
  }

  /** Whether some loop reaches fd: the brute-force one runs only when the listing did
      not reach its end. */
  ghost predicate Reached(kernel: Kernel, fd: Fd) {
    Listed(kernel.proc, fd) || (!ListsAll(kernel.proc) && Below(kernel.limit, fd))
  }

  lemma CloseRestAt(t: Table, kernel: Kernel, fd: Fd)
    requires FreshDirectory(kernel.proc, t) && CloseRest(t, kernel).1
    ensures At(CloseRest(t, kernel).0, fd)
            == if !Standard(fd) && Reached(kernel, fd) then Nothing else At(t, fd)
  {
    ViaProcAt(t, kernel.proc, fd);
    ByForceAt(CloseViaProc(t, kernel.proc).0, kernel.limit, fd);
  }

  /** Everything else is closed, and nothing else, exactly when every other open
      descriptor is reached. */
  lemma ClosesRestIff(t: Table, kernel: Kernel)
    requires FreshDirectory(kernel.proc, t) && CloseRest(t, kernel).1
    ensures CloseRest(t, kernel).0 == KeepStandard(t)
            <==> forall fd | fd in t && !Standard(fd) :: Reached(kernel, fd)
  {
    hide CloseRest, Reached;
    var r := CloseRest(t, kernel).0;
    forall fd ensures At(r, fd) == if !Standard(fd) && Reached(kernel, fd) then Nothing else At(t, fd) {
      CloseRestAt(t, kernel, fd);
    }
    if forall fd | fd in t && !Standard(fd) :: Reached(kernel, fd) {
      forall fd ensures At(r, fd) == At(KeepStandard(t), fd) {
      }
      SameEntriesSameTable(r, KeepStandard(t));
    } else {
      var fd :| fd in t && !Standard(fd) && !Reached(kernel, fd);
      assert At(r, fd) == At(t, fd);
    }
  }

  lemma SameEntriesSameTable(a: Table, b: Table)
    requires forall fd :: At(a, fd) == At(b, fd)
    ensures a == b
  {
    forall fd
      ensures fd in a <==> fd in b
      ensures fd in a ==> a[fd] == b[fd]
    {
      assert At(a, fd) == At(b, fd);
    }
  }

  /** The directory, if it lists to its end, names every open descriptor. */
  ghost predicate HonestListing(proc: Proc, t: Table) {
    ListsAll(proc) ==> forall fd | fd in t :: Number(fd) in proc.entries
  }

  /** With every open descriptor below a finite limit, all ways agree: the directory
      alone, brute force alone, or any part of the directory and then brute force. */
  lemma EveryWayCloses(t: Table, kernel: Kernel)
    requires FreshDirectory(kernel.proc, t) && HonestListing(kernel.proc, t)
    requires kernel.gotLimit && forall fd | fd in t && !Standard(fd) :: Below(kernel.limit, fd)
    ensures CloseRest(t, kernel) == (KeepStandard(t), true)
  {
    ClosesRestIff(t, kernel);
  }

  /** The cast of the limit to int: it wraps modulo 2^32 into the range of an int. */
  lemma ToIntWraps(n: nat)
    ensures -0x8000_0000 <= ToInt(n) < 0x8000_0000
    ensures exists q :: n - ToInt(n) == q * 0x1_0000_0000
  {
    var q := n / 0x1_0000_0000;
    assert n == q * 0x1_0000_0000 + n % 0x1_0000_0000;
    if n % 0x1_0000_0000 < 0x8000_0000 {
      assert n - ToInt(n) == q * 0x1_0000_0000;
    } else {
      assert n - ToInt(n) == (q + 1) * 0x1_0000_0000;
    }
  }

  /** The closing comes to its end unless the listing does not and the limit is unknown. */
  lemma ClosingEndsIff(t: Table, kernel: Kernel)
    ensures CloseRest(t, kernel).1 <==> ListsAll(kernel.proc) || kernel.gotLimit
  {}

  // ------------------------------------------------------------------- the child

  /** The child executes with exactly what was asked for, if and only if its signals can
      be unblocked, the three streams are set up right, and the closing loops run to
      their end and reach every other descriptor. */
  lemma ExecIsIntendedIff(t: Table, input: Stream, output: Stream, error: Stream, kernel: Kernel)
    requires EndsOpen(t, input, output, error)
    requires var u := AttachAll(t, input, output, error); u.Ready? ==> FreshDirectory(kernel.proc, u.table)
    ensures CloneHandler(t, input, output, error, kernel) == Exec(Intended(t, input, output, error))
            <==> var u := AttachAll(t, input, output, error);
                 && kernel.unblocked && Right(t, input, output, error) && CloseRest(u.table, kernel).1
                 && forall fd | fd in u.table && !Standard(fd) :: Reached(kernel, fd)
  {
    hide AttachAll, CloseRest, Intended, Reached;
    var r := AttachAll(t, input, output, error);
    if r.Ready? && CloseRest(r.table, kernel).1 {
      ClosesRestIff(r.table, kernel);
      if CloseRest(r.table, kernel).0 == Intended(t, input, output, error) {
        IntendedIsStandard(t, input, output, error, r.table, kernel);
      }
    }
  }

  lemma IntendedIsStandard(t: Table, input: Stream, output: Stream, error: Stream, u: Table, kernel: Kernel)
    requires EndsOpen(t, input, output, error) && FreshDirectory(kernel.proc, u) && CloseRest(u, kernel).1
    requires CloseRest(u, kernel).0 == Intended(t, input, output, error)
    ensures KeepStandard(u) == Intended(t, input, output, error)
  {
    hide CloseRest, Reached;
    var c := CloseRest(u, kernel).0;
    forall fd ensures At(KeepStandard(u), fd) == At(c, fd) {
      CloseRestAt(u, kernel, fd);
      assert !Standard(fd) ==> fd !in c;
    }
    SameEntriesSameTable(KeepStandard(u), c);
  }

  /** The child executes with exactly stdin, stdout and stderr, each the proper end of
      its stream or inherited. */
  lemma ChildAtExec(t: Table, input: Stream, output: Stream, error: Stream, kernel: Kernel)
    requires Compatible(t, input, output, error) && kernel.unblocked
    requires var u := AttachAll(t, input, output, error);
             u.Ready? ==> FreshDirectory(kernel.proc, u.table) && HonestListing(kernel.proc, u.table)
    requires ListsAll(kernel.proc)
             || (kernel.gotLimit && forall fd | fd in t && !Standard(fd) :: Below(kernel.limit, fd))
    ensures CloneHandler(t, input, output, error, kernel) == Exec(Intended(t, input, output, error))
  {
    hide CloseRest, AttachAll, KeepStandard, Intended, Compatible, Below, ListsAll;
    CompatibleIsRight(t, input, output, error);
    var u, v, w := ReadyChains(t, input, output, error);
    if ListsAll(kernel.proc) {
      FullListingCloses(w, kernel);
    } else {
      OnlyStandardAdded(t, input, output, error, u, v, w);
      EveryWayCloses(w, kernel);
    }
  }

  lemma FullListingCloses(t: Table, kernel: Kernel)
    requires FreshDirectory(kernel.proc, t) && HonestListing(kernel.proc, t) && ListsAll(kernel.proc)
    ensures CloseRest(t, kernel) == (KeepStandard(t), true)
  {
    ClosesRestIff(t, kernel);
  }

  lemma OnlyStandardAdded(t: Table, input: Stream, output: Stream, error: Stream, u: Table, v: Table, w: Table)
    requires Chain(t, input, output, error, u, v, w)
    ensures forall fd | fd in w :: fd in t || Standard(fd)
  {
    forall fd | fd in w ensures fd in t || Standard(fd) {
      assert At(w, fd) != Nothing;
      if !Standard(fd) {
        assert At(v, fd) != Nothing && At(u, fd) != Nothing && At(t, fd) != Nothing;
      }
    }
  }
}
