/** Over any number of calls of popen: when each file popen opened stays open in exactly
    one process under exactly one descriptor. */
module SpawnRuns {
  import opened Descriptors
  import opened DescriptorProofs
  import opened Spawn
  import opened SpawnProofs

  ghost predicate Holds(ps: seq<Table>, i: nat, fd: Fd, f: File) {
    i < |ps| && At(ps[i], fd) == Refers(f)
  }

  /** Everything popen ever opened is open somewhere, and in one place only. */
  ghost predicate Conserved(s: System) {
    && (forall f | f in s.made :: exists i: nat, fd :: Holds(s.processes, i, fd, f))
    && (forall f, i: nat, fd, j: nat, fe |
          Holds(s.processes, i, fd, f) && Holds(s.processes, j, fe, f) && ByPopen(f) :: i == j && fd == fe)
  }

  /** What popen opened is known. */
  ghost predicate Known(s: System) {
    && s.processes != []
    && (forall i: nat, fd, f | Holds(s.processes, i, fd, f) && ByPopen(f) :: f in s.made)
    && (forall f | f in s.made :: ByPopen(f) && f.n < s.serial)
  }

  ghost predicate Inv(s: System) {
    Known(s) && Conserved(s)
  }

  // -------------------------------------------------------------- opening streams

  /** The system after the streams are opened. */
  function AfterOpening(s: System, table: Table): System
    requires s.processes != []
  {
    System([table] + s.processes[1..], s.made + Made(table), s.serial + 3)
  }

  lemma MadeAt(t: Table, f: File)
    ensures f in Made(t) <==> ByPopen(f) && exists fd :: At(t, fd) == Refers(f)
  {
    if f in Made(t) {
      var fd :| fd in t && t[fd] == f;
      assert At(t, fd) == Refers(f);
    }
  }

  lemma OpeningHolds(s: System, u: Table, i: nat, fd: Fd, f: File)
    requires s.processes != [] && Grows(s.processes[0], u, s.serial, s.serial + 3)
    requires Holds(AfterOpening(s, u).processes, i, fd, f)
    ensures Holds(s.processes, i, fd, f)
            || (i == 0 && fd in u && fd !in s.processes[0] && ByPopen(f) && s.serial <= f.n < s.serial + 3)
  {
  }

  lemma OpeningKeepsHolds(s: System, u: Table, i: nat, fd: Fd, f: File)
    requires s.processes != [] && Grows(s.processes[0], u, s.serial, s.serial + 3)
    requires Holds(s.processes, i, fd, f)
    ensures Holds(AfterOpening(s, u).processes, i, fd, f)
  {
  }

  lemma OpeningKeepsUnique(s: System, u: Table, f: File, i: nat, fd: Fd, j: nat, fe: Fd)
    requires Inv(s) && Grows(s.processes[0], u, s.serial, s.serial + 3) && ByPopen(f)
    requires Holds(AfterOpening(s, u).processes, i, fd, f) && Holds(AfterOpening(s, u).processes, j, fe, f)
    ensures i == j && fd == fe
  {
    OpeningHolds(s, u, i, fd, f);
    OpeningHolds(s, u, j, fe, f);
  }

  lemma OpeningKeepsMade(s: System, u: Table, f: File)
    requires Inv(s) && Grows(s.processes[0], u, s.serial, s.serial + 3)
    requires f in AfterOpening(s, u).made
    ensures ByPopen(f) && f.n < s.serial + 3
    ensures exists i: nat, fd :: Holds(AfterOpening(s, u).processes, i, fd, f)
  {
    MadeAt(u, f);
    if f in s.made {
      var i: nat, fd :| Holds(s.processes, i, fd, f);
      OpeningKeepsHolds(s, u, i, fd, f);
    } else {
      var fd :| At(u, fd) == Refers(f);
      assert Holds(AfterOpening(s, u).processes, 0, fd, f);
      OpeningHolds(s, u, 0, fd, f);
    }
  }

  lemma OpeningKeeps(s: System, u: Table)
    requires Inv(s) && Grows(s.processes[0], u, s.serial, s.serial + 3)
    ensures Inv(AfterOpening(s, u))
  {
    hide Grows, At;
    var r := AfterOpening(s, u);
    forall i: nat, fd, f | Holds(r.processes, i, fd, f) && ByPopen(f) ensures f in r.made {
      OpeningHolds(s, u, i, fd, f);
      if i == 0 {
        assert At(u, fd) == Refers(f);
        MadeAt(u, f);
      }
    }
    forall f | f in r.made
      ensures ByPopen(f) && f.n < r.serial && exists i: nat, fd :: Holds(r.processes, i, fd, f)
    {
      OpeningKeepsMade(s, u, f);
    }
    forall f, i: nat, fd, j: nat, fe | Holds(r.processes, i, fd, f) && Holds(r.processes, j, fe, f) && ByPopen(f)
      ensures i == j && fd == fe
    {
      OpeningKeepsUnique(s, u, f, i, fd, j, fe);
    }
  }

  // ------------------------------------------------------------------ the move

  /** The kept ends leave the parent; the child's descriptors come from their sources. */
  ghost predicate Moves(o: Opening, kernel: Kernel, parent: Table, child: Table) {
    && (forall fd :: At(parent, fd) == if Kept(o, fd) then Nothing else At(o.table, fd))
    && (forall fd :: At(child, fd) == FoundAt(o.table, ChildSource(o, kernel, fd)))
  }

  function AfterMove(s: System, parent: Table, child: Table): System
    requires s.processes != []
  {
    s.(processes := [parent] + s.processes[1..] + [child])
  }

  /** A descriptor of the parent whose file popen opened. */
  ghost predicate OfPopen(o: Opening, x: Fd) {
    x in o.table && ByPopen(o.table[x])
  }

  ghost predicate ComesFrom(o: Opening, kernel: Kernel, fd: Fd, x: Fd) {
    ChildSource(o, kernel, fd) == From(x)
  }

  /** What can be told before the child runs: of the descriptors whose files popen
      opened, the child's are exactly those the parent gives up, each under one number. */
  ghost predicate Exact(o: Opening, kernel: Kernel) {
    && (forall fd, x | ComesFrom(o, kernel, fd, x) && OfPopen(o, x) :: Kept(o, x))
    && (forall x | OfPopen(o, x) && Kept(o, x) :: exists fd :: ComesFrom(o, kernel, fd, x))
    && (forall fd, fe, x | ComesFrom(o, kernel, fd, x) && ComesFrom(o, kernel, fe, x) && OfPopen(o, x) :: fd == fe)
  }

  lemma MoveOthers(s: System, parent: Table, child: Table, i: nat, fd: Fd, f: File)
    requires s.processes != [] && 0 < i < |s.processes|
    ensures Holds(AfterMove(s, parent, child).processes, i, fd, f) <==> Holds(s.processes, i, fd, f)
  {
  }

  lemma MoveParent(s: System, o: Opening, kernel: Kernel, parent: Table, child: Table, fd: Fd, f: File)
    requires s.processes != [] && s.processes[0] == o.table && Moves(o, kernel, parent, child)
    ensures Holds(AfterMove(s, parent, child).processes, 0, fd, f) <==> Holds(s.processes, 0, fd, f) && !Kept(o, fd)
  {
    hide Kept, FoundAt, ChildSource;
    assert At(parent, fd) == if Kept(o, fd) then Nothing else At(o.table, fd);
  }

  lemma MoveChild(s: System, o: Opening, kernel: Kernel, parent: Table, child: Table, fd: Fd, f: File)
    requires s.processes != [] && s.processes[0] == o.table && Moves(o, kernel, parent, child)
    ensures Holds(AfterMove(s, parent, child).processes, |s.processes|, fd, f)
            <==> exists x :: ComesFrom(o, kernel, fd, x) && Holds(s.processes, 0, x, f)
  {
    hide Kept, ChildSource;
    assert At(child, fd) == FoundAt(o.table, ChildSource(o, kernel, fd));
    if ChildSource(o, kernel, fd).From? {
      assert ComesFrom(o, kernel, fd, ChildSource(o, kernel, fd).fd);
    }
  }

  /** Where a file was before the move, given where it is after. */
  lemma MoveHolds(s: System, o: Opening, kernel: Kernel, parent: Table, child: Table, i: nat, fd: Fd, f: File)
    returns (j: nat, x: Fd)
    requires s.processes != [] && s.processes[0] == o.table && Moves(o, kernel, parent, child)
    requires Holds(AfterMove(s, parent, child).processes, i, fd, f)
    ensures Holds(s.processes, j, x, f)
    ensures if i == |s.processes| then j == 0 && ComesFrom(o, kernel, fd, x)
            else i == j && fd == x && (i == 0 ==> !Kept(o, x))
  {
    j, x := i, fd;
    if i == |s.processes| {
      MoveChild(s, o, kernel, parent, child, fd, f);
      var y :| ComesFrom(o, kernel, fd, y) && Holds(s.processes, 0, y, f);
      j, x := 0, y;
    } else if i == 0 {
      MoveParent(s, o, kernel, parent, child, fd, f);
    } else {
      MoveOthers(s, parent, child, i, fd, f);
    }
  }

  lemma MoveKnown(s: System, o: Opening, kernel: Kernel, parent: Table, child: Table)
    requires Known(s) && s.processes[0] == o.table && Moves(o, kernel, parent, child)
    ensures Known(AfterMove(s, parent, child))
  {
    hide At, Moves;
    var r := AfterMove(s, parent, child);
    forall i: nat, fd, f | Holds(r.processes, i, fd, f) && ByPopen(f) ensures f in r.made {
      var j, x := MoveHolds(s, o, kernel, parent, child, i, fd, f);
    }
  }

  lemma ExactKeepsUnique(s: System, o: Opening, kernel: Kernel, parent: Table, child: Table,
                         f: File, i: nat, fd: Fd, j: nat, fe: Fd)
    requires Inv(s) && s.processes[0] == o.table && Moves(o, kernel, parent, child) && ByPopen(f) && Exact(o, kernel)
    requires Holds(AfterMove(s, parent, child).processes, i, fd, f)
    requires Holds(AfterMove(s, parent, child).processes, j, fe, f)
    ensures i == j && fd == fe
  {
    var a, x := MoveHolds(s, o, kernel, parent, child, i, fd, f);
    var b, y := MoveHolds(s, o, kernel, parent, child, j, fe, f);
    assert a == b && x == y;
    assert a == 0 ==> OfPopen(o, x);
    hide Moves, ComesFrom, Kept, Known;
  }

  lemma ExactKeepsHeld(s: System, o: Opening, kernel: Kernel, parent: Table, child: Table, f: File)
    requires Inv(s) && s.processes[0] == o.table && Moves(o, kernel, parent, child) && Exact(o, kernel) && f in s.made
    ensures exists i: nat, fd :: Holds(AfterMove(s, parent, child).processes, i, fd, f)
  {
    var i: nat, x :| Holds(s.processes, i, x, f);
    var r := AfterMove(s, parent, child).processes;
    if i > 0 {
      MoveOthers(s, parent, child, i, x, f);
      assert Holds(r, i, x, f);
    } else if !Kept(o, x) {
      MoveParent(s, o, kernel, parent, child, x, f);
      assert Holds(r, 0, x, f);
    } else {
      assert OfPopen(o, x);
      var fd :| ComesFrom(o, kernel, fd, x);
      MoveChild(s, o, kernel, parent, child, fd, f);
      assert Holds(r, |s.processes|, fd, f);
    }
  }

  lemma ExactMoveKeeps(s: System, o: Opening, kernel: Kernel, parent: Table, child: Table)
    requires Inv(s) && s.processes[0] == o.table && Moves(o, kernel, parent, child) && Exact(o, kernel)
    ensures Inv(AfterMove(s, parent, child))
  {
    MoveKnown(s, o, kernel, parent, child);
    hide At, Moves, Exact, Holds, Known;
    var r := AfterMove(s, parent, child);
    forall f | f in r.made ensures exists i: nat, fd :: Holds(r.processes, i, fd, f) {
      ExactKeepsHeld(s, o, kernel, parent, child, f);
    }
    forall f, i: nat, fd, j: nat, fe | Holds(r.processes, i, fd, f) && Holds(r.processes, j, fe, f) && ByPopen(f)
      ensures i == j && fd == fe
    {
      ExactKeepsUnique(s, o, kernel, parent, child, f, i, fd, j, fe);
    }
  }

  /** A file at a descriptor of the parent, and where the child has it. */
  lemma ChildHasIt(s: System, o: Opening, kernel: Kernel, parent: Table, child: Table, fd: Fd, x: Fd)
    requires Known(s) && s.processes[0] == o.table && Moves(o, kernel, parent, child)
    requires ComesFrom(o, kernel, fd, x) && OfPopen(o, x)
    ensures Holds(AfterMove(s, parent, child).processes, |s.processes|, fd, o.table[x])
  {
    assert Holds(s.processes, 0, x, o.table[x]);
    MoveChild(s, o, kernel, parent, child, fd, o.table[x]);
  }

  lemma ConservedIsExact(s: System, o: Opening, kernel: Kernel, parent: Table, child: Table)
    requires Inv(s) && s.processes[0] == o.table && Moves(o, kernel, parent, child)
    requires Conserved(AfterMove(s, parent, child))
    ensures Exact(o, kernel)
  {
    hide Kept, ComesFrom, Moves;
    var r, last := AfterMove(s, parent, child).processes, |s.processes|;
    forall fd, x | ComesFrom(o, kernel, fd, x) && OfPopen(o, x) ensures Kept(o, x) {
      ChildHasIt(s, o, kernel, parent, child, fd, x);
      MoveParent(s, o, kernel, parent, child, x, o.table[x]);
      assert Holds(s.processes, 0, x, o.table[x]);
      assert Holds(r, last, fd, o.table[x]);
      assert !Holds(r, 0, x, o.table[x]);
    }
    forall x | OfPopen(o, x) && Kept(o, x) ensures exists fd :: ComesFrom(o, kernel, fd, x) {
      KeptIsFound(s, o, kernel, parent, child, x);
    }
    forall fd, fe, x | ComesFrom(o, kernel, fd, x) && ComesFrom(o, kernel, fe, x) && OfPopen(o, x) ensures fd == fe {
      ChildHasIt(s, o, kernel, parent, child, fd, x);
      ChildHasIt(s, o, kernel, parent, child, fe, x);
    }
  }

  lemma KeptIsFound(s: System, o: Opening, kernel: Kernel, parent: Table, child: Table, x: Fd)
    requires Inv(s) && s.processes[0] == o.table && Moves(o, kernel, parent, child)
    requires Conserved(AfterMove(s, parent, child)) && OfPopen(o, x) && Kept(o, x)
    ensures exists fd :: ComesFrom(o, kernel, fd, x)
  {
    var f := o.table[x];
    assert Holds(s.processes, 0, x, f);
    hide Kept, ComesFrom, Moves;
    var i: nat, fd :| Holds(AfterMove(s, parent, child).processes, i, fd, f);
    var j, y := MoveHolds(s, o, kernel, parent, child, i, fd, f);
    assert j == 0 && y == x;
    assert ComesFrom(o, kernel, fd, x);
  }

  // ---------------------------------------------------------------------- runs

  /** A call that starts a child moves exactly what it gives up; one that throws moves
      nothing. */
  ghost predicate ExactCall(s: System, order: Order)
    requires s.processes != []
  {
    Clone(s.processes[0], order, s.serial).Started? ==>
      Exact(OpenAll(s.processes[0], order, s.serial), order.kernel)
  }

  /** Whatever popen is asked for: a call conserves everything popen ever opened if and
      only if it is exact. */
  lemma StepConservesIff(s: System, order: Order)
    requires Inv(s) && Honest(s.processes[0], order, s.serial)
    ensures Conserved(Step(s, order)) <==> ExactCall(s, order)
    ensures ExactCall(s, order) ==> Inv(Step(s, order))
  {
    var t := s.processes[0];
    var o, r := OpenAll(t, order, s.serial), Clone(t, order, s.serial);
    OpenAllGrows(t, order, s.serial);
    hide Known, Conserved, OpenAll, Clone, AllFree, Grows, Moves, Exact, FreshAfter;
    OpeningKeeps(s, o.table);
    CloneOutcome(t, order, s.serial);
    if r.Started? {
      var b := AfterOpening(s, o.table);
      Moved(o, order.kernel, r);
      assert Step(s, order) == AfterMove(b, r.parent, r.child);
      if Exact(o, order.kernel) {
        ExactMoveKeeps(b, o, order.kernel, r.parent, r.child);
      } else if Conserved(Step(s, order)) {
        ConservedIsExact(b, o, order.kernel, r.parent, r.child);
      }
    }
  }

  lemma Moved(o: Opening, kernel: Kernel, r: Outcome)
    requires r.Started?
    requires forall fd :: At(r.parent, fd) == if Kept(o, fd) then Nothing else At(o.table, fd)
    requires forall fd :: At(r.child, fd) == FoundAt(o.table, ChildSource(o, kernel, fd))
    ensures Moves(o, kernel, r.parent, r.child)
  {
  }

  ghost predicate RunHonest(s: System, orders: seq<Order>)
    requires s.processes != []
    decreases |orders|
  {
    orders != [] ==> Honest(s.processes[0], orders[0], s.serial) && RunHonest(Step(s, orders[0]), orders[1..])
  }

  ghost predicate RunExact(s: System, orders: seq<Order>)
    requires s.processes != []
    decreases |orders|
  {
    orders != [] ==> ExactCall(s, orders[0]) && RunExact(Step(s, orders[0]), orders[1..])
  }

  /** Conserved after every call of the run. */
  ghost predicate AlwaysConserved(s: System, orders: seq<Order>)
    requires s.processes != []
    decreases |orders|
  {
    Conserved(s) && (orders != [] ==> AlwaysConserved(Step(s, orders[0]), orders[1..]))
  }

  lemma {:induction false} RunConservesIff(s: System, orders: seq<Order>)
    requires Inv(s) && RunHonest(s, orders)
    ensures AlwaysConserved(s, orders) <==> RunExact(s, orders)
    decreases |orders|
  {
    if orders != [] {
      var t := Step(s, orders[0]);
      StepConservesIff(s, orders[0]);
      hide Known, Conserved, ExactCall, Honest, Step;
      if ExactCall(s, orders[0]) {
        RunConservesIff(t, orders[1..]);
      }
    }
  }

  /** Before popen is first called. */
  ghost predicate Start(t: Table) {
    forall fd | fd in t :: !ByPopen(t[fd])
  }

  lemma StartInv(t: Table, serial: nat)
    requires Start(t)
    ensures Inv(System([t], {}, serial))
  {
    var s := System([t], {}, serial);
    assert forall i: nat, fd, f | Holds(s.processes, i, fd, f) :: fd in t && !ByPopen(f);
  }

  /** Over any number of calls, whatever they ask for and however they fail: every pipe
      end or file popen ever opened stays open in exactly one process under exactly one
      descriptor, if and only if every call that starts a child is exact. */
  lemma EveryRunConservesIff(t: Table, serial: nat, orders: seq<Order>)
    requires Start(t) && RunHonest(System([t], {}, serial), orders)
    ensures AlwaysConserved(System([t], {}, serial), orders) <==> RunExact(System([t], {}, serial), orders)
  {
    StartInv(t, serial);
    RunConservesIff(System([t], {}, serial), orders);
  }

  // ------------------------------------------------------- calls that do not collide

  /** None of stdin, stdout and stderr is a file popen opened. */
  ghost predicate Plain(t: Table) {
    forall fd | fd in t && Standard(fd) :: !ByPopen(t[fd])
  }

  lemma OpeningStaysPlain(t: Table, order: Order, serial: nat)
    requires AllFree(t, order, serial) && Plain(t) && Separate(OpenAll(t, order, serial))
    ensures Plain(OpenAll(t, order, serial).table)
  {
    OpenAllGrows(t, order, serial);
    hide OpenAll, AllFree;
  }

  /** With descriptors of at least 3, distinct across streams, each stream's end goes
      where it should, and nothing else moves. */
  lemma SeparateSources(o: Opening, fd: Fd)
    requires Separate(o)
    ensures Standard(fd) && End(o, fd) != CLOSED ==> SourceOf(o, fd) == From(End(o, fd))
    ensures Standard(fd) && End(o, fd) == CLOSED ==> SourceOf(o, fd) in {From(fd), Nowhere}
    ensures !Standard(fd) ==> SourceOf(o, fd) in {From(fd), Nowhere}
  {
  }

  lemma SeparateIsExact(o: Opening, kernel: Kernel)
    requires Separate(o) && Plain(o.table) && ThoroughAfter(o, kernel)
    requires CloneHandler(o.table, o.input, o.output, o.error, kernel).Exec?
    ensures Exact(o, kernel)
  {
    hide Separate, ThoroughAfter;
    forall fd, x | ComesFrom(o, kernel, fd, x) && OfPopen(o, x) ensures Standard(fd) && x == End(o, fd) != CLOSED {
      SeparateComes(o, kernel, fd, x);
    }
    forall fd, fe, x | ComesFrom(o, kernel, fd, x) && ComesFrom(o, kernel, fe, x) && OfPopen(o, x) ensures fd == fe {
      EndsDiffer(o, fd, fe);
    }
    forall x | OfPopen(o, x) && Kept(o, x) ensures exists fd :: ComesFrom(o, kernel, fd, x) {
      var k := if x == End(o, 0) then 0 else if x == End(o, 1) then 1 else 2;
      SeparateSources(o, k);
      assert ComesFrom(o, kernel, k, x);
    }
  }

  lemma EndsDiffer(o: Opening, k: Fd, l: Fd)
    requires Separate(o) && End(o, k) == End(o, l) != CLOSED
    ensures k == l
  {
  }

  lemma SeparateComes(o: Opening, kernel: Kernel, fd: Fd, x: Fd)
    requires Separate(o) && Plain(o.table) && ThoroughAfter(o, kernel)
    requires CloneHandler(o.table, o.input, o.output, o.error, kernel).Exec?
    requires ComesFrom(o, kernel, fd, x) && OfPopen(o, x)
    ensures Standard(fd) && x == End(o, fd) != CLOSED
  {
    SeparateSources(o, fd);
    var u := AttachAll(o.table, o.input, o.output, o.error).table;
    AttachedSource(o, u, fd);
    hide Separate, AttachAll, CloseRest, SourceOf, Reached;
    assert At(u, fd) == At(o.table, x);
    assert fd in u;
  }

  ghost predicate RunAdmissible(s: System, orders: seq<Order>)
    requires s.processes != []
    decreases |orders|
  {
    orders != [] ==>
      Admissible(s.processes[0], orders[0], s.serial) && RunAdmissible(Step(s, orders[0]), orders[1..])
  }

  /** No child has anything but stdin, stdout and stderr. */
  ghost predicate Bare(s: System) {
    forall i, fd | 0 < i < |s.processes| && fd in s.processes[i] :: Standard(fd)
  }

  lemma AdmissibleIsExact(s: System, order: Order)
    requires s.processes != [] && Plain(s.processes[0]) && Admissible(s.processes[0], order, s.serial)
    ensures ExactCall(s, order)
    ensures Step(s, order).processes != [] && Plain(Step(s, order).processes[0])
    ensures Bare(s) ==> Bare(Step(s, order))
  {
    var t := s.processes[0];
    var o := OpenAll(t, order, s.serial);
    OpeningStaysPlain(t, order, s.serial);
    CloneOutcome(t, order, s.serial);
    ChildHolds(o, order.kernel);
    var r := Clone(t, order, s.serial);
    if r.Started? {
      var c := CloneHandler(o.table, o.input, o.output, o.error, order.kernel);
      assert c == Exec(r.child) by { hide CloneHandler, OpenAll; }
      hide Clone, OpenAll, CloneHandler, AllFree, Separate, ThoroughAfter, FreshAfter, Exact;
      SeparateIsExact(o, order.kernel);
      forall fd | fd in r.parent && Standard(fd) ensures !ByPopen(r.parent[fd]) {
        assert At(r.parent, fd) == At(o.table, fd);
      }
      forall fd | fd in r.child ensures Standard(fd) {
        assert At(r.child, fd) == ChildAt(o, fd);
      }
    }
  }

  lemma {:induction false} AdmissibleRunIsExact(s: System, orders: seq<Order>)
    requires s.processes != [] && Plain(s.processes[0]) && RunAdmissible(s, orders)
    ensures RunHonest(s, orders) && RunExact(s, orders)
    ensures Bare(s) ==> Bare(Run(s, orders))
    decreases |orders|
  {
    hide Plain, ExactCall, Step, Bare;
    if orders != [] {
      AdmissibleIsExact(s, orders[0]);
      AdmissibleRunIsExact(Step(s, orders[0]), orders[1..]);
    }
  }

  /** So runs of calls whose descriptors are at least 3 and distinct across streams,
      with a child that can see what it has to close, always conserve, and leave no
      child with anything but stdin, stdout and stderr. */
  lemma EveryAdmissibleRunConserves(t: Table, serial: nat, orders: seq<Order>)
    requires Start(t) && RunAdmissible(System([t], {}, serial), orders)
    ensures AlwaysConserved(System([t], {}, serial), orders)
    ensures Bare(Run(System([t], {}, serial), orders))
  {
    var s := System([t], {}, serial);
    assert s.processes[0] == t && Plain(t);
    AdmissibleRunIsExact(s, orders);
    EveryRunConservesIff(t, serial, orders);
  }

  /** And the pipe of a parent without stdin is what an inexact call loses. */
  lemma LostStdinIsInexact()
    ensures Start(NO_STDIN) && !ExactCall(System([NO_STDIN], {}, 0), STDIN_PIPE)
  {
    StdinIsLost();
    var o := OpenAll(NO_STDIN, STDIN_PIPE, 0);
    assert OfPopen(o, 0) && Kept(o, 0);
    forall fd ensures !ComesFrom(o, QUIET, fd, 0) {
    }
  }
}
