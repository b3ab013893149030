/** The one-shot timeouts as the source keeps them: vectors and flags updated in
    place. Each method is proved against the model of OneShotTimeouts, whose
    invariants are the subject of OneShotProofs. */
module TimeoutQueue {
  import opened MonotonicTimer
  import M = OneShotTimeouts
  import P = OneShotProofs

  class Timeouts {
    var timeouts: seq<M.Entry>
    var pendingAdditions: seq<M.Entry>
    var processing: bool
    var timer: Timer
    var nextId: nat
    ghost var ledger: seq<M.Record>
    ghost var log: seq<M.Execution>

    ghost predicate Valid()
      reads this
    {
      nextId == |ledger|
    }

    ghost function View(): M.State
      reads this
    {
      M.State(timeouts, pendingAdditions, processing, timer, ledger, log)
    }

    constructor ()
      ensures Valid() && View() == M.INITIAL && P.Inv(View())
    {
      timeouts, pendingAdditions, processing, timer, nextId := [], [], false, Idle, 0;
      ledger, log := [], [];
      new;
      P.InitialInv(View());
    }

    method AddTimeout(deadline: int, callback: nat, clock: Clock) returns (id: nat)
      requires Valid()
      modifies this
      ensures Valid() && id == |old(ledger)|
      ensures View() == M.AddTimeout(old(View()), deadline, callback, clock)
    {
      id := nextId;
      nextId := nextId + 1;
      var entry := M.Entry(id, deadline, callback, false);
      if processing {
        pendingAdditions := pendingAdditions + [entry];
        ledger := ledger + [M.Record(deadline, callback, M.Pending)];
        return;
      }
      ledger := ledger + [M.Record(deadline, callback, M.Queued)];
      if timeouts == [] {
        timeouts := timeouts + [entry];
        timer := SetOneshot(deadline, clock);
        return;
      }
      var currentEarliest := timeouts[0].deadline;
      var later := M.LowerBound(timeouts, deadline);
      timeouts := timeouts[..later] + [entry] + timeouts[later..];
      if currentEarliest > deadline {
        timer := SetOneshot(deadline, clock);
      }
    }

    method RemoveTimeout(id: nat)
      requires Valid()
      modifies this`timeouts, this`pendingAdditions, this`ledger
      ensures Valid() && View() == M.RemoveTimeout(old(View()), id)
    {
      var i := 0;
      while i < |timeouts|
        invariant i <= |timeouts|
        invariant forall j :: 0 <= j < i ==> timeouts[j].id != id
      {
        if timeouts[i].id == id {
          assert i == M.IndexOf(timeouts, id);
          if processing {
            timeouts := timeouts[i := timeouts[i].(remove := true)];
            ledger := if id < |ledger| && ledger[id].fate == M.Queued
                      then M.SetFate(ledger, id, M.Removed) else ledger;
          } else {
            timeouts := M.Erase(timeouts, i);
            ledger := M.SetFate(ledger, id, M.Removed);
          }
          return;
        }
        i := i + 1;
      }
      var j := 0;
      while j < |pendingAdditions|
        invariant j <= |pendingAdditions|
        invariant forall k :: 0 <= k < j ==> pendingAdditions[k].id != id
      {
        if pendingAdditions[j].id == id {
          assert j == M.IndexOf(pendingAdditions, id);
          pendingAdditions := M.Erase(pendingAdditions, j);
          ledger := M.SetFate(ledger, id, M.Removed);
          return;
        }
        j := j + 1;
      }
    }

    /** A callback, called back into this object. */
    method RunCallback(ops: seq<M.Op>)
      requires Valid()
      modifies this
      ensures Valid() && View() == M.RunOps(old(View()), ops)
    {
      var k := 0;
      while k < |ops|
        invariant k <= |ops| && Valid()
        invariant M.RunOps(View(), ops[k..]) == M.RunOps(old(View()), ops)
      {
        ghost var before := View();
        match ops[k] {
          case Add(deadline, callback, clock) => var _ := AddTimeout(deadline, callback, clock);
          case Remove(id) => RemoveTimeout(id);
        }
        assert View() == M.Apply(before, ops[k]);
        assert ops[k..][1..] == ops[k + 1..];
        k := k + 1;
      }
    }

    /** The loop of process_timeouts. `i` is the source's iterator, which has
        already moved on when the loop stops at an entry that is not due. */
    method RunExpired(now: int, behave: nat -> seq<M.Op>) returns (i: nat, stopped: bool)
      requires Valid() && processing
      modifies this
      ensures Valid() && i <= |timeouts| && (stopped ==> i > 0)
      ensures (View(), if stopped then i - 1 else i) == M.Traverse(old(View()), 0, now, behave)
      ensures !stopped ==> i == |timeouts|
    {
      i, stopped := 0, false;
      while i < |timeouts|
        invariant Valid() && processing && i <= |timeouts| && !stopped
        invariant M.Traverse(View(), i, now, behave) == M.Traverse(old(View()), 0, now, behave)
        decreases |timeouts| - i
      {
        var entry := timeouts[i];
        i := i + 1;
        if entry.remove {
          continue;
        }
        if entry.deadline <= now {
          log := log + [M.Execution(entry.id, entry.callback, now)];
          ledger := M.SetFate(ledger, entry.id, M.Ran);
          RunCallback(behave(entry.id));
        } else {
          stopped := true;
          break;
        }
      }
    }

    method MergeNext(j: nat)
      requires Valid() && j < |pendingAdditions|
      modifies this`timeouts, this`ledger
      ensures Valid()
      ensures View().(pending := pendingAdditions[j + 1..])
              == M.MergeOne(old(View()).(pending := pendingAdditions[j..]))
    {
      var entry := pendingAdditions[j];
      var later := M.LowerBound(timeouts, entry.deadline);
      timeouts := timeouts[..later] + [entry] + timeouts[later..];
      ledger := M.SetFate(ledger, entry.id, M.Queued);
      assert pendingAdditions[j..][1..] == pendingAdditions[j + 1..];
    }

    /** After the loop: drop the marked entries, move in the held-back additions
        and re-arm the timer. */
    method Settle(clock: Clock)
      requires Valid() && !processing
      modifies this`timeouts, this`pendingAdditions, this`timer, this`ledger
      ensures Valid() && View() == M.Rearm(M.Merge(M.Prune(old(View()))), clock)
    {
      timeouts := M.Unmarked(timeouts);
      ghost var pruned := View();
      assert pruned == M.Prune(old(View()));
      var j := 0;
      while j < |pendingAdditions|
        invariant j <= |pendingAdditions| && Valid() && !processing
        invariant pendingAdditions == pruned.pending && timer == pruned.timer && log == pruned.log
        invariant M.Merge(View().(pending := pendingAdditions[j..])) == M.Merge(pruned)
      {
        ghost var before := View().(pending := pendingAdditions[j..]);
        MergeNext(j);
        assert View().(pending := pendingAdditions[j + 1..]) == M.MergeOne(before);
        j := j + 1;
      }
      assert View().(pending := pendingAdditions[j..]) == View().(pending := []);
      pendingAdditions := [];
      if timeouts != [] {
        timer := SetOneshot(timeouts[0].deadline, clock);
      }
    }

    /** Erases everything before the iterator, the entry that stopped the loop included. */
    method EraseUpTo(i: nat, stopped: bool)
      requires Valid() && i <= |timeouts| && (if stopped then i > 0 else i == |timeouts|)
      modifies this`timeouts, this`processing, this`ledger
      ensures Valid() && View() == M.ErasePassed(old(View()), if stopped then i - 1 else i, M.AsWritten)
    {
      ledger := if stopped then M.SetFate(ledger, timeouts[i - 1].id, M.Dropped) else ledger;
      timeouts := timeouts[i..];
      processing := false;
    }

    /** process_timeouts, as written. */
    method ProcessTimeouts(now: int, behave: nat -> seq<M.Op>, clock: Clock)
      requires Valid() && P.Inv(View())
      modifies this
      ensures Valid() && View() == M.Pass(old(View()), now, behave, clock, M.AsWritten)
      ensures P.Inv(View())
    {
      hide P.Inv;
      P.PassKeeps(View(), now, behave, clock, M.AsWritten);
      timer := Idle;
      processing := true;
      var i, stopped := RunExpired(now, behave);
      EraseUpTo(i, stopped);
      Settle(clock);
    }

    /** process_timeouts, as intended: the entry that stops the loop stays. */
    method ProcessTimeoutsIntended(now: int, behave: nat -> seq<M.Op>, clock: Clock)
      requires Valid() && P.Inv(View())
      modifies this
      ensures Valid() && View() == M.Pass(old(View()), now, behave, clock, M.Intended)
      ensures P.Inv(View())
    {
      hide P.Inv;
      P.PassKeeps(View(), now, behave, clock, M.Intended);
      timer := Idle;
      processing := true;
      var i, stopped := RunExpired(now, behave);
      timeouts := timeouts[if stopped then i - 1 else i..];
      processing := false;
      Settle(clock);
    }
  }
}
