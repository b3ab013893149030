/** The periodic timeouts as the source keeps them, updated in place. */
module PeriodicQueue {
  import opened MonotonicTimer
  import M = PeriodicTimeouts
  import P = PeriodicProofs
  import W = PeriodicAsWritten

  /** The handle that add_periodic_timeout returns, when it returns one at all. */
  datatype Returned = Handle(id: nat) | Undefined

  /** Every entry up to and including the i-th was processed. */
  ghost predicate AllProcessed(list: seq<M.Entry>, i: nat) {
    forall j :: 0 <= j <= i && j < |list| ==> list[j].processed
  }

  /** The reset loop, entry by entry. */
  lemma {:induction false} ResetPrefixAt(list: seq<M.Entry>, now: int)
    ensures var r := M.ResetPrefix(list, now);
            && |r| == |list|
            && forall i :: 0 <= i < |list| ==>
                 r[i] == if AllProcessed(list, i) then list[i].(deadline := now + list[i].period, processed := false)
                         else list[i]
    decreases |list|
  {
    if list != [] && list[0].processed {
      var rest := list[1..];
      ResetPrefixAt(rest, now);
      var r := M.ResetPrefix(list, now);
      forall i | 0 < i < |list| ensures r[i] == M.ResetPrefix(rest, now)[i - 1] {
      }
      forall i | 0 < i < |list| ensures AllProcessed(list, i) <==> AllProcessed(rest, i - 1) {
        if AllProcessed(list, i) {
          forall j | 0 <= j <= i - 1 && j < |rest| ensures rest[j].processed {
            assert list[j + 1].processed;
          }
        }
        if AllProcessed(rest, i - 1) {
          forall j | 0 <= j <= i && j < |list| ensures list[j].processed {
            assert j > 0 ==> rest[j - 1].processed;
          }
        }
      }
    }
  }

  /** One turn of the reset loop. */
  lemma ResetStep(list: seq<M.Entry>, i: nat, now: int)
    requires i < |list|
    ensures if list[i].processed
            then var next := list[i := M.Reset(list[i], now)];
                 next[..i + 1] + M.ResetPrefix(next[i + 1..], now) == list[..i] + M.ResetPrefix(list[i..], now)
            else M.ResetPrefix(list[i..], now) == list[i..]
  {
    if list[i].processed {
      var next := list[i := M.Reset(list[i], now)];
      var rest := M.ResetPrefix(list[i + 1..], now);
      assert list[i..][1..] == list[i + 1..] == next[i + 1..];
      assert M.ResetPrefix(list[i..], now) == [next[i]] + rest;
      hide M.ResetPrefix;
      assert next[..i + 1] == list[..i] + [next[i]];
    }
  }

  class PeriodicTimeouts {
    var timeouts: seq<M.Entry>
    var pendingAdditions: seq<M.Entry>
    var processing: bool
    var timer: Timer
    var nextId: nat
    ghost var ledger: seq<M.Record>
    ghost var log: seq<M.Execution>
    ghost var undefinedReturn: bool
    ghost var undefinedErase: bool

    ghost predicate Valid()
      reads this
    {
      nextId == |ledger|
    }

    ghost function View(): M.State
      reads this
    {
      M.State(timeouts, pendingAdditions, processing, timer, ledger, log, undefinedReturn, undefinedErase)
    }

    constructor ()
      ensures Valid() && View() == M.INITIAL && P.Inv(View())
    {
      timeouts, pendingAdditions, processing, timer, nextId := [], [], false, Idle, 0;
      ledger, log, undefinedReturn, undefinedErase := [], [], false, false;
      new;
      P.InitialInv(View());
    }

    /** add_periodic_timeout. The entry added is the intended one throughout; the
        handle is not: on the path that fills an empty queue the source returns
        the front of the held-back additions, of which there are none. */
    method AddPeriodicTimeout(period: int, callback: nat, now: int, clock: Clock) returns (handle: Returned)
      requires Valid()
      modifies this
      ensures Valid() && View() == M.AddPeriodic(old(View()), period, callback, now, clock)
      ensures old(processing || timeouts != []) ==> handle == Handle(|old(ledger)|)
      ensures old(!processing ==> pendingAdditions == []) ==>
                (handle == Undefined <==> old(!processing && timeouts == []))
    {
      var id := nextId;
      nextId := nextId + 1;
      var entry := M.Entry(id, period, now + period, callback, false, false);
      ledger := ledger + [M.Record(period, callback, false)];
      if processing {
        pendingAdditions := pendingAdditions + [entry];
        return Handle(pendingAdditions[|pendingAdditions| - 1].id);
      }
      if timeouts == [] {
        timeouts := timeouts + [entry];
        timer := SetOneshot(timeouts[0].deadline, clock);
        undefinedReturn := undefinedReturn || pendingAdditions == [];
        return if pendingAdditions == [] then Undefined else Handle(pendingAdditions[0].id);
      }
      var currentEarliest := timeouts[0].deadline;
      var later := M.LowerBound(timeouts, entry.deadline);
      timeouts := timeouts[..later] + [entry] + timeouts[later..];
      if timeouts[0].deadline < currentEarliest {
        timer := SetOneshot(timeouts[0].deadline, clock);
      }
      handle := Handle(id);
    }

    /** remove_timeout. Erasing a held-back addition through the other vector is
        undefined; `defined` tells, and the state is then left as it was found. */
    method RemovePeriodicTimeout(id: nat) returns (defined: bool)
      requires Valid()
      modifies this`timeouts, this`ledger
      ensures Valid()
      ensures defined <==> M.IndexOf(old(timeouts), id) < |old(timeouts)| ||
                           M.IndexOf(pendingAdditions, id) == |pendingAdditions|
      ensures View() == if defined then M.RemovePeriodic(old(View()), id) else old(View())
    {
      hide M.IndexOf;
      var i := 0;
      while i < |timeouts|
        invariant i <= |timeouts|
        invariant forall j :: 0 <= j < i ==> timeouts[j].id != id
      {
        if timeouts[i].id == id {
          assert i == M.IndexOf(timeouts, id);
          if processing {
            timeouts := timeouts[i := timeouts[i].(remove := true)];
          } else {
            timeouts := M.Erase(timeouts, i);
          }
          ledger := M.MarkRemoved(ledger, id);
          return true;
        }
        i := i + 1;
      }
      var j := 0;
      while j < |pendingAdditions|
        invariant j <= |pendingAdditions|
        invariant forall k :: 0 <= k < j ==> pendingAdditions[k].id != id
      {
        if pendingAdditions[j].id == id {
          assert j == M.IndexOf(pendingAdditions, id);
          return false;
        }
        j := j + 1;
      }
      defined := true;
    }

    /** remove_timeout as intended: the held-back addition is erased from its own vector. */
    method RemoveIntended(id: nat)
      requires Valid()
      modifies this`timeouts, this`pendingAdditions, this`ledger, this`undefinedErase
      ensures Valid() && View() == M.RemovePeriodic(old(View()), id)
    {
      var defined := RemovePeriodicTimeout(id);
      if !defined {
        pendingAdditions := M.Erase(pendingAdditions, M.IndexOf(pendingAdditions, id));
        ledger := M.MarkRemoved(ledger, id);
        undefinedErase := true;
      }
    }

    /** A callback, called back into this object. As written it may do what is not
        defined; `repaired` is the code with that removal as intended. */
    method RunCallback(ops: seq<M.Op>, repaired: bool) returns (defined: bool)
      requires Valid() && (repaired || !undefinedErase)
      modifies this
      ensures defined <==> repaired || !M.RunOps(old(View()), ops).undefinedErase
      ensures defined ==> Valid() && View() == M.RunOps(old(View()), ops)
    {
      var k := 0;
      while k < |ops|
        invariant k <= |ops| && Valid() && (repaired || !undefinedErase)
        invariant M.RunOps(View(), ops[k..]) == M.RunOps(old(View()), ops)
      {
        ghost var before := View();
        assert ops[k..][1..] == ops[k + 1..];
        W.RunOpsUndefined(M.Apply(before, ops[k]), ops[k + 1..]);
        match ops[k] {
          case Add(period, callback, now, clock) => var _ := AddPeriodicTimeout(period, callback, now, clock);
          case Remove(id) =>
            if repaired {
              RemoveIntended(id);
            } else {
              defined := RemovePeriodicTimeout(id);
              if !defined {
                return false;
              }
            }
        }
        assert View() == M.Apply(before, ops[k]);
        k := k + 1;
      }
      defined := true;
    }

    /** The loop of process_periodic_timeouts; `invoke` marks the entry before the call. */
    method InvokeExpired(now: int, behave: nat -> seq<M.Op>, repaired: bool) returns (defined: bool)
      requires Valid() && processing && (repaired || !undefinedErase)
      modifies this
      ensures defined <==> repaired || !M.Traverse(old(View()), 0, now, behave).0.undefinedErase
      ensures defined ==> Valid() && View() == M.Traverse(old(View()), 0, now, behave).0
    {
      var i := 0;
      while i < |timeouts|
        invariant Valid() && processing && i <= |timeouts| && (repaired || !undefinedErase)
        invariant M.Traverse(View(), i, now, behave) == M.Traverse(old(View()), 0, now, behave)
        decreases |timeouts| - i
      {
        var entry := timeouts[i];
        if entry.remove {
          i := i + 1;
          continue;
        }
        if entry.deadline <= now {
          timeouts := timeouts[i := entry.(processed := true)];
          log := log + [M.Execution(entry.id, entry.callback, now)];
          ghost var called := M.RunOps(View(), behave(entry.id));
          W.TraverseUndefined(called, i + 1, now, behave);
          defined := RunCallback(behave(entry.id), repaired);
          if !defined {
            return false;
          }
        } else {
          break;
        }
        i := i + 1;
      }
      defined := true;
    }

    /** The reset loop, with its early exit. */
    method ResetProcessed(now: int)
      requires Valid()
      modifies this`timeouts
      ensures Valid() && timeouts == M.ResetPrefix(old(timeouts), now)
      ensures |timeouts| == |old(timeouts)|
      ensures forall i :: 0 <= i < |timeouts| ==>
                timeouts[i] == if AllProcessed(old(timeouts), i)
                               then old(timeouts)[i].(deadline := now + old(timeouts)[i].period, processed := false)
                               else old(timeouts)[i]
    {
      var i := 0;
      while i < |timeouts|
        invariant i <= |timeouts| == |old(timeouts)|
        invariant timeouts[..i] + M.ResetPrefix(timeouts[i..], now) == M.ResetPrefix(old(timeouts), now)
      {
        ResetStep(timeouts, i, now);
        if timeouts[i].processed {
          timeouts := timeouts[i := M.Reset(timeouts[i], now)];
        } else {
          break;
        }
        i := i + 1;
      }
      assert timeouts == timeouts[..i] + timeouts[i..];
      ResetPrefixAt(old(timeouts), now);
    }

    method MergeNext(j: nat)
      requires Valid() && j < |pendingAdditions|
      modifies this`timeouts
      ensures Valid()
      ensures View().(pending := pendingAdditions[j + 1..])
              == M.MergeOne(old(View()).(pending := pendingAdditions[j..]))
    {
      var entry := pendingAdditions[j];
      var later := M.LowerBound(timeouts, entry.deadline);
      timeouts := timeouts[..later] + [entry] + timeouts[later..];
      assert pendingAdditions[j..][1..] == pendingAdditions[j + 1..];
    }

    method MergePending()
      requires Valid()
      modifies this`timeouts, this`pendingAdditions
      ensures Valid() && View() == M.Merge(old(View()))
    {
      hide M.MergeOne;
      var j := 0;
      while j < |pendingAdditions|
        invariant j <= |pendingAdditions| && Valid() && pendingAdditions == old(pendingAdditions)
        invariant M.Merge(View().(pending := pendingAdditions[j..])) == M.Merge(old(View()))
      {
        ghost var before := View().(pending := pendingAdditions[j..]);
        MergeNext(j);
        assert View().(pending := pendingAdditions[j + 1..]) == M.MergeOne(before);
        j := j + 1;
      }
      pendingAdditions := [];
    }

    /** process_periodic_timeouts: as written it is defined exactly when the pass erases
        nothing through the wrong vector, and then it is the pass of the model. */
    method ProcessPeriodicTimeouts(now: int, later: int, behave: nat -> seq<M.Op>, clock: Clock,
                                   sort: seq<M.Entry> -> seq<M.Entry>, repaired: bool) returns (defined: bool)
      requires Valid() && P.Inv(View()) && M.IsSort(sort) && (repaired || !undefinedErase)
      modifies this
      ensures defined <==> repaired || !M.Pass(old(View()), now, later, behave, clock, sort).undefinedErase
      ensures defined ==> Valid() && P.Inv(View()) && View() == M.Pass(old(View()), now, later, behave, clock, sort)
    {
      hide P.Inv, M.IsSort, M.Traverse, M.Merge, M.ResetPrefix, M.Unmarked;
      P.PassKeeps(View(), now, later, behave, clock, sort);
      W.PassUndefined(View(), now, later, behave, clock, sort);
      timer := Idle;
      processing := true;
      defined := InvokeExpired(now, behave, repaired);
      if !defined {
        return false;
      }
      processing := false;
      timeouts := M.Unmarked(timeouts);
      ResetProcessed(later);
      timeouts := sort(timeouts);
      MergePending();
      if timeouts != [] {
        timer := SetOneshot(timeouts[0].deadline, clock);
      }
    }
  }
}
