/** The two bounded polling loops of the command-line front end.

    The address wait follows start and reset: once a second, for at most
    `AddressTicks` ticks, it asks `target()`; a busy signal (`StopIteration`)
    is swallowed, the first address ends the loop, and only a loop that ran
    all its ticks reports a problem (`for ... else`).

    The teardown wait follows stop: for at most `TeardownTicks` ticks it asks
    `target()` without catching anything, and the first tick without an
    address ends the loop.

    The upstream is an oracle: `poll(k)` is what `get_active_machine()`
    answers at tick `k` (counted from 0). Every tick queries it anew. Sleeping
    and wall-clock time are not modelled; the elapsed time is the number of
    queries made. */
module Polling {
  import opened Types
  import opened Client

  const AddressTicks: nat := 300
  const TeardownTicks: nat := 60

  /** How a polling loop ended: at its target condition, by running all its
      ticks, or by an exception it does not catch (which aborts the command). */
  datatype Ending<+T> = Finished(value: T) | Problem | Fault(error: Exc)

  /** The ending together with the number of `target()` queries made. */
  datatype Wait<+T> = Wait(queries: nat, ending: Ending<T>)

  // ---------------------------------------------------------------------
  // Address wait (start and reset)
  // ---------------------------------------------------------------------

  /** A tick on which the address wait goes on: busy, or no address yet. */
  predicate KeepsWaiting(obs: Observation)
  {
    Target(obs) == Raised(StopIteration) || Target(obs) == Returned(None)
  }

  /** The address wait from tick `k` on. */
  function AddressWaitFrom(poll: nat -> Observation, k: nat, total: nat): (w: Wait<string>)
    requires k <= total
    ensures k <= w.queries <= total
    ensures w.ending.Problem? ==> w.queries == total
    ensures !w.ending.Problem? ==> k < w.queries
    decreases total - k
  {
    if k == total then Wait(total, Problem)
    else
      var address := Target(poll(k));
      if address.Raised? then
        if address.error.StopIteration? then AddressWaitFrom(poll, k + 1, total)
        else Wait(k + 1, Fault(address.error))
      else if address.value.Some? then Wait(k + 1, Finished(address.value.value))
      else AddressWaitFrom(poll, k + 1, total)
  }

  function AddressWait(poll: nat -> Observation, total: nat): Wait<string>
  {
    AddressWaitFrom(poll, 0, total)
  }

  /** The loop of htb-admin.py's start and reset commands. */
  method AwaitAddress(poll: nat -> Observation, total: nat) returns (w: Wait<string>)
    ensures w == AddressWait(poll, total)
  {
    var second := 0;
    while second < total
      invariant second <= total
      invariant AddressWaitFrom(poll, second, total) == AddressWait(poll, total)
    {
      var address := Target(poll(second));
      if address.Raised? {
        if !address.error.StopIteration? {
          return Wait(second + 1, Fault(address.error));
        }
      } else if address.value.Some? {
        return Wait(second + 1, Finished(address.value.value));
      }
      second := second + 1;
    }
    return Wait(total, Problem);
  }

  /** The wait finishes after `n` queries with address `a` exactly when tick
      `n - 1` is the first tick from `k` on that shows an address and no
      earlier tick raised anything but the busy signal. */
  lemma {:induction false} AddressWaitFromFinished(poll: nat -> Observation, k: nat, total: nat, n: nat, a: string)
    requires k <= total
    ensures AddressWaitFrom(poll, k, total) == Wait(n, Finished(a)) <==>
      && k < n <= total
      && Target(poll(n - 1)) == Returned(Some(a))
      && forall j :: k <= j < n - 1 ==> KeepsWaiting(poll(j))
    decreases total - k
  {
    if k < total {
      AddressWaitFromFinished(poll, k + 1, total, n, a);
    }
  }

  lemma AddressWaitFinished(poll: nat -> Observation, total: nat, n: nat, a: string)
    ensures AddressWait(poll, total) == Wait(n, Finished(a)) <==>
      && 0 < n <= total
      && Target(poll(n - 1)) == Returned(Some(a))
      && forall j :: 0 <= j < n - 1 ==> KeepsWaiting(poll(j))
  {
    AddressWaitFromFinished(poll, 0, total, n, a);
  }

  /** The wait reports a problem exactly when every tick from `k` up to the
      bound was busy or showed no address. */
  lemma {:induction false} AddressWaitFromProblem(poll: nat -> Observation, k: nat, total: nat)
    requires k <= total
    ensures AddressWaitFrom(poll, k, total).ending == Problem <==>
      forall j :: k <= j < total ==> KeepsWaiting(poll(j))
    decreases total - k
  {
    if k < total {
      AddressWaitFromProblem(poll, k + 1, total);
    }
  }

  lemma AddressWaitProblem(poll: nat -> Observation, total: nat)
    ensures AddressWait(poll, total).ending == Problem <==>
      forall j :: 0 <= j < total ==> KeepsWaiting(poll(j))
    ensures AddressWait(poll, total).ending == Problem ==> AddressWait(poll, total).queries == total
  {
    AddressWaitFromProblem(poll, 0, total);
  }

  /** The wait is aborted after `n` queries by `e` exactly when tick `n - 1`
      raised `e`, `e` is not the busy signal, and every earlier tick kept
      waiting. */
  lemma {:induction false} AddressWaitFromFault(poll: nat -> Observation, k: nat, total: nat, n: nat, e: Exc)
    requires k <= total
    ensures AddressWaitFrom(poll, k, total) == Wait(n, Fault(e)) <==>
      && k < n <= total
      && Target(poll(n - 1)) == Raised(e)
      && e != StopIteration
      && forall j :: k <= j < n - 1 ==> KeepsWaiting(poll(j))
    decreases total - k
  {
    if k < total {
      AddressWaitFromFault(poll, k + 1, total, n, e);
    }
  }

  lemma AddressWaitFault(poll: nat -> Observation, total: nat, n: nat, e: Exc)
    ensures AddressWait(poll, total) == Wait(n, Fault(e)) <==>
      && 0 < n <= total
      && Target(poll(n - 1)) == Raised(e)
      && e != StopIteration
      && forall j :: 0 <= j < n - 1 ==> KeepsWaiting(poll(j))
  {
    AddressWaitFromFault(poll, 0, total, n, e);
  }

  /** The wait depends only on the ticks it consumed. */
  lemma {:induction false} AddressWaitFromPrefix(p: nat -> Observation, q: nat -> Observation, k: nat, total: nat)
    requires k <= total
    requires forall j :: k <= j < AddressWaitFrom(p, k, total).queries ==> p(j) == q(j)
    ensures AddressWaitFrom(q, k, total) == AddressWaitFrom(p, k, total)
    decreases total - k
  {
    if k < total {
      assert p(k) == q(k);
      if KeepsWaiting(p(k)) {
        AddressWaitFromPrefix(p, q, k + 1, total);
      }
    }
  }

  /** Busy ticks neither end the wait nor count as failure: after `b` busy
      ticks, an address at tick `b` finishes the wait with that address. */
  lemma BusyThenAddress(poll: nat -> Observation, b: nat, m: ActiveMachine, a: string)
    requires b < AddressTicks
    requires forall j :: 0 <= j < b ==> poll(j) == Raised(StopIteration)
    requires poll(b) == Returned(Some(m)) && m.ip == Some(a)
    ensures AddressWait(poll, AddressTicks) == Wait(b + 1, Finished(a))
  {
    AddressWaitFinished(poll, AddressTicks, b + 1, a);
  }

  // ---------------------------------------------------------------------
  // Teardown wait (stop)
  // ---------------------------------------------------------------------

  /** A tick on which the teardown wait goes on: an address is still shown. */
  predicate StillUp(obs: Observation)
  {
    Target(obs).Returned? && Target(obs).value.Some?
  }

  /** The teardown wait from tick `k` on. */
  function TeardownWaitFrom(poll: nat -> Observation, k: nat, total: nat): (w: Wait<()>)
    requires k <= total
    ensures k <= w.queries <= total
    ensures w.ending.Problem? ==> w.queries == total
    ensures !w.ending.Problem? ==> k < w.queries
    decreases total - k
  {
    if k == total then Wait(total, Problem)
    else
      var address := Target(poll(k));
      if address.Raised? then Wait(k + 1, Fault(address.error))
      else if address.value.None? then Wait(k + 1, Finished(()))
      else TeardownWaitFrom(poll, k + 1, total)
  }

  function TeardownWait(poll: nat -> Observation, total: nat): Wait<()>
  {
    TeardownWaitFrom(poll, 0, total)
  }

  /** The loop of htb-admin.py's stop command. */
  method AwaitTeardown(poll: nat -> Observation, total: nat) returns (w: Wait<()>)
    ensures w == TeardownWait(poll, total)
  {
    var second := 0;
    while second < total
      invariant second <= total
      invariant TeardownWaitFrom(poll, second, total) == TeardownWait(poll, total)
    {
      var address := Target(poll(second));
      if address.Raised? {
        return Wait(second + 1, Fault(address.error));
      } else if address.value.None? {
        return Wait(second + 1, Finished(()));
      }
      second := second + 1;
    }
    return Wait(total, Problem);
  }

  /** The teardown is confirmed after `n` queries exactly when tick `n - 1`
      is the first tick from `k` on without an address, and every earlier
      tick still showed one. */
  lemma {:induction false} TeardownWaitFromFinished(poll: nat -> Observation, k: nat, total: nat, n: nat)
    requires k <= total
    ensures TeardownWaitFrom(poll, k, total) == Wait(n, Finished(())) <==>
      && k < n <= total
      && Target(poll(n - 1)) == Returned(None)
      && forall j :: k <= j < n - 1 ==> StillUp(poll(j))
    decreases total - k
  {
    if k < total {
      TeardownWaitFromFinished(poll, k + 1, total, n);
    }
  }

  lemma TeardownWaitFinished(poll: nat -> Observation, total: nat, n: nat)
    ensures TeardownWait(poll, total) == Wait(n, Finished(())) <==>
      && 0 < n <= total
      && Target(poll(n - 1)) == Returned(None)
      && forall j :: 0 <= j < n - 1 ==> StillUp(poll(j))
  {
    TeardownWaitFromFinished(poll, 0, total, n);
  }

  /** The teardown reports a problem exactly when every tick still showed an address. */
  lemma {:induction false} TeardownWaitFromProblem(poll: nat -> Observation, k: nat, total: nat)
    requires k <= total
    ensures TeardownWaitFrom(poll, k, total).ending == Problem <==>
      forall j :: k <= j < total ==> StillUp(poll(j))
    decreases total - k
  {
    if k < total {
      TeardownWaitFromProblem(poll, k + 1, total);
    }
  }

  lemma TeardownWaitProblem(poll: nat -> Observation, total: nat)
    ensures TeardownWait(poll, total).ending == Problem <==>
      forall j :: 0 <= j < total ==> StillUp(poll(j))
    ensures TeardownWait(poll, total).ending == Problem ==> TeardownWait(poll, total).queries == total
  {
    TeardownWaitFromProblem(poll, 0, total);
  }

  /** Any exception, the busy signal included, aborts the teardown wait at
      the tick that raised it. */
  lemma {:induction false} TeardownWaitFromFault(poll: nat -> Observation, k: nat, total: nat, n: nat, e: Exc)
    requires k <= total
    ensures TeardownWaitFrom(poll, k, total) == Wait(n, Fault(e)) <==>
      && k < n <= total
      && Target(poll(n - 1)) == Raised(e)
      && forall j :: k <= j < n - 1 ==> StillUp(poll(j))
    decreases total - k
  {
    if k < total {
      TeardownWaitFromFault(poll, k + 1, total, n, e);
    }
  }

  lemma TeardownWaitFault(poll: nat -> Observation, total: nat, n: nat, e: Exc)
    ensures TeardownWait(poll, total) == Wait(n, Fault(e)) <==>
      && 0 < n <= total
      && Target(poll(n - 1)) == Raised(e)
      && forall j :: 0 <= j < n - 1 ==> StillUp(poll(j))
  {
    TeardownWaitFromFault(poll, 0, total, n, e);
  }
}
