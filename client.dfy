/** The `Client` wrapper around the API client: catalog search, the
    spawn-result classifier and the operations on the single active-machine
    slot. The wrapper keeps no state of its own, so every operation is a
    function of the upstream answers it receives. */
module Client {
  import opened Types
  import opened Text

  // ---------------------------------------------------------------------
  // Catalog search
  // ---------------------------------------------------------------------

  /** A catalog entry matches a query when the lowered query is a substring
      of the lowered name. */
  predicate Matches(query: string, m: Machine)
  {
    Contains(Lower(m.name), Lower(query))
  }

  /** The matching entries of a catalog, in catalog order. */
  function Filter(catalog: seq<Machine>, query: string): seq<Machine>
  {
    if |catalog| == 0 then []
    else (if Matches(query, catalog[0]) then [catalog[0]] else []) + Filter(catalog[1..], query)
  }

  /** `xs` is `ys` with some entries deleted, the others kept in order. */
  predicate IsSubsequence<T(==)>(xs: seq<T>, ys: seq<T>)
    decreases |ys|
  {
    |xs| == 0 ||
    (|ys| > 0 && ((xs[0] == ys[0] && IsSubsequence(xs[1..], ys[1..])) || IsSubsequence(xs, ys[1..])))
  }

  lemma {:induction false} FilterAppend(a: seq<Machine>, b: seq<Machine>, query: string)
    ensures Filter(a + b, query) == Filter(a, query) + Filter(b, query)
  {
    if |a| == 0 {
      assert a + b == b;
    } else {
      assert (a + b)[1..] == a[1..] + b;
      FilterAppend(a[1..], b, query);
    }
  }

  /** `Client.search`: the loop over `get_machines()` appending every match. */
  method Search(catalog: seq<Machine>, query: string) returns (machines: seq<Machine>)
    ensures machines == Filter(catalog, query)
  {
    machines := [];
    var k := 0;
    while k < |catalog|
      invariant k <= |catalog|
      invariant machines == Filter(catalog[..k], query)
    {
      var machine := catalog[k];
      FilterAppend(catalog[..k], [machine], query);
      assert catalog[..k + 1] == catalog[..k] + [machine];
      if Matches(query, machine) {
        machines := machines + [machine];
      }
      k := k + 1;
    }
    assert catalog[..k] == catalog;
  }

  /** The search keeps exactly the matching entries. */
  lemma {:induction false} FilterMembers(catalog: seq<Machine>, query: string, m: Machine)
    ensures m in Filter(catalog, query) <==> m in catalog && Matches(query, m)
  {
    if |catalog| > 0 {
      FilterMembers(catalog[1..], query, m);
      assert catalog == [catalog[0]] + catalog[1..];
    }
  }

  /** The search result is a subsequence of the catalog: it keeps catalog order. */
  lemma {:induction false} FilterOrdered(catalog: seq<Machine>, query: string)
    ensures IsSubsequence(Filter(catalog, query), catalog)
  {
    if |catalog| > 0 {
      FilterOrdered(catalog[1..], query);
      var rest := Filter(catalog[1..], query);
      if Matches(query, catalog[0]) {
        assert Filter(catalog, query)[1..] == rest;
      } else {
        assert Filter(catalog, query) == rest;
      }
    }
  }

  /** The search never returns more entries than the catalog has, and returns
      the whole catalog exactly when every entry matches. */
  lemma {:induction false} FilterLength(catalog: seq<Machine>, query: string)
    ensures |Filter(catalog, query)| <= |catalog|
    ensures |Filter(catalog, query)| == |catalog| <==> forall i :: 0 <= i < |catalog| ==> Matches(query, catalog[i])
  {
    if |catalog| > 0 {
      FilterLength(catalog[1..], query);
      assert forall i :: 1 <= i < |catalog| ==> catalog[1..][i - 1] == catalog[i];
    }
  }

  /** Matching ignores letter case in the query. */
  lemma MatchesIgnoresCase(q1: string, q2: string, catalog: seq<Machine>)
    requires Lower(q1) == Lower(q2)
    ensures Filter(catalog, q1) == Filter(catalog, q2)
  {
  }

  // ---------------------------------------------------------------------
  // Spawn-result classifier
  // ---------------------------------------------------------------------

  /** The message by which the API reports that another machine is active. */
  const AlreadyActivePhrase: string := "You must stop your active machine"

  /** `Client.start`: `spawn` is the exception `machine.spawn()` raised, if any.
      The result is the returned code, or the exception that propagates. */
  function StartCode(spawn: Option<Exc>): (r: Outcome<int>)
    ensures r == Returned(1) <==> spawn.Some? && !spawn.value.KeyError? && Contains(Message(spawn.value), AlreadyActivePhrase)
    ensures r == Returned(0) <==> spawn == None || (spawn.Some? && spawn.value.KeyError?)
    ensures r.Raised? <==> spawn.Some? && !spawn.value.KeyError? && !Contains(Message(spawn.value), AlreadyActivePhrase)
    ensures r.Raised? ==> r == Raised(spawn.value)
  {
    match spawn
    case None => Returned(0)
    case Some(e) =>
      if e.KeyError? then Returned(0)
      else if Contains(Message(e), AlreadyActivePhrase) then Returned(1)
      else Raised(e)
  }

  /** A busy signal raised by `spawn` is not a conflict: it propagates. */
  lemma StartBusyPropagates()
    ensures StartCode(Some(StopIteration)) == Raised(StopIteration)
  {
  }

  // ---------------------------------------------------------------------
  // The active-machine slot
  // ---------------------------------------------------------------------

  /** The result of a slot operation, and whether it invoked the upstream
      action (stop, reset or submit). */
  datatype SlotCall<+T> = SlotCall(result: Outcome<Option<T>>, acted: bool)

  /** There is an active machine in this observation. */
  predicate HasActive(active: Observation)
  {
    active.Returned? && active.value.Some?
  }

  function ActiveName(active: Observation): string
    requires HasActive(active)
  {
    active.value.value.machine.name
  }

  /** `Client.stop`: `active` is the answer of `get_active_machine()`,
      `reply` the exception `machine.stop()` raised, if any. */
  function Stop(active: Observation, reply: Option<Exc>): (r: SlotCall<string>)
    ensures r.acted <==> HasActive(active)
    ensures active == Returned(None) ==> r.result == Returned(None)
    ensures active.Raised? ==> r.result == Raised(active.error)
    ensures HasActive(active) && reply == None ==> r.result == Returned(Some(ActiveName(active)))
    ensures HasActive(active) && reply.Some? ==> r.result == Raised(reply.value)
  {
    match active
    case Raised(e) => SlotCall(Raised(e), false)
    case Returned(None) => SlotCall(Returned(None), false)
    case Returned(Some(machine)) =>
      match reply
      case None => SlotCall(Returned(Some(machine.machine.name)), true)
      case Some(e) => SlotCall(Raised(e), true)
  }

  /** `Client.reset`: like `Stop`, except that a `KeyError` from
      `machine.reset()` is swallowed. */
  function Reset(active: Observation, reply: Option<Exc>): (r: SlotCall<string>)
    ensures r.acted <==> HasActive(active)
    ensures active == Returned(None) ==> r.result == Returned(None)
    ensures active.Raised? ==> r.result == Raised(active.error)
    ensures HasActive(active) && (reply == None || reply.value.KeyError?) ==> r.result == Returned(Some(ActiveName(active)))
    ensures HasActive(active) && reply.Some? && !reply.value.KeyError? ==> r.result == Raised(reply.value)
  {
    match active
    case Raised(e) => SlotCall(Raised(e), false)
    case Returned(None) => SlotCall(Returned(None), false)
    case Returned(Some(machine)) =>
      if reply == None || reply.value.KeyError? then SlotCall(Returned(Some(machine.machine.name)), true)
      else SlotCall(Raised(reply.value), true)
  }

  /** Reset and stop behave alike on every reply other than a `KeyError`. */
  lemma ResetLikeStop(active: Observation, reply: Option<Exc>)
    requires reply == None || !reply.value.KeyError?
    ensures Reset(active, reply) == Stop(active, reply)
  {
  }

  /** `Client.submit`: `reply` is the outcome of `submit(flag, difficulty)`;
      the result pairs the machine's name with the upstream's message. */
  function Submit(active: Observation, reply: Outcome<string>): (r: SlotCall<(string, string)>)
    ensures r.acted <==> HasActive(active)
    ensures active == Returned(None) ==> r.result == Returned(None)
    ensures active.Raised? ==> r.result == Raised(active.error)
    ensures HasActive(active) && reply.Returned? ==> r.result == Returned(Some((ActiveName(active), reply.value)))
    ensures HasActive(active) && reply.Raised? ==> r.result == Raised(reply.error)
  {
    match active
    case Raised(e) => SlotCall(Raised(e), false)
    case Returned(None) => SlotCall(Returned(None), false)
    case Returned(Some(machine)) =>
      match reply
      case Returned(message) => SlotCall(Returned(Some((machine.machine.name, message))), true)
      case Raised(e) => SlotCall(Raised(e), true)
  }

  /** `Client.target`: the active machine's address; None when no machine is
      active or it has no address yet. It calls no upstream action. */
  function Target(active: Observation): (r: Outcome<Option<string>>)
    ensures r.Raised? <==> active.Raised?
    ensures r.Raised? ==> r.error == active.error
    ensures r.Returned? && r.value.Some? <==> HasActive(active) && active.value.value.ip.Some?
    ensures r.Returned? && r.value.Some? ==> r.value == active.value.value.ip
  {
    match active
    case Raised(e) => Raised(e)
    case Returned(None) => Returned(None)
    case Returned(Some(machine)) => Returned(machine.ip)
  }
}
