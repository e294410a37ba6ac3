/** Whole-command runs: a start by name whose machine comes up, a start that
    hits the active-machine conflict, a stop whose teardown is confirmed,
    and a start whose polling sees busy ticks first. */
module Scenarios {
  import opened Types
  import opened Text
  import opened Client
  import opened Polling
  import opened Commands

  const Lame: Machine := Machine(1, "Lame", "Easy")

  /** The query "lame" matches the catalog entry named "Lame". */
  lemma LameMatches()
    ensures Filter([Lame], "lame") == [Lame]
  {
  }

  /** Starting "lame": the spawn succeeds, the address shows on the fifth
      query, and the run reports that address after five queries. */
  lemma StartLameReachable(world: World)
    requires world.catalog == [Lame] && world.spawn == None
    requires forall j :: 0 <= j < 4 ==> KeepsWaiting(world.poll(j))
    requires Target(world.poll(4)) == Returned(Some("10.10.10.3"))
    ensures Dispatch(Args(StartCmd("lame"), None), world) ==
      Run(Started(Lame, Wait(5, Finished("10.10.10.3"))), [Spawn(Lame)])
  {
    LameMatches();
    AddressWaitFinished(world.poll, AddressTicks, 5, "10.10.10.3");
  }

  /** Starting "lame" while another machine is active, with the phrase
      anywhere in the error message: the spawn is attempted once and no
      polling follows. */
  lemma StartLameConflict(world: World, head: string, tail: string)
    requires world.catalog == [Lame]
    requires world.spawn == Some(Error(head + AlreadyActivePhrase + tail))
    ensures Dispatch(Args(StartCmd("lame"), None), world) == Run(AlreadyActive, [Spawn(Lame)])
  {
    LameMatches();
    var msg := head + AlreadyActivePhrase + tail;
    assert msg[|head|..|head| + |AlreadyActivePhrase|] == AlreadyActivePhrase;
    OccursContains(msg, AlreadyActivePhrase, |head|);
  }

  /** Stopping the active "Lame": the stop call is made once and the third
      query no longer shows an address. */
  lemma StopLameConfirmed(world: World, ip: string)
    requires world.active == Returned(Some(ActiveMachine(Lame, Some(ip))))
    requires world.action == None
    requires StillUp(world.poll(0)) && StillUp(world.poll(1))
    requires Target(world.poll(2)) == Returned(None)
    ensures Dispatch(Args(KillCmd, None), world) ==
      Run(Stopping("Lame", Wait(3, Finished(()))), [StopAction("Lame")])
  {
  }

  /** Stopping with no active machine reports so and makes no stop call. */
  lemma StopWithoutMachine(world: World, id: Option<int>)
    requires world.active == Returned(None)
    ensures Dispatch(Args(KillCmd, id), world) == Run(NoActive, [])
  {
  }

  /** Ten busy ticks, then an address: the start finishes after eleven
      queries and the busy ticks are not failures. */
  lemma StartThroughBusyTicks(world: World, m: ActiveMachine, a: string)
    requires world.catalog == [Lame] && world.spawn == None
    requires forall j :: 0 <= j < 10 ==> world.poll(j) == Raised(StopIteration)
    requires world.poll(10) == Returned(Some(m)) && m.ip == Some(a)
    ensures Dispatch(Args(StartCmd("lame"), None), world) ==
      Run(Started(Lame, Wait(11, Finished(a))), [Spawn(Lame)])
  {
    LameMatches();
    BusyThenAddress(world.poll, 10, m, a);
  }

  /** A name query matching one entry starts it or reports the conflict or
      a fault, never that nothing matched. */
  lemma StartSingleMatch(name: string, world: World)
    requires name != "" && |Filter(world.catalog, name)| == 1
    ensures var r := Dispatch(Args(StartCmd(name), None), world);
      r.actions == [Spawn(Filter(world.catalog, name)[0])] &&
      (r.report.Started? || r.report == AlreadyActive || r.report.Crashed?)
  {
  }
}
