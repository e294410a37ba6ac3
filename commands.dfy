/** The command dispatch of htb-admin.py's `main`: which upstream actions
    each command takes and which outcome it reports.

    The parsed arguments are a plain record, and every upstream answer the
    command may consult is a field of `World`. A command reports one outcome
    (the message it prints, or the exception that ends the process) and the
    list of state-changing upstream calls it made (spawn, stop, reset,
    submit). */
module Commands {
  import opened Types
  import opened Text
  import opened Client
  import opened Polling

  /** The mutually exclusive command-line commands. */
  datatype Command =
    | QueryCmd(query: string)
    | StartCmd(name: string)
    | DescribeCmd
    | KillCmd
    | ResetCmd
    | FlagCmd(flag: string)
    | LocalCmd
    | TargetCmd

  datatype Args = Args(command: Command, id: Option<int>)

  /** `if args.id:` in Python: an id of 0 counts as absent. */
  predicate HasId(id: Option<int>)
  {
    id.Some? && id.value != 0
  }

  /** The upstream answers one command may consult. */
  datatype World = World(
    catalog: seq<Machine>,        // get_machines(retired=args.active)
    lookup: Outcome<Machine>,     // get_machine(args.id)
    spawn: Option<Exc>,           // exception raised by machine.spawn(), if any
    active: Observation,          // the command's first get_active_machine()
    action: Option<Exc>,          // exception raised by machine.stop() or machine.reset(), if any
    submitReply: Outcome<string>, // machine.submit(flag, difficulty)
    localIp: Outcome<Option<string>>, // get_local_ip(): None for its ValueError, Raised for any other exception
    poll: nat -> Observation)     // get_active_machine() at each tick of a polling loop

  /** The state-changing upstream calls. */
  datatype Action =
    | Spawn(machine: Machine)
    | StopAction(name: string)
    | ResetAction(name: string)
    | SubmitAction(flag: string, difficulty: int)

  /** The verdict of the `<flag>:<difficulty>` validation. */
  datatype FlagCheck =
    | InvalidFormat      // "Invalid flag format"
    | NotInteger         // "Invalid difficulty argument, must be an integer"
    | NotMultipleOf10    // "Difficulty must be a multiple of 10"
    | OutOfRange         // "Difficulty must be between 10 and 100"
    | Accepted(flag: string, difficulty: int)

  datatype Report =
    | Records(machines: seq<Machine>)            // one table per machine
    | Started(machine: Machine, wait: Wait<string>)
    | AlreadyActive                              // "There is a machine that is already active"
    | MultipleMatches                            // "Cannot start multiple machines at once"
    | NothingToStart(query: string)              // "Could not find machine to start"
    | Stopping(name: string, teardown: Wait<()>)
    | Resetting(name: string, wait: Wait<string>)
    | Busy                                       // "The machine is currently busy with another operation"
    | NoActive                                   // "No active machine available ..."
    | Described(active: ActiveMachine)
    | Rejected(check: FlagCheck)
    | Submitted(name: string, flag: string, difficulty: int, message: string)
    | LocalAddress(address: string)
    | TunnelDown                                 // "Interface tun0 is not up, connect to VPN first"
    | TargetAddress(address: string)
    | Crashed(error: Exc)                        // an exception that ends the process
    | Silent                                     // nothing printed

  datatype Run = Run(report: Report, actions: seq<Action>)

  // ---------------------------------------------------------------------
  // Flag validation
  // ---------------------------------------------------------------------

  /** The checks of the flag command, in the order of htb-admin.py:461-473. */
  function CheckFlag(s: string): (c: FlagCheck)
    ensures c == InvalidFormat <==> Count(s, ':') != 1
    ensures c.Accepted? ==> c.difficulty % 10 == 0 && 10 <= c.difficulty <= 100
    ensures c.Accepted? ==> ':' !in c.flag
  {
    SplitCount(s, ':');
    var parts := Split(s, ':');
    if |parts| != 2 then InvalidFormat
    else
      match ParseInt(parts[1])
      case None => NotInteger
      case Some(d) =>
        if d % 10 != 0 then NotMultipleOf10
        else if d < 10 || d > 100 then OutOfRange
        else Accepted(parts[0], d)
  }

  /** A flag string `f:t` with a colon-free `f` is accepted exactly when `t`
      parses as a multiple of 10 within [10, 100]. */
  lemma FlagAccepted(f: string, t: string, d: int)
    requires ':' !in f && ':' !in t
    ensures CheckFlag(f + ":" + t) == Accepted(f, d) <==>
      ParseInt(t) == Some(d) && d % 10 == 0 && 10 <= d <= 100
  {
    assert f + ":" + t == f + [':'] + t;
    SplitAfter(f, t, ':');
    SplitWhole(t, ':');
  }

  /** For a `<flag>:<difficulty>` string whose difficulty `ParseInt`
      accepts (an optional sign and ASCII digits, leading zeros included),
      the multiple-of-10 rule is checked before the range rule, and
      submission needs both. */
  lemma FlagOrder(f: string, t: string, d: int)
    requires ':' !in f && ':' !in t && ParseInt(t) == Some(d)
    ensures CheckFlag(f + ":" + t) ==
      if d % 10 != 0 then NotMultipleOf10
      else if d < 10 || d > 100 then OutOfRange
      else Accepted(f, d)
  {
    assert f + ":" + t == f + [':'] + t;
    SplitAfter(f, t, ':');
    SplitWhole(t, ':');
  }

  /** A difficulty that is not a number is reported as such. */
  lemma FlagNotInteger(f: string, t: string)
    requires ':' !in f && ':' !in t && ParseInt(t) == None
    ensures CheckFlag(f + ":" + t) == NotInteger
  {
    assert f + ":" + t == f + [':'] + t;
    SplitAfter(f, t, ':');
    SplitWhole(t, ':');
  }

  /** `abcd1234:45` fails the multiple-of-10 rule. */
  lemma FlagExampleNotMultiple()
    ensures CheckFlag("abcd1234:45") == NotMultipleOf10
  {
    assert ShowInt(45) == "45";
    ParseShow(45);
    assert "abcd1234" + ":" + "45" == "abcd1234:45";
    FlagOrder("abcd1234", "45", 45);
  }

  /** 0 and 110 are multiples of 10 but fail the range rule. */
  lemma FlagExamplesOutOfRange()
    ensures CheckFlag("abcd1234:0") == OutOfRange
    ensures CheckFlag("abcd1234:110") == OutOfRange
  {
    assert ShowInt(0) == "0";
    ParseShow(0);
    assert "abcd1234" + ":" + "0" == "abcd1234:0";
    FlagOrder("abcd1234", "0", 0);
    assert ShowInt(110) == "110";
    ParseShow(110);
    assert "abcd1234" + ":" + "110" == "abcd1234:110";
    FlagOrder("abcd1234", "110", 110);
  }

  /** The flag command: validation first; only an accepted flag reaches
      `Client.submit`. */
  function FlagCommand(s: string, world: World): (r: Run)
    ensures !CheckFlag(s).Accepted? ==> r == Run(Rejected(CheckFlag(s)), [])
    ensures r.actions != [] ==>
      CheckFlag(s).Accepted? && HasActive(world.active) &&
      r.actions == [SubmitAction(CheckFlag(s).flag, CheckFlag(s).difficulty)]
    ensures CheckFlag(s).Accepted? && world.active == Returned(None) ==> r == Run(NoActive, [])
    ensures r.report.Submitted? ==>
      HasActive(world.active) && world.submitReply.Returned? &&
      r.report.message == world.submitReply.value && r.report.name == ActiveName(world.active)
    ensures CheckFlag(s).Accepted? && HasActive(world.active) ==>
      && r.actions == [SubmitAction(CheckFlag(s).flag, CheckFlag(s).difficulty)]
      && (world.submitReply.Returned? ==>
            r.report == Submitted(ActiveName(world.active), CheckFlag(s).flag, CheckFlag(s).difficulty, world.submitReply.value))
      && (world.submitReply.Raised? ==> r.report == Crashed(world.submitReply.error))
    ensures CheckFlag(s).Accepted? && world.active.Raised? ==> r == Run(Crashed(world.active.error), [])
  {
    var c := CheckFlag(s);
    if !c.Accepted? then Run(Rejected(c), [])
    else
      var call := Submit(world.active, world.submitReply);
      var actions := if call.acted then [SubmitAction(c.flag, c.difficulty)] else [];
      match call.result
      case Raised(e) => Run(Crashed(e), actions)
      case Returned(None) => Run(NoActive, actions)
      case Returned(Some(reply)) => Run(Submitted(reply.0, c.flag, c.difficulty, reply.1), actions)
  }

  // ---------------------------------------------------------------------
  // Query and start
  // ---------------------------------------------------------------------

  /** The query command: with an id, one record from `get_machine`; otherwise
      one record per match, and an exception when nothing matches. */
  function QueryCommand(query: string, id: Option<int>, world: World): (r: Run)
    ensures r.actions == []
    ensures HasId(id) && world.lookup.Returned? ==> r.report == Records([world.lookup.value])
    ensures HasId(id) && world.lookup.Raised? ==> r.report == Crashed(world.lookup.error)
    ensures !HasId(id) ==>
      (r.report.Records? <==> |Filter(world.catalog, query)| > 0) &&
      (r.report.Records? ==> r.report.machines == Filter(world.catalog, query))
    ensures !HasId(id) && |Filter(world.catalog, query)| == 0 ==>
      r.report == Crashed(Error("No machines found for query: " + query))
  {
    if HasId(id) then
      match world.lookup
      case Raised(e) => Run(Crashed(e), [])
      case Returned(m) => Run(Records([m]), [])
    else
      var machines := Filter(world.catalog, query);
      if |machines| == 1 then Run(Records([machines[0]]), [])
      else if |machines| > 1 then Run(Records(machines), [])
      else Run(Crashed(Error("No machines found for query: " + query)), [])
  }

  /** `Client.start` on one machine, followed by the address wait when it
      returned 0. */
  function SpawnAndWait(machine: Machine, world: World): (r: Run)
    ensures r.actions == [Spawn(machine)]
    ensures r.report.Started? <==> StartCode(world.spawn) == Returned(0)
    ensures r.report.Started? ==> r.report == Started(machine, AddressWait(world.poll, AddressTicks))
    ensures r.report == AlreadyActive <==> StartCode(world.spawn) == Returned(1)
    ensures r.report.Crashed? <==> StartCode(world.spawn).Raised?
    ensures r.report.Crashed? ==> world.spawn == Some(r.report.error)
  {
    var report :=
      match StartCode(world.spawn)
      case Raised(e) => Crashed(e)
      case Returned(code) =>
        if code == 0 then Started(machine, AddressWait(world.poll, AddressTicks))
        else if code == 1 then AlreadyActive
        else Silent;
    Run(report, [Spawn(machine)])
  }

  /** The start command. The id is tested before the search, so with a
      truthy id the catalog is never consulted, and the branch for several
      matches filtered by id (htb-admin.py:296-323) cannot be reached: several
      matches always end with "Cannot start multiple machines at once". */
  function StartCommand(name: string, id: Option<int>, world: World): (r: Run)
    ensures |r.actions| <= 1
    ensures r.actions != [] ==> r.actions[0].Spawn?
    ensures HasId(id) && world.lookup.Returned? ==> r.actions == [Spawn(world.lookup.value)]
    ensures HasId(id) && world.lookup.Raised? ==> r == Run(Crashed(world.lookup.error), [])
    ensures !HasId(id) && |Filter(world.catalog, name)| == 1 ==>
      r.actions == [Spawn(Filter(world.catalog, name)[0])] && !r.report.NothingToStart?
    ensures !HasId(id) && |Filter(world.catalog, name)| > 1 ==> r == Run(MultipleMatches, [])
    ensures !HasId(id) && |Filter(world.catalog, name)| == 0 ==> r == Run(NothingToStart(name), [])
    ensures r.report.Started? ==>
      StartCode(world.spawn) == Returned(0) && r.report.wait == AddressWait(world.poll, AddressTicks)
    ensures r.report == AlreadyActive ==> StartCode(world.spawn) == Returned(1) && |r.actions| == 1
    ensures HasId(id) && world.lookup.Returned? ==> r == SpawnAndWait(world.lookup.value, world)
    ensures !HasId(id) && |Filter(world.catalog, name)| == 1 ==>
      r == SpawnAndWait(Filter(world.catalog, name)[0], world)
  {
    if HasId(id) then
      match world.lookup
      case Raised(e) => Run(Crashed(e), [])
      case Returned(m) => SpawnAndWait(m, world)
    else
      var machines := Filter(world.catalog, name);
      if |machines| == 1 then SpawnAndWait(machines[0], world)
      else if |machines| > 1 then Run(MultipleMatches, [])
      else Run(NothingToStart(name), [])
  }

  /** With a truthy id, start ignores the name query and the catalog. */
  lemma StartByIdIgnoresCatalog(name: string, other: string, id: Option<int>, world: World, catalog: seq<Machine>)
    requires HasId(id)
    ensures StartCommand(name, id, world) == StartCommand(other, id, world.(catalog := catalog))
  {
  }

  // ---------------------------------------------------------------------
  // Stop, reset and the read-only commands
  // ---------------------------------------------------------------------

  /** A slot result as `main` reports it: the busy signal is caught and
      reported, any other exception ends the process. */
  function CaughtBusy(e: Exc): Report
  {
    if e.StopIteration? then Busy else Crashed(e)
  }

  /** The stop command: `Client.stop`, then the teardown wait. */
  function StopCommand(world: World): (r: Run)
    ensures r.actions == if HasActive(world.active) then [StopAction(ActiveName(world.active))] else []
    ensures world.active == Returned(None) ==> r == Run(NoActive, [])
    ensures r.report.Stopping? <==> HasActive(world.active) && world.action == None
    ensures r.report.Stopping? ==>
      r.report == Stopping(ActiveName(world.active), TeardownWait(world.poll, TeardownTicks))
    ensures r.report == Busy <==>
      world.active == Raised(StopIteration) || (HasActive(world.active) && world.action == Some(StopIteration))
    ensures r.report.Crashed? <==>
      (world.active.Raised? && world.active.error != StopIteration) ||
      (HasActive(world.active) && world.action.Some? && world.action.value != StopIteration)
    ensures r.report.Crashed? ==>
      r.report.error == (if world.active.Raised? then world.active.error else world.action.value)
  {
    var call := Stop(world.active, world.action);
    var actions := if call.acted then [StopAction(ActiveName(world.active))] else [];
    match call.result
    case Raised(e) => Run(CaughtBusy(e), actions)
    case Returned(None) => Run(NoActive, actions)
    case Returned(Some(name)) => Run(Stopping(name, TeardownWait(world.poll, TeardownTicks)), actions)
  }

  /** The reset command: `Client.reset`, then the address wait. */
  function ResetCommand(world: World): (r: Run)
    ensures r.actions == if HasActive(world.active) then [ResetAction(ActiveName(world.active))] else []
    ensures world.active == Returned(None) ==> r == Run(NoActive, [])
    ensures r.report.Resetting? <==> HasActive(world.active) && (world.action == None || world.action.value.KeyError?)
    ensures r.report.Resetting? ==>
      r.report == Resetting(ActiveName(world.active), AddressWait(world.poll, AddressTicks))
    ensures r.report == Busy <==>
      world.active == Raised(StopIteration) || (HasActive(world.active) && world.action == Some(StopIteration))
    ensures r.report.Crashed? <==>
      (world.active.Raised? && world.active.error != StopIteration) ||
      (HasActive(world.active) && world.action.Some? && world.action.value != StopIteration && !world.action.value.KeyError?)
    ensures r.report.Crashed? ==>
      r.report.error == (if world.active.Raised? then world.active.error else world.action.value)
  {
    var call := Reset(world.active, world.action);
    var actions := if call.acted then [ResetAction(ActiveName(world.active))] else [];
    match call.result
    case Raised(e) => Run(CaughtBusy(e), actions)
    case Returned(None) => Run(NoActive, actions)
    case Returned(Some(name)) => Run(Resetting(name, AddressWait(world.poll, AddressTicks)), actions)
  }

  /** The description command reports the active machine; its rendering is not modelled. */
  function DescribeCommand(world: World): (r: Run)
    ensures r.actions == []
    ensures r.report.Described? <==> HasActive(world.active)
    ensures r.report.Described? ==> r.report.active == world.active.value.value
    ensures world.active == Returned(None) ==> r.report == NoActive
    ensures r.report == Busy <==> world.active == Raised(StopIteration)
    ensures world.active.Raised? && world.active.error != StopIteration ==> r.report == Crashed(world.active.error)
  {
    match world.active
    case Raised(e) => Run(CaughtBusy(e), [])
    case Returned(None) => Run(NoActive, [])
    case Returned(Some(m)) => Run(Described(m), [])
  }

  /** The target command prints the active machine's address. */
  function TargetCommand(world: World): (r: Run)
    ensures r.actions == []
    ensures r.report.TargetAddress? <==> Target(world.active).Returned? && Target(world.active).value.Some?
    ensures r.report.TargetAddress? ==> Some(r.report.address) == world.active.value.value.ip
    ensures Target(world.active) == Returned(None) ==> r.report == NoActive
    ensures r.report == Busy <==> world.active == Raised(StopIteration)
    ensures world.active.Raised? && world.active.error != StopIteration ==> r.report == Crashed(world.active.error)
  {
    match Target(world.active)
    case Raised(e) => Run(CaughtBusy(e), [])
    case Returned(None) => Run(NoActive, [])
    case Returned(Some(address)) => Run(TargetAddress(address), [])
  }

  /** The local command prints the tunnel interface's address. `get_local_ip`
      catches only `ValueError` (no tun0 at all); a tun0 without an IPv4
      entry raises `KeyError` there, which nothing catches. */
  function LocalCommand(world: World): (r: Run)
    ensures r.actions == []
    ensures r.report == TunnelDown <==> world.localIp == Returned(None)
    ensures world.localIp.Returned? && world.localIp.value.Some? ==>
      r.report == LocalAddress(world.localIp.value.value)
    ensures r.report.Crashed? <==> world.localIp.Raised?
    ensures world.localIp.Raised? ==> r.report == Crashed(world.localIp.error)
  {
    match world.localIp
    case Raised(e) => Run(Crashed(e), [])
    case Returned(None) => Run(TunnelDown, [])
    case Returned(Some(address)) => Run(LocalAddress(address), [])
  }

  // ---------------------------------------------------------------------
  // main
  // ---------------------------------------------------------------------

  /** `main` after the privilege check and the token loading. Python's `elif`
      chain tests truthiness, so an empty query, start name or flag string
      selects no branch at all. */
  function Dispatch(args: Args, world: World): (r: Run)
    ensures |r.actions| <= 1
    ensures (args.command.QueryCmd? || args.command.DescribeCmd? || args.command.TargetCmd? || args.command.LocalCmd?) ==>
      r.actions == []
    ensures r.actions != [] && r.actions[0].Spawn? ==> args.command.StartCmd?
    ensures r.actions != [] && r.actions[0].SubmitAction? ==> args.command.FlagCmd? && CheckFlag(args.command.flag).Accepted?
    ensures args.command.QueryCmd? && args.command.query != "" ==> r == QueryCommand(args.command.query, args.id, world)
    ensures args.command.StartCmd? && args.command.name != "" ==> r == StartCommand(args.command.name, args.id, world)
    ensures args.command.FlagCmd? && args.command.flag != "" ==> r == FlagCommand(args.command.flag, world)
    ensures args.command == DescribeCmd ==> r == DescribeCommand(world)
    ensures args.command == KillCmd ==> r == StopCommand(world)
    ensures args.command == ResetCmd ==> r == ResetCommand(world)
    ensures args.command == LocalCmd ==> r == LocalCommand(world)
    ensures args.command == TargetCmd ==> r == TargetCommand(world)
    ensures args.command in {QueryCmd(""), StartCmd(""), FlagCmd("")} ==> r == Run(Silent, [])
  {
    match args.command
    case QueryCmd(q) => if q != "" then QueryCommand(q, args.id, world) else Run(Silent, [])
    case StartCmd(n) => if n != "" then StartCommand(n, args.id, world) else Run(Silent, [])
    case DescribeCmd => DescribeCommand(world)
    case KillCmd => StopCommand(world)
    case ResetCmd => ResetCommand(world)
    case FlagCmd(f) => if f != "" then FlagCommand(f, world) else Run(Silent, [])
    case LocalCmd => LocalCommand(world)
    case TargetCmd => TargetCommand(world)
  }
}
