# HTB-Admin lifecycle controller

A Dafny model of the lifecycle controller inside `htb-admin.py`, a command-line
tool that manages a single HackTheBox lab machine through the `hackthebox` API
client. The model covers:

- the catalog search;
- the classification of a spawn result;
- the operations on the account's single active-machine slot (stop, reset,
  submit, target);
- the two bounded polling loops of `main` (the 300-tick address wait after
  start and reset, the 60-tick teardown wait after stop);
- the command dispatch: start and query by number of matches, and the
  `<flag>:<difficulty>` validation.

Every upstream call is an oracle. Its answer is an input of the model: a
`World` record holds the catalog, the `get_machine(id)` reply, the exception
`spawn()` raised (if any), the first `get_active_machine()` answer, and the
stop/reset/submit replies. `poll(k)` is the `get_active_machine()` answer at
tick `k` of a polling loop. Exceptions are the datatype
`Exc = KeyError | StopIteration | Error(message)`. `StopIteration` is the
API client's "busy with another operation" signal.

Files and modules:

- `types.dfy` (`Types`): options, exceptions, call outcomes, machines and the
  active-machine observation.
- `text.dfy` (`Text`): the Python string operations the controller uses:
  `lower`, substring `in`, `split(":")`, `int()`.
- `client.dfy` (`Client`): `Client.search` (a method with a loop, proved
  equal to the filter `Filter`), `Client.start`, `stop`, `reset`, `submit`,
  `target`.
- `polling.dfy` (`Polling`): the two loops, as methods proved equal to
  recursive reference functions. Lemmas characterize the loops: which tick
  ends them, when they report a problem, which exceptions abort them.
- `commands.dfy` (`Commands`): `main`'s dispatch. Each command is a function
  returning the reported outcome and the list of state-changing upstream calls
  it made (spawn, stop, reset, submit).
- `scenarios.dfy` (`Scenarios`): whole-command runs, such as starting "lame",
  a conflict on start, a confirmed stop, and busy ticks before an address.

Three behaviours of htb-admin.py that the model keeps:

- A busy signal in the teardown loop is not caught. The `target()` call at
  htb-admin.py:419 sits in the `else:` of the try at htb-admin.py:405-409,
  outside any handler, so `StopIteration` there ends the process (`Fault`).
  In the flag command, a busy signal from the `get_active_machine()` inside
  `client.submit` (htb-admin.py:474) is not caught either.
- In the address wait, only `StopIteration` is caught
  (htb-admin.py:251-254). Any other exception ends the command, so running
  out of ticks is not the only way the wait can end without an address.
- The branch for several matches filtered by id (htb-admin.py:296-323)
  cannot run. `args.id` is tested first, at htb-admin.py:239, and with an id
  the machine comes from `get_machine(id)`. A start with several matches and
  no id always ends with "Cannot start multiple machines at once" and no
  spawn.

Python truthiness is modelled. An empty query, start name or flag string
selects no branch of `main`'s `elif` chain (`Silent`). An id of 0 counts as
no id (`Commands.HasId`).

## Model

| member | source | states |
|---|---|---|
| `Client.Search` | htb-admin.py:34-43 | the loop over the catalog returns exactly `Filter(catalog, query)` |
| `Client.FilterMembers` | htb-admin.py:37-43 | an entry is in the search result iff it is in the catalog and its lowered name contains the lowered query |
| `Client.FilterOrdered` | htb-admin.py:37-43 | the search result is a subsequence of the catalog, so catalog order is kept |
| `Client.FilterLength` | htb-admin.py:37-43 | the result is never longer than the catalog, and is as long exactly when every entry matches |
| `Client.MatchesIgnoresCase` | htb-admin.py:40 | two queries equal up to letter case select the same entries |
| `Client.StartCode` | htb-admin.py:45-58 | code 0 iff spawn succeeded or raised KeyError; code 1 iff another error's message contains "You must stop your active machine"; any other error is re-raised unchanged |
| `Client.StartBusyPropagates` | htb-admin.py:52-56 | a busy signal from spawn is not a conflict and propagates |
| `Client.Stop` | htb-admin.py:65-72 | no active machine: returns None with no stop call; otherwise stop is called once and the machine's name returned, or stop's exception (KeyError included) propagates |
| `Client.Reset` | htb-admin.py:74-85 | as stop, but a KeyError from reset is swallowed and the name still returned |
| `Client.ResetLikeStop` | htb-admin.py:65-85 | reset and stop agree on every reply other than a KeyError |
| `Client.Submit` | htb-admin.py:87-94 | no active machine: None and no submit call; otherwise one submit call, returning the name and the upstream message verbatim |
| `Client.Target` | htb-admin.py:96-101 | the active machine's address, None when no machine is active or it has no address; exceptions from the query propagate |
| `Polling.AddressWaitFrom` | htb-admin.py:247-263 | the wait makes at most `total` queries; it reports a problem only after all `total`; any other ending comes after the tick that caused it |
| `Polling.AwaitAddress` | htb-admin.py:247-263 | the start/reset loop computes exactly the reference address wait |
| `Polling.AddressWaitFinished` | htb-admin.py:249-261 | finishing after n queries with address a iff tick n-1 shows a, n <= total, and every earlier tick was busy or showed no address: the first address wins |
| `Polling.AddressWaitProblem` | htb-admin.py:262-263 | a problem is reported iff every one of the `total` ticks was busy or addressless, and then exactly `total` queries were made |
| `Polling.AddressWaitFault` | htb-admin.py:251-254 | only an exception other than the busy signal aborts the wait, at the tick that raised it |
| `Polling.AddressWaitFromPrefix` | htb-admin.py:249-252 | the outcome depends only on the answers to the queries actually made |
| `Polling.BusyThenAddress` | htb-admin.py:251-254 | busy ticks neither end the wait nor count as failure: b busy ticks then an address finish after b+1 queries |
| `Polling.TeardownWaitFrom` | htb-admin.py:415-427 | the teardown makes at most `total` queries; a problem only after all of them |
| `Polling.AwaitTeardown` | htb-admin.py:415-427 | the stop loop computes exactly the reference teardown wait |
| `Polling.TeardownWaitFinished` | htb-admin.py:417-425 | teardown confirmed after n queries iff tick n-1 is the first without an address |
| `Polling.TeardownWaitProblem` | htb-admin.py:426-427 | a problem is reported iff all `total` ticks still showed an address |
| `Polling.TeardownWaitFault` | htb-admin.py:419 | any exception, the busy signal included, aborts the teardown at the tick that raised it |
| `Text.ContainsIff` | htb-admin.py:40 | the substring test holds iff the needle occurs at some position |
| `Text.JoinSplit` | htb-admin.py:461 | splitting on ":" loses nothing: joining the parts gives the string back |
| `Text.SplitCount` | htb-admin.py:461-462 | there is one more part than there are colons |
| `Text.ParseInt` | htb-admin.py:465 | a value exactly for an optional sign followed by decimal digits |
| `Text.ParseShow` | htb-admin.py:465 | parsing the decimal numeral of n gives n |
| `Commands.CheckFlag` | htb-admin.py:461-473 | "invalid format" iff the string does not have exactly one colon; an accepted difficulty is a multiple of 10 in [10, 100] and the flag has no colon |
| `Commands.FlagAccepted` | htb-admin.py:461-473 | `f:t` is accepted with difficulty d iff t parses to d and d is a multiple of 10 in [10, 100] |
| `Commands.FlagOrder` | htb-admin.py:462-473 | for `f:t` where the difficulty string `t` parses to `d` (any spelling `ParseInt` accepts: an optional sign and ASCII digits, leading zeros included; see Text.ParseInt under "Left out"): not a multiple of 10 gives that message, otherwise outside [10, 100] gives the range message, otherwise the flag is accepted with `f` and `d`; the multiple-of-10 rule is checked first |
| `Commands.FlagNotInteger` | htb-admin.py:464-467 | a difficulty that does not parse is rejected as not an integer |
| `Commands.FlagExampleNotMultiple` | htb-admin.py:469-470 | `abcd1234:45` gets the multiple-of-10 message |
| `Commands.FlagExamplesOutOfRange` | htb-admin.py:471-472 | `abcd1234:0` and `abcd1234:110` get the range message |
| `Commands.FlagCommand` | htb-admin.py:460-484 | a rejected flag makes no upstream call; a submit call is made only for an accepted flag with an active machine, and then it is exactly one submit of the parsed flag and difficulty, the report carries the machine's name, flag, difficulty and the upstream's message, or the upstream's exception if submit raised; no active machine gives "no active machine"; an exception from the slot query inside submit, busy included, ends the process with no call |
| `Commands.QueryCommand` | htb-admin.py:210-237 | with an id, the one record of get_machine, or get_machine's exception ending the process; otherwise one record per match, and the "No machines found for query" exception when there are none; it calls no action |
| `Commands.SpawnAndWait` | htb-admin.py:241-265 | spawn is called once; polling follows iff start returned 0; code 1 gives "already active" with no polling; other errors propagate |
| `Commands.StartCommand` | htb-admin.py:238-328 | at most one spawn; with an id and a get_machine reply the run is exactly the spawn-and-wait of that machine; without an id and one match the run is exactly the spawn-and-wait of that match; several matches give "Cannot start multiple machines" and zero give "Could not find machine", both without spawn |
| `Commands.StartByIdIgnoresCatalog` | htb-admin.py:239-240 | with a truthy id, neither the name nor the catalog affects the start |
| `Commands.StopCommand` | htb-admin.py:404-429 | one stop call iff a machine is active; "no active machine" with no call when none is; the teardown wait runs iff stop succeeded; busy is reported iff the slot query or the stop call signalled busy; any other exception from either ends the process with that exception |
| `Commands.ResetCommand` | htb-admin.py:430-459 | one reset call iff a machine is active; the address wait runs iff reset succeeded or raised KeyError; "busy" is reported exactly when the active-machine lookup or the reset call raised the busy signal; any other exception that is not reset's KeyError ends the process with that exception |
| `Commands.DescribeCommand` | htb-admin.py:329-403 | reads the slot only; the active machine is described iff there is one, "no active machine" when there is none; busy iff the query signalled busy; any other exception ends the process |
| `Commands.TargetCommand` | htb-admin.py:491-500 | prints the active machine's address iff it has one, "no active machine" otherwise; busy iff the query signalled busy; any other exception ends the process; no call |
| `Commands.LocalCommand` | htb-admin.py:485-490 | "tun0 is not up" iff `get_local_ip` (104-112) returns None (its caught ValueError, no tun0 at all); otherwise the address it returns is printed; any other exception it raises, such as the KeyError of a tun0 without an IPv4 entry, ends the process with that exception |
| `Commands.Dispatch` | htb-admin.py:204-500 | each command runs its own command function; an empty query, start name or flag selects no branch and prints nothing; at most one state-changing call per command; reading commands make none; a spawn only from start; a submit only from an accepted flag |
| `Scenarios.StartLameReachable` | htb-admin.py:266-292 | "lame" matches "Lame"; spawn succeeds; the address at the fifth query finishes the start after five queries |
| `Scenarios.StartLameConflict` | htb-admin.py:293-294 | a spawn refused with an error containing the active-machine phrase anywhere gives "already active" after one spawn and no polling |
| `Scenarios.StopLameConfirmed` | htb-admin.py:410-425 | stopping the active "Lame" makes one stop call and confirms the teardown at the third query |
| `Scenarios.StopWithoutMachine` | htb-admin.py:428-429 | stop with no active machine reports "no active machine" and makes no stop call |
| `Scenarios.StartThroughBusyTicks` | htb-admin.py:278-290 | ten busy ticks then an address finish the start after eleven queries |
| `Scenarios.StartSingleMatch` | htb-admin.py:268-294 | a single match is spawned once and never reported as not found |

## Left out

- The network calls of `HTBClient` (`get_machines`, `get_machine`, `get_active_machine`, `spawn`, `stop`, `reset`, `submit`). Their behaviour lives in a library that is not part of this model, so they are oracle inputs. Every poll tick queries the oracle anew.
- `time.sleep` and the `time.perf_counter` elapsed time (htb-admin.py:243, 257-258): wall-clock time and floating point. The model counts queries instead.
- `get_local_ip` (htb-admin.py:104-112) depends on the OS network interfaces. Its answer is the oracle field `localIp`: an address, None for the `ValueError` it catches, or an uncaught exception (the `KeyError` or `IndexError` of line 108).
- `get_token` and the `os.getuid` privilege check (htb-admin.py:115-127, 205-207): file, environment and process I/O. `Dispatch` starts after them.
- JSON and table rendering (`get_*_json`, htb-admin.py:130-201; the description output, htb-admin.py:336-401; `tabulate`). These only format output. `Records` and `Described` carry the data that would be rendered. `get_machine_machine_json` refers to an undefined `machine` at htb-admin.py:189; that function is not part of this model.
- The wording of printed messages, including the `repr` of a machine in "There was a problem starting". Outcomes are constructors named after the message they stand for.
- The `MultipleMachinesFound` exception class (htb-admin.py:13-24). Nothing raises it.
- Argparse (htb-admin.py:503-573): the parsed arguments are the `Args` record. `--active` only chooses which catalog `get_machines` returns, and `World.catalog` is already that catalog.
- Exceptions raised by `get_machines` during a search. They would propagate unchanged.
- Text.Lower: models `str.lower` on ASCII letters only; other characters are left unchanged because the model has no Unicode case tables.
- Text.ParseInt: weaker than Python's `int()`. It accepts only an optional sign followed by ASCII decimal digits. Surrounding whitespace, underscores and non-ASCII digits, which `int()` also accepts, are not modelled. So `abcd1234: 45`, which htb-admin.py:469-470 answers with the multiple-of-10 message, is `NotInteger` in the model.
- The unreachable branch for several matches filtered by id (htb-admin.py:296-323) is not modelled beyond the fact that it cannot run: `Commands.StartCommand` states that several matches without an id give "Cannot start multiple machines at once".
