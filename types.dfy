/** The values the controller exchanges with the provisioning API.
    Every upstream call is an oracle: the model receives its answer as an input. */
module Types {

  datatype Option<+T> = None | Some(value: T)

  /** The exception classes the controller tells apart. `StopIteration` is
      how the API client signals that the account's machine is busy with
      another operation; `KeyError` is raised by some calls whose operation
      was nevertheless accepted; everything else is a generic error with a
      message. */
  datatype Exc = KeyError(key: string) | StopIteration | Error(message: string)

  /** A call either returns a value or raises an exception. */
  datatype Outcome<+T> = Returned(value: T) | Raised(error: Exc)

  /** `str(error)` as far as the controller inspects it. */
  function Message(e: Exc): string
  {
    match e
    case KeyError(key) => "'" + key + "'"
    case StopIteration => ""
    case Error(m) => m
  }

  /** A catalog entry (MachineRef). */
  datatype Machine = Machine(id: int, name: string, difficulty: string)

  /** The single account-wide active instance; `ip` is None until provisioning
      has assigned an address. */
  datatype ActiveMachine = ActiveMachine(machine: Machine, ip: Option<string>)

  /** The answer to one call of `get_active_machine()`. */
  type Observation = Outcome<Option<ActiveMachine>>
}
