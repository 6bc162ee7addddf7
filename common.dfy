/** Small shapes shared by every command of the CLI. */
module Common {

  datatype Option<+T> = None | Some(value: T)

  /** How one command invocation ends: a deliberate `process.exit(code)`, or an
      exception that nothing catches, which Node reports with exit status 1. */
  datatype Outcome = Exited(code: nat) | Crashed
}
