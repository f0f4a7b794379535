/** The status messages the extension posts to the webview, and the
    abstract interface to the `sui` process. */
module Messages {
  import opened Wrappers

  /** One environment row: `url` is `undefined` when the row had no second
      field. */
  datatype Env = Env(alias: string, url: Option<string>, active: bool)

  /** The `data` of an environment listing. */
  datatype EnvListing = EnvListing(environments: seq<Env>, activeEnv: string)

  /** A posted message: `type`, `status`, `message` (None is `undefined`)
      and optional `data`. */
  datatype Message = Message(kind: string, status: string, text: Option<string>, data: Option<EnvListing>)

  function MoveStatus(status: string, text: string): Message {
    Message("moveStatus", status, Some(text), None)
  }

  function CliStatus(status: string, text: string): Message {
    Message("cliStatus", status, Some(text), None)
  }

  /** How a `sui` run ended: exit code 0 with the combined output, or any
      other exit (a signal exit included) with the combined output. */
  datatype RunResult = Ok(output: string) | Err(output: string)

  /** One call of the process runner: program, argument vector and working
      directory. */
  datatype Invocation = Invocation(program: string, args: seq<string>, cwd: string)

  /** How an async service settles: resolved (with its value, if any) or
      rejected with an error message. */
  datatype Completion = Returned(value: Option<string>) | Threw(error: string)

  /** Everything a service does: the messages it posts, in order, the
      process it runs if any, and how it settles. */
  datatype ServiceRun = ServiceRun(posted: seq<Message>, invoked: Option<Invocation>, completion: Completion)
}
