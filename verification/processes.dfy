/** `subprocess.run` reduced to what the benchmark code relies on. A process
    is never started here: each invocation is answered by an abstract
    outcome, and this module only says how `subprocess.run` turns that
    outcome into a return value or an exception. */
module Processes {
  import opened Outcomes

  /** What the caller asks for: the shell command, the environment
      (`None` inherits the caller's), the timeout in seconds, and whether
      `check=True` was given. */
  datatype Request = Request(command: string, env: Option<map<string, string>>, timeout: Option<nat>, check: bool)

  /** What the operating system did with a request. */
  datatype Outcome =
    | Exited(returnCode: int, stdout: string)
    | TimedOut      // the request's timeout expired; the benchmark code
                    // passes no timeout, so this outcome does not arise there
    | StartFailed   // the shell itself could not be started

  /** The `CompletedProcess` that `subprocess.run` returns. */
  datatype Completed = Completed(returnCode: int, stdout: string)

  /** `subprocess.run(request)` when the process behaves as `o`: a nonzero
      exit raises only under `check=True`, a timeout always raises. `o` is
      not checked against `req`: a `TimedOut` outcome for a request without
      a timeout cannot occur, and the contract simply says nothing useful
      about it. */
  function Run(req: Request, o: Outcome): (r: Result<Completed>)
    ensures r.Ok? <==> o.Exited? && (!req.check || o.returnCode == 0)
    ensures r.Ok? ==> r.value.returnCode == o.returnCode && r.value.stdout == o.stdout
    ensures r.Err? && o.Exited? ==> r.error == CalledProcessError(o.returnCode)
    ensures o.TimedOut? ==> r == Err(TimeoutExpired)
    ensures o.StartFailed? ==> r == Err(OSError)
  {
    match o
    case TimedOut => Err(TimeoutExpired)
    case StartFailed => Err(OSError)
    case Exited(code, out) =>
      if req.check && code != 0 then Err(CalledProcessError(code)) else Ok(Completed(code, out))
  }

  /** A checked run that returns at all returned exit code 0, so
      `returncode == 0` after it is always true. */
  lemma CheckedRunSucceeded(req: Request, o: Outcome)
    requires req.check && Run(req, o).Ok?
    ensures Run(req, o).value.returnCode == 0
  {
  }
}
