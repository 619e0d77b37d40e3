/**
 * The signal handler `shutdown` installed by `main`: on SIGHUP, SIGINT or
 * SIGTERM it calls `sys.exit(128 + signal)`, so the exit status is 128 + the
 * signal number. Signal numbers are the Linux ones Python's `signal` module
 * exposes.
 */
module Signals {
  import opened Wrappers

  const SIGHUP: int := 1
  const SIGINT: int := 2
  const SIGTERM: int := 15

  /** The signals `shutdown` is registered for. */
  const HandledSignals: set<int> := {SIGHUP, SIGINT, SIGTERM}

  /** The argument `shutdown` passes to `sys.exit`. */
  function ShutdownCode(signal: int): int {
    128 + signal
  }

  /** The status a parent process sees: the operating system keeps the low eight bits. */
  function ExitStatus(code: int): (status: nat)
    ensures status < 256
    ensures 0 <= code < 256 ==> status == code
  {
    code % 256
  }

  /**
   * When signal `s` arrives, `shutdown` calls `sys.exit(128 + s)`, so the
   * exit status is the one returned here; None when no handler of this
   * program is registered for `s`.
   */
  function OnSignal(s: int): (status: Option<nat>)
    ensures status.Some? <==> s in HandledSignals
    ensures status.Some? ==> 128 < status.value < 256 && status.value == 128 + s
  {
    if s in HandledSignals then Some(ExitStatus(ShutdownCode(s))) else None
  }

  /** The conventional reading of a status above 128: the signal that ended the process. */
  function SignalOfStatus(status: nat): Option<int> {
    if status > 128 then Some(status - 128) else None
  }

  /** For every signal number below 128 the exit status names the signal back. */
  lemma ShutdownStatusNamesSignal(s: int)
    requires 1 <= s < 128
    ensures ExitStatus(ShutdownCode(s)) == 128 + s
    ensures SignalOfStatus(ExitStatus(ShutdownCode(s))) == Some(s)
  {
  }

  /** SIGHUP, SIGINT and SIGTERM end the process with 129, 130 and 143. */
  lemma HandledSignalStatuses()
    ensures OnSignal(SIGHUP) == Some(129)
    ensures OnSignal(SIGINT) == Some(130)
    ensures OnSignal(SIGTERM) == Some(143)
  {
  }
}
