/** What the pipeline knows about a step, and the foreign world its Check and Run act on. */
module Commands {
  datatype Kind = Auto | Interactive | Terminal | Handoff

  datatype Meta = Meta(
    name: string,
    deps: seq<string>,
    attempts: int,      // Retry.Attempts
    kind: Kind,
    optional: bool,
    parallel: bool
  )

  datatype Answer = Satisfied | Unsatisfied | CheckError

  /**
   Everything the engine cannot decide.  Each call is made at its own tick of the clock, so
   a function of the tick can answer every call differently; `world` is the state that the
   steps' effects change.  The number after the step's name is the attempt the call
   belongs to (0 for the first Check).
   */
  datatype Env<!W> = Env(
    check: (string, nat, W, nat) -> Answer,
    succeeds: (string, nat, W, nat) -> bool,
    effect: (string, nat, W, nat) -> W,
    cancelled: nat -> bool,    // ctx.Err() != nil
    lost: nat -> bool,         // emit on a full channel gives up (only once ctx is done)
    wakes: nat -> bool,        // the retry timer wins the race against a done context
    pick: nat -> nat           // which goroutine moves next
  )

  /** A cancelled context stays cancelled. */
  ghost predicate Monotone<W>(env: Env<W>) {
    forall t, u :: t <= u && env.cancelled(t) ==> env.cancelled(u)
  }

  ghost predicate Uncancelled<W>(env: Env<W>) {
    forall t :: !env.cancelled(t)
  }

  /** Run is tried at least once, and as often as the step asks for. */
  function Attempts(m: Meta): (n: nat)
    ensures n >= 1 && n >= m.attempts && (n == 1 || n == m.attempts)
  {
    if m.attempts > 1 then m.attempts else 1
  }
}
