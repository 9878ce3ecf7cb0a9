/**
 The life of one step inside a pipeline run, cut into its atomic actions: this is runStep,
 runAttempts and sleep as a program counter, so that the steps of a batch can be
 interleaved action by action.  The log records, in one global order, every call of a
 step's Check or Run and every event offered to the consumer.
 */
module Steps {
  import opened Options
  import opened Commands

  datatype StepState = Done | Skipped | Failed

  datatype Event =
    | EvStepStarted(step: string)
    | EvDone(step: string, satisfied: bool)
    | EvSkipped(step: string)
    | EvFailed(step: string)
    | EvPipelineDone(failed: bool)

  datatype Entry =
    | Checked(name: string, answer: Answer)
    | Ran(name: string, ok: bool)
    | Emitted(event: Event, lost: bool)

  /** The entry log[p] was written at tick stamps[p]. */
  datatype Sys<W> = Sys(clock: nat, world: W, log: seq<Entry>, stamps: seq<nat>)

  datatype Pc =
    | Idle                       // the scheduler has not reached the step
    | Enter                      // a batch goroutine, before its look at the context
    | Begin                      // runStep
    | Judge(answer: Answer)      // the first Check returned
    | Announce
    | Try(attempt: nat)          // about to call Run
    | Tried(attempt: nat, ok: bool)
    | Rest(attempt: nat)         // sleeping before this attempt
    | Recheck(attempt: nat)
    | Wrap(ok: bool)             // runAttempts returned
    | Over(state: StepState)

  function Log<W>(sys: Sys<W>, e: Entry): Sys<W> {
    sys.(clock := sys.clock + 1, log := sys.log + [e], stamps := sys.stamps + [sys.clock])
  }

  function Emit<W>(env: Env<W>, sys: Sys<W>, ev: Event): Sys<W> {
    Log(sys, Emitted(ev, env.cancelled(sys.clock) && env.lost(sys.clock)))
  }

  function Idly<W>(sys: Sys<W>): Sys<W> {
    sys.(clock := sys.clock + 1)
  }

  /** The context is not done yet. */
  predicate Alive<W>(env: Env<W>, sys: Sys<W>) {
    !env.cancelled(sys.clock)
  }

  /** An error skips an optional step and fails any other. */
  function Fail<W>(env: Env<W>, m: Meta, sys: Sys<W>): (Pc, Sys<W>) {
    if m.optional then (Over(Skipped), Emit(env, sys, EvSkipped(m.name)))
    else (Over(Failed), Emit(env, sys, EvFailed(m.name)))
  }

  /** One atomic action of the step.  A call is logged with what it answered. */
  function Act<W>(env: Env<W>, m: Meta, pc: Pc, sys: Sys<W>): (Pc, Sys<W>) {
    match pc
    case Idle => (Idle, sys)
    case Over(_) => (pc, sys)
    case Enter => (if env.cancelled(sys.clock) then Over(Failed) else Begin, Idly(sys))
    case Begin =>
      if m.kind == Handoff then (Announce, Idly(sys))
      else
        var answer := env.check(m.name, 0, sys.world, sys.clock);
        (Judge(answer), Log(sys, Checked(m.name, answer)))
    case Judge(answer) => (
      match answer
      case CheckError => Fail(env, m, sys)
      case Satisfied => (Over(Done), Emit(env, sys, EvDone(m.name, true)))
      case Unsatisfied => (Announce, Idly(sys)))
    case Announce => (Try(0), Emit(env, sys, EvStepStarted(m.name)))
    case Try(i) =>
      var ok := env.succeeds(m.name, i, sys.world, sys.clock);
      (Tried(i, ok), Log(sys.(world := env.effect(m.name, i, sys.world, sys.clock)), Ran(m.name, ok)))
    case Tried(i, ok) =>
      (if ok then Wrap(true)
       else if env.cancelled(sys.clock) then Wrap(false)
       else if i + 1 < Attempts(m) then Rest(i + 1) else Wrap(false), Idly(sys))
    case Rest(i) =>
      (if env.cancelled(sys.clock) && !env.wakes(sys.clock) then Wrap(false) else Recheck(i), Idly(sys))
    case Recheck(i) =>
      var answer := env.check(m.name, i, sys.world, sys.clock);
      (if answer == Satisfied then Wrap(true) else Try(i), Log(sys, Checked(m.name, answer)))
    case Wrap(ok) =>
      if ok then (Over(Done), Emit(env, sys, EvDone(m.name, false))) else Fail(env, m, sys)
  }

  /** How many actions are left at most. */
  function Rank(m: Meta, pc: Pc): int {
    var a := Attempts(m);
    match pc
    case Idle => 4 * a + 4
    case Enter => 4 * a + 3
    case Begin => 4 * a + 2
    case Judge(_) => 4 * a + 1
    case Announce => 4 * a
    case Rest(i) => 4 * (a - i) + 1
    case Recheck(i) => 4 * (a - i)
    case Try(i) => 4 * (a - i) - 1
    case Tried(i, _) => 4 * (a - i) - 2
    case Wrap(_) => 1
    case Over(_) => 0
  }

  // ---------------------------------------------------------------- reading the log

  /** The verdict an entry carries for the named step. */
  function VerdictIn(e: Entry, n: string): seq<StepState> {
    match e
    case Emitted(EvDone(s, _), _) => if s == n then [Done] else []
    case Emitted(EvSkipped(s), _) => if s == n then [Skipped] else []
    case Emitted(EvFailed(s), _) => if s == n then [Failed] else []
    case _ => []
  }

  /** All verdicts on the named step, in order: [Done] says that it settled once, as done. */
  function Verdicts(log: seq<Entry>, n: string): seq<StepState> {
    if log == [] then []
    else
      var last := VerdictIn(log[|log| - 1], n);
      var verdicts := Verdicts(log[..|log| - 1], n);
      if last == [] then verdicts else verdicts + last
  }

  predicate IsRun(e: Entry, n: string) {
    e.Ran? && e.name == n
  }

  /** How often the named step's Run was called. */
  function Runs(log: seq<Entry>, n: string): nat {
    if log == [] then 0 else Runs(log[..|log| - 1], n) + if IsRun(log[|log| - 1], n) then 1 else 0
  }

  predicate About(e: Entry, n: string) {
    match e
    case Checked(s, _) => s == n
    case Ran(s, _) => s == n
    case Emitted(EvPipelineDone(_), _) => false
    case Emitted(ev, _) => ev.step == n
  }

  /** Check or Run of a step starts. */
  predicate Starts(e: Entry) {
    e.Checked? || e.Ran?
  }

  /** All dependencies have settled, and none of them failed. */
  ghost predicate DepsSettled(log: seq<Entry>, m: Meta) {
    forall d :: d in m.deps ==> Verdicts(log, d) == [Done] || Verdicts(log, d) == [Skipped]
  }

  /** The step's EvStepStarted was offered to the consumer. */
  predicate Announced(log: seq<Entry>, n: string) {
    Emitted(EvStepStarted(n), false) in log || Emitted(EvStepStarted(n), true) in log
  }

  /** EvDone says "satisfied" exactly when the step is done without a call of Run. */
  predicate Truthful(log: seq<Entry>, e: Entry) {
    e.Emitted? && e.event.EvDone? ==> (e.event.satisfied <==> Runs(log, e.event.step) == 0)
  }

  /** The step is somewhere in its attempts. */
  predicate Attempting(pc: Pc) {
    pc.Try? || pc.Tried? || pc.Rest? || pc.Recheck?
  }

  lemma AnnouncedFirst<W>(env: Env<W>, m: Meta, pc: Pc, sys: Sys<W>)
    requires Attempting(pc) ==> Announced(sys.log, m.name)
    ensures var (pc', sys') := Act(env, m, pc, sys); Attempting(pc') ==> Announced(sys'.log, m.name)
  {
    ActWrites(env, m, pc, sys);
    var (pc', sys') := Act(env, m, pc, sys);
    if pc.Announce? {
      assert sys'.log[|sys.log|] in sys'.log;
    }
  }

  lemma VerdictsAppend(log: seq<Entry>, e: Entry, n: string)
    ensures Verdicts(log + [e], n) == Verdicts(log, n) + VerdictIn(e, n)
    ensures Runs(log + [e], n) == Runs(log, n) + if IsRun(e, n) then 1 else 0
  {
    assert (log + [e])[..|log|] == log;
  }

  /** Every action writes at most one entry, about its own step. */
  lemma ActWrites<W>(env: Env<W>, m: Meta, pc: Pc, sys: Sys<W>)
    ensures var (_, sys') := Act(env, m, pc, sys);
            && sys.clock <= sys'.clock
            && (sys'.log == sys.log || exists e :: sys'.log == sys.log + [e] && About(e, m.name))
  {
    var (pc', sys') := Act(env, m, pc, sys);
    if sys'.log != sys.log {
      var e := sys'.log[|sys.log|];
      assert sys'.log == sys.log + [e];
    }
  }

  lemma OthersUntouched<W>(env: Env<W>, m: Meta, pc: Pc, sys: Sys<W>, n: string)
    requires n != m.name
    ensures var log' := Act(env, m, pc, sys).1.log;
            Verdicts(log', n) == Verdicts(sys.log, n) && Runs(log', n) == Runs(sys.log, n)
  {
    ActWrites(env, m, pc, sys);
    var log' := Act(env, m, pc, sys).1.log;
    if log' != sys.log {
      var e :| log' == sys.log + [e] && About(e, m.name);
      VerdictsAppend(sys.log, e, n);
    }
  }

  // ---------------------------------------------------------------- one step's bookkeeping

  /** The verdicts and calls that fit the program counter. */
  predicate Fits(m: Meta, pc: Pc, verdicts: seq<StepState>, runs: nat, cancelled: bool) {
    match pc
    case Over(st) =>
      && runs <= Attempts(m)
      && (verdicts == [st] || (st == Failed && verdicts == [] && cancelled))
      && (verdicts == [Failed] ==> !m.optional)
    case Wrap(_) => verdicts == [] && 0 < runs <= Attempts(m)
    case Tried(i, _) => verdicts == [] && runs == i + 1 && i < Attempts(m)
    case Rest(i) => verdicts == [] && runs == i && 0 < i < Attempts(m)
    case Recheck(i) => verdicts == [] && runs == i && 0 < i < Attempts(m)
    case Try(i) => verdicts == [] && runs == i && i < Attempts(m)
    case _ => verdicts == [] && runs == 0
  }

  /** What the log says about a step whose program counter is `pc`. */
  ghost predicate Kept<W>(env: Env<W>, m: Meta, pc: Pc, sys: Sys<W>) {
    Fits(m, pc, Verdicts(sys.log, m.name), Runs(sys.log, m.name), env.cancelled(sys.clock))
  }

  /** What an entry written by an action means for the step itself. */
  lemma EntryMeaning<W>(env: Env<W>, m: Meta, pc: Pc, sys: Sys<W>, e: Entry)
    requires Act(env, m, pc, sys).1.log == sys.log + [e]
    ensures var pc' := Act(env, m, pc, sys).0;
            && VerdictIn(e, m.name) == (if pc'.Over? && !pc.Over? && !pc.Enter? then [pc'.state] else [])
            && (IsRun(e, m.name) <==> pc.Try?)
  {
    var sys' := Act(env, m, pc, sys).1;
    assert sys'.log[|sys.log|] == e;
    assert |sys'.log| == |sys.log| + 1;
  }

  lemma WritesTruth<W>(env: Env<W>, m: Meta, pc: Pc, sys: Sys<W>, e: Entry)
    requires Kept(env, m, pc, sys) && Act(env, m, pc, sys).1.log == sys.log + [e]
    ensures Truthful(sys.log, e)
  {
    var log' := Act(env, m, pc, sys).1.log;
    assert log'[|sys.log|] == e && |log'| == |sys.log| + 1;
  }

  /** What an action adds to the step's own verdicts and calls. */
  lemma ActAdds<W>(env: Env<W>, m: Meta, pc: Pc, sys: Sys<W>)
    ensures var (pc', sys') := Act(env, m, pc, sys);
            && Verdicts(sys'.log, m.name) == Verdicts(sys.log, m.name)
                 + (if pc'.Over? && !pc.Over? && !pc.Enter? then [pc'.state] else [])
            && Runs(sys'.log, m.name) == Runs(sys.log, m.name) + if pc.Try? then 1 else 0
  {
    ActWrites(env, m, pc, sys);
    var (pc', sys') := Act(env, m, pc, sys);
    if sys'.log != sys.log {
      var e :| sys'.log == sys.log + [e];
      VerdictsAppend(sys.log, e, m.name);
      EntryMeaning(env, m, pc, sys, e);
    } else {
      SilentAction(env, m, pc, sys);
    }
  }

  lemma SilentAction<W>(env: Env<W>, m: Meta, pc: Pc, sys: Sys<W>)
    requires Act(env, m, pc, sys).1.log == sys.log
    ensures !pc.Try? && (Act(env, m, pc, sys).0.Over? ==> pc.Over? || pc.Enter?)
  {
    assert forall e :: |sys.log + [e]| == |sys.log| + 1;
  }

  /** Where an action can lead. */
  predicate Follows(m: Meta, pc: Pc, pc': Pc, cancelled: bool) {
    match pc
    case Idle => pc' == Idle
    case Over(_) => pc' == pc
    case Enter => pc' == Begin || (pc' == Over(Failed) && cancelled)
    case Begin => pc'.Judge? || pc'.Announce?
    case Judge(_) => pc'.Announce? || Settles(m, pc')
    case Announce => pc' == Try(0)
    case Try(i) => pc'.Tried? && pc'.attempt == i
    case Tried(i, _) => pc'.Wrap? || (pc' == Rest(i + 1) && i + 1 < Attempts(m))
    case Rest(i) => pc'.Wrap? || pc' == Recheck(i)
    case Recheck(i) => pc'.Wrap? || pc' == Try(i)
    case Wrap(_) => Settles(m, pc')
  }

  predicate Settles(m: Meta, pc: Pc) {
    pc.Over? && (pc.state == Failed ==> !m.optional)
  }

  lemma ActFollows<W>(env: Env<W>, m: Meta, pc: Pc, sys: Sys<W>)
    ensures Follows(m, pc, Act(env, m, pc, sys).0, env.cancelled(sys.clock))
  {
  }

  lemma FitsStep(m: Meta, pc: Pc, pc': Pc, verdicts: seq<StepState>, runs: nat, cancelled: bool, cancelled': bool)
    requires Fits(m, pc, verdicts, runs, cancelled) && Follows(m, pc, pc', cancelled)
    requires cancelled ==> cancelled'
    ensures Fits(m, pc', verdicts + (if pc'.Over? && !pc.Over? && !pc.Enter? then [pc'.state] else []),
                 runs + (if pc.Try? then 1 else 0), cancelled')
  {
    var none: seq<StepState> := [];
    assert verdicts + none == verdicts;
    assert pc'.Over? ==> none + [pc'.state] == [pc'.state];
  }

  lemma KeptStep<W>(env: Env<W>, m: Meta, pc: Pc, sys: Sys<W>)
    requires Monotone(env) && Kept(env, m, pc, sys)
    ensures var (pc', sys') := Act(env, m, pc, sys); Kept(env, m, pc', sys')
  {
    ActAdds(env, m, pc, sys);
    ActWrites(env, m, pc, sys);
    ActFollows(env, m, pc, sys);
    var (pc', sys') := Act(env, m, pc, sys);
    FitsStep(m, pc, pc', Verdicts(sys.log, m.name), Runs(sys.log, m.name),
             env.cancelled(sys.clock), env.cancelled(sys'.clock));
  }

  /** The attempt number is in range. */
  predicate InRange(m: Meta, pc: Pc) {
    Attempting(pc) ==> pc.attempt < Attempts(m)
  }

  /** Every action brings the step closer to its end. */
  lemma RankDecreases<W>(env: Env<W>, m: Meta, pc: Pc, sys: Sys<W>)
    requires InRange(m, pc) && !pc.Idle? && !pc.Over?
    ensures 0 <= Rank(m, Act(env, m, pc, sys).0) < Rank(m, pc)
    ensures !Act(env, m, pc, sys).0.Idle?
  {
  }

  lemma KeptByOthers<W>(env: Env<W>, m: Meta, pc: Pc, sys: Sys<W>, sys': Sys<W>)
    requires Monotone(env) && Kept(env, m, pc, sys) && sys.clock <= sys'.clock
    requires Verdicts(sys'.log, m.name) == Verdicts(sys.log, m.name)
    requires Runs(sys'.log, m.name) == Runs(sys.log, m.name)
    ensures Kept(env, m, pc, sys')
  {
  }

  // ---------------------------------------------------------------- fixed outcomes

  /** The answers depend on the step and the attempt only: those of world `w0`. */
  ghost predicate Fixed<W(!new)>(env: Env<W>, w0: W) {
    && (forall n, i, w, t :: env.check(n, i, w, t) == env.check(n, i, w0, 0))
    && (forall n, i, w, t :: env.succeeds(n, i, w, t) == env.succeeds(n, i, w0, 0))
  }

  /** Some attempt succeeds, or the Check before a repeated attempt is satisfied. */
  ghost predicate Achieves<W>(env: Env<W>, w0: W, m: Meta) {
    exists i: nat :: i < Attempts(m)
      && (env.succeeds(m.name, i, w0, 0) || (i > 0 && env.check(m.name, i, w0, 0) == Satisfied))
  }

  /** The verdict on a step that is not blocked by a failed dependency. */
  ghost function Verdict<W>(env: Env<W>, w0: W, m: Meta): StepState {
    var first := env.check(m.name, 0, w0, 0);
    if m.kind != Handoff && first == Satisfied then Done
    else if (m.kind == Handoff || first == Unsatisfied) && Achieves(env, w0, m) then Done
    else if m.optional then Skipped else Failed
  }

  /** Its Run is called: nothing satisfied the Check, or there is no Check. */
  predicate NeedsRun<W>(env: Env<W>, w0: W, m: Meta) {
    m.kind == Handoff || env.check(m.name, 0, w0, 0) == Unsatisfied
  }

  ghost predicate NothingBefore<W>(env: Env<W>, w0: W, m: Meta, runs: nat, checks: nat) {
    && (forall j: nat :: j < runs ==> !env.succeeds(m.name, j, w0, 0))
    && (forall j: nat :: 0 < j < checks ==> env.check(m.name, j, w0, 0) != Satisfied)
  }

  /** Where a step with fixed outcomes can be. */
  ghost predicate OnTrack<W>(env: Env<W>, w0: W, m: Meta, pc: Pc, sys: Sys<W>) {
    var runs := Runs(sys.log, m.name);
    match pc
    case Judge(a) => a == env.check(m.name, 0, w0, 0) && m.kind != Handoff
    case Announce => NeedsRun(env, w0, m)
    case Try(i) => NeedsRun(env, w0, m) && NothingBefore(env, w0, m, i, i + 1)
    case Tried(i, ok) => NeedsRun(env, w0, m) && NothingBefore(env, w0, m, i, i + 1)
                         && ok == env.succeeds(m.name, i, w0, 0)
    case Rest(i) => NeedsRun(env, w0, m) && NothingBefore(env, w0, m, i, i) && i > 0
    case Recheck(i) => NeedsRun(env, w0, m) && NothingBefore(env, w0, m, i, i) && i > 0
    case Wrap(ok) => NeedsRun(env, w0, m) && ok == Achieves(env, w0, m) && runs > 0
    case Over(_) => true
    case _ => true
  }

  /** A settled step that was not blocked has the verdict of its outcomes. */
  ghost predicate Judged<W>(env: Env<W>, w0: W, m: Meta, pc: Pc, sys: Sys<W>) {
    pc.Over? ==> pc.state == Verdict(env, w0, m) && (Runs(sys.log, m.name) > 0 <==> NeedsRun(env, w0, m))
  }

  lemma OnTrackStep<W(!new)>(env: Env<W>, w0: W, m: Meta, pc: Pc, sys: Sys<W>)
    requires Monotone(env) && Alive(env, sys) && Fixed(env, w0)
    requires !pc.Idle? && !pc.Over? && Kept(env, m, pc, sys) && OnTrack(env, w0, m, pc, sys)
    ensures var (pc', sys') := Act(env, m, pc, sys);
            OnTrack(env, w0, m, pc', sys') && Judged(env, w0, m, pc', sys')
  {
    if Attempting(pc) {
      AttemptOnTrack(env, w0, m, pc, sys);
    } else {
      ActAdds(env, m, pc, sys);
    }
  }

  /** An attempt, or the Check before it, that succeeds. */
  lemma AchievedAt<W>(env: Env<W>, w0: W, m: Meta, i: nat)
    requires i < Attempts(m)
    requires env.succeeds(m.name, i, w0, 0) || (i > 0 && env.check(m.name, i, w0, 0) == Satisfied)
    ensures Achieves(env, w0, m)
  {
  }

  /** All attempts used up without success. */
  lemma NeverAchieved<W>(env: Env<W>, w0: W, m: Meta)
    requires NothingBefore(env, w0, m, Attempts(m), Attempts(m))
    ensures !Achieves(env, w0, m)
  {
  }

  lemma TriedOnTrack<W(!new)>(env: Env<W>, w0: W, m: Meta, pc: Pc, sys: Sys<W>)
    requires Alive(env, sys) && pc.Tried? && Kept(env, m, pc, sys) && OnTrack(env, w0, m, pc, sys)
    ensures var (pc', sys') := Act(env, m, pc, sys);
            OnTrack(env, w0, m, pc', sys') && !pc'.Over?
  {
    ActAdds(env, m, pc, sys);
    var i := pc.attempt;
    if pc.ok {
      AchievedAt(env, w0, m, i);
    } else {
      assert NothingBefore(env, w0, m, i + 1, i + 1);
      if i + 1 == Attempts(m) {
        NeverAchieved(env, w0, m);
      }
    }
  }

  lemma RecheckOnTrack<W(!new)>(env: Env<W>, w0: W, m: Meta, pc: Pc, sys: Sys<W>)
    requires Fixed(env, w0) && pc.Recheck? && Kept(env, m, pc, sys) && OnTrack(env, w0, m, pc, sys)
    ensures var (pc', sys') := Act(env, m, pc, sys);
            OnTrack(env, w0, m, pc', sys') && !pc'.Over?
  {
    ActAdds(env, m, pc, sys);
    var i := pc.attempt;
    if env.check(m.name, i, w0, 0) == Satisfied {
      AchievedAt(env, w0, m, i);
    } else {
      assert NothingBefore(env, w0, m, i, i + 1);
    }
  }

  lemma AttemptOnTrack<W(!new)>(env: Env<W>, w0: W, m: Meta, pc: Pc, sys: Sys<W>)
    requires Monotone(env) && Alive(env, sys) && Fixed(env, w0)
    requires Attempting(pc) && Kept(env, m, pc, sys) && OnTrack(env, w0, m, pc, sys)
    ensures var (pc', sys') := Act(env, m, pc, sys);
            OnTrack(env, w0, m, pc', sys') && !pc'.Over?
  {
    if pc.Tried? {
      TriedOnTrack(env, w0, m, pc, sys);
    } else if pc.Recheck? {
      RecheckOnTrack(env, w0, m, pc, sys);
    } else {
      ActAdds(env, m, pc, sys);
    }
  }

  // ---------------------------------------------------------------- how often Run is called

  /** The Runs from attempt i on, when the attempts before it did not succeed. */
  function RunsFrom<W>(env: Env<W>, w0: W, m: Meta, i: nat): (n: nat)
    ensures i == 0 ==> n > 0
    decreases Attempts(m) - i
  {
    if i >= Attempts(m) || (i > 0 && env.check(m.name, i, w0, 0) == Satisfied) then 0
    else 1 + if env.succeeds(m.name, i, w0, 0) then 0 else RunsFrom(env, w0, m, i + 1)
  }

  /** Two environments answer the calls of one step alike. */
  ghost predicate SameAnswers<W>(env: Env<W>, env': Env<W>, w0: W, n: string) {
    && (forall i :: env'.check(n, i, w0, 0) == env.check(n, i, w0, 0))
    && (forall i :: env'.succeeds(n, i, w0, 0) == env.succeeds(n, i, w0, 0))
  }

  /** Only the answers and the number of attempts matter. */
  lemma {:induction false} SameRunsFrom<W>(env: Env<W>, env': Env<W>, w0: W, m: Meta, m': Meta, i: nat)
    requires m'.name == m.name && m'.attempts == m.attempts && SameAnswers(env, env', w0, m.name)
    ensures RunsFrom(env', w0, m', i) == RunsFrom(env, w0, m, i)
    decreases Attempts(m) - i
  {
    if i < Attempts(m) {
      SameRunsFrom(env, env', w0, m, m', i + 1);
    }
  }

  /** The Runs of a step that is not blocked. */
  function RunsInAll<W>(env: Env<W>, w0: W, m: Meta): nat {
    if NeedsRun(env, w0, m) then RunsFrom(env, w0, m, 0) else 0
  }

  /** The Runs that are still to come. */
  function RunsLeft<W>(env: Env<W>, w0: W, m: Meta, pc: Pc): nat {
    match pc
    case Announce => RunsFrom(env, w0, m, 0)
    case Try(i) => 1 + if env.succeeds(m.name, i, w0, 0) then 0 else RunsFrom(env, w0, m, i + 1)
    case Tried(i, ok) => if ok then 0 else RunsFrom(env, w0, m, i + 1)
    case Rest(i) => RunsFrom(env, w0, m, i)
    case Recheck(i) => RunsFrom(env, w0, m, i)
    case Wrap(_) => 0
    case Over(_) => 0
    case _ => RunsInAll(env, w0, m)
  }

  /** With fixed outcomes every call of Run is one of those still to come. */
  lemma RunsLeftStep<W(!new)>(env: Env<W>, w0: W, m: Meta, pc: Pc, sys: Sys<W>)
    requires Alive(env, sys) && Fixed(env, w0)
    requires Kept(env, m, pc, sys) && OnTrack(env, w0, m, pc, sys)
    ensures RunsLeft(env, w0, m, Act(env, m, pc, sys).0) + (if pc.Try? then 1 else 0) == RunsLeft(env, w0, m, pc)
  {
  }

  // ---------------------------------------------------------------- idempotent steps

  ghost predicate Sat<W>(env: Env<W>, n: string, w: W) {
    forall i, t :: env.check(n, i, w, t) == Satisfied
  }

  /**
   The contract of the steps: a Check reads the world and nothing else, a successful Run of
   a step that is not a hand-off makes its own Check true, and no Run falsifies the Check
   of another step.
   */
  ghost predicate Idempotent<W(!new)>(env: Env<W>, steps: seq<Meta>) {
    && (forall m, i, w, t :: m in steps && env.check(m.name, i, w, t) == Satisfied ==> Sat(env, m.name, w))
    && (forall m, i, w, t :: m in steps && m.kind != Handoff && env.succeeds(m.name, i, w, t) ==>
          Sat(env, m.name, env.effect(m.name, i, w, t)))
    && (forall m, o, i, w, t :: m in steps && o in steps && m.name != o.name && Sat(env, o.name, w) ==>
          Sat(env, o.name, env.effect(m.name, i, w, t)))
  }

  /** A step that ended done, or is about to, satisfies its Check. */
  ghost predicate Holds<W>(env: Env<W>, m: Meta, pc: Pc, w: W) {
    m.kind != Handoff && (pc in {Over(Done), Wrap(true), Judge(Satisfied)} || (pc.Tried? && pc.ok))
    ==> Sat(env, m.name, w)
  }

  lemma HoldsStep<W(!new)>(env: Env<W>, steps: seq<Meta>, m: Meta, pc: Pc, sys: Sys<W>)
    requires Idempotent(env, steps) && m in steps && Holds(env, m, pc, sys.world)
    ensures var (pc', sys') := Act(env, m, pc, sys); Holds(env, m, pc', sys'.world)
  {
  }

  /** A step whose Check holds before it starts is never run. */
  ghost predicate Untouched<W>(env: Env<W>, m: Meta, pc: Pc, sys: Sys<W>) {
    m.kind != Handoff ==>
      && Sat(env, m.name, sys.world)
      && Runs(sys.log, m.name) == 0
      && (pc.Idle? || pc.Enter? || pc.Begin? || pc == Judge(Satisfied) || pc.Over?)
  }

  lemma UntouchedStep<W>(env: Env<W>, m: Meta, pc: Pc, sys: Sys<W>)
    requires Untouched(env, m, pc, sys)
    ensures var (pc', sys') := Act(env, m, pc, sys); Untouched(env, m, pc', sys')
  {
    ActAdds(env, m, pc, sys);
  }
}
