/**
 What every run of a pipeline keeps, over all its steps at once: `pcs[k]` is the program
 counter of the k-th step.  The scheduler's moves are: let a step act, release a step whose
 dependencies allow it, and skip a step whose dependency failed.
 */
module Schedule {
  import opened Options
  import opened Commands
  import opened Steps
  import opened Calls

  // ---------------------------------------------------------------- lists that New accepts

  ghost predicate Earlier(steps: seq<Meta>, k: nat, d: string)
    requires k <= |steps|
  {
    exists j :: 0 <= j < k && steps[j].name == d
  }

  ghost predicate WellFormed(steps: seq<Meta>) {
    && (forall k :: 0 <= k < |steps| ==> steps[k].name != "")
    && (forall j, k :: 0 <= j < k < |steps| ==> steps[j].name != steps[k].name)
    && (forall k, d {:trigger Earlier(steps, k, d)} :: 0 <= k < |steps| && d in steps[k].deps ==> Earlier(steps, k, d))
  }

  // ---------------------------------------------------------------- reference outcome

  /**
   The state of the k-th step when all outcomes are fixed, one step after the other:
   a failed direct dependency skips the step, otherwise its own outcomes decide.
   Parallel plays no part.
   */
  ghost function Final<W>(env: Env<W>, w0: W, steps: seq<Meta>, k: nat): StepState
    requires k < |steps|
    decreases k, 1
  {
    if Blocked(env, w0, steps, k) then Skipped else Verdict(env, w0, steps[k])
  }

  ghost predicate Blocked<W>(env: Env<W>, w0: W, steps: seq<Meta>, k: nat)
    requires k < |steps|
    decreases k, 0
  {
    exists j :: 0 <= j < k && steps[j].name in steps[k].deps && Final(env, w0, steps, j) == Failed
  }

  ghost predicate CallsRun<W>(env: Env<W>, w0: W, steps: seq<Meta>, k: nat)
    requires k < |steps|
  {
    !Blocked(env, w0, steps, k) && NeedsRun(env, w0, steps[k])
  }

  /** How often the reference calls Run of the k-th step. */
  ghost function RunCount<W>(env: Env<W>, w0: W, steps: seq<Meta>, k: nat): nat
    requires k < |steps|
  {
    if Blocked(env, w0, steps, k) then 0 else RunsInAll(env, w0, steps[k])
  }

  // ---------------------------------------------------------------- the invariant

  /** Whenever a Check or a Run started, the dependencies of its step had settled unfailed,
      and a Run had been announced. */
  ghost predicate Guarded(steps: seq<Meta>, log: seq<Entry>) {
    forall p, k :: 0 <= p < |log| && 0 <= k < |steps| && Starts(log[p]) && log[p].name == steps[k].name ==>
      DepsSettled(log[..p], steps[k]) && (log[p].Ran? ==> Announced(log[..p], steps[k].name))
  }

  /** Every EvDone told the truth about the calls before it. */
  ghost predicate AllTruthful(log: seq<Entry>) {
    forall p {:trigger Truthful(log[..p], log[p])} :: 0 <= p < |log| ==> Truthful(log[..p], log[p])
  }

  predicate Ends(e: Entry) {
    e.Emitted? && e.event.EvPipelineDone?
  }

  /** The pipeline has not reported its end, and before cancellation no event is lost. */
  ghost predicate Quiet<W>(env: Env<W>, sys: Sys<W>) {
    && (forall e :: e in sys.log ==> !Ends(e))
    && (Alive(env, sys) ==> forall e :: e in sys.log && e.Emitted? ==> !e.lost)
  }

  /** Every entry bears the tick at which it was written. */
  ghost predicate Stamped<W>(sys: Sys<W>) {
    |sys.stamps| == |sys.log| && forall p :: 0 <= p < |sys.stamps| ==> sys.stamps[p] < sys.clock
  }

  /** The sleep before a repeated attempt may end at tick t. */
  predicate WakesAt<W>(env: Env<W>, t: nat) {
    !env.cancelled(t) || env.wakes(t)
  }

  predicate AliveAt<W>(env: Env<W>, t: nat) {
    !env.cancelled(t)
  }

  /** Between the two ticks the context was found alive ... */
  ghost predicate Polled<W>(env: Env<W>, since: nat, until: nat) {
    exists t: nat {:trigger AliveAt(env, t)} :: since < t < until && AliveAt(env, t)
  }

  /** ... and then a sleep has ended. */
  ghost predicate Slept<W>(env: Env<W>, since: nat, until: nat) {
    exists t: nat {:trigger WakesAt(env, t)} :: t < until && Polled(env, since, t) && WakesAt(env, t)
  }

  /** This has happened since every Run of the named step. */
  ghost predicate Rested<W>(env: Env<W>, sys: Sys<W>, n: string, slept: bool) {
    forall p :: 0 <= p < |sys.log| && p < |sys.stamps| && IsRun(sys.log[p], n) ==>
      if slept then Slept(env, sys.stamps[p], sys.clock) else Polled(env, sys.stamps[p], sys.clock)
  }

  /** After a Run the step looks at the context before it sleeps, and sleeps before it goes on. */
  ghost predicate Spent<W>(env: Env<W>, m: Meta, pc: Pc, sys: Sys<W>) {
    pc.Tried? || pc.Wrap? || pc.Over? || Rested(env, sys, m.name, !pc.Rest?)
  }

  ghost predicate NoRetry<W>(env: Env<W>, sys: Sys<W>) {
    && |sys.stamps| == |sys.log|
    && forall q {:trigger MayCall(env, sys, q)} :: 0 <= q < |sys.log| ==> MayCall(env, sys, q)
  }

  /** A call follows an earlier Run of its step only when, in between, the context was found
      alive and then a sleep has ended. */
  ghost predicate MayCall<W>(env: Env<W>, sys: Sys<W>, q: nat)
    requires |sys.stamps| == |sys.log| && q < |sys.log|
  {
    Starts(sys.log[q]) ==> forall p :: 0 <= p < q && IsRun(sys.log[p], sys.log[q].name) ==>
      Slept(env, sys.stamps[p], sys.stamps[q])
  }

  ghost predicate AllSpent<W>(env: Env<W>, steps: seq<Meta>, pcs: seq<Pc>, sys: Sys<W>)
    requires |pcs| == |steps|
  {
    && NoRetry(env, sys)
    && forall k {:trigger Spent(env, steps[k], pcs[k], sys)} :: 0 <= k < |steps| ==> Spent(env, steps[k], pcs[k], sys)
  }

  predicate Busy(pc: Pc) {
    !pc.Idle? && !pc.Over?
  }

  ghost predicate StepOk<W>(env: Env<W>, m: Meta, pc: Pc, sys: Sys<W>) {
    && Kept(env, m, pc, sys)
    && (Busy(pc) ==> DepsSettled(sys.log, m))
    && (Attempting(pc) ==> Announced(sys.log, m.name))
  }

  ghost predicate Ledger<W>(env: Env<W>, steps: seq<Meta>, pcs: seq<Pc>, sys: Sys<W>) {
    && WellFormed(steps) && Monotone(env) && |pcs| == |steps|
    && (forall k {:trigger StepOk(env, steps[k], pcs[k], sys)} :: 0 <= k < |steps| ==> StepOk(env, steps[k], pcs[k], sys))
    && Guarded(steps, sys.log)
    && AllTruthful(sys.log)
    && Quiet(env, sys)
    && Stamped(sys)
    && AllSpent(env, steps, pcs, sys)
  }

  /** With fixed outcomes every step is on the way to its reference outcome. */
  ghost predicate Tracked<W>(env: Env<W>, w0: W, steps: seq<Meta>, pcs: seq<Pc>, sys: Sys<W>)
    requires |pcs| == |steps|
  {
    forall k :: 0 <= k < |steps| ==> TrackedAt(env, w0, steps, k, pcs[k], sys)
  }

  ghost predicate TrackedAt<W>(env: Env<W>, w0: W, steps: seq<Meta>, k: nat, pc: Pc, sys: Sys<W>)
    requires k < |steps|
  {
    && OnTrack(env, w0, steps[k], pc, sys)
    && (pc.Over? ==> pc.state == Final(env, w0, steps, k)
                     && (Runs(sys.log, steps[k].name) > 0 <==> CallsRun(env, w0, steps, k)))
  }

  /** ... and has called Run as often as its place says. */
  ghost predicate Metered<W>(env: Env<W>, w0: W, steps: seq<Meta>, pcs: seq<Pc>, sys: Sys<W>)
    requires |pcs| == |steps|
  {
    forall k :: 0 <= k < |steps| ==> MeterOk(env, w0, steps, k, pcs[k], Runs(sys.log, steps[k].name))
  }

  ghost predicate MeterOk<W>(env: Env<W>, w0: W, steps: seq<Meta>, k: nat, pc: Pc, runs: nat)
    requires k < |steps|
  {
    if pc.Over? then runs == RunCount(env, w0, steps, k)
    else runs + RunsLeft(env, w0, steps[k], pc) == RunsInAll(env, w0, steps[k])
  }

  /** Some direct dependency failed. */
  ghost predicate BehindFailed(log: seq<Entry>, m: Meta) {
    exists d :: d in m.deps && Verdicts(log, d) == [Failed]
  }

  /** The step is where its answers led it.  It made a call only after its dependencies; without
      a call it was skipped behind a failed one, or turned away by a done context. */
  ghost predicate ToldOk(m: Meta, pc: Pc, log: seq<Entry>, done: bool) {
    var calls := CallsOf(log, m.name);
    && Told(m, pc, calls, done)
    && (calls != [] ==> DepsSettled(log, m))
    && (pc.Over? && calls == [] && pc.state == Skipped ==> BehindFailed(log, m))
    && (pc.Over? ==> Verdicts(log, m.name) == if calls == [] && pc.state == Failed then [] else [pc.state])
  }

  ghost predicate AllTold(steps: seq<Meta>, pcs: seq<Pc>, log: seq<Entry>, done: bool)
    requires |pcs| == |steps|
  {
    forall k {:trigger ToldOk(steps[k], pcs[k], log, done)} :: 0 <= k < |steps| ==> ToldOk(steps[k], pcs[k], log, done)
  }

  ghost predicate AllHold<W>(env: Env<W>, steps: seq<Meta>, pcs: seq<Pc>, sys: Sys<W>)
    requires |pcs| == |steps|
  {
    forall k :: 0 <= k < |steps| ==> Holds(env, steps[k], pcs[k], sys.world)
  }

  ghost predicate AllUntouched<W>(env: Env<W>, steps: seq<Meta>, pcs: seq<Pc>, sys: Sys<W>)
    requires |pcs| == |steps|
  {
    forall k :: 0 <= k < |steps| ==> Untouched(env, steps[k], pcs[k], sys)
  }

  /** Every step that is not a hand-off satisfies its Check. */
  ghost predicate AllSat<W>(env: Env<W>, steps: seq<Meta>, w: W) {
    forall k :: 0 <= k < |steps| && steps[k].kind != Handoff ==> Sat(env, steps[k].name, w)
  }

  /** The world only changes when some step's Run was called. */
  ghost predicate Moved<W>(w0: W, steps: seq<Meta>, sys: Sys<W>) {
    sys.world == w0 || exists k :: 0 <= k < |steps| && Runs(sys.log, steps[k].name) > 0
  }

  ghost predicate Inv<W(!new)>(env: Env<W>, w0: W, steps: seq<Meta>, pcs: seq<Pc>, sys: Sys<W>) {
    && Ledger(env, steps, pcs, sys)
    && Moved(w0, steps, sys)
    && AllTold(steps, pcs, sys.log, !Alive(env, sys))
    && (Alive(env, sys) && Fixed(env, w0) ==> Tracked(env, w0, steps, pcs, sys) && Metered(env, w0, steps, pcs, sys))
    && (Idempotent(env, steps) ==> AllHold(env, steps, pcs, sys))
    && (Idempotent(env, steps) && AllSat(env, steps, w0) ==> AllUntouched(env, steps, pcs, sys))
  }

  function Start<W>(clock: nat, w0: W): Sys<W> {
    Sys(clock, w0, [], [])
  }

  lemma InvStart<W(!new)>(env: Env<W>, w0: W, steps: seq<Meta>, pcs: seq<Pc>, clock: nat)
    requires WellFormed(steps) && Monotone(env) && |pcs| == |steps|
    requires forall k :: 0 <= k < |pcs| ==> pcs[k] == Idle
    ensures Inv(env, w0, steps, pcs, Start(clock, w0))
  {
  }

  // ---------------------------------------------------------------- what the moves keep

  /** A verdict on a step that had none leaves what was said about the dependencies of any
      step that is still to be judged. */
  lemma DepsStay(log: seq<Entry>, log': seq<Entry>, name: string, m: Meta)
    requires Verdicts(log, name) == [] && DepsSettled(log, m)
    requires forall n :: n != name ==> Verdicts(log', n) == Verdicts(log, n)
    ensures DepsSettled(log', m)
  {
  }

  lemma Unsettled<W>(env: Env<W>, steps: seq<Meta>, pcs: seq<Pc>, sys: Sys<W>, k: nat)
    requires Ledger(env, steps, pcs, sys) && k < |steps| && !pcs[k].Over?
    ensures Verdicts(sys.log, steps[k].name) == []
  {
    assert StepOk(env, steps[k], pcs[k], sys);
  }

  /** Appending an entry keeps earlier starts guarded; a new start needs its own guard. */
  lemma GuardedAppend(steps: seq<Meta>, log: seq<Entry>, e: Entry, k: nat)
    requires WellFormed(steps) && Guarded(steps, log) && k < |steps|
    requires Starts(e) ==> e.name == steps[k].name && DepsSettled(log, steps[k])
    requires e.Ran? ==> Announced(log, e.name)
    ensures Guarded(steps, log + [e])
  {
    var log' := log + [e];
    forall p, j | 0 <= p < |log'| && 0 <= j < |steps| && Starts(log'[p]) && log'[p].name == steps[j].name
      ensures DepsSettled(log'[..p], steps[j]) && (log'[p].Ran? ==> Announced(log'[..p], steps[j].name))
    {
      if p < |log| {
        assert log'[..p] == log[..p] && log'[p] == log[p];
      } else {
        assert log'[..p] == log;
        assert j == k;
      }
    }
  }

  lemma TruthfulAppend(log: seq<Entry>, e: Entry)
    requires AllTruthful(log) && Truthful(log, e)
    ensures AllTruthful(log + [e])
  {
    var log' := log + [e];
    forall p | 0 <= p < |log'| ensures Truthful(log'[..p], log'[p]) {
      assert log'[..p] == log[..p];
      assert p < |log| ==> Truthful(log[..p], log[p]);
      assert log[..|log|] == log;
    }
  }

  lemma StampedStep<W>(env: Env<W>, m: Meta, pc: Pc, sys: Sys<W>)
    requires Stamped(sys)
    ensures Stamped(Act(env, m, pc, sys).1) && sys.stamps <= Act(env, m, pc, sys).1.stamps
  {
  }

  /** At most one new call, of a step that has rested. */
  lemma NoRetryGrows<W>(env: Env<W>, sys: Sys<W>, sys': Sys<W>)
    requires NoRetry(env, sys) && sys.log <= sys'.log
    requires |sys'.stamps| == |sys'.log| && sys.stamps <= sys'.stamps
    requires forall p :: |sys.log| <= p < |sys'.log| && Starts(sys'.log[p]) ==>
               p == |sys.log| && sys'.stamps[p] == sys.clock && Rested(env, sys, sys'.log[p].name, true)
    ensures NoRetry(env, sys')
  {
    forall q | 0 <= q < |sys'.log| ensures MayCall(env, sys', q) {
      if q < |sys.log| {
        assert MayCall(env, sys, q);
      }
    }
  }

  lemma RestedLater<W>(env: Env<W>, sys: Sys<W>, sys': Sys<W>, n: string, slept: bool)
    requires Rested(env, sys, n, slept) && sys.clock <= sys'.clock
    requires sys.log <= sys'.log && sys.stamps <= sys'.stamps && |sys.stamps| == |sys.log|
    requires forall p :: |sys.log| <= p < |sys'.log| ==> !IsRun(sys'.log[p], n)
    ensures Rested(env, sys', n, slept)
  {
    forall p | 0 <= p < |sys'.log| && p < |sys'.stamps| && IsRun(sys'.log[p], n)
      ensures sys'.log[p] == sys.log[p] && sys'.stamps[p] == sys.stamps[p]
    {
    }
  }

  /** The look at the context, and the end of the sleep, are later than every Run so far. */
  lemma RestedNow<W>(env: Env<W>, m: Meta, pc: Pc, sys: Sys<W>)
    requires Stamped(sys) && Spent(env, m, pc, sys) && (pc.Tried? || pc.Rest?)
    ensures var (pc', sys') := Act(env, m, pc, sys); Spent(env, m, pc', sys')
  {
    assert AliveAt(env, sys.clock) == !env.cancelled(sys.clock);
    assert WakesAt(env, sys.clock) == (!env.cancelled(sys.clock) || env.wakes(sys.clock));
  }

  lemma SpentAct<W>(env: Env<W>, m: Meta, pc: Pc, sys: Sys<W>)
    requires Stamped(sys) && Spent(env, m, pc, sys) && Busy(pc)
    ensures var (pc', sys') := Act(env, m, pc, sys); Spent(env, m, pc', sys')
    ensures CallBy(env, m, pc, sys) != [] ==> Rested(env, sys, m.name, true)
  {
    var (pc', sys') := Act(env, m, pc, sys);
    if pc.Tried? || pc.Rest? {
      RestedNow(env, m, pc, sys);
    } else if !pc.Try? && !pc.Wrap? {
      StampedStep(env, m, pc, sys);
      ActWrites(env, m, pc, sys);
      forall p | |sys.log| <= p < |sys'.log| ensures !IsRun(sys'.log[p], m.name) {
        assert sys'.log == sys.log + [sys'.log[p]];
        EntryMeaning(env, m, pc, sys, sys'.log[p]);
      }
      RestedLater(env, sys, sys', m.name, true);
    }
  }

  lemma SpentByOthers<W>(env: Env<W>, m: Meta, pc: Pc, sys: Sys<W>, o: Meta, opc: Pc)
    requires Stamped(sys) && Spent(env, o, opc, sys) && o.name != m.name
    ensures Spent(env, o, opc, Act(env, m, pc, sys).1)
  {
    var sys' := Act(env, m, pc, sys).1;
    StampedStep(env, m, pc, sys);
    ActWrites(env, m, pc, sys);
    if Rested(env, sys, o.name, !opc.Rest?) {
      forall p | |sys.log| <= p < |sys'.log| ensures !IsRun(sys'.log[p], o.name) {
        assert sys'.log == sys.log + [sys'.log[p]];
      }
      RestedLater(env, sys, sys', o.name, !opc.Rest?);
    }
  }

  lemma ActKeepsSpent<W>(env: Env<W>, steps: seq<Meta>, pcs: seq<Pc>, sys: Sys<W>, k: nat)
    requires Ledger(env, steps, pcs, sys) && k < |steps| && Busy(pcs[k])
    ensures var (pc', sys') := Act(env, steps[k], pcs[k], sys);
            AllSpent(env, steps, pcs[k := pc'], sys')
  {
    var m := steps[k];
    var (pc', sys') := Act(env, m, pcs[k], sys);
    assert Spent(env, m, pcs[k], sys);
    SpentAct(env, m, pcs[k], sys);
    forall j | 0 <= j < |steps| && j != k ensures Spent(env, steps[j], pcs[j], sys') {
      assert Spent(env, steps[j], pcs[j], sys);
      SpentByOthers(env, m, pcs[k], sys, steps[j], pcs[j]);
    }
    StampedStep(env, m, pcs[k], sys);
    ActWrites(env, m, pcs[k], sys);
    if sys'.log != sys.log {
      var e :| sys'.log == sys.log + [e] && About(e, m.name);
      StartsByCall(env, m, pcs[k], sys, e);
    }
    NoRetryGrows(env, sys, sys');
  }

  /** Without a call nothing changes, wherever an idle step goes. */
  lemma SpentStays<W>(env: Env<W>, steps: seq<Meta>, pcs: seq<Pc>, sys: Sys<W>, pcs': seq<Pc>, sys': Sys<W>)
    requires |pcs| == |pcs'| == |steps| && AllSpent(env, steps, pcs, sys)
    requires sys.log <= sys'.log && sys.stamps <= sys'.stamps && |sys'.stamps| == |sys'.log|
    requires forall p :: |sys.log| <= p < |sys'.log| ==> !Starts(sys'.log[p])
    requires sys.clock <= sys'.clock && forall k :: 0 <= k < |steps| ==> pcs'[k] == pcs[k] || pcs[k].Idle?
    ensures AllSpent(env, steps, pcs', sys')
  {
    forall k | 0 <= k < |steps| ensures Spent(env, steps[k], pcs'[k], sys') {
      assert Spent(env, steps[k], pcs[k], sys);
      if Rested(env, sys, steps[k].name, !pcs[k].Rest?) {
        RestedLater(env, sys, sys', steps[k].name, !pcs[k].Rest?);
      }
    }
    NoRetryGrows(env, sys, sys');
  }

  lemma StartsByCall<W>(env: Env<W>, m: Meta, pc: Pc, sys: Sys<W>, e: Entry)
    requires Act(env, m, pc, sys).1.log == sys.log + [e]
    ensures Starts(e) ==>
              CallBy(env, m, pc, sys) != [] && e.name == m.name && Act(env, m, pc, sys).1.stamps == sys.stamps + [sys.clock]
  {
    assert Act(env, m, pc, sys).1.log[|sys.log|] == e;
  }

  /** Step j after an action of step k. */
  lemma ActKeepsStep<W>(env: Env<W>, steps: seq<Meta>, pcs: seq<Pc>, sys: Sys<W>, k: nat, j: nat)
    requires Ledger(env, steps, pcs, sys) && k < |steps| && Busy(pcs[k]) && j < |steps|
    ensures var (pc', sys') := Act(env, steps[k], pcs[k], sys);
            StepOk(env, steps[j], if j == k then pc' else pcs[j], sys')
  {
    var m := steps[k];
    var (pc', sys') := Act(env, m, pcs[k], sys);
    ActWrites(env, m, pcs[k], sys);
    forall n | n != m.name
      ensures Verdicts(sys'.log, n) == Verdicts(sys.log, n) && Runs(sys'.log, n) == Runs(sys.log, n)
    {
      OthersUntouched(env, m, pcs[k], sys, n);
    }
    Unsettled(env, steps, pcs, sys, k);
    assert StepOk(env, steps[j], pcs[j], sys);
    if Busy(pcs[j]) {
      DepsStay(sys.log, sys'.log, m.name, steps[j]);
    }
    if j == k {
      KeptStep(env, m, pcs[k], sys);
      AnnouncedFirst(env, m, pcs[k], sys);
    } else {
      KeptByOthers(env, steps[j], pcs[j], sys, sys');
    }
  }

  lemma ActKeepsLedger<W>(env: Env<W>, steps: seq<Meta>, pcs: seq<Pc>, sys: Sys<W>, k: nat)
    requires Ledger(env, steps, pcs, sys) && k < |steps| && Busy(pcs[k])
    ensures var (pc', sys') := Act(env, steps[k], pcs[k], sys);
            Ledger(env, steps, pcs[k := pc'], sys')
  {
    var (pc', sys') := Act(env, steps[k], pcs[k], sys);
    var pcs' := pcs[k := pc'];
    forall j | 0 <= j < |steps| ensures StepOk(env, steps[j], pcs'[j], sys') {
      ActKeepsStep(env, steps, pcs, sys, k, j);
    }
    ActKeepsLog(env, steps, pcs, sys, k);
    StampedStep(env, steps[k], pcs[k], sys);
    ActKeepsSpent(env, steps, pcs, sys, k);
  }

  lemma ActKeepsLog<W>(env: Env<W>, steps: seq<Meta>, pcs: seq<Pc>, sys: Sys<W>, k: nat)
    requires Ledger(env, steps, pcs, sys) && k < |steps| && Busy(pcs[k])
    ensures var sys' := Act(env, steps[k], pcs[k], sys).1;
            Guarded(steps, sys'.log) && AllTruthful(sys'.log) && Quiet(env, sys')
  {
    var m := steps[k];
    var sys' := Act(env, m, pcs[k], sys).1;
    ActWrites(env, m, pcs[k], sys);
    if sys'.log != sys.log {
      var e :| sys'.log == sys.log + [e] && About(e, m.name);
      EntryMeaning(env, m, pcs[k], sys, e);
      assert StepOk(env, m, pcs[k], sys);
      GuardedAppend(steps, sys.log, e, k);
      WritesTruth(env, m, pcs[k], sys, e);
      TruthfulAppend(sys.log, e);
      WritesKept(env, m, pcs[k], sys, e);
      assert forall x :: x in sys'.log ==> x in sys.log || x == e;
    }
  }

  lemma WritesKept<W>(env: Env<W>, m: Meta, pc: Pc, sys: Sys<W>, e: Entry)
    requires Act(env, m, pc, sys).1.log == sys.log + [e]
    ensures !Ends(e) && (e.Emitted? ==> (e.lost ==> env.cancelled(sys.clock)))
  {
    var log' := Act(env, m, pc, sys).1.log;
    assert log'[|sys.log|] == e && |log'| == |sys.log| + 1;
  }

  lemma ActKeeps<W(!new)>(env: Env<W>, w0: W, steps: seq<Meta>, pcs: seq<Pc>, sys: Sys<W>, k: nat)
    requires Inv(env, w0, steps, pcs, sys) && k < |steps| && Busy(pcs[k])
    ensures var (pc', sys') := Act(env, steps[k], pcs[k], sys);
            Inv(env, w0, steps, pcs[k := pc'], sys')
  {
    var sys' := Act(env, steps[k], pcs[k], sys).1;
    ActKeepsLedger(env, steps, pcs, sys, k);
    MovedStep(env, w0, steps, pcs, sys, k);
    ActKeepsTold(env, steps, pcs, sys, k);
    if Alive(env, sys') {
      AliveBefore(env, steps[k], pcs[k], sys);
      if Fixed(env, w0) {
        ActKeepsTrack(env, w0, steps, pcs, sys, k);
        ActKeepsMeter(env, w0, steps, pcs, sys, k);
      }
    }
    if Idempotent(env, steps) {
      ActKeepsChecks(env, w0, steps, pcs, sys, k);
    }
  }

  lemma AliveBefore<W>(env: Env<W>, m: Meta, pc: Pc, sys: Sys<W>)
    requires Monotone(env) && Alive(env, Act(env, m, pc, sys).1)
    ensures Alive(env, sys)
  {
    ActWrites(env, m, pc, sys);
  }

  lemma ActKeepsChecks<W(!new)>(env: Env<W>, w0: W, steps: seq<Meta>, pcs: seq<Pc>, sys: Sys<W>, k: nat)
    requires Ledger(env, steps, pcs, sys) && k < |steps| && Idempotent(env, steps) && AllHold(env, steps, pcs, sys)
    requires AllSat(env, steps, w0) ==> AllUntouched(env, steps, pcs, sys)
    ensures var (pc', sys') := Act(env, steps[k], pcs[k], sys);
            && AllHold(env, steps, pcs[k := pc'], sys')
            && (AllSat(env, steps, w0) ==> AllUntouched(env, steps, pcs[k := pc'], sys'))
  {
    var m := steps[k];
    var (pc', sys') := Act(env, m, pcs[k], sys);
    var pcs' := pcs[k := pc'];
    forall j | 0 <= j < |steps| ensures Holds(env, steps[j], pcs'[j], sys'.world) {
      if j == k {
        HoldsStep(env, steps, m, pcs[k], sys);
      } else {
        WorldKeeps(env, steps, pcs, sys, k, j);
      }
    }
    if AllSat(env, steps, w0) {
      forall j | 0 <= j < |steps| ensures Untouched(env, steps[j], pcs'[j], sys') {
        if j == k {
          UntouchedStep(env, m, pcs[k], sys);
        } else {
          OthersUntouched(env, m, pcs[k], sys, steps[j].name);
          WorldKeeps(env, steps, pcs, sys, k, j);
        }
      }
    }
  }

  lemma RunsGrow<W>(env: Env<W>, m: Meta, pc: Pc, sys: Sys<W>, n: string)
    ensures Runs(Act(env, m, pc, sys).1.log, n) >= Runs(sys.log, n)
  {
    if n == m.name {
      ActAdds(env, m, pc, sys);
    } else {
      OthersUntouched(env, m, pc, sys, n);
    }
  }

  lemma WorldMoves<W>(env: Env<W>, m: Meta, pc: Pc, sys: Sys<W>)
    ensures Act(env, m, pc, sys).1.world != sys.world ==> Runs(Act(env, m, pc, sys).1.log, m.name) > 0
  {
    ActAdds(env, m, pc, sys);
  }

  lemma MovedStep<W(!new)>(env: Env<W>, w0: W, steps: seq<Meta>, pcs: seq<Pc>, sys: Sys<W>, k: nat)
    requires k < |steps| == |pcs| && Moved(w0, steps, sys)
    ensures Moved(w0, steps, Act(env, steps[k], pcs[k], sys).1)
  {
    WorldMoves(env, steps[k], pcs[k], sys);
    if j :| 0 <= j < |steps| && Runs(sys.log, steps[j].name) > 0 {
      RunsGrow(env, steps[k], pcs[k], sys, steps[j].name);
    }
  }

  /** No action of step k falsifies the Check of another step. */
  lemma WorldKeeps<W(!new)>(env: Env<W>, steps: seq<Meta>, pcs: seq<Pc>, sys: Sys<W>, k: nat, j: nat)
    requires Idempotent(env, steps) && k < |steps| == |pcs| && j < |steps| && steps[j].name != steps[k].name
    ensures Sat(env, steps[j].name, sys.world) ==> Sat(env, steps[j].name, Act(env, steps[k], pcs[k], sys).1.world)
  {
  }

  lemma FailedStays(log: seq<Entry>, log': seq<Entry>, name: string, m: Meta)
    requires Verdicts(log, name) == [] && BehindFailed(log, m)
    requires forall n :: n != name ==> Verdicts(log', n) == Verdicts(log, n)
    ensures BehindFailed(log', m)
  {
    var d :| d in m.deps && Verdicts(log, d) == [Failed];
    assert d in m.deps && Verdicts(log', d) == [Failed];
  }

  /** A step stays where its answers led it while another one, which had none, gets its verdict. */
  lemma ToldByOthers(log: seq<Entry>, log': seq<Entry>, name: string, m: Meta, pc: Pc, done: bool, done': bool)
    requires Verdicts(log, name) == [] && ToldOk(m, pc, log, done) && (done ==> done') && m.name != name
    requires CallsOf(log', m.name) == CallsOf(log, m.name)
    requires forall n :: n != name ==> Verdicts(log', n) == Verdicts(log, n)
    ensures ToldOk(m, pc, log', done')
  {
    ToldLater(m, pc, CallsOf(log, m.name), done, done');
    if CallsOf(log, m.name) != [] {
      DepsStay(log, log', name, m);
    } else if pc == Over(Skipped) {
      FailedStays(log, log', name, m);
    }
  }

  lemma ActKeepsTold<W>(env: Env<W>, steps: seq<Meta>, pcs: seq<Pc>, sys: Sys<W>, k: nat)
    requires Ledger(env, steps, pcs, sys) && k < |steps| && Busy(pcs[k])
    requires AllTold(steps, pcs, sys.log, !Alive(env, sys))
    ensures var (pc', sys') := Act(env, steps[k], pcs[k], sys);
            AllTold(steps, pcs[k := pc'], sys'.log, !Alive(env, sys'))
  {
    var m := steps[k];
    var (pc', sys') := Act(env, m, pcs[k], sys);
    var pcs' := pcs[k := pc'];
    var done, done' := !Alive(env, sys), !Alive(env, sys');
    ActWrites(env, m, pcs[k], sys);
    forall n | n != m.name ensures Verdicts(sys'.log, n) == Verdicts(sys.log, n) {
      OthersUntouched(env, m, pcs[k], sys, n);
    }
    Unsettled(env, steps, pcs, sys, k);
    forall j | 0 <= j < |steps| ensures ToldOk(steps[j], pcs'[j], sys'.log, done') {
      assert ToldOk(steps[j], pcs[j], sys.log, done);
      if j == k {
        assert StepOk(env, m, pcs[k], sys);
        ActKeepsOwnTold(env, m, pcs[k], sys);
      } else {
        OthersCalls(env, m, pcs[k], sys, steps[j].name);
        ToldByOthers(sys.log, sys'.log, m.name, steps[j], pcs[j], done, done');
      }
    }
  }

  lemma ActKeepsOwnTold<W>(env: Env<W>, m: Meta, pc: Pc, sys: Sys<W>)
    requires Monotone(env) && Busy(pc) && StepOk(env, m, pc, sys) && ToldOk(m, pc, sys.log, !Alive(env, sys))
    ensures var (pc', sys') := Act(env, m, pc, sys);
            ToldOk(m, pc', sys'.log, !Alive(env, sys'))
  {
    var (pc', sys') := Act(env, m, pc, sys);
    ActCalls(env, m, pc, sys);
    ActWrites(env, m, pc, sys);
    ToldStep(env, m, pc, sys, CallsOf(sys.log, m.name));
    ToldLater(m, pc', CallsOf(sys'.log, m.name), !Alive(env, sys), !Alive(env, sys'));
    ActKeepsDeps(env, m, pc, sys);
    ActAdds(env, m, pc, sys);
    if pc'.Over? {
      OverAfterCalls(env, m, pc, sys, CallsOf(sys.log, m.name));
    }
    ToldOfReady(m, pc', sys'.log, !Alive(env, sys'));
  }

  lemma ActKeepsDeps<W>(env: Env<W>, m: Meta, pc: Pc, sys: Sys<W>)
    requires Verdicts(sys.log, m.name) == [] && DepsSettled(sys.log, m)
    ensures DepsSettled(Act(env, m, pc, sys).1.log, m)
  {
    var log' := Act(env, m, pc, sys).1.log;
    forall n | n != m.name ensures Verdicts(log', n) == Verdicts(sys.log, n) {
      OthersUntouched(env, m, pc, sys, n);
    }
    DepsStay(sys.log, log', m.name, m);
  }

  lemma ToldOfReady(m: Meta, pc: Pc, log: seq<Entry>, done: bool)
    requires Told(m, pc, CallsOf(log, m.name), done) && DepsSettled(log, m)
    requires pc.Over? && CallsOf(log, m.name) == [] ==> pc.state == Failed && Verdicts(log, m.name) == []
    requires pc.Over? && CallsOf(log, m.name) != [] ==> Verdicts(log, m.name) == [pc.state]
    ensures ToldOk(m, pc, log, done)
  {
  }

  /** A step that acts, and ends, has made a call, or was turned away. */
  lemma OverAfterCalls<W>(env: Env<W>, m: Meta, pc: Pc, sys: Sys<W>, calls: seq<Entry>)
    requires Busy(pc) && Told(m, pc, calls, !Alive(env, sys)) && Act(env, m, pc, sys).0.Over?
    ensures if pc.Enter? then calls == [] && Act(env, m, pc, sys).0 == Over(Failed) else calls != []
  {
  }

  lemma ActKeepsTrack<W(!new)>(env: Env<W>, w0: W, steps: seq<Meta>, pcs: seq<Pc>, sys: Sys<W>, k: nat)
    requires Ledger(env, steps, pcs, sys) && k < |steps| && Busy(pcs[k])
    requires Alive(env, sys) && Fixed(env, w0) && Tracked(env, w0, steps, pcs, sys)
    ensures var (pc', sys') := Act(env, steps[k], pcs[k], sys);
            Tracked(env, w0, steps, pcs[k := pc'], sys')
  {
    var m := steps[k];
    var (pc', sys') := Act(env, m, pcs[k], sys);
    assert StepOk(env, m, pcs[k], sys);
    OnTrackStep(env, w0, m, pcs[k], sys);
    NotBlocked(env, w0, steps, pcs, sys, k);
    assert TrackedAt(env, w0, steps, k, pcs[k], sys);
    forall j | 0 <= j < |steps| && j != k
      ensures TrackedAt(env, w0, steps, j, pcs[j], sys')
    {
      assert TrackedAt(env, w0, steps, j, pcs[j], sys);
      OthersUntouched(env, m, pcs[k], sys, steps[j].name);
      OnTrackSame(env, w0, steps[j], pcs[j], sys, sys');
    }
  }

  lemma ActKeepsMeter<W(!new)>(env: Env<W>, w0: W, steps: seq<Meta>, pcs: seq<Pc>, sys: Sys<W>, k: nat)
    requires Ledger(env, steps, pcs, sys) && k < |steps| && Busy(pcs[k]) && Alive(env, sys) && Fixed(env, w0)
    requires Tracked(env, w0, steps, pcs, sys) && Metered(env, w0, steps, pcs, sys)
    ensures var (pc', sys') := Act(env, steps[k], pcs[k], sys);
            Metered(env, w0, steps, pcs[k := pc'], sys')
  {
    var m := steps[k];
    var (pc', sys') := Act(env, m, pcs[k], sys);
    var pcs' := pcs[k := pc'];
    assert StepOk(env, m, pcs[k], sys);
    NotBlocked(env, w0, steps, pcs, sys, k);
    forall j | 0 <= j < |steps| ensures MeterOk(env, w0, steps, j, pcs'[j], Runs(sys'.log, steps[j].name)) {
      assert MeterOk(env, w0, steps, j, pcs[j], Runs(sys.log, steps[j].name));
      if j == k {
        RunsLeftStep(env, w0, m, pcs[k], sys);
        ActAdds(env, m, pcs[k], sys);
      } else {
        OthersUntouched(env, m, pcs[k], sys, steps[j].name);
      }
    }
  }

  /** A step with settled, unfailed dependencies is not blocked in the reference outcome. */
  lemma NotBlocked<W>(env: Env<W>, w0: W, steps: seq<Meta>, pcs: seq<Pc>, sys: Sys<W>, k: nat)
    requires Ledger(env, steps, pcs, sys) && k < |steps| && DepsSettled(sys.log, steps[k])
    requires Tracked(env, w0, steps, pcs, sys)
    ensures !Blocked(env, w0, steps, k)
  {
    forall j | 0 <= j < k && steps[j].name in steps[k].deps
      ensures Final(env, w0, steps, j) != Failed
    {
      assert StepOk(env, steps[j], pcs[j], sys);
      assert Verdicts(sys.log, steps[j].name) != [];
      assert pcs[j].Over? && TrackedAt(env, w0, steps, j, pcs[j], sys);
    }
  }

  lemma ReleaseKeepsTold(steps: seq<Meta>, pcs: seq<Pc>, log: seq<Entry>, k: nat, pc: Pc, done: bool)
    requires |pcs| == |steps| && AllTold(steps, pcs, log, done) && k < |steps|
    requires pcs[k] == Idle && (pc == Enter || pc == Begin)
    ensures AllTold(steps, pcs[k := pc], log, done)
  {
    forall j | 0 <= j < |steps| ensures ToldOk(steps[j], pcs[k := pc][j], log, done) {
      assert ToldOk(steps[j], pcs[j], log, done);
    }
  }

  lemma ReleaseKeepsLedger<W>(env: Env<W>, steps: seq<Meta>, pcs: seq<Pc>, sys: Sys<W>, k: nat, pc: Pc)
    requires Ledger(env, steps, pcs, sys) && k < |steps| && pcs[k] == Idle
    requires (pc == Enter || pc == Begin) && DepsSettled(sys.log, steps[k])
    ensures Ledger(env, steps, pcs[k := pc], sys)
  {
    forall j | 0 <= j < |steps| ensures StepOk(env, steps[j], pcs[k := pc][j], sys) {
      assert StepOk(env, steps[j], pcs[j], sys);
    }
    SpentStays(env, steps, pcs, sys, pcs[k := pc], sys);
  }

  /** A step may be released once its dependencies have settled unfailed. */
  lemma ReleaseKeeps<W(!new)>(env: Env<W>, w0: W, steps: seq<Meta>, pcs: seq<Pc>, sys: Sys<W>, k: nat, pc: Pc)
    requires Inv(env, w0, steps, pcs, sys) && k < |steps| && pcs[k] == Idle
    requires pc == Enter || pc == Begin
    requires DepsSettled(sys.log, steps[k])
    ensures Inv(env, w0, steps, pcs[k := pc], sys)
  {
    ReleaseKeepsLedger(env, steps, pcs, sys, k, pc);
    ReleaseKeepsTold(steps, pcs, sys.log, k, pc, !Alive(env, sys));
  }

  lemma WaitKeepsLedger<W>(env: Env<W>, steps: seq<Meta>, pcs: seq<Pc>, sys: Sys<W>)
    requires Ledger(env, steps, pcs, sys)
    ensures Ledger(env, steps, pcs, Idly(sys))
  {
    forall k | 0 <= k < |steps| ensures StepOk(env, steps[k], pcs[k], Idly(sys)) {
      assert StepOk(env, steps[k], pcs[k], sys);
      KeptByOthers(env, steps[k], pcs[k], sys, Idly(sys));
    }
    SpentStays(env, steps, pcs, sys, pcs, Idly(sys));
  }

  lemma WaitKeepsTrack<W>(env: Env<W>, w0: W, steps: seq<Meta>, pcs: seq<Pc>, sys: Sys<W>)
    requires |pcs| == |steps| && Tracked(env, w0, steps, pcs, sys)
    ensures Tracked(env, w0, steps, pcs, Idly(sys))
  {
    forall k | 0 <= k < |steps| ensures TrackedAt(env, w0, steps, k, pcs[k], Idly(sys)) {
      assert TrackedAt(env, w0, steps, k, pcs[k], sys);
      OnTrackSame(env, w0, steps[k], pcs[k], sys, Idly(sys));
    }
  }

  lemma WaitKeepsTold(steps: seq<Meta>, pcs: seq<Pc>, log: seq<Entry>, done: bool, done': bool)
    requires |pcs| == |steps| && AllTold(steps, pcs, log, done) && (done ==> done')
    ensures AllTold(steps, pcs, log, done')
  {
    forall k | 0 <= k < |steps| ensures ToldOk(steps[k], pcs[k], log, done') {
      assert ToldOk(steps[k], pcs[k], log, done);
      ToldLater(steps[k], pcs[k], CallsOf(log, steps[k].name), done, done');
    }
  }

  lemma WaitKeeps<W(!new)>(env: Env<W>, w0: W, steps: seq<Meta>, pcs: seq<Pc>, sys: Sys<W>)
    requires Inv(env, w0, steps, pcs, sys)
    ensures Inv(env, w0, steps, pcs, Idly(sys))
  {
    WaitKeepsLedger(env, steps, pcs, sys);
    WaitKeepsTold(steps, pcs, sys.log, !Alive(env, sys), !Alive(env, Idly(sys)));
    if Alive(env, sys) && Fixed(env, w0) {
      WaitKeepsTrack(env, w0, steps, pcs, sys);
    }
    if Idempotent(env, steps) && AllSat(env, steps, w0) {
      forall k | 0 <= k < |steps| ensures Untouched(env, steps[k], pcs[k], Idly(sys)) {
        assert Untouched(env, steps[k], pcs[k], sys);
      }
    }
  }

  lemma SkipEntry<W>(env: Env<W>, sys: Sys<W>, name: string, n: string)
    ensures var sys' := Emit(env, sys, EvSkipped(name));
            && Verdicts(sys'.log, n) == Verdicts(sys.log, n) + (if n == name then [Skipped] else [])
            && Runs(sys'.log, n) == Runs(sys.log, n)
            && CallsOf(sys'.log, n) == CallsOf(sys.log, n)
  {
    var e := Emitted(EvSkipped(name), env.cancelled(sys.clock) && env.lost(sys.clock));
    VerdictsAppend(sys.log, e, n);
    CallsAppend(sys.log, e, n);
  }

  lemma BlockKeepsStep<W>(env: Env<W>, steps: seq<Meta>, pcs: seq<Pc>, sys: Sys<W>, k: nat, i: nat)
    requires Ledger(env, steps, pcs, sys) && k < |steps| && pcs[k] == Idle && i < |steps|
    ensures StepOk(env, steps[i], if i == k then Over(Skipped) else pcs[i], Emit(env, sys, EvSkipped(steps[k].name)))
  {
    var name := steps[k].name;
    var sys' := Emit(env, sys, EvSkipped(name));
    assert StepOk(env, steps[i], pcs[i], sys);
    SkipEntry(env, sys, name, steps[i].name);
    if i == k {
      var none: seq<StepState> := [];
      assert none + [Skipped] == [Skipped];
    } else {
      KeptByOthers(env, steps[i], pcs[i], sys, sys');
      if Busy(pcs[i]) {
        forall n | n != name ensures Verdicts(sys'.log, n) == Verdicts(sys.log, n) {
          SkipEntry(env, sys, name, n);
        }
        Unsettled(env, steps, pcs, sys, k);
        DepsStay(sys.log, sys'.log, name, steps[i]);
      }
    }
  }

  lemma BlockKeepsLog<W>(env: Env<W>, steps: seq<Meta>, sys: Sys<W>, k: nat)
    requires WellFormed(steps) && Monotone(env) && k < |steps|
    requires Guarded(steps, sys.log) && AllTruthful(sys.log) && Quiet(env, sys)
    ensures Guarded(steps, Emit(env, sys, EvSkipped(steps[k].name)).log)
    ensures AllTruthful(Emit(env, sys, EvSkipped(steps[k].name)).log)
    ensures Quiet(env, Emit(env, sys, EvSkipped(steps[k].name)))
  {
    var e := Emitted(EvSkipped(steps[k].name), env.cancelled(sys.clock) && env.lost(sys.clock));
    GuardedAppend(steps, sys.log, e, k);
    TruthfulAppend(sys.log, e);
    assert forall x :: x in sys.log + [e] ==> x in sys.log || x == e;
  }

  lemma BlockKeepsLedger<W>(env: Env<W>, steps: seq<Meta>, pcs: seq<Pc>, sys: Sys<W>, k: nat)
    requires Ledger(env, steps, pcs, sys) && k < |steps| && pcs[k] == Idle
    ensures Ledger(env, steps, pcs[k := Over(Skipped)], Emit(env, sys, EvSkipped(steps[k].name)))
  {
    var sys' := Emit(env, sys, EvSkipped(steps[k].name));
    var pcs' := pcs[k := Over(Skipped)];
    forall i | 0 <= i < |steps| ensures StepOk(env, steps[i], pcs'[i], sys') {
      BlockKeepsStep(env, steps, pcs, sys, k, i);
    }
    BlockKeepsLog(env, steps, sys, k);
    SpentStays(env, steps, pcs, sys, pcs', sys');
  }

  lemma SkipTracked<W>(env: Env<W>, w0: W, steps: seq<Meta>, sys: Sys<W>, k: nat, j: nat)
    requires j < k < |steps| && Runs(sys.log, steps[k].name) == 0
    requires steps[j].name in steps[k].deps && Final(env, w0, steps, j) == Failed
    ensures TrackedAt(env, w0, steps, k, Over(Skipped), Emit(env, sys, EvSkipped(steps[k].name)))
  {
    assert Blocked(env, w0, steps, k);
    SkipEntry(env, sys, steps[k].name, steps[k].name);
  }

  lemma BlockKeepsTrack<W>(env: Env<W>, w0: W, steps: seq<Meta>, pcs: seq<Pc>, sys: Sys<W>, k: nat, j: nat)
    requires Ledger(env, steps, pcs, sys) && Tracked(env, w0, steps, pcs, sys)
    requires j < k < |steps| && pcs[k] == Idle
    requires steps[j].name in steps[k].deps && pcs[j] == Over(Failed)
    ensures Tracked(env, w0, steps, pcs[k := Over(Skipped)], Emit(env, sys, EvSkipped(steps[k].name)))
  {
    var sys' := Emit(env, sys, EvSkipped(steps[k].name));
    assert TrackedAt(env, w0, steps, j, pcs[j], sys);
    assert StepOk(env, steps[k], pcs[k], sys);
    SkipTracked(env, w0, steps, sys, k, j);
    forall i | 0 <= i < |steps| && i != k ensures TrackedAt(env, w0, steps, i, pcs[i], sys') {
      SkipEntry(env, sys, steps[k].name, steps[i].name);
      assert TrackedAt(env, w0, steps, i, pcs[i], sys);
      OnTrackSame(env, w0, steps[i], pcs[i], sys, sys');
    }
  }

  lemma BlockKeepsMeter<W>(env: Env<W>, w0: W, steps: seq<Meta>, pcs: seq<Pc>, sys: Sys<W>, k: nat)
    requires Ledger(env, steps, pcs, sys) && k < |steps| && pcs[k] == Idle && Blocked(env, w0, steps, k)
    requires Metered(env, w0, steps, pcs, sys)
    ensures Metered(env, w0, steps, pcs[k := Over(Skipped)], Emit(env, sys, EvSkipped(steps[k].name)))
  {
    var sys' := Emit(env, sys, EvSkipped(steps[k].name));
    var pcs' := pcs[k := Over(Skipped)];
    forall j | 0 <= j < |steps| ensures MeterOk(env, w0, steps, j, pcs'[j], Runs(sys'.log, steps[j].name)) {
      assert MeterOk(env, w0, steps, j, pcs[j], Runs(sys.log, steps[j].name));
      SkipEntry(env, sys, steps[k].name, steps[j].name);
      if j == k {
        assert StepOk(env, steps[k], pcs[k], sys);
      }
    }
  }

  lemma SkippedTold(m: Meta, log': seq<Entry>, dep: string, done: bool)
    requires CallsOf(log', m.name) == [] && Verdicts(log', m.name) == [Skipped]
    requires dep in m.deps && Verdicts(log', dep) == [Failed]
    ensures ToldOk(m, Over(Skipped), log', done)
  {
  }

  /** The skipped step stands behind a failed one; the others stay where they were. */
  lemma SkipTold(steps: seq<Meta>, pcs: seq<Pc>, log: seq<Entry>, log': seq<Entry>, k: nat, dep: string,
                 done: bool, done': bool)
    requires WellFormed(steps) && |pcs| == |steps| && k < |steps| && pcs[k] == Idle && AllTold(steps, pcs, log, done)
    requires done ==> done'
    requires forall i :: 0 <= i < |steps| ==> CallsOf(log', steps[i].name) == CallsOf(log, steps[i].name)
    requires forall n :: n != steps[k].name ==> Verdicts(log', n) == Verdicts(log, n)
    requires Verdicts(log, steps[k].name) == [] && Verdicts(log', steps[k].name) == [Skipped]
    requires dep in steps[k].deps && Verdicts(log, dep) == [Failed]
    ensures AllTold(steps, pcs[k := Over(Skipped)], log', done')
  {
    assert ToldOk(steps[k], pcs[k], log, done);
    SkippedTold(steps[k], log', dep, done');
    forall i | 0 <= i < |steps| && i != k ensures ToldOk(steps[i], pcs[i], log', done') {
      assert ToldOk(steps[i], pcs[i], log, done);
      ToldByOthers(log, log', steps[k].name, steps[i], pcs[i], done, done');
    }
  }

  lemma BlockKeepsTold<W>(env: Env<W>, steps: seq<Meta>, pcs: seq<Pc>, sys: Sys<W>, k: nat, j: nat)
    requires Ledger(env, steps, pcs, sys) && AllTold(steps, pcs, sys.log, !Alive(env, sys))
    requires j < k < |steps| && pcs[k] == Idle
    requires steps[j].name in steps[k].deps && Verdicts(sys.log, steps[j].name) == [Failed]
    ensures var sys' := Emit(env, sys, EvSkipped(steps[k].name));
            AllTold(steps, pcs[k := Over(Skipped)], sys'.log, !Alive(env, sys'))
  {
    Unsettled(env, steps, pcs, sys, k);
    var sys' := Emit(env, sys, EvSkipped(steps[k].name));
    forall n
      ensures CallsOf(sys'.log, n) == CallsOf(sys.log, n)
      ensures Verdicts(sys'.log, n) == Verdicts(sys.log, n) + (if n == steps[k].name then [Skipped] else [])
    {
      SkipEntry(env, sys, steps[k].name, n);
    }
    SkipTold(steps, pcs, sys.log, sys'.log, k, steps[j].name, !Alive(env, sys), !Alive(env, sys'));
  }

  /** Only the step's own calls of Run matter to its track. */
  lemma OnTrackSame<W>(env: Env<W>, w0: W, m: Meta, pc: Pc, sys: Sys<W>, sys': Sys<W>)
    requires OnTrack(env, w0, m, pc, sys) && Runs(sys'.log, m.name) == Runs(sys.log, m.name)
    ensures OnTrack(env, w0, m, pc, sys')
  {
  }

  /** Skipping a step because dependency j failed, which was reported. */
  lemma BlockKeeps<W(!new)>(env: Env<W>, w0: W, steps: seq<Meta>, pcs: seq<Pc>, sys: Sys<W>, k: nat, j: nat)
    requires Inv(env, w0, steps, pcs, sys) && j < k < |steps| && pcs[k] == Idle
    requires steps[j].name in steps[k].deps && pcs[j] == Over(Failed) && Verdicts(sys.log, steps[j].name) == [Failed]
    ensures Inv(env, w0, steps, pcs[k := Over(Skipped)], Emit(env, sys, EvSkipped(steps[k].name)))
  {
    BlockKeepsLedger(env, steps, pcs, sys, k);
    var sys' := Emit(env, sys, EvSkipped(steps[k].name));
    var pcs' := pcs[k := Over(Skipped)];
    forall n ensures Runs(sys'.log, n) == Runs(sys.log, n) {
      SkipEntry(env, sys, steps[k].name, n);
    }
    BlockKeepsTold(env, steps, pcs, sys, k, j);
    if Alive(env, sys) && Fixed(env, w0) {
      BlockKeepsTrack(env, w0, steps, pcs, sys, k, j);
      assert TrackedAt(env, w0, steps, j, pcs[j], sys);
      BlockKeepsMeter(env, w0, steps, pcs, sys, k);
    }
    if Idempotent(env, steps) && AllSat(env, steps, w0) {
      forall i | 0 <= i < |steps| ensures Untouched(env, steps[i], pcs'[i], sys') {
        assert Untouched(env, steps[i], pcs[i], sys);
      }
    }
  }
}
