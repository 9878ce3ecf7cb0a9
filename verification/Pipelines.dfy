/**
 The pipeline: New, Run and its grouping of parallel steps.  Run is the loop over the list
 of steps; the goroutines of a batch move one atomic action at a time in an order the
 environment picks.
 */
module Pipelines {
  import opened Options
  import opened Commands
  import opened Steps
  import opened Calls
  import opened Schedule

  datatype NewError =
    | EmptyName
    | Duplicate(step: string)
    | UnknownDep(step: string, dep: string)
    | Cycle(step: string, dep: string)

  datatype RunError = AlreadyStarted | Cancelled | StepError(step: string)

  /** The states map of Run describes the steps before `i`; the others were not reached. */
  ghost predicate Recorded(steps: seq<Meta>, pcs: seq<Pc>, states: map<string, StepState>, i: nat) {
    && |pcs| == |steps| && i <= |steps|
    && (forall n :: n in states <==> Earlier(steps, i, n))
    && (forall k {:trigger pcs[k]} :: 0 <= k < i ==> steps[k].name in states && pcs[k] == Over(states[steps[k].name]))
    && (forall k :: i <= k < |steps| ==> pcs[k] == Idle)
  }

  /** What a finished run promises about its log and its error. */
  ghost predicate Accounted<W(!new)>(env: Env<W>, steps: seq<Meta>, w0: W, err: Option<RunError>, sys: Sys<W>) {
    && WellLogged(env, steps, err.Some?, sys)
    && Moved(w0, steps, sys)
    && CancelledAtLastPoll(env, err, sys)
    && AllAnswered(steps, sys.log, err == Some(Cancelled))
    && (err != Some(Cancelled) ==> Complete(steps, err, sys.log))
    && (err != Some(Cancelled) && Fixed(env, w0) ==> AsReference(env, w0, steps, sys.log))
    && (Idempotent(env, steps) ==> ChecksHold(env, steps, w0, sys))
  }

  /** What the log of every run shows. */
  ghost predicate WellLogged<W>(env: Env<W>, steps: seq<Meta>, failed: bool, sys: Sys<W>) {
    && Guarded(steps, sys.log)
    && AllTruthful(sys.log)
    && OncePerStep(steps, sys.log)
    && InListOrder(steps, sys.log)
    && StopsWhenDone(env, steps, sys)
    && NoRetry(env, sys)
    && EndsOnce(sys.log, failed)
    && (Uncancelled(env) ==> forall e :: e in sys.log && e.Emitted? ==> !e.lost)
  }

  /** For idempotent steps: a run with all steps done satisfies the Checks; one that begins with
      satisfied Checks runs hand-offs only. */
  ghost predicate ChecksHold<W>(env: Env<W>, steps: seq<Meta>, w0: W, sys: Sys<W>) {
    && (AllDone(steps, sys.log) ==> AllSat(env, steps, sys.world))
    && (AllSat(env, steps, w0) ==> OnlyHandoffsRan(steps, sys.log))
  }

  /** The run reports cancellation if and only if the context was done at its last look, two
      ticks before the end. */
  ghost predicate CancelledAtLastPoll<W>(env: Env<W>, err: Option<RunError>, sys: Sys<W>) {
    sys.clock >= 2 && (err == Some(Cancelled) <==> env.cancelled(sys.clock - 2))
  }

  /** Once the context is done, no later step of the list begins that could not run beside the
      one before it. */
  ghost predicate StopsWhenDone<W>(env: Env<W>, steps: seq<Meta>, sys: Sys<W>) {
    && |sys.stamps| == |sys.log|
    && forall p, q {:trigger MayBegin(env, steps, sys, p, q)} :: 0 <= p < q < |sys.log| ==> MayBegin(env, steps, sys, p, q)
  }

  ghost predicate MayBegin<W>(env: Env<W>, steps: seq<Meta>, sys: Sys<W>, p: nat, q: nat)
    requires |sys.stamps| == |sys.log| && p < q < |sys.log|
  {
    var a, b := StepOf(steps, sys.log[p]), StepOf(steps, sys.log[q]);
    0 <= a < b && !Concurrent(steps, a, b) ==> !env.cancelled(sys.stamps[p])
  }

  /** Everything so far was written before the context was done. */
  ghost predicate Calm<W>(env: Env<W>, sys: Sys<W>) {
    forall p :: 0 <= p < |sys.stamps| ==> !env.cancelled(sys.stamps[p])
  }

  lemma CalmWhenAlive<W>(env: Env<W>, sys: Sys<W>)
    requires Monotone(env) && Stamped(sys) && Alive(env, sys)
    ensures Calm(env, sys)
  {
  }

  /** No step settles twice, an optional step never fails, Run is retried within limits. */
  ghost predicate OncePerStep(steps: seq<Meta>, log: seq<Entry>) {
    forall k :: 0 <= k < |steps| ==>
      && |Verdicts(log, steps[k].name)| <= 1
      && (steps[k].optional ==> Verdicts(log, steps[k].name) != [Failed])
      && Runs(log, steps[k].name) <= Attempts(steps[k])
  }

  /** The index of the step an entry is about; -1 for the end of the pipeline. */
  function StepOf(steps: seq<Meta>, e: Entry): (k: int)
    ensures -1 <= k < |steps|
    ensures k >= 0 ==> About(e, steps[k].name)
  {
    if steps == [] then -1
    else if About(e, steps[|steps| - 1].name) then |steps| - 1
    else StepOf(steps[..|steps| - 1], e)
  }

  lemma {:induction false} StepOfIs(steps: seq<Meta>, e: Entry, k: nat)
    requires k < |steps| && About(e, steps[k].name)
    requires forall i, j :: 0 <= i < j < |steps| ==> steps[i].name != steps[j].name
    ensures StepOf(steps, e) == k
  {
    if k < |steps| - 1 {
      StepOfIs(steps[..|steps| - 1], e, k);
    }
  }

  /** Both steps are parallel, and the later one does not depend on the earlier one. */
  predicate Concurrent(steps: seq<Meta>, b: nat, a: nat)
    requires b < a < |steps|
  {
    && steps[a].kind == Auto && steps[a].parallel && steps[b].kind == Auto && steps[b].parallel
    && steps[b].name !in steps[a].deps
  }

  /** Entry f may follow entry e: it is about the same or a later step of the list, or the
      two steps may run at once. */
  predicate MayFollow(steps: seq<Meta>, e: Entry, f: Entry) {
    var a, b := StepOf(steps, e), StepOf(steps, f);
    0 <= b < a ==> Concurrent(steps, b, a)
  }

  /** The log follows the list: steps overlap only when they may run at once. */
  ghost predicate InListOrder(steps: seq<Meta>, log: seq<Entry>) {
    forall p, q {:trigger MayFollow(steps, log[p], log[q])} :: 0 <= p < q < |log| ==> MayFollow(steps, log[p], log[q])
  }

  /** The new entries are about steps lo..hi. */
  ghost predicate Adds(steps: seq<Meta>, before: seq<Entry>, after: seq<Entry>, lo: nat, hi: nat) {
    && before <= after
    && forall p {:trigger StepOf(steps, after[p])} :: |before| <= p < |after| ==> lo <= StepOf(steps, after[p]) < hi
  }

  /** All entries are about the steps before i, in the order of the list. */
  ghost predicate Ordered(steps: seq<Meta>, log: seq<Entry>, i: nat) {
    && InListOrder(steps, log)
    && forall p {:trigger StepOf(steps, log[p])} :: 0 <= p < |log| ==> 0 <= StepOf(steps, log[p]) < i
  }

  lemma AddsMore(steps: seq<Meta>, x: seq<Entry>, y: seq<Entry>, z: seq<Entry>, k: nat, lo: nat, hi: nat)
    requires lo <= k < hi && Adds(steps, x, y, lo, hi) && Adds(steps, y, z, k, k + 1)
    ensures Adds(steps, x, z, lo, hi)
  {
    forall p | |x| <= p < |z| ensures lo <= StepOf(steps, z[p]) < hi {
      if p < |y| {
        assert z[p] == y[p];
      }
    }
  }

  /** Steps that run after all others, one alone or several that may run at once, keep the
      log in the order of the list. */
  lemma OrderGrows(steps: seq<Meta>, log: seq<Entry>, log': seq<Entry>, i: nat, n: nat)
    requires i <= n <= |steps| && Ordered(steps, log, i) && Adds(steps, log, log', i, n)
    requires forall b, a :: i <= b < a < n ==> Concurrent(steps, b, a)
    ensures Ordered(steps, log', n)
  {
    forall p | 0 <= p < |log'|
      ensures if p < |log| then log'[p] == log[p] && 0 <= StepOf(steps, log'[p]) < i
              else i <= StepOf(steps, log'[p]) < n
    {
    }
    forall p, q | 0 <= p < q < |log'| ensures MayFollow(steps, log'[p], log'[q]) {
      if q < |log| {
        assert MayFollow(steps, log[p], log[q]);
      }
    }
  }

  /** What is new since `from` is about the steps lo..hi. */
  ghost predicate Grows<W>(steps: seq<Meta>, from: Sys<W>, sys: Sys<W>, lo: nat, hi: nat) {
    Adds(steps, from.log, sys.log, lo, hi) && from.stamps <= sys.stamps
  }

  lemma StopsGrow<W>(env: Env<W>, steps: seq<Meta>, sys: Sys<W>, sys': Sys<W>, i: nat, n: nat)
    requires i <= n <= |steps| && Ordered(steps, sys.log, i) && Grows(steps, sys, sys', i, n)
    requires StopsWhenDone(env, steps, sys) && Calm(env, sys) && |sys'.stamps| == |sys'.log|
    requires forall b, a :: i <= b < a < n ==> Concurrent(steps, b, a)
    ensures StopsWhenDone(env, steps, sys')
  {
    forall p, q | 0 <= p < q < |sys'.log| ensures MayBegin(env, steps, sys', p, q) {
      if p < |sys.log| {
        assert sys'.stamps[p] == sys.stamps[p];
      } else {
        assert i <= StepOf(steps, sys'.log[p]) < n && i <= StepOf(steps, sys'.log[q]) < n;
      }
    }
  }

  lemma ActAppends<W>(env: Env<W>, steps: seq<Meta>, k: nat, pc: Pc, sys: Sys<W>)
    requires WellFormed(steps) && k < |steps|
    ensures Adds(steps, sys.log, Act(env, steps[k], pc, sys).1.log, k, k + 1)
  {
    ActWrites(env, steps[k], pc, sys);
    var log' := Act(env, steps[k], pc, sys).1.log;
    if log' != sys.log {
      var e :| log' == sys.log + [e] && About(e, steps[k].name);
      StepOfIs(steps, e, k);
    }
  }

  /** EvPipelineDone is the last entry and the only one of its kind. */
  ghost predicate EndsOnce(log: seq<Entry>, failed: bool) {
    && log != []
    && log[|log| - 1].Emitted? && log[|log| - 1].event == EvPipelineDone(failed)
    && forall p :: 0 <= p < |log| - 1 ==> !Ends(log[p])
  }

  /** A step made calls exactly when none of its direct dependencies failed.  Then they are the
      calls its answers ask for, in order, and the last answer decides the verdict; else it was
      skipped.  Only in a run that reports cancellation may a step have neither calls nor a
      verdict, or fewer calls than its answers ask for. */
  ghost predicate Answered(m: Meta, log: seq<Entry>, done: bool) {
    AnsweredBy(m, BehindFailed(log, m), CallsOf(log, m.name), Verdicts(log, m.name), done)
  }

  ghost predicate AnsweredBy(m: Meta, behindFailed: bool, calls: seq<Entry>, verdicts: seq<StepState>, done: bool) {
    || (done && calls == [] && verdicts == [])
    || (if behindFailed then calls == [] && verdicts == [Skipped]
        else Closed(m, calls, done) && verdicts == [Decided(m, calls[|calls| - 1])])
  }

  ghost predicate AllAnswered(steps: seq<Meta>, log: seq<Entry>, done: bool) {
    forall k {:trigger Answered(steps[k], log, done)} :: 0 <= k < |steps| ==> Answered(steps[k], log, done)
  }

  /** Every step settled, no event was lost, and the run failed exactly when a step did. */
  ghost predicate Complete(steps: seq<Meta>, err: Option<RunError>, log: seq<Entry>) {
    && (forall k :: 0 <= k < |steps| ==> |Verdicts(log, steps[k].name)| == 1)
    && (forall p :: 0 <= p < |log| - 1 && log[p].Emitted? ==> !log[p].lost)
    && (err.Some? <==> exists k :: 0 <= k < |steps| && Verdicts(log, steps[k].name) == [Failed])
    && (err.Some? ==> err.value.StepError? && Verdicts(log, err.value.step) == [Failed])
  }

  ghost predicate AsReference<W>(env: Env<W>, w0: W, steps: seq<Meta>, log: seq<Entry>) {
    forall k :: 0 <= k < |steps| ==>
      && Verdicts(log, steps[k].name) == [Final(env, w0, steps, k)]
      && Runs(log, steps[k].name) == RunCount(env, w0, steps, k)
  }

  ghost predicate AllDone(steps: seq<Meta>, log: seq<Entry>) {
    forall k :: 0 <= k < |steps| ==> Verdicts(log, steps[k].name) == [Done]
  }

  ghost predicate OnlyHandoffsRan(steps: seq<Meta>, log: seq<Entry>) {
    forall k :: 0 <= k < |steps| && Runs(log, steps[k].name) > 0 ==> steps[k].kind == Handoff
  }

  /** Unfailed dependencies that are not among the steps i..k have all settled. */
  lemma ReadyDeps<W>(env: Env<W>, steps: seq<Meta>, pcs: seq<Pc>, sys: Sys<W>,
                     states: map<string, StepState>, i: nat, k: nat)
    requires Ledger(env, steps, pcs, sys) && i <= k < |steps| && Recorded(steps, pcs, states, i)
    requires forall d :: d in steps[k].deps && d in states ==> states[d] != Failed
    requires forall l :: i <= l < k ==> steps[l].name !in steps[k].deps
    ensures DepsSettled(sys.log, steps[k])
  {
    forall d | d in steps[k].deps
      ensures Verdicts(sys.log, d) == [Done] || Verdicts(sys.log, d) == [Skipped]
    {
      assert Earlier(steps, k, d);
      var j :| 0 <= j < k && steps[j].name == d;
      assert j < i && d in states && pcs[j] == Over(states[d]);
      assert StepOk(env, steps[j], pcs[j], sys);
      OverHasSettled(env, steps[j], pcs[j], sys);
    }
  }

  lemma OverHasSettled<W>(env: Env<W>, m: Meta, pc: Pc, sys: Sys<W>)
    requires Kept(env, m, pc, sys) && pc.Over? && pc.state != Failed
    ensures Verdicts(sys.log, m.name) == [pc.state]
  {
  }

  /** Step i may join the batch that starts at `start` and has all steps in between. */
  ghost predicate Joins(steps: seq<Meta>, start: nat, i: nat, states: map<string, StepState>)
    requires i < |steps|
  {
    && steps[i].kind == Auto && steps[i].parallel
    && (forall d :: d in steps[i].deps && d in states ==> states[d] != Failed)
    && (forall l :: start <= l < i ==> steps[l].name !in steps[i].deps)
  }

  ghost predicate AllJoin(steps: seq<Meta>, lo: nat, hi: nat, states: map<string, StepState>)
    requires hi <= |steps|
  {
    forall k :: lo <= k < hi ==> Joins(steps, lo, k, states)
  }

  /** The steps lo..hi have not started, and their dependencies have settled unfailed. */
  ghost predicate AllReady(steps: seq<Meta>, pcs: seq<Pc>, log: seq<Entry>, lo: nat, hi: nat) {
    && hi <= |steps| == |pcs|
    && forall k :: lo <= k < hi ==> pcs[k] == Idle && DepsSettled(log, steps[k])
  }

  /** All members of a batch may run at once. */
  lemma ReadyBatch<W>(env: Env<W>, steps: seq<Meta>, pcs: seq<Pc>, sys: Sys<W>,
                      states: map<string, StepState>, i: nat, n: nat)
    requires Ledger(env, steps, pcs, sys) && i + n <= |steps| && Recorded(steps, pcs, states, i)
    requires AllJoin(steps, i, i + n, states)
    ensures AllReady(steps, pcs, sys.log, i, i + n)
  {
    forall k | i <= k < i + n ensures DepsSettled(sys.log, steps[k]) {
      assert Joins(steps, i, k, states);
      ReadyDeps(env, steps, pcs, sys, states, i, k);
    }
  }

  lemma GroupInOrder<W>(env: Env<W>, steps: seq<Meta>, sys: Sys<W>, sys': Sys<W>, i: nat, n: nat,
                        states: map<string, StepState>)
    requires i <= n <= |steps| && Ordered(steps, sys.log, i) && Grows(steps, sys, sys', i, n)
    requires StopsWhenDone(env, steps, sys) && Calm(env, sys) && |sys'.stamps| == |sys'.log|
    requires AllJoin(steps, i, n, states)
    ensures Ordered(steps, sys'.log, n) && StopsWhenDone(env, steps, sys')
  {
    forall b, a | i <= b < a < n ensures Concurrent(steps, b, a) {
      assert Joins(steps, i, b, states) && Joins(steps, i, a, states);
    }
    OrderGrows(steps, sys.log, sys'.log, i, n);
    StopsGrow(env, steps, sys, sys', i, n);
  }

  lemma EntryInOrder(steps: seq<Meta>, log: seq<Entry>, e: Entry, i: nat)
    requires WellFormed(steps) && i < |steps| && Ordered(steps, log, i) && About(e, steps[i].name)
    ensures Ordered(steps, log + [e], i + 1)
  {
    StepOfIs(steps, e, i);
    OrderGrows(steps, log, log + [e], i, i + 1);
  }

  // ---------------------------------------------------------------- the goroutines of a batch

  /** The members, steps lo..hi, that have not finished. */
  function Live(pcs: seq<Pc>, lo: nat, hi: nat): (live: seq<nat>)
    requires lo <= hi <= |pcs|
    ensures forall k :: k in live <==> lo <= k < hi && !pcs[k].Over?
    decreases hi - lo
  {
    if lo == hi then []
    else (if pcs[lo].Over? then [] else [lo]) + Live(pcs, lo + 1, hi)
  }

  /** The actions left, over all steps of the list from `from` on. */
  ghost function Work(steps: seq<Meta>, pcs: seq<Pc>, from: nat): int
    requires |pcs| == |steps| && from <= |steps|
    decreases |steps| - from
  {
    if from == |steps| then 0
    else (if Rank(steps[from], pcs[from]) >= 0 then Rank(steps[from], pcs[from]) else 0) + Work(steps, pcs, from + 1)
  }

  lemma {:induction false} WorkShrinks(steps: seq<Meta>, pcs: seq<Pc>, k: nat, pc: Pc, from: nat)
    requires |pcs| == |steps| && from <= |steps| && k < |steps|
    requires 0 <= Rank(steps[k], pc) < Rank(steps[k], pcs[k])
    ensures Work(steps, pcs, from) >= 0
    ensures if from <= k then Work(steps, pcs[k := pc], from) < Work(steps, pcs, from)
            else Work(steps, pcs[k := pc], from) == Work(steps, pcs, from)
    decreases |steps| - from
  {
    if from < |steps| {
      WorkShrinks(steps, pcs, k, pc, from + 1);
    }
  }

  lemma EarlierGrows(steps: seq<Meta>, k: nat, n: string)
    requires k < |steps|
    ensures Earlier(steps, k + 1, n) <==> Earlier(steps, k, n) || n == steps[k].name
  {
    if Earlier(steps, k + 1, n) {
      var j :| 0 <= j < k + 1 && steps[j].name == n;
      assert j < k ==> Earlier(steps, k, n);
    }
    if Earlier(steps, k, n) {
      var j :| 0 <= j < k && steps[j].name == n;
      assert Earlier(steps, k + 1, n);
    }
    if n == steps[k].name {
      assert Earlier(steps, k + 1, n);
    }
  }

  lemma EarlierStays(steps: seq<Meta>, k: nat, n: string)
    requires k <= |steps|
    ensures Earlier(steps, k, n) ==> Earlier(steps, |steps|, n)
  {
  }

  /** The refusal is true of the list; a "cycle" is a dependency on the step itself or a later one. */
  ghost predicate Explains(steps: seq<Meta>, e: NewError) {
    match e
    case EmptyName => exists k :: 0 <= k < |steps| && steps[k].name == ""
    case Duplicate(n) => exists j, k :: 0 <= j < k < |steps| && steps[j].name == n && steps[k].name == n
    case UnknownDep(n, d) =>
      (exists k :: 0 <= k < |steps| && steps[k].name == n && d in steps[k].deps) && !Earlier(steps, |steps|, d)
    case Cycle(n, d) =>
      exists k, j :: 0 <= k <= j < |steps| && steps[k].name == n && d in steps[k].deps && steps[j].name == d
  }

  ghost predicate FirstFailed(m: Meta, states: map<string, StepState>, j: nat)
    requires j < |m.deps|
  {
    && m.deps[j] in states && states[m.deps[j]] == Failed
    && forall i :: 0 <= i < j && m.deps[i] in states ==> states[m.deps[i]] != Failed
  }

  /** The members lo..hi have not begun, or have been turned away. */
  predicate NoneBegun(pcs: seq<Pc>, lo: nat, hi: nat)
    requires hi <= |pcs|
  {
    forall k :: lo <= k < hi ==> pcs[k] == Enter || pcs[k] == Over(Failed)
  }

  /** The steps lo..hi have ended in the states of the map, and no other step has moved. */
  ghost predicate Returned(steps: seq<Meta>, pcs0: seq<Pc>, pcs: seq<Pc>, lo: nat, hi: nat, more: map<string, StepState>)
    requires hi <= |steps|
  {
    && |pcs| == |pcs0| == |steps|
    && (forall k :: 0 <= k < |pcs| ==> if lo <= k < hi then pcs[k].Over? else pcs[k] == pcs0[k])
    && Holding(steps, pcs, lo, hi, more)
  }

  /** The map has exactly the names of the steps lo..hi, each with the state its step ended in. */
  ghost predicate Holding(steps: seq<Meta>, pcs: seq<Pc>, lo: nat, hi: nat, more: map<string, StepState>)
    requires hi <= |steps| == |pcs|
  {
    && (forall n {:trigger Among(steps, lo, hi, n)} :: n in more <==> Among(steps, lo, hi, n))
    && (forall k {:trigger EndedIn(steps, pcs, more, k)} :: lo <= k < hi ==> EndedIn(steps, pcs, more, k))
  }

  ghost predicate Among(steps: seq<Meta>, lo: nat, hi: nat, n: string)
    requires hi <= |steps|
  {
    exists k :: lo <= k < hi && steps[k].name == n
  }

  predicate EndedIn(steps: seq<Meta>, pcs: seq<Pc>, more: map<string, StepState>, k: nat)
    requires k < |steps| == |pcs|
  {
    pcs[k].Over? && steps[k].name in more && more[steps[k].name] == pcs[k].state
  }

  class Pipeline {
    const steps: seq<Meta>
    var started: bool

    constructor (steps: seq<Meta>)
      ensures this.steps == steps && !started
    {
      this.steps := steps;
      started := false;
    }

    /** Builds a pipeline, or says why the list is refused. */
    static method New(steps: seq<Meta>) returns (p: Pipeline?, err: Option<NewError>)
      ensures (p != null <==> WellFormed(steps)) && (p != null <==> err.None?)
      ensures p != null ==> fresh(p) && p.steps == steps && !p.started
      ensures err.Some? ==> Explains(steps, err.value)
    {
      var all := {};
      for k := 0 to |steps|
        invariant forall n :: n in all <==> Earlier(steps, k, n)
        invariant forall j :: 0 <= j < k ==> steps[j].name != ""
        invariant forall j, l :: 0 <= j < l < k ==> steps[j].name != steps[l].name
      {
        var name := steps[k].name;
        if name == "" {
          return null, Some(EmptyName);
        }
        if name in all {
          return null, Some(Duplicate(name));
        }
        ghost var before := all;
        all := all + {name};
        forall n ensures n in all <==> Earlier(steps, k + 1, n) {
          EarlierGrows(steps, k, n);
        }
      }
      var earlier := {};
      for k := 0 to |steps|
        invariant forall n :: n in earlier <==> Earlier(steps, k, n)
        invariant forall j, d :: 0 <= j < k && d in steps[j].deps ==> Earlier(steps, j, d)
      {
        var m := steps[k];
        for i := 0 to |m.deps|
          invariant forall d :: d in m.deps[..i] ==> Earlier(steps, k, d)
        {
          var dep := m.deps[i];
          if dep !in all {
            EarlierStays(steps, k, dep);
            return null, Some(UnknownDep(m.name, dep));
          }
          if dep !in earlier {
            return null, Some(Cycle(m.name, dep));
          }
        }
        assert m.deps[..|m.deps|] == m.deps;
        earlier := earlier + {m.name};
        forall n ensures n in earlier <==> Earlier(steps, k + 1, n) {
          EarlierGrows(steps, k, n);
        }
      }
      p := new Pipeline(steps);
      err := None;
    }

    /** The first failed dependency, if there is one. */
    static method FailedDep(m: Meta, states: map<string, StepState>) returns (dep: Option<string>)
      ensures dep.Some? ==> exists j :: 0 <= j < |m.deps| && FirstFailed(m, states, j) && m.deps[j] == dep.value
      ensures dep.None? ==> forall d :: d in m.deps && d in states ==> states[d] != Failed
    {
      for j := 0 to |m.deps|
        invariant forall d :: d in m.deps[..j] && d in states ==> states[d] != Failed
      {
        var d := m.deps[j];
        if d in states && states[d] == Failed {
          assert FirstFailed(m, states, j);
          return Some(d);
        }
      }
      return None;
    }

    /** The longest run of consecutive parallel steps from `start` that are not blocked and
        do not depend on each other. */
    method CollectAutoBatch(start: nat, states: map<string, StepState>) returns (batch: seq<nat>)
      requires start < |steps|
      ensures start + |batch| <= |steps|
      ensures forall j :: 0 <= j < |batch| ==> batch[j] == start + j
      ensures AllJoin(steps, start, start + |batch|, states)
      ensures start + |batch| < |steps| ==> !Joins(steps, start, start + |batch|, states)
    {
      batch := [];
      var names := {};
      var i := start;
      while i < |steps|
        invariant i == start + |batch| <= |steps|
        invariant forall j :: 0 <= j < |batch| ==> batch[j] == start + j
        invariant forall l :: start <= l < i ==> Joins(steps, start, l, states)
        invariant forall n :: n in names <==> exists l :: start <= l < i && steps[l].name == n
        decreases |steps| - i
      {
        var m := steps[i];
        if m.kind != Auto || !m.parallel {
          break;
        }
        var dep := FailedDep(m, states);
        if dep.Some? {
          break;
        }
        var crossDep := false;
        for j := 0 to |m.deps|
          invariant crossDep <==> exists d :: d in m.deps[..j] && d in names
        {
          if m.deps[j] in names {
            crossDep := true;
          }
        }
        assert m.deps[..|m.deps|] == m.deps;
        if crossDep {
          break;
        }
        assert Joins(steps, start, i, states);
        batch := batch + [i];
        names := names + {m.name};
        i := i + 1;
      }
    }

    /** The goroutine of step k takes its next atomic action. */
    method Move<W(!new)>(env: Env<W>, ghost w0: W, k: nat, pcs0: seq<Pc>, sys0: Sys<W>,
                         ghost from: Sys<W>, ghost lo: nat, ghost hi: nat)
      returns (pcs: seq<Pc>, sys: Sys<W>)
      requires Inv(env, w0, steps, pcs0, sys0) && k < |steps| && Busy(pcs0[k])
      requires lo <= k < hi && Grows(steps, from, sys0, lo, hi)
      ensures Inv(env, w0, steps, pcs, sys)
      ensures |pcs| == |steps| && pcs == pcs0[k := pcs[k]] && !pcs[k].Idle?
      ensures 0 <= Rank(steps[k], pcs[k]) < Rank(steps[k], pcs0[k])
      ensures 0 <= Work(steps, pcs0, 0) && Work(steps, pcs, 0) < Work(steps, pcs0, 0)
      ensures Grows(steps, from, sys, lo, hi)
      ensures !Alive(env, sys0) && pcs0[k] == Enter ==> !Alive(env, sys) && sys.log == sys0.log && pcs[k] == Over(Failed)
    {
      ActAppends(env, steps, k, pcs0[k], sys0);
      ActKeeps(env, w0, steps, pcs0, sys0, k);
      assert StepOk(env, steps[k], pcs0[k], sys0);
      RankDecreases(env, steps[k], pcs0[k], sys0);
      var (pc', sys') := Act(env, steps[k], pcs0[k], sys0);
      AddsMore(steps, from.log, sys0.log, sys'.log, k, lo, hi);
      StampedStep(env, steps[k], pcs0[k], sys0);
      WorkShrinks(steps, pcs0, k, pc', 0);
      pcs, sys := pcs0[k := pc'], sys';
    }

    /** runStep, up to its return. */
    method RunStep<W(!new)>(env: Env<W>, ghost w0: W, k: nat, pcs0: seq<Pc>, sys0: Sys<W>)
      returns (pcs: seq<Pc>, sys: Sys<W>)
      requires Inv(env, w0, steps, pcs0, sys0) && k < |steps| && pcs0[k] == Idle
      requires DepsSettled(sys0.log, steps[k])
      ensures Inv(env, w0, steps, pcs, sys)
      ensures pcs == pcs0[k := pcs[k]] && pcs[k].Over?
      ensures Grows(steps, sys0, sys, k, k + 1)
    {
      pcs, sys := pcs0[k := Begin], sys0;
      ReleaseKeeps(env, w0, steps, pcs0, sys0, k, Begin);
      while !pcs[k].Over?
        invariant Inv(env, w0, steps, pcs, sys)
        invariant |pcs| == |pcs0| && !pcs[k].Idle?
        invariant forall j :: 0 <= j < |pcs| && j != k ==> pcs[j] == pcs0[j]
        invariant Grows(steps, sys0, sys, k, k + 1)
        decreases Rank(steps[k], pcs[k])
      {
        pcs, sys := Move(env, w0, k, pcs, sys, sys0, k, k + 1);
      }
    }

    /** Starts a goroutine for every member. */
    method Spawn<W(!new)>(env: Env<W>, ghost w0: W, lo: nat, batch: seq<nat>, pcs0: seq<Pc>, sys: Sys<W>)
      returns (pcs: seq<Pc>)
      requires Inv(env, w0, steps, pcs0, sys) && lo + |batch| <= |steps|
      requires forall j :: 0 <= j < |batch| ==> batch[j] == lo + j
      requires AllReady(steps, pcs0, sys.log, lo, lo + |batch|)
      ensures Inv(env, w0, steps, pcs, sys) && |pcs| == |pcs0|
      ensures forall k :: 0 <= k < |pcs| ==> pcs[k] == if lo <= k < lo + |batch| then Enter else pcs0[k]
    {
      pcs := pcs0;
      for j := 0 to |batch|
        invariant Inv(env, w0, steps, pcs, sys) && |pcs| == |steps|
        invariant forall k :: 0 <= k < |pcs| ==> pcs[k] == if lo <= k < lo + j then Enter else pcs0[k]
      {
        ReleaseKeeps(env, w0, steps, pcs, sys, batch[j], Enter);
        pcs := pcs[batch[j] := Enter];
      }
    }

    /** Every member of the batch in its own goroutine, until all have finished. */
    method RunAutoBatch<W(!new)>(env: Env<W>, ghost w0: W, lo: nat, batch: seq<nat>, pcs0: seq<Pc>, sys0: Sys<W>)
      returns (outStates: map<string, StepState>, outErrs: set<string>, pcs: seq<Pc>, sys: Sys<W>)
      requires Inv(env, w0, steps, pcs0, sys0) && lo + |batch| <= |steps|
      requires forall j :: 0 <= j < |batch| ==> batch[j] == lo + j
      requires AllReady(steps, pcs0, sys0.log, lo, lo + |batch|)
      ensures Inv(env, w0, steps, pcs, sys) && Returned(steps, pcs0, pcs, lo, lo + |batch|, outStates)
      ensures forall n :: n in outErrs <==> n in outStates && outStates[n] == Failed
      ensures Grows(steps, sys0, sys, lo, lo + |batch|)
      ensures !Alive(env, sys0) ==> sys.log == sys0.log && forall k :: lo <= k < lo + |batch| ==> pcs[k] == Over(Failed)
    {
      pcs := Spawn(env, w0, lo, batch, pcs0, sys0);
      ghost var spawned := pcs;
      pcs, sys := RunMembers(env, w0, lo, lo + |batch|, pcs, sys0);
      assert forall k :: 0 <= k < |pcs| && !(lo <= k < lo + |batch|) ==> pcs[k] == spawned[k];
      outStates, outErrs := CollectResults(lo, batch, pcs);
    }

    /** One of the goroutines that have not returned takes its next action. */
    method Turn<W(!new)>(env: Env<W>, ghost w0: W, lo: nat, hi: nat, pcs0: seq<Pc>, sys0: Sys<W>, ghost from: Sys<W>)
      returns (pcs: seq<Pc>, sys: Sys<W>)
      requires Inv(env, w0, steps, pcs0, sys0) && lo <= hi <= |steps| && Grows(steps, from, sys0, lo, hi)
      requires Live(pcs0, lo, hi) != [] && forall k :: lo <= k < hi ==> !pcs0[k].Idle?
      ensures Inv(env, w0, steps, pcs, sys) && |pcs| == |pcs0| && Grows(steps, from, sys, lo, hi)
      ensures forall k :: 0 <= k < |pcs| ==> if lo <= k < hi then !pcs[k].Idle? else pcs[k] == pcs0[k]
      ensures 0 <= Work(steps, pcs0, 0) && Work(steps, pcs, 0) < Work(steps, pcs0, 0)
      ensures !Alive(env, sys0) && NoneBegun(pcs0, lo, hi) ==>
                !Alive(env, sys) && sys.log == sys0.log && NoneBegun(pcs, lo, hi)
    {
      var live := Live(pcs0, lo, hi);
      var k := live[env.pick(sys0.clock) % |live|];
      assert k in live;
      pcs, sys := Move(env, w0, k, pcs0, sys0, from, lo, hi);
    }

    /** The goroutines move, in any order, until all have returned. */
    method RunMembers<W(!new)>(env: Env<W>, ghost w0: W, lo: nat, hi: nat, pcs0: seq<Pc>, sys0: Sys<W>)
      returns (pcs: seq<Pc>, sys: Sys<W>)
      requires Inv(env, w0, steps, pcs0, sys0) && lo <= hi <= |steps|
      requires forall k :: lo <= k < hi ==> !pcs0[k].Idle?
      ensures Inv(env, w0, steps, pcs, sys) && |pcs| == |pcs0|
      ensures forall k :: 0 <= k < |pcs| ==> if lo <= k < hi then pcs[k].Over? else pcs[k] == pcs0[k]
      ensures Grows(steps, sys0, sys, lo, hi)
      ensures !Alive(env, sys0) && NoneBegun(pcs0, lo, hi) ==> sys.log == sys0.log && NoneBegun(pcs, lo, hi)
    {
      pcs, sys := pcs0, sys0;
      while Live(pcs, lo, hi) != []
        invariant Inv(env, w0, steps, pcs, sys) && |pcs| == |steps|
        invariant forall k :: 0 <= k < |pcs| ==> if lo <= k < hi then !pcs[k].Idle? else pcs[k] == pcs0[k]
        invariant Grows(steps, sys0, sys, lo, hi)
        invariant !Alive(env, sys0) && NoneBegun(pcs0, lo, hi) ==>
                    !Alive(env, sys) && sys.log == sys0.log && NoneBegun(pcs, lo, hi)
        decreases Work(steps, pcs, 0)
      {
        pcs, sys := Turn(env, w0, lo, hi, pcs, sys, sys0);
      }
      forall k | lo <= k < hi ensures pcs[k].Over? {
        assert k !in Live(pcs, lo, hi);
      }
    }

    /** The results channel, drained into the two maps. */
    method CollectResults(lo: nat, batch: seq<nat>, pcs: seq<Pc>)
      returns (outStates: map<string, StepState>, outErrs: set<string>)
      requires WellFormed(steps) && |pcs| == |steps| && lo + |batch| <= |steps|
      requires forall j :: 0 <= j < |batch| ==> batch[j] == lo + j
      requires forall k :: lo <= k < lo + |batch| ==> pcs[k].Over?
      ensures Holding(steps, pcs, lo, lo + |batch|, outStates)
      ensures forall n :: n in outErrs <==> n in outStates && outStates[n] == Failed
    {
      outStates, outErrs := map[], {};
      for j := 0 to |batch|
        invariant Holding(steps, pcs, lo, lo + j, outStates)
        invariant forall n :: n in outErrs <==> n in outStates && outStates[n] == Failed
      {
        var name, state := steps[batch[j]].name, pcs[batch[j]].state;
        OneMoreResult(steps, pcs, lo, lo + j, outStates);
        outStates := outStates[name := state];
        if state == Failed {
          outErrs := outErrs + {name};
        }
      }
    }

    /** One step on its own, recorded. */
    method RunAlone<W(!new)>(env: Env<W>, ghost w0: W, i: nat, pcs0: seq<Pc>, sys0: Sys<W>,
                             states0: map<string, StepState>, firstErr0: Option<string>)
      returns (pcs: seq<Pc>, sys: Sys<W>, states: map<string, StepState>, firstErr: Option<string>)
      requires LoopInv(env, w0, steps, pcs0, sys0, states0, firstErr0, i) && i < |steps| && Calm(env, sys0)
      requires forall d :: d in steps[i].deps && d in states0 ==> states0[d] != Failed
      ensures LoopInv(env, w0, steps, pcs, sys, states, firstErr, i + 1)
    {
      ReadyDeps(env, steps, pcs0, sys0, states0, i, i);
      pcs, sys := RunStep(env, w0, i, pcs0, sys0);
      OrderGrows(steps, sys0.log, sys.log, i, i + 1);
      StopsGrow(env, steps, sys0, sys, i, i + 1);
      LoopOne(steps, pcs0, pcs, states0, firstErr0, i);
      states := states0[steps[i].name := pcs[i].state];
      firstErr := if pcs[i].state == Failed && firstErr0.None? then Some(steps[i].name) else firstErr0;
    }

    /** The collected steps run as a batch, and their states are merged into the map. */
    method RunCollected<W(!new)>(env: Env<W>, ghost w0: W, lo: nat, batch: seq<nat>, pcs0: seq<Pc>, sys0: Sys<W>,
                                 states0: map<string, StepState>)
      returns (pcs: seq<Pc>, sys: Sys<W>, more: map<string, StepState>, errs: set<string>)
      requires Inv(env, w0, steps, pcs0, sys0) && Ordered(steps, sys0.log, lo)
      requires StopsWhenDone(env, steps, sys0) && Calm(env, sys0)
      requires lo + |batch| <= |steps| && Recorded(steps, pcs0, states0, lo)
      requires forall j :: 0 <= j < |batch| ==> batch[j] == lo + j
      requires AllJoin(steps, lo, lo + |batch|, states0) && AllReady(steps, pcs0, sys0.log, lo, lo + |batch|)
      ensures Inv(env, w0, steps, pcs, sys) && Ordered(steps, sys.log, lo + |batch|)
      ensures StopsWhenDone(env, steps, sys)
      ensures Recorded(steps, pcs, states0 + more, lo + |batch|)
      ensures forall s :: s in states0 ==> s !in more
      ensures forall n :: n in errs <==> n in more && more[n] == Failed
    {
      more, errs, pcs, sys := RunAutoBatch(env, w0, lo, batch, pcs0, sys0);
      BatchIsOver(env, steps, pcs0, states0, lo, |batch|, pcs, more, sys0, sys);
    }

    /** A batch of parallel steps, recorded. */
    method RunGroup<W(!new)>(env: Env<W>, ghost w0: W, i0: nat, pcs0: seq<Pc>, sys0: Sys<W>,
                             states0: map<string, StepState>, firstErr0: Option<string>)
      returns (i: nat, pcs: seq<Pc>, sys: Sys<W>, states: map<string, StepState>, firstErr: Option<string>)
      requires LoopInv(env, w0, steps, pcs0, sys0, states0, firstErr0, i0) && i0 < |steps| && Calm(env, sys0)
      requires forall d :: d in steps[i0].deps && d in states0 ==> states0[d] != Failed
      requires steps[i0].kind == Auto && steps[i0].parallel
      ensures i0 < i <= |steps|
      ensures LoopInv(env, w0, steps, pcs, sys, states, firstErr, i)
    {
      var batch := CollectAutoBatch(i0, states0);
      assert Joins(steps, i0, i0, states0);
      if |batch| == 0 {
        assert false;
      }
      var batchStates, batchErrs;
      ReadyBatch(env, steps, pcs0, sys0, states0, i0, |batch|);
      pcs, sys, batchStates, batchErrs := RunCollected(env, w0, i0, batch, pcs0, sys0, states0);
      i, states := i0 + |batch|, states0 + batchStates;
      firstErr := PickErr(states0, firstErr0, batchStates, batchErrs);
    }

    /** Without an earlier error, any failed member of the batch provides one. */
    static method PickErr(states: map<string, StepState>, firstErr0: Option<string>,
                          more: map<string, StepState>, errs: set<string>)
      returns (firstErr: Option<string>)
      requires FirstErr(states, firstErr0) && forall s :: s in states ==> s !in more
      requires forall n :: n in errs <==> n in more && more[n] == Failed
      ensures FirstErr(states + more, firstErr)
      ensures firstErr0.Some? ==> firstErr == firstErr0
    {
      firstErr := firstErr0;
      if errs != {} && firstErr.None? {
        var name :| name in errs;
        firstErr := Some(name);
      }
      assert firstErr.None? ==> errs == {} && forall n :: n in more ==> n !in errs;
    }

    /** A pipeline runs once. */
    method Run<W(!new)>(env: Env<W>, clock0: nat, w0: W) returns (err: Option<RunError>, sys: Sys<W>)
      requires WellFormed(steps) && Monotone(env)
      modifies this`started
      ensures started
      ensures old(started) ==> err == Some(AlreadyStarted) && sys == Start(clock0, w0)
      ensures !old(started) ==> Accounted(env, steps, w0, err, sys)
      ensures !old(started) && env.cancelled(clock0) ==> |sys.log| == 1
    {
      if started {
        return Some(AlreadyStarted), Start(clock0, w0);
      }
      started := true;
      err, sys := RunSteps(env, clock0, w0);
    }

    /** The context is alive: the next step is skipped, or run alone, or run with others. */
    method RunNext<W(!new)>(env: Env<W>, ghost w0: W, i0: nat, pcs0: seq<Pc>, sys0: Sys<W>,
                            states0: map<string, StepState>, firstErr0: Option<string>)
      returns (i: nat, pcs: seq<Pc>, sys: Sys<W>, states: map<string, StepState>, firstErr: Option<string>)
      requires LoopInv(env, w0, steps, pcs0, sys0, states0, firstErr0, i0) && i0 < |steps| && Alive(env, sys0)
      ensures i0 < i <= |steps|
      ensures LoopInv(env, w0, steps, pcs, sys, states, firstErr, i)
    {
      WaitKeeps(env, w0, steps, pcs0, sys0);
      CalmWhenAlive(env, sys0);
      var polled := Idly(sys0);
      var m := steps[i0];
      var dep := FailedDep(m, states0);
      if dep.Some? {
        ConcludeStates(env, steps, pcs0, sys0);
        LoopSkip(env, w0, steps, pcs0, polled, states0, firstErr0, i0, dep.value);
        return i0 + 1, pcs0[i0 := Over(Skipped)], Emit(env, polled, EvSkipped(m.name)), states0[m.name := Skipped], firstErr0;
      }
      if m.kind != Auto || !m.parallel {
        pcs, sys, states, firstErr := RunAlone(env, w0, i0, pcs0, polled, states0, firstErr0);
        i := i0 + 1;
        return;
      }
      i, pcs, sys, states, firstErr := RunGroup(env, w0, i0, pcs0, polled, states0, firstErr0);
    }

    /** The scheduler's loop.  `pcs` says where each step's goroutine is. */
    method RunSteps<W(!new)>(env: Env<W>, clock0: nat, w0: W) returns (err: Option<RunError>, sys: Sys<W>)
      requires WellFormed(steps) && Monotone(env)
      ensures Accounted(env, steps, w0, err, sys)
      ensures env.cancelled(clock0) ==> |sys.log| == 1
    {
      sys := Start(clock0, w0);
      var pcs: seq<Pc> := seq(|steps|, _ => Idle);
      InvStart(env, w0, steps, pcs, clock0);
      var states: map<string, StepState> := map[];
      var firstErr: Option<string> := None;
      var i := 0;
      while i < |steps|
        invariant LoopInv(env, w0, steps, pcs, sys, states, firstErr, i)
        invariant env.cancelled(clock0) ==> sys.log == [] && sys.clock == clock0
        decreases |steps| - i
      {
        if env.cancelled(sys.clock) {
          err, sys := Some(Cancelled), Finish(env, w0, pcs, sys, Some(Cancelled));
          return;
        }
        i, pcs, sys, states, firstErr := RunNext(env, w0, i, pcs, sys, states, firstErr);
      }
      if env.cancelled(sys.clock) {
        err, sys := Some(Cancelled), Finish(env, w0, pcs, sys, Some(Cancelled));
        return;
      }
      err := if firstErr.None? then None else Some(StepError(firstErr.value));
      ConcludeErr(env, steps, pcs, sys, states, firstErr);
      sys := Finish(env, w0, pcs, sys, err);
    }

    /** The context has been looked at, and EvPipelineDone is emitted. */
    function Finish<W(!new)>(env: Env<W>, ghost w0: W, pcs: seq<Pc>, sys: Sys<W>, err: Option<RunError>): (sys': Sys<W>)
      requires Inv(env, w0, steps, pcs, sys) && Justified(env, steps, pcs, sys, err)
      requires InListOrder(steps, sys.log) && StopsWhenDone(env, steps, sys)
      ensures Accounted(env, steps, w0, err, sys') && sys'.clock == sys.clock + 2 && |sys'.log| == |sys.log| + 1
    {
      EndReported(env, w0, steps, pcs, sys, err);
      Emit(env, Idly(sys), EvPipelineDone(err.Some?))
    }
  }

  /** The invariant of Run's loop. */
  ghost predicate LoopInv<W(!new)>(env: Env<W>, w0: W, steps: seq<Meta>, pcs: seq<Pc>, sys: Sys<W>,
                                   states: map<string, StepState>, firstErr: Option<string>, i: nat)
  {
    && Recorded(steps, pcs, states, i)
    && Inv(env, w0, steps, pcs, sys)
    && Ordered(steps, sys.log, i)
    && StopsWhenDone(env, steps, sys)
    && FirstErr(states, firstErr)
  }

  ghost predicate FirstErr(states: map<string, StepState>, firstErr: Option<string>) {
    && (firstErr.Some? ==> firstErr.value in states && states[firstErr.value] == Failed)
    && (firstErr.None? ==> forall n :: n in states ==> states[n] != Failed)
  }

  lemma OneMoreResult(steps: seq<Meta>, pcs: seq<Pc>, lo: nat, k: nat, more: map<string, StepState>)
    requires WellFormed(steps) && |pcs| == |steps| && lo <= k < |steps| && pcs[k].Over? && Holding(steps, pcs, lo, k, more)
    ensures steps[k].name !in more && Holding(steps, pcs, lo, k + 1, more[steps[k].name := pcs[k].state])
  {
    var more' := more[steps[k].name := pcs[k].state];
    assert !Among(steps, lo, k, steps[k].name);
    forall n ensures n in more' <==> Among(steps, lo, k + 1, n) {
      assert n in more <==> Among(steps, lo, k, n);
      assert Among(steps, lo, k + 1, n) <==> Among(steps, lo, k, n) || n == steps[k].name;
    }
    forall l | lo <= l < k + 1 ensures EndedIn(steps, pcs, more', l) {
      assert l < k ==> EndedIn(steps, pcs, more, l);
    }
  }

  lemma RecordOne(steps: seq<Meta>, pcs: seq<Pc>, states: map<string, StepState>, i: nat, st: StepState)
    requires WellFormed(steps) && Recorded(steps, pcs, states, i) && i < |steps|
    ensures Recorded(steps, pcs[i := Over(st)], states[steps[i].name := st], i + 1)
    ensures steps[i].name !in states
  {
    var states' := states[steps[i].name := st];
    forall n ensures n in states' <==> Earlier(steps, i + 1, n) {
      if Earlier(steps, i + 1, n) {
        var k :| 0 <= k < i + 1 && steps[k].name == n;
        assert k < i ==> Earlier(steps, i, n);
      }
      if Earlier(steps, i, n) {
        var k :| 0 <= k < i && steps[k].name == n;
        assert Earlier(steps, i + 1, n);
      }
      if n == steps[i].name {
        assert Earlier(steps, i + 1, n);
      }
    }
    assert steps[i].name !in states by {
      assert !Earlier(steps, i, steps[i].name);
    }
  }

  /** The verdict on every step that ended is in the log. */
  ghost predicate Reported(steps: seq<Meta>, pcs: seq<Pc>, log: seq<Entry>)
    requires |pcs| == |steps|
  {
    forall k {:trigger pcs[k]} :: 0 <= k < |steps| && pcs[k].Over? ==> Verdicts(log, steps[k].name) == [pcs[k].state]
  }

  lemma SkipKeeps<W(!new)>(env: Env<W>, w0: W, steps: seq<Meta>, pcs: seq<Pc>, sys: Sys<W>,
                           states: map<string, StepState>, i: nat, dep: string)
    requires Inv(env, w0, steps, pcs, sys) && Recorded(steps, pcs, states, i) && i < |steps|
    requires dep in steps[i].deps && dep in states && states[dep] == Failed && Reported(steps, pcs, sys.log)
    ensures Inv(env, w0, steps, pcs[i := Over(Skipped)], Emit(env, sys, EvSkipped(steps[i].name)))
  {
    assert Earlier(steps, i, dep);
    var j :| 0 <= j < i && steps[j].name == dep;
    BlockKeeps(env, w0, steps, pcs, sys, i, j);
  }

  lemma SkipInOrder<W>(env: Env<W>, steps: seq<Meta>, sys: Sys<W>, i: nat)
    requires WellFormed(steps) && i < |steps| && Ordered(steps, sys.log, i)
    requires StopsWhenDone(env, steps, sys) && Calm(env, sys)
    ensures Ordered(steps, Emit(env, sys, EvSkipped(steps[i].name)).log, i + 1)
    ensures StopsWhenDone(env, steps, Emit(env, sys, EvSkipped(steps[i].name)))
  {
    var e := Emitted(EvSkipped(steps[i].name), env.cancelled(sys.clock) && env.lost(sys.clock));
    StepOfIs(steps, e, i);
    StopsGrow(env, steps, sys, Emit(env, sys, EvSkipped(steps[i].name)), i, i + 1);
    EntryInOrder(steps, sys.log, e, i);
  }

  lemma LoopSkip<W(!new)>(env: Env<W>, w0: W, steps: seq<Meta>, pcs: seq<Pc>, sys: Sys<W>,
                          states: map<string, StepState>, firstErr: Option<string>, i: nat, dep: string)
    requires LoopInv(env, w0, steps, pcs, sys, states, firstErr, i) && i < |steps| && Calm(env, sys)
    requires dep in steps[i].deps && dep in states && states[dep] == Failed && Reported(steps, pcs, sys.log)
    ensures LoopInv(env, w0, steps, pcs[i := Over(Skipped)], Emit(env, sys, EvSkipped(steps[i].name)),
                    states[steps[i].name := Skipped], firstErr, i + 1)
  {
    SkipKeeps(env, w0, steps, pcs, sys, states, i, dep);
    SkipInOrder(env, steps, sys, i);
    RecordOne(steps, pcs, states, i, Skipped);
  }

  lemma LoopOne(steps: seq<Meta>, pcs0: seq<Pc>, pcs: seq<Pc>,
                states: map<string, StepState>, firstErr: Option<string>, i: nat)
    requires WellFormed(steps) && Recorded(steps, pcs0, states, i) && i < |steps| && FirstErr(states, firstErr)
    requires |pcs| == |pcs0| && pcs == pcs0[i := pcs[i]] && pcs[i].Over?
    ensures Recorded(steps, pcs, states[steps[i].name := pcs[i].state], i + 1)
    ensures FirstErr(states[steps[i].name := pcs[i].state],
                     if pcs[i].state == Failed && firstErr.None? then Some(steps[i].name) else firstErr)
  {
    RecordOne(steps, pcs0, states, i, pcs[i].state);
  }

  /** Merging the results of a batch into the states map. */
  lemma RecordBatch(steps: seq<Meta>, pcs0: seq<Pc>, states: map<string, StepState>, i: nat, n: nat,
                    pcs: seq<Pc>, more: map<string, StepState>)
    requires WellFormed(steps) && Recorded(steps, pcs0, states, i) && i + n <= |steps|
    requires Returned(steps, pcs0, pcs, i, i + n, more)
    ensures Recorded(steps, pcs, states + more, i + n)
    ensures forall s :: s in states ==> s !in more
  {
    var all := states + more;
    forall s ensures s in all <==> Earlier(steps, i + n, s) {
      assert s in more <==> Among(steps, i, i + n, s);
      EarlierOrAmong(steps, i, n, s);
    }
    forall s | s in states ensures s !in more {
      assert s in more <==> Among(steps, i, i + n, s);
      assert Earlier(steps, i, s);
    }
    forall k | 0 <= k < i + n ensures steps[k].name in all && pcs[k] == Over(all[steps[k].name]) {
      if k < i {
        assert pcs[k] == pcs0[k];
        assert Earlier(steps, i, steps[k].name);
      } else {
        assert EndedIn(steps, pcs, more, k);
      }
    }
  }

  lemma EarlierOrAmong(steps: seq<Meta>, i: nat, n: nat, s: string)
    requires i + n <= |steps|
    ensures Earlier(steps, i + n, s) <==> Earlier(steps, i, s) || Among(steps, i, i + n, s)
  {
  }

  /** A batch that is over: its states are recorded, and the log is in the order of the list. */
  lemma BatchIsOver<W>(env: Env<W>, steps: seq<Meta>, pcs0: seq<Pc>, states: map<string, StepState>, i: nat, n: nat,
                       pcs: seq<Pc>, more: map<string, StepState>, sys: Sys<W>, sys': Sys<W>)
    requires WellFormed(steps) && Recorded(steps, pcs0, states, i) && i + n <= |steps|
    requires Returned(steps, pcs0, pcs, i, i + n, more)
    requires Ordered(steps, sys.log, i) && Grows(steps, sys, sys', i, i + n)
    requires StopsWhenDone(env, steps, sys) && Calm(env, sys) && |sys'.stamps| == |sys'.log|
    requires AllJoin(steps, i, i + n, states)
    ensures Recorded(steps, pcs, states + more, i + n) && Ordered(steps, sys'.log, i + n)
    ensures StopsWhenDone(env, steps, sys')
    ensures forall s :: s in states ==> s !in more
  {
    GroupInOrder(env, steps, sys, sys', i, i + n, states);
    RecordBatch(steps, pcs0, states, i, n, pcs, more);
  }

  /** The error Run returns, read off the log. */
  lemma ConcludeErr<W>(env: Env<W>, steps: seq<Meta>, pcs: seq<Pc>, sys: Sys<W>,
                       states: map<string, StepState>, firstErr: Option<string>)
    requires Ledger(env, steps, pcs, sys) && Recorded(steps, pcs, states, |steps|)
    requires firstErr.Some? ==> firstErr.value in states && states[firstErr.value] == Failed
    requires firstErr.None? ==> forall n :: n in states ==> states[n] != Failed
    ensures forall k :: 0 <= k < |steps| ==> pcs[k].Over?
    ensures firstErr.Some? <==> exists k :: 0 <= k < |steps| && pcs[k] == Over(Failed)
    ensures firstErr.Some? ==> exists k :: 0 <= k < |steps| && pcs[k] == Over(Failed) && steps[k].name == firstErr.value
  {
    if firstErr.Some? {
      var k :| 0 <= k < |steps| && steps[k].name == firstErr.value;
      assert pcs[k] == Over(Failed);
    }
  }

  lemma EndEntry(log: seq<Entry>, failed: bool, lost: bool, n: string)
    ensures var log' := log + [Emitted(EvPipelineDone(failed), lost)];
            && Verdicts(log', n) == Verdicts(log, n) && Runs(log', n) == Runs(log, n)
            && CallsOf(log', n) == CallsOf(log, n)
  {
    VerdictsAppend(log, Emitted(EvPipelineDone(failed), lost), n);
    CallsAppend(log, Emitted(EvPipelineDone(failed), lost), n);
  }

  /** The error is the context's if that is done; if not, every step has finished, and the error
      names a failed one. */
  ghost predicate Justified<W>(env: Env<W>, steps: seq<Meta>, pcs: seq<Pc>, sys: Sys<W>, err: Option<RunError>)
    requires |pcs| == |steps|
  {
    if !Alive(env, sys) then err == Some(Cancelled) && forall k :: 0 <= k < |steps| ==> pcs[k].Idle? || pcs[k].Over?
    else
      && (forall k :: 0 <= k < |steps| ==> pcs[k].Over?)
      && (err.Some? <==> exists k :: 0 <= k < |steps| && pcs[k] == Over(Failed))
      && (err.Some? ==>
            && err.value.StepError?
            && exists k :: 0 <= k < |steps| && pcs[k] == Over(Failed) && steps[k].name == err.value.step)
  }

  /** The run's last two ticks: a look at the context, and EvPipelineDone. */
  ghost predicate Reports<W>(env: Env<W>, sys: Sys<W>, sys': Sys<W>, e: Entry, failed: bool) {
    && e.Emitted? && e.event == EvPipelineDone(failed) && (Uncancelled(env) ==> !e.lost)
    && sys'.log == sys.log + [e] && |sys'.stamps| == |sys'.log| && sys.stamps <= sys'.stamps
    && sys'.world == sys.world && sys'.clock == sys.clock + 2
  }

  function LastEntry<W>(env: Env<W>, sys: Sys<W>, failed: bool): Entry {
    Emitted(EvPipelineDone(failed), env.cancelled(sys.clock + 1) && env.lost(sys.clock + 1))
  }

  lemma Reporting<W>(env: Env<W>, sys: Sys<W>, failed: bool)
    requires Stamped(sys)
    ensures Reports(env, sys, Emit(env, Idly(sys), EvPipelineDone(failed)), LastEntry(env, sys, failed), failed)
  {
  }

  lemma EndReported<W(!new)>(env: Env<W>, w0: W, steps: seq<Meta>, pcs: seq<Pc>, sys: Sys<W>, err: Option<RunError>)
    requires Inv(env, w0, steps, pcs, sys) && Justified(env, steps, pcs, sys, err)
    requires InListOrder(steps, sys.log) && StopsWhenDone(env, steps, sys)
    ensures Accounted(env, steps, w0, err, Emit(env, Idly(sys), EvPipelineDone(err.Some?)))
  {
    Reporting(env, sys, err.Some?);
    Conclude(env, w0, steps, pcs, sys, err, Emit(env, Idly(sys), EvPipelineDone(err.Some?)), LastEntry(env, sys, err.Some?));
  }

  /** What holds when Run reports its end. */
  lemma Conclude<W(!new)>(env: Env<W>, w0: W, steps: seq<Meta>, pcs: seq<Pc>, sys: Sys<W>, err: Option<RunError>,
                          sys': Sys<W>, e: Entry)
    requires Inv(env, w0, steps, pcs, sys) && Justified(env, steps, pcs, sys, err)
    requires InListOrder(steps, sys.log) && StopsWhenDone(env, steps, sys) && Reports(env, sys, sys', e, err.Some?)
    ensures Accounted(env, steps, w0, err, sys')
  {
    EndReads(sys.log, e);
    MovedAlike(w0, steps, sys, sys');
    ConcludeLog(env, steps, pcs, sys, sys', e, err.Some?);
    Answers(env, steps, pcs, sys, sys'.log);
    if Alive(env, sys) {
      ConcludeComplete(env, w0, steps, pcs, sys, sys', err);
    }
    if Idempotent(env, steps) {
      ConcludeChecks(env, w0, steps, pcs, sys, sys');
    }
  }

  /** Nothing is read differently off the second log. */
  ghost predicate ReadsAlike(log: seq<Entry>, log': seq<Entry>) {
    forall n {:trigger Verdicts(log', n)} {:trigger Runs(log', n)} {:trigger CallsOf(log', n)} ::
      Verdicts(log', n) == Verdicts(log, n) && Runs(log', n) == Runs(log, n) && CallsOf(log', n) == CallsOf(log, n)
  }

  lemma EndReads(log: seq<Entry>, e: Entry)
    requires Ends(e)
    ensures ReadsAlike(log, log + [e])
  {
    var log' := log + [e];
    forall n ensures Verdicts(log', n) == Verdicts(log, n) && Runs(log', n) == Runs(log, n)
             ensures CallsOf(log', n) == CallsOf(log, n)
    {
      EndEntry(log, e.event.failed, e.lost, n);
    }
  }

  lemma MovedAlike<W>(w0: W, steps: seq<Meta>, sys: Sys<W>, sys': Sys<W>)
    requires Moved(w0, steps, sys) && ReadsAlike(sys.log, sys'.log) && sys'.world == sys.world
    ensures Moved(w0, steps, sys')
  {
  }

  /** What is promised of the log of every run. */
  lemma ConcludeLog<W>(env: Env<W>, steps: seq<Meta>, pcs: seq<Pc>, sys: Sys<W>, sys': Sys<W>, e: Entry, failed: bool)
    requires Ledger(env, steps, pcs, sys) && InListOrder(steps, sys.log) && StopsWhenDone(env, steps, sys)
    requires Reports(env, sys, sys', e, failed)
    requires ReadsAlike(sys.log, sys'.log)
    ensures WellLogged(env, steps, failed, sys')
  {
    ConcludeGuarded(steps, sys.log, e);
    TruthfulAppend(sys.log, e);
    ConcludeOnce(env, steps, pcs, sys);
    ConcludeOrder(steps, sys.log, e);
    ConcludeStops(env, steps, sys, sys', e);
    NoRetryGrows(env, sys, sys');
    assert forall p :: 0 <= p < |sys.log| ==> sys'.log[p] == sys.log[p] && sys.log[p] in sys.log;
    assert forall x :: x in sys'.log ==> x in sys.log || x == e;
  }

  /** What is promised of a run that is not cancelled. */
  lemma ConcludeComplete<W(!new)>(env: Env<W>, w0: W, steps: seq<Meta>, pcs: seq<Pc>, sys: Sys<W>, sys': Sys<W>,
                                  err: Option<RunError>)
    requires Inv(env, w0, steps, pcs, sys) && Justified(env, steps, pcs, sys, err) && Alive(env, sys)
    requires ReadsAlike(sys.log, sys'.log)
    requires sys.log <= sys'.log && |sys'.log| == |sys.log| + 1
    ensures Complete(steps, err, sys'.log) && (Fixed(env, w0) ==> AsReference(env, w0, steps, sys'.log))
  {
    ConcludeStates(env, steps, pcs, sys);
    assert forall k :: 0 <= k < |steps| ==> Verdicts(sys'.log, steps[k].name) == [pcs[k].state];
    forall p | 0 <= p < |sys'.log| - 1 && sys'.log[p].Emitted? ensures !sys'.log[p].lost {
      assert sys'.log[p] == sys.log[p] && sys.log[p] in sys.log;
    }
  }

  lemma ConcludeChecks<W(!new)>(env: Env<W>, w0: W, steps: seq<Meta>, pcs: seq<Pc>, sys: Sys<W>, sys': Sys<W>)
    requires Inv(env, w0, steps, pcs, sys) && Idempotent(env, steps)
    requires ReadsAlike(sys.log, sys'.log) && sys'.world == sys.world
    ensures ChecksHold(env, steps, w0, sys')
  {
    if AllSat(env, steps, w0) {
      forall k | 0 <= k < |steps| ensures Runs(sys.log, steps[k].name) > 0 ==> steps[k].kind == Handoff {
        assert Untouched(env, steps[k], pcs[k], sys);
      }
    }
    if AllDone(steps, sys'.log) {
      forall k | 0 <= k < |steps| && steps[k].kind != Handoff ensures Sat(env, steps[k].name, sys.world) {
        assert StepOk(env, steps[k], pcs[k], sys) && Verdicts(sys'.log, steps[k].name) == [Done];
        DoneIsOver(env, steps[k], pcs[k], sys);
        assert Holds(env, steps[k], pcs[k], sys.world);
      }
    }
  }

  lemma DoneIsOver<W>(env: Env<W>, m: Meta, pc: Pc, sys: Sys<W>)
    requires Kept(env, m, pc, sys) && Verdicts(sys.log, m.name) == [Done]
    ensures pc == Over(Done)
  {
  }

  lemma ConcludeStops<W>(env: Env<W>, steps: seq<Meta>, sys: Sys<W>, sys': Sys<W>, e: Entry)
    requires StopsWhenDone(env, steps, sys) && Ends(e)
    requires sys'.log == sys.log + [e] && |sys'.stamps| == |sys'.log| && sys.stamps <= sys'.stamps
    ensures StopsWhenDone(env, steps, sys')
  {
    forall p, q | 0 <= p < q < |sys'.log| ensures MayBegin(env, steps, sys', p, q) {
      if q < |sys.log| {
        assert MayBegin(env, steps, sys, p, q);
      }
    }
  }

  lemma ConcludeOrder(steps: seq<Meta>, log: seq<Entry>, e: Entry)
    requires InListOrder(steps, log) && Ends(e)
    ensures InListOrder(steps, log + [e])
  {
    var log' := log + [e];
    forall p, q | 0 <= p < q < |log'| ensures MayFollow(steps, log'[p], log'[q]) {
      if q < |log| {
        assert log'[p] == log[p] && log'[q] == log[q] && MayFollow(steps, log[p], log[q]);
      }
    }
  }

  lemma ConcludeOnce<W>(env: Env<W>, steps: seq<Meta>, pcs: seq<Pc>, sys: Sys<W>)
    requires Ledger(env, steps, pcs, sys)
    ensures OncePerStep(steps, sys.log)
  {
    forall k | 0 <= k < |steps|
      ensures |Verdicts(sys.log, steps[k].name)| <= 1
      ensures steps[k].optional ==> Verdicts(sys.log, steps[k].name) != [Failed]
      ensures Runs(sys.log, steps[k].name) <= Attempts(steps[k])
    {
      assert StepOk(env, steps[k], pcs[k], sys);
    }
  }

  lemma ConcludeStates<W>(env: Env<W>, steps: seq<Meta>, pcs: seq<Pc>, sys: Sys<W>)
    requires Ledger(env, steps, pcs, sys) && Alive(env, sys)
    ensures Reported(steps, pcs, sys.log)
  {
    forall k | 0 <= k < |steps| && pcs[k].Over? ensures Verdicts(sys.log, steps[k].name) == [pcs[k].state] {
      assert StepOk(env, steps[k], pcs[k], sys);
    }
  }

  lemma AnsweredWhenTold(m: Meta, pc: Pc, behindFailed: bool, calls: seq<Entry>, verdicts: seq<StepState>, done: bool)
    requires Told(m, pc, calls, done) && (pc.Over? || (pc.Idle? && done && verdicts == []))
    requires pc.Over? ==> verdicts == if calls == [] && pc.state == Failed then [] else [pc.state]
    requires (calls != [] ==> !behindFailed) && (pc == Over(Skipped) && calls == [] ==> behindFailed)
    ensures AnsweredBy(m, behindFailed, calls, verdicts, done)
  {
  }

  lemma FailedIsUnsettled(log: seq<Entry>, m: Meta)
    requires BehindFailed(log, m)
    ensures !DepsSettled(log, m)
  {
    var d :| d in m.deps && Verdicts(log, d) == [Failed];
  }

  lemma BehindAlike(log: seq<Entry>, log': seq<Entry>, m: Meta)
    requires BehindFailed(log, m) && forall n :: Verdicts(log', n) == Verdicts(log, n)
    ensures BehindFailed(log', m)
  {
    var d :| d in m.deps && Verdicts(log, d) == [Failed];
    assert d in m.deps && Verdicts(log', d) == [Failed];
  }

  lemma ConcludeAnswered(m: Meta, pc: Pc, log: seq<Entry>, log': seq<Entry>, done: bool)
    requires ToldOk(m, pc, log, done) && (pc.Over? || (pc.Idle? && done && Verdicts(log, m.name) == []))
    requires ReadsAlike(log, log')
    ensures Answered(m, log', done)
  {
    if BehindFailed(log, m) {
      FailedIsUnsettled(log, m);
      BehindAlike(log, log', m);
    } else if BehindFailed(log', m) {
      BehindAlike(log', log, m);
    }
    AnsweredWhenTold(m, pc, BehindFailed(log', m), CallsOf(log', m.name), Verdicts(log', m.name), done);
  }

  lemma Answers<W>(env: Env<W>, steps: seq<Meta>, pcs: seq<Pc>, sys: Sys<W>, log': seq<Entry>)
    requires Ledger(env, steps, pcs, sys) && AllTold(steps, pcs, sys.log, !Alive(env, sys))
    requires forall k :: 0 <= k < |steps| ==> pcs[k].Over? || (pcs[k].Idle? && !Alive(env, sys))
    requires ReadsAlike(sys.log, log')
    ensures AllAnswered(steps, log', !Alive(env, sys))
  {
    forall k | 0 <= k < |steps| ensures Answered(steps[k], log', !Alive(env, sys)) {
      assert ToldOk(steps[k], pcs[k], sys.log, !Alive(env, sys));
      assert StepOk(env, steps[k], pcs[k], sys);
      ConcludeAnswered(steps[k], pcs[k], sys.log, log', !Alive(env, sys));
    }
  }

  lemma ConcludeGuarded(steps: seq<Meta>, log: seq<Entry>, e: Entry)
    requires Guarded(steps, log) && !Starts(e)
    ensures Guarded(steps, log + [e])
  {
    var log' := log + [e];
    forall p, j | 0 <= p < |log'| && 0 <= j < |steps| && Starts(log'[p]) && log'[p].name == steps[j].name
      ensures DepsSettled(log'[..p], steps[j]) && (log'[p].Ran? ==> Announced(log'[..p], steps[j].name))
    {
      assert log'[..p] == log[..p] && log'[p] == log[p];
    }
  }

  // ---------------------------------------------------------------- what the runs promise

  /** The same list with Parallel ignored. */
  function Serial(steps: seq<Meta>): seq<Meta> {
    seq(|steps|, k requires 0 <= k < |steps| => steps[k].(parallel := false))
  }

  /** A log in the order of that list, as every run keeps it, goes through the steps one after
      the other. */
  lemma SerialIsOneByOne(steps: seq<Meta>, log: seq<Entry>, p: nat, q: nat)
    requires InListOrder(Serial(steps), log) && p < q < |log| && StepOf(steps, log[q]) >= 0
    ensures StepOf(steps, log[p]) <= StepOf(steps, log[q])
  {
    SerialStepOf(steps, log[p]);
    SerialStepOf(steps, log[q]);
    assert MayFollow(Serial(steps), log[p], log[q]);
  }

  lemma {:induction false} SerialStepOf(steps: seq<Meta>, e: Entry)
    ensures StepOf(Serial(steps), e) == StepOf(steps, e)
  {
    if steps != [] {
      assert Serial(steps)[..|steps| - 1] == Serial(steps[..|steps| - 1]);
      SerialStepOf(steps[..|steps| - 1], e);
    }
  }

  lemma {:induction false} FinalIgnoresParallel<W>(env: Env<W>, w0: W, steps: seq<Meta>, k: nat)
    requires k < |steps|
    ensures Final(env, w0, Serial(steps), k) == Final(env, w0, steps, k)
    ensures Blocked(env, w0, Serial(steps), k) == Blocked(env, w0, steps, k)
    ensures RunCount(env, w0, Serial(steps), k) == RunCount(env, w0, steps, k)
  {
    SameRunsFrom(env, env, w0, steps[k], Serial(steps)[k], 0);
    forall j | 0 <= j < k ensures Final(env, w0, Serial(steps), j) == Final(env, w0, steps, j) {
      FinalIgnoresParallel(env, w0, steps, j);
    }
    var serial := Serial(steps);
    assert Achieves(env, w0, serial[k]) == Achieves(env, w0, steps[k]) by {
      assert Attempts(serial[k]) == Attempts(steps[k]);
    }
    if Blocked(env, w0, steps, k) {
      var j :| 0 <= j < k && steps[j].name in steps[k].deps && Final(env, w0, steps, j) == Failed;
      assert serial[j].name in serial[k].deps && Final(env, w0, serial, j) == Failed;
    }
    if Blocked(env, w0, serial, k) {
      var j :| 0 <= j < k && serial[j].name in serial[k].deps && Final(env, w0, serial, j) == Failed;
      assert steps[j].name in steps[k].deps && Final(env, w0, steps, j) == Failed;
    }
  }

  /**
   Grouping preserves meaning: for fixed outcomes, and with neither run reporting
   cancellation, a run with batches, interleaved in whatever order, settles every step as the run of the same list one by
   one does, calls its Run as often, and fails in the same cases.
   */
  lemma GroupingPreservesMeaning<W(!new)>(env: Env<W>, env': Env<W>, steps: seq<Meta>, w0: W,
                                          err: Option<RunError>, sys: Sys<W>, err': Option<RunError>, sys': Sys<W>)
    requires Fixed(env, w0) && err != Some(Cancelled) && err' != Some(Cancelled)
    requires env'.check == env.check && env'.succeeds == env.succeeds
    requires Accounted(env, steps, w0, err, sys) && Accounted(env', Serial(steps), w0, err', sys')
    ensures forall k :: 0 <= k < |steps| ==>
              && Verdicts(sys.log, steps[k].name) == Verdicts(sys'.log, steps[k].name)
              && Runs(sys.log, steps[k].name) == Runs(sys'.log, steps[k].name)
    ensures err.Some? <==> err'.Some?
  {
    var serial := Serial(steps);
    assert Fixed(env', w0);
    forall k | 0 <= k < |steps|
      ensures Verdicts(sys.log, steps[k].name) == Verdicts(sys'.log, serial[k].name)
      ensures Runs(sys.log, steps[k].name) == Runs(sys'.log, serial[k].name)
      ensures steps[k].name == serial[k].name
    {
      FinalIgnoresParallel(env, w0, steps, k);
      SameOutcome(env, env', w0, serial, k);
    }
    if err.Some? {
      var k :| 0 <= k < |steps| && Verdicts(sys.log, steps[k].name) == [Failed];
      assert Verdicts(sys'.log, serial[k].name) == [Failed];
    }
    if err'.Some? {
      var k :| 0 <= k < |serial| && Verdicts(sys'.log, serial[k].name) == [Failed];
      assert Verdicts(sys.log, steps[k].name) == [Failed];
    }
  }

  /** The reference outcome depends on the answers only. */
  lemma {:induction false} SameOutcome<W>(env: Env<W>, env': Env<W>, w0: W, steps: seq<Meta>, k: nat)
    requires k < |steps| && env'.check == env.check && env'.succeeds == env.succeeds
    ensures Final(env', w0, steps, k) == Final(env, w0, steps, k)
    ensures RunCount(env', w0, steps, k) == RunCount(env, w0, steps, k)
  {
    SameRunsFrom(env, env', w0, steps[k], steps[k], 0);
    forall j | 0 <= j < k ensures Final(env', w0, steps, j) == Final(env, w0, steps, j) {
      SameOutcome(env, env', w0, steps, j);
    }
    assert Achieves(env', w0, steps[k]) == Achieves(env, w0, steps[k]);
    assert Verdict(env', w0, steps[k]) == Verdict(env, w0, steps[k]);
    assert Blocked(env', w0, steps, k) == Blocked(env, w0, steps, k);
  }

  /**
   Idempotent relaunch: after a run in which every step ended done, a second run,
   cancelled or not, calls Run on hand-offs only; and if it calls none, it leaves the world
   as the first run left it.
   */
  lemma RelaunchRunsHandoffsOnly<W(!new)>(env: Env<W>, env': Env<W>, steps: seq<Meta>, w0: W,
                                          err: Option<RunError>, sys: Sys<W>, err': Option<RunError>, sys': Sys<W>)
    requires Idempotent(env, steps) && Idempotent(env', steps) && env'.check == env.check
    requires Accounted(env, steps, w0, err, sys) && AllDone(steps, sys.log)
    requires Accounted(env', steps, sys.world, err', sys')
    ensures forall k :: 0 <= k < |steps| && Runs(sys'.log, steps[k].name) > 0 ==> steps[k].kind == Handoff
    ensures (forall k :: 0 <= k < |steps| ==> steps[k].kind != Handoff) ==> sys'.world == sys.world
  {
    assert AllSat(env', steps, sys.world);
  }
}
