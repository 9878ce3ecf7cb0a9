/**
 The calls of one step and what they answered.  The answers alone decide how a step goes on,
 and a done context only ends it early: this module states the order of its Checks and Runs,
 says which answer lets it go on, and proves that every action keeps to it, for answers that
 may change from call to call.
 */
module Calls {
  import opened Options
  import opened Commands
  import opened Steps

  /** The Checks and Runs of the named step in the order of the log. */
  function CallsOf(log: seq<Entry>, n: string): seq<Entry> {
    if log == [] then []
    else
      var last := log[|log| - 1];
      var calls := CallsOf(log[..|log| - 1], n);
      if IsCallOf(last, n) then calls + [last] else calls
  }

  predicate IsCallOf(e: Entry, n: string) {
    Starts(e) && e.name == n
  }

  lemma CallsAppend(log: seq<Entry>, e: Entry, n: string)
    ensures CallsOf(log + [e], n) == if IsCallOf(e, n) then CallsOf(log, n) + [e] else CallsOf(log, n)
  {
    assert (log + [e])[..|log|] == log;
  }

  /** Checks and Runs alternate; a hand-off, which has no Check of its own, starts with Run. */
  predicate IsTurnOfRun(m: Meta, i: nat) {
    (i % 2 == 0) == (m.kind == Handoff)
  }

  /** The attempt that the i-th call belongs to. */
  function AttemptOf(m: Meta, i: nat): nat {
    if m.kind == Handoff then (i + 1) / 2 else i / 2
  }

  predicate IsCall(m: Meta, i: nat, e: Entry) {
    IsCallOf(e, m.name) && (e.Ran? <==> IsTurnOfRun(m, i))
  }

  predicate Succeeded(e: Entry)
    requires Starts(e)
  {
    if e.Ran? then e.ok else e.answer == Satisfied
  }

  /** The answer e of the i-th call makes the step call again: a Run that failed while attempts
      are left, or a Check that is not satisfied; only the first Check ends the step by an
      error. */
  predicate GoesOn(m: Meta, i: nat, e: Entry)
    requires Starts(e)
  {
    && !Succeeded(e)
    && (e.Ran? ==> AttemptOf(m, i) + 1 < Attempts(m))
    && (i == 0 && e.Checked? ==> e.answer == Unsatisfied)
  }

  /** Calls in their order, none of which ended the step. */
  ghost predicate Open(m: Meta, calls: seq<Entry>) {
    forall i :: 0 <= i < |calls| ==> IsCall(m, i, calls[i]) && GoesOn(m, i, calls[i])
  }

  /** Calls in their order, of which the last and no other ended the step, by its answer or
      because the context was done. */
  ghost predicate Closed(m: Meta, calls: seq<Entry>, done: bool) {
    && calls != []
    && Open(m, calls[..|calls| - 1])
    && IsCall(m, |calls| - 1, calls[|calls| - 1])
    && (GoesOn(m, |calls| - 1, calls[|calls| - 1]) ==> done)
  }

  /** The verdict that the last answer determines. */
  function Decided(m: Meta, e: Entry): StepState
    requires Starts(e)
  {
    if Succeeded(e) then Done else if m.optional then Skipped else Failed
  }

  /** The number of calls before the first Run. */
  function Lead(m: Meta): nat {
    if m.kind == Handoff then 0 else 1
  }

  /** Where the answers have led the step; `done` says that the context may have ended it. */
  ghost predicate Told(m: Meta, pc: Pc, calls: seq<Entry>, done: bool) {
    match pc
    case Idle => calls == []
    case Enter => calls == []
    case Begin => calls == []
    case Judge(a) => m.kind != Handoff && calls == [Checked(m.name, a)]
    case Announce => Open(m, calls) && |calls| == Lead(m)
    case Try(i) => Open(m, calls) && |calls| == 2 * i + Lead(m)
    case Tried(i, ok) => ToldTried(m, calls, 2 * i + Lead(m), ok)
    case Rest(i) => Open(m, calls) && i > 0 && |calls| == 2 * i - 1 + Lead(m)
    case Recheck(i) => Open(m, calls) && i > 0 && |calls| == 2 * i - 1 + Lead(m)
    case Wrap(ok) => Closed(m, calls, done) && ok == Succeeded(calls[|calls| - 1])
    case Over(st) =>
      if calls == [] then st == Skipped || (done && st == Failed)
      else Closed(m, calls, done) && st == Decided(m, calls[|calls| - 1])
  }

  /** A context that is done stays so. */
  lemma ToldLater(m: Meta, pc: Pc, calls: seq<Entry>, done: bool, done': bool)
    requires Told(m, pc, calls, done) && (done ==> done')
    ensures Told(m, pc, calls, done')
  {
  }

  /** The Run of an attempt has just returned. */
  ghost predicate ToldTried(m: Meta, calls: seq<Entry>, i: nat, ok: bool) {
    |calls| == i + 1 && Open(m, calls[..i]) && calls[i] == Ran(m.name, ok)
  }

  /** The call that an action makes. */
  function CallBy<W>(env: Env<W>, m: Meta, pc: Pc, sys: Sys<W>): seq<Entry> {
    match pc
    case Begin =>
      if m.kind == Handoff then [] else [Checked(m.name, env.check(m.name, 0, sys.world, sys.clock))]
    case Try(i) => [Ran(m.name, env.succeeds(m.name, i, sys.world, sys.clock))]
    case Recheck(i) => [Checked(m.name, env.check(m.name, i, sys.world, sys.clock))]
    case _ => []
  }

  lemma ActCalls<W>(env: Env<W>, m: Meta, pc: Pc, sys: Sys<W>)
    ensures CallsOf(Act(env, m, pc, sys).1.log, m.name) == CallsOf(sys.log, m.name) + CallBy(env, m, pc, sys)
  {
    var log' := Act(env, m, pc, sys).1.log;
    if log' == sys.log {
      assert forall e :: |sys.log + [e]| == |sys.log| + 1;
    } else {
      ActWrites(env, m, pc, sys);
      var e := log'[|sys.log|];
      assert log' == sys.log + [e];
      CallsAppend(sys.log, e, m.name);
    }
  }

  lemma OthersCalls<W>(env: Env<W>, m: Meta, pc: Pc, sys: Sys<W>, n: string)
    requires n != m.name
    ensures CallsOf(Act(env, m, pc, sys).1.log, n) == CallsOf(sys.log, n)
  {
    ActWrites(env, m, pc, sys);
    var log' := Act(env, m, pc, sys).1.log;
    if log' != sys.log {
      var e :| log' == sys.log + [e] && About(e, m.name);
      CallsAppend(sys.log, e, n);
    }
  }

  lemma OpenMore(m: Meta, calls: seq<Entry>, e: Entry)
    requires Open(m, calls) && IsCall(m, |calls|, e)
    ensures if GoesOn(m, |calls|, e) then Open(m, calls + [e]) else Closed(m, calls + [e], false)
  {
    assert (calls + [e])[..|calls|] == calls;
  }

  /** Reading the answer of the last call. */
  lemma LastCall(m: Meta, calls: seq<Entry>, i: nat)
    requires |calls| == i + 1 && Open(m, calls[..i]) && IsCall(m, i, calls[i])
    ensures if GoesOn(m, i, calls[i]) then Open(m, calls) else Closed(m, calls, false)
  {
    assert calls[..i] + [calls[i]] == calls;
    OpenMore(m, calls[..i], calls[i]);
  }

  /** The answer to the first Check. */
  lemma ToldJudged<W>(env: Env<W>, m: Meta, pc: Pc, sys: Sys<W>, calls: seq<Entry>)
    requires pc.Judge? && Told(m, pc, calls, !Alive(env, sys))
    ensures Told(m, Act(env, m, pc, sys).0, calls, !Alive(env, sys))
  {
    LastCall(m, calls, 0);
  }

  /** The answer of a Run. */
  lemma ToldOfTried<W>(env: Env<W>, m: Meta, pc: Pc, sys: Sys<W>, calls: seq<Entry>)
    requires pc.Tried? && InRange(m, pc) && Told(m, pc, calls, !Alive(env, sys))
    ensures Told(m, Act(env, m, pc, sys).0, calls, !Alive(env, sys))
  {
    var i := 2 * pc.attempt + Lead(m);
    assert AttemptOf(m, i) == pc.attempt && IsTurnOfRun(m, i);
    LastCall(m, calls, i);
  }

  /** The Check before a repeated attempt. */
  lemma ToldOfRecheck<W>(env: Env<W>, m: Meta, pc: Pc, sys: Sys<W>, calls: seq<Entry>)
    requires pc.Recheck? && Told(m, pc, calls, !Alive(env, sys))
    ensures Told(m, Act(env, m, pc, sys).0, calls + CallBy(env, m, pc, sys), !Alive(env, sys))
  {
    var e := CallBy(env, m, pc, sys)[0];
    assert !IsTurnOfRun(m, |calls|);
    OpenMore(m, calls, e);
  }

  lemma ToldOfTry<W>(env: Env<W>, m: Meta, pc: Pc, sys: Sys<W>, calls: seq<Entry>)
    requires pc.Try? && Told(m, pc, calls, !Alive(env, sys))
    ensures Told(m, Act(env, m, pc, sys).0, calls + CallBy(env, m, pc, sys), !Alive(env, sys))
  {
    assert (calls + CallBy(env, m, pc, sys))[..|calls|] == calls;
  }

  /** Every action keeps to the answers. */
  lemma ToldStep<W>(env: Env<W>, m: Meta, pc: Pc, sys: Sys<W>, calls: seq<Entry>)
    requires InRange(m, pc) && Told(m, pc, calls, !Alive(env, sys))
    ensures Told(m, Act(env, m, pc, sys).0, calls + CallBy(env, m, pc, sys), !Alive(env, sys))
  {
    if pc.Try? {
      ToldOfTry(env, m, pc, sys, calls);
    } else if pc.Recheck? {
      ToldOfRecheck(env, m, pc, sys, calls);
    } else if !pc.Begin? {
      assert calls + CallBy(env, m, pc, sys) == calls;
      if pc.Tried? {
        ToldOfTried(env, m, pc, sys, calls);
      } else if pc.Judge? {
        ToldJudged(env, m, pc, sys, calls);
      }
    }
  }
}
