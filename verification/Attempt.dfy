/**
 One attempt of one step: the wait / resume / cancel / timeout protocol between the
 goroutine that executes the step, the loop that supervises it, the callers of Resume and
 the context.  Every atomic action of the four actors is a label; a run is any sequence of
 enabled labels, so a statement about all runs is a statement about all interleavings.
 */
module Attempt {
  import opened Options

  datatype Result = Result(value: string, cancelled: bool)

  const CANCELLED := Result("", true)

  datatype Source = ByResume | ByCancel

  /** The answer to the wait with the given number (waits are numbered from 0). */
  datatype Answer = Answer(wait: nat, result: Result, source: Source)

  datatype Outcome = Succeeded | Failed | TimedOut

  /** Where the supervising loop is: in its select, inside deliver, or gone. */
  datatype Loop = Selecting | Delivering(answer: Answer) | Exited(outcome: Outcome)

  /** The step's goroutine; a returned error stays in its one-element channel. */
  datatype Child = Running | Returned(ok: bool)

  datatype State = State(
    timeout: int,           // m.Timeout; no timer when it is not positive
    slot: Option<nat>,      // p.waiting names this step: the number of the registered wait
    sending: seq<Answer>,   // Resume callers that emptied the slot and have not sent yet
    buffer: Option<Answer>, // the resume channel, capacity 1
    ctxDone: bool,
    loop: Loop,
    cancelled: bool,        // set together with done = nil
    timedOut: bool,         // set together with the cancellation of the step's context
    armed: bool,            // timerC != nil
    remaining: int,
    resumedAt: int,
    now: int,
    child: Child,
    asked: bool,            // the step sent EvWaiting and has not received an answer since
    waits: nat,             // how many EvWaiting the select has received
    taken: seq<Answer>,     // every answer decided so far, in the order of the decisions
    delivered: seq<Answer>, // every answer the step received, in order
    active: int             // time spent with no unanswered wait
  )

  datatype Label =
    | Line                  // the step sends an event other than EvWaiting
    | Ask                   // the step sends EvWaiting
    | Return(ok: bool)      // the step's Run returns
    | Take(result: Result)  // a Resume call finds the slot and empties it
    | Send(caller: nat)     // that call sends on the resume channel
    | Receive               // the loop receives from the resume channel
    | Fire                  // the loop receives from the timer
    | Cancel                // somebody cancels the context
    | Observe               // the loop receives from the context's done channel
    | Deliver               // the loop hands the answer to the step
    | Exit                  // the loop receives the step's error
    | Tick(d: nat)          // time passes

  function Init(timeout: int): State {
    State(timeout, None, [], None, false, Selecting, false, false, timeout > 0, timeout, 0, 0,
          Running, false, 0, [], [], 0)
  }

  /** A registered wait is open: its answer has not reached the loop. */
  predicate Waiting(s: State) {
    s.slot.Some? || s.sending != [] || s.buffer.Some?
  }

  predicate Enabled(s: State, l: Label) {
    match l
    case Line => s.child.Running? && !s.loop.Exited?
    case Ask => s.child.Running? && !s.loop.Exited?
    case Return(_) => s.child.Running?
    case Take(_) => s.slot.Some?
    case Send(i) => i < |s.sending| && s.buffer.None?
    case Receive => s.loop.Selecting? && s.buffer.Some?
    case Fire => s.loop.Selecting? && s.armed && s.now >= s.resumedAt + s.remaining
    case Cancel => true
    case Observe => s.loop.Selecting? && s.ctxDone && !s.cancelled
    case Deliver => s.loop.Delivering? && s.child.Running?
    case Exit => !s.loop.Exited? && s.child.Returned?
    case Tick(_) => true
  }

  /** The loop stops the clock and subtracts the stretch that just ended. */
  function Disarm(s: State): State {
    if s.armed then s.(armed := false, remaining := s.remaining - (s.now - s.resumedAt)) else s
  }

  function Decide(s: State, a: Answer): State {
    s.(slot := None, taken := s.taken + [a], loop := Delivering(a))
  }

  function OnAsk(s: State): State {
    var s1 := s.(asked := true);
    if s.loop.Delivering? then s1   // deliver only forwards the event
    else
      var s2 := Disarm(s1).(waits := s.waits + 1);
      if s.cancelled then Decide(s2, Answer(s.waits, CANCELLED, ByCancel))
      else s2.(slot := Some(s.waits))
  }

  function OnReceive(s: State): State
    requires s.buffer.Some?
  {
    var goesOn := s.timeout > 0 && !s.cancelled;
    s.(buffer := None, loop := Delivering(s.buffer.value),
       timedOut := s.timedOut || (goesOn && s.remaining <= 0),
       armed := s.armed || (goesOn && s.remaining > 0),
       resumedAt := if goesOn && s.remaining > 0 then s.now else s.resumedAt)
  }

  function OnObserve(s: State): State {
    var s1 := s.(cancelled := true);
    if s.slot.Some? then Decide(s1, Answer(s.slot.value, CANCELLED, ByCancel)) else s1
  }

  /** settle empties the slot and turns an error into a timeout when the timer had fired. */
  function Settle(s: State): State
    requires s.child.Returned?
  {
    s.(slot := None,
       loop := Exited(if s.child.ok then Succeeded else if s.timedOut then TimedOut else Failed))
  }

  function Apply(s: State, l: Label): State
    requires Enabled(s, l)
  {
    match l
    case Line => s
    case Ask => OnAsk(s)
    case Return(ok) => s.(child := Returned(ok))
    case Take(r) =>
      var a := Answer(s.slot.value, r, ByResume);
      s.(slot := None, sending := s.sending + [a], taken := s.taken + [a])
    case Send(i) => s.(sending := s.sending[..i] + s.sending[i + 1..], buffer := Some(s.sending[i]))
    case Receive => OnReceive(s)
    case Fire => s.(armed := false, timedOut := true)
    case Cancel => s.(ctxDone := true)
    case Observe => OnObserve(s)
    case Deliver => s.(loop := Selecting, asked := false, delivered := s.delivered + [s.loop.answer])
    case Exit => Settle(s)
    case Tick(d) => s.(now := s.now + d, active := if Waiting(s) || s.loop.Exited? then s.active else s.active + d)
  }

  ghost predicate IsRun(timeout: int, labels: seq<Label>, states: seq<State>) {
    && |states| == |labels| + 1
    && states[0] == Init(timeout)
    && forall i :: 0 <= i < |labels| ==> Enabled(states[i], labels[i]) && states[i + 1] == Apply(states[i], labels[i])
  }

  /** The step waits again only once its previous wait was answered. */
  ghost predicate WellBehaved(labels: seq<Label>, states: seq<State>)
    requires |states| == |labels| + 1
  {
    forall i :: 0 <= i < |labels| && labels[i] == Ask ==> !states[i].asked
  }

  // ---------------------------------------------------------------- any step at all

  ghost predicate DistinctWaits(answers: seq<Answer>) {
    forall i, j :: 0 <= i < j < |answers| ==> answers[i].wait != answers[j].wait
  }

  /** What holds whatever the step does. */
  ghost predicate Safe(s: State) {
    && DistinctWaits(s.taken)
    && (forall a :: a in s.taken ==> a.wait < s.waits)
    && (s.slot.Some? ==> s.slot.value < s.waits && forall a :: a in s.taken ==> a.wait != s.slot.value)
    && (forall a :: a in s.sending ==> a in s.taken && a.source.ByResume?)
    && (s.buffer.Some? ==> s.buffer.value in s.taken && s.buffer.value.source.ByResume?)
    && (s.loop.Delivering? ==> s.loop.answer in s.taken)
    && (forall a :: a in s.delivered ==> a in s.taken)
    && (forall a :: a in s.taken && a.source.ByCancel? ==> a.result == Result("", true) && s.cancelled)
    && (s.cancelled ==> s.slot.None? && s.ctxDone)
    && (s.loop.Exited? ==> s.slot.None? && s.child.Returned?)
  }

  /** What one more decision keeps: the number is new, so the list stays free of repeats. */
  lemma DecisionIsFresh(s: State, t: State, a: Answer)
    requires Safe(s)
    requires t.taken == s.taken + [a] && a.wait < t.waits && s.waits <= t.waits
    requires s.slot == Some(a.wait) || a.wait == s.waits
    ensures DistinctWaits(t.taken)
    ensures forall b :: b in t.taken <==> b in s.taken || b == a
    ensures forall b :: b in t.taken ==> b.wait < t.waits
  {
    assert forall b :: b in t.taken <==> b in s.taken || b == a;
    assert forall i :: 0 <= i < |s.taken| ==> s.taken[i] in s.taken;
  }

  /** The three actions that can decide an answer. */
  predicate Decides(l: Label) {
    l.Ask? || l.Take? || l.Observe?
  }

  /** The three actions that pass a decided answer on. */
  predicate Passes(l: Label) {
    l.Send? || l.Receive? || l.Deliver?
  }

  lemma SafeDecision(s: State, l: Label)
    requires Safe(s) && Enabled(s, l) && Decides(l)
    ensures Safe(Apply(s, l))
  {
    var t := Apply(s, l);
    if l.Take? {
      DecisionIsFresh(s, t, Answer(s.slot.value, l.result, ByResume));
    } else if t.taken != s.taken {
      DecisionIsFresh(s, t, t.loop.answer);
    }
  }

  lemma SafePassing(s: State, l: Label)
    requires Safe(s) && Enabled(s, l) && Passes(l)
    ensures Safe(Apply(s, l))
  {
    if l.Send? {
      SafeSend(s, l);
    } else if l.Receive? {
      SafeReceive(s, l);
    }
  }

  lemma SafeSend(s: State, l: Label)
    requires Safe(s) && Enabled(s, l) && l.Send?
    ensures Safe(Apply(s, l))
  {
    assert forall a :: a in Apply(s, l).sending ==> a in s.sending;
  }

  lemma SafeReceive(s: State, l: Label)
    requires Safe(s) && Enabled(s, l) && l.Receive?
    ensures Safe(Apply(s, l))
  {
    ReceiveFrame(s);
    SafeHandover(s, OnReceive(s), s.buffer.value);
  }

  lemma ReceiveFrame(s: State)
    requires s.buffer.Some?
    ensures var t := OnReceive(s);
            && t.buffer.None? && t.loop == Delivering(s.buffer.value)
            && t.slot == s.slot && t.sending == s.sending && t.taken == s.taken && t.delivered == s.delivered
            && t.waits == s.waits && t.cancelled == s.cancelled && t.ctxDone == s.ctxDone
  {
  }

  /** Safety of a state that differs in the buffer, the loop and the timer only. */
  lemma SafeHandover(s: State, t: State, a: Answer)
    requires Safe(s) && a in s.taken && t.buffer.None? && t.loop == Delivering(a)
    requires t.slot == s.slot && t.sending == s.sending && t.taken == s.taken && t.delivered == s.delivered
    requires t.waits == s.waits && t.cancelled == s.cancelled && t.ctxDone == s.ctxDone
    ensures Safe(t)
  {
  }

  /** The remaining actions leave the answers where they are. */
  lemma OtherwiseFrame(s: State, l: Label)
    requires Enabled(s, l) && !Decides(l) && !Passes(l)
    ensures var t := Apply(s, l);
            && t.taken == s.taken && t.delivered == s.delivered && t.sending == s.sending
            && t.buffer == s.buffer && t.waits == s.waits && t.asked == s.asked && t.cancelled == s.cancelled
            && (!l.Exit? ==> t.slot == s.slot && t.loop == s.loop)
            && (l.Exit? ==> t.slot.None? && t.loop.Exited? && t.child.Returned?)
            && (s.ctxDone ==> t.ctxDone) && (s.child.Returned? ==> t.child.Returned?)
  {
  }

  lemma SafeOtherwise(s: State, l: Label)
    requires Safe(s) && Enabled(s, l) && !Decides(l) && !Passes(l)
    ensures Safe(Apply(s, l))
  {
    OtherwiseFrame(s, l);
    var t := Apply(s, l);
    assert l.Return? ==> !s.loop.Exited? || s.child.Returned?;
  }

  lemma SafeStep(s: State, l: Label)
    requires Safe(s) && Enabled(s, l)
    ensures Safe(Apply(s, l))
  {
    if Decides(l) {
      SafeDecision(s, l);
    } else if Passes(l) {
      SafePassing(s, l);
    } else {
      SafeOtherwise(s, l);
    }
  }

  /** In every interleaving each registered wait gets at most one answer, either from the
      Resume call that emptied the slot or the Cancelled result, the step only ever
      receives such answers, and the slot is empty once the attempt is over. */
  lemma {:induction false} EveryRunIsSafe(timeout: int, labels: seq<Label>, states: seq<State>, n: nat)
    requires IsRun(timeout, labels, states) && n < |states|
    ensures Safe(states[n])
  {
    if n > 0 {
      EveryRunIsSafe(timeout, labels, states, n - 1);
      SafeStep(states[n - 1], labels[n - 1]);
    }
  }

  // ---------------------------------------------------------------- how an attempt ends

  /** The outcome is what the step returned; an error is a timeout exactly when the timer had
      run out. */
  ghost predicate Settled(s: State) {
    s.loop.Exited? ==>
      && s.child.Returned?
      && (s.loop.outcome.Succeeded? <==> s.child.ok)
      && (s.loop.outcome.TimedOut? <==> !s.child.ok && s.timedOut)
  }

  /** The step has returned exactly what its Return action says, and returns once; the context
      is done exactly once somebody cancelled it; an answer by Resume has the result that its
      caller passed. */
  ghost predicate ReturnedBy(s: State, labels: seq<Label>) {
    && (forall ok :: s.child == Returned(ok) <==> Return(ok) in labels)
    && (s.ctxDone <==> Cancel in labels)
    && (forall a :: a in s.taken && a.source.ByResume? ==> Take(a.result) in labels)
  }

  lemma OutcomeStep(s: State, l: Label)
    requires Enabled(s, l) && Settled(s)
    ensures Settled(Apply(s, l))
  {
  }

  lemma ChildStep(s: State, l: Label)
    requires Enabled(s, l)
    ensures Apply(s, l).child == if l.Return? then Returned(l.ok) else s.child
    ensures Apply(s, l).ctxDone <==> s.ctxDone || l.Cancel?
  {
  }

  lemma TakenStep(s: State, l: Label)
    requires Enabled(s, l)
    ensures forall a :: a in Apply(s, l).taken && a !in s.taken && a.source.ByResume? ==> l == Take(a.result)
  {
  }

  lemma ReturnStep(s: State, l: Label, past: seq<Label>, past': seq<Label>)
    requires Enabled(s, l) && ReturnedBy(s, past)
    requires forall x :: x in past' <==> x in past || x == l
    ensures ReturnedBy(Apply(s, l), past')
  {
    ChildStep(s, l);
    TakenStep(s, l);
    assert s.child.Running? ==> Return(true) !in past && Return(false) !in past;
  }

  lemma OneMoreLabel(labels: seq<Label>, n: nat)
    requires n < |labels|
    ensures forall x :: x in labels[..n + 1] <==> x in labels[..n] || x == labels[n]
  {
    assert labels[..n + 1] == labels[..n] + [labels[n]];
  }

  /** In every interleaving, an attempt that is over has succeeded if and only if the step's Run
      returned without an error, has timed out if and only if it returned an error after the
      budget had run out, and has failed otherwise. */
  lemma {:induction false} OutcomeIsExact(timeout: int, labels: seq<Label>, states: seq<State>, n: nat)
    requires IsRun(timeout, labels, states) && n < |states|
    ensures Settled(states[n]) && ReturnedBy(states[n], labels[..n])
  {
    if n > 0 {
      OutcomeIsExact(timeout, labels, states, n - 1);
      OneMoreLabel(labels, n - 1);
      OutcomeStep(states[n - 1], labels[n - 1]);
      ReturnStep(states[n - 1], labels[n - 1], labels[..n - 1], labels[..n]);
    }
  }

  /** Nobody is ever kept waiting by the loop: in every interleaving a running step can send an
      event or return, a step that has returned sends nothing more and can be settled, time may
      pass, and the context may be cancelled. */
  lemma StepIsServed(timeout: int, labels: seq<Label>, states: seq<State>, n: nat)
    requires IsRun(timeout, labels, states) && n < |states|
    ensures var s := states[n];
            && (s.child.Running? ==> Enabled(s, Line) && Enabled(s, Ask) && forall ok :: Enabled(s, Return(ok)))
            && (s.child.Returned? ==> !Enabled(s, Line) && !Enabled(s, Ask) && forall ok :: !Enabled(s, Return(ok)))
            && (s.child.Returned? ==> s.loop.Exited? || Enabled(s, Exit))
            && Enabled(s, Cancel) && forall d :: Enabled(s, Tick(d))
  {
    EveryRunIsSafe(timeout, labels, states, n);
  }

  // ---------------------------------------------------------------- well-behaved steps

  /** The answer that was decided and has not been delivered, if there is one. */
  function Pending(s: State): seq<Answer> {
    s.sending + (if s.buffer.Some? then [s.buffer.value] else [])
    + (if s.loop.Delivering? then [s.loop.answer] else [])
  }

  /** One answer token moves through slot, sender, buffer and deliver while the question
      is open, and there is none otherwise. */
  ghost predicate OneToken(s: State) {
    var open := |Pending(s)| + (if s.slot.Some? then 1 else 0);
    && (!s.loop.Exited? ==> open == if s.asked then 1 else 0)
    && (s.loop.Exited? ==> open <= if s.asked then 1 else 0)
  }

  /** The k-th answer decided belongs to the k-th wait, and the step receives exactly
      the answers decided, in that order. */
  ghost predicate InOrder(s: State) {
    && (!s.loop.Exited? ==> s.taken == s.delivered + Pending(s))
    && (s.loop.Exited? ==> s.delivered <= s.taken)
    && (forall k :: 0 <= k < |s.taken| ==> s.taken[k].wait == k)
    && (!s.loop.Exited? ==> s.waits == |s.taken| + if s.slot.Some? then 1 else 0)
    && |s.taken| <= s.waits <= |s.taken| + 1
    && (s.slot.Some? ==> s.slot.value == |s.taken|)
  }

  /** The timer runs exactly while no wait is open; `remaining` is the budget less the
      active time already subtracted. */
  ghost predicate Budget(s: State) {
    && s.resumedAt <= s.now
    && 0 <= s.active
    && (s.timeout <= 0 ==> !s.armed && !s.timedOut)
    && (s.armed && !s.loop.Exited? ==> !Waiting(s))
    && (s.timeout > 0 && s.timedOut ==> s.active >= s.timeout)
    && (s.timeout > 0 && !s.timedOut && !s.loop.Exited? ==>
          && (s.armed ==> s.remaining - (s.now - s.resumedAt) == s.timeout - s.active)
          && (!s.armed && !s.cancelled ==> Waiting(s) && s.remaining == s.timeout - s.active))
    && (s.loop.Exited? && s.loop.outcome.TimedOut? ==> s.timedOut)
  }

  ghost predicate Orderly(s: State) {
    Safe(s) && OneToken(s) && InOrder(s) && Budget(s)
  }

  lemma OrderlyStep(s: State, l: Label)
    requires Orderly(s) && Enabled(s, l)
    requires l == Ask ==> !s.asked
    ensures Orderly(Apply(s, l))
  {
    SafeStep(s, l);
    if Decides(l) {
      TokenDecision(s, l);
      BudgetDecision(s, l);
    } else if Passes(l) {
      TokenPassing(s, l);
      BudgetPassing(s, l);
    } else {
      TokenOtherwise(s, l);
      BudgetOtherwise(s, l);
    }
  }

  lemma TokenDecision(s: State, l: Label)
    requires Orderly(s) && Enabled(s, l) && Decides(l)
    requires l == Ask ==> !s.asked
    ensures OneToken(Apply(s, l)) && InOrder(Apply(s, l))
  {
    var t := Apply(s, l);
    if l.Observe? && s.slot.None? {
      assert Pending(t) == Pending(s);
    } else {
      assert Pending(s) == [];
      assert t.taken == s.taken + Pending(t);
    }
  }

  lemma TokenPassing(s: State, l: Label)
    requires Orderly(s) && Enabled(s, l) && Passes(l)
    ensures OneToken(Apply(s, l)) && InOrder(Apply(s, l))
  {
    var t := Apply(s, l);
    if l.Deliver? {
      assert Pending(s) == [s.loop.answer] && Pending(t) == [];
    } else {
      assert l.Send? ==> s.sending == [s.sending[0]] && l.caller == 0;
      assert Pending(t) == Pending(s);
    }
  }

  lemma TokenOtherwise(s: State, l: Label)
    requires Orderly(s) && Enabled(s, l) && !Decides(l) && !Passes(l)
    ensures OneToken(Apply(s, l)) && InOrder(Apply(s, l))
  {
    OtherwiseFrame(s, l);
    assert !l.Exit? ==> Pending(Apply(s, l)) == Pending(s);
  }

  lemma BudgetDecision(s: State, l: Label)
    requires Orderly(s) && Enabled(s, l) && Decides(l)
    requires l == Ask ==> !s.asked
    ensures Budget(Apply(s, l))
  {
  }

  lemma BudgetPassing(s: State, l: Label)
    requires Orderly(s) && Enabled(s, l) && Passes(l)
    ensures Budget(Apply(s, l))
  {
  }

  lemma BudgetOtherwise(s: State, l: Label)
    requires Orderly(s) && Enabled(s, l) && !Decides(l) && !Passes(l)
    ensures Budget(Apply(s, l))
  {
    if l.Tick? {
      BudgetTick(s, l);
    } else if l.Fire? {
      BudgetFire(s, l);
    }
  }

  lemma BudgetTick(s: State, l: Label)
    requires Orderly(s) && Enabled(s, l) && l.Tick?
    ensures Budget(Apply(s, l))
  {
  }

  lemma BudgetFire(s: State, l: Label)
    requires Orderly(s) && Enabled(s, l) && l.Fire?
    ensures Budget(Apply(s, l))
  {
  }

  lemma {:induction false} EveryRunIsOrderly(timeout: int, labels: seq<Label>, states: seq<State>, n: nat)
    requires IsRun(timeout, labels, states) && WellBehaved(labels, states) && n < |states|
    ensures Orderly(states[n])
  {
    if n > 0 {
      EveryRunIsOrderly(timeout, labels, states, n - 1);
      OrderlyStep(states[n - 1], labels[n - 1]);
    }
  }

  // ---------------------------------------------------------------- what the runs promise

  /** A Resume call that emptied the slot finds room in the channel: its send never blocks,
      also when the attempt ended in between. */
  lemma WinningResumeNeverBlocks(timeout: int, labels: seq<Label>, states: seq<State>, n: nat, caller: nat)
    requires IsRun(timeout, labels, states) && WellBehaved(labels, states) && n < |states|
    requires caller < |states[n].sending|
    ensures Enabled(states[n], Send(caller))
  {
    EveryRunIsOrderly(timeout, labels, states, n);
  }

  /** The k-th answer the step receives is the one decided for its k-th wait. */
  lemma AnswersArriveInOrder(timeout: int, labels: seq<Label>, states: seq<State>, n: nat)
    requires IsRun(timeout, labels, states) && WellBehaved(labels, states) && n < |states|
    ensures states[n].delivered <= states[n].taken
    ensures forall k :: 0 <= k < |states[n].delivered| ==> states[n].delivered[k].wait == k
    ensures |states[n].taken| <= states[n].waits <= |states[n].taken| + 1
  {
    EveryRunIsOrderly(timeout, labels, states, n);
  }

  /** The budget is exact: while the context is alive, the active time has reached the
      timeout if and only if the step was timed out, the timer is ready to fire, or a wait
      is open whose answer will time the step out. */
  lemma TimeoutBudgetIsExact(timeout: int, labels: seq<Label>, states: seq<State>, n: nat)
    requires IsRun(timeout, labels, states) && WellBehaved(labels, states) && n < |states|
    requires timeout > 0
    ensures states[n].timeout == timeout
    ensures states[n].timedOut ==> states[n].active >= timeout
    ensures states[n].loop == Exited(TimedOut) ==> states[n].active >= timeout
    ensures states[n].slot.Some? ==> !states[n].armed
    ensures var s := states[n];
            !s.cancelled && !s.loop.Exited? ==>
              (s.active >= timeout <==>
                 || s.timedOut
                 || (s.armed && s.now >= s.resumedAt + s.remaining)
                 || (Waiting(s) && s.remaining <= 0))
  {
    EveryRunIsOrderly(timeout, labels, states, n);
    TimeoutIsConstant(timeout, labels, states, n);
  }

  /** The timer fires exactly when the active time has used the budget up, and not twice in a
      row. */
  lemma TimerFiresIff(timeout: int, labels: seq<Label>, states: seq<State>, n: nat)
    requires IsRun(timeout, labels, states) && WellBehaved(labels, states) && n < |states|
    requires timeout > 0
    ensures var s := states[n];
            !s.timedOut && s.loop.Selecting? ==> (Enabled(s, Fire) <==> s.armed && s.active >= timeout)
    ensures Enabled(states[n], Fire) ==> !Enabled(Apply(states[n], Fire), Fire)
  {
    EveryRunIsOrderly(timeout, labels, states, n);
    TimeoutIsConstant(timeout, labels, states, n);
    FiresWhenUsedUp(states[n]);
  }

  lemma FiresWhenUsedUp(s: State)
    requires Budget(s) && s.timeout > 0
    ensures !s.timedOut && s.loop.Selecting? ==> (Enabled(s, Fire) <==> s.armed && s.active >= s.timeout)
    ensures Enabled(s, Fire) ==> !Enabled(Apply(s, Fire), Fire)
  {
  }

  lemma {:induction false} TimeoutIsConstant(timeout: int, labels: seq<Label>, states: seq<State>, n: nat)
    requires IsRun(timeout, labels, states) && n < |states|
    ensures states[n].timeout == timeout
  {
    if n > 0 {
      TimeoutIsConstant(timeout, labels, states, n - 1);
      TimeoutStays(states[n - 1], labels[n - 1]);
    }
  }

  lemma TimeoutStays(s: State, l: Label)
    requires Enabled(s, l)
    ensures Apply(s, l).timeout == s.timeout
  {
  }

  /** How many actions of the loop and of the winning caller an open question still needs. */
  function Distance(s: State): nat {
    if s.slot.Some? then 4
    else if s.sending != [] then 3
    else if s.buffer.Some? then 2
    else if s.loop.Delivering? then 1
    else 0
  }

  /** No action of any actor but a new question takes the answer further away. */
  lemma DistanceNeverGrows(s: State, l: Label)
    requires Orderly(s) && s.asked && Enabled(s, l) && l != Ask && l != Exit
    ensures Distance(Apply(s, l)) <= Distance(s)
  {
  }

  /** After cancellation no question is lost: as long as a waiting step is still running,
      one of the loop's own actions or the winning caller's send is enabled and brings the
      answer closer, and whatever the other actors do meanwhile takes it no further away. */
  lemma CancelledWaitIsAnswered(timeout: int, labels: seq<Label>, states: seq<State>, n: nat)
    requires IsRun(timeout, labels, states) && WellBehaved(labels, states) && n < |states|
    requires var s := states[n]; s.ctxDone && s.asked && s.child.Running?
    ensures var s := states[n];
            || (Enabled(s, Observe) && Distance(Apply(s, Observe)) < Distance(s))
            || (Enabled(s, Send(0)) && Distance(Apply(s, Send(0))) < Distance(s))
            || (Enabled(s, Receive) && Distance(Apply(s, Receive)) < Distance(s))
            || (Enabled(s, Deliver) && Distance(Apply(s, Deliver)) < Distance(s) && !Apply(s, Deliver).asked)
    ensures forall l {:trigger Enabled(states[n], l)} :: Enabled(states[n], l) && l != Ask && l != Exit ==>
              Distance(Apply(states[n], l)) <= Distance(states[n])
  {
    EveryRunIsOrderly(timeout, labels, states, n);
    var s := states[n];
    forall l | Enabled(s, l) && l != Ask && l != Exit ensures Distance(Apply(s, l)) <= Distance(s) {
      DistanceNeverGrows(s, l);
    }
    assert |Pending(s)| + (if s.slot.Some? then 1 else 0) == 1;
  }

  // ---------------------------------------------------------------- asking again too early

  /** An answer is on its way from a winning caller to the loop. */
  predicate Outstanding(s: State) {
    s.sending != [] || s.buffer.Some?
  }

  /** A question that the loop registers while an answer is outstanding. */
  predicate Premature(s: State, l: Label) {
    l == Ask && s.loop.Selecting? && !s.cancelled && Outstanding(s)
  }

  /** ... with time left on the budget. */
  predicate PrematureInTime(s: State, l: Label) {
    Premature(s, l) && s.timeout > 0 && Disarm(s).remaining > 0
  }

  /** Every winning caller finds room in the channel. */
  predicate WinnersFit(s: State) {
    s.sending != [] ==> s.buffer.None?
  }

  predicate TimerRunsInWait(s: State) {
    s.armed && s.slot.Some?
  }

  /** What the actors can make of a state when the step asks nothing more. */
  ghost predicate IsPath(s: State, labels: seq<Label>, states: seq<State>) {
    && |states| == |labels| + 1 && states[0] == s
    && forall i :: 0 <= i < |labels| ==>
         labels[i] != Ask && Enabled(states[i], labels[i]) && states[i + 1] == Apply(states[i], labels[i])
  }

  ghost predicate CanBlock(s: State) {
    exists labels, states :: IsPath(s, labels, states) && !WinnersFit(states[|labels|])
  }

  ghost predicate CanRunInWait(s: State) {
    exists labels, states :: IsPath(s, labels, states) && TimerRunsInWait(states[|labels|])
  }

  ghost predicate Roomy(s: State) {
    && (s.slot.Some? ==> !Outstanding(s))
    && |s.sending| + (if s.buffer.Some? then 1 else 0) <= 1
  }

  ghost predicate Unhurried(s: State) {
    && (s.timeout <= 0 ==> !s.armed)
    && (s.slot.Some? ==> !s.armed && (Outstanding(s) ==> s.timeout <= 0 || s.remaining <= 0))
  }

  lemma RoomyStep(s: State, l: Label)
    requires Safe(s) && Roomy(s) && Enabled(s, l) && !Premature(s, l)
    ensures Roomy(Apply(s, l))
  {
  }

  lemma UnhurriedStep(s: State, l: Label)
    requires Safe(s) && Unhurried(s) && Enabled(s, l) && !PrematureInTime(s, l)
    ensures Unhurried(Apply(s, l))
  {
  }

  lemma {:induction false} RunStaysRoomy(timeout: int, labels: seq<Label>, states: seq<State>, n: nat)
    requires IsRun(timeout, labels, states) && n < |states|
    requires forall i :: 0 <= i < |labels| ==> !Premature(states[i], labels[i])
    ensures Roomy(states[n])
  {
    if n > 0 {
      RunStaysRoomy(timeout, labels, states, n - 1);
      EveryRunIsSafe(timeout, labels, states, n - 1);
      RoomyStep(states[n - 1], labels[n - 1]);
    }
  }

  lemma {:induction false} RunStaysUnhurried(timeout: int, labels: seq<Label>, states: seq<State>, n: nat)
    requires IsRun(timeout, labels, states) && n < |states|
    requires forall i :: 0 <= i < |labels| ==> !PrematureInTime(states[i], labels[i])
    ensures Unhurried(states[n])
  {
    if n > 0 {
      RunStaysUnhurried(timeout, labels, states, n - 1);
      EveryRunIsSafe(timeout, labels, states, n - 1);
      UnhurriedStep(states[n - 1], labels[n - 1]);
    }
  }

  lemma {:induction false} PathKeeps(s: State, labels: seq<Label>, states: seq<State>, n: nat)
    requires Safe(s) && IsPath(s, labels, states) && n < |states|
    ensures Safe(states[n])
    ensures Roomy(s) ==> Roomy(states[n])
    ensures Unhurried(s) ==> Unhurried(states[n])
  {
    if n > 0 {
      PathKeeps(s, labels, states, n - 1);
      SafeStep(states[n - 1], labels[n - 1]);
      if Roomy(s) {
        RoomyStep(states[n - 1], labels[n - 1]);
      }
      if Unhurried(s) {
        UnhurriedStep(states[n - 1], labels[n - 1]);
      }
    }
  }

  /** A premature question, one more winner, and somebody finds the channel full. */
  lemma PrematureBlocks(s: State)
    requires Enabled(s, Ask) && Premature(s, Ask)
    ensures CanBlock(Apply(s, Ask))
  {
    var t := Apply(s, Ask);
    var u := Apply(t, Take(CANCELLED));
    if s.buffer.Some? {
      assert IsPath(t, [Take(CANCELLED)], [t, u]) && !WinnersFit([t, u][1]);
    } else {
      var v := Apply(u, Send(0));
      var labels, states := [Take(CANCELLED), Send(0)], [t, u, v];
      assert IsPath(t, labels, states) && !WinnersFit(states[|labels|]);
    }
  }

  lemma PrematureRunsTheTimer(s: State)
    requires Enabled(s, Ask) && PrematureInTime(s, Ask)
    ensures CanRunInWait(Apply(s, Ask))
  {
    var t := Apply(s, Ask);
    if s.buffer.Some? {
      var u := Apply(t, Receive);
      assert IsPath(t, [Receive], [t, u]) && TimerRunsInWait([t, u][1]);
    } else {
      var u := Apply(t, Send(0));
      var v := Apply(u, Receive);
      var labels, states := [Send(0), Receive], [t, u, v];
      assert IsPath(t, labels, states) && TimerRunsInWait(states[|labels|]);
    }
  }

  /** Exactly when a winning Resume may block: some question was registered while an answer
      was outstanding. */
  lemma WinnerBlocksIff(timeout: int, labels: seq<Label>, states: seq<State>)
    requires IsRun(timeout, labels, states)
    ensures (exists i :: 0 <= i < |labels| && Premature(states[i], labels[i]))
       <==> (exists i :: 0 <= i < |states| && CanBlock(states[i]))
  {
    if i :| 0 <= i < |labels| && Premature(states[i], labels[i]) {
      PrematureBlocks(states[i]);
      assert CanBlock(states[i + 1]);
    } else {
      forall i | 0 <= i < |states| ensures !CanBlock(states[i]) {
        RunStaysRoomy(timeout, labels, states, i);
        EveryRunIsSafe(timeout, labels, states, i);
        forall ls, xs | IsPath(states[i], ls, xs) ensures WinnersFit(xs[|ls|]) {
          PathKeeps(states[i], ls, xs, |ls|);
        }
      }
    }
  }

  /** Exactly when the timer may run while a wait is registered: some question was registered
      while an answer was outstanding and the budget was not used up. */
  lemma TimerRunsInWaitIff(timeout: int, labels: seq<Label>, states: seq<State>)
    requires IsRun(timeout, labels, states)
    ensures (exists i :: 0 <= i < |labels| && PrematureInTime(states[i], labels[i]))
       <==> (exists i :: 0 <= i < |states| && CanRunInWait(states[i]))
  {
    if i :| 0 <= i < |labels| && PrematureInTime(states[i], labels[i]) {
      PrematureRunsTheTimer(states[i]);
      assert CanRunInWait(states[i + 1]);
    } else {
      forall i | 0 <= i < |states| ensures !CanRunInWait(states[i]) {
        RunStaysUnhurried(timeout, labels, states, i);
        EveryRunIsSafe(timeout, labels, states, i);
        forall ls, xs | IsPath(states[i], ls, xs) ensures !TimerRunsInWait(xs[|ls|]) {
          PathKeeps(states[i], ls, xs, |ls|);
        }
      }
    }
  }

  /** A run in which two callers win, and the second one finds the channel full. */
  lemma AskingTwiceBlocksAWinner(a: Result, b: Result)
    ensures exists states: seq<State> ::
              && IsRun(0, [Ask, Take(a), Ask, Take(b), Send(0)], states)
              && |states[5].sending| == 1 && !Enabled(states[5], Send(0))
  {
    var s1 := Apply(Init(0), Ask);
    var s2 := Apply(s1, Take(a));
    var s3 := Apply(s2, Ask);
    var s4 := Apply(s3, Take(b));
    assert s4.sending == [Answer(0, a, ByResume), Answer(1, b, ByResume)];
    var s5 := Apply(s4, Send(0));
    var states := [Init(0), s1, s2, s3, s4, s5];
    assert |s5.sending| == 1 && !Enabled(s5, Send(0));
    FiveSteps(0, [Ask, Take(a), Ask, Take(b), Send(0)], states);
    assert states[5] == s5;
  }

  /** A run in which the timer runs although a wait is registered. */
  lemma AskingTwiceRunsTheTimer(timeout: int, a: Result)
    requires timeout > 0
    ensures exists states: seq<State> ::
              && IsRun(timeout, [Ask, Take(a), Ask, Send(0), Receive], states)
              && states[5].slot.Some? && states[5].armed
  {
    var s4 := SecondWaitOpen(timeout, a);
    var s5 := Apply(s4, Receive);
    var s1 := Apply(Init(timeout), Ask);
    var s2 := Apply(s1, Take(a));
    var states := [Init(timeout), s1, s2, Apply(s2, Ask), s4, s5];
    FiveSteps(timeout, [Ask, Take(a), Ask, Send(0), Receive], states);
    assert states[5] == s5;
  }

  lemma SecondWaitOpen(timeout: int, a: Result) returns (s4: State)
    requires timeout > 0
    ensures var s1 := Apply(Init(timeout), Ask);
            && Enabled(s1, Take(a))
            && var s2 := Apply(s1, Take(a));
            && Enabled(s2, Ask)
            && var s3 := Apply(s2, Ask);
            && Enabled(s3, Send(0))
            && s4 == Apply(s3, Send(0))
    ensures s4.buffer.Some? && s4.slot.Some? && s4.loop.Selecting? && !s4.cancelled && s4.remaining == s4.timeout == timeout
  {
    var s1 := Apply(Init(timeout), Ask);
    var s2 := Apply(s1, Take(a));
    var s3 := Apply(s2, Ask);
    s4 := Apply(s3, Send(0));
  }

  lemma FiveSteps(timeout: int, l: seq<Label>, t: seq<State>)
    requires |l| == 5 && |t| == 6 && t[0] == Init(timeout)
    requires Enabled(t[0], l[0]) && t[1] == Apply(t[0], l[0])
    requires Enabled(t[1], l[1]) && t[2] == Apply(t[1], l[1])
    requires Enabled(t[2], l[2]) && t[3] == Apply(t[2], l[2])
    requires Enabled(t[3], l[3]) && t[4] == Apply(t[3], l[3])
    requires Enabled(t[4], l[4]) && t[5] == Apply(t[4], l[4])
    ensures IsRun(timeout, l, t)
  {
    forall i | 0 <= i < |l| ensures Enabled(t[i], l[i]) && t[i + 1] == Apply(t[i], l[i]) {
      assert i == 0 || i == 1 || i == 2 || i == 3 || i == 4;
    }
  }
}
