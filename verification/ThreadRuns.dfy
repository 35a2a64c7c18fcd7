/** What threads on one entry can and cannot come to, over whole runs. */
module ThreadRuns {
  import opened Entries
  import opened Threads
  import opened Wrappers

  // -------------------------------------------------------------------- runs

  lemma {:induction false} AfterBoth(s: State, a: seq<Step>, b: seq<Step>)
    requires After(s, a).Some?
    ensures After(s, a + b) == After(After(s, a).value, b)
    decreases |a|
  {
    hide Apply;
    if a == [] {
      assert a + b == b;
    } else {
      var n := Apply(s, a[0]).value;
      assert (a + b)[0] == a[0] && (a + b)[1..] == a[1..] + b;
      AfterBoth(n, a[1..], b);
    }
  }

  /** One more step at the end of a run. */
  lemma Then(s: State, steps: seq<Step>, z: State, step: Step)
    requires After(s, steps) == Some(z)
    ensures After(s, steps + [step]) == Apply(z, step)
  {
    hide Apply;
    AfterBoth(s, steps, [step]);
    assert [step][1..] == [];
  }

  // ------------------------------------------------------------ CSS sessions

  lemma {:induction false} BracketedMeans(log: seq<SessionEvent>, i: nat)
    requires Bracketed(log) && i < |log|
    ensures log[i].Began? <==> i % 2 == 0
    ensures log[i].Began? && i + 1 < |log| ==> log[i + 1] == Ended(log[i].owner)
  {
    var n := |log| - 1;
    if i < n {
      BracketedMeans(log[..n], i);
      if i == n - 1 { BracketedMeans(log[..n], n - 1); }
    }
  }

  lemma StartIsFine(threads: nat)
    ensures Inv(Start(threads))
  {
  }

  /** Sessions exclude each other: between the beginnings of two lies the end of the
      first, by its own owner. */
  lemma SessionsExclude(threads: nat, steps: seq<Step>, i: nat, j: nat)
    requires After(Start(threads), steps).Some? && !After(Start(threads), steps).value.freed
    requires var log := After(Start(threads), steps).value.sessions;
      i < j < |log| && log[i].Began? && log[j].Began?
    ensures var log := After(Start(threads), steps).value.sessions;
      i + 1 < j && log[i + 1] == Ended(log[i].owner)
  {
    hide After, Apply, Locks, Lifecycle, Clean;
    StartIsFine(threads);
    RunKeepsInv(Start(threads), steps);
    var log := After(Start(threads), steps).value.sessions;
    BracketedMeans(log, i);
    BracketedMeans(log, j);
  }

  /** What a step does to the sessions: the log only grows, and the open session goes on
      unless this step is its owner's end. */
  predicate SessionEffect(s: State, step: Step, n: State) {
    && s.sessions <= n.sessions
    && (s.open && !n.freed ==>
          if step.End? && step.cookie == s.owner && s.owner.Some? then |n.sessions| > |s.sessions|
          else n.open && n.owner == s.owner && n.sessions == s.sessions)
  }

  predicate SameSessions(s: State, n: State) {
    n.sessions == s.sessions && (!n.freed ==> n.open == s.open && n.owner == s.owner)
  }

  lemma ClaimLeavesSessions(s: State, step: Step)
    requires step.t < |s.pcs| && ClaimStep(s, step).Some?
    ensures SameSessions(s, ClaimStep(s, step).value)
  {
    hide Acquired, Released;
    match step
    case Acquire(t) => AcquiredLeavesSessions(s, t);
    case Release(t) => ReleasedLeavesSessions(s, t);
    case _ =>
  }

  lemma AcquiredLeavesSessions(s: State, t: nat)
    requires t < |s.pcs| && Acquired(s, t).Some?
    ensures SameSessions(s, Acquired(s, t).value)
  {
  }

  lemma ReleasedLeavesSessions(s: State, t: nat)
    requires t < |s.pcs| && Released(s, t).Some?
    ensures SameSessions(s, Released(s, t).value)
  {
  }

  lemma TeardownLeavesSessions(s: State, step: Step)
    requires step.t < |s.pcs| && TeardownStep(s, step).Some?
    ensures SameSessions(s, TeardownStep(s, step).value)
  {
  }

  lemma CommandLeavesSessions(s: State, step: Step)
    requires step.t < |s.pcs| && CommandStep(s, step).Some?
    ensures SameSessions(s, CommandStep(s, step).value)
  {
    hide CommandStep;
    CommandStepMovesOn(s, step);
  }

  lemma SettleLeavesSessions(s: State, step: Step)
    requires step.t < |s.pcs| && SettleStep(s, step).Some?
    ensures SameSessions(s, SettleStep(s, step).value)
  {
    hide SettleStep;
    SettleStepSettlesOn(s, step);
  }

  lemma SessionStepEffect(s: State, step: Step)
    requires step.t < |s.pcs| && SessionStep(s, step).Some? && (s.open ==> s.owner.Some?)
    ensures SessionEffect(s, step, SessionStep(s, step).value)
  {
  }

  lemma StepOnSessions(s: State, step: Step)
    requires Apply(s, step).Some? && (s.open ==> s.owner.Some?)
    ensures SessionEffect(s, step, Apply(s, step).value)
  {
    hide CommandStep, SettleStep, SessionStep, ClaimStep, TeardownStep, SessionEffect, SameSessions;
    if Apply(s, step) == SessionStep(s, step) {
      SessionStepEffect(s, step);
    } else {
      if CommandStep(s, step).Some? { CommandLeavesSessions(s, step); }
      if SettleStep(s, step).Some? { SettleLeavesSessions(s, step); }
      if ClaimStep(s, step).Some? { ClaimLeavesSessions(s, step); }
      if TeardownStep(s, step).Some? { TeardownLeavesSessions(s, step); }
      SameSessionsEffect(s, step, Apply(s, step).value);
    }
  }

  lemma SameSessionsEffect(s: State, step: Step, n: State)
    requires SameSessions(s, n) && !step.End?
    ensures SessionEffect(s, step, n)
  {
  }

  lemma SessionHasOwner(s: State)
    requires Inv(s) && !s.freed
    ensures s.open <==> s.owner.Some?
  {
    hide Bracketed, Locks, Lifecycle, Clean;
  }

  /** The first step of a run that does not get as far as freeing the slot. */
  lemma FirstStep(s: State, steps: seq<Step>)
    requires Inv(s) && After(s, steps).Some? && !After(s, steps).value.freed && steps != []
    ensures Apply(s, steps[0]).Some?
    ensures var n := Apply(s, steps[0]).value;
      && Inv(n) && !s.freed && !n.freed && After(n, steps[1..]) == After(s, steps)
  {
    hide Apply, Inv;
    var n := Apply(s, steps[0]).value;
    ApplyKeepsInv(s, steps[0]);
    RunKeepsInv(n, steps[1..]);
  }

  lemma {:induction false} SessionsOnlyGrow(s: State, steps: seq<Step>)
    requires Inv(s) && After(s, steps).Some? && !After(s, steps).value.freed
    ensures s.sessions <= After(s, steps).value.sessions
    decreases |steps|
  {
    hide Apply, Inv;
    if steps != [] {
      FirstStep(s, steps);
      SessionHasOwner(s);
      StepOnSessions(s, steps[0]);
      SessionsOnlyGrow(Apply(s, steps[0]).value, steps[1..]);
    }
  }

  /** Some step of the run is an end by this owner. */
  predicate EndsFor(steps: seq<Step>, owner: Option<Owner>) {
    exists i :: 0 <= i < |steps| && steps[i] == Step.End(steps[i].t, owner)
  }

  /** An open session is its owner's until the owner ends it: over every run, whatever
      else begins, fails to begin, times out or ends in it, the session is over if and
      only if an end by its owner is among the steps. */
  lemma {:induction false} OnlyItsOwnerEndsIt(s: State, steps: seq<Step>)
    requires Inv(s) && s.open && After(s, steps).Some? && !After(s, steps).value.freed
    ensures var z := After(s, steps).value;
      && (|z.sessions| > |s.sessions| <==> EndsFor(steps, s.owner))
      && (|z.sessions| == |s.sessions| ==> z.open && z.owner == s.owner && z.sessions == s.sessions)
    decreases |steps|
  {
    hide Apply, Inv;
    FreedEarlier(s, steps);
    SessionHasOwner(s);
    if steps != [] {
      FirstStep(s, steps);
      var n := Apply(s, steps[0]).value;
      StepOnSessions(s, steps[0]);
      if steps[0] == Step.End(steps[0].t, s.owner) {
        SessionsOnlyGrow(n, steps[1..]);
      } else {
        OnlyItsOwnerEndsIt(n, steps[1..]);
        EndIsLater(steps, s.owner);
      }
    }
  }

  lemma FreedEarlier(s: State, steps: seq<Step>)
    requires Inv(s) && After(s, steps).Some? && !After(s, steps).value.freed
    ensures !s.freed
  {
    hide Inv;
    RunKeepsInv(s, steps);
  }

  lemma EndIsLater(steps: seq<Step>, owner: Option<Owner>)
    requires steps != [] && steps[0] != Step.End(steps[0].t, owner)
    ensures EndsFor(steps, owner) <==> EndsFor(steps[1..], owner)
  {
    if i :| 0 <= i < |steps| && steps[i] == Step.End(steps[i].t, owner) {
      assert steps[1..][i - 1] == steps[i];
    }
  }

  /** What a begin comes to when it is called: NULL and an owner who has the session already
      are turned away and change nothing, so nobody waits for himself; a free session is
      opened; and only the session of another is waited for. */
  lemma BeginMeans(s: State, t: nat, cookie: Option<Owner>)
    requires t < |s.pcs| && s.pcs[t].Out? && s.published
    ensures Apply(s, Begin(t, cookie)).Some? && t < |Apply(s, Begin(t, cookie)).value.pcs|
    ensures var n := Apply(s, Begin(t, cookie)).value;
      if cookie == None || (s.open && s.owner == cookie) then n.pcs[t].Out? && n == s.(pcs := n.pcs)
      else if s.open then n.pcs[t] == Waiting(cookie.value) && n == s.(pcs := n.pcs)
      else
        && n.pcs[t].Out? && n.open && n.owner == cookie && n.sessions == s.sessions + [Began(cookie.value)]
        && n == s.(pcs := n.pcs, open := n.open, owner := n.owner, sessions := n.sessions)
  {
    hide CommandStep, SettleStep, ClaimStep, TeardownStep;
  }

  /** The last event on the log says whether a session is open. */
  lemma OpenMeans(s: State)
    requires Inv(s) && !s.freed
    ensures s.sessions == [] ==> !s.open
    ensures s.sessions != [] ==> (s.open <==> s.sessions[|s.sessions| - 1].Began?)
  {
    hide Locks, Lifecycle, Clean;
    if s.sessions != [] { BracketedMeans(s.sessions, |s.sessions| - 1); }
  }

  /** What a timeout is worth to a begin that met an open session, waits, and has its time
      run out at the end of any run. It is told that the session was leaked. That is
      untrue exactly when the last event on the session log is an end that came during
      the run: then the begin would have been let in, had it looked. And the session it
      met is still the one that is open exactly when its owner ends none in the run. */
  lemma TimeoutTellsTruth(s: State, steps: seq<Step>, t: nat)
    requires Inv(s) && s.open && After(s, steps).Some? && !After(s, steps).value.freed
    requires t < |After(s, steps).value.pcs| && After(s, steps).value.pcs[t].Waiting?
    ensures var z := After(s, steps).value;
      && WakeUp(z, t, true).answer == Some(IO)
      && (WakeUp(z, t, false).answer == Some(OK) <==>
            |z.sessions| > |s.sessions| && z.sessions[|z.sessions| - 1].Ended?)
      && (z.open && z.owner == s.owner && z.sessions == s.sessions <==> !EndsFor(steps, s.owner))
  {
    hide Inv, After;
    var z := After(s, steps).value;
    RunKeepsInv(s, steps);
    FreedEarlier(s, steps);
    SessionsOnlyGrow(s, steps);
    OnlyItsOwnerEndsIt(s, steps);
    OpenMeans(s);
    OpenMeans(z);
  }

  lemma BeginIs(s: State, t: nat, owner: Owner)
    requires t < |s.pcs| && s.pcs[t].Out? && s.published && s.owner != Some(owner)
    ensures Apply(s, Begin(t, Some(owner))) ==
      Some(if s.open then Go(s, t, Waiting(owner))
           else Go(s, t, Out).(open := true, owner := Some(owner), sessions := s.sessions + [Began(owner)]))
  {
  }

  lemma EndIs(s: State, t: nat, owner: Owner)
    requires t < |s.pcs| && s.pcs[t].Out? && s.published && s.open && s.owner == Some(owner)
    ensures Apply(s, Step.End(t, Some(owner))) ==
      Some(s.(open := false, owner := None, sessions := s.sessions + [Ended(owner)]))
  {
  }

  /** And it may be over by then: the begin would have succeeded had it looked. */
  lemma TimeoutUnseen() returns (steps: seq<Step>)
    ensures After(Start(2), steps).Some?
    ensures var s := After(Start(2), steps).value;
      && !s.freed && |s.pcs| == 2 && s.pcs[1].Waiting? && !s.open
      && WakeUp(s, 1, true).answer == Some(IO) && WakeUp(s, 1, false).answer == Some(OK)
  {
    hide Apply;
    var s0 := Start(2);
    assert After(s0, []) == Some(s0);
    BeginIs(s0, 0, 7);
    var s1 := Apply(s0, Begin(0, Some(7))).value;
    Then(s0, [], s0, Begin(0, Some(7)));
    BeginIs(s1, 1, 8);
    var s2 := Apply(s1, Begin(1, Some(8))).value;
    Then(s0, [] + [Begin(0, Some(7))], s1, Begin(1, Some(8)));
    EndIs(s2, 0, 7);
    steps := [] + [Begin(0, Some(7))] + [Begin(1, Some(8))];
    Then(s0, steps, s2, Step.End(0, Some(7)));
    steps := steps + [Step.End(0, Some(7))];
  }

  // --------------------------------------------------------------- who sends

  /** What thread `t` sent; only on a closed handle, if `onClosed`. */
  function SentBy(log: seq<Transfer>, t: nat, onClosed: bool): nat {
    if log == [] then 0
    else
      var x := log[|log| - 1];
      SentBy(log[..|log| - 1], t, onClosed) + if By(x, t) && (onClosed ==> x.closed) then 1 else 0
  }

  predicate By(x: Transfer, t: nat) {
    !x.OfTeardown? && x.thread == t
  }

  lemma SentByOneMore(log: seq<Transfer>, x: Transfer, t: nat, onClosed: bool)
    ensures SentBy(log + [x], t, onClosed) ==
      SentBy(log, t, onClosed) + if By(x, t) && (onClosed ==> x.closed) then 1 else 0
  {
    assert (log + [x])[..|log|] == log;
  }

  /** Past both tests of a settle call, with a command of it still to be sent. */
  predicate PastTests(pc: Pc) {
    pc.SettleQueued? || pc.SettleSending? || (pc.SettleLeaving? && pc.notReady) || pc.WaitQueued? || pc.WaitSending?
  }

  /** What thread `t` sends at its next step, if anything. */
  function Sends(s: State, t: nat): Option<Transfer>
    requires t < |s.pcs|
  {
    match s.pcs[t]
    case Sending(c) => Some(OfCommand(t, c, s.closed))
    case SettleSending => Some(OfSettle(t, s.closed))
    case WaitSending => Some(OfSettle(t, s.closed))
    case Resetting => if s.gone then None else Some(OfTeardown(s.closed))
    case _ => None
  }

  /** From where a thread comes to each place that matters for sending. */
  predicate Goes(s: State, p: Pc, q: Pc) {
    && (q.Sending? ==> p.AtTop? && !s.cancelled)
    && (q.AtTop? ==> p.Queued? || p.Sending?)
    && (q.Queued? ==> p.AtGone? && !s.gone)
    && (q.AtGone? ==> p.AtCancelled? && !s.cancelled)
    && (PastTests(q) ==> PastTests(p) || (p.SettleCancelled? && !s.cancelled))
    && (q.SettleCancelled? ==> p.SettleGone? && !s.gone)
  }

  /** What any step does to the thread that takes it, to the log and to the flags. */
  predicate Effect(s: State, t: nat, n: State)
    requires t < |s.pcs|
  {
    && t < |n.pcs| && n.pcs == s.pcs[t := n.pcs[t]]
    && n.sent == (match Sends(s, t) case None => s.sent case Some(x) => s.sent + [x])
    && (n.pcs[t] == s.pcs[t] || Goes(s, s.pcs[t], n.pcs[t]))
    && (!n.freed ==> (s.cancelled ==> n.cancelled) && (s.gone ==> n.gone) && (s.closed ==> n.closed))
  }

  lemma MoveEffect(s: State, t: nat, n: State)
    requires t < |s.pcs| && t < |n.pcs| && n.pcs == s.pcs[t := n.pcs[t]]
    requires n.sent == (match Sends(s, t) case None => s.sent case Some(x) => s.sent + [x])
    requires n.pcs[t] == s.pcs[t] || Goes(s, s.pcs[t], n.pcs[t])
    requires n.cancelled == s.cancelled && (s.gone ==> n.gone) && n.closed == s.closed
    ensures Effect(s, t, n)
  {
  }

  lemma CommandStepEffect(s: State, step: Step)
    requires step.t < |s.pcs| && CommandStep(s, step).Some?
    ensures Effect(s, step.t, CommandStep(s, step).value)
  {
    hide CommandStep, Effect;
    CommandStepMovesOn(s, step);
    CommandStepSends(s, step);
    CommandStepGoes(s, step);
    MoveEffect(s, step.t, CommandStep(s, step).value);
  }

  lemma CommandStepSends(s: State, step: Step)
    requires step.t < |s.pcs| && CommandStep(s, step).Some?
    ensures var n := CommandStep(s, step).value;
      && n.sent == (match Sends(s, step.t) case None => s.sent case Some(x) => s.sent + [x])
      && (s.gone ==> n.gone)
  {
  }

  lemma CommandStepGoes(s: State, step: Step)
    requires step.t < |s.pcs| && CommandStep(s, step).Some?
    ensures var n := CommandStep(s, step).value;
      && step.t < |n.pcs| && (n.pcs[step.t] == s.pcs[step.t] || Goes(s, s.pcs[step.t], n.pcs[step.t]))
  {
    hide Goes, PastTests;
    var p, q := s.pcs[step.t], CommandStep(s, step).value.pcs[step.t];
    assert (q.Queued? ==> p.AtGone? && !s.gone) && (q.Sending? ==> p.AtTop? && !s.cancelled);
    assert (q.AtTop? ==> p.Queued? || p.Sending?) && (q.AtGone? ==> p.AtCancelled? && !s.cancelled);
    GoesInCommand(s, p, q);
  }

  lemma GoesInCommand(s: State, p: Pc, q: Pc)
    requires q.Out? || q.AtSession? || Carried(q) || q.Leaving?
    requires (q.Queued? ==> p.AtGone? && !s.gone) && (q.Sending? ==> p.AtTop? && !s.cancelled)
    requires (q.AtTop? ==> p.Queued? || p.Sending?) && (q.AtGone? ==> p.AtCancelled? && !s.cancelled)
    ensures Goes(s, p, q)
  {
  }

  lemma TestedEffect(s: State, t: nat)
    requires t < |s.pcs|
    ensures Tested(s, t).Some? ==> Effect(s, t, Tested(s, t).value)
  {
    hide Effect;
    match s.pcs[t]
    case SettleGone => MoveEffect(s, t, Tested(s, t).value);
    case SettleCancelled => MoveEffect(s, t, Tested(s, t).value);
    case _ =>
  }

  lemma TakenTurnEffect(s: State, t: nat)
    requires t < |s.pcs|
    ensures TakenTurn(s, t).Some? ==> Effect(s, t, TakenTurn(s, t).value)
  {
    hide Effect;
    if s.io == None {
      match s.pcs[t]
      case SettleQueued => MoveEffect(s, t, TakenTurn(s, t).value);
      case WaitQueued => MoveEffect(s, t, TakenTurn(s, t).value);
      case _ =>
    }
  }

  lemma PolledEffect(s: State, t: nat, more: bool)
    requires t < |s.pcs|
    ensures Polled(s, t, more).Some? ==> Effect(s, t, Polled(s, t, more).value)
  {
    hide Effect;
    match s.pcs[t]
    case SettleSending => MoveEffect(s, t, Polled(s, t, more).value);
    case WaitSending => MoveEffect(s, t, Polled(s, t, more).value);
    case _ =>
  }

  lemma YieldedEffect(s: State, t: nat)
    requires t < |s.pcs|
    ensures Yielded(s, t).Some? ==> Effect(s, t, Yielded(s, t).value)
  {
    hide Effect;
    match s.pcs[t]
    case SettleLeaving(_) => MoveEffect(s, t, Yielded(s, t).value);
    case WaitLeaving => MoveEffect(s, t, Yielded(s, t).value);
    case _ =>
  }

  lemma SettleStepEffect(s: State, step: Step)
    requires step.t < |s.pcs| && SettleStep(s, step).Some?
    ensures Effect(s, step.t, SettleStep(s, step).value)
  {
    hide Tested, TakenTurn, Polled, Yielded;
    match step
    case Settle(t) => QuietEffect(s, t, Go(s, t, SettleGone));
    case Test(t) => TestedEffect(s, t);
    case TakeTurn(t) => TakenTurnEffect(s, t);
    case Poll(t, more) => PolledEffect(s, t, more);
    case Yield(t) => YieldedEffect(s, t);
    case _ =>
  }

  /** A step that sends nothing, raises and lowers nothing, and leads nowhere near. */
  lemma QuietEffect(s: State, t: nat, n: State)
    requires t < |s.pcs| && t < |n.pcs| && n.pcs == s.pcs[t := n.pcs[t]] && n.sent == s.sent && Sends(s, t) == None
    requires n.cancelled == s.cancelled && n.gone == s.gone && n.closed == s.closed
    requires n.pcs[t] == s.pcs[t] || Apart(n.pcs[t]) || n.pcs[t].SettleGone? || n.pcs[t].Raising?
    ensures Effect(s, t, n)
  {
  }

  lemma SessionStepEffects(s: State, step: Step)
    requires step.t < |s.pcs| && SessionStep(s, step).Some?
    ensures Effect(s, step.t, SessionStep(s, step).value)
  {
    hide SessionStep;
    SessionStepMovesApart(s, step);
    QuietEffect(s, step.t, SessionStep(s, step).value);
  }

  lemma AcquiredEffect(s: State, t: nat)
    requires t < |s.pcs|
    ensures Acquired(s, t).Some? ==> Effect(s, t, Acquired(s, t).value)
  {
    hide Effect;
    if Acquired(s, t).Some? { QuietEffect(s, t, Acquired(s, t).value); }
  }

  lemma ReleasedEffect(s: State, t: nat)
    requires t < |s.pcs|
    ensures Released(s, t).Some? ==> Effect(s, t, Released(s, t).value)
  {
    hide Effect;
    if s.pcs[t].Releasing? && s.registry == None && s.refs > 0 {
      if s.refs > 1 {
        QuietEffect(s, t, Go(s, t, Out).(refs := s.refs - 1));
      } else {
        QuietEffect(s, t, Go(s, t, Raising).(refs := 0, registry := Some(t)));
      }
    }
  }

  lemma ClaimStepEffect(s: State, step: Step)
    requires step.t < |s.pcs| && ClaimStep(s, step).Some?
    ensures Effect(s, step.t, ClaimStep(s, step).value)
  {
    hide Effect, Acquired, Released;
    match step
    case CallAcquire(t) => QuietEffect(s, t, Go(s, t, Acquiring));
    case CallRelease(t) => QuietEffect(s, t, Go(s, t, Releasing));
    case Acquire(t) => AcquiredEffect(s, t);
    case Release(t) => ReleasedEffect(s, t);
    case _ =>
  }

  lemma TeardownStepEffect(s: State, step: Step)
    requires step.t < |s.pcs| && TeardownStep(s, step).Some?
    ensures Effect(s, step.t, TeardownStep(s, step).value)
  {
    hide Goes;
    var n := TeardownStep(s, step).value;
    LeadsNowhere(s, s.pcs[step.t], n.pcs[step.t]);
  }

  lemma LeadsNowhere(s: State, p: Pc, q: Pc)
    requires q.Out? || HoldsRegistry(q)
    ensures Goes(s, p, q)
  {
  }

  lemma StepEffect(s: State, step: Step)
    requires Apply(s, step).Some?
    ensures step.t < |s.pcs| && Effect(s, step.t, Apply(s, step).value)
  {
    hide Effect, CommandStep, SettleStep, SessionStep, ClaimStep, TeardownStep;
    if CommandStep(s, step).Some? { CommandStepEffect(s, step); }
    if SettleStep(s, step).Some? { SettleStepEffect(s, step); }
    if SessionStep(s, step).Some? { SessionStepEffects(s, step); }
    if ClaimStep(s, step).Some? { ClaimStepEffect(s, step); }
    if TeardownStep(s, step).Some? { TeardownStepEffect(s, step); }
  }

  lemma EffectOnCount(s: State, actor: nat, n: State, t: nat, onClosed: bool)
    requires actor < |s.pcs| && t < |s.pcs| && Effect(s, actor, n)
    ensures SentBy(n.sent, t, onClosed) ==
      SentBy(s.sent, t, onClosed)
      + if t == actor && Sends(s, t).Some? && !s.pcs[t].Resetting? && (onClosed ==> s.closed) then 1 else 0
  {
    hide Sends, SentBy, Goes;
    match Sends(s, actor)
    case None =>
      SenderIs(s, actor, t);
    case Some(x) =>
      SentByOneMore(s.sent, x, t, onClosed);
      SenderIs(s, actor, t);
  }

  lemma SenderIs(s: State, actor: nat, t: nat)
    requires actor < |s.pcs| && t < |s.pcs|
    ensures match Sends(s, actor)
      case None => true
      case Some(x) => x.closed == s.closed && (By(x, t) <==> t == actor && !s.pcs[t].Resetting?)
  {
  }

  /** Whether a thread can still send once a flag is up: a command past the test of
      `device_gone`, unless `cancelled` stops it; a settle call past its tests, which
      nothing stops. */
  predicate MaySend(s: State, pc: Pc) {
    || pc.Sending? || ((pc.Queued? || pc.AtTop?) && !s.cancelled)
    || PastTests(pc) || (pc.SettleCancelled? && !s.cancelled)
  }

  lemma MayStillNotSend(s: State, actor: nat, n: State, t: nat)
    requires actor < |s.pcs| && t < |s.pcs| && Effect(s, actor, n) && !n.freed
    requires (s.gone || s.cancelled) && !MaySend(s, s.pcs[t])
    ensures t < |n.pcs| && (n.gone || n.cancelled) && !MaySend(n, n.pcs[t])
  {
  }

  /** A thread that cannot send, sends nothing. */
  lemma {:induction false} StopsTheRest(s: State, steps: seq<Step>, t: nat, onClosed: bool)
    requires Inv(s) && t < |s.pcs| && (s.gone || s.cancelled) && !MaySend(s, s.pcs[t])
    requires After(s, steps).Some? && !After(s, steps).value.freed
    ensures SentBy(After(s, steps).value.sent, t, onClosed) == SentBy(s.sent, t, onClosed)
    decreases |steps|
  {
    hide Apply, Inv, Effect;
    if steps != [] {
      FirstStep(s, steps);
      var n := Apply(s, steps[0]).value;
      StepEffect(s, steps[0]);
      EffectOnCount(s, steps[0].t, n, t, onClosed);
      MayStillNotSend(s, steps[0].t, n, t);
      StopsTheRest(n, steps[1..], t, onClosed);
    }
  }

  lemma LostLeaves(s: State, t: nat, again: bool)
    requires t < |s.pcs| && s.pcs[t].Sending?
    ensures Apply(s, Step.Attempt(t, again, true)) == Some(Go(s, t, Leaving).(
      gone := true, sent := s.sent + [OfCommand(t, s.pcs[t].c, s.closed)]))
  {
  }

  /** The attempt that finds the device gone is the last of its thread: whatever runs on
      from there, neither this command nor a later one sends anything more. */
  lemma LostIsTheLast(s: State, t: nat, again: bool, steps: seq<Step>)
    requires Inv(s) && t < |s.pcs| && s.pcs[t].Sending?
    requires Apply(s, Step.Attempt(t, again, true)).Some?
    requires var n := Apply(s, Step.Attempt(t, again, true)).value;
      After(n, steps).Some? && !After(n, steps).value.freed
    ensures SentBy(After(Apply(s, Step.Attempt(t, again, true)).value, steps).value.sent, t, false) ==
      SentBy(s.sent, t, false) + 1
  {
    hide Inv, After, Apply;
    LostLeaves(s, t, again);
    ApplyKeepsInv(s, Step.Attempt(t, again, true));
    var n := Apply(s, Step.Attempt(t, again, true)).value;
    SentByOneMore(s.sent, OfCommand(t, s.pcs[t].c, s.closed), t, false);
    StopsTheRest(n, steps, t, false);
  }

  /** Once the handle is closed it stays closed, so all that is sent goes there. */
  lemma {:induction false} AllOnClosed(s: State, steps: seq<Step>, t: nat)
    requires Inv(s) && t < |s.pcs| && s.closed
    requires After(s, steps).Some? && !After(s, steps).value.freed
    ensures SentBy(After(s, steps).value.sent, t, true) - SentBy(s.sent, t, true)
      == SentBy(After(s, steps).value.sent, t, false) - SentBy(s.sent, t, false)
    decreases |steps|
  {
    hide Apply, Inv;
    if steps != [] {
      FirstStep(s, steps);
      var n := Apply(s, steps[0]).value;
      StepEffect(s, steps[0]);
      EffectOnCount(s, steps[0].t, n, t, true);
      EffectOnCount(s, steps[0].t, n, t, false);
      AllOnClosed(n, steps[1..], t);
    }
  }

  /** On its way to a transfer: in a command past its test of `cancelled`, or in a settle call
      past its own. */
  predicate Inside(pc: Pc) {
    pc.AtGone? || pc.Queued? || pc.AtTop? || pc.Sending? || PastTests(pc)
  }

  /** A call that comes to its test after the cancellation does not queue for io_lock, to
      wait out the transaction of another; nor does any later one, until the slot is
      freed. */
  lemma {:induction false} LatecomersStayOut(s: State, steps: seq<Step>, t: nat)
    requires Inv(s) && t < |s.pcs| && s.cancelled && !Inside(s.pcs[t])
    requires After(s, steps).Some? && !After(s, steps).value.freed
    ensures t < |After(s, steps).value.pcs| && !Inside(After(s, steps).value.pcs[t])
    decreases |steps|
  {
    hide Apply, Inv;
    if steps != [] {
      FirstStep(s, steps);
      StepEffect(s, steps[0]);
      LatecomersStayOut(Apply(s, steps[0]).value, steps[1..], t);
    }
  }

  /** The resets that teardowns have sent. */
  function Resets(log: seq<Transfer>): nat {
    if log == [] then 0 else Resets(log[..|log| - 1]) + if log[|log| - 1].OfTeardown? then 1 else 0
  }

  /** A device found gone is not reset on the way out. */
  lemma {:induction false} GoneIsNotReset(s: State, steps: seq<Step>)
    requires Inv(s) && s.gone && After(s, steps).Some? && !After(s, steps).value.freed
    ensures Resets(After(s, steps).value.sent) == Resets(s.sent)
    decreases |steps|
  {
    hide Apply, Inv, Goes;
    if steps != [] {
      FirstStep(s, steps);
      var n := Apply(s, steps[0]).value;
      StepEffect(s, steps[0]);
      assert n.sent != s.sent ==> n.sent[..|s.sent|] == s.sent;
      GoneIsNotReset(n, steps[1..]);
    }
  }

  /** Claims made by some steps, less claims given back. */
  function Claimed(steps: seq<Step>): int {
    if steps == [] then 0
    else (if steps[0].Acquire? then 1 else if steps[0].Release? then -1 else 0) + Claimed(steps[1..])
  }

  lemma ClaimStepCounts(s: State, step: Step)
    requires step.t < |s.pcs| && ClaimStep(s, step).Some?
    ensures ClaimStep(s, step).value.refs == s.refs + if step.Acquire? then 1 else if step.Release? then -1 else 0
  {
  }

  lemma CommandLeavesClaims(s: State, step: Step)
    requires step.t < |s.pcs| && CommandStep(s, step).Some?
    ensures CommandStep(s, step).value.refs == s.refs
  {
    hide CommandStep;
    CommandStepMovesOn(s, step);
  }

  lemma SettleLeavesClaims(s: State, step: Step)
    requires step.t < |s.pcs| && SettleStep(s, step).Some?
    ensures SettleStep(s, step).value.refs == s.refs
  {
    hide SettleStep;
    SettleStepSettlesOn(s, step);
  }

  lemma SessionLeavesClaims(s: State, step: Step)
    requires step.t < |s.pcs| && SessionStep(s, step).Some?
    ensures SessionStep(s, step).value.refs == s.refs
  {
    hide SessionStep;
    SessionStepMovesApart(s, step);
  }

  lemma TeardownLeavesClaims(s: State, step: Step)
    requires step.t < |s.pcs| && TeardownStep(s, step).Some?
    ensures TeardownStep(s, step).value.refs == s.refs
  {
  }

  lemma StepCounts(s: State, step: Step)
    requires Apply(s, step).Some?
    ensures Apply(s, step).value.refs == s.refs + if step.Acquire? then 1 else if step.Release? then -1 else 0
  {
    hide CommandStep, SettleStep, SessionStep, ClaimStep, TeardownStep;
    if Apply(s, step) == ClaimStep(s, step) {
      ClaimStepCounts(s, step);
    } else {
      if CommandStep(s, step).Some? { CommandLeavesClaims(s, step); }
      if SettleStep(s, step).Some? { SettleLeavesClaims(s, step); }
      if SessionStep(s, step).Some? { SessionLeavesClaims(s, step); }
      if TeardownStep(s, step).Some? { TeardownLeavesClaims(s, step); }
    }
  }

  lemma {:induction false} RunCounts(s: State, steps: seq<Step>)
    requires After(s, steps).Some?
    ensures After(s, steps).value.refs == s.refs + Claimed(steps)
    decreases |steps|
  {
    hide Apply;
    if steps != [] {
      StepCounts(s, steps[0]);
      RunCounts(Apply(s, steps[0]).value, steps[1..]);
    }
  }

  /** The entry is taken down when the last claim is given back, and not before: in every
      reachable state a teardown is under way exactly when the first claim and those made
      since are all given back, and only then is anything cancelled. */
  lemma LastClaimTakesDown(threads: nat, steps: seq<Step>)
    requires After(Start(threads), steps).Some? && !After(Start(threads), steps).value.freed
    ensures var z := After(Start(threads), steps).value;
      && (1 + Claimed(steps) == 0 <==> exists t :: 0 <= t < |z.pcs| && HoldsRegistry(z.pcs[t]))
      && 1 + Claimed(steps) >= 0
      && (z.cancelled ==> 1 + Claimed(steps) == 0)
  {
    hide After, Apply, Clean, Sessions;
    StartIsFine(threads);
    RunKeepsInv(Start(threads), steps);
    RunCounts(Start(threads), steps);
    var z := After(Start(threads), steps).value;
    if z.registry.Some? {
      assert HoldsRegistry(z.pcs[z.registry.value]);
    }
  }

  /** Attempts of this call that are still to come once `cancelled` is up. */
  function LastAttempt(pc: Pc): nat {
    if pc.Sending? then 1 else 0
  }

  /** What thread `t` sent as commands. */
  function AttemptsBy(log: seq<Transfer>, t: nat): nat {
    if log == [] then 0
    else
      var x := log[|log| - 1];
      AttemptsBy(log[..|log| - 1], t) + if x.OfCommand? && x.thread == t then 1 else 0
  }

  lemma AttemptsOnEffect(s: State, actor: nat, n: State, t: nat)
    requires actor < |s.pcs| && t < |s.pcs| && Effect(s, actor, n)
    ensures AttemptsBy(n.sent, t) == AttemptsBy(s.sent, t) + if t == actor && s.pcs[t].Sending? then 1 else 0
  {
    hide Goes;
    match Sends(s, actor)
    case None =>
    case Some(x) => assert (s.sent + [x])[..|s.sent|] == s.sent;
  }

  /** Once `cancelled` is up, a thread anywhere inside a command makes at most one
      more attempt, and only if it was past the check already. */
  lemma {:induction false} AtMostOneMoreAttempt(s: State, steps: seq<Step>, t: nat)
    requires Inv(s) && t < |s.pcs| && s.cancelled
    requires After(s, steps).Some? && !After(s, steps).value.freed
    ensures AttemptsBy(After(s, steps).value.sent, t) <= AttemptsBy(s.sent, t) + LastAttempt(s.pcs[t])
    decreases |steps|
  {
    hide Apply, Inv;
    if steps != [] {
      FirstStep(s, steps);
      var n := Apply(s, steps[0]).value;
      StepEffect(s, steps[0]);
      AttemptsOnEffect(s, steps[0].t, n, t);
      if s.pcs[steps[0].t].Sending? { ASendingThreadSends(s, steps[0]); }
      AtMostOneMoreAttempt(n, steps[1..], t);
    }
  }

  lemma ASendingThreadSends(s: State, step: Step)
    requires Apply(s, step).Some? && step.t < |s.pcs| && s.pcs[step.t].Sending?
    ensures step.t < |Apply(s, step).value.pcs| && !Apply(s, step).value.pcs[step.t].Sending?
  {
    StepEffect(s, step);
  }

  // -------------------------------------------------- runs that can be brought about

  /** The step a thread takes next, on its shortest way out of what it is doing. */
  function NextStep(pc: Pc, t: nat): Step {
    match pc
    case Out => Call(t, false)
    case AtSession(_) => CheckSession(t)
    case AtCancelled(_) => CheckCancelled(t)
    case AtGone(_) => CheckGone(t)
    case Queued(_) => TakeIo(t)
    case AtTop(_) => CheckAgain(t)
    case Sending(_) => Step.Attempt(t, false, false)
    case Leaving => Leave(t)
    case SettleGone => Test(t)
    case SettleCancelled => Test(t)
    case SettleQueued => TakeTurn(t)
    case SettleSending => Poll(t, false)
    case SettleLeaving(_) => Yield(t)
    case WaitQueued => TakeTurn(t)
    case WaitSending => Poll(t, false)
    case WaitLeaving => Yield(t)
    case Waiting(_) => Wake(t, true)
    case Acquiring => Acquire(t)
    case Releasing => Release(t)
    case Raising => Raise(t)
    case Draining => Drain(t)
    case Resetting => Reset(t)
    case Closing => Close(t)
    case Unlocking => Unlock(t)
    case Freeing => Step.Free(t)
  }

  /** How far that way is, at most. */
  function Rank(pc: Pc): nat {
    match pc
    case Out => 0
    case AtSession(_) => 8
    case AtCancelled(_) => 7
    case AtGone(_) => 6
    case Queued(_) => 5
    case AtTop(_) => 4
    case Sending(_) => 3
    case Leaving => 1
    case SettleGone => 10
    case SettleCancelled => 9
    case SettleQueued => 8
    case SettleSending => 7
    case SettleLeaving(_) => 6
    case WaitQueued => 5
    case WaitSending => 4
    case WaitLeaving => 1
    case Waiting(_) => 1
    case Acquiring => 1
    case Releasing => 8
    case Raising => 7
    case Draining => 6
    case Resetting => 5
    case Closing => 4
    case Unlocking => 3
    case Freeing => 2
  }

  predicate WantsIo(pc: Pc) {
    pc.Queued? || pc.Draining? || pc.SettleQueued? || pc.WaitQueued?
  }

  predicate WantsRegistry(pc: Pc) {
    pc.Acquiring? || pc.Releasing?
  }

  /** Thread `t` takes its next step, and is nearer its way out then; a teardown keeps
      the registry until the slot is free. */
  predicate Moves(s: State, t: nat)
    requires t < |s.pcs|
  {
    var next := Apply(s, NextStep(s.pcs[t], t));
    && next.Some? && t < |next.value.pcs| && Rank(next.value.pcs[t]) < Rank(s.pcs[t])
    && (HoldsRegistry(s.pcs[t]) ==> HoldsRegistry(next.value.pcs[t]) || next.value.freed)
  }

  lemma TestsMove(s: State, t: nat)
    requires t < |s.pcs| && (s.pcs[t].AtSession? || s.pcs[t].AtCancelled? || s.pcs[t].AtGone?)
    ensures Moves(s, t)
  {
    hide SettleStep, SessionStep, ClaimStep, TeardownStep;
    match s.pcs[t]
    case AtSession(_) => assert NextStep(s.pcs[t], t) == CheckSession(t);
    case AtCancelled(_) => assert NextStep(s.pcs[t], t) == CheckCancelled(t);
    case AtGone(_) => assert NextStep(s.pcs[t], t) == CheckGone(t);
    case _ =>
  }

  lemma TurnMoves(s: State, t: nat)
    requires t < |s.pcs| && (s.pcs[t].Queued? || s.pcs[t].AtTop?)
    requires WantsIo(s.pcs[t]) ==> s.io == None
    ensures Moves(s, t)
  {
    hide SettleStep, SessionStep, ClaimStep, TeardownStep;
    match s.pcs[t]
    case Queued(_) => assert NextStep(s.pcs[t], t) == TakeIo(t);
    case AtTop(_) => assert NextStep(s.pcs[t], t) == CheckAgain(t);
    case _ =>
  }

  lemma AttemptMoves(s: State, t: nat)
    requires t < |s.pcs| && (s.pcs[t].Sending? || s.pcs[t].Leaving?)
    ensures Moves(s, t)
  {
    hide SettleStep, SessionStep, ClaimStep, TeardownStep;
    match s.pcs[t]
    case Sending(_) => assert NextStep(s.pcs[t], t) == Step.Attempt(t, false, false);
    case Leaving => assert NextStep(s.pcs[t], t) == Leave(t);
    case _ =>
  }

  lemma SettleTestsMove(s: State, t: nat)
    requires t < |s.pcs| && (s.pcs[t].SettleGone? || s.pcs[t].SettleCancelled?)
    ensures Moves(s, t)
  {
    hide CommandStep, SessionStep, ClaimStep, TeardownStep;
    match s.pcs[t]
    case SettleGone => assert NextStep(s.pcs[t], t) == Test(t);
    case SettleCancelled => assert NextStep(s.pcs[t], t) == Test(t);
    case _ =>
  }

  lemma SettleTurnsMove(s: State, t: nat)
    requires t < |s.pcs| && (s.pcs[t].SettleQueued? || s.pcs[t].WaitQueued?)
    requires WantsIo(s.pcs[t]) ==> s.io == None
    ensures Moves(s, t)
  {
    hide CommandStep, SessionStep, ClaimStep, TeardownStep;
    match s.pcs[t]
    case SettleQueued => assert NextStep(s.pcs[t], t) == TakeTurn(t);
    case WaitQueued => assert NextStep(s.pcs[t], t) == TakeTurn(t);
    case _ =>
  }

  lemma SettlePollsMove(s: State, t: nat)
    requires t < |s.pcs| && (s.pcs[t].SettleSending? || s.pcs[t].WaitSending?)
    ensures Moves(s, t)
  {
    hide CommandStep, SessionStep, ClaimStep, TeardownStep;
    match s.pcs[t]
    case SettleSending => assert NextStep(s.pcs[t], t) == Poll(t, false);
    case WaitSending => assert NextStep(s.pcs[t], t) == Poll(t, false);
    case _ =>
  }

  lemma SettleLeavesMove(s: State, t: nat)
    requires t < |s.pcs| && (s.pcs[t].SettleLeaving? || s.pcs[t].WaitLeaving?)
    ensures Moves(s, t)
  {
    hide CommandStep, SessionStep, ClaimStep, TeardownStep;
    match s.pcs[t]
    case SettleLeaving(_) => assert NextStep(s.pcs[t], t) == Yield(t);
    case WaitLeaving => assert NextStep(s.pcs[t], t) == Yield(t);
    case _ =>
  }

  lemma WaitMoves(s: State, t: nat)
    requires t < |s.pcs| && (s.pcs[t].Waiting? || s.pcs[t].Acquiring?)
    requires WantsRegistry(s.pcs[t]) ==> s.registry == None && s.refs > 0
    ensures Moves(s, t)
  {
    hide CommandStep, SettleStep, TeardownStep;
    match s.pcs[t]
    case Waiting(_) => assert NextStep(s.pcs[t], t) == Wake(t, true);
    case Acquiring => assert NextStep(s.pcs[t], t) == Acquire(t);
    case _ =>
  }

  lemma ReleaseMoves(s: State, t: nat)
    requires t < |s.pcs| && (s.pcs[t].Releasing?)
    requires WantsRegistry(s.pcs[t]) ==> s.registry == None && s.refs > 0
    ensures Moves(s, t)
  {
    hide CommandStep, SettleStep, SessionStep, TeardownStep;
    match s.pcs[t]
    case Releasing => assert NextStep(s.pcs[t], t) == Release(t);
    case _ =>
  }

  lemma DrainMoves(s: State, t: nat)
    requires t < |s.pcs| && (s.pcs[t].Raising? || s.pcs[t].Draining?)
    requires WantsIo(s.pcs[t]) ==> s.io == None
    ensures Moves(s, t)
  {
    hide CommandStep, SettleStep, SessionStep, ClaimStep;
    match s.pcs[t]
    case Raising => assert NextStep(s.pcs[t], t) == Raise(t);
    case Draining => assert NextStep(s.pcs[t], t) == Drain(t);
    case _ =>
  }

  lemma CloseMoves(s: State, t: nat)
    requires t < |s.pcs| && (s.pcs[t].Resetting? || s.pcs[t].Closing?)
    ensures Moves(s, t)
  {
    hide CommandStep, SettleStep, SessionStep, ClaimStep;
    match s.pcs[t]
    case Resetting => assert NextStep(s.pcs[t], t) == Reset(t);
    case Closing => assert NextStep(s.pcs[t], t) == Close(t);
    case _ =>
  }

  lemma FreeMoves(s: State, t: nat)
    requires t < |s.pcs| && (s.pcs[t].Unlocking? || s.pcs[t].Freeing?)
    ensures Moves(s, t)
  {
    hide CommandStep, SettleStep, SessionStep, ClaimStep;
    match s.pcs[t]
    case Unlocking => assert NextStep(s.pcs[t], t) == Unlock(t);
    case Freeing => assert NextStep(s.pcs[t], t) == Step.Free(t);
    case _ =>
  }

  /** A thread inside a call that waits for no lock takes its next step. */
  lemma NextStepIsTaken(s: State, t: nat)
    requires t < |s.pcs| && !s.pcs[t].Out?
    requires WantsIo(s.pcs[t]) ==> s.io == None
    requires WantsRegistry(s.pcs[t]) ==> s.registry == None && s.refs > 0
    ensures Moves(s, t)
  {
    hide Moves;
    match s.pcs[t]
    case AtSession(_) => TestsMove(s, t);
    case AtCancelled(_) => TestsMove(s, t);
    case AtGone(_) => TestsMove(s, t);
    case Queued(_) => TurnMoves(s, t);
    case AtTop(_) => TurnMoves(s, t);
    case Sending(_) => AttemptMoves(s, t);
    case Leaving => AttemptMoves(s, t);
    case SettleGone => SettleTestsMove(s, t);
    case SettleCancelled => SettleTestsMove(s, t);
    case SettleQueued => SettleTurnsMove(s, t);
    case WaitQueued => SettleTurnsMove(s, t);
    case SettleSending => SettlePollsMove(s, t);
    case WaitSending => SettlePollsMove(s, t);
    case SettleLeaving(_) => SettleLeavesMove(s, t);
    case WaitLeaving => SettleLeavesMove(s, t);
    case Waiting(_) => WaitMoves(s, t);
    case Acquiring => WaitMoves(s, t);
    case Releasing => ReleaseMoves(s, t);
    case Raising => DrainMoves(s, t);
    case Draining => DrainMoves(s, t);
    case Resetting => CloseMoves(s, t);
    case Closing => CloseMoves(s, t);
    case Unlocking => FreeMoves(s, t);
    case Freeing => FreeMoves(s, t);
    case Out =>
  }

  // ---------------------------------------------------------------- progress

  /** A holder of io_lock on its way out lets go of it, and lowers or raises nothing. */
  predicate HolderGoes(s: State, h: nat)
    requires h < |s.pcs|
  {
    var next := Apply(s, NextStep(s.pcs[h], h));
    next.Some? ==>
      && next.value.freed == s.freed && next.value.cancelled == s.cancelled
      && (next.value.io == None || next.value.io == s.io)
  }

  lemma AttemptGoes(s: State, h: nat)
    requires h < |s.pcs| && (s.pcs[h].AtTop? || s.pcs[h].Sending?)
    ensures HolderGoes(s, h)
  {
    hide SettleStep, SessionStep, ClaimStep, TeardownStep;
    match s.pcs[h]
    case AtTop(_) => assert NextStep(s.pcs[h], h) == CheckAgain(h);
    case Sending(_) => assert NextStep(s.pcs[h], h) == Step.Attempt(h, false, false);
    case _ =>
  }

  lemma LeaveGoes(s: State, h: nat)
    requires h < |s.pcs| && s.pcs[h].Leaving?
    ensures HolderGoes(s, h)
  {
    hide SettleStep, SessionStep, ClaimStep, TeardownStep;
    assert NextStep(s.pcs[h], h) == Leave(h);
  }

  lemma SettlePollGoes(s: State, h: nat)
    requires h < |s.pcs| && (s.pcs[h].SettleSending? || s.pcs[h].WaitSending?)
    ensures HolderGoes(s, h)
  {
    hide CommandStep, SessionStep, ClaimStep, TeardownStep;
    assert NextStep(s.pcs[h], h) == Poll(h, false);
  }

  lemma SettleLeaveGoes(s: State, h: nat)
    requires h < |s.pcs| && (s.pcs[h].SettleLeaving? || s.pcs[h].WaitLeaving?)
    ensures HolderGoes(s, h)
  {
    hide CommandStep, SessionStep, ClaimStep, TeardownStep;
    assert NextStep(s.pcs[h], h) == Yield(h);
  }

  lemma ResetGoes(s: State, h: nat)
    requires h < |s.pcs| && s.pcs[h].Resetting?
    ensures HolderGoes(s, h)
  {
    hide CommandStep, SettleStep, SessionStep, ClaimStep;
    assert NextStep(s.pcs[h], h) == Reset(h);
  }

  lemma CloseGoes(s: State, h: nat)
    requires h < |s.pcs| && (s.pcs[h].Closing? || s.pcs[h].Unlocking?)
    ensures HolderGoes(s, h)
  {
    hide CommandStep, SettleStep, SessionStep, ClaimStep;
    match s.pcs[h]
    case Closing => assert NextStep(s.pcs[h], h) == Close(h);
    case Unlocking => assert NextStep(s.pcs[h], h) == Unlock(h);
    case _ =>
  }

  /** Who holds io_lock waits for nothing, and goes on towards letting go of it. */
  lemma HolderMoves(s: State, h: nat)
    requires h < |s.pcs| && HoldsIo(s.pcs[h])
    ensures Moves(s, h) && HolderGoes(s, h)
  {
    hide Moves, HolderGoes;
    NextStepIsTaken(s, h);
    if s.pcs[h].SettleSending? || s.pcs[h].WaitSending? {
      SettlePollGoes(s, h);
    } else if s.pcs[h].SettleLeaving? || s.pcs[h].WaitLeaving? {
      SettleLeaveGoes(s, h);
    } else if s.pcs[h].Resetting? {
      ResetGoes(s, h);
    } else if s.pcs[h].Closing? || s.pcs[h].Unlocking? {
      CloseGoes(s, h);
    } else if s.pcs[h].Leaving? {
      LeaveGoes(s, h);
    } else {
      AttemptGoes(s, h);
    }
  }

  lemma HolderOf(s: State, h: nat)
    requires Inv(s) && !s.freed && s.io == Some(h)
    ensures h < |s.pcs| && HoldsIo(s.pcs[h])
  {
  }

  /** The thread that holds io_lock lets go of it, and no other moves. */
  lemma {:induction false} LetsGo(s: State, h: nat, t: nat) returns (steps: seq<Step>, z: State)
    requires Inv(s) && !s.freed && s.io == Some(h) && t < |s.pcs| && t != h
    ensures After(s, steps) == Some(z) && Inv(z) && !z.freed && z.io == None && z.cancelled == s.cancelled
    ensures t < |z.pcs| && z.pcs[t] == s.pcs[t] && SentBy(z.sent, t, false) == SentBy(s.sent, t, false)
    decreases if h < |s.pcs| then Rank(s.pcs[h]) else 0
  {
    hide Inv, NextStep, Apply;
    HolderOf(s, h);
    HolderMoves(s, h);
    var step := NextStep(s.pcs[h], h);
    NextStepIsMine(s, h);
    var n := Apply(s, step).value;
    ApplyKeepsInv(s, step);
    StepEffect(s, step);
    EffectOnCount(s, h, n, t, false);
    if n.io == None {
      steps, z := [step], n;
    } else {
      var rest;
      rest, z := LetsGo(n, h, t);
      steps := [step] + rest;
    }
  }

  lemma NextStepIsMine(s: State, t: nat)
    requires t < |s.pcs|
    ensures NextStep(s.pcs[t], t).t == t
  {
  }

  /** io_lock is free for `t`, once whoever holds it has let go. */
  lemma MakesWay(s: State, t: nat) returns (steps: seq<Step>, z: State)
    requires Inv(s) && !s.freed && t < |s.pcs|
    ensures After(s, steps) == Some(z) && Inv(z) && !z.freed && z.cancelled == s.cancelled
    ensures t < |z.pcs| && z.pcs[t] == s.pcs[t] && SentBy(z.sent, t, false) == SentBy(s.sent, t, false)
    ensures WantsIo(s.pcs[t]) ==> z.io == None
    ensures !WantsIo(s.pcs[t]) ==> z == s
  {
    hide Inv, Apply;
    steps, z := [], s;
    if WantsIo(s.pcs[t]) && s.io.Some? {
      HolderOf(s, s.io.value);
      steps, z := LetsGo(s, s.io.value, t);
    }
  }

  lemma RegistryOf(s: State)
    requires Inv(s) && !s.freed
    ensures s.registry.Some? ==> s.registry.value < |s.pcs| && HoldsRegistry(s.pcs[s.registry.value])
    ensures s.registry == None ==> s.refs > 0
  {
  }

  /** A teardown, once begun, frees the slot. */
  lemma {:induction false} TeardownFrees(s: State, h: nat) returns (steps: seq<Step>)
    requires Inv(s) && !s.freed && h < |s.pcs| && HoldsRegistry(s.pcs[h])
    ensures After(s, steps).Some? && After(s, steps).value.freed
    decreases Rank(s.pcs[h])
  {
    hide Inv, NextStep, Apply;
    var first, z := MakesWay(s, h);
    NextStepIsTaken(z, h);
    var step := NextStep(z.pcs[h], h);
    var n := Apply(z, step).value;
    ApplyKeepsInv(z, step);
    Then(s, first, z, step);
    steps := first + [step];
    if !n.freed {
      var rest := TeardownFrees(n, h);
      AfterBoth(s, steps, rest);
      steps := steps + rest;
    }
  }

  /** No deadlock and no dead end: wherever a thread is, in any reachable state, its
      call can still be brought to an end, or the slot is freed under it. */
  lemma {:induction false} EveryCallCanFinish(s: State, t: nat) returns (steps: seq<Step>)
    requires Inv(s) && !s.freed && t < |s.pcs|
    ensures After(s, steps).Some?
    ensures var z := After(s, steps).value; z.freed || (t < |z.pcs| && z.pcs[t].Out?)
    decreases Rank(s.pcs[t])
  {
    hide Inv, NextStep, Apply;
    steps := [];
    RegistryOf(s);
    if s.pcs[t].Out? {
    } else if WantsRegistry(s.pcs[t]) && s.registry.Some? {
      steps := TeardownFrees(s, s.registry.value);
    } else {
      var first, z := MakesWay(s, t);
      NextStepIsTaken(z, t);
      var step := NextStep(z.pcs[t], t);
      var n := Apply(z, step).value;
      ApplyKeepsInv(z, step);
      Then(s, first, z, step);
      steps := first + [step];
      if !n.freed {
        var rest := EveryCallCanFinish(n, t);
        AfterBoth(s, steps, rest);
        steps := steps + rest;
      }
    }
  }

  // ---------------------------------------------------- exactly who still sends

  /** A thread that may send comes nearer to it. */
  predicate SendsSoon(s: State, t: nat)
    requires t < |s.pcs|
  {
    var next := Apply(s, NextStep(s.pcs[t], t));
    next.Some? ==>
      && next.value.freed == s.freed && next.value.cancelled == s.cancelled
      && (Sends(s, t) == None ==> t < |next.value.pcs| && MaySend(next.value, next.value.pcs[t]))
  }

  lemma CommandSendsSoon(s: State, t: nat)
    requires t < |s.pcs| && (s.pcs[t].Queued? || s.pcs[t].AtTop?) && !s.cancelled
    ensures SendsSoon(s, t)
  {
    hide SettleStep, SessionStep, ClaimStep, TeardownStep;
    match s.pcs[t]
    case Queued(_) => assert NextStep(s.pcs[t], t) == TakeIo(t);
    case AtTop(_) => assert NextStep(s.pcs[t], t) == CheckAgain(t);
    case _ =>
  }

  lemma AttemptSendsSoon(s: State, t: nat)
    requires t < |s.pcs| && s.pcs[t].Sending?
    ensures SendsSoon(s, t)
  {
    hide SettleStep, SessionStep, ClaimStep, TeardownStep;
    assert NextStep(s.pcs[t], t) == Step.Attempt(t, false, false);
  }

  lemma TurnSendsSoon(s: State, t: nat)
    requires t < |s.pcs| && s.pcs[t].SettleQueued?
    ensures SendsSoon(s, t)
  {
    hide CommandStep, SessionStep, ClaimStep, TeardownStep;
    assert NextStep(s.pcs[t], t) == TakeTurn(t);
  }

  lemma WaitTurnSendsSoon(s: State, t: nat)
    requires t < |s.pcs| && s.pcs[t].WaitQueued?
    ensures SendsSoon(s, t)
  {
    hide CommandStep, SessionStep, ClaimStep, TeardownStep;
    assert NextStep(s.pcs[t], t) == TakeTurn(t);
  }

  lemma PollSendsSoon(s: State, t: nat)
    requires t < |s.pcs| && (s.pcs[t].SettleSending? || s.pcs[t].WaitSending?)
    ensures SendsSoon(s, t)
  {
    hide CommandStep, SessionStep, ClaimStep, TeardownStep;
    assert NextStep(s.pcs[t], t) == Poll(t, false);
  }

  lemma LeaveSendsSoon(s: State, t: nat)
    requires t < |s.pcs| && s.pcs[t].SettleLeaving? && s.pcs[t].notReady
    ensures SendsSoon(s, t)
  {
    hide CommandStep, SessionStep, ClaimStep, TeardownStep;
    assert NextStep(s.pcs[t], t) == Yield(t);
  }

  lemma TestSendsSoon(s: State, t: nat)
    requires t < |s.pcs| && s.pcs[t].SettleCancelled? && !s.cancelled
    ensures SendsSoon(s, t)
  {
    hide CommandStep, SessionStep, ClaimStep, TeardownStep;
    assert NextStep(s.pcs[t], t) == Test(t);
  }

  lemma WhoMaySendsSoon(s: State, t: nat)
    requires t < |s.pcs| && MaySend(s, s.pcs[t])
    ensures SendsSoon(s, t)
  {
    hide SendsSoon;
    if s.pcs[t].SettleCancelled? {
      TestSendsSoon(s, t);
    } else if s.pcs[t].SettleLeaving? {
      LeaveSendsSoon(s, t);
    } else if s.pcs[t].SettleQueued? {
      TurnSendsSoon(s, t);
    } else if s.pcs[t].WaitQueued? {
      WaitTurnSendsSoon(s, t);
    } else if s.pcs[t].SettleSending? || s.pcs[t].WaitSending? {
      PollSendsSoon(s, t);
    } else if s.pcs[t].Sending? {
      AttemptSendsSoon(s, t);
    } else {
      CommandSendsSoon(s, t);
    }
  }

  /** It waits for nothing but io_lock, and what it sends is its own. */
  lemma MaySendMeans(s: State, pc: Pc, z: State)
    requires MaySend(s, pc) && z.cancelled == s.cancelled
    ensures !pc.Out? && !WantsRegistry(pc) && !pc.Resetting? && MaySend(z, pc)
  {
  }

  /** A run in which it sends. */
  lemma {:induction false} ItSends(s: State, t: nat) returns (steps: seq<Step>)
    requires Inv(s) && !s.freed && t < |s.pcs| && MaySend(s, s.pcs[t])
    ensures After(s, steps).Some? && !After(s, steps).value.freed
    ensures SentBy(After(s, steps).value.sent, t, false) > SentBy(s.sent, t, false)
    decreases Rank(s.pcs[t])
  {
    hide Inv, NextStep, Apply, MaySend, Effect;
    var first, z := MakesWay(s, t);
    MaySendMeans(s, s.pcs[t], z);
    NextStepIsTaken(z, t);
    WhoMaySendsSoon(z, t);
    var step := NextStep(z.pcs[t], t);
    NextStepIsMine(z, t);
    var n := Apply(z, step).value;
    ApplyKeepsInv(z, step);
    StepEffect(z, step);
    EffectOnCount(z, t, n, t, false);
    Then(s, first, z, step);
    steps := first + [step];
    if Sends(z, t) == None {
      var rest := ItSends(n, t);
      AfterBoth(s, steps, rest);
      steps := steps + rest;
    }
  }

  /** Exactly which threads may still send once the device was found gone, or the last
      claim was dropped: the commands past the test of `device_gone`, unless `cancelled`
      stops them at the next one; and the settle calls past their two tests. */
  lemma WhoStillSends(s: State, t: nat)
    requires Inv(s) && t < |s.pcs| && (s.gone || s.cancelled) && !s.freed
    ensures MaySend(s, s.pcs[t]) <==>
      exists steps :: After(s, steps).Some? && !After(s, steps).value.freed
        && SentBy(After(s, steps).value.sent, t, false) > SentBy(s.sent, t, false)
  {
    hide Inv, Apply, MaySend, After;
    if MaySend(s, s.pcs[t]) {
      var steps := ItSends(s, t);
      assert SentBy(After(s, steps).value.sent, t, false) > SentBy(s.sent, t, false);
    } else {
      forall steps | After(s, steps).Some? && !After(s, steps).value.freed
        ensures SentBy(After(s, steps).value.sent, t, false) <= SentBy(s.sent, t, false)
      {
        StopsTheRest(s, steps, t, false);
      }
    }
  }

  lemma ClosedMeans(s: State, t: nat)
    requires Inv(s) && s.closed && !s.freed && t < |s.pcs|
    ensures s.cancelled && (MaySend(s, s.pcs[t]) <==> PastTests(s.pcs[t]))
  {
  }

  /** So exactly these may still send on the closed handle, before the slot is freed:
      the settle calls that were past their tests; and no command. */
  lemma WhoSendsOnTheClosedHandle(s: State, t: nat)
    requires Inv(s) && t < |s.pcs| && s.closed && !s.freed
    ensures PastTests(s.pcs[t]) <==>
      exists steps :: After(s, steps).Some? && !After(s, steps).value.freed
        && SentBy(After(s, steps).value.sent, t, true) > SentBy(s.sent, t, true)
  {
    hide Inv, Apply, MaySend, PastTests, After;
    ClosedMeans(s, t);
    if PastTests(s.pcs[t]) {
      var steps := ItSends(s, t);
      AllOnClosed(s, steps, t);
      assert SentBy(After(s, steps).value.sent, t, true) > SentBy(s.sent, t, true);
    } else {
      forall steps | After(s, steps).Some? && !After(s, steps).value.freed
        ensures SentBy(After(s, steps).value.sent, t, true) <= SentBy(s.sent, t, true)
      {
        StopsTheRest(s, steps, t, true);
      }
    }
  }

  // ------------------------------------------------------- runs that do happen

  /** Two steps in a row. */
  lemma AfterTwo(s: State, first: Step, n: State, second: Step, z: State)
    requires Apply(s, first) == Some(n) && Apply(n, second) == Some(z)
    ensures After(s, [first, second]) == Some(z)
  {
    hide Apply;
    Then(s, [], s, first);
    Then(s, [] + [first], n, second);
    assert [] + [first] + [second] == [first, second];
  }

  /** A command goes up to the queue for io_lock. */
  function Up(t: nat): seq<Step> {
    [Call(t, false), CheckSession(t)] + [CheckCancelled(t), CheckGone(t)]
  }

  lemma CallIs(s: State, t: nat)
    requires t < |s.pcs| && s.pcs[t].Out? && s.published
    ensures Apply(s, Call(t, false)) == Some(Go(s, t, AtSession(false)))
  {
  }

  lemma CheckSessionIs(s: State, t: nat)
    requires t < |s.pcs| && s.pcs[t].AtSession? && !s.pcs[t].css
    ensures Apply(s, CheckSession(t)) == Some(Go(s, t, AtCancelled(Command(false, None))))
  {
  }

  lemma CheckCancelledIs(s: State, t: nat)
    requires t < |s.pcs| && s.pcs[t].AtCancelled? && !s.cancelled
    ensures Apply(s, CheckCancelled(t)) == Some(Go(s, t, AtGone(s.pcs[t].c)))
  {
  }

  lemma CheckGoneIs(s: State, t: nat)
    requires t < |s.pcs| && s.pcs[t].AtGone? && !s.gone
    ensures Apply(s, CheckGone(t)) == Some(Go(s, t, Queued(s.pcs[t].c)))
  {
  }

  lemma QueuesUp(s: State, t: nat)
    requires t < |s.pcs| && s.pcs[t].Out? && s.published && !s.cancelled && !s.gone
    ensures After(s, Up(t)) == Some(Go(s, t, Queued(Command(false, None))))
  {
    hide Apply, After;
    var c := Command(false, None);
    var n := Go(s, t, AtCancelled(c));
    CallIs(s, t);
    CheckSessionIs(Go(s, t, AtSession(false)), t);
    CheckCancelledIs(n, t);
    CheckGoneIs(Go(n, t, AtGone(c)), t);
    assert Go(Go(s, t, AtSession(false)), t, AtCancelled(c)) == n;
    AfterTwo(s, Call(t, false), Go(s, t, AtSession(false)), CheckSession(t), n);
    assert Go(Go(n, t, AtGone(c)), t, Queued(c)) == Go(s, t, Queued(c));
    AfterTwo(n, CheckCancelled(t), Go(n, t, AtGone(c)), CheckGone(t), Go(s, t, Queued(c)));
    AfterBoth(s, [Call(t, false), CheckSession(t)], [CheckCancelled(t), CheckGone(t)]);
  }

  /** A settle call goes up to its queue for io_lock. */
  function SettleUp(t: nat): seq<Step> {
    [Settle(t), Test(t)] + [Test(t)]
  }

  lemma SettleIs(s: State, t: nat)
    requires t < |s.pcs| && s.pcs[t].Out? && s.published
    ensures Apply(s, Settle(t)) == Some(Go(s, t, SettleGone))
  {
  }

  lemma TestIs(s: State, t: nat)
    requires t < |s.pcs| && s.pcs[t].SettleGone? && !s.gone
    ensures Apply(s, Test(t)) == Some(Go(s, t, SettleCancelled))
  {
  }

  lemma TestAgainIs(s: State, t: nat)
    requires t < |s.pcs| && s.pcs[t].SettleCancelled? && !s.cancelled
    ensures Apply(s, Test(t)) == Some(Go(s, t, SettleQueued))
  {
  }

  lemma SettlesUp(s: State, t: nat)
    requires t < |s.pcs| && s.pcs[t].Out? && s.published && !s.cancelled && !s.gone
    ensures After(s, SettleUp(t)) == Some(Go(s, t, SettleQueued))
  {
    hide Apply;
    var n := Go(s, t, SettleCancelled);
    SettleIs(s, t);
    TestIs(Go(s, t, SettleGone), t);
    TestAgainIs(n, t);
    assert Go(Go(s, t, SettleGone), t, SettleCancelled) == n;
    AfterTwo(s, Settle(t), Go(s, t, SettleGone), Test(t), n);
    assert Go(n, t, SettleQueued) == Go(s, t, SettleQueued);
    Then(s, [Settle(t), Test(t)], n, Test(t));
  }

  lemma TakeIoIs(s: State, t: nat)
    requires t < |s.pcs| && s.pcs[t].Queued? && s.io == None
    ensures Apply(s, TakeIo(t)) == Some(Go(s, t, AtTop(s.pcs[t].c)).(io := Some(t)))
  {
  }

  lemma CheckAgainIs(s: State, t: nat)
    requires t < |s.pcs| && s.pcs[t].AtTop? && !s.cancelled
    ensures Apply(s, CheckAgain(t)) == Some(Go(s, t, Sending(s.pcs[t].c)))
  {
  }

  lemma LeaveIs(s: State, t: nat)
    requires t < |s.pcs| && s.pcs[t].Leaving?
    ensures Apply(s, Leave(t)) == Some(Go(s, t, Out).(io := None))
  {
  }

  lemma AttemptIs(s: State, t: nat, lost: bool)
    requires t < |s.pcs| && s.pcs[t].Sending?
    ensures Apply(s, Step.Attempt(t, false, lost)) ==
      Some(Go(s, t, Leaving).(gone := s.gone || lost, sent := s.sent + [OfCommand(t, s.pcs[t].c, s.closed)]))
  {
  }

  /** From the queue through one attempt and out again. */
  function Through(t: nat, lost: bool): seq<Step> {
    [TakeIo(t), CheckAgain(t)] + [Step.Attempt(t, false, lost), Leave(t)]
  }

  lemma TakesItsTurn(s: State, t: nat)
    requires t < |s.pcs| && s.pcs[t].Queued? && s.io == None && !s.cancelled
    ensures After(s, [TakeIo(t), CheckAgain(t)]) == Some(Go(s, t, Sending(s.pcs[t].c)).(io := Some(t)))
  {
    hide Apply;
    var c := s.pcs[t].c;
    var n := Go(s, t, AtTop(c)).(io := Some(t));
    TakeIoIs(s, t);
    CheckAgainIs(n, t);
    assert n.pcs[t := Sending(c)] == s.pcs[t := Sending(c)];
    AfterTwo(s, TakeIo(t), n, CheckAgain(t), Go(s, t, Sending(c)).(io := Some(t)));
  }

  lemma SendsAndLeaves(s: State, t: nat, lost: bool)
    requires t < |s.pcs| && s.pcs[t].Sending?
    ensures After(s, [Step.Attempt(t, false, lost), Leave(t)]) ==
      Some(Go(s, t, Out).(io := None, gone := s.gone || lost, sent := s.sent + [OfCommand(t, s.pcs[t].c, s.closed)]))
  {
    hide Apply;
    var n := Go(s, t, Leaving).(gone := s.gone || lost, sent := s.sent + [OfCommand(t, s.pcs[t].c, s.closed)]);
    AttemptIs(s, t, lost);
    LeaveIs(n, t);
    assert n.pcs[t := Out] == s.pcs[t := Out];
    AfterTwo(s, Step.Attempt(t, false, lost), n, Leave(t), Go(s, t, Out).(io := None, gone := n.gone, sent := n.sent));
  }

  lemma GoesThrough(s: State, t: nat, lost: bool)
    requires t < |s.pcs| && s.pcs[t].Queued? && s.io == None && !s.cancelled
    ensures After(s, Through(t, lost)) ==
      Some(Go(s, t, Out).(gone := s.gone || lost, sent := s.sent + [OfCommand(t, s.pcs[t].c, s.closed)]))
  {
    TakesItsTurn(s, t);
    var n := Go(s, t, Sending(s.pcs[t].c)).(io := Some(t));
    SendsAndLeaves(n, t, lost);
    assert n.pcs[t := Out] == s.pcs[t := Out];
    AfterBoth(s, [TakeIo(t), CheckAgain(t)], [Step.Attempt(t, false, lost), Leave(t)]);
  }

  /** The flag is tested before the queue and never again: a command may be queued
      while another finds the device gone, and send afterwards. */
  lemma GoneUnseenInTheQueue() returns (steps: seq<Step>)
    ensures After(Start(2), steps).Some?
    ensures var s := After(Start(2), steps).value;
      s.gone && !s.cancelled && !s.freed && |s.pcs| == 2 && MaySend(s, s.pcs[1])
  {
    hide After, Apply;
    var s0 := Start(2);
    QueuesUp(s0, 0);
    var s1 := Go(s0, 0, Queued(Command(false, None)));
    QueuesUp(s1, 1);
    var s2 := Go(s1, 1, Queued(Command(false, None)));
    GoesThrough(s2, 0, true);
    steps := Up(0) + Up(1) + Through(0, true);
    AfterBoth(s0, Up(0), Up(1));
    AfterBoth(s0, Up(0) + Up(1), Through(0, true));
  }

  /** But no number of steps bounds its wait: the mutex has no queue, and a command that
      waits for io_lock may be overtaken by any number of others, each of them through
      with the lock, which is free again and again. */
  lemma {:induction false} OvertakenInTheQueue(n: nat) returns (steps: seq<Step>)
    ensures Up(0) <= steps && forall i | |Up(0)| <= i < |steps| :: steps[i].t == 1
    ensures After(Start(2), steps).Some?
    ensures var z := After(Start(2), steps).value;
      && z.pcs == [Queued(Command(false, None)), Out] && z.io == None
      && z.published && !z.freed && !z.cancelled && !z.gone && SentBy(z.sent, 1, false) == n
  {
    hide After, Apply;
    if n == 0 {
      QueuesUp(Start(2), 0);
      steps := Up(0);
    } else {
      var before := OvertakenInTheQueue(n - 1);
      var z := After(Start(2), before).value;
      QueuesUp(z, 1);
      var y := Go(z, 1, Queued(Command(false, None)));
      GoesThrough(y, 1, false);
      SentByOneMore(y.sent, OfCommand(1, y.pcs[1].c, y.closed), 1, false);
      AfterBoth(Start(2), before, Up(1));
      AfterBoth(Start(2), before + Up(1), Through(1, false));
      steps := before + Up(1) + Through(1, false);
    }
  }

  /** The release of the last claim, up to where the handle is closed and unlocked. */
  function Down(t: nat): seq<Step> {
    [CallRelease(t), Release(t)] + [Raise(t), Drain(t)] + [Reset(t), Close(t)] + [Unlock(t)]
  }

  lemma RaiseIs(s: State, t: nat)
    requires t < |s.pcs| && s.pcs[t].Raising?
    ensures Apply(s, Raise(t)) == Some(Go(s, t, Draining).(cancelled := true))
  {
  }

  lemma DrainIs(s: State, t: nat)
    requires t < |s.pcs| && s.pcs[t].Draining? && s.io == None
    ensures Apply(s, Drain(t)) == Some(Go(s, t, Resetting).(io := Some(t)))
  {
  }

  lemma ResetIs(s: State, t: nat)
    requires t < |s.pcs| && s.pcs[t].Resetting?
    ensures Apply(s, Reset(t)) ==
      Some(Go(s, t, Closing).(sent := if s.gone then s.sent else s.sent + [OfTeardown(s.closed)]))
  {
  }

  lemma CloseIs(s: State, t: nat)
    requires t < |s.pcs| && s.pcs[t].Closing?
    ensures Apply(s, Close(t)) == Some(Go(s, t, Unlocking).(closed := true))
  {
  }

  lemma UnlockIs(s: State, t: nat)
    requires t < |s.pcs| && s.pcs[t].Unlocking?
    ensures Apply(s, Unlock(t)) == Some(Go(s, t, Freeing).(io := None))
  {
  }

  lemma CallReleaseIs(s: State, t: nat)
    requires t < |s.pcs| && s.pcs[t].Out? && s.published
    ensures Apply(s, CallRelease(t)) == Some(Go(s, t, Releasing))
  {
  }

  lemma ReleaseIs(s: State, t: nat)
    requires t < |s.pcs| && s.pcs[t].Releasing? && s.registry == None && s.refs == 1
    ensures Apply(s, Release(t)) == Some(Go(s, t, Raising).(refs := 0, registry := Some(t)))
  {
  }

  lemma DropsTheLastClaim(s: State, t: nat)
    requires t < |s.pcs| && s.pcs[t].Out? && s.published && s.refs == 1 && s.registry == None
    ensures After(s, [CallRelease(t), Release(t)]) == Some(Go(s, t, Raising).(refs := 0, registry := Some(t)))
  {
    hide Apply;
    var n := Go(s, t, Releasing);
    CallReleaseIs(s, t);
    ReleaseIs(n, t);
    assert n.pcs[t := Raising] == s.pcs[t := Raising];
    AfterTwo(s, CallRelease(t), n, Release(t), Go(s, t, Raising).(refs := 0, registry := Some(t)));
  }

  lemma Drains(s: State, t: nat)
    requires t < |s.pcs| && s.pcs[t].Raising? && s.io == None
    ensures After(s, [Raise(t), Drain(t)]) == Some(Go(s, t, Resetting).(cancelled := true, io := Some(t)))
  {
    hide Apply;
    var n := Go(s, t, Draining).(cancelled := true);
    RaiseIs(s, t);
    DrainIs(n, t);
    assert n.pcs[t := Resetting] == s.pcs[t := Resetting];
    AfterTwo(s, Raise(t), n, Drain(t), Go(s, t, Resetting).(cancelled := true, io := Some(t)));
  }

  lemma Closes(s: State, t: nat)
    requires t < |s.pcs| && s.pcs[t].Resetting?
    ensures After(s, [Reset(t), Close(t)]) ==
      Some(Go(s, t, Unlocking).(closed := true, sent := if s.gone then s.sent else s.sent + [OfTeardown(s.closed)]))
  {
    hide Apply;
    var n := Go(s, t, Closing).(sent := if s.gone then s.sent else s.sent + [OfTeardown(s.closed)]);
    ResetIs(s, t);
    CloseIs(n, t);
    assert n.pcs[t := Unlocking] == s.pcs[t := Unlocking];
    AfterTwo(s, Reset(t), n, Close(t), Go(s, t, Unlocking).(closed := true, sent := n.sent));
  }

  lemma GoesDown(s: State, t: nat)
    requires t < |s.pcs| && s.pcs[t].Out? && s.published && s.refs == 1 && s.registry == None && s.io == None
    ensures After(s, Down(t)) == Some(Go(s, t, Freeing).(
      refs := 0, registry := Some(t), cancelled := true, closed := true,
      sent := if s.gone then s.sent else s.sent + [OfTeardown(s.closed)]))
  {
    hide After, Apply;
    DropsTheLastClaim(s, t);
    var a := Go(s, t, Raising).(refs := 0, registry := Some(t));
    Drains(a, t);
    var b := Go(a, t, Resetting).(cancelled := true, io := Some(t));
    Closes(b, t);
    var c := Go(b, t, Unlocking).(closed := true, sent := if s.gone then s.sent else s.sent + [OfTeardown(s.closed)]);
    UnlockIs(c, t);
    assert c.pcs[t := Freeing] == s.pcs[t := Freeing];
    AfterBoth(s, [CallRelease(t), Release(t)], [Raise(t), Drain(t)]);
    AfterBoth(s, [CallRelease(t), Release(t)] + [Raise(t), Drain(t)], [Reset(t), Close(t)]);
    Then(s, [CallRelease(t), Release(t)] + [Raise(t), Drain(t)] + [Reset(t), Close(t)], c, Unlock(t));
  }

  /** A settle call that is queued for io_lock while the last claim is dropped sends on
      the closed handle, and the slot is not even free yet. */
  lemma SettleSendsOnTheClosedHandle() returns (steps: seq<Step>)
    ensures After(Start(2), steps).Some?
    ensures var s := After(Start(2), steps).value;
      !s.freed && s.cancelled && exists x :: x in s.sent && x.closed
  {
    hide After, Apply;
    var s0 := Start(2);
    SettlesUp(s0, 0);
    var s1 := Go(s0, 0, SettleQueued);
    GoesDown(s1, 1);
    AfterBoth(s0, SettleUp(0), Down(1));
    steps := SettleUp(0) + Down(1);
    var s2 := After(s0, steps).value;
    TurnIs(s2, 0);
    Then(s0, steps, s2, TakeTurn(0));
    var s3 := Go(s2, 0, SettleSending).(io := Some(0));
    PollIs(s3, 0);
    Then(s0, steps + [TakeTurn(0)], s3, Poll(0, true));
    steps := steps + [TakeTurn(0)] + [Poll(0, true)];
    assert OfSettle(0, true) in After(s0, steps).value.sent;
  }

  lemma TurnIs(s: State, t: nat)
    requires t < |s.pcs| && s.pcs[t].SettleQueued? && s.io == None
    ensures Apply(s, TakeTurn(t)) == Some(Go(s, t, SettleSending).(io := Some(t)))
  {
  }

  lemma PollIs(s: State, t: nat)
    requires t < |s.pcs| && s.pcs[t].SettleSending?
    ensures Apply(s, Poll(t, true)) == Some(Go(s, t, SettleLeaving(true)).(sent := s.sent + [OfSettle(t, s.closed)]))
  {
  }

  lemma FreeIs(s: State, t: nat)
    requires t < |s.pcs| && s.pcs[t].Freeing?
    ensures Apply(s, Step.Free(t)) == Some(Go(s, t, Out).(registry := None, published := false, freed := true,
                                                          cancelled := false, gone := false, open := false,
                                                          owner := None))
  {
  }

  /** Why the promise ends with the freeing of the slot: zeroing it lowers
      `cancelled`, and a command still queued then sends on the closed handle. */
  lemma FreedSlotIsTheCallersBusiness() returns (steps: seq<Step>)
    ensures After(Start(2), steps).Some?
    ensures var s := After(Start(2), steps).value;
      s.freed && exists x :: x in s.sent && x.OfCommand? && x.closed
  {
    hide After, Apply;
    var s0 := Start(2);
    QueuesUp(s0, 0);
    var s1 := Go(s0, 0, Queued(Command(false, None)));
    GoesDown(s1, 1);
    AfterBoth(s0, Up(0), Down(1));
    steps := Up(0) + Down(1);
    var s2 := After(s0, steps).value;
    FreeIs(s2, 1);
    Then(s0, steps, s2, Step.Free(1));
    steps := steps + [Step.Free(1)];
    var s3 := After(s0, steps).value;
    GoesThrough(s3, 0, false);
    AfterBoth(s0, steps, Through(0, false));
    steps := steps + Through(0, false);
    assert OfCommand(0, s3.pcs[0].c, true) in After(s0, steps).value.sent;
  }
}
