/** One published entry and any number of threads: commands, a drive waited for on
    behalf of a token, CSS sessions, claims, and the teardown that the last release
    starts. A run is any sequence of steps; a step is what a thread does between two
    points where another may come in. */
module Threads {
  import opened Entries
  import opened Wrappers

  /** The cookie a session belongs to; begin() and end() may be passed NULL. */
  type Owner = nat

  /** A command under way: does it change CSS state, and under whose session was
      it when that was checked? */
  datatype Command = Command(css: bool, under: Option<Owner>)

  /** Where a thread is. */
  datatype Pc =
    | Out
    // laser_scsi_cdb(), entry found
    | AtSession(css: bool)
    | AtCancelled(c: Command)
    | AtGone(c: Command)
    | Queued(c: Command)
    | AtTop(c: Command)
    | Sending(c: Command)
    | Leaving
    // laser_token_settle(), entry found: its two tests, its TEST UNIT READY under
    // io_lock, and the wait of a drive that was not ready, which takes io_lock again
    | SettleGone
    | SettleCancelled
    | SettleQueued
    | SettleSending
    | SettleLeaving(notReady: bool)
    | WaitQueued
    | WaitSending
    | WaitLeaving
    // laser_css_session_begin(), waiting for the session of another
    | Waiting(cookie: Owner)
    // laser_acquire() and laser_release(), waiting for g_registry_lock
    | Acquiring
    | Releasing
    // laser_release() of the last claim
    | Raising
    | Draining
    | Resetting
    | Closing
    | Unlocking
    | Freeing

  datatype SessionEvent = Began(owner: Owner) | Ended(owner: Owner)

  /** One attempt at a command, one command of a wait, or the reset of a teardown; and
      was the handle closed already? */
  datatype Transfer =
    | OfCommand(thread: nat, c: Command, closed: bool)
    | OfSettle(thread: nat, closed: bool)
    | OfTeardown(closed: bool)

  /** pcs, io and registry: where each thread is, and who holds the two locks.
      freed: the slot was zeroed; what a thread does with it from then on is its
      caller's mistake. sessions and sent: all that happened so far. */
  datatype State = State(
    pcs: seq<Pc>,
    io: Option<nat>,
    registry: Option<nat>,
    published: bool,
    refs: nat,
    cancelled: bool,
    gone: bool,
    closed: bool,
    freed: bool,
    open: bool,
    owner: Option<Owner>,
    sessions: seq<SessionEvent>,
    sent: seq<Transfer>)

  datatype Step =
    | Call(t: nat, css: bool)
    | CheckSession(t: nat)
    | CheckCancelled(t: nat)
    | CheckGone(t: nat)
    | TakeIo(t: nat)
    | CheckAgain(t: nat)
    | Attempt(t: nat, again: bool, lost: bool)
    | Leave(t: nat)
    | Settle(t: nat)
    | Test(t: nat)
    | TakeTurn(t: nat)
    | Poll(t: nat, more: bool)
    | Yield(t: nat)
    | Begin(t: nat, cookie: Option<Owner>)
    | Wake(t: nat, timedOut: bool)
    | End(t: nat, cookie: Option<Owner>)
    | CallAcquire(t: nat)
    | CallRelease(t: nat)
    | Acquire(t: nat)
    | Release(t: nat)
    | Raise(t: nat)
    | Drain(t: nat)
    | Reset(t: nat)
    | Close(t: nat)
    | Unlock(t: nat)
    | Free(t: nat)

  function Start(threads: nat): State {
    State(seq(threads, _ => Out), None, None, true, 1, false, false, false, false, false, None, [], [])
  }

  function Go(s: State, t: nat, pc: Pc): State
    requires t < |s.pcs|
  {
    s.(pcs := s.pcs[t := pc])
  }

  // ------------------------------------------------------------ CSS sessions

  /** What a begin() comes to while it holds css_mtx: no answer means it waits. */
  datatype Begun = Begun(s: State, answer: Option<LaserStatus>)

  function TryBegin(s: State, t: nat, cookie: Option<Owner>): Begun
    requires t < |s.pcs|
  {
    if cookie == None then Begun(Go(s, t, Out), Some(Invalid))
    else if !s.open then
      Begun(Go(s, t, Out).(open := true, owner := cookie, sessions := s.sessions + [Began(cookie.value)]), Some(OK))
    else if s.owner == cookie then Begun(Go(s, t, Out), Some(Invalid))
    else Begun(Go(s, t, Waiting(cookie.value)), None)
  }

  /** A waiting begin() comes back from its wait: signalled, for no reason at all,
      or because the time was up, which it takes as its answer unseen. */
  function WakeUp(s: State, t: nat, timedOut: bool): Begun
    requires t < |s.pcs| && s.pcs[t].Waiting?
  {
    if timedOut then Begun(Go(s, t, Out), Some(IO)) else TryBegin(s, t, Some(s.pcs[t].cookie))
  }

  function EndSession(s: State, cookie: Option<Owner>): State {
    if !s.open || s.owner != cookie || cookie == None then s
    else s.(open := false, owner := None, sessions := s.sessions + [Ended(cookie.value)])
  }

  // ------------------------------------------------------------------- steps

  function Attempted(s: State, t: nat, again: bool, lost: bool): Option<State>
    requires t < |s.pcs|
  {
    match s.pcs[t]
    case Sending(c) =>
      Some(Go(s, t, if again && !lost then AtTop(c) else Leaving).(
        gone := s.gone || lost, sent := s.sent + [OfCommand(t, c, s.closed)]))
    case _ => None
  }

  /** A step of laser_scsi_cdb(). */
  function CommandStep(s: State, step: Step): Option<State>
    requires step.t < |s.pcs|
  {
    var pc := s.pcs[step.t];
    match step
    case Call(t, css) =>
      if pc.Out? && s.published then Some(Go(s, t, AtSession(css))) else None
    case CheckSession(t) =>
      if !pc.AtSession? then None
      else if pc.css && !s.open then Some(Go(s, t, Out))
      else Some(Go(s, t, AtCancelled(Command(pc.css, if pc.css then s.owner else None))))
    case CheckCancelled(t) =>
      if !pc.AtCancelled? then None else Some(Go(s, t, if s.cancelled then Out else AtGone(pc.c)))
    case CheckGone(t) =>
      if !pc.AtGone? then None else Some(Go(s, t, if s.gone then Out else Queued(pc.c)))
    case TakeIo(t) =>
      if pc.Queued? && s.io == None then Some(Go(s, t, AtTop(pc.c)).(io := Some(t))) else None
    case CheckAgain(t) =>
      if !pc.AtTop? then None else Some(Go(s, t, if s.cancelled then Leaving else Sending(pc.c)))
    case Attempt(t, again, lost) => Attempted(s, t, again, lost)
    case Leave(t) =>
      if pc.Leaving? then Some(Go(s, t, Out).(io := None)) else None
    case _ => None
  }

  // What laser_token_settle() does: its two tests, its turns at io_lock, the commands
  // it sends there, and letting go. Neither flag is tested again once it is past them.

  function Tested(s: State, t: nat): Option<State>
    requires t < |s.pcs|
  {
    match s.pcs[t]
    case SettleGone => Some(Go(s, t, if s.gone then Out else SettleCancelled))
    case SettleCancelled => Some(Go(s, t, if s.cancelled then Out else SettleQueued))
    case _ => None
  }

  function TakenTurn(s: State, t: nat): Option<State>
    requires t < |s.pcs|
  {
    if s.io.Some? then None
    else
      match s.pcs[t]
      case SettleQueued => Some(Go(s, t, SettleSending).(io := Some(t)))
      case WaitQueued => Some(Go(s, t, WaitSending).(io := Some(t)))
      case _ => None
  }

  function Polled(s: State, t: nat, more: bool): Option<State>
    requires t < |s.pcs|
  {
    var sent := s.sent + [OfSettle(t, s.closed)];
    match s.pcs[t]
    case SettleSending => Some(Go(s, t, SettleLeaving(more)).(sent := sent))
    case WaitSending => Some(Go(s, t, if more then WaitSending else WaitLeaving).(sent := sent))
    case _ => None
  }

  function Yielded(s: State, t: nat): Option<State>
    requires t < |s.pcs|
  {
    match s.pcs[t]
    case SettleLeaving(notReady) => Some(Go(s, t, if notReady then WaitQueued else Out).(io := None))
    case WaitLeaving => Some(Go(s, t, Out).(io := None))
    case _ => None
  }

  /** A step of laser_token_settle(). */
  function SettleStep(s: State, step: Step): Option<State>
    requires step.t < |s.pcs|
  {
    match step
    case Settle(t) => if s.pcs[t].Out? && s.published then Some(Go(s, t, SettleGone)) else None
    case Test(t) => Tested(s, t)
    case TakeTurn(t) => TakenTurn(s, t)
    case Poll(t, more) => Polled(s, t, more)
    case Yield(t) => Yielded(s, t)
    case _ => None
  }

  /** A step of a session call. */
  function SessionStep(s: State, step: Step): Option<State>
    requires step.t < |s.pcs|
  {
    var pc := s.pcs[step.t];
    match step
    case Begin(t, cookie) => if pc.Out? && s.published then Some(TryBegin(s, t, cookie).s) else None
    case Wake(t, timedOut) => if pc.Waiting? then Some(WakeUp(s, t, timedOut).s) else None
    case End(t, cookie) => if pc.Out? && s.published then Some(EndSession(s, cookie)) else None
    case _ => None
  }

  function Acquired(s: State, t: nat): Option<State>
    requires t < |s.pcs|
  {
    if !s.pcs[t].Acquiring? || s.registry.Some? then None else Some(Go(s, t, Out).(refs := s.refs + 1))
  }

  function Released(s: State, t: nat): Option<State>
    requires t < |s.pcs|
  {
    if !s.pcs[t].Releasing? || s.registry.Some? || s.refs == 0 then None
    else if s.refs > 1 then Some(Go(s, t, Out).(refs := s.refs - 1))
    else Some(Go(s, t, Raising).(refs := 0, registry := Some(t)))
  }

  /** A claim, or a release up to where the last one starts the teardown. */
  function ClaimStep(s: State, step: Step): Option<State>
    requires step.t < |s.pcs|
  {
    match step
    case CallAcquire(t) => if s.pcs[t].Out? && s.published then Some(Go(s, t, Acquiring)) else None
    case CallRelease(t) => if s.pcs[t].Out? && s.published then Some(Go(s, t, Releasing)) else None
    case Acquire(t) => Acquired(s, t)
    case Release(t) => Released(s, t)
    case _ => None
  }

  /** A step of the release of the last claim. */
  function TeardownStep(s: State, step: Step): Option<State>
    requires step.t < |s.pcs|
  {
    var pc := s.pcs[step.t];
    match step
    case Raise(t) => if pc.Raising? then Some(Go(s, t, Draining).(cancelled := true)) else None
    case Drain(t) =>
      if pc.Draining? && s.io == None then Some(Go(s, t, Resetting).(io := Some(t))) else None
    case Reset(t) =>
      if pc.Resetting? then
        Some(Go(s, t, Closing).(sent := if s.gone then s.sent else s.sent + [OfTeardown(s.closed)]))
      else None
    case Close(t) => if pc.Closing? then Some(Go(s, t, Unlocking).(closed := true)) else None
    case Unlock(t) => if pc.Unlocking? then Some(Go(s, t, Freeing).(io := None)) else None
    case Free(t) =>
      if pc.Freeing? then
        Some(Go(s, t, Out).(registry := None, published := false, freed := true,
                            cancelled := false, gone := false, open := false, owner := None))
      else None
    case _ => None
  }

  /** None: this step cannot be taken now. */
  function Apply(s: State, step: Step): Option<State> {
    if step.t >= |s.pcs| then None
    else
      match step
      case Settle(_) => SettleStep(s, step)
      case Test(_) => SettleStep(s, step)
      case TakeTurn(_) => SettleStep(s, step)
      case Poll(_, _) => SettleStep(s, step)
      case Yield(_) => SettleStep(s, step)
      case Begin(_, _) => SessionStep(s, step)
      case Wake(_, _) => SessionStep(s, step)
      case End(_, _) => SessionStep(s, step)
      case CallAcquire(_) => ClaimStep(s, step)
      case CallRelease(_) => ClaimStep(s, step)
      case Acquire(_) => ClaimStep(s, step)
      case Release(_) => ClaimStep(s, step)
      case Raise(_) => TeardownStep(s, step)
      case Drain(_) => TeardownStep(s, step)
      case Reset(_) => TeardownStep(s, step)
      case Close(_) => TeardownStep(s, step)
      case Unlock(_) => TeardownStep(s, step)
      case Free(_) => TeardownStep(s, step)
      case _ => CommandStep(s, step)
  }

  function After(s: State, steps: seq<Step>): Option<State>
    decreases |steps|
  {
    if steps == [] then Some(s)
    else
      match Apply(s, steps[0])
      case None => None
      case Some(n) => After(n, steps[1..])
  }

  // -------------------------------------------------------------- invariant

  predicate HoldsIo(pc: Pc) {
    || pc.AtTop? || pc.Sending? || pc.Leaving?
    || pc.SettleSending? || pc.SettleLeaving? || pc.WaitSending? || pc.WaitLeaving?
    || pc.Resetting? || pc.Closing? || pc.Unlocking?
  }

  predicate HoldsRegistry(pc: Pc) {
    pc.Raising? || pc.Draining? || pc.Resetting? || pc.Closing? || pc.Unlocking? || pc.Freeing?
  }

  predicate Carried(pc: Pc) {
    pc.AtCancelled? || pc.AtGone? || pc.Queued? || pc.AtTop? || pc.Sending?
  }

  /** A command past the session check was checked against an open session if it
      has to be. */
  predicate Covered(pc: Pc) {
    Carried(pc) && pc.c.css ==> pc.c.under.Some?
  }

  /** Every session ends, by its own owner, before the next begins. */
  predicate Bracketed(log: seq<SessionEvent>) {
    log == [] ||
    (var n := |log| - 1;
     Bracketed(log[..n]) && if n % 2 == 0 then log[n].Began? else log[n] == Ended(log[n - 1].owner))
  }

  predicate Sessions(s: State) {
    && Bracketed(s.sessions)
    && (s.open <==> s.owner.Some?) && (s.open <==> |s.sessions| % 2 == 1)
    && (s.open ==> s.owner == Some(s.sessions[|s.sessions| - 1].owner))
  }

  predicate Locks(pcs: seq<Pc>, io: Option<nat>, registry: Option<nat>) {
    && (forall t | 0 <= t < |pcs| :: HoldsIo(pcs[t]) <==> io == Some(t))
    && (forall t | 0 <= t < |pcs| :: HoldsRegistry(pcs[t]) <==> registry == Some(t))
    && (io.Some? ==> io.value < |pcs|)
    && (registry.Some? ==> registry.value < |pcs|)
  }

  predicate Lifecycle(s: State) {
    && s.published
    && (s.registry.Some? ==> s.registry.value < |s.pcs|)
    && (s.refs == 0 <==> s.registry.Some?)
    && (s.cancelled <==> s.registry.Some? && !s.pcs[s.registry.value].Raising?)
    && (s.closed <==>
          s.registry.Some? && (s.pcs[s.registry.value].Unlocking? || s.pcs[s.registry.value].Freeing?))
    && (s.closed ==> forall t | 0 <= t < |s.pcs| :: !s.pcs[t].Sending?)
  }

  predicate Clean(s: State) {
    && (forall t | 0 <= t < |s.pcs| :: Covered(s.pcs[t]))
    && (forall x | x in s.sent :: (x.closed ==> x.OfSettle?) && (x.OfCommand? && x.c.css ==> x.c.under.Some?))
  }

  predicate Inv(s: State) {
    !s.freed ==> Locks(s.pcs, s.io, s.registry) && Lifecycle(s) && Clean(s) && Sessions(s)
  }

  function Holder(was: Option<nat>, t: nat, held: bool, holds: bool): Option<nat> {
    if holds then Some(t) else if held then None else was
  }

  /** A thread that moves, and takes a lock only when it is free. */
  lemma MoveKeepsLocks(s: State, t: nat, pc: Pc, io: Option<nat>, registry: Option<nat>)
    requires Locks(s.pcs, s.io, s.registry) && t < |s.pcs|
    requires io == Holder(s.io, t, HoldsIo(s.pcs[t]), HoldsIo(pc))
    requires registry == Holder(s.registry, t, HoldsRegistry(s.pcs[t]), HoldsRegistry(pc))
    requires HoldsIo(pc) ==> s.io in {None, Some(t)}
    requires HoldsRegistry(pc) ==> s.registry in {None, Some(t)}
    ensures Locks(s.pcs[t := pc], io, registry)
  {
  }

  /** Nowhere near a teardown. */
  predicate Commands(pc: Pc) {
    pc.Out? || pc.AtSession? || Carried(pc) || pc.Leaving?
  }

  /** A thread on its way through a command: nothing but its place, io_lock, the log
      and `gone` change, and it comes to send only while not cancelled. */
  predicate MovesOn(s: State, z: State, t: nat)
    requires t < |s.pcs|
  {
    && t < |z.pcs| && Commands(s.pcs[t]) && Commands(z.pcs[t])
    && z == s.(pcs := s.pcs[t := z.pcs[t]], io := z.io, gone := z.gone, sent := z.sent)
    && (if HoldsIo(s.pcs[t]) == HoldsIo(z.pcs[t]) then z.io == s.io
        else if HoldsIo(z.pcs[t]) then s.io == None && z.io == Some(t)
        else z.io == None)
    && (z.pcs[t].Sending? ==> !s.cancelled)
    && (z.sent == s.sent || (s.pcs[t].Sending? && z.sent == s.sent + [OfCommand(t, s.pcs[t].c, s.closed)]))
  }

  lemma AttemptedMovesOn(s: State, t: nat, again: bool, lost: bool)
    requires t < |s.pcs|
    ensures Attempted(s, t, again, lost).Some? ==> MovesOn(s, Attempted(s, t, again, lost).value, t)
  {
  }

  lemma CommandStepMovesOn(s: State, step: Step)
    requires step.t < |s.pcs| && CommandStep(s, step).Some?
    ensures MovesOn(s, CommandStep(s, step).value, step.t)
  {
    hide Attempted, MovesOn;
    var t, z := step.t, CommandStep(s, step).value;
    match step
    case Call(_, _) => OnlyMovesOn(s, t, z.pcs[t]);
    case CheckSession(_) => OnlyMovesOn(s, t, z.pcs[t]);
    case CheckCancelled(_) => OnlyMovesOn(s, t, z.pcs[t]);
    case CheckGone(_) => OnlyMovesOn(s, t, z.pcs[t]);
    case CheckAgain(_) => OnlyMovesOn(s, t, z.pcs[t]);
    case Attempt(_, again, lost) => AttemptedMovesOn(s, t, again, lost);
    case TakeIo(_) => LockMovesOn(s, t, AtTop(s.pcs[t].c), Some(t));
    case Leave(_) => LockMovesOn(s, t, Out, None);
    case _ =>
  }

  lemma OnlyMovesOn(s: State, t: nat, pc: Pc)
    requires t < |s.pcs| && Commands(s.pcs[t]) && Commands(pc) && HoldsIo(s.pcs[t]) == HoldsIo(pc)
    requires pc.Sending? ==> !s.cancelled
    ensures MovesOn(s, Go(s, t, pc), t)
  {
  }

  lemma LockMovesOn(s: State, t: nat, pc: Pc, io: Option<nat>)
    requires t < |s.pcs| && Commands(s.pcs[t]) && Commands(pc) && !pc.Sending?
    requires if io == None then HoldsIo(s.pcs[t]) && !HoldsIo(pc)
             else io == Some(t) && s.io == None && !HoldsIo(s.pcs[t]) && HoldsIo(pc)
    ensures MovesOn(s, Go(s, t, pc).(io := io), t)
  {
  }

  /** A command that needs a session carries the owner it was checked under. */
  lemma CommandStepCovers(s: State, step: Step)
    requires step.t < |s.pcs| && CommandStep(s, step).Some?
    requires Covered(s.pcs[step.t]) && (s.open ==> s.owner.Some?)
    ensures step.t < |CommandStep(s, step).value.pcs| && Covered(CommandStep(s, step).value.pcs[step.t])
  {
    hide Covered;
    var p, q := s.pcs[step.t], CommandStep(s, step).value.pcs[step.t];
    if p.AtSession? && q.AtCancelled? {
      assert q.c == Command(p.css, if p.css then s.owner else None) && (p.css ==> s.open);
      CheckedIsCovered(q, s.open, s.owner);
    } else {
      assert !Carried(q) || (Carried(p) && q.c == p.c);
      StaysCovered(p, q);
    }
  }

  lemma CheckedIsCovered(q: Pc, open: bool, owner: Option<Owner>)
    requires q.AtCancelled? && (q.c.css ==> open && q.c.under == owner) && (open ==> owner.Some?)
    ensures Covered(q)
  {
  }

  lemma StaysCovered(p: Pc, q: Pc)
    requires Covered(p) && (!Carried(q) || (Carried(p) && q.c == p.c))
    ensures Covered(q)
  {
  }

  lemma MovesOnKeepsInv(s: State, z: State, t: nat)
    requires Inv(s) && t < |s.pcs| && MovesOn(s, z, t)
    requires !s.freed ==> Covered(z.pcs[t])
    ensures Inv(z)
  {
    if !s.freed { MoveKeepsLocks(s, t, z.pcs[t], z.io, z.registry); }
  }

  lemma CommandStepKeepsInv(s: State, step: Step)
    requires Inv(s) && step.t < |s.pcs| && CommandStep(s, step).Some?
    ensures Inv(CommandStep(s, step).value) && (s.freed ==> CommandStep(s, step).value.freed)
  {
    CommandStepMovesOn(s, step);
    if !s.freed { CommandStepCovers(s, step); }
    MovesOnKeepsInv(s, CommandStep(s, step).value, step.t);
  }

  /** In a settle call, or about to be. */
  predicate Settles(pc: Pc) {
    || pc.Out? || pc.SettleGone? || pc.SettleCancelled? || pc.SettleQueued? || pc.SettleSending?
    || pc.SettleLeaving? || pc.WaitQueued? || pc.WaitSending? || pc.WaitLeaving?
  }

  /** A thread on its way through a settle call: nothing but its place, io_lock and the
      log change. */
  predicate SettlesOn(s: State, z: State, t: nat)
    requires t < |s.pcs|
  {
    && t < |z.pcs| && Settles(s.pcs[t]) && Settles(z.pcs[t])
    && z == s.(pcs := s.pcs[t := z.pcs[t]], io := z.io, sent := z.sent)
    && (if HoldsIo(s.pcs[t]) == HoldsIo(z.pcs[t]) then z.io == s.io
        else if HoldsIo(z.pcs[t]) then s.io == None && z.io == Some(t)
        else z.io == None)
    && (z.sent == s.sent
        || ((s.pcs[t].SettleSending? || s.pcs[t].WaitSending?) && z.sent == s.sent + [OfSettle(t, s.closed)]))
  }

  lemma TestedSettlesOn(s: State, t: nat)
    requires t < |s.pcs|
    ensures Tested(s, t).Some? ==> SettlesOn(s, Tested(s, t).value, t)
  {
  }

  lemma TakenTurnSettlesOn(s: State, t: nat)
    requires t < |s.pcs|
    ensures TakenTurn(s, t).Some? ==> SettlesOn(s, TakenTurn(s, t).value, t)
  {
    hide SettlesOn;
    if s.io == None {
      match s.pcs[t]
      case SettleQueued => TakesIo(s, t, SettleSending);
      case WaitQueued => TakesIo(s, t, WaitSending);
      case _ =>
    }
  }

  lemma TakesIo(s: State, t: nat, pc: Pc)
    requires t < |s.pcs| && Settles(s.pcs[t]) && !HoldsIo(s.pcs[t]) && Settles(pc) && HoldsIo(pc) && s.io == None
    ensures SettlesOn(s, Go(s, t, pc).(io := Some(t)), t)
  {
  }

  lemma PolledSettlesOn(s: State, t: nat, more: bool)
    requires t < |s.pcs|
    ensures Polled(s, t, more).Some? ==> SettlesOn(s, Polled(s, t, more).value, t)
  {
    hide SettlesOn;
    match s.pcs[t]
    case SettleSending => PollsOn(s, t, SettleLeaving(more));
    case WaitSending => PollsOn(s, t, if more then WaitSending else WaitLeaving);
    case _ =>
  }

  lemma PollsOn(s: State, t: nat, pc: Pc)
    requires t < |s.pcs| && (s.pcs[t].SettleSending? || s.pcs[t].WaitSending?) && Settles(pc) && HoldsIo(pc)
    ensures SettlesOn(s, Go(s, t, pc).(sent := s.sent + [OfSettle(t, s.closed)]), t)
  {
  }

  lemma YieldedSettlesOn(s: State, t: nat)
    requires t < |s.pcs|
    ensures Yielded(s, t).Some? ==> SettlesOn(s, Yielded(s, t).value, t)
  {
    hide SettlesOn;
    match s.pcs[t]
    case SettleLeaving(notReady) => YieldsIo(s, t, if notReady then WaitQueued else Out);
    case WaitLeaving => YieldsIo(s, t, Out);
    case _ =>
  }

  lemma YieldsIo(s: State, t: nat, pc: Pc)
    requires t < |s.pcs| && Settles(s.pcs[t]) && HoldsIo(s.pcs[t]) && Settles(pc) && !HoldsIo(pc)
    ensures SettlesOn(s, Go(s, t, pc).(io := None), t)
  {
  }

  lemma SettleSettlesOn(s: State, t: nat)
    requires t < |s.pcs| && s.pcs[t].Out?
    ensures SettlesOn(s, Go(s, t, SettleGone), t)
  {
  }

  lemma SettleStepSettlesOn(s: State, step: Step)
    requires step.t < |s.pcs| && SettleStep(s, step).Some?
    ensures SettlesOn(s, SettleStep(s, step).value, step.t)
  {
    hide SettlesOn, Tested, TakenTurn, Polled, Yielded;
    match step
    case Settle(t) => SettleSettlesOn(s, t);
    case Test(t) => TestedSettlesOn(s, t);
    case TakeTurn(t) => TakenTurnSettlesOn(s, t);
    case Poll(t, more) => PolledSettlesOn(s, t, more);
    case Yield(t) => YieldedSettlesOn(s, t);
    case _ =>
  }

  lemma SettlesOnKeepsInv(s: State, z: State, t: nat)
    requires Inv(s) && t < |s.pcs| && SettlesOn(s, z, t)
    ensures Inv(z)
  {
    if !s.freed { MoveKeepsLocks(s, t, z.pcs[t], z.io, z.registry); }
  }

  lemma SettleStepKeepsInv(s: State, step: Step)
    requires Inv(s) && step.t < |s.pcs| && SettleStep(s, step).Some?
    ensures Inv(SettleStep(s, step).value) && (s.freed ==> SettleStep(s, step).value.freed)
  {
    SettleStepSettlesOn(s, step);
    SettlesOnKeepsInv(s, SettleStep(s, step).value, step.t);
  }

  lemma OneMoreSessionEvent(log: seq<SessionEvent>, e: SessionEvent)
    requires Bracketed(log)
    requires if |log| % 2 == 0 then e.Began? else e == Ended(log[|log| - 1].owner)
    ensures Bracketed(log + [e])
  {
    assert (log + [e])[..|log|] == log;
  }

  lemma BeginKeepsSessions(s: State, t: nat, cookie: Option<Owner>)
    requires t < |s.pcs| && Sessions(s)
    ensures Sessions(TryBegin(s, t, cookie).s)
  {
    hide Bracketed;
    if cookie.Some? && !s.open { OneMoreSessionEvent(s.sessions, Began(cookie.value)); }
  }

  lemma EndKeepsSessions(s: State, cookie: Option<Owner>)
    requires Sessions(s)
    ensures Sessions(EndSession(s, cookie))
  {
    hide Bracketed;
    if EndSession(s, cookie) != s { OneMoreSessionEvent(s.sessions, Ended(cookie.value)); }
  }

  lemma SessionStepKeepsSessions(s: State, step: Step)
    requires step.t < |s.pcs| && Sessions(s) && SessionStep(s, step).Some?
    ensures Sessions(SessionStep(s, step).value)
  {
    match step
    case Begin(t, cookie) => BeginKeepsSessions(s, t, cookie);
    case Wake(t, timedOut) => BeginKeepsSessions(s, t, Some(s.pcs[t].cookie));
    case End(t, cookie) => EndKeepsSessions(s, cookie);
    case _ =>
  }

  /** A thread that holds no lock and carries no command, and the session. */
  predicate Apart(pc: Pc) {
    pc.Out? || pc.Waiting? || pc.Acquiring? || pc.Releasing?
  }

  predicate MovesApart(s: State, z: State, t: nat)
    requires t < |s.pcs|
  {
    && t < |z.pcs| && Apart(s.pcs[t]) && Apart(z.pcs[t])
    && z == s.(pcs := s.pcs[t := z.pcs[t]], open := z.open, owner := z.owner, sessions := z.sessions)
  }

  lemma TryBeginMovesApart(s: State, t: nat, cookie: Option<Owner>)
    requires t < |s.pcs| && Apart(s.pcs[t])
    ensures MovesApart(s, TryBegin(s, t, cookie).s, t)
  {
  }

  lemma EndMovesApart(s: State, t: nat, cookie: Option<Owner>)
    requires t < |s.pcs| && Apart(s.pcs[t])
    ensures MovesApart(s, EndSession(s, cookie), t)
  {
    assert s.pcs == s.pcs[t := s.pcs[t]];
  }

  lemma SessionStepMovesApart(s: State, step: Step)
    requires step.t < |s.pcs| && SessionStep(s, step).Some?
    ensures MovesApart(s, SessionStep(s, step).value, step.t)
  {
    match step
    case Begin(t, cookie) => TryBeginMovesApart(s, t, cookie);
    case Wake(t, timedOut) => TryBeginMovesApart(s, t, Some(s.pcs[t].cookie));
    case End(t, cookie) => EndMovesApart(s, t, cookie);
    case _ =>
  }

  lemma MovesApartKeepsInv(s: State, z: State, t: nat)
    requires Inv(s) && t < |s.pcs| && MovesApart(s, z, t) && Sessions(z)
    ensures Inv(z)
  {
    if !s.freed { MoveKeepsLocks(s, t, z.pcs[t], z.io, z.registry); }
  }

  lemma SessionStepKeepsInv(s: State, step: Step)
    requires Inv(s) && step.t < |s.pcs| && SessionStep(s, step).Some?
    ensures Inv(SessionStep(s, step).value) && (s.freed ==> SessionStep(s, step).value.freed)
  {
    SessionStepMovesApart(s, step);
    if !s.freed {
      SessionStepKeepsSessions(s, step);
      MovesApartKeepsInv(s, SessionStep(s, step).value, step.t);
    }
  }

  lemma AcquiredKeepsInv(s: State, t: nat)
    requires Inv(s) && t < |s.pcs| && Acquired(s, t).Some?
    ensures Inv(Acquired(s, t).value) && (s.freed ==> Acquired(s, t).value.freed)
  {
    if !s.freed { MoveKeepsLocks(s, t, Out, s.io, s.registry); }
  }

  lemma ReleasedKeepsInv(s: State, t: nat)
    requires Inv(s) && t < |s.pcs| && Released(s, t).Some?
    ensures Inv(Released(s, t).value) && (s.freed ==> Released(s, t).value.freed)
  {
    if !s.freed {
      var z := Released(s, t).value;
      MoveKeepsLocks(s, t, z.pcs[t], z.io, z.registry);
    }
  }

  lemma ClaimStepKeepsInv(s: State, step: Step)
    requires Inv(s) && step.t < |s.pcs| && ClaimStep(s, step).Some?
    ensures Inv(ClaimStep(s, step).value) && (s.freed ==> ClaimStep(s, step).value.freed)
  {
    hide Inv, Acquired, Released;
    match step
    case CallAcquire(t) => WaitsForRegistry(s, t, Acquiring);
    case CallRelease(t) => WaitsForRegistry(s, t, Releasing);
    case Acquire(t) => AcquiredKeepsInv(s, t);
    case Release(t) => ReleasedKeepsInv(s, t);
    case _ =>
  }

  lemma WaitsForRegistry(s: State, t: nat, pc: Pc)
    requires Inv(s) && t < |s.pcs| && s.pcs[t].Out? && (pc.Acquiring? || pc.Releasing?)
    ensures Inv(Go(s, t, pc))
  {
    if !s.freed { MovesApartKeepsInv(s, Go(s, t, pc), t); }
  }

  lemma TeardownStepKeepsInv(s: State, step: Step)
    requires Inv(s) && step.t < |s.pcs| && TeardownStep(s, step).Some?
    ensures Inv(TeardownStep(s, step).value) && (s.freed ==> TeardownStep(s, step).value.freed)
  {
    hide Bracketed;
    if !s.freed && !step.Free? {
      var z := TeardownStep(s, step).value;
      assert z.pcs == s.pcs[step.t := z.pcs[step.t]];
      MoveKeepsLocks(s, step.t, z.pcs[step.t], z.io, z.registry);
    }
  }

  lemma ApplyKeepsInv(s: State, step: Step)
    requires Inv(s) && Apply(s, step).Some?
    ensures Inv(Apply(s, step).value)
    ensures s.freed ==> Apply(s, step).value.freed
  {
    hide Inv, CommandStep, SettleStep, SessionStep, ClaimStep, TeardownStep;
    if CommandStep(s, step).Some? { CommandStepKeepsInv(s, step); }
    if SettleStep(s, step).Some? { SettleStepKeepsInv(s, step); }
    if SessionStep(s, step).Some? { SessionStepKeepsInv(s, step); }
    if ClaimStep(s, step).Some? { ClaimStepKeepsInv(s, step); }
    if TeardownStep(s, step).Some? { TeardownStepKeepsInv(s, step); }
  }

  lemma {:induction false} RunKeepsInv(s: State, steps: seq<Step>)
    requires Inv(s) && After(s, steps).Some?
    ensures Inv(After(s, steps).value)
    ensures s.freed ==> After(s, steps).value.freed
    decreases |steps|
  {
    if steps != [] {
      ApplyKeepsInv(s, steps[0]);
      RunKeepsInv(Apply(s, steps[0]).value, steps[1..]);
    }
  }

  // ---------------------------------------------------------------- theorems

  /** In every interleaving, up to the freeing of the slot: no transfer on a closed
      handle but those of a drive waited for; no command that changes CSS state sent
      unless a session was open when it was checked; and the session flag up exactly
      while somebody owns it. */
  lemma EveryReachableState(threads: nat, steps: seq<Step>)
    requires After(Start(threads), steps).Some? && !After(Start(threads), steps).value.freed
    ensures var s := After(Start(threads), steps).value;
      && (forall x | x in s.sent :: (x.closed ==> x.OfSettle?) && (x.OfCommand? && x.c.css ==> x.c.under.Some?))
      && (s.open <==> s.owner.Some?)
      && (s.cancelled ==> s.refs == 0) && (s.closed ==> s.cancelled)
  {
    RunKeepsInv(Start(threads), steps);
  }
}
