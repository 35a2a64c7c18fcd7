/** One SCSI command with its retries: the primitive everything else goes through. */
module Scsi {
  import opened Bytes
  import opened Bot
  import opened Css
  import opened Entries
  import opened Exchanges
  import opened Records
  import opened Retry
  import opened UsbDevice
  import opened Wrappers

  /** Safe to send twice? */
  predicate Idempotent(cdb: seq<byte>, len: int, dataIn: bool) {
    !ChangesCssState(cdb) && (dataIn || len == 0)
  }

  /** The reason for the previous CHECK CONDITION, or NO_SENSE if the drive would
      not say. */
  method RequestSense(e: Entry) returns (s: Sense)
    requires e.Valid()
    modifies e`dev, e`tag, e`serial, e`now, e`past, e`last
    ensures e.Valid() && e.dev.life <= old(e.dev.life) && e.now >= old(e.now)
    ensures e.Log() == old(e.Log()) + [e.last] && e.last.ask == SENSE_ASK && s == SenseOf(e.last)
    ensures e.last.at == old(e.now) && e.last.ask.cdb == [0x03, 0, 0, 0, 24, 0] && e.last.ask.len == 24
    ensures e.dev.lateErrors >= old(e.dev.lateErrors) && Answering(old(e.dev), e.dev, [e.last])
  {
    var buffer := new byte[SENSE_LEN](_ => 0);
    var rc, csw, actual := Send(e, REQUEST_SENSE_CDB, buffer, 0, SENSE_LEN, true, 0);
    if rc != Passed || actual < 14 {
      return NO_SENSE;
    }
    s := Sense(buffer[2] % 16, buffer[12], buffer[13]);
    assert buffer[0..0 + actual][2] == buffer[2] && buffer[0..0 + actual][12] == buffer[12];
    assert buffer[0..0 + actual][13] == buffer[13];
  }

  /** What a transaction is worth as an attempt that ends there. */
  lemma FirstTried(b: Device, a: Device, rc: Rc, x: Exchange)
    requires Transacted(b, a, rc, x)
    ensures if rc == Absent then a.life == 0 else a.life < b.life
    ensures x.heard && rc == NotSent ==> a.lateErrors > b.lateErrors
    ensures a.lateErrors >= b.lateErrors && Answering(b, a, [x])
    ensures CheckCondition(x) <==> rc == Failed && StatusOf(x) == STATUS_FAIL as int
    ensures CheckCondition(x) <==> rc == Failed && CswOf(x).Some? && CswOf(x).value.status == 0x01
    ensures !CheckCondition(x) ==> Tried([x], x.ask, rc, NO_SENSE)
  {
  }

  /** And with the REQUEST SENSE that a CHECK CONDITION calls for. */
  lemma SecondTried(x: Exchange, y: Exchange)
    requires CheckCondition(x) && y.ask == SENSE_ASK
    ensures Tried([x] + [y], x.ask, Failed, SenseOf(y))
  {
  }

  /** A part of a log began while the drive counted as not ready, or did not. */
  predicate Began(part: seq<Exchange>, notReady: bool) {
    part != [] ==> part[0].notReady == notReady
  }

  /** One attempt: the transaction, and the sense of a CHECK CONDITION. `part` is what
      it adds to the log. */
  method Attempt(e: Entry, cdb: seq<byte>, data: array?<byte>, off: nat, len: nat, dataIn: bool, actualBefore: nat)
    returns (rc: Rc, s: Sense, actual: nat, ghost part: seq<Exchange>)
    requires e.Valid() && |cdb| <= MAX_CDB
    requires data != null ==> off + len <= data.Length
    modifies e`dev, e`tag, e`serial, e`now, e`past, e`last
    modifies data
    ensures e.Valid() && e.now >= old(e.now)
    ensures e.Log() == old(e.Log()) + part && Tried(part, Ask(cdb, len, dataIn, data != null), rc, s)
    ensures part != [] && part[0].notReady == e.notReady && (!rc.Failed? ==> s == NO_SENSE)
    ensures |part| == 2 <==> rc == Failed && CswOf(part[0]).Some? && CswOf(part[0]).value.status == 0x01
    ensures if rc == Absent then e.dev.life == 0 else e.dev.life < old(e.dev.life)
    // The drive took the CBW only if the host cannot say it was never sent.
    ensures part[0].heard && rc == NotSent ==> e.dev.lateErrors > old(e.dev.lateErrors)
    ensures e.dev.lateErrors >= old(e.dev.lateErrors) && Answering(old(e.dev), e.dev, part)
    ensures rc == Passed ==> part == [e.last] && actual == ActualOf(e.last) <= len
    ensures rc == Passed && dataIn && data != null ==> Genuine(e.dev, e.last, e.disc, Window(data, off, actual))
    ensures Around(data, off, len) == old(Around(data, off, len))
  {
    hide *;
    var csw;
    rc, csw, actual := Send(e, cdb, data, off, len, dataIn, actualBefore);
    part := [e.last];
    s := NO_SENSE;
    FirstTried(old(e.dev), e.dev, rc, e.last);
    if rc == Failed && csw == STATUS_FAIL as int {
      ghost var mid := e.dev;
      s := RequestSense(e);
      AnsweringBoth(old(e.dev), mid, e.dev, part, [e.last]);
      SecondTried(part[0], e.last);
      part := part + [e.last];
    }
  }

  /** Has the last claim been dropped? Any other thread may raise the flag; none
      ever lowers it. */
  method IsCancelled(e: Entry) returns (c: bool)
    modifies e`cancelled
    ensures c == e.cancelled && (old(e.cancelled) ==> c)
  {
    if * {
      e.cancelled := true;
    }
    c := e.cancelled;
  }

  /** The loop between two rounds: its variables are those of the replay, and the
      clock has advanced by the waits of the current episode. */
  ghost predicate Looping(idempotent: bool, notReady: bool, rounds: seq<Round>, g: Going, since: nat, now: nat) {
    && IsRun(idempotent, notReady, rounds)
    && ClockRuns(idempotent, notReady, rounds)
    && Replay(idempotent, notReady, rounds) == On(g)
    && (g.becoming ==> now >= since + RETRY_DELAY_MS * Count(idempotent, notReady, rounds).episodeWaits)
  }

  lemma OneMoreRound(idempotent: bool, notReady: bool, rounds: seq<Round>, g: Going, since: nat, now: nat, r: Round)
    requires Looping(idempotent, notReady, rounds, g, since, now)
    requires !r.rc.Failed? ==> r.sense == NO_SENSE
    requires g.becoming ==> r.elapsed >= now - since
    ensures IsRun(idempotent, notReady, rounds + [r]) && ClockRuns(idempotent, notReady, rounds + [r])
    ensures Replay(idempotent, notReady, rounds + [r]) == Judge(idempotent, g, r)
    ensures Heard(rounds + [r]) == Heard(rounds) + if r.rc.NotSent? then 0 else 1
    ensures 1 <= g.attempt <= MAX_RETRIES && g.neverSent < g.attempt
  {
    assert (rounds + [r])[..|rounds|] == rounds;
    NeverSentIsCounted(idempotent, notReady, rounds);
  }

  lemma StillLooping(idempotent: bool, notReady: bool, rounds: seq<Round>, g: Going, since: nat, now: nat, r: Round,
                     h: Going, newSince: nat, newNow: nat)
    requires Looping(idempotent, notReady, rounds, g, since, now)
    requires !r.rc.Failed? ==> r.sense == NO_SENSE
    requires g.becoming ==> r.elapsed >= now - since
    requires Judge(idempotent, g, r) == On(h)
    requires h.becoming && g.becoming ==> newSince == since
    requires h.becoming ==>
      newNow >= (if g.becoming then now else newSince) + (if h.attempt > g.attempt then 0 else RETRY_DELAY_MS)
    ensures Looping(idempotent, notReady, rounds + [r], h, newSince, newNow)
  {
    assert (rounds + [r])[..|rounds|] == rounds;
    OneMoreRound(idempotent, notReady, rounds, g, since, now, r);
  }

  function AskFor(cdb: seq<byte>, len: int, dataIn: bool, buffered: bool): Ask {
    Ask(cdb, if len < 0 then 0 else len, dataIn, buffered)
  }

  lemma AskForIs(cdb: seq<byte>, len: nat, dataIn: bool, buffered: bool)
    ensures AskFor(cdb, len, dataIn, buffered) == Ask(cdb, len, dataIn, buffered)
  {
  }

  lemma Booking(e: Entry)
    requires e.Valid()
    ensures |e.Log()| == e.serial + 1
  {
  }

  /** What the answer to a command rests on: a refusal made without asking the drive,
      or rounds that end as it says, the last of them in its evidence, and no more of
      them than the becoming-ready episodes account for. */
  ghost predicate Answered(idempotent: bool, notReady: bool, rounds: seq<Round>, st: LaserStatus, cancelled: bool) {
    if rounds == [] then
      st in {Invalid, LaserStatus.NoDevice} || (st == Cancelled && cancelled)
    else
      && EndsAs(idempotent, notReady, rounds, st, cancelled)
      && (st == Cancelled || Evidence(st, rounds[|rounds| - 1]))
      && |rounds| <= MAX_RETRIES + 61 * Count(idempotent, notReady, rounds).episodes + (if notReady then 1 else 0)
  }

  lemma EndsWell(idempotent: bool, notReady: bool, rounds: seq<Round>, st: LaserStatus, cancelled: bool)
    requires EndsAs(idempotent, notReady, rounds, st, cancelled)
    ensures Answered(idempotent, notReady, rounds, st, cancelled) && IsRun(idempotent, notReady, rounds)
    ensures rounds == [] ==> st == Cancelled
  {
    RoundsBounded(idempotent, notReady, rounds);
    if rounds != [] && Replay(idempotent, notReady, rounds).Done? {
      StatusHasEvidence(idempotent, notReady, rounds);
    }
  }

  /** A refusal without a round. */
  lemma NothingAsked(log: seq<Exchange>, cdb: seq<byte>, len: int, dataIn: bool, buffered: bool, notReady: bool,
                     st: LaserStatus, cancelled: bool)
    requires st == Invalid || st == LaserStatus.NoDevice || (st == Cancelled && cancelled)
    ensures log == log + [] && Recorded([], AskFor(cdb, len, dataIn, buffered), []) && Timely([], 0) && Late([]) == 0
    ensures Answered(Idempotent(cdb, len, dataIn), notReady, [], st, cancelled)
    ensures IsRun(Idempotent(cdb, len, dataIn), notReady, [])
    ensures Lowered(Idempotent(cdb, len, dataIn), notReady, [], notReady) && Began([], notReady)
  {
  }

  /** So much for at-most-once, counted on the device. */
  lemma Reached(e: Entry, before: seq<Exchange>, part: seq<Exchange>, cdb: seq<byte>, len: int, dataIn: bool,
                buffered: bool, notReady: bool, rounds: seq<Round>)
    requires e.Valid() && e.Log() == before + part && before != []
    requires Recorded(part, AskFor(cdb, len, dataIn, buffered), rounds)
    requires IsRun(Idempotent(cdb, len, dataIn), notReady, rounds)
    ensures !Idempotent(cdb, len, dataIn) ==>
      Deliveries(e.dev.taken, e.Log(), |before| - 1, AskFor(cdb, len, dataIn, buffered))
      <= (if notReady then 2 else 1) + Late(rounds)
  {
    if !Idempotent(cdb, len, dataIn) {
      var ask := AskFor(cdb, len, dataIn, buffered);
      assert ask != SENSE_ASK;
      AtMostOnce(notReady, rounds);
      DeliveriesAreTaken(e.Log(), before, part, ask);
      DeliveredIsTaken(part, ask, rounds);
    }
  }

  /** The answer to a command whose arguments make no sense, or None. */
  function BadArguments(cdb: seq<byte>, buffered: bool, len: int): Option<LaserStatus> {
    if |cdb| == 0 || |cdb| > MAX_CDB || len < 0 || (!buffered && len > 0) then Some(Invalid) else None
  }

  lemma ArgumentsMean(cdb: seq<byte>, buffered: bool, len: int, dataIn: bool)
    ensures BadArguments(cdb, buffered, len).Some? <==> |cdb| == 0 || |cdb| > 16 || len < 0 || (!buffered && len > 0)
    ensures Idempotent(cdb, len, dataIn) <==> !ChangesCssState(cdb) && (dataIn || len == 0)
  {
  }

  lemma GivenUpLate(idempotent: bool, notReady: bool, rounds: seq<Round>, st: LaserStatus, cancelled: bool)
    requires Answered(idempotent, notReady, rounds, st, cancelled)
    ensures st == IO && idempotent ==> |rounds| >= 6 && Heard(rounds) > 0
  {
    if rounds != [] && st == IO { StatusHasEvidence(idempotent, notReady, rounds); }
  }

  /** A round whose REQUEST SENSE is the last thing on the log has the sense it brought. */
  lemma LastSense(part: seq<Exchange>, ask: Ask, rounds: seq<Round>)
    requires Recorded(part, ask, rounds) && rounds != [] && ask != SENSE_ASK
    requires part != [] && part[|part| - 1].ask == SENSE_ASK
    ensures rounds[|rounds| - 1].rc.Failed? && rounds[|rounds| - 1].sense == SenseOf(part[|part| - 1])
  {
    hide SenseOf;
    var n := |rounds| - 1;
    assert part[|part| - 1..][0] == part[|part| - 1];
    assert EndsIn(part, ask, rounds[n], 2);
  }

  /** From the bytes on the wire to the caller: the drive answers CHECK CONDITION, its sense
      data says why, and that is what the command says. Without a disc it is MEDIA_GONE,
      whatever the qualifier, and a sector that is still scrambled is told from one that
      is refused. */
  lemma SenseIsReported(idempotent: bool, notReady: bool, ask: Ask, part: seq<Exchange>, rounds: seq<Round>,
                        st: LaserStatus, cancelled: bool, s: Sense, l: Layout)
    requires Recorded(part, ask, rounds) && rounds != [] && ask != SENSE_ASK
    requires Answered(idempotent, notReady, rounds, st, cancelled)
    requires part != [] && part[|part| - 1].ask == SENSE_ASK && CodeMeans(Passed, part[|part| - 1])
    requires Fits(s, l) && Landed(part[|part| - 1]) == FixedFormat(s, l) && ActualOf(part[|part| - 1]) >= 14
    ensures s.key == 0x02 && s.asc == 0x3a ==> st == MediaGone
    ensures s.key == 0x05 && s.asc == 0x6f && s.ascq == 0x03 ==> st == Scrambled
    ensures s.key == 0x05 && s.asc == 0x20 ==> st == Refused
    ensures s.key == 0x03 && s.asc != 0x28 && idempotent && st != Cancelled ==> st == IO && |rounds| >= 6
  {
    hide Recorded, CodeMeans, ActualOf, SenseOf, FixedFormat, Judge, ClockRuns, Count, Heard, Evidence;
    var n := |rounds| - 1;
    var r := rounds[n];
    LastSense(part, ask, rounds);
    SenseReadsBack(part[|part| - 1], s, l);
    assert Replay(idempotent, notReady, rounds[..n]).On?;
    var g := Replay(idempotent, notReady, rounds[..n]).g;
    NeverSentIsCounted(idempotent, notReady, rounds[..n]);
    SenseDecides(idempotent, g, s, r.elapsed, r.taken);
    assert r == Round(Failed, s, r.elapsed, r.taken);
    GivenUpLate(idempotent, notReady, rounds, st, cancelled);
  }

  /** laser_scsi_cdb() with a token that no entry has. */
  function WithoutEntry(cdb: seq<byte>, buffered: bool, len: int): LaserStatus {
    if BadArguments(cdb, buffered, len).Some? then Invalid else NoSuchToken
  }

  /** laser_scsi_cdb() on an entry: sends one CDB, waits for its status, retries what
      may be retried. A NULL cdb is an empty one. `part` is what it adds to the log,
      and `rounds` what that part says. */
  method Command(e: Entry, cdb: seq<byte>, data: array?<byte>, off: nat, len: int, dataIn: bool, actualBefore: nat)
    returns (st: LaserStatus, actual: nat, ghost part: seq<Exchange>, ghost rounds: seq<Round>)
    requires e.Valid()
    requires data != null && len >= 0 ==> off + len <= data.Length
    modifies e`dev, e`tag, e`serial, e`now, e`past, e`last, e`notReady, e`deviceGone, e`cancelled
    modifies data
    ensures e.Valid() && e.now >= old(e.now)
    // Refusals that touch nothing.
    ensures st == Invalid <==>
      || |cdb| == 0 || |cdb| > 16 || len < 0 || (data == null && len > 0)
      || (ChangesCssState(cdb) && !e.cssOpen)
    ensures old(e.cancelled) ==> st in {Invalid, Cancelled}
    ensures old(e.deviceGone) ==> st in {Invalid, Cancelled, LaserStatus.NoDevice}
    ensures st == Invalid || old(e.cancelled) || old(e.deviceGone) ==> rounds == []
    ensures rounds == [] && st == LaserStatus.NoDevice ==> old(e.deviceGone)
    // Otherwise the log says what the drive answered, and the status is its verdict.
    ensures e.Log() == old(e.Log()) + part && Recorded(part, AskFor(cdb, len, dataIn, data != null), rounds)
    ensures Answered(Idempotent(cdb, len, dataIn), old(e.notReady), rounds, st, e.cancelled)
    ensures Began(part, old(e.notReady)) && Answering(old(e.dev), e.dev, part)
    // Nothing but this verdict raises one flag, and nothing but an immediate retry lowers the other.
    ensures e.deviceGone <==> old(e.deviceGone) || st == LaserStatus.NoDevice
    ensures Lowered(Idempotent(cdb, len, dataIn), old(e.notReady), rounds, e.notReady)
    // No round reckons with more time than has passed.
    ensures Timely(rounds, e.now - old(e.now))
    // A command that must not be repeated reaches the drive once, or twice on a drive that
    // had not become ready; a CBW taken although libusb reported an error adds one.
    ensures ChangesCssState(cdb) || (!dataIn && len > 0) ==>
      Deliveries(e.dev.taken, e.Log(), old(e.serial), AskFor(cdb, len, dataIn, data != null))
      <= (if old(e.notReady) then 2 else 1) + (e.dev.lateErrors - old(e.dev.lateErrors))
    // Any other is given up with IO only after six attempts, at least one of which was sent.
    ensures st == IO && !ChangesCssState(cdb) && (dataIn || len == 0) ==> |rounds| >= 6 && Heard(rounds) > 0
    // The data is that of the last attempt.
    ensures st == OK ==> len >= 0 && actual == ActualOf(e.last) <= len
    ensures st == OK && dataIn && data != null ==> Genuine(e.dev, e.last, e.disc, Window(data, off, actual))
    ensures e.cancelled || !old(e.cancelled)
    ensures Around(data, off, len) == old(Around(data, off, len))
  {
    hide *;
    Booking(e);
    ArgumentsMean(cdb, data != null, len, dataIn);
    var refusal := Check(e, cdb, data != null, len);
    if refusal.Some? {
      st, actual, part, rounds := refusal.value, actualBefore, [], [];
      AnsweringNone(e.dev);
      NothingAsked(e.Log(), cdb, len, dataIn, data != null, e.notReady, st, e.cancelled);
    } else {
      st, actual, part, rounds := Attempts(e, cdb, data, off, len, dataIn, actualBefore);
    }
    Reached(e, old(e.Log()), part, cdb, len, dataIn, data != null, old(e.notReady), rounds);
    GivenUpLate(Idempotent(cdb, len, dataIn), old(e.notReady), rounds, st, e.cancelled);
  }

  /** The checks before io_lock: None means that the command may be tried. */
  method Check(e: Entry, cdb: seq<byte>, buffered: bool, len: int) returns (refusal: Option<LaserStatus>)
    modifies e`cancelled
    ensures refusal in {None, Some(Invalid), Some(Cancelled), Some(LaserStatus.NoDevice)}
    ensures refusal == Some(Invalid) <==> BadArguments(cdb, buffered, len).Some? || (ChangesCssState(cdb) && !e.cssOpen)
    ensures (refusal == Some(Cancelled) ==> e.cancelled) && (e.cancelled || !old(e.cancelled))
    ensures refusal == Some(LaserStatus.NoDevice) ==> e.deviceGone
    ensures (old(e.cancelled) ==> refusal in {Some(Invalid), Some(Cancelled)}) && (e.deviceGone ==> refusal.Some?)
    ensures refusal == None ==> 0 < |cdb| <= MAX_CDB && 0 <= len
  {
    refusal := BadArguments(cdb, buffered, len);
    if refusal.Some? {
      return;
    }
    if ChangesCssState(cdb) && !e.cssOpen {
      return Some(Invalid);
    }
    var cancelled := IsCancelled(e);
    if cancelled {
      return Some(Cancelled);
    }
    if e.deviceGone {
      return Some(LaserStatus.NoDevice);
    }
  }

  /** No round reckons with more than `span` milliseconds. */
  predicate Timely(rounds: seq<Round>, span: int) {
    forall i | 0 <= i < |rounds| :: rounds[i].elapsed <= span
  }

  /** What a judgement means for the loop: a status, all attempts spent, or its
      variables for the next round. */
  predicate Led(j: Judged, status: Option<LaserStatus>, h: Going) {
    match j
    case On(g) => status == None && h == g
    case Done(x) =>
      if status.Some? then status == Some(x)
      else h.attempt == MAX_RETRIES + 1 && x == if h.neverSent == MAX_RETRIES then LaserStatus.NoDevice else IO
  }

  /** What a failed attempt leads to: a status, or another round. The order of
      the tests is the policy. */
  method AfterFailure(e: Entry, idempotent: bool, rc: Rc, s: Sense, attempt: nat, becomingReady: bool, since: nat,
                      ghost neverSent: nat, ghost taken: bool)
    returns (status: Option<LaserStatus>, nextAttempt: nat, stillBecoming: bool, newSince: nat, ghost r: Round)
    requires 1 <= attempt <= MAX_RETRIES
    requires !rc.Passed? && !rc.Absent? && (!rc.Failed? ==> s == NO_SENSE)
    requires becomingReady ==> since <= e.now
    modifies e`now, e`notReady
    ensures e.now >= old(e.now)
    ensures r.rc == rc && r.sense == s && r.taken == taken
    // The time weighed is the time since the drive said so, no less and no more.
    ensures becomingReady ==> r.elapsed >= old(e.now) - since
    ensures r.elapsed <= e.now - if becomingReady then since else old(e.now)
    ensures stillBecoming && !becomingReady ==> old(e.now) <= newSince <= e.now
    ensures Led(Judge(idempotent, Going(attempt, becomingReady, old(e.notReady), neverSent), r), status,
                Going(nextAttempt, stillBecoming, e.notReady, neverSent + if rc.NotSent? then 1 else 0))
    ensures status.Some? ==>
      !rc.NotSent? && status.value !in {OK, LaserStatus.NoDevice, Cancelled, Invalid, NoSuchToken}
    ensures status == None ==> attempt <= nextAttempt <= attempt + 1
    ensures stillBecoming && becomingReady ==> newSince == since
    ensures status == None && stillBecoming ==>
      e.now >= (if becomingReady then old(e.now) else newSince) + (if nextAttempt > attempt then 0 else RETRY_DELAY_MS)
    // A counted retry comes after a sleep, unless the drive only reported an event: that one
    // is retried at once.
    ensures s.key == 0x06 ==> e.now == old(e.now)
    ensures nextAttempt > attempt && attempt < MAX_RETRIES && s.key != 0x06 ==> e.now >= old(e.now) + 500
    ensures status.Some? || nextAttempt > attempt ==> e.notReady == old(e.notReady)
  {
    status, nextAttempt, stillBecoming, newSince := None, attempt, becomingReady, since;
    r := Round(rc, s, if becomingReady then e.now - since else 0, taken);
    if MediumNotPresent(s) {
      status := Some(MediaGone);
      return;
    }
    if MediumMayHaveChanged(s) {
      if becomingReady || e.notReady {
        stillBecoming := false;
        e.notReady := false;
      } else {
        status := Some(MediaGone);
      }
      return;
    }
    if CopyProtection(s) {
      status := Some(CopyProtectionStatus(s.ascq));
      return;
    }
    if IllegalOrProtected(s) {
      status := Some(Refused);
      return;
    }
    if !idempotent && rc != NotSent {
      status := Some(IO);
      return;
    }
    if BecomingReady(s) {
      if !becomingReady {
        stillBecoming := true;
        newSince := e.Clock();
      }
      var clock := e.Clock();
      r := r.(elapsed := clock - newSince);
      if clock - newSince < BECOMING_READY_MAX_WALL_MS {
        e.Sleep(RETRY_DELAY_MS);
        return;
      }
    }
    if !UnitAttention(s) && attempt < MAX_RETRIES {
      e.Sleep(RETRY_DELAY_MS);
    }
    nextAttempt := attempt + 1;
  }

  /** The loop's variables against its history: between two rounds, or with all
      attempts spent. */
  ghost predicate LoopState(idempotent: bool, wasNotReady: bool, rounds: seq<Round>, attempt: nat, becomingReady: bool,
                            since: nat, neverSent: nat, notReady: bool, now: nat)
  {
    if attempt <= MAX_RETRIES then
      && 1 <= attempt && neverSent < attempt
      && Looping(idempotent, wasNotReady, rounds, Going(attempt, becomingReady, notReady, neverSent), since, now)
    else
      && attempt == MAX_RETRIES + 1 && neverSent <= MAX_RETRIES
      && Ended(idempotent, wasNotReady, rounds, if neverSent == MAX_RETRIES then LaserStatus.NoDevice else IO)
      && Lowered(idempotent, wasNotReady, rounds, notReady)
  }

  ghost predicate Ended(idempotent: bool, notReady: bool, rounds: seq<Round>, st: LaserStatus) {
    && IsRun(idempotent, notReady, rounds)
    && ClockRuns(idempotent, notReady, rounds)
    && Replay(idempotent, notReady, rounds) == Done(st)
  }

  lemma RoundLeads(idempotent: bool, notReady: bool, rounds: seq<Round>, g: Going, since: nat, start: nat, r: Round,
                   status: Option<LaserStatus>, h: Going, newSince: nat, now: nat)
    requires Looping(idempotent, notReady, rounds, g, since, start)
    requires !r.rc.Passed? && !r.rc.Absent? && (!r.rc.Failed? ==> r.sense == NO_SENSE)
    requires g.becoming ==> r.elapsed >= start - since
    requires Led(Judge(idempotent, g, r), status, h)
    requires h.neverSent == g.neverSent + if r.rc.NotSent? then 1 else 0
    requires status == None ==> g.attempt <= h.attempt <= g.attempt + 1
    requires status.Some? || h.attempt > g.attempt ==> h.notReady == g.notReady
    requires h.becoming && g.becoming ==> newSince == since
    requires status == None && h.becoming ==>
      now >= (if g.becoming then start else newSince) + (if h.attempt > g.attempt then 0 else RETRY_DELAY_MS)
    ensures if status.Some? then
              && Ended(idempotent, notReady, rounds + [r], status.value)
              && Lowered(idempotent, notReady, rounds + [r], h.notReady)
            else LoopState(idempotent, notReady, rounds + [r], h.attempt, h.becoming, newSince, h.neverSent,
                           h.notReady, now)
  {
    OneMoreRound(idempotent, notReady, rounds, g, since, start, r);
    var j := Judge(idempotent, g, r);
    if j.On? {
      StillLooping(idempotent, notReady, rounds, g, since, start, r, h, newSince, now);
      NeverSentIsCounted(idempotent, notReady, rounds + [r]);
    } else {
      FlagAtEnd(idempotent, notReady, rounds, g, r);
    }
  }

  /** A round whose attempt failed, and the loop's variables after it. */
  method FailedRound(e: Entry, idempotent: bool, rc: Rc, s: Sense, attempt: nat, becomingReady: bool, since: nat,
                     neverSent: nat, ghost start: nat, ghost wasNotReady: bool, ghost rounds: seq<Round>,
                     ghost taken: bool, ghost began: nat)
    returns (ended: Option<LaserStatus>, nextAttempt: nat, stillBecoming: bool, newSince: nat, nowNeverSent: nat,
             ghost r: Round)
    requires attempt <= MAX_RETRIES
    requires !rc.Passed? && !rc.Absent? && (!rc.Failed? ==> s == NO_SENSE)
    requires began <= start <= e.now && (becomingReady ==> began <= since)
    requires LoopState(idempotent, wasNotReady, rounds, attempt, becomingReady, since, neverSent, e.notReady, start)
    modifies e`now, e`notReady
    ensures e.now >= old(e.now)
    ensures r.rc == rc && r.sense == s && r.taken == taken && r.elapsed <= e.now - began
    ensures ended.Some? ==>
      && Ended(idempotent, wasNotReady, rounds + [r], ended.value) && nowNeverSent < attempt
      && Lowered(idempotent, wasNotReady, rounds + [r], e.notReady)
      && ended.value !in {OK, LaserStatus.NoDevice, Cancelled, Invalid, NoSuchToken}
    ensures ended == None ==>
      && LoopState(idempotent, wasNotReady, rounds + [r], nextAttempt, stillBecoming, newSince, nowNeverSent,
                   e.notReady, e.now)
      && attempt <= nextAttempt <= attempt + 1 && (stillBecoming ==> began <= newSince)
  {
    ghost var g := Going(attempt, becomingReady, e.notReady, neverSent);
    ended, nextAttempt, stillBecoming, newSince, r :=
      AfterFailure(e, idempotent, rc, s, attempt, becomingReady, since, neverSent, taken);
    nowNeverSent := neverSent + if rc == NotSent then 1 else 0;
    RoundLeads(idempotent, wasNotReady, rounds, g, since, start, r, ended,
               Going(nextAttempt, stillBecoming, e.notReady, nowNeverSent), newSince, e.now);
  }

  /** A round that ends the loop at once: success, or a device that left. */
  lemma LastRound(idempotent: bool, notReady: bool, rounds: seq<Round>, attempt: nat, becomingReady: bool, since: nat,
                  neverSent: nat, nowNotReady: bool, start: nat, now: nat, rc: Rc, taken: bool)
    requires LoopState(idempotent, notReady, rounds, attempt, becomingReady, since, neverSent, nowNotReady, start)
    requires attempt <= MAX_RETRIES && start <= now && (rc.Passed? || rc.Absent?)
    ensures var r := Round(rc, NO_SENSE, if becomingReady then now - since else 0, taken);
      && Ended(idempotent, notReady, rounds + [r], if rc.Passed? then OK else LaserStatus.NoDevice)
      && Lowered(idempotent, notReady, rounds + [r], nowNotReady)
    ensures neverSent < attempt && (becomingReady ==> since <= now)
  {
    var r := Round(rc, NO_SENSE, if becomingReady then now - since else 0, taken);
    OneMoreRound(idempotent, notReady, rounds, Going(attempt, becomingReady, nowNotReady, neverSent), since, start, r);
    FlagAtEnd(idempotent, notReady, rounds, Going(attempt, becomingReady, nowNotReady, neverSent), r);
  }

  /** How a command ended: as its rounds say, or cancelled between two of them. */
  ghost predicate EndsAs(idempotent: bool, notReady: bool, rounds: seq<Round>, st: LaserStatus, cancelled: bool) {
    || Ended(idempotent, notReady, rounds, st)
    || (st == Cancelled && cancelled && IsRun(idempotent, notReady, rounds) && ClockRuns(idempotent, notReady, rounds)
        && Replay(idempotent, notReady, rounds).On?)
  }

  /** The verdict on a loop that ended: gone, if no CBW of any attempt ever left. */
  function FinalStatus(st: LaserStatus, attemptsMade: nat, cbwNeverSent: nat): LaserStatus {
    if st != OK && st != Cancelled && attemptsMade > 0 && cbwNeverSent == attemptsMade then LaserStatus.NoDevice else st
  }

  lemma CancelledBetweenRounds(idempotent: bool, notReady: bool, rounds: seq<Round>, attempt: nat, becomingReady: bool,
                               since: nat, neverSent: nat, nowNotReady: bool, now: nat)
    requires LoopState(idempotent, notReady, rounds, attempt, becomingReady, since, neverSent, nowNotReady, now)
    requires attempt <= MAX_RETRIES
    ensures EndsAs(idempotent, notReady, rounds, FinalStatus(Cancelled, attempt, neverSent), true)
    ensures Lowered(idempotent, notReady, rounds, nowNotReady)
  {
    FlagWhileGoing(idempotent, notReady, rounds);
  }

  /** A loop that ended before its attempts were spent keeps its verdict. */
  lemma EndedEarly(idempotent: bool, notReady: bool, rounds: seq<Round>, st: LaserStatus, attempt: nat, neverSent: nat,
                   cancelled: bool)
    requires Ended(idempotent, notReady, rounds, st) && (st == LaserStatus.NoDevice || neverSent < attempt)
    ensures EndsAs(idempotent, notReady, rounds, FinalStatus(st, attempt, neverSent), cancelled)
  {
  }

  /** One whose attempts are spent is given up, as gone if no CBW ever left. */
  lemma AllSpent(idempotent: bool, notReady: bool, rounds: seq<Round>, attempt: nat, becomingReady: bool, since: nat,
                 neverSent: nat, nowNotReady: bool, now: nat, cancelled: bool)
    requires LoopState(idempotent, notReady, rounds, attempt, becomingReady, since, neverSent, nowNotReady, now)
    requires attempt > MAX_RETRIES
    ensures EndsAs(idempotent, notReady, rounds, FinalStatus(IO, MAX_RETRIES, neverSent), cancelled)
    ensures Lowered(idempotent, notReady, rounds, nowNotReady)
  {
  }

  lemma LoopBegins(idempotent: bool, notReady: bool, log: seq<Exchange>, ask: Ask, now: nat)
    ensures LoopState(idempotent, notReady, [], 1, false, 0, 0, notReady, now)
    ensures log == log + [] && Recorded([], ask, []) && Timely([], 0) && Late([]) == 0 && Began([], notReady)
  {
  }

  /** What an attempt leads to, whatever it came back with. */
  method AfterAttempt(e: Entry, idempotent: bool, rc: Rc, s: Sense, attempt: nat, becomingReady: bool, since: nat,
                      neverSent: nat, ghost start: nat, ghost wasNotReady: bool, ghost rounds: seq<Round>,
                      ghost taken: bool, ghost began: nat)
    returns (ended: Option<LaserStatus>, nextAttempt: nat, stillBecoming: bool, newSince: nat, nowNeverSent: nat,
             ghost r: Round)
    requires attempt <= MAX_RETRIES && (!rc.Failed? ==> s == NO_SENSE)
    requires began <= start <= e.now && (becomingReady ==> began <= since)
    requires LoopState(idempotent, wasNotReady, rounds, attempt, becomingReady, since, neverSent, e.notReady, start)
    modifies e`now, e`notReady, e`deviceGone
    ensures e.now >= old(e.now)
    ensures e.deviceGone <==> old(e.deviceGone) || ended == Some(LaserStatus.NoDevice)
    ensures r.rc == rc && r.sense == s && r.taken == taken && r.elapsed <= e.now - began
    ensures ended == Some(OK) <==> rc.Passed?
    ensures rc.Absent? ==> ended.Some?
    ensures ended.Some? ==>
      && Ended(idempotent, wasNotReady, rounds + [r], ended.value)
      && Lowered(idempotent, wasNotReady, rounds + [r], e.notReady)
      && ended.value !in {Cancelled, Invalid, NoSuchToken}
      && (ended.value == LaserStatus.NoDevice || nowNeverSent < attempt)
    ensures ended == None ==>
      && LoopState(idempotent, wasNotReady, rounds + [r], nextAttempt, stillBecoming, newSince, nowNeverSent,
                   e.notReady, e.now)
      && attempt <= nextAttempt <= attempt + 1 && (stillBecoming ==> began <= newSince)
  {
    hide *;
    if rc == Passed || rc == Absent {
      nextAttempt, stillBecoming, newSince, nowNeverSent := attempt, becomingReady, since, neverSent;
      LastRound(idempotent, wasNotReady, rounds, attempt, becomingReady, since, neverSent, e.notReady, start, e.now,
                rc, taken);
      r := Round(rc, s, if becomingReady then e.now - since else 0, taken);
      ended := Some(if rc == Passed then OK else LaserStatus.NoDevice);
      if rc == Absent {
        e.deviceGone := true;
      }
    } else {
      ended, nextAttempt, stillBecoming, newSince, nowNeverSent, r :=
        FailedRound(e, idempotent, rc, s, attempt, becomingReady, since, neverSent, start, wasNotReady, rounds,
                    taken, began);
    }
  }

  lemma FinalStatusIs(st: LaserStatus, attemptsMade: nat, cbwNeverSent: nat)
    ensures FinalStatus(st, attemptsMade, cbwNeverSent) ==
            if st != OK && st != Cancelled && attemptsMade > 0 && cbwNeverSent == attemptsMade
            then LaserStatus.NoDevice else st
  {
  }

  /** The log of a loop after one more round. */
  lemma RoundLogged(log: seq<Exchange>, part: seq<Exchange>, ask: Ask, rounds: seq<Round>, tail: seq<Exchange>,
                    r: Round, before: int, span: int, notReady: bool)
    requires tail != [] && Began(part, notReady) && (part == [] ==> tail[0].notReady == notReady)
    requires Recorded(part, ask, rounds) && Tried(tail, ask, r.rc, r.sense) && r.taken == tail[0].heard
    requires Timely(rounds, before) && before <= span && r.elapsed <= span
    ensures log + part + tail == log + (part + tail) && Recorded(part + tail, ask, rounds + [r])
    ensures Timely(rounds + [r], span) && part + tail != [] && Began(part + tail, notReady)
    ensures Late(rounds + [r]) == Late(rounds) + if r.rc.NotSent? && r.taken then 1 else 0
  {
    hide Recorded, Tried, CodeMeans, SenseOf, CheckCondition;
    RecordedOneMore(part, ask, rounds, tail, r);
    assert (rounds + [r])[..|rounds|] == rounds;
  }

  /** An attempt, and what it leads to. */
  method OneRound(e: Entry, cdb: seq<byte>, data: array?<byte>, off: nat, len: nat, dataIn: bool, actualBefore: nat,
                  attempt: nat, becomingReady: bool, since: nat, neverSent: nat,
                  ghost wasNotReady: bool, ghost rounds: seq<Round>, ghost began: nat)
    returns (ended: Option<LaserStatus>, actual: nat, nextAttempt: nat, stillBecoming: bool, newSince: nat,
             nowNeverSent: nat, ghost r: Round, ghost part: seq<Exchange>)
    requires e.Valid() && 0 < |cdb| <= MAX_CDB && attempt <= MAX_RETRIES
    requires data != null ==> off + len <= data.Length
    requires began <= e.now && (becomingReady ==> began <= since)
    requires LoopState(Idempotent(cdb, len, dataIn), wasNotReady, rounds, attempt, becomingReady, since, neverSent,
                       e.notReady, e.now)
    modifies e`dev, e`tag, e`serial, e`now, e`past, e`last, e`notReady, e`deviceGone
    modifies data
    ensures e.Valid() && e.now >= old(e.now) && e.Log() == old(e.Log()) + part
    ensures Tried(part, Ask(cdb, len, dataIn, data != null), r.rc, r.sense)
    ensures part != [] && r.taken == part[0].heard && part[0].notReady == old(e.notReady)
    ensures r.elapsed <= e.now - began
    ensures ended == None ==>
      && e.dev.life < old(e.dev.life) && attempt <= nextAttempt <= attempt + 1
      && LoopState(Idempotent(cdb, len, dataIn), wasNotReady, rounds + [r], nextAttempt, stillBecoming, newSince,
                   nowNeverSent, e.notReady, e.now)
      && (stillBecoming ==> began <= newSince)
    ensures ended.Some? ==>
      && Ended(Idempotent(cdb, len, dataIn), wasNotReady, rounds + [r], ended.value)
      && Lowered(Idempotent(cdb, len, dataIn), wasNotReady, rounds + [r], e.notReady)
      && ended.value !in {Cancelled, Invalid, NoSuchToken}
      && (ended.value == LaserStatus.NoDevice || nowNeverSent < attempt)
    ensures (if r.rc.NotSent? && r.taken then 1 else 0) + old(e.dev.lateErrors) <= e.dev.lateErrors
    ensures Answering(old(e.dev), e.dev, part)
    ensures e.deviceGone <==> old(e.deviceGone) || ended == Some(LaserStatus.NoDevice)
    ensures ended == Some(OK) ==> actual == ActualOf(e.last) <= len
    ensures ended == Some(OK) && dataIn && data != null ==> Genuine(e.dev, e.last, e.disc, Window(data, off, actual))
    ensures Around(data, off, len) == old(Around(data, off, len))
  {
    hide *;
    ghost var start := e.now;
    var rc, s;
    rc, s, actual, part := Attempt(e, cdb, data, off, len, dataIn, actualBefore);
    ended, nextAttempt, stillBecoming, newSince, nowNeverSent, r :=
      AfterAttempt(e, Idempotent(cdb, len, dataIn), rc, s, attempt, becomingReady, since, neverSent, start,
                   wasNotReady, rounds, part[0].heard, began);
  }

  /** One pass of the loop: an attempt, unless the last claim was dropped meanwhile. */
  method Pass(e: Entry, cdb: seq<byte>, data: array?<byte>, off: nat, len: nat, dataIn: bool, actualBefore: nat,
              attempt: nat, becomingReady: bool, since: nat, neverSent: nat,
              ghost wasNotReady: bool, ghost rounds: seq<Round>, ghost part: seq<Exchange>,
              ghost log: seq<Exchange>, ghost began: nat, ghost first: Device)
    returns (ended: Option<LaserStatus>, actual: nat, nextAttempt: nat, stillBecoming: bool, newSince: nat,
             nowNeverSent: nat, ghost newRounds: seq<Round>, ghost newPart: seq<Exchange>)
    requires e.Valid() && 0 < |cdb| <= MAX_CDB && attempt <= MAX_RETRIES
    requires data != null ==> off + len <= data.Length
    requires began <= e.now && (becomingReady ==> began <= since)
    requires e.Log() == log + part && Recorded(part, Ask(cdb, len, dataIn, data != null), rounds)
    requires Timely(rounds, e.now - began) && Answering(first, e.dev, part)
    requires Began(part, wasNotReady) && (part == [] ==> e.notReady == wasNotReady)
    requires LoopState(Idempotent(cdb, len, dataIn), wasNotReady, rounds, attempt, becomingReady, since, neverSent,
                       e.notReady, e.now)
    modifies e`dev, e`tag, e`serial, e`now, e`past, e`last, e`notReady, e`deviceGone, e`cancelled
    modifies data
    ensures e.Valid() && e.now >= old(e.now)
    ensures e.Log() == log + newPart && Recorded(newPart, Ask(cdb, len, dataIn, data != null), newRounds)
    ensures Timely(newRounds, e.now - began) && Answering(first, e.dev, newPart)
    ensures Began(newPart, wasNotReady) && (ended == None ==> newPart != [])
    // No attempt follows once the cancellation is seen.
    ensures old(e.cancelled) ==> ended == Some(Cancelled)
    ensures ended == Some(Cancelled) ==> newRounds == rounds && e.cancelled
    ensures ended == None ==>
      && e.dev.life < old(e.dev.life) && attempt <= nextAttempt <= attempt + 1
      && LoopState(Idempotent(cdb, len, dataIn), wasNotReady, newRounds, nextAttempt, stillBecoming, newSince,
                   nowNeverSent, e.notReady, e.now)
      && (stillBecoming ==> began <= newSince)
    ensures ended.Some? ==>
      && EndsAs(Idempotent(cdb, len, dataIn), wasNotReady, newRounds,
                FinalStatus(ended.value, attempt, nowNeverSent), e.cancelled)
      && Lowered(Idempotent(cdb, len, dataIn), wasNotReady, newRounds, e.notReady)
      && ended.value !in {Invalid, NoSuchToken}
    ensures Late(newRounds) + old(e.dev.lateErrors) <= Late(rounds) + e.dev.lateErrors
    ensures e.dev.lateErrors >= old(e.dev.lateErrors)
    ensures e.deviceGone <==> old(e.deviceGone) || ended == Some(LaserStatus.NoDevice)
    ensures e.cancelled || !old(e.cancelled)
    ensures ended == Some(OK) ==> actual == ActualOf(e.last) <= len
    ensures ended == Some(OK) && dataIn && data != null ==> Genuine(e.dev, e.last, e.disc, Window(data, off, actual))
    ensures Around(data, off, len) == old(Around(data, off, len))
  {
    hide *;
    newRounds, newPart := rounds, part;
    var cancelled := IsCancelled(e);
    if cancelled {
      CancelledBetweenRounds(Idempotent(cdb, len, dataIn), wasNotReady, rounds, attempt, becomingReady, since,
                             neverSent, e.notReady, e.now);
      ended, actual, nextAttempt, nowNeverSent := Some(Cancelled), actualBefore, attempt, neverSent;
      stillBecoming, newSince := becomingReady, since;
      return;
    }
    ghost var r, tail;
    ended, actual, nextAttempt, stillBecoming, newSince, nowNeverSent, r, tail :=
      OneRound(e, cdb, data, off, len, dataIn, actualBefore, attempt, becomingReady, since, neverSent, wasNotReady,
               rounds, began);
    newRounds, newPart := rounds + [r], part + tail;
    AnsweringBoth(first, old(e.dev), e.dev, part, tail);
    RoundLogged(log, part, Ask(cdb, len, dataIn, data != null), rounds, tail, r, old(e.now) - began, e.now - began,
                wasNotReady);
    if ended.Some? {
      EndedEarly(Idempotent(cdb, len, dataIn), wasNotReady, newRounds, ended.value, attempt, nowNeverSent, e.cancelled);
    }
  }

  /** The retry loop. */
  method RetryLoop(e: Entry, cdb: seq<byte>, data: array?<byte>, off: nat, len: nat, dataIn: bool, actualBefore: nat)
    returns (st: LaserStatus, actual: nat, attemptsMade: nat, cbwNeverSent: nat,
             ghost part: seq<Exchange>, ghost rounds: seq<Round>)
    requires e.Valid() && 0 < |cdb| <= MAX_CDB
    requires data != null ==> off + len <= data.Length
    modifies e`dev, e`tag, e`serial, e`now, e`past, e`last, e`notReady, e`deviceGone, e`cancelled
    modifies data
    ensures e.Valid() && e.Log() == old(e.Log()) + part && Recorded(part, Ask(cdb, len, dataIn, data != null), rounds)
    ensures e.now >= old(e.now) && Timely(rounds, e.now - old(e.now)) && Began(part, old(e.notReady))
    ensures Answering(old(e.dev), e.dev, part)
    ensures EndsAs(Idempotent(cdb, len, dataIn), old(e.notReady), rounds,
                   FinalStatus(st, attemptsMade, cbwNeverSent), e.cancelled)
    ensures old(e.cancelled) ==> rounds == []
    // Nothing but this verdict raises one flag, and nothing but an immediate retry lowers the other.
    ensures e.deviceGone <==> old(e.deviceGone) || st == LaserStatus.NoDevice
    ensures Lowered(Idempotent(cdb, len, dataIn), old(e.notReady), rounds, e.notReady)
    ensures st !in {Invalid, NoSuchToken}
    ensures st == OK ==> actual == ActualOf(e.last) <= len
    ensures st == OK && dataIn && data != null ==> Genuine(e.dev, e.last, e.disc, Window(data, off, actual))
    ensures Late(rounds) + old(e.dev.lateErrors) <= e.dev.lateErrors
    ensures e.cancelled || !old(e.cancelled)
    ensures Around(data, off, len) == old(Around(data, off, len))
  {
    hide *;
    part, rounds, actual, st := [], [], actualBefore, IO;
    ghost var wasNotReady, ask := e.notReady, Ask(cdb, len, dataIn, data != null);
    AnsweringNone(e.dev);
    LoopBegins(Idempotent(cdb, len, dataIn), wasNotReady, e.Log(), ask, e.now);
    attemptsMade, cbwNeverSent := 0, 0;
    var becomingReady, becomingReadySince := false, 0;
    var attempt := 1;
    while attempt <= MAX_RETRIES
      invariant 1 <= attempt <= MAX_RETRIES + 1
      invariant e.Valid() && e.now >= old(e.now) && (becomingReady ==> old(e.now) <= becomingReadySince)
      invariant e.Log() == old(e.Log()) + part && Recorded(part, ask, rounds) && Timely(rounds, e.now - old(e.now))
      invariant LoopState(Idempotent(cdb, len, dataIn), wasNotReady, rounds, attempt, becomingReady,
                          becomingReadySince, cbwNeverSent, e.notReady, e.now)
      invariant Answering(old(e.dev), e.dev, part) && Began(part, wasNotReady)
      invariant part == [] ==> e.notReady == wasNotReady
      invariant attempt > MAX_RETRIES ==> attemptsMade == MAX_RETRIES
      invariant st == IO && (old(e.cancelled) ==> rounds == [] && e.cancelled && attempt == 1)
      invariant Late(rounds) + old(e.dev.lateErrors) <= e.dev.lateErrors
      invariant e.cancelled || !old(e.cancelled)
      invariant e.deviceGone == old(e.deviceGone)
      invariant Around(data, off, len) == old(Around(data, off, len))
      decreases e.dev.life
    {
      attemptsMade := attempt;
      var ended;
      ended, actual, attempt, becomingReady, becomingReadySince, cbwNeverSent, rounds, part :=
        Pass(e, cdb, data, off, len, dataIn, actual, attempt, becomingReady, becomingReadySince, cbwNeverSent,
             wasNotReady, rounds, part, old(e.Log()), old(e.now), old(e.dev));
      if ended.Some? {
        st := ended.value;
        return;
      }
    }
    AllSpent(Idempotent(cdb, len, dataIn), wasNotReady, rounds, attempt, becomingReady, becomingReadySince,
             cbwNeverSent, e.notReady, e.now, e.cancelled);
  }

  /** The attempts at a command, and the verdict on them. */
  method Attempts(e: Entry, cdb: seq<byte>, data: array?<byte>, off: nat, len: nat, dataIn: bool, actualBefore: nat)
    returns (st: LaserStatus, actual: nat, ghost part: seq<Exchange>, ghost rounds: seq<Round>)
    requires e.Valid() && 0 < |cdb| <= MAX_CDB
    requires data != null ==> off + len <= data.Length
    modifies e`dev, e`tag, e`serial, e`now, e`past, e`last, e`notReady, e`deviceGone, e`cancelled
    modifies data
    ensures e.Valid() && e.Log() == old(e.Log()) + part
    ensures Recorded(part, AskFor(cdb, len, dataIn, data != null), rounds)
    ensures e.now >= old(e.now) && Timely(rounds, e.now - old(e.now)) && Began(part, old(e.notReady))
    ensures Answering(old(e.dev), e.dev, part)
    ensures Answered(Idempotent(cdb, len, dataIn), old(e.notReady), rounds, st, e.cancelled)
    ensures IsRun(Idempotent(cdb, len, dataIn), old(e.notReady), rounds)
    ensures rounds == [] ==> st == Cancelled
    ensures old(e.cancelled) ==> rounds == []
    // Nothing but this verdict raises one flag, and nothing but an immediate retry lowers the other.
    ensures e.deviceGone <==> old(e.deviceGone) || st == LaserStatus.NoDevice
    ensures Lowered(Idempotent(cdb, len, dataIn), old(e.notReady), rounds, e.notReady)
    ensures st !in {Invalid, NoSuchToken}
    ensures st == OK ==> actual == ActualOf(e.last) <= len
    ensures st == OK && dataIn && data != null ==> Genuine(e.dev, e.last, e.disc, Window(data, off, actual))
    ensures Late(rounds) + old(e.dev.lateErrors) <= e.dev.lateErrors
    ensures e.cancelled || !old(e.cancelled)
    ensures Around(data, off, len) == old(Around(data, off, len))
  {
    hide *;
    AskForIs(cdb, len, dataIn, data != null);
    var attemptsMade, cbwNeverSent;
    st, actual, attemptsMade, cbwNeverSent, part, rounds :=
      RetryLoop(e, cdb, data, off, len, dataIn, actualBefore);
    FinalStatusIs(st, attemptsMade, cbwNeverSent);
    if st != OK && st != Cancelled && attemptsMade > 0 && cbwNeverSent == attemptsMade {
      e.deviceGone := true;
      st := LaserStatus.NoDevice;
    }
    EndsWell(Idempotent(cdb, len, dataIn), old(e.notReady), rounds, st, e.cancelled);
  }
}
