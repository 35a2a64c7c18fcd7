/** Waking the drive: START STOP UNIT in the shapes a bridge may accept, then the
    wait for its medium. */
module SpinUp {
  import opened Bytes
  import opened Bot
  import opened Entries
  import opened Exchanges
  import opened Records
  import opened Retry
  import opened Scsi
  import opened UsbDevice
  import opened Wrappers

  const SPINUP_DELAY_MS: nat := 500
  const SPINUP_MAX_WALL_MS: nat := 15000
  const NO_MEDIUM_MAX_WALL_MS: nat := 4000
  const MAX_UNIT_ATTENTIONS: nat := 4

  const TRAY_OPEN: byte := 0x02

  /** All of a log was issued between two readings of the clock. */
  predicate Between(part: seq<Exchange>, lo: nat, hi: nat) {
    forall x | x in part :: lo <= x.at <= hi
  }

  // ------------------------------------------------------- START STOP UNIT

  /** One START STOP UNIT: its IMMED and LOEJ bits (START is always set), and
      what the drive made of it. */
  datatype Shape = Shape(immed: bool, loej: bool)
  datatype Answer = Answer(csw: int, sense: Sense)

  const SPIN := Shape(true, false)
  const BLOCKING := Shape(false, false)
  const LOAD := Shape(true, true)

  predicate Accepted(a: Answer) { a.csw == STATUS_PASS as int }
  predicate UnknownOpcode(s: Sense) { s.key == 0x05 && s.asc == 0x20 }
  predicate InvalidField(s: Sense) { s.key == 0x05 && s.asc == 0x24 }

  function StartStopAsk(shape: Shape): Ask {
    Ask([0x1b, if shape.immed then 1 else 0, 0, 0, if shape.loej then 3 else 1, 0], 0, false, false)
  }

  function ReplySize(a: Answer): nat {
    if a.csw == STATUS_FAIL as int then 2 else 1
  }

  /** One START STOP UNIT on the log. A CHECK CONDITION, and nothing else, is followed
      by a REQUEST SENSE. */
  predicate Replied(part: seq<Exchange>, shape: Shape, a: Answer) {
    && |part| == ReplySize(a) && part[0].ask == StartStopAsk(shape) && a.csw == StatusOf(part[0])
    && (if |part| == 2 then part[1].ask == SENSE_ASK && a.sense == SenseOf(part[1]) else a.sense == NO_SENSE)
  }

  /** A part of a log is these requests with these answers, and nothing else. */
  predicate Climbed(part: seq<Exchange>, sent: seq<Shape>, answers: seq<Answer>)
    decreases |sent|
  {
    if sent == [] then part == [] && answers == []
    else
      var n := |sent| - 1;
      && |answers| == |sent| && ReplySize(answers[n]) <= |part|
      && var k := |part| - ReplySize(answers[n]);
         Replied(part[k..], sent[n], answers[n]) && Climbed(part[..k], sent[..n], answers[..n])
  }

  lemma ClimbedOneMore(part: seq<Exchange>, sent: seq<Shape>, answers: seq<Answer>, tail: seq<Exchange>, shape: Shape,
                       a: Answer)
    requires Climbed(part, sent, answers) && Replied(tail, shape, a)
    ensures Climbed(part + tail, sent + [shape], answers + [a])
  {
    assert |answers| == |sent|;
    assert (sent + [shape])[..|sent|] == sent && (answers + [a])[..|sent|] == answers;
    assert (part + tail)[|part|..] == tail && (part + tail)[..|part|] == part;
  }

  predicate Issued(part: seq<Exchange>, shape: Shape) {
    exists x :: x in part && x.ask == StartStopAsk(shape)
  }

  /** The shapes on the log are those sent. */
  lemma {:induction false} IssuedIsSent(part: seq<Exchange>, sent: seq<Shape>, answers: seq<Answer>, shape: Shape)
    requires Climbed(part, sent, answers)
    ensures Issued(part, shape) <==> shape in sent
    decreases |sent|
  {
    if sent != [] {
      var n := |sent| - 1;
      var k := |part| - ReplySize(answers[n]);
      IssuedIsSent(part[..k], sent[..n], answers[..n], shape);
      IssuedInReply(part[k..], sent[n], answers[n], shape);
      assert part == part[..k] + part[k..] && sent == sent[..n] + [sent[n]];
      IssuedInBoth(part[..k], part[k..], shape);
    }
  }

  lemma IssuedInBoth(a: seq<Exchange>, b: seq<Exchange>, shape: Shape)
    ensures Issued(a + b, shape) <==> Issued(a, shape) || Issued(b, shape)
  {
    assert forall x :: x in a + b <==> x in a || x in b;
  }

  lemma IssuedInReply(part: seq<Exchange>, sent: Shape, a: Answer, shape: Shape)
    requires Replied(part, sent, a)
    ensures Issued(part, shape) <==> shape == sent
  {
    assert StartStopAsk(shape).cdb[0] != SENSE_ASK.cdb[0];
    assert StartStopAsk(shape) == StartStopAsk(sent) ==>
      && StartStopAsk(shape).cdb[1] == StartStopAsk(sent).cdb[1]
      && StartStopAsk(shape).cdb[4] == StartStopAsk(sent).cdb[4];
    assert part[0] in part;
    forall x | x in part && x.ask == StartStopAsk(shape)
      ensures shape == sent
    {
      assert x == part[0] || (|part| == 2 && x == part[1]);
    }
  }

  /** The shape tried after a refusal, if any. */
  function NextShape(a: Answer): Option<Shape> {
    if Accepted(a) || UnknownOpcode(a.sense) || BecomingReady(a.sense) then None
    else if InvalidField(a.sense) then Some(BLOCKING)
    else Some(LOAD)
  }

  /** A UNIT ATTENTION reports an event and is no refusal: the request is repeated. */
  function PlainOnes(answers: seq<Answer>): nat {
    if answers != [] && !Accepted(answers[0]) && UnitAttention(answers[0].sense) then 2 else 1
  }

  /** The ladder: the plain request, once more after a UNIT ATTENTION, then at
      most one other shape, chosen by why the last plain one was refused. */
  predicate Ladder(sent: seq<Shape>, answers: seq<Answer>) {
    var plain := PlainOnes(answers);
    && plain <= |sent| == |answers| <= plain + 1
    && (forall i | 0 <= i < plain :: sent[i] == SPIN)
    && sent[plain..] == (match NextShape(answers[plain - 1]) case None => [] case Some(s) => [s])
  }

  /** A START STOP UNIT, by its bytes. */
  predicate IsStartStop(x: Exchange) {
    |x.ask.cdb| == 6 && x.ask.cdb[0] == 0x1b
  }

  /** Nothing else is on the log but what was sent, and the requests for sense. */
  lemma {:induction false} OnlySent(part: seq<Exchange>, sent: seq<Shape>, answers: seq<Answer>)
    requires Climbed(part, sent, answers)
    ensures forall x | x in part :: x.ask == SENSE_ASK || exists s :: s in sent && x.ask == StartStopAsk(s)
    decreases |sent|
  {
    if sent != [] {
      var n := |sent| - 1;
      var k := |part| - ReplySize(answers[n]);
      OnlySent(part[..k], sent[..n], answers[..n]);
      forall x | x in part
        ensures x.ask == SENSE_ASK || exists s :: s in sent && x.ask == StartStopAsk(s)
      {
        assert part == part[..k] + part[k..];
        if x in part[..k] && x.ask != SENSE_ASK {
          var s :| s in sent[..n] && x.ask == StartStopAsk(s);
          assert s in sent;
        } else if x in part[k..] && x.ask != SENSE_ASK {
          assert x == part[k..][0] && sent[n] in sent;
        }
      }
    }
  }

  lemma {:induction false} FirstIsPlain(part: seq<Exchange>, sent: seq<Shape>, answers: seq<Answer>)
    requires Climbed(part, sent, answers) && sent != []
    ensures part != [] && part[0].ask == StartStopAsk(sent[0])
    decreases |sent|
  {
    var n := |sent| - 1;
    if n > 0 { FirstIsPlain(part[..|part| - ReplySize(answers[n])], sent[..n], answers[..n]); }
  }

  /** What bytes 1 and 4 say (SBC-2, section 5.17). */
  predicate SaysShape(x: Exchange, s: Shape) {
    && IsStartStop(x) && x.ask.cdb[4] % 2 == 1
    && (x.ask.cdb[1] % 2 == 1 <==> s.immed) && (x.ask.cdb[4] / 2 % 2 == 1 <==> s.loej)
  }

  lemma ShapeIsSaid(x: Exchange, s: Shape)
    ensures x.ask == StartStopAsk(s) ==> SaysShape(x, s)
    ensures x.ask == SENSE_ASK ==> !IsStartStop(x)
  {
  }

  /** So the requests on the log are the shapes sent, by their bytes. */
  lemma SaysSent(part: seq<Exchange>, sent: seq<Shape>, answers: seq<Answer>, shape: Shape)
    requires Climbed(part, sent, answers)
    ensures forall x | x in part && IsStartStop(x) :: exists s :: s in sent && SaysShape(x, s)
    ensures shape in sent ==> exists x :: x in part && SaysShape(x, shape)
  {
    OnlySent(part, sent, answers);
    forall x | x in part && IsStartStop(x)
      ensures exists s :: s in sent && SaysShape(x, s)
    {
      ShapeIsSaid(x, shape);
      var s :| s in sent && x.ask == StartStopAsk(s);
      ShapeIsSaid(x, s);
    }
    if shape in sent {
      IssuedIsSent(part, sent, answers, shape);
      var x :| x in part && x.ask == StartStopAsk(shape);
      ShapeIsSaid(x, shape);
    }
  }

  lemma LadderShapes(sent: seq<Shape>, answers: seq<Answer>)
    requires Ladder(sent, answers)
    ensures sent != [] && answers != [] && sent[0] == SPIN && forall s | s in sent :: s in {SPIN, BLOCKING, LOAD}
    ensures var again := answers[0].csw != 0 && answers[0].sense.key == 0x06;
      && (again ==> |answers| > 1)
      && var last := answers[if again then 1 else 0];
         var unknown := last.sense.key == 0x05 && last.sense.asc == 0x20;
         var field := last.sense.key == 0x05 && last.sense.asc == 0x24;
         var becoming := last.sense.key == 0x02 && last.sense.asc == 0x04;
         && (LOAD in sent <==> last.csw != 0 && !unknown && !becoming && !field)
         && (BLOCKING in sent <==> last.csw != 0 && field)
  {
    var plain := PlainOnes(answers);
    assert sent == sent[..plain] + sent[plain..];
    assert forall s | s in sent[..plain] :: s == SPIN;
  }

  /** Every START STOP UNIT on the log has START set, and the first IMMED too and LOEJ not.
      One has LOEJ set, which closes the tray, exactly when the last plain request met a
      refusal that is none of three: an unknown opcode, a drive becoming ready, an invalid
      CDB field. So also after 02h/3Ah/02h, with the tray open. One has IMMED clear exactly
      after the third. The plain request is repeated exactly after a UNIT ATTENTION. */
  lemma LoadIsIssued(part: seq<Exchange>, sent: seq<Shape>, answers: seq<Answer>)
    requires Climbed(part, sent, answers) && Ladder(sent, answers)
    ensures forall x | x in part && IsStartStop(x) :: x.ask.cdb[4] % 2 == 1
    ensures answers != [] && part != [] && IsStartStop(part[0])
    ensures part[0].ask.cdb[4] / 2 % 2 == 0 && part[0].ask.cdb[1] % 2 == 1
    ensures var again := answers[0].csw != 0 && answers[0].sense.key == 0x06;
      && (again ==> |answers| > 1)
      && var last := answers[if again then 1 else 0];
         var unknown := last.sense.key == 0x05 && last.sense.asc == 0x20;
         var field := last.sense.key == 0x05 && last.sense.asc == 0x24;
         var becoming := last.sense.key == 0x02 && last.sense.asc == 0x04;
         && ((exists x :: x in part && IsStartStop(x) && x.ask.cdb[4] / 2 % 2 == 1) <==>
               last.csw != 0 && !unknown && !becoming && !field)
         && ((exists x :: x in part && IsStartStop(x) && x.ask.cdb[1] % 2 == 0) <==> last.csw != 0 && field)
  {
    hide Climbed, Ladder, StartStopAsk;
    LadderShapes(sent, answers);
    SaysSent(part, sent, answers, LOAD);
    SaysSent(part, sent, answers, BLOCKING);
    FirstIsPlain(part, sent, answers);
    ShapeIsSaid(part[0], SPIN);
  }

  lemma FirstReplied(b: Device, a: Device, rc: Rc, shape: Shape, x: Exchange)
    requires Transacted(b, a, rc, x) && x.ask == StartStopAsk(shape)
    ensures StatusOf(x) == STATUS_FAIL as int ==> rc != Passed
    ensures StatusOf(x) != STATUS_FAIL as int ==> Replied([x], shape, Answer(StatusOf(x), NO_SENSE))
  {
  }

  lemma SecondReplied(shape: Shape, x: Exchange, y: Exchange)
    requires StatusOf(x) == STATUS_FAIL as int && x.ask == StartStopAsk(shape) && y.ask == SENSE_ASK
    ensures Replied([x] + [y], shape, Answer(StatusOf(x), SenseOf(y)))
  {
  }

  lemma BetweenNow(part: seq<Exchange>, lo: nat, hi: nat)
    requires forall x | x in part :: lo <= x.at <= hi
    ensures Between(part, lo, hi)
  {
  }

  method StartStopUnit(e: Entry, shape: Shape) returns (a: Answer, ghost part: seq<Exchange>)
    requires e.Valid()
    modifies e`dev, e`tag, e`serial, e`now, e`past, e`last
    ensures e.Valid() && e.now >= old(e.now) && e.Log() == old(e.Log()) + part
    ensures Replied(part, shape, a) && Between(part, old(e.now), e.now)
    ensures |part| == if a.csw == 0x01 then 2 else 1
  {
    hide Transacted, Replied, StatusOf, SenseOf, Between, Entry.Valid, Entry.Log;
    var rc, csw, actual := Send(e, StartStopAsk(shape).cdb, null, 0, 0, false, 0);
    part := [e.last];
    var s := NO_SENSE;
    FirstReplied(old(e.dev), e.dev, rc, shape, e.last);
    if rc != Passed && csw == STATUS_FAIL as int {
      s := RequestSense(e);
      SecondReplied(shape, part[0], e.last);
      part := part + [e.last];
    }
    a := Answer(csw, s);
    BetweenNow(part, old(e.now), e.now);
  }

  /** One more rung. */
  method Request(e: Entry, shape: Shape, ghost log: seq<Exchange>, ghost began: nat, ghost part: seq<Exchange>,
                 ghost sent: seq<Shape>, ghost answers: seq<Answer>)
    returns (a: Answer, ghost nowPart: seq<Exchange>, ghost nowSent: seq<Shape>, ghost nowAnswers: seq<Answer>)
    requires e.Valid() && e.Log() == log + part && Climbed(part, sent, answers)
    requires began <= e.now && Between(part, began, e.now)
    modifies e`dev, e`tag, e`serial, e`now, e`past, e`last
    ensures e.Valid() && e.now >= old(e.now) && e.Log() == log + nowPart
    ensures Climbed(nowPart, nowSent, nowAnswers) && Between(nowPart, began, e.now)
    ensures nowSent == sent + [shape] && nowAnswers == answers + [a]
  {
    hide *;
    ghost var tail;
    a, tail := StartStopUnit(e, shape);
    nowPart, nowSent, nowAnswers := part + tail, sent + [shape], answers + [a];
    ClimbedOneMore(part, sent, answers, tail, shape, a);
    LogGrows(log, part, tail, began, old(e.now), e.now);
  }

  lemma LogGrows(log: seq<Exchange>, part: seq<Exchange>, tail: seq<Exchange>, began: nat, asked: nat, now: nat)
    requires began <= asked <= now && Between(part, began, asked) && Between(tail, asked, now)
    ensures log + part + tail == log + (part + tail) && Between(part + tail, began, now)
  {
  }

  method SpinUpDrive(e: Entry) returns (ghost part: seq<Exchange>, ghost sent: seq<Shape>, ghost answers: seq<Answer>)
    requires e.Valid()
    modifies e`dev, e`tag, e`serial, e`now, e`past, e`last
    ensures e.Valid() && e.now >= old(e.now) && e.Log() == old(e.Log()) + part && Between(part, old(e.now), e.now)
    ensures Climbed(part, sent, answers) && Ladder(sent, answers)
  {
    hide Climbed, Between, Replied, Entry.Valid, Entry.Log;
    ClimbBegins(e.Log(), e.now);
    var a;
    a, part, sent, answers := Request(e, SPIN, e.Log(), e.now, [], [], []);
    if !Accepted(a) && UnitAttention(a.sense) {
      a, part, sent, answers := Request(e, SPIN, old(e.Log()), old(e.now), part, sent, answers);
    }
    if Accepted(a) {
      return;
    }
    if UnknownOpcode(a.sense) {
      return;
    }
    if BecomingReady(a.sense) {
      return;
    }
    if InvalidField(a.sense) {
      a, part, sent, answers := Request(e, BLOCKING, old(e.Log()), old(e.now), part, sent, answers);
      return;
    }
    a, part, sent, answers := Request(e, LOAD, old(e.Log()), old(e.now), part, sent, answers);
  }

  lemma ClimbBegins(log: seq<Exchange>, now: nat)
    ensures log == log + [] && Climbed([], [], []) && Between([], now, now)
  {
  }

  // --------------------------------------------------------------- the wait

  const TEST_UNIT_READY_ASK := Ask([0, 0, 0, 0, 0, 0], 0, false, false)
  const MEDIA_STATUS_ASK := Ask([0x4a, 0x01, 0, 0, 0x10, 0, 0, 0, 0x08, 0], 8, true, true)

  /** One TEST UNIT READY, the sense read after it, and the clock when they were weighed. */
  datatype Poll = Poll(rc: Rc, sense: Sense, clock: nat)

  function PollSize(p: Poll): nat {
    if p.rc.Passed? || p.rc.Absent? then 1 else 2
  }

  /** One poll on the log: TEST UNIT READY, and the sense of any failure but a missing
      device; not issued before `due`. */
  predicate Polled(part: seq<Exchange>, p: Poll, due: nat) {
    && |part| == PollSize(p) && part[0].ask == TEST_UNIT_READY_ASK && CodeMeans(p.rc, part[0])
    && (if |part| == 2 then part[1].ask == SENSE_ASK && p.sense == SenseOf(part[1]) else p.sense == NO_SENSE)
    && Between(part, due, p.clock)
  }

  /** How often the drive reported an event. */
  function Attentions(polls: seq<Poll>): nat {
    if polls == [] then 0
    else Attentions(polls[..|polls| - 1]) + if UnitAttention(polls[|polls| - 1].sense) then 1 else 0
  }

  /** An event is polled past at once, four times in all. */
  predicate AtOnce(polls: seq<Poll>) {
    polls != [] && UnitAttention(polls[|polls| - 1].sense) && Attentions(polls) <= MAX_UNIT_ATTENTIONS
  }

  /** When the next poll is due: the first once START STOP UNIT went out, at `since`. */
  function Due(polls: seq<Poll>, since: nat): nat {
    if polls == [] then since else polls[|polls| - 1].clock + if AtOnce(polls) then 0 else SPINUP_DELAY_MS
  }

  /** A part of a log is these polls, each when it was due, and nothing else. */
  predicate Waited(part: seq<Exchange>, polls: seq<Poll>, since: nat)
    decreases |polls|
  {
    if polls == [] then part == []
    else
      var n := |polls| - 1;
      && PollSize(polls[n]) <= |part|
      && var k := |part| - PollSize(polls[n]);
         Polled(part[k..], polls[n], Due(polls[..n], since)) && Waited(part[..k], polls[..n], since)
  }

  lemma WaitedOneMore(part: seq<Exchange>, polls: seq<Poll>, since: nat, tail: seq<Exchange>, p: Poll)
    requires Waited(part, polls, since) && Polled(tail, p, Due(polls, since))
    ensures Waited(part + tail, polls + [p], since)
  {
    assert (polls + [p])[..|polls|] == polls;
    assert (part + tail)[|part|..] == tail && (part + tail)[..|part|] == part;
  }

  /** The drive has said that it is becoming ready. */
  predicate SaysBecomingReady(polls: seq<Poll>) {
    polls != [] && (BecomingReady(polls[|polls| - 1].sense) || SaysBecomingReady(polls[..|polls| - 1]))
  }

  function Ceiling(becomingReady: bool): nat {
    if becomingReady then BECOMING_READY_MAX_WALL_MS else SPINUP_MAX_WALL_MS
  }

  /** Whether the wait goes on after a failed poll: not with the tray open, nor past the
      ceiling that its sense is under, except for the first events. */
  predicate MayHelp(p: Poll, atOnce: bool, becomingReady: bool, started: nat, since: nat) {
    if MediumNotPresent(p.sense) then p.sense.ascq != TRAY_OPEN && p.clock - since < NO_MEDIUM_MAX_WALL_MS
    else atOnce || p.clock - started < Ceiling(becomingReady)
  }

  predicate GoesOn(polls: seq<Poll>, started: nat, since: nat)
    requires polls != []
  {
    var p := polls[|polls| - 1];
    && !p.rc.Passed? && !p.rc.Absent?
    && MayHelp(p, AtOnce(polls), SaysBecomingReady(polls), started, since)
  }

  /** Every one of these polls left something to wait for. */
  predicate StillWaiting(polls: seq<Poll>, started: nat, since: nat) {
    polls == [] || (StillWaiting(polls[..|polls| - 1], started, since) && GoesOn(polls, started, since))
  }

  /** How often the wait slept. */
  function Sleeps(polls: seq<Poll>): nat {
    if polls == [] then 0 else Sleeps(polls[..|polls| - 1]) + if AtOnce(polls) then 0 else 1
  }

  lemma {:induction false} RetriesCounted(polls: seq<Poll>)
    ensures |polls| - Sleeps(polls) <= Attentions(polls)
    ensures |polls| - Sleeps(polls) <= MAX_UNIT_ATTENTIONS
  {
    if polls != [] {
      RetriesCounted(polls[..|polls| - 1]);
    }
  }

  lemma {:induction false} SleepsTakeTime(part: seq<Exchange>, polls: seq<Poll>, since: nat)
    requires Waited(part, polls, since)
    ensures Due(polls, since) >= since + SPINUP_DELAY_MS * Sleeps(polls)
  {
    if polls != [] {
      var n := |polls| - 1;
      var k := |part| - PollSize(polls[n]);
      SleepsTakeTime(part[..k], polls[..n], since);
      assert part[k..][0] in part[k..];
    }
  }

  lemma {:induction false} SleepsBounded(part: seq<Exchange>, polls: seq<Poll>, started: nat, since: nat)
    requires Waited(part, polls, since) && StillWaiting(polls, started, since) && started <= since
    ensures SPINUP_DELAY_MS * Sleeps(polls) < Ceiling(SaysBecomingReady(polls)) + SPINUP_DELAY_MS
  {
    if polls != [] {
      var n := |polls| - 1;
      var k := |part| - PollSize(polls[n]);
      SleepsBounded(part[..k], polls[..n], started, since);
      if !AtOnce(polls) {
        SleepsTakeTime(part[..k], polls[..n], since);
        assert part[k..][0] in part[k..];
        assert GoesOn(polls, started, since);
      }
    }
  }

  lemma {:induction false} WhatPollsSaid(polls: seq<Poll>)
    ensures SaysBecomingReady(polls) <==>
      exists i :: 0 <= i < |polls| && polls[i].sense.key == 0x02 && polls[i].sense.asc == 0x04
    ensures Attentions(polls) > 0 <==> exists i :: 0 <= i < |polls| && polls[i].sense.key == 0x06
  {
    if polls != [] {
      var n := |polls| - 1;
      WhatPollsSaid(polls[..n]);
      assert forall i | 0 <= i < n :: polls[..n][i] == polls[i];
    }
  }

  /** What ends a wait, by the sense and the clock of its last poll: an open tray at once,
      a missing medium four seconds after START STOP UNIT, and anything but one of the
      first four events after fifteen seconds, or thirty if the drive has ever said that it
      is becoming ready. */
  lemma WaitEnds(polls: seq<Poll>, started: nat, since: nat)
    requires polls != []
    ensures var p := polls[|polls| - 1];
      var said := exists i :: 0 <= i < |polls| && polls[i].sense.key == 0x02 && polls[i].sense.asc == 0x04;
      GoesOn(polls, started, since) <==>
        && !p.rc.Passed? && !p.rc.Absent?
        && (if p.sense.key == 0x02 && p.sense.asc == 0x3a then p.sense.ascq != 0x02 && p.clock - since < 4000
            else
              || (p.sense.key == 0x06 && Attentions(polls) <= 4)
              || p.clock - started < if said then 30000 else 15000)
  {
    WhatPollsSaid(polls);
  }

  /** Whatever the drive answers, a wait that goes on has polled at most 64 times: four
      times at once, and half a second apart under its ceilings. */
  lemma WaitIsBounded(part: seq<Exchange>, polls: seq<Poll>, started: nat, since: nat)
    requires Waited(part, polls, since) && StillWaiting(polls, started, since) && started <= since
    ensures |polls| <= MAX_UNIT_ATTENTIONS + Ceiling(SaysBecomingReady(polls)) / SPINUP_DELAY_MS <= 64
  {
    RetriesCounted(polls);
    SleepsBounded(part, polls, started, since);
  }

  method TestUnitReady(e: Entry) returns (rc: Rc)
    requires e.Valid()
    modifies e`dev, e`tag, e`serial, e`now, e`past, e`last
    ensures e.Valid() && e.now >= old(e.now) && e.Log() == old(e.Log()) + [e.last] && e.last.at == old(e.now)
    ensures e.last.ask == TEST_UNIT_READY_ASK && CodeMeans(rc, e.last)
    ensures e.last.ask.cdb == [0, 0, 0, 0, 0, 0] && !HasData(e.last.ask)
  {
    hide StatusOf, CodeMeans, Entry.Valid, Entry.Log, OwnStatus, Carries, Quiet, Ordered;
    var csw, actual;
    rc, csw, actual := Send(e, TEST_UNIT_READY_ASK.cdb, null, 0, 0, false, 0);
  }

  /** One poll, and when it was answered. */
  method PollUnit(e: Entry) returns (rc: Rc, s: Sense, ghost part: seq<Exchange>)
    requires e.Valid()
    modifies e`dev, e`tag, e`serial, e`now, e`past, e`last
    ensures e.Valid() && e.now >= old(e.now) && e.Log() == old(e.Log()) + part
    ensures forall clock | clock >= e.now :: Polled(part, Poll(rc, s, clock), old(e.now))
    ensures rc == Passed || rc == Absent ==> s == NO_SENSE
    ensures |part| == if rc == Passed || rc == Absent then 1 else 2
  {
    hide CodeMeans, SenseOf, Entry.Valid, Entry.Log;
    s := NO_SENSE;
    rc := TestUnitReady(e);
    part := [e.last];
    if rc != Passed && rc != Absent {
      s := RequestSense(e);
      part := part + [e.last];
    }
  }

  datatype Next = GiveUp | Wait | Again

  /** What a failed poll leads to; a wait has been slept through on return. */
  method Weigh(e: Entry, rc: Rc, s: Sense, becomingReady: bool, started: nat, noMediumSince: nat, unitAttentions: nat)
    returns (next: Next, attentions: nat, ghost clock: nat)
    requires started <= noMediumSince <= e.now
    modifies e`now
    ensures old(e.now) <= clock <= e.now
    ensures attentions == unitAttentions + if UnitAttention(s) then 1 else 0
    ensures var atOnce := UnitAttention(s) && attentions <= MAX_UNIT_ATTENTIONS;
      && (next.GiveUp? <==> !MayHelp(Poll(rc, s, clock), atOnce, becomingReady, started, noMediumSince))
      && (next.Again? <==> atOnce)
    ensures next.Wait? ==> e.now >= clock + SPINUP_DELAY_MS >= clock + 500
    ensures next.Again? ==> e.now == old(e.now)
  {
    attentions, clock := unitAttentions, e.now;
    if MediumNotPresent(s) {
      if s.ascq == TRAY_OPEN {
        next := GiveUp;
        return;
      }
      var noMediumMs := e.Clock();
      clock := noMediumMs;
      if noMediumMs - noMediumSince >= NO_MEDIUM_MAX_WALL_MS {
        next := GiveUp;
        return;
      }
      e.Sleep(SPINUP_DELAY_MS);
      next := Wait;
      return;
    }
    if UnitAttention(s) {
      attentions := unitAttentions + 1;
      if attentions <= MAX_UNIT_ATTENTIONS {
        next := Again;
        return;
      }
    }
    var elapsed := e.Clock();
    clock := elapsed;
    if elapsed - started >= Ceiling(becomingReady) {
      next := GiveUp;
      return;
    }
    e.Sleep(SPINUP_DELAY_MS);
    next := Wait;
  }

  /** GET EVENT STATUS NOTIFICATION, for the log of a wait given up without a medium. */
  method LogMediaStatus(e: Entry)
    requires e.Valid()
    modifies e`dev, e`tag, e`serial, e`now, e`past, e`last
    ensures e.Valid() && e.now >= old(e.now) && e.Log() == old(e.Log()) + [e.last]
    ensures e.last.ask == MEDIA_STATUS_ASK && e.last.ask.cdb == [0x4a, 1, 0, 0, 16, 0, 0, 0, 8, 0]
  {
    hide StatusOf, CodeMeans, Entry.Valid, Entry.Log, Transacted, Genuine;
    var buffer := new byte[8](_ => 0);
    var rc, csw, actual := Send(e, MEDIA_STATUS_ASK.cdb, buffer, 0, 8, true, 0);
  }

  /** START STOP UNIT as the ladder has it. */
  ghost predicate SpunUp(part: seq<Exchange>) {
    exists sent, answers :: Climbed(part, sent, answers) && Ladder(sent, answers)
  }

  lemma ClimbedIsSpunUp(part: seq<Exchange>, sent: seq<Shape>, answers: seq<Answer>, lo: nat, hi: nat, later: nat)
    requires Climbed(part, sent, answers) && Ladder(sent, answers) && Between(part, lo, hi) && hi <= later
    ensures SpunUp(part) && Between(part, lo, later)
  {
  }

  lemma NoSenseSaysNothing()
    ensures !MediumNotPresent(NO_SENSE) && !BecomingReady(NO_SENSE) && !UnitAttention(NO_SENSE)
    ensures NO_SENSE.key != 0x02
  {
  }

  lemma NoMediumMeans(s: Sense)
    ensures MediumNotPresent(s) <==> s.key == 0x02 && s.asc == 0x3a
  {
  }

  lemma WaitBegins(log: seq<Exchange>, climb: seq<Exchange>, started: nat, since: nat)
    ensures log + climb == log + climb + [] && Waited([], [], since) && StillWaiting([], started, since)
    ensures !SaysBecomingReady([]) && Attentions([]) == 0 && Due([], since) == since
  {
  }

  /** One more poll, and what the loop's variables are worth then. */
  lemma OneMorePoll(log: seq<Exchange>, part: seq<Exchange>, polls: seq<Poll>, since: nat, tail: seq<Exchange>, p: Poll,
                    began: nat)
    requires Waited(part, polls, since) && Due(polls, since) <= began && Polled(tail, p, began)
    ensures log + part + tail == log + (part + tail) && Waited(part + tail, polls + [p], since)
    ensures (polls + [p])[..|polls|] == polls && (polls + [p])[|polls|] == p
    ensures SaysBecomingReady(polls + [p]) <==> BecomingReady(p.sense) || SaysBecomingReady(polls)
    ensures Attentions(polls + [p]) == Attentions(polls) + if UnitAttention(p.sense) then 1 else 0
    ensures AtOnce(polls + [p]) <==> UnitAttention(p.sense) && Attentions(polls + [p]) <= MAX_UNIT_ATTENTIONS
    ensures Due(polls + [p], since) == p.clock + if AtOnce(polls + [p]) then 0 else SPINUP_DELAY_MS
    ensures !p.rc.Passed? && !p.rc.Absent? ==> forall started: nat ::
      GoesOn(polls + [p], started, since)
      <==> MayHelp(p, AtOnce(polls + [p]), SaysBecomingReady(polls + [p]), started, since)
    ensures p.rc.Passed? || p.rc.Absent? ==> forall started: nat :: !GoesOn(polls + [p], started, since)
    ensures forall started: nat :: StillWaiting(polls, started, since) && GoesOn(polls + [p], started, since) ==>
      StillWaiting(polls + [p], started, since)
  {
    assert (polls + [p])[..|polls|] == polls;
    assert Polled(tail, p, Due(polls, since));
    WaitedOneMore(part, polls, since, tail, p);
  }

  /** Wakes the drive and waits for its medium. `climb`, `part` and `tail` are what it
      adds to the log, `polls` what `part` says; `started` and `since` are when it began,
      and when START STOP UNIT had gone out. */
  method WaitUntilReady(e: Entry)
    returns (ghost climb: seq<Exchange>, ghost part: seq<Exchange>, ghost tail: seq<Exchange>, ghost polls: seq<Poll>,
             ghost started: nat, ghost since: nat)
    requires e.Valid()
    modifies e`dev, e`tag, e`serial, e`now, e`past, e`last, e`notReady
    ensures e.Valid() && e.Log() == old(e.Log()) + climb + part + tail
    ensures old(e.now) <= started <= since <= e.now
    // It wakes the drive, and then polls until a poll leaves nothing to wait for; that
    // one is the first.
    ensures SpunUp(climb) && Between(climb, started, since) && Waited(part, polls, since)
    ensures polls != [] && polls[|polls| - 1].clock <= e.now
    ensures StillWaiting(polls[..|polls| - 1], started, since) && !GoesOn(polls, started, since)
    ensures |polls| <= 65
    // It says truly whether the drive became ready.
    ensures !e.notReady <==> polls[|polls| - 1].rc.Passed?
    ensures if polls[|polls| - 1].sense.key == 0x02 && polls[|polls| - 1].sense.asc == 0x3a then
        |tail| == 1 && tail[0].ask == MEDIA_STATUS_ASK
      else
        tail == []
  {
    hide *;
    var begun := e.Clock();
    ghost var sent, answers;
    climb, sent, answers := SpinUpDrive(e);
    ghost var climbed := e.now;
    var noMediumSince := e.Clock();
    started, since := begun, noMediumSince;
    ClimbedIsSpunUp(climb, sent, answers, started, climbed, since);
    WaitBegins(old(e.Log()), climb, started, since);
    NoSenseSaysNothing();
    e.notReady := true;
    var becomingReady, unitAttentions := false, 0;
    part, polls, tail := [], [], [];
    ghost var log := e.Log();
    while true
      invariant e.Valid() && e.notReady && e.Log() == log + part
      invariant Waited(part, polls, since) && StillWaiting(polls, started, since)
      invariant Due(polls, since) <= e.now && since <= e.now
      invariant becomingReady == SaysBecomingReady(polls) && unitAttentions == Attentions(polls)
      decreases 65 - |polls|
    {
      WaitIsBounded(part, polls, started, since);
      ghost var asked, before := e.now, polls;
      var rc, s;
      ghost var more;
      rc, s, more := PollUnit(e);
      if rc == Passed || rc == Absent {
        OneMorePoll(log, part, polls, since, more, Poll(rc, NO_SENSE, e.now), asked);
        part, polls := part + more, polls + [Poll(rc, NO_SENSE, e.now)];
        if rc == Passed {
          e.notReady := false;
        }
        return;
      }
      if BecomingReady(s) {
        becomingReady := true;
      }
      var next;
      ghost var clock;
      next, unitAttentions, clock := Weigh(e, rc, s, becomingReady, begun, noMediumSince, unitAttentions);
      OneMorePoll(log, part, polls, since, more, Poll(rc, s, clock), asked);
      part, polls := part + more, polls + [Poll(rc, s, clock)];
      if next == GiveUp {
        NoMediumMeans(s);
        if MediumNotPresent(s) {
          LogMediaStatus(e);
          tail := [e.last];
        }
        return;
      }
    }
  }

  /** laser_token_settle(): what it adds to the log; `climb`, `wait` and `tail` are those of
      the wait, if there is one. A drive that answers ready at once leaves `notReady` as
      it was. */
  method Settle(e: Entry)
    returns (ghost part: seq<Exchange>, ghost climb: seq<Exchange>, ghost wait: seq<Exchange>,
             ghost tail: seq<Exchange>, ghost polls: seq<Poll>, ghost started: nat, ghost since: nat)
    requires e.Valid()
    modifies e`dev, e`tag, e`serial, e`now, e`past, e`last, e`notReady, e`cancelled
    ensures e.Valid() && e.Log() == old(e.Log()) + part
    ensures old(e.cancelled) || e.deviceGone ==> part == []
    ensures part == [] ==> e.cancelled || e.deviceGone
    ensures part != [] ==> part[0].ask == TEST_UNIT_READY_ASK
    // Only a drive that says it is not ready is woken and waited for.
    ensures part != [] ==> (|part| == 1 <==> CodeMeans(Passed, part[0]) || CodeMeans(Absent, part[0]))
    ensures |part| <= 1 ==> e.notReady == old(e.notReady)
    // And then all that follows on the log is the waking and the wait.
    ensures |part| > 1 ==>
      && part == [part[0]] + (climb + wait + tail)
      && old(e.now) <= part[0].at <= started <= since <= e.now
      && SpunUp(climb) && Between(climb, started, since) && Waited(wait, polls, since)
      && 0 < |polls| <= 65 && polls[|polls| - 1].clock <= e.now
      && StillWaiting(polls[..|polls| - 1], started, since) && !GoesOn(polls, started, since)
      && (!e.notReady <==> polls[|polls| - 1].rc.Passed?)
      && (if polls[|polls| - 1].sense.key == 0x02 && polls[|polls| - 1].sense.asc == 0x3a then
            |tail| == 1 && tail[0].ask == MEDIA_STATUS_ASK
          else
            tail == [])
  {
    hide *;
    part, climb, wait, tail, polls, started, since := [], [], [], [], [], 0, 0;
    var cancelled := IsCancelled(e);
    if e.deviceGone || cancelled {
      assert e.Log() == old(e.Log()) + [];
      return;
    }
    var rc := TestUnitReady(e);
    part := [e.last];
    CodesDiffer(rc, part[0]);
    if rc == Passed || rc == Absent {
      return;
    }
    climb, wait, tail, polls, started, since := WaitUntilReady(e);
    WaitAdds(old(e.Log()), part, climb, wait, tail, polls, since);
    part := part + (climb + wait + tail);
  }

  lemma CodesDiffer(rc: Rc, x: Exchange)
    requires CodeMeans(rc, x)
    ensures rc == Passed <==> CodeMeans(Passed, x)
    ensures rc == Absent <==> CodeMeans(Absent, x)
  {
  }

  lemma WaitAdds(log: seq<Exchange>, part: seq<Exchange>, climb: seq<Exchange>, wait: seq<Exchange>,
                 tail: seq<Exchange>, polls: seq<Poll>, since: nat)
    requires Waited(wait, polls, since) && polls != []
    ensures log + part + climb + wait + tail == log + (part + (climb + wait + tail))
    ensures |wait| >= 1
  {
  }
}
