/** What the log of a handle says about the attempts at a command. */
module Records {
  import opened Bytes
  import opened Bot
  import opened Exchanges
  import opened Retry
  import opened UsbDevice
  import opened Wrappers

  const REQUEST_SENSE_CDB: seq<byte> := [0x03, 0, 0, 0, 0x18, 0]
  const SENSE_LEN: nat := 24
  const SENSE_ASK := Ask(REQUEST_SENSE_CDB, SENSE_LEN, true, true)

  /** The sense a REQUEST SENSE brought: none unless it passed with 14 bytes or more. */
  function SenseOf(x: Exchange): Sense {
    if CodeMeans(Passed, x) && 14 <= ActualOf(x) && 14 <= |Landed(x)|
    then Sense(Landed(x)[2] % 16, Landed(x)[12], Landed(x)[13])
    else NO_SENSE
  }

  /** Fixed-format sense data as a drive lays it out (SPC-3, section 4.5.3). What the host
      does not look at is kept as bytes: the response code, the segment number, the high
      half of byte 2, the information, the length, the command-specific bytes, and what
      lies behind the qualifier. */
  datatype Layout = Layout(response: byte, segment: byte, flags: nat, information: seq<byte>, length: byte,
                           specific: seq<byte>, behind: seq<byte>)

  predicate Fits(s: Sense, l: Layout) {
    s.key < 16 && l.flags < 16 && |l.information| == 4 && |l.specific| == 4
  }

  function FixedFormat(s: Sense, l: Layout): (b: seq<byte>)
    requires Fits(s, l)
  {
    [l.response, l.segment, l.flags * 16 + s.key as int] + l.information + [l.length] + l.specific + [s.asc, s.ascq]
    + l.behind
  }

  /** Whatever else it holds, the sense a drive reports is the sense that is read. */
  lemma SenseReadsBack(x: Exchange, s: Sense, l: Layout)
    requires CodeMeans(Passed, x) && Fits(s, l) && Landed(x) == FixedFormat(s, l) && ActualOf(x) >= 14
    ensures SenseOf(x) == s
  {
    var b := FixedFormat(s, l);
    assert b[2] == l.flags * 16 + s.key as int && b[12] == s.asc && b[13] == s.ascq;
  }

  /** A REQUEST SENSE that failed, or counts fewer bytes than reach the qualifier, says
      nothing, whatever lies in the buffer: FFh/00h/00h is no sense a drive can report. */
  lemma ShortSenseSaysNothing(x: Exchange)
    requires !CodeMeans(Passed, x) || ActualOf(x) < 14
    ensures SenseOf(x) == Sense(0xff, 0, 0)
  {
  }

  predicate CheckCondition(x: Exchange) {
    CodeMeans(Failed, x) && StatusOf(x) == STATUS_FAIL as int
  }

  /** The part of a log that is one attempt: the command, and after CHECK CONDITION,
      and only then, a REQUEST SENSE. */
  predicate Tried(part: seq<Exchange>, ask: Ask, rc: Rc, s: Sense) {
    && part != [] && part[0].ask == ask && CodeMeans(rc, part[0])
    && (if CheckCondition(part[0]) then |part| == 2 && part[1].ask == SENSE_ASK && s == SenseOf(part[1])
        else |part| == 1 && s == NO_SENSE)
  }

  /** The last `k` exchanges of a log are round `r`. */
  predicate EndsIn(part: seq<Exchange>, ask: Ask, r: Round, k: nat) {
    && 0 < k <= |part|
    && Tried(part[|part| - k..], ask, r.rc, r.sense)
    && r.taken == part[|part| - k].heard
  }

  /** A part of a log is these rounds of a command, and nothing else. */
  predicate Recorded(part: seq<Exchange>, ask: Ask, rounds: seq<Round>)
    decreases |rounds|
  {
    if rounds == [] then part == []
    else
      var n := |rounds| - 1;
      || (EndsIn(part, ask, rounds[n], 1) && Recorded(part[..|part| - 1], ask, rounds[..n]))
      || (EndsIn(part, ask, rounds[n], 2) && Recorded(part[..|part| - 2], ask, rounds[..n]))
  }

  lemma RecordedOneMore(part: seq<Exchange>, ask: Ask, rounds: seq<Round>, tail: seq<Exchange>, r: Round)
    requires Recorded(part, ask, rounds) && Tried(tail, ask, r.rc, r.sense) && r.taken == tail[0].heard
    ensures Recorded(part + tail, ask, rounds + [r])
  {
    var all := part + tail;
    assert (rounds + [r])[..|rounds|] == rounds;
    assert all[|all| - |tail|..] == tail && all[..|all| - |tail|] == part;
    assert EndsIn(all, ask, r, |tail|);
  }

  /** Counted in rounds or in exchanges, deliveries are the same. */
  lemma {:induction false} DeliveredIsTaken(part: seq<Exchange>, ask: Ask, rounds: seq<Round>)
    requires Recorded(part, ask, rounds) && ask != SENSE_ASK
    ensures TakenFor(part, ask) == Delivered(rounds)
    decreases |rounds|
  {
    hide Tried;
    if rounds != [] {
      var n := |rounds| - 1;
      var k := if EndsIn(part, ask, rounds[n], 1) && Recorded(part[..|part| - 1], ask, rounds[..n]) then 1 else 2;
      var before, tail := part[..|part| - k], part[|part| - k..];
      DeliveredIsTaken(before, ask, rounds[..n]);
      assert part == before + tail;
      TakenForBoth(before, tail, ask);
      TakenInTried(tail, ask, rounds[n]);
    }
  }

  lemma TakenInTried(tail: seq<Exchange>, ask: Ask, r: Round)
    requires Tried(tail, ask, r.rc, r.sense) && ask != SENSE_ASK
    ensures TakenFor(tail, ask) == if tail[0].heard then 1 else 0
  {
    hide CodeMeans, SenseOf, CheckCondition;
    TakenForOneMore([], tail[0], ask);
    assert [] + [tail[0]] == [tail[0]];
    if |tail| == 2 {
      TakenForOneMore([tail[0]], tail[1], ask);
      assert [tail[0]] + [tail[1]] == tail;
    } else {
      assert tail == [tail[0]];
    }
  }

  /** Rounds that went well, and the log ends with the one that did. */
  lemma LastPassed(part: seq<Exchange>, ask: Ask, rounds: seq<Round>)
    requires Recorded(part, ask, rounds) && rounds != [] && rounds[|rounds| - 1].rc.Passed?
    ensures part != [] && part[|part| - 1].ask == ask && CodeMeans(Passed, part[|part| - 1])
  {
  }
}
