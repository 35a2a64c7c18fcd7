/** Chunked block reads over the retrying command, with the transfer size
    negotiated on the way. */
module Reads {
  import opened Bytes
  import opened Bot
  import opened Chunks
  import opened Css
  import opened Discs
  import opened Entries
  import opened Exchanges
  import opened Records
  import Retry
  import opened Scsi
  import opened UsbDevice
  import opened Wrappers

  /** What is to be seen of an entry: its log, flags that are never lowered, and its
      device. */
  datatype Seen = Nothing | Seen(log: seq<Exchange>, cancelled: bool, gone: bool, dev: Device)

  ghost function Look(e: Entry?): Seen
    reads (if e == null then {} else {e})`past, (if e == null then {} else {e})`last
    reads (if e == null then {} else {e})`cancelled, (if e == null then {} else {e})`deviceGone
    reads (if e == null then {} else {e})`dev
  {
    if e == null then Nothing else Seen(e.Log(), e.cancelled, e.deviceGone, e.dev)
  }

  function CapOf(e: Entry?): nat
    reads (if e == null then {} else {e})`maxTransferBytes
  {
    if e == null then MAX_BYTES_PER_TRANSFER else e.maxTransferBytes
  }

  lemma LookIs(e: Entry?)
    ensures Look(e) == if e == null then Nothing else Seen(e.Log(), e.cancelled, e.deviceGone, e.dev)
  {
  }

  lemma CapBounds(e: Entry?)
    requires e != null ==> e.Valid()
    ensures MIN_BYTES_PER_TRANSFER <= CapOf(e) <= MAX_BYTES_PER_TRANSFER
  {
  }

  /** A later look at the same entry. */
  predicate Later(a: Seen, b: Seen) {
    if a.Nothing? then b.Nothing?
    else
      && b.Seen? && a.log <= b.log && (a.cancelled ==> b.cancelled) && (a.gone ==> b.gone)
      && Answering(a.dev, b.dev, b.log[|a.log|..])
  }

  lemma LogGrew(a: Seen, b: Seen)
    requires Later(a, b)
    ensures a.Seen? ==> b.Seen? && |a.log| <= |b.log|
  {
  }

  lemma LaterBy(a: Seen, b: Seen, part: seq<Exchange>)
    requires a.Seen? && b.Seen? && b.log == a.log + part
    requires (b.cancelled || !a.cancelled) && (b.gone || !a.gone) && Answering(a.dev, b.dev, part)
    ensures Later(a, b)
  {
    assert b.log[|a.log|..] == part;
  }

  lemma LaterStill(a: Seen, b: Seen, c: Seen)
    requires Later(a, b) && Later(b, c)
    ensures Later(a, c)
  {
    if a.Seen? {
      assert c.log[|a.log|..] == b.log[|a.log|..] + c.log[|b.log|..];
      AnsweringBoth(a.dev, b.dev, c.dev, b.log[|a.log|..], c.log[|b.log|..]);
    }
  }

  /** What other threads on the same drive may do while this one holds no lock:
      run commands of their own, lower the transfer cap, drop the last claim. The
      disc stays the same. */
  method OtherThreads(e: Entry)
    requires e.Valid()
    modifies e
    ensures e.Valid() && Later(old(Look(e)), Look(e))
    ensures e.maxTransferBytes <= old(e.maxTransferBytes)
  {
    var n :| 0 <= n;
    hide *;
    Unchanged(Look(e));
    for i := 0 to n
      invariant e.Valid() && Later(old(Look(e)), Look(e)) && e.maxTransferBytes == old(e.maxTransferBytes)
    {
      ghost var before := Look(e);
      OneCommand(e);
      LaterStill(old(Look(e)), before, Look(e));
    }
    ghost var before := Look(e);
    DropOrLower(e);
    LaterStill(old(Look(e)), before, Look(e));
  }

  lemma Unchanged(s: Seen)
    ensures Later(s, s)
  {
  }

  /** Some command of another thread. */
  method OneCommand(e: Entry)
    requires e.Valid()
    modifies e
    ensures e.Valid() && Later(old(Look(e)), Look(e)) && e.maxTransferBytes == old(e.maxTransferBytes)
  {
    var cdb: seq<byte>, len: nat, dataIn: bool := *, *, *;
    var data := new byte[len](_ => 0);
    var st, actual;
    ghost var part, rounds;
    st, actual, part, rounds := Command(e, cdb, data, 0, len, dataIn, 0);
    LaterBy(old(Look(e)), Look(e), part);
  }

  method DropOrLower(e: Entry)
    requires e.Valid()
    modifies e`maxTransferBytes, e`cancelled
    ensures e.Valid() && Later(old(Look(e)), Look(e))
    ensures e.maxTransferBytes <= old(e.maxTransferBytes)
  {
    var lowered: int := *;
    if MIN_BYTES_PER_TRANSFER <= lowered < e.maxTransferBytes {
      e.maxTransferBytes := lowered;
    }
    var dropped: bool := *;
    if dropped {
      e.cancelled := true;
    }
  }

  /** Lowers this device's transfer cap to `bytes`, if it is above that. */
  method LowerTransferCap(e: Entry, bytes: nat)
    requires e.Valid() && MIN_BYTES_PER_TRANSFER <= bytes
    modifies e`maxTransferBytes
    ensures e.Valid()
    ensures e.maxTransferBytes == if bytes < old(e.maxTransferBytes) then bytes else old(e.maxTransferBytes)
  {
    if bytes < e.maxTransferBytes {
      e.maxTransferBytes := bytes;
    }
  }

  // ------------------------------------------- the commands of a read, on the log

  /** Where on the log a command of this read is, the rounds it took, and whether it
      began on a drive that had not become ready. */
  datatype Made = Made(at: nat, part: seq<Exchange>, rounds: seq<Retry.Round>, notReady: bool)

  /** All that is believed of a device, whatever failed, stalled or was retried: when the
      transactions of these commands that passed began, it owed the host no answer to a
      reset or clear-halt, and they are honest. That it was in step with the host then is
      what the transactions before them saw to. */
  ghost predicate Trusted(part: seq<Exchange>, m: Medium) {
    forall x | x in part && CodeMeans(Passed, x) :: !x.defied && Honest(x, DiscOf(m))
  }

  ghost predicate Faithful(made: seq<Made>, m: Medium) {
    forall k | 0 <= k < |made| :: Trusted(made[k].part, m)
  }

  lemma FaithfulOneMore(made: seq<Made>, more: Made, m: Medium)
    ensures Faithful(made + [more], m) <==> Faithful(made, m) && Trusted(more.part, m)
  {
    hide Trusted;
    assert forall k | 0 <= k < |made| :: (made + [more])[k] == made[k];
    assert (made + [more])[|made|] == more;
  }

  /** Honest, whatever was unanswered. */
  ghost predicate Sincere(made: seq<Made>, m: Medium) {
    forall k, x | 0 <= k < |made| && x in made[k].part :: Honest(x, DiscOf(m))
  }

  function ReadAsk(v: View, at: nat, chunk: nat): Ask {
    AskFor(Build(v, at % TWO32, chunk), Span(chunk, UnitSize(v)), true, true)
  }

  /** The command was issued for `ask`, and answered as it says: its part of the log is
      these rounds, and they end in its status; one that went well counts what its last
      transaction did. A token that no entry has gets no command through. */
  ghost predicate Backed(s: Seen, ask: Ask, c: Cmd, made: Made) {
    if s.Nothing? then c == Cmd(MAX_BYTES_PER_TRANSFER, NoSuchToken, 0)
    else
      && made.at + |made.part| <= |s.log| && s.log[made.at..made.at + |made.part|] == made.part
      && Recorded(made.part, ask, made.rounds) && Began(made.part, made.notReady)
      && c.status != Invalid && Answered(true, made.notReady, made.rounds, c.status, s.cancelled)
      && (c.status == LaserStatus.NoDevice ==> s.gone)
      && (c.status == OK ==> made.part != [] && c.actual == ActualOf(made.part[|made.part| - 1]))
  }

  lemma BackedStill(a: Seen, b: Seen, ask: Ask, c: Cmd, made: Made)
    requires Later(a, b) && Backed(a, ask, c, made)
    ensures Backed(b, ask, c, made)
  {
    hide Recorded, ActualOf;
    if a.Seen? {
      assert b.log[..|a.log|] == a.log;
      assert b.log[made.at..made.at + |made.part|] == a.log[made.at..made.at + |made.part|];
    }
  }

  /** Where on the log the next command can start. */
  function EndOf(made: seq<Made>, from: nat): nat {
    if made == [] then from else made[|made| - 1].at + |made[|made| - 1].part|
  }

  /** Every command of a read is on the log, each behind the one before, and asks for the
      next chunk as the negotiation sizes it. */
  ghost predicate Drawn(s: Seen, cap: nat, from: nat, lba: nat, v: View, num: nat, cmds: seq<Cmd>, made: seq<Made>)
    decreases |cmds|
  {
    && |made| == |cmds|
    && (cmds == [] ||
        var q, k := Request(num, UnitSize(v)), |cmds| - 1;
        var p := Replay(q, cmds[..k]);
        && Drawn(s, cap, from, lba, v, num, cmds[..k], made[..k])
        && p.Going? && p.n.done < num
        && cmds[k].cap <= cap && (s.Seen? ==> EndOf(made[..k], from) <= made[k].at)
        && Backed(s, ReadAsk(v, lba + p.n.done, Chunk(q, p.n, cmds[k].cap)), cmds[k], made[k]))
  }

  lemma {:induction false} DrawnStill(a: Seen, b: Seen, cap: nat, from: nat, lba: nat, v: View, num: nat,
                                      cmds: seq<Cmd>, made: seq<Made>)
    requires Later(a, b) && Drawn(a, cap, from, lba, v, num, cmds, made)
    ensures Drawn(b, cap, from, lba, v, num, cmds, made)
    decreases |cmds|
  {
    hide Backed, ReadAsk, Chunk, Step;
    if cmds != [] {
      var q, k := Request(num, UnitSize(v)), |cmds| - 1;
      var n := Replay(q, cmds[..k]).n;
      DrawnStill(a, b, cap, from, lba, v, num, cmds[..k], made[..k]);
      BackedStill(a, b, ReadAsk(v, lba + n.done, Chunk(q, n, cmds[k].cap)), cmds[k], made[k]);
    }
  }

  lemma DrawnOneMore(s: Seen, cap: nat, from: nat, lba: nat, v: View, num: nat, cmds: seq<Cmd>, made: seq<Made>,
                     n: Nego, c: Cmd, more: Made)
    requires Drawn(s, cap, from, lba, v, num, cmds, made) && Replay(Request(num, UnitSize(v)), cmds) == Going(n)
    requires n.done < num && c.cap <= cap && (s.Seen? ==> EndOf(made, from) <= more.at)
    requires Backed(s, ReadAsk(v, lba + n.done, Chunk(Request(num, UnitSize(v)), n, c.cap)), c, more)
    ensures Drawn(s, cap, from, lba, v, num, cmds + [c], made + [more])
  {
    hide Backed, ReadAsk, Chunk, Step;
    assert (cmds + [c])[..|cmds|] == cmds && (made + [more])[..|made|] == made;
  }

  lemma OnLog(s: Seen, ask: Ask, c: Cmd, made: Made)
    requires s.Seen? && Backed(s, ask, c, made)
    ensures made.at + |made.part| <= |s.log| && s.log[made.at..made.at + |made.part|] == made.part
  {
  }

  /** All that the commands of a read put on the log lies behind `from`. */
  lemma {:induction false} DrawnBehind(s: Seen, cap: nat, from: nat, lba: nat, v: View, num: nat, cmds: seq<Cmd>,
                                       made: seq<Made>)
    requires s.Seen? && Drawn(s, cap, from, lba, v, num, cmds, made) && from <= |s.log|
    ensures EndOf(made, from) >= from
    ensures forall k, x | 0 <= k < |made| && x in made[k].part :: x in s.log[from..]
    decreases |cmds|
  {
    hide Recorded, Answered, ReadAsk, Chunk, Step, ActualOf, Replay, Backed;
    if cmds != [] {
      var n := |cmds| - 1;
      DrawnBehind(s, cap, from, lba, v, num, cmds[..n], made[..n]);
      var q, p := Request(num, UnitSize(v)), Replay(Request(num, UnitSize(v)), cmds[..n]).n;
      OnLog(s, ReadAsk(v, lba + p.done, Chunk(q, p, cmds[n].cap)), cmds[n], made[n]);
      forall k, x | 0 <= k < |made| && x in made[k].part
        ensures x in s.log[from..]
      {
        if k < n {
          assert made[..n][k] == made[k];
        } else {
          var i :| 0 <= i < |made[n].part| && made[n].part[i] == x;
          assert s.log[from..][made[n].at + i - from] == s.log[made[n].at..made[n].at + |made[n].part|][i];
        }
      }
    }
  }

  /** So a device that owed the host nothing, and answers what it is asked meanwhile, is
      faithful if it is honest: it was in step whenever a transaction of these began. */
  lemma SincereIsFaithful(a: Seen, s: Seen, cap: nat, lba: nat, v: View, num: nat, cmds: seq<Cmd>, made: seq<Made>,
                          m: Medium)
    requires Later(a, s) && s.Seen? && Drawn(s, cap, |a.log|, lba, v, num, cmds, made)
    requires !a.dev.defiant && s.dev.unanswered == a.dev.unanswered && Sincere(made, m)
    ensures Faithful(made, m)
  {
    hide Drawn, Honest, CodeMeans;
    DrawnBehind(s, cap, |a.log|, lba, v, num, cmds, made);
  }

  lemma EndIsOnLog(s: Seen, cap: nat, from: nat, lba: nat, v: View, num: nat, cmds: seq<Cmd>, made: seq<Made>)
    requires Drawn(s, cap, from, lba, v, num, cmds, made) && (s.Seen? ==> from <= |s.log|)
    ensures s.Seen? ==> EndOf(made, from) <= |s.log|
  {
  }

  // ------------------------------------------------------------ blocks in a buffer

  /** Block `i` of a buffer is block `lba + i` of the disc. */
  ghost predicate BlockAt(s: seq<byte>, i: nat, m: Medium, v: View, lba: nat) {
    && Span(i + 1, UnitSize(v)) <= |s|
    && s[Span(i, UnitSize(v))..Span(i + 1, UnitSize(v))] == Units(m, v, lba + i, 1)
  }

  /** The first `blocks` blocks of a buffer are those of the disc from `lba`. */
  ghost predicate Holds(s: seq<byte>, blocks: nat, m: Medium, v: View, lba: nat) {
    forall i | 0 <= i < blocks :: BlockAt(s, i, m, v, lba)
  }

  /** Block by block or all at once, it is the same bytes. */
  lemma {:induction false} HoldsAll(s: seq<byte>, blocks: nat, m: Medium, v: View, lba: nat)
    requires Span(blocks, UnitSize(v)) <= |s|
    ensures Holds(s, blocks, m, v, lba) <==> s[..Span(blocks, UnitSize(v))] == Units(m, v, lba, blocks)
  {
    var size := UnitSize(v);
    if blocks > 0 {
      var most, last := blocks - 1, s[Span(blocks - 1, size)..Span(blocks, size)];
      SpanMonotone(most, blocks, size);
      HoldsAll(s, most, m, v, lba);
      UnitsConcat(m, v, lba, most, 1);
      assert s[..Span(blocks, size)] == s[..Span(most, size)] + last;
      assert |last| == |Units(m, v, lba + most, 1)|;
      assert Holds(s, blocks, m, v, lba) <==> Holds(s, most, m, v, lba) && BlockAt(s, most, m, v, lba);
    }
  }

  /** Bytes that stay keep their blocks. */
  lemma StillHolds(s: seq<byte>, t: seq<byte>, blocks: nat, m: Medium, v: View, lba: nat)
    requires |s| == |t| && Span(blocks, UnitSize(v)) <= |s|
    requires s[..Span(blocks, UnitSize(v))] == t[..Span(blocks, UnitSize(v))]
    requires Holds(s, blocks, m, v, lba)
    ensures Holds(t, blocks, m, v, lba)
  {
    HoldsAll(s, blocks, m, v, lba);
    HoldsAll(t, blocks, m, v, lba);
  }

  // ------------------------------------------------------- one command of a read

  /** The arguments of a read make sense, and it may be repeated. */
  lemma ReadMayRepeat(v: View, at: nat, chunk: nat)
    ensures var cdb := Build(v, at % TWO32, chunk);
      && BadArguments(cdb, true, Span(chunk, UnitSize(v))) == None && !ChangesCssState(cdb)
      && Idempotent(cdb, Span(chunk, UnitSize(v)), true)
  {
  }

  /** What Command says of a read backs it. */
  lemma CommandBacks(s: Seen, before: seq<Exchange>, last: Exchange, ask: Ask, c: Cmd, made: Made)
    requires s.Seen? && s.log == before + made.part && made.at == |before| && s.log != []
    requires last == s.log[|s.log| - 1]
    requires Recorded(made.part, ask, made.rounds) && Answered(true, made.notReady, made.rounds, c.status, s.cancelled)
    requires c.status != Invalid && (c.status == LaserStatus.NoDevice ==> s.gone) && Began(made.part, made.notReady)
    requires c.status == OK ==> c.actual == ActualOf(last)
    ensures Backed(s, ask, c, made)
    ensures c.status == OK ==> last.ask == ask && last in made.part && CodeMeans(Passed, last)
  {
    hide Recorded, EndsAs, ActualOf, CodeMeans;
    assert s.log[made.at..made.at + |made.part|] == made.part;
    if c.status == OK {
      LastPassed(made.part, ask, made.rounds);
      assert made.part[|made.part| - 1] == last;
    }
  }

  /** What a faithful device sent for a chunk is that chunk of the disc. */
  lemma CountedIsTheChunk(d: Device, x: Exchange, m: Medium, counted: seq<byte>, v: View, at: nat, chunk: nat)
    requires Genuine(d, x, DiscOf(m), counted) && !x.defied && Honest(x, DiscOf(m))
    requires x.ask == ReadAsk(v, at, chunk) && at < TWO32 && chunk < 0x1_0000
    ensures counted <= Units(m, v, at, chunk)
  {
    hide Honest, Build, Units, Landed, ActualOf, IsRead;
    AskedOfBuild(m, v, at, chunk);
  }

  /** One command of a read: `chunk` blocks, `done` blocks into the buffer. */
  method ReadChunk(e: Entry?, lba: nat, done: nat, chunk: nat, v: View, buffer: array<byte>, ghost m: Medium)
    returns (st: LaserStatus, actual: nat, ghost made: Made)
    requires e != null ==> e.Valid() && e.disc == DiscOf(m)
    requires lba < TWO32 && 1 <= chunk < 0x1_0000
    requires Span(done + chunk, UnitSize(v)) <= buffer.Length
    modifies e, buffer
    ensures e != null ==> e.Valid() && e.maxTransferBytes == old(e.maxTransferBytes)
    ensures Later(old(Look(e)), Look(e))
    ensures Backed(Look(e), ReadAsk(v, lba + done, chunk), Cmd(CapOf(e), st, actual), made)
    ensures if e == null then st == NoSuchToken else made.at == |old(e.Log())|
    ensures st == OK ==> actual <= Span(chunk, UnitSize(v))
    // Blocks read before stay as they were, and what arrived joins them.
    ensures old(Holds(buffer[..], done, m, v, lba)) ==> Holds(buffer[..], done, m, v, lba)
    ensures st == OK && Trusted(made.part, m) && old(Holds(buffer[..], done, m, v, lba)) && lba + done < TWO32 ==>
      Holds(buffer[..], done + Whole(actual, UnitSize(v)), m, v, lba)
  {
    hide *;
    var off, len := Span(done, UnitSize(v)), Span(chunk, UnitSize(v));
    var cdb := Build(v, (lba + done) % TWO32, chunk);
    SpanSum(done, chunk, UnitSize(v));
    if e == null {
      ReadMayRepeat(v, lba + done, chunk);
      st, actual, made := WithoutEntry(cdb, true, len), 0, Made(0, [], [], false);
      NotFound(e, cdb, len, ReadAsk(v, lba + done, chunk), made);
      return;
    }
    ghost var before := buffer[..];
    st, actual, made := ReadInto(e, cdb, lba + done, chunk, v, buffer, off, len);
    if old(Holds(buffer[..], done, m, v, lba)) {
      StillHolds(before, buffer[..], done, m, v, lba);
      if st == OK {
        ReadArrives(made.part, e.dev, e.last, m, v, lba, done, chunk, before, buffer[..], off, actual);
      }
    }
  }

  /** The command itself: what it adds to the log backs it, and what it counts of its last
      transaction lies in the buffer at `off`. */
  method ReadInto(e: Entry, cdb: seq<byte>, ghost at: nat, ghost chunk: nat, ghost v: View, buffer: array<byte>,
                  off: nat, len: nat)
    returns (st: LaserStatus, actual: nat, ghost made: Made)
    requires e.Valid() && cdb == Build(v, at % TWO32, chunk)
    requires len == Span(chunk, UnitSize(v)) && off + len <= buffer.Length
    modifies e, buffer
    ensures e.Valid() && e.maxTransferBytes == old(e.maxTransferBytes)
    ensures Later(old(Look(e)), Look(e)) && made.at == |old(e.Log())|
    ensures Backed(Look(e), ReadAsk(v, at, chunk), Cmd(CapOf(e), st, actual), made)
    ensures buffer[..][..off] == old(buffer[..])[..off]
    ensures st == OK ==>
      && actual <= len && e.last in made.part && CodeMeans(Passed, e.last) && e.last.ask == ReadAsk(v, at, chunk)
      && Genuine(e.dev, e.last, e.disc, buffer[..][off..off + actual])
  {
    hide *;
    ReadMayRepeat(v, at, chunk);
    ghost var log, wasNotReady := e.Log(), e.notReady;
    FrontIs(buffer, off, len);
    LookIs(e);
    ghost var part, rounds;
    st, actual, part, rounds := Command(e, cdb, buffer, off, len, true, 0);
    made := Made(|log|, part, rounds, wasNotReady);
    ReadAskIs(v, at, chunk);
    LookIs(e);
    LastOfLog(e);
    LaterBy(old(Look(e)), Look(e), part);
    CommandBacks(Look(e), log, e.last, ReadAsk(v, at, chunk), Cmd(CapOf(e), st, actual), made);
    FrontIs(buffer, off, len);
    if st == OK { WindowIs(buffer, off, actual); }
  }

  lemma NotFound(e: Entry?, cdb: seq<byte>, len: int, ask: Ask, made: Made)
    requires e == null && BadArguments(cdb, true, len) == None
    ensures WithoutEntry(cdb, true, len) == NoSuchToken && Later(Look(e), Look(e))
    ensures Backed(Look(e), ask, Cmd(CapOf(e), NoSuchToken, 0), made)
  {
  }

  lemma LastOfLog(e: Entry)
    ensures e.Log() != [] && e.Log()[|e.Log()| - 1] == e.last
  {
  }

  lemma ReadAskIs(v: View, at: nat, chunk: nat)
    ensures ReadAsk(v, at, chunk) == AskFor(Build(v, at % TWO32, chunk), Span(chunk, UnitSize(v)), true, true)
  {
  }

  lemma FrontIs(data: array<byte>, off: nat, len: nat)
    requires off + len <= data.Length
    ensures Around(data, off, len).0 == data[..][..off]
  {
    assert data[..][..off] == data[..off];
  }

  lemma WindowIs(data: array<byte>, off: nat, n: nat)
    requires off + n <= data.Length
    ensures Window(data, off, n) == data[..][off..off + n]
  {
  }

  lemma TrustedRead(part: seq<Exchange>, m: Medium, x: Exchange)
    requires Trusted(part, m) && x in part && CodeMeans(Passed, x)
    ensures !x.defied && Honest(x, DiscOf(m))
  {
  }

  /** Some bytes of the next `chunk` blocks, right behind `done` blocks, make whole
      blocks of the disc. */
  lemma JoinBlocks(s: seq<byte>, m: Medium, v: View, lba: nat, done: nat, chunk: nat, off: nat, actual: nat)
    requires off == Span(done, UnitSize(v)) && Holds(s, done, m, v, lba)
    requires actual <= Span(chunk, UnitSize(v)) && off + actual <= |s|
    requires s[off..off + actual] == Units(m, v, lba + done, chunk)[..actual]
    ensures Holds(s, done + Whole(actual, UnitSize(v)), m, v, lba)
  {
    var size := UnitSize(v);
    var more := Whole(actual, size);
    SpanOfWhole(actual, size);
    if more > chunk { SpanMonotone(chunk, more, size); }
    UnitsPrefix(m, v, lba + done, more, chunk);
    SpanSum(done, more, size);
    var rest := s[off..off + Span(more, size)];
    assert rest == s[off..off + actual][..Span(more, size)];
    var there := Units(m, v, lba + done, chunk);
    assert there[..actual][..Span(more, size)] == there[..Span(more, size)];
    assert rest == Units(m, v, lba + done, more);
    HoldsAll(s, done, m, v, lba);
    UnitsConcat(m, v, lba, done, more);
    assert s[..off + Span(more, size)] == s[..off] + rest;
    HoldsAll(s, done + more, m, v, lba);
  }

  /** A command that leaves the blocks read alone, and puts some bytes behind them. */
  lemma ChunkArrives(before: seq<byte>, after: seq<byte>, m: Medium, v: View, lba: nat, done: nat, chunk: nat,
                     off: nat, actual: nat)
    requires |before| == |after| && off == Span(done, UnitSize(v)) && off + actual <= |after|
    requires actual <= Span(chunk, UnitSize(v))
    requires before[..off] == after[..off]
    requires Holds(before, done, m, v, lba)
    ensures Holds(after, done, m, v, lba)
    ensures after[off..off + actual] <= Units(m, v, lba + done, chunk) ==>
      Holds(after, done + Whole(actual, UnitSize(v)), m, v, lba)
  {
    StillHolds(before, after, done, m, v, lba);
    if after[off..off + actual] <= Units(m, v, lba + done, chunk) {
      JoinBlocks(after, m, v, lba, done, chunk, off, actual);
    }
  }

  /** So a chunk that a device answers honestly joins the blocks before it. */
  lemma ReadArrives(part: seq<Exchange>, d: Device, x: Exchange, m: Medium, v: View, lba: nat, done: nat, chunk: nat,
                    before: seq<byte>, after: seq<byte>, off: nat, actual: nat)
    requires |before| == |after| && off == Span(done, UnitSize(v)) && off + actual <= |after|
    requires actual <= Span(chunk, UnitSize(v)) && before[..off] == after[..off]
    requires Holds(before, done, m, v, lba) && chunk < 0x1_0000
    requires x in part && CodeMeans(Passed, x) && x.ask == ReadAsk(v, lba + done, chunk)
    requires Genuine(d, x, DiscOf(m), after[off..off + actual])
    ensures Trusted(part, m) && lba + done < TWO32 ==> Holds(after, done + Whole(actual, UnitSize(v)), m, v, lba)
  {
    hide *;
    if Trusted(part, m) && lba + done < TWO32 {
      TrustedRead(part, m, x);
      CountedIsTheChunk(d, x, m, after[off..off + actual], v, lba + done, chunk);
      ChunkArrives(before, after, m, v, lba, done, chunk, off, actual);
    }
  }

  lemma ChunkIsSmall(q: Request, n: Nego, cap: nat)
    requires q.size >= 2048 && n.done < q.num && cap <= MAX_BYTES_PER_TRANSFER
    ensures Chunk(q, n, cap) <= 32
    ensures Span(n.done + Chunk(q, n, cap), q.size) <= Span(q.num, q.size)
  {
    var c := Chunk(q, n, cap);
    if c > 32 {
      SpanMonotone(33, c, q.size);
      SpanIsProduct(33, q.size);
    }
    SpanMonotone(n.done + c, q.num, q.size);
  }

  /** A read never answers 0 blocks, nor more than it was asked for: it counts the
      blocks done, with or without the `arrived` ones of its last command. */
  lemma StepBounds(q: Request, n: Nego, c: Cmd, arrived: nat)
    requires q.size > 0 && n.done < q.num
    requires c.status == OK ==>
      && arrived == Whole(c.actual, q.size) <= Chunk(q, n, c.cap)
      && (c.actual == Span(Chunk(q, n, c.cap), q.size) ==> arrived == Chunk(q, n, c.cap))
    ensures match Step(q, n, c)
      case Stop(o) => o != Count(0) && (o.Count? ==>
        o.blocks <= q.num && (o.blocks == n.done || (c.status == OK && o.blocks == n.done + arrived)))
      case Going(m) => m.done <= q.num && (m.done == n.done || (c.status == OK && m.done == n.done + arrived))
  {
  }

  lemma WholeBlocks(actual: nat, chunk: nat, size: nat)
    requires size > 0 && actual <= Span(chunk, size)
    ensures Whole(actual, size) <= chunk
    ensures actual == Span(chunk, size) ==> Whole(actual, size) == chunk
  {
    WholeIs(actual, size, chunk);
    WholeIs(actual, size, chunk + 1);
  }

  /** How many blocks the next command reads: the cap is read afresh, since another
      thread may have lowered it. */
  method NextChunk(e: Entry?, num: nat, size: nat, ghost n: Nego, blocksDone: nat, trialCap: nat)
    returns (found: nat, chunk: nat)
    requires e != null ==> e.Valid()
    requires size >= 2048 && blocksDone == n.done < num && trialCap == n.trialCap
    ensures found == if e != null then e.maxTransferBytes else MAX_BYTES_PER_TRANSFER
    ensures chunk == Chunk(Request(num, size), n, found)
    ensures 1 <= chunk <= 32 && blocksDone + chunk <= num && Span(blocksDone + chunk, size) <= Span(num, size)
  {
    found := if e != null then e.maxTransferBytes else MAX_BYTES_PER_TRANSFER;
    var cap := found;
    if 0 < trialCap < cap {
      cap := trialCap;
    }
    var maxBlocksPerChunk := cap / size;
    WholeIsQuotient(cap, size);
    if maxBlocksPerChunk < 1 {
      maxBlocksPerChunk := 1;
    }
    chunk := num - blocksDone;
    if chunk > maxBlocksPerChunk {
      chunk := maxBlocksPerChunk;
    }
    ChunkIsSmall(Request(num, size), n, found);
  }

  /** Faithful so far, the first `blocks` blocks are in the buffer. */
  ghost predicate InBuffer(made: seq<Made>, buffer: seq<byte>, blocks: nat, num: nat, m: Medium, v: View, lba: nat) {
    Faithful(made, m) && lba + num <= TWO32 ==> Holds(buffer, blocks, m, v, lba)
  }

  /** A read between two commands: its variables are those of the replay, the cap is one
      that it allows, its commands are on the log, and its blocks in the buffer. */
  ghost predicate OnTrack(q: Request, n: Nego, cmds: seq<Cmd>, cap: nat) {
    && q.size > 0
    && Issued(q, cmds) && Replay(q, cmds) == Going(n) && n.done <= q.num
    && cap <= Allowed(q, cmds)
    && (0 < n.trialCap ==> MIN_BYTES_PER_TRANSFER <= n.trialCap)
  }

  /** Sizes the next command by the device's cap, read afresh, and the size being
      tried, and issues it. */
  method Issue(e: Entry?, lba: nat, num: nat, v: View, buffer: array<byte>, ghost m: Medium,
               blocksDone: nat, trialCap: nat, ghost n: Nego, ghost made: seq<Made>)
    returns (st: LaserStatus, actualLen: nat, chunk: nat, ghost c: Cmd, ghost more: Made)
    requires e != null ==> e.Valid() && e.disc == DiscOf(m)
    requires lba < TWO32 && Span(num, UnitSize(v)) <= buffer.Length
    requires blocksDone == n.done < num && trialCap == n.trialCap
    requires InBuffer(made, buffer[..], blocksDone, num, m, v, lba)
    modifies e, buffer
    ensures e != null ==> e.Valid()
    ensures Later(old(Look(e)), Look(e)) && MIN_BYTES_PER_TRANSFER <= CapOf(e) == c.cap <= old(CapOf(e))
    ensures e == null ==> st == NoSuchToken
    ensures c.status == st && c.actual == actualLen
    ensures chunk == Chunk(Request(num, UnitSize(v)), n, c.cap)
    ensures st == OK ==> actualLen <= Span(chunk, UnitSize(v))
    ensures Backed(Look(e), ReadAsk(v, lba + blocksDone, chunk), c, more)
    ensures e != null ==> |old(e.Log())| <= more.at
    ensures InBuffer(made + [more], buffer[..], blocksDone, num, m, v, lba)
    ensures st == OK ==>
      InBuffer(made + [more], buffer[..], blocksDone + Whole(actualLen, UnitSize(v)), num, m, v, lba)
  {
    hide Look, Later, Backed, Faithful, Trusted, Holds, Chunk, ReadAsk, Entry.Valid, Entry.Log;
    ghost var before := Look(e);
    Unchanged(before);
    LookIs(e);
    if e != null {
      OtherThreads(e);
    }
    ghost var between := Look(e);
    LookIs(e);
    LogGrew(before, between);
    CapBounds(e);
    var found;
    found, chunk := NextChunk(e, num, UnitSize(v), n, blocksDone, trialCap);
    st, actualLen, more := ReadChunk(e, lba, blocksDone, chunk, v, buffer, m);
    c := Cmd(found, st, actualLen);
    LaterStill(before, between, Look(e));
    FaithfulOneMore(made, more, m);
  }

  /** Where a turn leads: the end of the read, or its next state `h`. */
  predicate Led(p: Progress, out: Option<Outcome>, h: Nego) {
    match p
    case Stop(o) => out == Some(o)
    case Going(m) => out == None && m == h
  }

  /** How many blocks a turn vouches for. */
  function Vouched(out: Option<Outcome>, h: Nego): nat {
    if out.Some? && out.value.Count? then out.value.blocks else if out.Some? then 0 else h.done
  }

  /** What a command leads to: the end of the read, or another command. */
  method AfterCommand(e: Entry?, num: nat, size: nat, st: LaserStatus, actualLen: nat, chunk: nat,
                      blocksDone: nat, trialCap: nat, trialEnd: nat, trialFailed: nat, ghost c: Cmd)
    returns (out: Option<Outcome>, nowDone: nat, nowCap: nat, nowEnd: nat, nowFailed: nat)
    requires e != null ==> e.Valid()
    requires size > 0 && blocksDone < num
    requires c.status == st && c.actual == actualLen
    requires e == null ==> st == NoSuchToken
    requires chunk == Chunk(Request(num, size), Nego(blocksDone, trialCap, trialEnd, trialFailed), c.cap)
    requires 0 < trialCap ==> MIN_BYTES_PER_TRANSFER <= trialCap
    modifies if e == null then {} else {e}`maxTransferBytes
    ensures Led(Step(Request(num, size), Nego(blocksDone, trialCap, trialEnd, trialFailed), c), out,
                Nego(nowDone, nowCap, nowEnd, nowFailed))
    ensures 0 < nowCap ==> MIN_BYTES_PER_TRANSFER <= nowCap
    ensures e != null ==> e.Valid()
    ensures Look(e) == old(Look(e))
    ensures var kept := Kept(Request(num, size), Nego(blocksDone, trialCap, trialEnd, trialFailed), c);
      CapOf(e) == if 0 < kept < old(CapOf(e)) then kept else old(CapOf(e))
  {
    out, nowDone, nowCap, nowEnd, nowFailed := None, blocksDone, trialCap, trialEnd, trialFailed;
    if st != OK {
      if st == MediaGone || st == LaserStatus.NoDevice || st == Cancelled {
        out := Some(Failure(st));
        return;
      }
      var tried := Span(chunk, size);
      if st == IO && chunk > 1 && e != null && tried > MIN_BYTES_PER_TRANSFER {
        if trialCap == 0 {
          nowEnd := blocksDone + chunk;
          nowFailed := tried;
        }
        nowCap := tried / 2;
        if nowCap < MIN_BYTES_PER_TRANSFER {
          nowCap := MIN_BYTES_PER_TRANSFER;
        }
        return;
      }
      out := Some(if blocksDone > 0 then Count(blocksDone) else Failure(st));
      return;
    }
    if actualLen != Span(chunk, size) {
      var shortTotal := blocksDone + actualLen / size;
      WholeIsQuotient(actualLen, size);
      out := Some(if shortTotal == 0 then Failure(IO) else Count(shortTotal));
      return;
    }
    nowDone := blocksDone + chunk;
    if trialCap > 0 && nowDone >= trialEnd {
      LowerTransferCap(e, trialCap);
      nowCap := 0;
    }
  }

  /** What a command means for the negotiation, and for the blocks vouched for. */
  lemma TurnKeeps(q: Request, n: Nego, cmds: seq<Cmd>, c: Cmd, cap: nat, out: Option<Outcome>, h: Nego)
    requires OnTrack(q, n, cmds, cap) && n.done < q.num
    requires MIN_BYTES_PER_TRANSFER <= c.cap <= cap
    requires c.status == OK ==> c.actual <= Span(Chunk(q, n, c.cap), q.size)
    requires Led(Step(q, n, c), out, h) && (0 < h.trialCap ==> MIN_BYTES_PER_TRANSFER <= h.trialCap)
    ensures var kept := Kept(q, n, c);
      var now := if 0 < kept < c.cap then kept else c.cap;
      && Allowed(q, cmds + [c]) == now
      && (out == None ==>
        && OnTrack(q, h, cmds + [c], now)
        && (h.done > n.done || (h.done == n.done && Effective(h.trialCap, now) < Effective(n.trialCap, c.cap))))
    ensures out.Some? ==>
      && Issued(q, cmds + [c]) && Replay(q, cmds + [c]) == Stop(out.value)
      && out.value != Count(0) && (out.value.Count? ==> out.value.blocks <= q.num)
    ensures Vouched(out, h) in {0, n.done} || (c.status == OK && Vouched(out, h) == n.done + Whole(c.actual, q.size))
  {
    IssueOne(q, cmds, n, c);
    if c.status == OK { WholeBlocks(c.actual, Chunk(q, n, c.cap), q.size); }
    StepBounds(q, n, c, Whole(c.actual, q.size));
    var kept := Kept(q, n, c);
    if Step(q, n, c).Going? { StepDecreases(q, n, c, if 0 < kept < c.cap then kept else c.cap); }
  }

  lemma InBufferNone(made: seq<Made>, buffer: seq<byte>, num: nat, m: Medium, v: View, lba: nat)
    ensures InBuffer(made, buffer, 0, num, m, v, lba)
  {
  }

  lemma EffectiveMonotone(trialCap: nat, a: nat, b: nat)
    requires a <= b
    ensures Effective(trialCap, a) <= Effective(trialCap, b)
  {
  }

  /** One turn of the loop. */
  method Turn(e: Entry?, lba: nat, num: nat, v: View, buffer: array<byte>, ghost m: Medium,
              blocksDone: nat, trialCap: nat, trialEnd: nat, trialFailed: nat,
              ghost cmds: seq<Cmd>, ghost made: seq<Made>, ghost firstCap: nat, ghost from: nat)
    returns (out: Option<Outcome>, nowDone: nat, nowCap: nat, nowEnd: nat, nowFailed: nat,
             ghost nowCmds: seq<Cmd>, ghost nowMade: seq<Made>)
    requires lba < TWO32 && Span(num, UnitSize(v)) <= buffer.Length && blocksDone < num
    requires e != null ==> e.Valid() && e.disc == DiscOf(m) && from <= |e.Log()|
    requires OnTrack(Request(num, UnitSize(v)), Nego(blocksDone, trialCap, trialEnd, trialFailed), cmds, CapOf(e))
    requires Drawn(Look(e), firstCap, from, lba, v, num, cmds, made) && CapOf(e) <= firstCap
    requires InBuffer(made, buffer[..], blocksDone, num, m, v, lba)
    modifies e, buffer
    ensures e != null ==> e.Valid()
    ensures Later(old(Look(e)), Look(e)) && CapOf(e) <= old(CapOf(e))
    ensures nowCmds != [] && CapOf(e) == Allowed(Request(num, UnitSize(v)), nowCmds)
    ensures Drawn(Look(e), firstCap, from, lba, v, num, nowCmds, nowMade)
    ensures out == None ==>
      && OnTrack(Request(num, UnitSize(v)), Nego(nowDone, nowCap, nowEnd, nowFailed), nowCmds, CapOf(e))
      && (nowDone > blocksDone
          || (nowDone == blocksDone && Effective(nowCap, CapOf(e)) < Effective(trialCap, old(CapOf(e)))))
    ensures out.Some? ==>
      && Issued(Request(num, UnitSize(v)), nowCmds) && Replay(Request(num, UnitSize(v)), nowCmds) == Stop(out.value)
      && out.value != Count(0)
      && (out.value.Count? ==> out.value.blocks <= num)
    ensures InBuffer(nowMade, buffer[..], Vouched(out, Nego(nowDone, nowCap, nowEnd, nowFailed)), num, m, v, lba)
  {
    hide Look, Later, Backed, Drawn, EndOf, Faithful, Holds, InBuffer, ReadAsk, Entry.Valid, Entry.Log;
    hide Chunk, Step, Replay, Issued, Allowed, Kept, Led;
    ghost var q, n := Request(num, UnitSize(v)), Nego(blocksDone, trialCap, trialEnd, trialFailed);
    ghost var before := Look(e);
    LookIs(e);
    EndIsOnLog(before, firstCap, from, lba, v, num, cmds, made);
    var st, actualLen, chunk;
    ghost var c, more;
    st, actualLen, chunk, c, more := Issue(e, lba, num, v, buffer, m, blocksDone, trialCap, n, made);
    ghost var sent, read := Look(e), buffer[..];
    LookIs(e);
    LogGrew(before, sent);
    DrawnStill(before, sent, firstCap, from, lba, v, num, cmds, made);
    DrawnOneMore(sent, firstCap, from, lba, v, num, cmds, made, n, c, more);
    nowCmds, nowMade := cmds + [c], made + [more];
    out, nowDone, nowCap, nowEnd, nowFailed :=
      AfterCommand(e, num, UnitSize(v), st, actualLen, chunk, blocksDone, trialCap, trialEnd, trialFailed, c);
    TurnKeeps(q, n, cmds, c, old(CapOf(e)), out, Nego(nowDone, nowCap, nowEnd, nowFailed));
    EffectiveMonotone(trialCap, c.cap, old(CapOf(e)));
    InBufferNone(nowMade, buffer[..], num, m, v, lba);
  }

  lemma BlocksRead(made: seq<Made>, s: seq<byte>, blocks: nat, num: nat, m: Medium, v: View, lba: nat)
    requires blocks <= num && Span(num, UnitSize(v)) <= |s|
    requires InBuffer(made, s, blocks, num, m, v, lba)
    ensures Span(blocks, UnitSize(v)) <= |s|
    ensures Faithful(made, m) && lba + num <= TWO32 ==> s[..Span(blocks, UnitSize(v))] == Units(m, v, lba, blocks)
  {
    SpanMonotone(blocks, num, UnitSize(v));
    HoldsAll(s, blocks, m, v, lba);
  }

  lemma ReadBegins(s: Seen, cap: nat, from: nat, lba: nat, v: View, num: nat)
    requires num > 0 && cap <= MAX_BYTES_PER_TRANSFER
    ensures Drawn(s, cap, from, lba, v, num, [], []) && OnTrack(Request(num, UnitSize(v)), START, [], cap)
  {
  }

  lemma ReadEnds(q: Request, cmds: seq<Cmd>, out: Option<Outcome>, n: Nego)
    requires q.size > 0 && Issued(q, cmds)
    requires if out.Some? then Replay(q, cmds) == Stop(out.value) else Replay(q, cmds) == Going(n) && n.done == q.num
    ensures HasEnded(q, cmds) && Answer(q, cmds) == if out.Some? then out.value else Count(q.num)
  {
  }

  /** read_chunked(): `num` blocks from `lba` into `buffer`. `cmds` are the commands it
      took, `made` where they are on the log. */
  method ReadChunked(e: Entry?, lba: nat, num: int, v: View, buffer: array<byte>, ghost m: Medium)
    returns (r: Outcome, ghost cmds: seq<Cmd>, ghost made: seq<Made>)
    requires e != null ==> e.Valid() && e.disc == DiscOf(m)
    requires lba < TWO32
    requires num > 0 ==> Span(num, UnitSize(v)) <= buffer.Length
    modifies e, buffer
    ensures e != null ==> e.Valid()
    ensures Later(old(Look(e)), Look(e)) && CapOf(e) <= old(CapOf(e))
    ensures num <= 0 ==> r == Count(0) && cmds == [] && CapOf(e) == old(CapOf(e))
    // It negotiates as Replay says, over the commands it put on the log.
    ensures num > 0 ==>
      && Drawn(Look(e), old(CapOf(e)), old(if e == null then 0 else |e.Log()|), lba, v, num, cmds, made)
      && var q := Request(num, UnitSize(v));
         Issued(q, cmds) && HasEnded(q, cmds) && r == Answer(q, cmds)
    // By what they brought: a medium or a device that is gone and a cancellation are
    // answered as such, whatever was read before; else it counts the blocks that arrived.
    ensures num > 0 ==>
      && cmds != []
      && var last, arrived := cmds[|cmds| - 1].status, BlocksOf(Request(num, UnitSize(v)), cmds);
         r == if last in {MediaGone, LaserStatus.NoDevice, Cancelled} then Failure(last)
              else if arrived > 0 then Count(arrived)
              else Failure(if last == OK then IO else last)
    // The cap it leaves behind is the one those commands make the negotiation keep.
    ensures num > 0 ==> cmds != [] && CapOf(e) == Allowed(Request(num, UnitSize(v)), cmds)
    // A device that owed the host no answer, and left no request unanswered meanwhile, is
    // faithful if it is honest.
    ensures num > 0 && e != null && !old(e.dev).defiant && e.dev.unanswered == old(e.dev).unanswered ==>
      (Sincere(made, m) ==> Faithful(made, m))
    // What it read is what the disc holds, whatever failed and was read again on the way.
    ensures num > 0 ==> r != Count(0) && (r.Count? ==> r.blocks <= num)
    ensures r.Count? && Faithful(made, m) && lba + num <= TWO32 ==>
      && Span(r.blocks, UnitSize(v)) <= buffer.Length
      && buffer[..Span(r.blocks, UnitSize(v))] == Units(m, v, lba, r.blocks)
  {
    hide Drawn, Faithful, Sincere, Holds, InBuffer, Issued, HasEnded, Answer, BlocksOf, Replay, Allowed, Units;
    hide Booked, Quiet, Answering;
    cmds, made := [], [];
    Unchanged(Look(e));
    if num <= 0 {
      return Count(0), cmds, made;
    }
    var out;
    ghost var n;
    out, cmds, made, n := Loop(e, lba, num, v, buffer, m);
    ReadEnds(Request(num, UnitSize(v)), cmds, out, n);
    AnswerIsWhatArrived(Request(num, UnitSize(v)), cmds);
    r := if out.Some? then out.value else Count(num);
    LookIs(e);
    if e != null && !old(e.dev).defiant && e.dev.unanswered == old(e.dev).unanswered && Sincere(made, m) {
      SincereIsFaithful(old(Look(e)), Look(e), old(CapOf(e)), lba, v, num, cmds, made, m);
    }
    if r.Count? { BlocksRead(made, buffer[..], r.blocks, num, m, v, lba); }
  }

  /** The loop of a read: None means that all blocks were read. */
  method Loop(e: Entry?, lba: nat, num: nat, v: View, buffer: array<byte>, ghost m: Medium)
    returns (out: Option<Outcome>, ghost cmds: seq<Cmd>, ghost made: seq<Made>, ghost n: Nego)
    requires e != null ==> e.Valid() && e.disc == DiscOf(m)
    requires lba < TWO32 && 0 < num && Span(num, UnitSize(v)) <= buffer.Length
    requires CapOf(e) <= MAX_BYTES_PER_TRANSFER
    modifies e, buffer
    ensures e != null ==> e.Valid()
    ensures Later(old(Look(e)), Look(e)) && CapOf(e) <= old(CapOf(e))
    ensures Drawn(Look(e), old(CapOf(e)), old(if e == null then 0 else |e.Log()|), lba, v, num, cmds, made)
    ensures Issued(Request(num, UnitSize(v)), cmds)
    ensures cmds != [] && CapOf(e) == Allowed(Request(num, UnitSize(v)), cmds)
    ensures if out.Some? then
        && Replay(Request(num, UnitSize(v)), cmds) == Stop(out.value)
        && out.value != Count(0) && (out.value.Count? ==> out.value.blocks <= num)
      else
        Replay(Request(num, UnitSize(v)), cmds) == Going(n) && n.done == num
    ensures var done := if out.None? then num else if out.value.Count? then out.value.blocks else 0;
      InBuffer(made, buffer[..], done, num, m, v, lba)
  {
    hide Look, Later, Drawn, InBuffer, Entry.Valid, Entry.Log, Replay, Issued, Allowed;
    ghost var from, firstCap, first := if e == null then 0 else |e.Log()|, CapOf(e), Look(e);
    cmds, made, n := [], [], START;
    ReadBegins(Look(e), firstCap, from, lba, v, num);
    InBufferNone(made, buffer[..], num, m, v, lba);
    Unchanged(first);
    var blocksDone: nat, trialCap: nat, trialEnd: nat, trialFailed: nat := 0, 0, 0, 0;
    while blocksDone < num
      invariant e != null ==> e.Valid() && from <= |e.Log()|
      invariant Later(first, Look(e)) && CapOf(e) <= firstCap
      invariant n == Nego(blocksDone, trialCap, trialEnd, trialFailed) && blocksDone <= num
      invariant OnTrack(Request(num, UnitSize(v)), n, cmds, CapOf(e))
      invariant Drawn(Look(e), firstCap, from, lba, v, num, cmds, made)
      invariant InBuffer(made, buffer[..], blocksDone, num, m, v, lba)
      invariant if cmds == [] then blocksDone == 0 else CapOf(e) == Allowed(Request(num, UnitSize(v)), cmds)
      decreases num - blocksDone, Effective(trialCap, CapOf(e))
    {
      ghost var before := Look(e);
      LookIs(e);
      out, blocksDone, trialCap, trialEnd, trialFailed, cmds, made :=
        Turn(e, lba, num, v, buffer, m, blocksDone, trialCap, trialEnd, trialFailed, cmds, made, firstCap, from);
      n := Nego(blocksDone, trialCap, trialEnd, trialFailed);
      LookIs(e);
      LogGrew(before, Look(e));
      LaterStill(first, before, Look(e));
      if out.Some? {
        return;
      }
    }
    out := None;
  }
}
