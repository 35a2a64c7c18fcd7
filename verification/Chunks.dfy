/** The negotiation inside a chunked read, as a function of what each command it
    issued came back with. */
module Chunks {
  import opened Discs
  import opened Entries

  /** One command of a read: the device's transfer cap when it was sized, and what
      came back. */
  datatype Cmd = Cmd(cap: nat, status: LaserStatus, actual: nat)

  /** What a read asks for: `num` blocks of `size` bytes. */
  datatype Request = Request(num: nat, size: nat)

  /** Blocks done, and a trial in progress: the transfer size being tried (0 for
      none), where the failed range ends, and the size that failed on it. */
  datatype Nego = Nego(done: nat, trialCap: nat, trialEnd: nat, trialFailed: nat)

  datatype Outcome = Count(blocks: nat) | Failure(status: LaserStatus)

  datatype Progress = Stop(outcome: Outcome) | Going(n: Nego)

  const START := Nego(0, 0, 0, 0)

  function Effective(trialCap: nat, cap: nat): nat {
    if 0 < trialCap < cap then trialCap else cap
  }

  /** Whole blocks in `cap` bytes, at least one. */
  function BlocksIn(cap: nat, size: nat): (n: nat)
    requires size > 0
    ensures n >= 1 && (n > 1 ==> Span(n, size) <= cap)
  {
    SpanOfWhole(cap, size);
    if Whole(cap, size) < 1 then 1 else Whole(cap, size)
  }

  function Chunk(q: Request, n: Nego, cap: nat): (c: nat)
    requires q.size > 0 && n.done < q.num
    ensures 1 <= c <= q.num - n.done
    ensures c > 1 ==> Span(c, q.size) <= Effective(n.trialCap, cap)
  {
    var most := BlocksIn(Effective(n.trialCap, cap), q.size);
    if q.num - n.done > most then
      most
    else
      SpanMonotone(q.num - n.done, most, q.size);
      q.num - n.done
  }

  /** The same with multiplication and division: as many whole blocks as the cap and the
      size being tried leave room for, at least one, and no more than are left. */
  lemma ChunkIsQuotient(q: Request, n: Nego, cap: nat)
    requires q.size > 0 && n.done < q.num
    ensures var bytes := if 0 < n.trialCap < cap then n.trialCap else cap;
      var most := if bytes / q.size < 1 then 1 else bytes / q.size;
      && Chunk(q, n, cap) == (if q.num - n.done < most then q.num - n.done else most)
      && Span(Chunk(q, n, cap), q.size) == Chunk(q, n, cap) * q.size
  {
    WholeIsQuotient(Effective(n.trialCap, cap), q.size);
    SpanIsProduct(Chunk(q, n, cap), q.size);
  }

  function Halved(bytes: nat): nat {
    if bytes / 2 < MIN_BYTES_PER_TRANSFER then MIN_BYTES_PER_TRANSFER else bytes / 2
  }

  predicate Terminal(s: LaserStatus) {
    s == MediaGone || s == NoDevice || s == Cancelled
  }

  /** A failure worth trying again in smaller transfers. */
  predicate WorthHalving(c: Cmd, chunk: nat, size: nat) {
    c.status == IO && chunk > 1 && Span(chunk, size) > MIN_BYTES_PER_TRANSFER
  }

  /** One command of the read and what it leads to. */
  function Step(q: Request, n: Nego, c: Cmd): Progress
    requires q.size > 0 && n.done < q.num
  {
    var chunk := Chunk(q, n, c.cap);
    if c.status != OK then
      if Terminal(c.status) then Stop(Failure(c.status))
      else if WorthHalving(c, chunk, q.size) then
        var t := if n.trialCap == 0 then n.(trialEnd := n.done + chunk, trialFailed := Span(chunk, q.size)) else n;
        Going(t.(trialCap := Halved(Span(chunk, q.size))))
      else Stop(if n.done > 0 then Count(n.done) else Failure(c.status))
    else if c.actual != Span(chunk, q.size) then
      var total := n.done + Whole(c.actual, q.size);
      Stop(if total == 0 then Failure(IO) else Count(total))
    else
      var m := n.(done := n.done + chunk);
      Going(if n.trialCap > 0 && m.done >= n.trialEnd then m.(trialCap := 0) else m)
  }

  /** The cap this command makes the reader keep for the device, if any. */
  function Kept(q: Request, n: Nego, c: Cmd): nat
    requires q.size > 0 && n.done < q.num
  {
    var p := Step(q, n, c);
    if p.Going? && c.status == OK && n.trialCap > 0 && p.n.trialCap == 0 then n.trialCap else 0
  }

  /** The read after some commands. */
  function Replay(q: Request, cmds: seq<Cmd>): Progress
    requires q.size > 0
  {
    if cmds == [] then Going(START)
    else
      match Replay(q, cmds[..|cmds| - 1])
      case Stop(o) => Stop(o)
      case Going(n) => if n.done < q.num then Step(q, n, cmds[|cmds| - 1]) else Stop(Count(n.done))
  }

  /** Commands a read really issues: it goes on after all but the last, under caps
      that only shrink, also by what it made the device keep itself. */
  predicate Issued(q: Request, cmds: seq<Cmd>)
    requires q.size > 0
  {
    cmds == [] ||
    (var k := |cmds| - 1;
     var p := Replay(q, cmds[..k]);
     && Issued(q, cmds[..k])
     && p.Going? && p.n.done < q.num
     && MIN_BYTES_PER_TRANSFER <= cmds[k].cap <= Allowed(q, cmds[..k])
     && (cmds[k].status == OK ==> cmds[k].actual <= Span(Chunk(q, p.n, cmds[k].cap), q.size)))
  }

  /** The largest cap another look at the device may find. */
  function Allowed(q: Request, cmds: seq<Cmd>): nat
    requires q.size > 0
  {
    if cmds == [] then MAX_BYTES_PER_TRANSFER
    else
      var k := |cmds| - 1;
      match Replay(q, cmds[..k])
      case Stop(_) => cmds[k].cap
      case Going(n) =>
        if n.done < q.num && 0 < Kept(q, n, cmds[k]) < cmds[k].cap then Kept(q, n, cmds[k]) else cmds[k].cap
  }

  lemma IssueOne(q: Request, cmds: seq<Cmd>, n: Nego, c: Cmd)
    requires q.size > 0 && Issued(q, cmds) && Replay(q, cmds) == Going(n) && n.done < q.num
    requires MIN_BYTES_PER_TRANSFER <= c.cap <= Allowed(q, cmds)
    requires c.status == OK ==> c.actual <= Span(Chunk(q, n, c.cap), q.size)
    ensures Issued(q, cmds + [c]) && Replay(q, cmds + [c]) == Step(q, n, c)
    ensures Allowed(q, cmds + [c]) == if 0 < Kept(q, n, c) < c.cap then Kept(q, n, c) else c.cap
  {
    assert (cmds + [c])[..|cmds|] == cmds;
  }

  /** The state in which command `k` of a read was issued. */
  function At(q: Request, cmds: seq<Cmd>, k: nat): Nego
    requires q.size > 0 && k < |cmds| && Replay(q, cmds[..k]).Going?
  {
    Replay(q, cmds[..k]).n
  }

  lemma {:induction false} GoingBefore(q: Request, cmds: seq<Cmd>, k: nat)
    requires q.size > 0 && Issued(q, cmds) && k < |cmds|
    ensures Issued(q, cmds[..k + 1]) && Issued(q, cmds[..k])
    ensures Replay(q, cmds[..k]).Going? && At(q, cmds, k).done < q.num
  {
    if k == |cmds| - 1 {
      assert cmds[..k + 1] == cmds;
    } else {
      var prefix := cmds[..|cmds| - 1];
      assert prefix[..k] == cmds[..k] && prefix[..k + 1] == cmds[..k + 1];
      GoingBefore(q, prefix, k);
    }
  }

  function Failures(cmds: seq<Cmd>): nat {
    if cmds == [] then 0
    else Failures(cmds[..|cmds| - 1]) + if cmds[|cmds| - 1].status != OK then 1 else 0
  }

  // ------------------------------------------------------------- the answer

  /** What a read answers, once it has ended. */
  function Answer(q: Request, cmds: seq<Cmd>): Outcome
    requires q.size > 0
  {
    match Replay(q, cmds)
    case Stop(o) => o
    case Going(n) => Count(n.done)
  }

  predicate HasEnded(q: Request, cmds: seq<Cmd>)
    requires q.size > 0
  {
    var p := Replay(q, cmds);
    p.Stop? || p.n.done >= q.num
  }

  /** All whole blocks that the commands of a read brought. */
  function BlocksOf(q: Request, cmds: seq<Cmd>): nat
    requires q.size > 0
  {
    if cmds == [] then 0
    else
      var c := cmds[|cmds| - 1];
      BlocksOf(q, cmds[..|cmds| - 1]) + if c.status == OK then Whole(c.actual, q.size) else 0
  }

  lemma {:induction false} DoneHaveArrived(q: Request, cmds: seq<Cmd>)
    requires q.size > 0 && Issued(q, cmds) && Replay(q, cmds).Going?
    ensures Replay(q, cmds).n.done == BlocksOf(q, cmds)
  {
    hide Chunk, Step, Span, Whole, Allowed;
    if cmds != [] {
      var k := |cmds| - 1;
      DoneHaveArrived(q, cmds[..k]);
      OneMoreArrived(q, Replay(q, cmds[..k]).n, cmds[k]);
    }
  }

  lemma OneMoreArrived(q: Request, n: Nego, c: Cmd)
    requires q.size > 0 && n.done < q.num && Step(q, n, c).Going?
    ensures Step(q, n, c).n.done == n.done + if c.status == OK then Whole(c.actual, q.size) else 0
  {
    hide Chunk;
    var chunk := Chunk(q, n, c.cap);
    WholeIs(Span(chunk, q.size), q.size, chunk);
    WholeIs(Span(chunk, q.size), q.size, chunk + 1);
  }

  /** What a read answers, by what its commands brought: a medium or a device that is gone
      and a cancellation are answered as such, whatever was read before them; otherwise
      the blocks that arrived are counted, and only if there are none it is a failure,
      that of the last command. */
  lemma AnswerIsWhatArrived(q: Request, cmds: seq<Cmd>)
    requires q.size > 0 && Issued(q, cmds) && HasEnded(q, cmds) && cmds != []
    ensures var last := cmds[|cmds| - 1].status;
      Answer(q, cmds) ==
        if last in {MediaGone, NoDevice, Cancelled} then Failure(last)
        else if BlocksOf(q, cmds) > 0 then Count(BlocksOf(q, cmds))
        else Failure(if last == OK then IO else last)
  {
    var k := |cmds| - 1;
    DoneHaveArrived(q, cmds[..k]);
    if Replay(q, cmds).Going? { DoneHaveArrived(q, cmds); }
  }

  // ------------------------------------------------- termination and its cost

  /** A measure that every command lowers, even while other threads shrink the
      cap: blocks left first, then the size of transfer being tried. */
  lemma StepDecreases(q: Request, n: Nego, c: Cmd, nextCap: nat)
    requires q.size > 0 && n.done < q.num && nextCap <= c.cap
    requires Step(q, n, c).Going?
    ensures var m := Step(q, n, c).n;
      m.done > n.done
      || (m.done == n.done && Effective(m.trialCap, nextCap) < Effective(n.trialCap, c.cap))
    ensures Step(q, n, c).n.done <= q.num
  {
  }

  /** The largest transfer that can still fail and be tried again after `k`
      failures. */
  function Level(k: nat): nat {
    if k == 0 then 64 * 1024 else if k == 1 then 32 * 1024 else if k == 2 then 16 * 1024 else 8 * 1024
  }

  lemma {:induction false} FailuresLowerTheLevel(q: Request, cmds: seq<Cmd>)
    requires q.size > 0 && Issued(q, cmds) && Replay(q, cmds).Going?
    ensures Failures(cmds) <= 3
    ensures Allowed(q, cmds) <= MAX_BYTES_PER_TRANSFER
    ensures var n := Replay(q, cmds).n;
      Effective(n.trialCap, Allowed(q, cmds)) <= Level(Failures(cmds))
  {
    if cmds != [] {
      FailuresLowerTheLevel(q, cmds[..|cmds| - 1]);
    }
  }

  /** One read issues at most four failing commands, however large it is. */
  lemma FourFailuresAtMost(q: Request, cmds: seq<Cmd>)
    requires q.size > 0 && Issued(q, cmds)
    ensures Failures(cmds) <= 4
  {
    if cmds != [] {
      FailuresLowerTheLevel(q, cmds[..|cmds| - 1]);
    }
  }

  // --------------------------------------------------- what the cap has learned

  /** The size in bytes of command `k`. */
  function SizeAt(q: Request, cmds: seq<Cmd>, k: nat): nat
    requires q.size > 0 && k < |cmds| && Replay(q, cmds[..k]).Going? && At(q, cmds, k).done < q.num
  {
    Span(Chunk(q, At(q, cmds, k), cmds[k].cap), q.size)
  }

  /** A size being tried is strictly smaller than the one that failed, in bytes
      and in whole blocks. */
  predicate Trying(q: Request, n: Nego)
    requires q.size > 0
  {
    && MIN_BYTES_PER_TRANSFER <= n.trialCap < n.trialFailed
    && n.done < n.trialEnd
    && Span(BlocksIn(n.trialCap, q.size), q.size) < n.trialFailed
  }

  lemma HalvedIsSmaller(chunk: nat, size: nat)
    requires size > 0 && chunk > 1 && Span(chunk, size) > MIN_BYTES_PER_TRANSFER
    ensures MIN_BYTES_PER_TRANSFER <= Halved(Span(chunk, size)) < Span(chunk, size)
    ensures BlocksIn(Halved(Span(chunk, size)), size) < chunk
    ensures Span(BlocksIn(Halved(Span(chunk, size)), size), size) < Span(chunk, size)
  {
    var blocks := BlocksIn(Halved(Span(chunk, size)), size);
    if blocks >= chunk {
      SpanMonotone(chunk, blocks, size);
    }
    SpanMonotone(blocks, chunk, size);
  }

  lemma BlocksMonotone(a: nat, b: nat, size: nat)
    requires size > 0 && a <= b
    ensures BlocksIn(a, size) <= BlocksIn(b, size)
  {
    SpanOfWhole(a, size);
    WholeIs(b, size, Whole(a, size));
  }

  lemma SmallerChunk(q: Request, n: Nego, cap: nat)
    requires q.size > 0 && n.done < q.num && Trying(q, n)
    ensures Span(Chunk(q, n, cap), q.size) <= Span(BlocksIn(n.trialCap, q.size), q.size)
  {
    BlocksMonotone(Effective(n.trialCap, cap), n.trialCap, q.size);
    SpanMonotone(Chunk(q, n, cap), BlocksIn(n.trialCap, q.size), q.size);
  }

  lemma StepOfTrial(q: Request, n: Nego, c: Cmd)
    requires q.size > 0 && n.done < q.num && (n.trialCap > 0 ==> Trying(q, n))
    requires Step(q, n, c).Going? && Step(q, n, c).n.trialCap > 0
    ensures var m := Step(q, n, c).n;
      && Trying(q, m) && n.done <= m.done
      && (if n.trialCap == 0 then
            && c.status == IO && m.done == n.done
            && m.trialFailed == Span(Chunk(q, n, c.cap), q.size)
            && m.trialEnd == n.done + Chunk(q, n, c.cap)
          else
            && m.trialFailed == n.trialFailed && m.trialEnd == n.trialEnd
            && Span(Chunk(q, n, c.cap), q.size) < n.trialFailed)
  {
    var chunk := Chunk(q, n, c.cap);
    if n.trialCap > 0 { SmallerChunk(q, n, c.cap); }
    if c.status != OK { HalvedIsSmaller(chunk, q.size); }
  }

  /** Since command `j`, every command was smaller than `bytes`, and none was
      issued before its start. */
  ghost predicate SmallerSince(q: Request, cmds: seq<Cmd>, j: nat, bytes: nat)
    requires q.size > 0 && Issued(q, cmds)
  {
    forall k | j < k < |cmds| ::
      Replay(q, cmds[..k]).Going? && At(q, cmds, k).done < q.num && SizeAt(q, cmds, k) < bytes
  }

  lemma SmallerSinceToo(q: Request, cmds: seq<Cmd>, j: nat, bytes: nat)
    requires q.size > 0 && Issued(q, cmds) && j < |cmds| - 1
    requires SmallerSince(q, cmds[..|cmds| - 1], j, bytes)
    requires Replay(q, cmds[..|cmds| - 1]).Going? && SizeAt(q, cmds, |cmds| - 1) < bytes
    ensures SmallerSince(q, cmds, j, bytes)
  {
    var prefix := cmds[..|cmds| - 1];
    forall k | j < k < |cmds|
      ensures Replay(q, cmds[..k]).Going? && At(q, cmds, k).done < q.num && SizeAt(q, cmds, k) < bytes
    {
      if k < |prefix| {
        assert prefix[..k] == cmds[..k] && prefix[k] == cmds[k];
        assert SizeAt(q, prefix, k) < bytes;
      }
    }
  }

  /** Command `j` failed on the range of the trial in progress. */
  ghost predicate FailedAt(q: Request, cmds: seq<Cmd>, j: nat, n: Nego)
    requires q.size > 0
  {
    && j < |cmds| && cmds[j].status == IO
    && Replay(q, cmds[..j]).Going? && At(q, cmds, j).done < q.num
    && n.trialFailed == SizeAt(q, cmds, j)
    && n.trialEnd == At(q, cmds, j).done + Chunk(q, At(q, cmds, j), cmds[j].cap)
  }

  lemma {:induction false} TrialInProgress(q: Request, cmds: seq<Cmd>) returns (j: nat)
    requires q.size > 0 && Issued(q, cmds) && Replay(q, cmds).Going? && Replay(q, cmds).n.trialCap > 0
    ensures Trying(q, Replay(q, cmds).n)
    ensures FailedAt(q, cmds, j, Replay(q, cmds).n)
    ensures SmallerSince(q, cmds, j, Replay(q, cmds).n.trialFailed)
  {
    var last := |cmds| - 1;
    var prefix := cmds[..last];
    var n := Replay(q, prefix).n;
    if n.trialCap == 0 {
      j := last;
    } else {
      j := TrialInProgress(q, prefix);
      assert prefix[..j] == cmds[..j];
      SmallerChunk(q, n, cmds[last].cap);
      SmallerSinceToo(q, cmds, j, n.trialFailed);
    }
    StepOfTrial(q, n, cmds[last]);
  }

  /** The cap is lowered to `c` only after a command of F > c bytes failed, and
      everything it asked for was then read in commands smaller than F. */
  lemma KeptForCause(q: Request, cmds: seq<Cmd>) returns (j: nat)
    requires q.size > 0 && Issued(q, cmds) && cmds != []
    requires Replay(q, cmds[..|cmds| - 1]).Going?
    requires Kept(q, At(q, cmds, |cmds| - 1), cmds[|cmds| - 1]) > 0
    ensures j < |cmds| - 1 && cmds[j].status == IO && Replay(q, cmds[..j]).Going? && At(q, cmds, j).done < q.num
    ensures 8192 <= Kept(q, At(q, cmds, |cmds| - 1), cmds[|cmds| - 1]) < SizeAt(q, cmds, j)
    ensures SmallerSince(q, cmds, j, SizeAt(q, cmds, j))
    ensures Replay(q, cmds).Going?
      && Replay(q, cmds).n.done >= At(q, cmds, j).done + Chunk(q, At(q, cmds, j), cmds[j].cap)
  {
    var last := |cmds| - 1;
    var prefix := cmds[..last];
    j := TrialInProgress(q, prefix);
    assert prefix[..j] == cmds[..j];
    SmallerChunk(q, At(q, cmds, last), cmds[last].cap);
    SmallerSinceToo(q, cmds, j, SizeAt(q, cmds, j));
  }

  lemma FailureHalves(q: Request, n: Nego, c: Cmd)
    requires q.size > 0 && n.done < q.num && c.status != OK && Step(q, n, c).Going?
    ensures var size := Span(Chunk(q, n, c.cap), q.size);
      c.status == IO && size > 8192 && Step(q, n, c).n.trialCap == if size / 2 < 8192 then 8192 else size / 2
  {
    hide Chunk;
  }

  /** How large the size being tried is: half the size of the command that failed last,
      but not below 8192 bytes, and everything since then was read. */
  lemma {:induction false} TrialIsHalf(q: Request, cmds: seq<Cmd>) returns (j: nat)
    requires q.size > 0 && Issued(q, cmds) && Replay(q, cmds).Going? && Replay(q, cmds).n.trialCap > 0
    ensures j < |cmds| && cmds[j].status == IO && Replay(q, cmds[..j]).Going? && At(q, cmds, j).done < q.num
    ensures SizeAt(q, cmds, j) > 8192
    ensures Replay(q, cmds).n.trialCap == if SizeAt(q, cmds, j) / 2 < 8192 then 8192 else SizeAt(q, cmds, j) / 2
    ensures forall k | j < k < |cmds| :: cmds[k].status == OK
  {
    hide Chunk, Issued, Step, Span;
    var last := |cmds| - 1;
    GoingBefore(q, cmds, last);
    var prefix := cmds[..last];
    if cmds[last].status != OK {
      j := last;
      FailureHalves(q, At(q, cmds, last), cmds[last]);
    } else {
      SuccessInTrial(q, At(q, cmds, last), cmds[last]);
      j := TrialIsHalf(q, prefix);
      assert prefix[..j] == cmds[..j] && prefix[j] == cmds[j];
      assert forall k | 0 <= k < last :: prefix[k] == cmds[k];
    }
  }

  /** The size is kept when, and only when, all that failed has been read by it. */
  lemma KeptWhenRead(q: Request, cmds: seq<Cmd>) returns (j: nat)
    requires q.size > 0 && Issued(q, cmds) && cmds != [] && Replay(q, cmds).Going?
    requires Replay(q, cmds[..|cmds| - 1]).Going? && At(q, cmds, |cmds| - 1).trialCap > 0
    requires cmds[|cmds| - 1].status == OK
    ensures j < |cmds| - 1 && cmds[j].status == IO && Replay(q, cmds[..j]).Going? && At(q, cmds, j).done < q.num
    ensures At(q, cmds, |cmds| - 1).done < q.num
    ensures SmallerSince(q, cmds, j, SizeAt(q, cmds, j))
    ensures Kept(q, At(q, cmds, |cmds| - 1), cmds[|cmds| - 1]) ==
      if Replay(q, cmds).n.done >= At(q, cmds, j).done + Chunk(q, At(q, cmds, j), cmds[j].cap)
      then At(q, cmds, |cmds| - 1).trialCap else 0
  {
    var last := |cmds| - 1;
    var prefix := cmds[..last];
    j := TrialInProgress(q, prefix);
    assert prefix[..j] == cmds[..j];
    SmallerChunk(q, At(q, cmds, last), cmds[last].cap);
    SmallerSinceToo(q, cmds, j, SizeAt(q, cmds, j));
  }

  // ------------------------------------------------------ on a real bridge

  /** A bridge that fails commands of more than `limit` bytes, over a disc with
      some bad blocks (numbered from the first one asked for): a command fails
      with IO exactly when it is too large or covers a bad block, and otherwise
      reads in full. */
  datatype Bridge = Bridge(limit: nat, bad: set<nat>)

  predicate Clean(b: Bridge, from: nat, to: nat) {
    forall x | x in b.bad :: !(from <= x < to)
  }

  predicate Answers(b: Bridge, q: Request, n: Nego, c: Cmd)
    requires q.size > 0 && n.done < q.num
  {
    var chunk := Chunk(q, n, c.cap);
    if Span(chunk, q.size) > b.limit || !Clean(b, n.done, n.done + chunk) then c.status == IO
    else c.status == OK && c.actual == Span(chunk, q.size)
  }

  predicate OnBridge(b: Bridge, q: Request, cmds: seq<Cmd>)
    requires q.size > 0 && Issued(q, cmds)
  {
    cmds == [] ||
    (var k := |cmds| - 1;
     OnBridge(b, q, cmds[..k]) && Answers(b, q, Replay(q, cmds[..k]).n, cmds[k]))
  }

  lemma {:induction false} DoneIsClean(b: Bridge, q: Request, cmds: seq<Cmd>)
    requires q.size > 0 && Issued(q, cmds) && OnBridge(b, q, cmds) && Replay(q, cmds).Going?
    ensures Replay(q, cmds).n.done <= q.num && Clean(b, 0, Replay(q, cmds).n.done)
  {
    if cmds != [] {
      DoneIsClean(b, q, cmds[..|cmds| - 1]);
    }
  }

  /** A bad block asked for lies less than 8192 bytes past block `from`. */
  predicate DefectWithin(b: Bridge, q: Request, from: nat)
    requires q.size > 0
  {
    exists x | x in b.bad :: from <= x < from + Whole(MIN_BYTES_PER_TRANSFER, q.size) && x < q.num
  }

  /** A single command that may not be halved any further, and failed, covers a
      bad block within the next 8192 bytes. */
  lemma StopsAtDefect(b: Bridge, q: Request, n: Nego, c: Cmd)
    requires 0 < q.size <= MIN_BYTES_PER_TRANSFER <= b.limit && n.done < q.num
    requires Answers(b, q, n, c) && Step(q, n, c).Stop?
    ensures Step(q, n, c).outcome == if n.done > 0 then Count(n.done) else Failure(IO)
    ensures DefectWithin(b, q, n.done)
  {
    var chunk := Chunk(q, n, c.cap);
    assert Span(chunk, q.size) <= MIN_BYTES_PER_TRANSFER;
    WholeIs(MIN_BYTES_PER_TRANSFER, q.size, chunk);
    assert !Clean(b, n.done, n.done + chunk);
  }

  /** It stops only near a real defect: all blocks when all are good, else the
      good ones up to less than 8192 bytes before a bad one, or IO when a bad one
      lies within the first 8192 bytes. */
  lemma StopsOnlyNearDefect(b: Bridge, q: Request, cmds: seq<Cmd>)
    requires 0 < q.size <= MIN_BYTES_PER_TRANSFER <= b.limit && q.num > 0
    requires Issued(q, cmds) && OnBridge(b, q, cmds) && HasEnded(q, cmds)
    ensures Answer(q, cmds) == Count(q.num) <==> Clean(b, 0, q.num)
    ensures var a := Answer(q, cmds);
      if a.Count? then
        && 0 < a.blocks <= q.num && Clean(b, 0, a.blocks)
        && (a.blocks < q.num ==> DefectWithin(b, q, a.blocks))
      else
        a.status == IO && DefectWithin(b, q, 0)
  {
    if Replay(q, cmds).Going? {
      DoneIsClean(b, q, cmds);
    } else {
      var k := |cmds| - 1;
      DoneIsClean(b, q, cmds[..k]);
      StopsAtDefect(b, q, Replay(q, cmds[..k]).n, cmds[k]);
    }
  }

  /** A trial with enough blocks left starts with a full-sized command, unless the
      cap is lower. */
  lemma FirstTryIsFull(b: Bridge, q: Request, n: Nego, c: Cmd)
    requires q.size > 0 && 0 < n.trialCap < c.cap && n.done + BlocksIn(n.trialCap, q.size) <= q.num
    requires n.done < q.num && Answers(b, q, n, c) && c.status == OK
    ensures Span(BlocksIn(n.trialCap, q.size), q.size) <= b.limit
  {
    assert Chunk(q, n, c.cap) == BlocksIn(n.trialCap, q.size);
  }

  /** The last command of a read that goes on, and what it led to. */
  lemma LastStep(b: Bridge, q: Request, cmds: seq<Cmd>)
    requires q.size > 0 && Issued(q, cmds) && OnBridge(b, q, cmds) && cmds != [] && Replay(q, cmds).Going?
    ensures var k := |cmds| - 1;
      && Issued(q, cmds[..k]) && OnBridge(b, q, cmds[..k]) && Replay(q, cmds[..k]).Going?
      && At(q, cmds, k).done < q.num && Answers(b, q, At(q, cmds, k), cmds[k])
      && Replay(q, cmds) == Step(q, At(q, cmds, k), cmds[k])
      && Allowed(q, cmds) <= cmds[k].cap <= Allowed(q, cmds[..k])
  {
    hide Chunk, Step, Answers;
  }

  /** A success goes on with the size being tried. */
  lemma SuccessInTrial(q: Request, n: Nego, c: Cmd)
    requires q.size > 0 && n.done < q.num && c.status == OK
    requires Step(q, n, c).Going? && Step(q, n, c).n.trialCap > 0
    ensures Step(q, n, c).n.trialCap == n.trialCap
  {
    hide Chunk;
  }

  /** A failure makes it smaller than what is still to be read. */
  lemma FailureInTrial(q: Request, n: Nego, c: Cmd)
    requires q.size > 0 && n.done < q.num && c.status != OK && Step(q, n, c).Going?
    ensures var m := Step(q, n, c).n; m.done + BlocksIn(m.trialCap, q.size) <= q.num
  {
    hide BlocksIn;
    HalvedIsSmaller(Chunk(q, n, c.cap), q.size);
  }

  /** While a size is being tried, either its first command is still to come, or
      a full-sized one went through, or another thread has lowered the cap below
      it already. */
  lemma {:induction false} TriedSizeFits(b: Bridge, q: Request, cmds: seq<Cmd>)
    requires q.size > 0 && Issued(q, cmds) && OnBridge(b, q, cmds)
    requires Replay(q, cmds).Going? && Replay(q, cmds).n.trialCap > 0
    ensures var t := Replay(q, cmds).n.trialCap;
      && cmds != []
      && (cmds[|cmds| - 1].status == OK ==>
            Span(BlocksIn(t, q.size), q.size) <= b.limit || Allowed(q, cmds) <= t)
      && (cmds[|cmds| - 1].status != OK ==> Replay(q, cmds).n.done + BlocksIn(t, q.size) <= q.num)
  {
    hide Chunk, Step, Replay, Issued, OnBridge, Allowed, Answers, BlocksIn, Span;
    NoTrialYet(q);
    LastStep(b, q, cmds);
    var k := |cmds| - 1;
    var n, c := At(q, cmds, k), cmds[k];
    if c.status == OK {
      SuccessInTrial(q, n, c);
      TriedSizeFits(b, q, cmds[..k]);
      assert cmds[..k][k - 1] == cmds[k - 1];
      if cmds[k - 1].status != OK && n.trialCap < c.cap { FirstTryIsFull(b, q, n, c); }
    } else {
      FailureInTrial(q, n, c);
    }
  }

  lemma NoTrialYet(q: Request)
    requires q.size > 0
    ensures Replay(q, []) == Going(START)
  {
  }

  /** The cap kept is sound: on this bridge no command sized by it for these
      blocks is ever too large again. */
  lemma KeptCapFits(b: Bridge, q: Request, cmds: seq<Cmd>)
    requires q.size > 0 && Issued(q, cmds) && OnBridge(b, q, cmds) && cmds != []
    requires Replay(q, cmds[..|cmds| - 1]).Going?
    requires 0 < Kept(q, At(q, cmds, |cmds| - 1), cmds[|cmds| - 1]) < cmds[|cmds| - 1].cap
    ensures Span(BlocksIn(Kept(q, At(q, cmds, |cmds| - 1), cmds[|cmds| - 1]), q.size), q.size) <= b.limit
  {
    var k := |cmds| - 1;
    TriedSizeFits(b, q, cmds[..k]);
    if cmds[k - 1].status != OK { FirstTryIsFull(b, q, At(q, cmds, k), cmds[k]); }
  }

  /** And it is no smaller than it has to be: a cap of more than 8192 bytes is at least half
      of what the bridge can do, unless the command that failed last covered a defect. */
  lemma KeptCapIsLarge(b: Bridge, q: Request, cmds: seq<Cmd>) returns (j: nat)
    requires q.size > 0 && Issued(q, cmds) && OnBridge(b, q, cmds) && cmds != []
    requires Replay(q, cmds[..|cmds| - 1]).Going?
    requires Kept(q, At(q, cmds, |cmds| - 1), cmds[|cmds| - 1]) > 0
    ensures j < |cmds| - 1 && cmds[j].status == IO && Replay(q, cmds[..j]).Going? && At(q, cmds, j).done < q.num
    ensures var kept := Kept(q, At(q, cmds, |cmds| - 1), cmds[|cmds| - 1]);
      || kept == 8192 || 2 * kept >= b.limit
      || !Clean(b, At(q, cmds, j).done, At(q, cmds, j).done + Chunk(q, At(q, cmds, j), cmds[j].cap))
  {
    var prefix := cmds[..|cmds| - 1];
    j := TrialIsHalf(q, prefix);
    assert prefix[..j] == cmds[..j] && prefix[j] == cmds[j];
    AnsweredOnBridge(b, q, prefix, j);
  }

  lemma {:induction false} AnsweredOnBridge(b: Bridge, q: Request, cmds: seq<Cmd>, j: nat)
    requires q.size > 0 && Issued(q, cmds) && OnBridge(b, q, cmds) && j < |cmds|
    requires Replay(q, cmds[..j]).Going? && At(q, cmds, j).done < q.num
    ensures Answers(b, q, At(q, cmds, j), cmds[j])
  {
    if j < |cmds| - 1 {
      var prefix := cmds[..|cmds| - 1];
      assert prefix[..j] == cmds[..j] && prefix[j] == cmds[j];
      AnsweredOnBridge(b, q, prefix, j);
    }
  }

  /** One more command on a bridge, and what it leads to. */
  lemma OnBridgeOneMore(b: Bridge, q: Request, cmds: seq<Cmd>, n: Nego, c: Cmd)
    requires q.size > 0 && Issued(q, cmds) && OnBridge(b, q, cmds) && Replay(q, cmds) == Going(n) && n.done < q.num
    requires 8192 <= c.cap <= Allowed(q, cmds) && Answers(b, q, n, c)
    ensures Issued(q, cmds + [c]) && OnBridge(b, q, cmds + [c]) && Replay(q, cmds + [c]) == Step(q, n, c)
    ensures Allowed(q, cmds + [c]) == if 0 < Kept(q, n, c) < c.cap then Kept(q, n, c) else c.cap
  {
    IssueOne(q, cmds, n, c);
    assert (cmds + [c])[..|cmds|] == cmds;
  }

  /** That does happen: 27 sectors fail on a bridge that can do 17, and of the range they
      covered all but the last is read 13 at a time. The 13 behind that reach past the
      range and meet a scratch there, as do the 6 tried next; 3 end the range, and the
      device is held to 8192 bytes, a fifth of what it can do. */
  lemma ScratchBehindTheRange() returns (b: Bridge, q: Request, cmds: seq<Cmd>)
    ensures b == Bridge(40000, {30}) && q == Request(64, 2352) && |cmds| == 6 && Issued(q, cmds) && OnBridge(b, q, cmds)
    ensures Replay(q, cmds[..5]).Going? && At(q, cmds, 5).done < q.num
    ensures Kept(q, At(q, cmds, 5), cmds[5]) == 8192
  {
    hide Chunk, Replay, Issued, OnBridge, Allowed, Span, Whole;
    b, q, cmds := Bridge(40000, {30}), Request(64, 2352), [];
    NothingIssued(b, q);
    var n := START;
    ChunkIsQuotient(q, n, 65536);
    n, cmds := OneMoreFails(b, q, cmds, n, 65536, 27, 27 * 2352);
    ChunkIsQuotient(q, n, 65536);
    n, cmds := OneMoreReads(b, q, cmds, n, 65536, 13, 13 * 2352);
    ChunkIsQuotient(q, n, 65536);
    n, cmds := OneMoreReads(b, q, cmds, n, 65536, 13, 13 * 2352);
    ChunkIsQuotient(q, n, 65536);
    n, cmds := OneMoreFails(b, q, cmds, n, 65536, 13, 13 * 2352);
    ChunkIsQuotient(q, n, 65536);
    n, cmds := OneMoreFails(b, q, cmds, n, 65536, 6, 6 * 2352);
    ChunkIsQuotient(q, n, 65536);
    var c := Cmd(65536, OK, 3 * 2352);
    OnBridgeOneMore(b, q, cmds, n, c);
    assert (cmds + [c])[..5] == cmds;
    cmds := cmds + [c];
  }

  lemma NothingIssued(b: Bridge, q: Request)
    requires q.size > 0
    ensures Issued(q, []) && OnBridge(b, q, []) && Replay(q, []) == Going(START)
    ensures Allowed(q, []) == 65536
  {
  }

  lemma OneMoreFails(b: Bridge, q: Request, cmds: seq<Cmd>, n: Nego, cap: nat, blocks: nat, bytes: nat)
    returns (m: Nego, more: seq<Cmd>)
    requires q.size > 0 && Issued(q, cmds) && OnBridge(b, q, cmds) && Replay(q, cmds) == Going(n) && n.done < q.num
    requires 8192 <= cap == Allowed(q, cmds) && blocks == Chunk(q, n, cap) > 1 && bytes > 8192
    requires bytes == Span(blocks, q.size)
    requires bytes > b.limit || !Clean(b, n.done, n.done + blocks)
    ensures more == cmds + [Cmd(cap, IO, 0)] && Issued(q, more) && OnBridge(b, q, more) && Replay(q, more) == Going(m)
    ensures Allowed(q, more) == cap
    ensures m.done == n.done && m.trialCap == if bytes / 2 < 8192 then 8192 else bytes / 2
    ensures m.trialEnd == if n.trialCap == 0 then n.done + blocks else n.trialEnd
  {
    hide *;
    FailsLarge(b, q, n, cap, blocks, bytes);
    OnBridgeOneMore(b, q, cmds, n, Cmd(cap, IO, 0));
    m, more := Step(q, n, Cmd(cap, IO, 0)).n, cmds + [Cmd(cap, IO, 0)];
  }

  lemma FailsLarge(b: Bridge, q: Request, n: Nego, cap: nat, blocks: nat, bytes: nat)
    requires q.size > 0 && n.done < q.num && blocks == Chunk(q, n, cap) > 1 && bytes > 8192
    requires bytes == Span(blocks, q.size)
    requires bytes > b.limit || !Clean(b, n.done, n.done + blocks)
    ensures Answers(b, q, n, Cmd(cap, IO, 0)) && Kept(q, n, Cmd(cap, IO, 0)) == 0
    ensures Step(q, n, Cmd(cap, IO, 0)).Going?
    ensures var m := Step(q, n, Cmd(cap, IO, 0)).n;
      && m.done == n.done && m.trialCap == (if bytes / 2 < 8192 then 8192 else bytes / 2)
      && m.trialEnd == if n.trialCap == 0 then n.done + blocks else n.trialEnd
  {
    hide Chunk, Span, Clean;
  }

  lemma ReadsInFull(b: Bridge, q: Request, n: Nego, cap: nat, blocks: nat, bytes: nat)
    requires q.size > 0 && n.done < q.num && blocks == Chunk(q, n, cap) && n.done + blocks < n.trialEnd
    requires bytes == Span(blocks, q.size) <= b.limit && Clean(b, n.done, n.done + blocks)
    ensures Answers(b, q, n, Cmd(cap, OK, bytes)) && Kept(q, n, Cmd(cap, OK, bytes)) == 0
    ensures Step(q, n, Cmd(cap, OK, bytes)) == Going(n.(done := n.done + blocks))
  {
    hide Chunk, Span, Clean;
  }

  lemma OneMoreReads(b: Bridge, q: Request, cmds: seq<Cmd>, n: Nego, cap: nat, blocks: nat, bytes: nat)
    returns (m: Nego, more: seq<Cmd>)
    requires q.size > 0 && Issued(q, cmds) && OnBridge(b, q, cmds) && Replay(q, cmds) == Going(n) && n.done < q.num
    requires 8192 <= cap == Allowed(q, cmds) && blocks == Chunk(q, n, cap) && n.done + blocks < n.trialEnd
    requires bytes == Span(blocks, q.size) <= b.limit && Clean(b, n.done, n.done + blocks)
    ensures more == cmds + [Cmd(cap, OK, bytes)]
    ensures Issued(q, more) && OnBridge(b, q, more) && Replay(q, more) == Going(m) && Allowed(q, more) == cap
    ensures m == n.(done := n.done + blocks)
  {
    hide *;
    ReadsInFull(b, q, n, cap, blocks, bytes);
    OnBridgeOneMore(b, q, cmds, n, Cmd(cap, OK, bytes));
    m, more := n.(done := n.done + blocks), cmds + [Cmd(cap, OK, bytes)];
  }
}
