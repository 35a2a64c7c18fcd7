/** The log of a handle: for every CBW issued, what it asked for, whether the device
    took it, and each transfer as libusb answered it. */
module Exchanges {
  import opened Bytes
  import opened UsbDevice
  import opened Wrappers

  /** What a CBW asks for: a CDB, and a data phase of `len` bytes if the caller has
      a buffer for it. */
  datatype Ask = Ask(cdb: seq<byte>, len: nat, dataIn: bool, buffered: bool)

  /** One transfer: what libusb answered, and the packets it took off Bulk-In. */
  datatype Move = Move(ret: Ret, count: nat, packets: seq<Packet>)

  /** One transaction. `at` is when its CBW was issued, `defied` whether a request of the
      host was unanswered then that no Reset Recovery had made up for, `notReady` whether
      the drive counted as not ready; `heard` is whether the device took that CBW for a
      command, and `moves` are the transfers behind it. */
  datatype Exchange = Exchange(serial: nat, ask: Ask, at: nat, defied: bool, notReady: bool, heard: bool, cbw: Move,
                               moves: seq<Move>)

  /** A disc, as what it holds for each read. */
  type Contents = imap<seq<byte>, seq<byte>>

  const NO_EXCHANGE := Exchange(0, Ask([], 0, false, false), 0, false, false, false, Move(Success, 0, []), [])

  predicate HasData(a: Ask) {
    a.len > 0 && a.buffered
  }

  function DataMoves(a: Ask): nat {
    if HasData(a) then 1 else 0
  }

  /** The command data that all transfers so far took off the pipe. */
  function Eaten(moves: seq<Move>): seq<byte> {
    if moves == [] then []
    else
      var n := |moves| - 1;
      Eaten(moves[..n]) + Data(moves[n].packets)
  }

  lemma EatenOneMore(moves: seq<Move>, m: Move)
    ensures Eaten(moves + [m]) == Eaten(moves) + Data(m.packets)
  {
    assert (moves + [m])[..|moves|] == moves;
  }

  /** What the data phase put into the caller's buffer. */
  function Landed(x: Exchange): seq<byte> {
    if HasData(x.ask) && x.moves != [] then Wire(x.moves[0].packets) else []
  }

  /** The transfer that was to bring the CSW, the repeated one if there are two. */
  function StatusMove(x: Exchange): Option<Move> {
    if |x.moves| > DataMoves(x.ask) then Some(x.moves[|x.moves| - 1]) else None
  }

  /** The CSW that transfer took off the pipe. */
  function CswOf(x: Exchange): Option<Packet> {
    match StatusMove(x)
    case None => None
    case Some(m) =>
      if m.packets != [] && m.packets[|m.packets| - 1].Csw? then Some(m.packets[|m.packets| - 1]) else None
  }

  // ------------------------------------------------------ requests unanswered

  /** From device `b` to device `a`, with these exchanges in between: a device that owed
      the host no answer, and left no request unanswered since, owes none now, and did
      not at the start of any of them. */
  predicate Answering(b: Device, a: Device, part: seq<Exchange>) {
    && b.unanswered <= a.unanswered
    && (!b.defiant && a.unanswered == b.unanswered ==> !a.defiant && forall x | x in part :: !x.defied)
  }

  lemma AnsweringBoth(b: Device, m: Device, a: Device, part: seq<Exchange>, tail: seq<Exchange>)
    requires Answering(b, m, part) && Answering(m, a, tail)
    ensures Answering(b, a, part + tail)
  {
  }

  lemma AnsweringNone(d: Device)
    ensures Answering(d, d, [])
  {
  }

  // ------------------------------------------------------------- deliveries

  /** Entry `t` of a log is about CBW `t`. */
  predicate Numbered(log: seq<Exchange>) {
    forall t | 0 <= t < |log| :: log[t].serial == t
  }

  /** The CBWs the device took, in order. */
  function TakenIn(log: seq<Exchange>): seq<nat> {
    if log == [] then []
    else
      var x := log[|log| - 1];
      TakenIn(log[..|log| - 1]) + if x.heard then [x.serial] else []
  }

  lemma TakenInOneMore(log: seq<Exchange>, x: Exchange)
    ensures TakenIn(log + [x]) == TakenIn(log) + if x.heard then [x.serial] else []
  {
    assert (log + [x])[..|log|] == log;
  }

  /** How many of the CBWs a device took were issued after number `from` for `ask`. */
  function Deliveries(taken: seq<nat>, log: seq<Exchange>, from: nat, ask: Ask): nat {
    if taken == [] then 0
    else
      var t := taken[|taken| - 1];
      Deliveries(taken[..|taken| - 1], log, from, ask)
        + if from < t < |log| && log[t].ask == ask then 1 else 0
  }

  /** The same count, read off the log. */
  function TakenFor(part: seq<Exchange>, ask: Ask): nat {
    if part == [] then 0
    else
      var x := part[|part| - 1];
      TakenFor(part[..|part| - 1], ask) + if x.heard && x.ask == ask then 1 else 0
  }

  lemma DeliveriesOneMore(taken: seq<nat>, t: nat, log: seq<Exchange>, from: nat, ask: Ask)
    ensures Deliveries(taken + [t], log, from, ask) ==
      Deliveries(taken, log, from, ask) + if from < t < |log| && log[t].ask == ask then 1 else 0
  {
    assert (taken + [t])[..|taken|] == taken;
  }

  lemma TakenForOneMore(part: seq<Exchange>, x: Exchange, ask: Ask)
    ensures TakenFor(part + [x], ask) == TakenFor(part, ask) + if x.heard && x.ask == ask then 1 else 0
  {
    assert (part + [x])[..|part|] == part;
  }

  /** What entry `t` of a log adds to the count. */
  lemma DeliveryOf(log: seq<Exchange>, t: nat, from: nat, ask: Ask)
    requires Numbered(log) && t < |log|
    ensures Deliveries(TakenIn(log[..t + 1]), log, from, ask) ==
      Deliveries(TakenIn(log[..t]), log, from, ask)
      + if from < t && log[t].heard && log[t].ask == ask then 1 else 0
  {
    assert log[..t + 1] == log[..t] + [log[t]];
    TakenInOneMore(log[..t], log[t]);
    if log[t].heard {
      DeliveriesOneMore(TakenIn(log[..t]), t, log, from, ask);
    } else {
      assert TakenIn(log[..t]) + [] == TakenIn(log[..t]);
    }
  }

  lemma {:induction false} DeliveriesOfPrefix(log: seq<Exchange>, n: nat, from: nat, ask: Ask)
    requires Numbered(log) && n <= |log|
    ensures Deliveries(TakenIn(log[..n]), log, from, ask) == if from < n then TakenFor(log[from + 1..n], ask) else 0
  {
    if n > 0 {
      var t := n - 1;
      DeliveriesOfPrefix(log, t, from, ask);
      DeliveryOf(log, t, from, ask);
      if from < t {
        assert log[from + 1..n] == log[from + 1..t] + [log[t]];
        TakenForOneMore(log[from + 1..t], log[t], ask);
      }
    }
  }

  /** Counted on the device or on the log, deliveries are the same. */
  lemma DeliveriesAreTaken(log: seq<Exchange>, before: seq<Exchange>, part: seq<Exchange>, ask: Ask)
    requires Numbered(log) && log == before + part && before != []
    ensures Deliveries(TakenIn(log), log, |before| - 1, ask) == TakenFor(part, ask)
  {
    DeliveriesOfPrefix(log, |log|, |before| - 1, ask);
    assert log[..|log|] == log && log[|before|..|log|] == part;
  }

  lemma {:induction false} TakenForBoth(a: seq<Exchange>, b: seq<Exchange>, ask: Ask)
    ensures TakenFor(a + b, ask) == TakenFor(a, ask) + TakenFor(b, ask)
  {
    if b == [] {
      assert a + b == a;
    } else {
      assert (a + b)[..|a + b| - 1] == a + b[..|b| - 1];
      TakenForBoth(a, b[..|b| - 1], ask);
    }
  }
}
