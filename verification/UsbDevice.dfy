/** A Bulk-Only device as the host meets it on the bus: an adversary that may
    stall, time out, send short, send too much or hold its CSW back. Every bus
    action is a total function of the device and of a choice the adversary makes,
    so a statement about all choices is a statement about all devices.

    What the adversary cannot do: a payload packet never decodes as a CSW; a CSW
    carries the tag of the CBW it answers, comes once for each command, and ends
    what the device sends for it; data bytes that arrive after it leave Bulk-Out
    clean; and a CBW of which fewer than 31 bytes went out is no command. */
module UsbDevice {
  import opened Bytes
  import opened Wrappers

  /** What libusb answers. OtherError stands for every code the host does not
      tell apart. */
  datatype Ret = Success | Timeout | Pipe | Gone | Overflow | OtherError

  /** One USB packet on the Bulk-In pipe. `origin` is the serial number of the
      CBW it answers; a CSW's tag is that number modulo 2^32. */
  datatype Packet =
    | Payload(origin: nat, bytes: seq<byte>)
    | Csw(origin: nat, signed: bool, residue: nat, status: byte)

  datatype Act = NoAct | BulkOut | BulkIn | ClearHalt | Recovery

  const CBW_SIZE: nat := 31
  const CSW_SIZE: nat := 13

  /** life       bus transfers left before the device leaves the bus
      queue      the Bulk-In pipe, oldest packet first
      current    serial of the last CBW taken as a command
      busy       that command has not queued its CSW yet
      partialCbw Bulk-Out holds bytes that are not a whole CBW
      faulted    it has reported a Phase Error, and takes no CBW before it is reset
      pushed     payload bytes queued so far for the current command
      taken      serials of all commands taken, in order
      defiant    a reset or clear-halt request went unanswered, and no Reset Recovery
                 since then was answered in full
      unanswered clear-halts and Reset Recoveries that were not answered in full
      lateErrors CBWs taken whole although the host was told of an error
      stalls     times the device itself halted its Bulk-In pipe */
  datatype Device = Device(
    life: nat,
    queue: seq<Packet>,
    current: nat,
    busy: bool,
    partialCbw: bool,
    faulted: bool,
    inHalted: bool,
    outHalted: bool,
    pushed: seq<byte>,
    taken: seq<nat>,
    recoveries: nat,
    lastAct: Act,
    defiant: bool,
    unanswered: nat,
    lateErrors: nat,
    stalls: nat)

  datatype Verdict = Verdict(signed: bool, residue: nat, status: byte)

  /** What a device at work adds to its pipe: payload packets, then perhaps the
      CSW that ends the command. */
  datatype Emission = Emission(packets: seq<seq<byte>>, csw: Option<Verdict>)

  datatype CbwChoice = CbwChoice(ret: Ret, count: nat, heard: bool)
  datatype InChoice = InChoice(emission: Emission, packets: nat, ret: Ret, count: nat)
  datatype OutChoice = OutChoice(emission: Emission, ret: Ret, count: nat)
  datatype RecoveryChoice = RecoveryChoice(resetOk: bool, inOk: bool, outOk: bool)

  datatype Sent = Sent(dev: Device, ret: Ret, count: nat)
  datatype Got = Got(dev: Device, ret: Ret, count: nat, packets: seq<Packet>)

  // ------------------------------------------------------------------ packets

  function Payloads(origin: nat, packets: seq<seq<byte>>): seq<Packet> {
    seq(|packets|, i requires 0 <= i < |packets| => Payload(origin, packets[i]))
  }

  /** The command data among some packets. */
  function Data(packets: seq<Packet>): seq<byte> {
    if packets == [] then []
    else (if packets[0].Payload? then packets[0].bytes else []) + Data(packets[1..])
  }

  /** The same packets as bytes in the host's buffer, where a CSW read as data
      is thirteen bytes like any other. */
  function Wire(packets: seq<Packet>): seq<byte> {
    if packets == [] then []
    else (if packets[0].Payload? then packets[0].bytes else seq(CSW_SIZE, _ => 0)) + Wire(packets[1..])
  }

  predicate AllPayload(packets: seq<Packet>) {
    forall p | p in packets :: p.Payload?
  }

  lemma {:induction false} DataConcat(a: seq<Packet>, b: seq<Packet>)
    ensures Data(a + b) == Data(a) + Data(b)
  {
    if a == [] {
      assert a + b == b;
    } else {
      assert (a + b)[1..] == a[1..] + b;
      DataConcat(a[1..], b);
    }
  }

  lemma {:induction false} WireOfPayload(packets: seq<Packet>)
    requires AllPayload(packets)
    ensures Wire(packets) == Data(packets)
  {
    if packets != [] {
      WireOfPayload(packets[1..]);
    }
  }

  /** Thirteen bytes ending in a CSW hold no data besides. */
  lemma {:induction false} WireEndingInCsw(packets: seq<Packet>)
    requires packets != [] && packets[|packets| - 1].Csw?
    ensures |Wire(packets)| >= CSW_SIZE
    ensures |Wire(packets)| == CSW_SIZE ==> Data(packets) == []
  {
    if |packets| > 1 {
      WireEndingInCsw(packets[1..]);
    } else {
      assert packets[1..] == [];
    }
  }

  // -------------------------------------------------------------- bus actions

  /** What the emission of `e` adds behind the queue. */
  function Added(d: Device, e: Emission): seq<Packet> {
    Payloads(d.current, e.packets)
    + match e.csw case None => [] case Some(v) => [Csw(d.current, v.signed, v.residue, v.status)]
  }

  function Emit(d: Device, e: Emission): Device {
    if !d.busy then d
    else
      d.(queue := d.queue + Added(d, e), pushed := d.pushed + Data(Payloads(d.current, e.packets)),
         busy := e.csw.None?, faulted := d.faulted || (e.csw.Some? && e.csw.value.status == 0x02))
  }

  /** A whole CBW reaches the device: a command if it was waiting for one,
      otherwise bytes it cannot make sense of. After a Phase Error it waits for nothing
      but a reset (sections 6.6.3 and 6.7 of Bulk-Only Transport rev 1.0). */
  function Hear(d: Device, serial: nat): Device {
    if d.busy || d.partialCbw || d.faulted then d.(partialCbw := true)
    else d.(current := serial, busy := true, pushed := [], taken := d.taken + [serial])
  }

  /** The 31 bytes of a CBW on the Bulk-Out pipe. */
  function SendCbw(d: Device, serial: nat, c: CbwChoice): Sent {
    var count := if c.count < CBW_SIZE then c.count else CBW_SIZE;
    if d.life == 0 then Sent(d, Gone, 0)
    else if c.ret.Gone? then
      Sent(d.(life := 0, taken := if c.heard then d.taken + [serial] else d.taken), Gone, count)
    else
      var on := d.(life := d.life - 1, lastAct := BulkOut);
      if on.outHalted then Sent(on, Pipe, 0)
      else
        var stalled := on.(outHalted := c.ret.Pipe?);
        if count == 0 then Sent(stalled, c.ret, 0)
        else if count < CBW_SIZE then Sent(stalled.(partialCbw := true), c.ret, count)
        else if c.ret.Success? || c.ret.Timeout? then Sent(Hear(on, serial), c.ret, CBW_SIZE)
        else if c.heard then
          var late := Hear(stalled, serial);
          Sent(late.(lateErrors := late.lateErrors + 1), c.ret, CBW_SIZE)
        else Sent(stalled.(partialCbw := true), c.ret, CBW_SIZE)
  }

  /** A Bulk-In transfer of at most `len` bytes. */
  function ReadIn(d: Device, len: nat, c: InChoice): Got {
    if d.life == 0 then Got(d, Gone, 0, [])
    else if c.ret.Gone? then Got(d.(life := 0), Gone, c.count, [])
    else
      var on := Emit(d.(life := d.life - 1, lastAct := BulkIn), c.emission);
      if on.inHalted then Got(on, Pipe, 0, [])
      else
        var n := if c.packets < |on.queue| then c.packets else |on.queue|;
        var packets := on.queue[..n];
        var size := |Wire(packets)|;
        var counted := c.ret.Success? || c.ret.Timeout? || c.ret.Pipe?;
        var ret := if counted && size > len then Overflow else c.ret;
        Got(on.(queue := on.queue[n..], inHalted := ret.Pipe?,
                stalls := on.stalls + if ret.Pipe? then 1 else 0), ret,
            if counted && size <= len then size else c.count, packets)
  }

  /** A Bulk-Out transfer of the `len` data bytes of a command. */
  function WriteOut(d: Device, len: nat, c: OutChoice): Sent {
    if d.life == 0 then Sent(d, Gone, 0)
    else if c.ret.Gone? then Sent(d.(life := 0), Gone, c.count)
    else
      var on := Emit(d.(life := d.life - 1, lastAct := BulkOut), c.emission);
      if on.outHalted then Sent(on, Pipe, 0)
      else Sent(on.(outHalted := c.ret.Pipe?), c.ret, if c.count < len then c.count else len)
  }

  function Unstall(d: Device, isIn: bool, ok: bool): Device {
    if !ok then d.(lastAct := ClearHalt, defiant := true, unanswered := d.unanswered + 1)
    else if isIn then d.(lastAct := ClearHalt, inHalted := false)
    else d.(lastAct := ClearHalt, outHalted := false)
  }

  /** Reset Recovery: Bulk-Only Mass Storage Reset, then a clear-halt on each
      pipe (section 5.3.4 of Bulk-Only Transport rev 1.0). */
  function Recover(d: Device, c: RecoveryChoice): Device {
    var r := if c.resetOk then d.(queue := [], busy := false, partialCbw := false, faulted := false) else d;
    var answered := c.resetOk && c.inOk && c.outOk;
    r.(inHalted := r.inHalted && !c.inOk, outHalted := r.outHalted && !c.outOk,
       recoveries := r.recoveries + 1, lastAct := Recovery,
       defiant := !answered, unanswered := r.unanswered + if answered then 0 else 1)
  }

  // --------------------------------------------------------------- invariants

  /** Waiting for a CBW, with nothing stale in either pipe. */
  predicate Synced(d: Device) {
    !d.busy && !d.partialCbw && !d.faulted && d.queue == [] && !d.inHalted && !d.outHalted
  }

  predicate Quiet(d: Device) {
    Synced(d) || d.defiant || d.life == 0
  }

  /** In the middle of command `s`: all that is queued, and all that was read so
      far (`eaten`), was sent for `s`, and its CSW, once queued, comes last and says
      whether the device needs a reset. */
  ghost predicate Mine(d: Device, s: nat, eaten: seq<byte>) {
    && d.current == s && !d.partialCbw
    && (forall i | 0 <= i < |d.queue| :: d.queue[i].origin == s)
    && (forall i | 0 <= i < |d.queue| :: d.queue[i].Csw? ==> i == |d.queue| - 1 && !d.busy)
    && (d.busy ==> !d.faulted)
    && (forall i | 0 <= i < |d.queue| && d.queue[i].Csw? :: d.faulted <==> d.queue[i].status == 0x02)
    && d.pushed == eaten + Data(d.queue)
  }

  /** Some packets, all sent for commands `lo` to `hi`. */
  predicate From(packets: seq<Packet>, lo: nat, hi: nat) {
    forall p | p in packets :: lo <= p.origin <= hi
  }

  /** All that the device holds, and the CSW it may still owe, belongs to commands
      `lo` to `hi`. */
  predicate Within(d: Device, lo: nat, hi: nat) {
    lo <= hi && From(d.queue, lo, hi) && (d.busy ==> lo <= d.current <= hi)
  }

  lemma AddedData(d: Device, e: Emission)
    ensures Data(Added(d, e)) == Data(Payloads(d.current, e.packets))
  {
    var load := Payloads(d.current, e.packets);
    var end := Added(d, e)[|load|..];
    assert Added(d, e) == load + end;
    DataConcat(load, end);
    assert Data(end) == [] by { if end != [] { assert end[1..] == []; } }
  }

  lemma EmitKeepsMine(d: Device, e: Emission, s: nat, eaten: seq<byte>)
    requires Mine(d, s, eaten)
    ensures Mine(Emit(d, e), s, eaten)
  {
    if d.busy {
      assert Emit(d, e).queue == d.queue + Added(d, e);
      AddedData(d, e);
      DataConcat(d.queue, Added(d, e));
    }
  }

  /** What a device at work does not touch. */
  lemma EmitShifts(d: Device, e: Emission)
    ensures var a := Emit(d, e);
      && a.life == d.life && a.current == d.current && a.inHalted == d.inHalted && a.outHalted == d.outHalted
      && a.taken == d.taken && a.recoveries == d.recoveries && a.defiant == d.defiant
      && a.unanswered == d.unanswered && a.lateErrors == d.lateErrors && a.stalls == d.stalls
  {
  }

  lemma EmitKeepsWithin(d: Device, e: Emission, lo: nat, s: nat)
    requires Within(d, lo, s)
    ensures Within(Emit(d, e), lo, s)
  {
    forall p | p in Emit(d, e).queue
      ensures lo <= p.origin <= s
    {
      if p !in d.queue {
        assert d.busy && p.origin == d.current;
      }
    }
  }

  /** The first `n` packets off the pipe, and what stays behind them. */
  function Taken(d: Device, n: nat): Device
    requires n <= |d.queue|
  {
    d.(queue := d.queue[n..])
  }

  lemma TakenKeepsMine(d: Device, n: nat, s: nat, eaten: seq<byte>)
    requires Mine(d, s, eaten) && n <= |d.queue|
    ensures Mine(Taken(d, n), s, eaten + Data(d.queue[..n]))
    ensures forall i | 0 <= i < n :: d.queue[i].origin == s
    ensures !AllPayload(d.queue[..n]) ==> d.queue[n - 1].Csw? && !d.busy && n == |d.queue|
    ensures !AllPayload(d.queue[..n]) ==> (d.faulted <==> d.queue[n - 1].status == 0x02)
  {
    var got, left := d.queue[..n], d.queue[n..];
    assert d.queue == got + left;
    DataConcat(got, left);
    assert eaten + Data(d.queue) == eaten + Data(got) + Data(left);
    assert forall i | 0 <= i < |left| :: left[i] == d.queue[n + i];
  }

  // ------------------------------------------- what the host may rely on

  /** What every bus action keeps, while command `s` is the latest issued. */
  ghost predicate Carries(b: Device, a: Device, s: nat) {
    && a.life <= b.life
    && (b.current <= s ==> a.current <= s)
    && b.lateErrors <= a.lateErrors && b.unanswered <= a.unanswered
    && (!b.defiant && a.unanswered == b.unanswered ==> !a.defiant)
    && b.recoveries <= a.recoveries
    && (forall lo :: Within(b, lo, s) ==> Within(a, lo, s))
  }

  predicate Usable(ret: Ret) {
    ret.Success? || ret.Timeout? || ret.Pipe?
  }

  /** The bus still carries traffic, unless this transfer found it gone. */
  predicate Ages(b: Device, a: Device, ret: Ret) {
    if ret.Gone? then a.life == 0 else a.life < b.life
  }

  ghost predicate CbwSent(b: Device, a: Device, s: nat, ret: Ret, count: nat) {
    && Carries(b, a, s) && Ages(b, a, ret)
    && a.recoveries == b.recoveries && a.defiant == b.defiant
    && (a.taken == b.taken || a.taken == b.taken + [s])
    && (if count == CBW_SIZE && (ret.Success? || ret.Timeout?) then
          && a.lateErrors == b.lateErrors
          && (Synced(b) ==> Mine(a, s, []) && !a.inHalted && !a.outHalted && a.taken == b.taken + [s])
        else
          && (a.taken == b.taken || ret.Gone? || a.lateErrors == b.lateErrors + 1)
          && (count == 0 && !ret.Pipe? && !ret.Gone? && Quiet(b) ==> Quiet(a)))
  }

  lemma SendCbwWithin(d: Device, s: nat, c: CbwChoice, lo: nat)
    requires d.current <= s && Within(d, lo, s)
    ensures Within(SendCbw(d, s, c).dev, lo, s)
  {
    var r := SendCbw(d, s, c).dev;
    assert r.queue == d.queue && (r.busy ==> r.current == s || (d.busy && r.current == d.current));
  }

  lemma SendCbwKeeps(d: Device, s: nat, c: CbwChoice)
    requires d.current <= s
    ensures var r := SendCbw(d, s, c).dev;
      && r.life <= d.life && r.current <= s && d.lateErrors <= r.lateErrors && r.recoveries == d.recoveries
      && r.defiant == d.defiant && r.unanswered == d.unanswered
  {
    hide Hear;
    if d.life > 0 && !c.ret.Gone? && !d.outHalted {
      var on := d.(life := d.life - 1, lastAct := BulkOut);
      HearKeeps(on, s);
      HearKeeps(on.(outHalted := c.ret.Pipe?), s);
    }
  }

  lemma HearKeeps(d: Device, s: nat)
    requires d.current <= s
    ensures var r := Hear(d, s);
      && r.life == d.life && r.current <= s && r.lateErrors == d.lateErrors && r.recoveries == d.recoveries
      && r.defiant == d.defiant && r.unanswered == d.unanswered
  {
  }

  lemma SendCbwCarries(d: Device, s: nat, c: CbwChoice)
    requires d.current <= s
    ensures Carries(d, SendCbw(d, s, c).dev, s)
  {
    hide SendCbw, Within;
    SendCbwKeeps(d, s, c);
    forall lo: nat | Within(d, lo, s)
      ensures Within(SendCbw(d, s, c).dev, lo, s)
    {
      SendCbwWithin(d, s, c, lo);
    }
  }

  lemma SendCbwAges(d: Device, s: nat, c: CbwChoice)
    ensures var r := SendCbw(d, s, c); Ages(d, r.dev, r.ret)
  {
  }

  lemma SendCbwTaken(d: Device, s: nat, c: CbwChoice)
    requires d.current <= s
    ensures var r := SendCbw(d, s, c);
      && (r.dev.taken == d.taken || r.dev.taken == d.taken + [s])
      && (if r.count == CBW_SIZE && (r.ret.Success? || r.ret.Timeout?) then
            r.dev.lateErrors == d.lateErrors
          else
            r.dev.taken == d.taken || r.ret.Gone? || r.dev.lateErrors == d.lateErrors + 1)
  {
    hide Hear;
    if d.life > 0 && !c.ret.Gone? && !d.outHalted {
      var on := d.(life := d.life - 1, lastAct := BulkOut);
      HearTakes(on, s);
      HearTakes(on.(outHalted := c.ret.Pipe?), s);
    }
  }

  lemma HearTakes(d: Device, s: nat)
    ensures Hear(d, s).taken in {d.taken, d.taken + [s]} && Hear(d, s).lateErrors == d.lateErrors
  {
  }

  lemma SendCbwSound(d: Device, s: nat, c: CbwChoice)
    requires d.current <= s
    ensures var r := SendCbw(d, s, c); CbwSent(d, r.dev, s, r.ret, r.count)
  {
    SendCbwCarries(d, s, c);
    SendCbwKeeps(d, s, c);
    SendCbwAges(d, s, c);
    SendCbwTaken(d, s, c);
  }

  /** A data or status transfer after which the pipes work on, if they did. */
  ghost predicate Moved(b: Device, a: Device, s: nat, ret: Ret) {
    && Carries(b, a, s) && Ages(b, a, ret)
    && a.recoveries == b.recoveries && a.taken == b.taken && a.lateErrors == b.lateErrors
    && a.defiant == b.defiant
  }

  /** The same without the age of what is in the pipes. */
  predicate Shifted(b: Device, a: Device, ret: Ret) {
    && a.life <= b.life && Ages(b, a, ret)
    && a.current == b.current
    && a.recoveries == b.recoveries && a.taken == b.taken && a.lateErrors == b.lateErrors
    && a.defiant == b.defiant && a.unanswered == b.unanswered
  }

  /** A Bulk-In transfer in the middle of command `s` reads only what was sent
      for `s`. If it swallowed the CSW, nothing is left behind it. */
  ghost predicate ReadSound(b: Device, a: Device, s: nat, len: nat, ret: Ret, count: nat,
                            packets: seq<Packet>, eaten: seq<byte>)
  {
    && Moved(b, a, s, ret)
    && (Usable(ret) ==> count == |Wire(packets)| <= len)
    && (!b.inHalted ==> a.inHalted == ret.Pipe?) && a.outHalted == b.outHalted
    && (!b.inHalted && ret.Pipe? ==> a.stalls == b.stalls + 1)
    && (!b.busy && b.queue == [] ==> packets == [] && !a.busy && a.queue == [])
    && (forall lo :: Within(b, lo, s) ==> From(packets, lo, s))
    && (Mine(b, s, eaten) ==>
          && Mine(a, s, eaten + Data(packets))
          && (forall p | p in packets :: p.origin == s)
          && (!AllPayload(packets) ==>
                && packets[|packets| - 1].Csw? && !a.busy && a.queue == []
                && (a.faulted <==> packets[|packets| - 1].status == 0x02)))
  }

  lemma HaltKeepsMine(d: Device, halted: bool, stalls: nat, s: nat, eaten: seq<byte>)
    requires Mine(d, s, eaten)
    ensures Mine(d.(inHalted := halted, stalls := stalls), s, eaten)
  {
  }

  lemma ReadInMine(d: Device, len: nat, c: InChoice, s: nat, eaten: seq<byte>)
    requires Mine(d, s, eaten)
    ensures var g := ReadIn(d, len, c);
      && Mine(g.dev, s, eaten + Data(g.packets))
      && (forall p | p in g.packets :: p.origin == s)
      && (!AllPayload(g.packets) ==>
            && g.packets[|g.packets| - 1].Csw? && !g.dev.busy && g.dev.queue == []
            && (g.dev.faulted <==> g.packets[|g.packets| - 1].status == 0x02))
  {
    hide Emit, Wire;
    var g := ReadIn(d, len, c);
    if d.life > 0 && !c.ret.Gone? {
      var start := d.(life := d.life - 1, lastAct := BulkIn);
      EmitKeepsMine(start, c.emission, s, eaten);
      var on := Emit(start, c.emission);
      if on.inHalted {
        assert eaten + [] == eaten;
      } else {
        var n := if c.packets < |on.queue| then c.packets else |on.queue|;
        PacketsMine(on, n, s, eaten);
        HaltKeepsMine(Taken(on, n), g.dev.inHalted, g.dev.stalls, s, eaten + Data(on.queue[..n]));
      }
    } else {
      assert eaten + [] == eaten;
    }
  }

  /** What comes off the pipe in the middle of a command was sent for it. */
  lemma PacketsMine(d: Device, n: nat, s: nat, eaten: seq<byte>)
    requires Mine(d, s, eaten) && n <= |d.queue|
    ensures Mine(Taken(d, n), s, eaten + Data(d.queue[..n]))
    ensures forall p | p in d.queue[..n] :: p.origin == s
    ensures !AllPayload(d.queue[..n]) ==> n > 0 && d.queue[n - 1].Csw? && !d.busy && n == |d.queue|
    ensures !AllPayload(d.queue[..n]) ==> (d.faulted <==> d.queue[n - 1].status == 0x02)
  {
    hide Mine, Data;
    TakenKeepsMine(d, n, s, eaten);
  }

  lemma ReadInWithin(d: Device, len: nat, c: InChoice, lo: nat, s: nat)
    requires Within(d, lo, s)
    ensures var g := ReadIn(d, len, c); Within(g.dev, lo, s) && From(g.packets, lo, s)
  {
    if d.life > 0 && !c.ret.Gone? {
      EmitKeepsWithin(d.(life := d.life - 1, lastAct := BulkIn), c.emission, lo, s);
    }
  }

  lemma ReadInShifts(d: Device, len: nat, c: InChoice)
    ensures var g := ReadIn(d, len, c); Shifted(d, g.dev, g.ret)
  {
    hide Emit, Wire;
    if d.life > 0 { EmitShifts(d.(life := d.life - 1, lastAct := BulkIn), c.emission); }
  }

  lemma ReadInHalts(d: Device, len: nat, c: InChoice)
    ensures var g := ReadIn(d, len, c);
      && (Usable(g.ret) ==> g.count == |Wire(g.packets)| <= len)
      && (!d.inHalted ==> g.dev.inHalted == g.ret.Pipe?) && g.dev.outHalted == d.outHalted
      && (!d.inHalted && g.ret.Pipe? ==> g.dev.stalls == d.stalls + 1)
  {
    hide Emit;
    if d.life > 0 { EmitShifts(d.(life := d.life - 1, lastAct := BulkIn), c.emission); }
  }

  lemma ReadInSound(d: Device, len: nat, c: InChoice, s: nat, eaten: seq<byte>)
    ensures var g := ReadIn(d, len, c);
      ReadSound(d, g.dev, s, len, g.ret, g.count, g.packets, eaten)
  {
    ReadInShifts(d, len, c);
    ReadInHalts(d, len, c);
    ReadSoundFrom(d, ReadIn(d, len, c), len, c, s, eaten);
  }

  lemma ReadSoundFrom(d: Device, g: Got, len: nat, c: InChoice, s: nat, eaten: seq<byte>)
    requires g == ReadIn(d, len, c)
    requires Shifted(d, g.dev, g.ret)
    requires Usable(g.ret) ==> g.count == |Wire(g.packets)| <= len
    requires !d.inHalted ==> g.dev.inHalted == g.ret.Pipe?
    requires g.dev.outHalted == d.outHalted
    requires !d.inHalted && g.ret.Pipe? ==> g.dev.stalls == d.stalls + 1
    ensures ReadSound(d, g.dev, s, len, g.ret, g.count, g.packets, eaten)
  {
    if Mine(d, s, eaten) { ReadInMine(d, len, c, s, eaten); }
    forall lo: nat | Within(d, lo, s)
      ensures Within(g.dev, lo, s) && From(g.packets, lo, s)
    {
      ReadInWithin(d, len, c, lo, s);
    }
  }

  /** A Bulk-Out data transfer. */
  ghost predicate WriteSound(b: Device, a: Device, s: nat, len: nat, ret: Ret, count: nat, eaten: seq<byte>) {
    && Moved(b, a, s, ret)
    && (!ret.Gone? ==> count <= len)
    && (!b.outHalted ==> a.outHalted == ret.Pipe?) && a.inHalted == b.inHalted
    && (Mine(b, s, eaten) ==> Mine(a, s, eaten))
  }

  lemma WriteOutShifts(d: Device, len: nat, c: OutChoice)
    ensures var r := WriteOut(d, len, c);
      && Shifted(d, r.dev, r.ret)
      && (!r.ret.Gone? ==> r.count <= len)
      && (!d.outHalted ==> r.dev.outHalted == r.ret.Pipe?) && r.dev.inHalted == d.inHalted
  {
    hide Emit, Wire;
    if d.life > 0 { EmitShifts(d.(life := d.life - 1, lastAct := BulkOut), c.emission); }
  }

  lemma WriteOutSound(d: Device, len: nat, c: OutChoice, s: nat, eaten: seq<byte>)
    ensures var r := WriteOut(d, len, c); WriteSound(d, r.dev, s, len, r.ret, r.count, eaten)
  {
    WriteOutShifts(d, len, c);
    var r := WriteOut(d, len, c);
    if d.life > 0 && !c.ret.Gone? {
      var on := d.(life := d.life - 1, lastAct := BulkOut);
      if Mine(d, s, eaten) { EmitKeepsMine(on, c.emission, s, eaten); }
      forall lo: nat | Within(d, lo, s)
        ensures Within(r.dev, lo, s)
      {
        EmitKeepsWithin(on, c.emission, lo, s);
      }
    }
  }

  /** After a Reset Recovery, whatever came before it, the device is in step, or it left
      a request of it unanswered. */
  ghost predicate Recovered(b: Device, a: Device, s: nat) {
    && Carries(b, a, s) && (Synced(a) || a.defiant)
    && a.recoveries == b.recoveries + 1 && a.lastAct == Recovery
    && a.life == b.life && a.taken == b.taken && a.lateErrors == b.lateErrors
  }

  lemma RecoverSound(d: Device, c: RecoveryChoice, s: nat)
    ensures Recovered(d, Recover(d, c), s)
    ensures c.resetOk && c.inOk && c.outOk <==> !Recover(d, c).defiant
    ensures c.resetOk && c.inOk && c.outOk <==> Recover(d, c).unanswered == d.unanswered
  {
  }

  ghost predicate Unstalled(b: Device, a: Device, s: nat, isIn: bool) {
    && Carries(b, a, s)
    && a.recoveries == b.recoveries && a.life == b.life
    && a.taken == b.taken && a.lateErrors == b.lateErrors && (b.defiant ==> a.defiant)
    && a.queue == b.queue && a.busy == b.busy && a.stalls == b.stalls
    && (!a.defiant ==> a.inHalted == (b.inHalted && !isIn) && a.outHalted == (b.outHalted && isIn))
    && (forall eaten :: Mine(b, s, eaten) ==> Mine(a, s, eaten))
  }

  lemma UnstallSound(d: Device, isIn: bool, ok: bool, s: nat)
    ensures Unstalled(d, Unstall(d, isIn, ok), s, isIn)
  {
  }
}
