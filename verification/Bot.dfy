/** One Bulk-Only transaction: CBW, data phase, CSW, and the Reset Recovery that
    has to follow when host and device disagree. */
module Bot {
  import opened Bytes
  import opened Entries
  import opened Exchanges
  import opened UsbDevice
  import opened Wrappers

  /** The return codes: Failed is the plain -1. */
  datatype Rc = Passed | Failed | NotSent | PhaseError | Absent

  const STATUS_PASS: byte := 0
  const STATUS_FAIL: byte := 1
  const STATUS_PHASE_ERROR: byte := 2

  const MAX_CDB: nat := 16

  // ---------------------------------------------------------------- residue

  /** How many bytes of the data phase count, of the `moved` that crossed the
      wire out of `len` asked for. */
  function ActualLength(moved: nat, len: nat, residue: nat): (n: int)
    requires moved <= len && residue <= len
    ensures 0 <= n <= moved
  {
    if residue == 0 then moved
    else if moved < len then (if len - residue < moved then len - residue else moved)
    else moved
  }

  /** A transfer tells the truth when it carries nothing but `genuine` bytes, or
      when it is short on the wire and its residue disowns the padding. */
  predicate Truthful(genuine: nat, moved: nat, len: nat, residue: nat) {
    genuine == moved || (moved < len && 0 < residue && len - residue <= genuine)
  }

  /** Exactly when a byte of padding can never be counted as data. */
  lemma PaddingNeverCounted(genuine: nat, moved: nat, len: nat, residue: nat)
    requires genuine <= moved <= len && residue <= len
    ensures ActualLength(moved, len, residue) <= genuine <==> Truthful(genuine, moved, len, residue)
  {
  }

  /** So against a truthful transfer, what is counted is what was asked for. */
  lemma CountedIsGenuine(eaten: seq<byte>, asked: seq<byte>, len: nat, residue: nat)
    requires |eaten| <= len && residue <= len
    requires Truthful(Agree(eaten, asked), |eaten|, len, residue)
    ensures var n := ActualLength(|eaten|, len, residue);
      n <= |asked| && eaten[..n] == asked[..n]
  {
    var genuine := Agree(eaten, asked);
    PaddingNeverCounted(genuine, |eaten|, len, residue);
    var n := ActualLength(|eaten|, len, residue);
    assert eaten[..n] == eaten[..genuine][..n] && asked[..n] == asked[..genuine][..n];
  }

  // --------------------------------------------------- what each code means

  /** Every byte went through, even if the clock ran out on the last of them. */
  predicate Through(m: Move, size: nat) {
    m.count == size && (m.ret.Success? || m.ret.Timeout?)
  }

  /** The device left the bus: the last transfer said so. */
  predicate Lost(x: Exchange) {
    x.cbw.ret.Gone? || (x.moves != [] && x.moves[|x.moves| - 1].ret.Gone?)
  }

  /** Host and device agree on where the data phase ended: it completed, or the
      device ended it with a stall. */
  predicate DataAgreed(x: Exchange) {
    HasData(x.ask) ==>
      x.moves != [] && (x.moves[0].ret.Success? || x.moves[0].ret.Pipe? || Through(x.moves[0], x.ask.len))
  }

  /** A valid CSW for this CBW (section 6.3). */
  predicate Arrived(x: Exchange) {
    && StatusMove(x).Some? && Through(StatusMove(x).value, CSW_SIZE)
    && CswOf(x).Some? && CswOf(x).value.signed && CswOf(x).value.origin % TWO32 == x.serial % TWO32
  }

  /** One that is no Phase Error. */
  predicate Believed(x: Exchange) {
    Arrived(x) && CswOf(x).value.status != STATUS_PHASE_ERROR
  }

  /** The raw status, -1 without a valid CSW. */
  function StatusOf(x: Exchange): int {
    if Arrived(x) then CswOf(x).value.status as int else -1
  }

  /** Each return code, exactly when it is given. */
  predicate CodeMeans(rc: Rc, x: Exchange) {
    && (rc.Absent? <==> Lost(x))
    && (rc.NotSent? <==> !Lost(x) && !Through(x.cbw, CBW_SIZE))
    && (rc.PhaseError? <==> !Lost(x) && Through(x.cbw, CBW_SIZE) && !(DataAgreed(x) && Believed(x)))
    && (rc.Passed? <==>
          && !Lost(x) && Through(x.cbw, CBW_SIZE) && DataAgreed(x) && Believed(x)
          && CswOf(x).value.residue <= x.ask.len && CswOf(x).value.status == STATUS_PASS)
  }

  /** The transfers of a transaction, in the order of the protocol: none without a
      whole CBW, the data phase if there is one, and once that is agreed on the CSW,
      read again after a stall. */
  predicate Ordered(x: Exchange) {
    var k := DataMoves(x.ask);
    if !Through(x.cbw, CBW_SIZE) then x.moves == []
    else if !DataAgreed(x) then |x.moves| == k
    else |x.moves| > k && |x.moves| == if x.moves[k].ret.Pipe? then k + 2 else k + 1
  }

  /** How many bytes of its data phase a transaction counts. */
  function ActualOf(x: Exchange): nat {
    if HasData(x.ask) && x.moves != [] && CswOf(x).Some?
       && x.moves[0].count <= x.ask.len && CswOf(x).value.residue <= x.ask.len
    then ActualLength(x.moves[0].count, x.ask.len, CswOf(x).value.residue)
    else 0
  }

  /** A Reset Recovery for a Phase Error, for a CBW that arrived in part and for
      a stalled Bulk-Out; never otherwise. */
  predicate CalledForRecovery(rc: Rc, x: Exchange) {
    rc.PhaseError? || (rc.NotSent? && (x.cbw.count > 0 || x.cbw.ret.Pipe?))
  }

  /** Not sent, says the host, and the device has it: all 31 bytes arrived although
      libusb reported an error. The same command, sent again, is taken again. */
  lemma LateErrorDeliversTwice(d: Device, s: nat)
    requires Synced(d) && d.life > 2
    ensures var first := SendCbw(d, s, CbwChoice(OtherError, CBW_SIZE, true));
      var x := Exchange(s, Ask([], 0, false, false), 0, false, false, true, Move(first.ret, first.count, []), []);
      var again := SendCbw(Recover(first.dev, RecoveryChoice(true, true, true)), s + 1,
                           CbwChoice(Success, CBW_SIZE, true));
      && CodeMeans(NotSent, x) && CalledForRecovery(NotSent, x)
      && again.dev.taken == d.taken + [s, s + 1]
  {
  }

  /** The data phase took nothing off the pipe but data for this command. */
  predicate OwnData(x: Exchange) {
    HasData(x.ask) && x.moves != []
    && forall p | p in x.moves[0].packets :: p.Payload? && p.origin == x.serial
  }

  /** What is believed of a device that reads `disc`: what it sends for a read that
      passes is the disc's own, or padded in a transfer that is short on the wire and
      disowned by its residue. */
  predicate Honest(x: Exchange, disc: Contents) {
    CodeMeans(Passed, x) && x.ask.dataIn && x.ask.cdb in disc && OwnData(x)
    && x.moves[0].count == |Landed(x)| ==>
      Truthful(Agree(Landed(x), disc[x.ask.cdb]), |Landed(x)|, x.ask.len, CswOf(x).value.residue)
  }

  /** So what is counted of a read that passes is what the disc holds. */
  lemma ReadIsGenuine(x: Exchange, disc: Contents)
    requires CodeMeans(Passed, x) && x.ask.dataIn && x.ask.cdb in disc && OwnData(x)
    requires x.moves[0].count == |Landed(x)| <= x.ask.len && Honest(x, disc)
    ensures ActualOf(x) <= |Landed(x)| && ActualOf(x) <= |disc[x.ask.cdb]|
    ensures Landed(x)[..ActualOf(x)] == disc[x.ask.cdb][..ActualOf(x)]
  {
    CountedIsGenuine(Landed(x), disc[x.ask.cdb], x.ask.len, CswOf(x).value.residue);
  }

  /** The CSW of a transaction on device `b` was sent for its CBW, unless `b` holds or
      owes a CSW of 2^32 commands ago. */
  ghost predicate OwnStatus(b: Device, x: Exchange) {
    forall lo: nat :: Within(b, lo, x.serial) && x.serial < lo + TWO32 ==>
      CswOf(x).Some? && CswOf(x).value.origin == x.serial
  }

  /** Bytes that a transaction counts as read: they are what its data phase took off
      the pipe. Unless a request went unanswered before that no recovery made up for, they
      are what the device pushed for this very CBW, and of a read what the disc holds, if
      the device is honest. */
  ghost predicate Genuine(d: Device, x: Exchange, disc: Contents, counted: seq<byte>) {
    && counted <= Landed(x) && (x.defied ==> d.defiant)
    && (!x.defied ==>
          && d.current == x.serial && counted <= d.pushed
          && (x.ask.cdb in disc && Honest(x, disc) ==> counted <= disc[x.ask.cdb]))
  }

  // ------------------------------------------------------------- CBW phase

  /** What a phase did to the device, when the transaction ends there (`rc`) or
      goes on (None). */
  ghost predicate PhaseDone(b: Device, a: Device, s: nat, out: Option<Rc>) {
    && Carries(b, a, s)
    && (if out == Some(Absent) then a.life == 0 else a.life < b.life)
    && (out == Some(PhaseError) ==>
          (Synced(a) || a.defiant) && a.recoveries == b.recoveries + 1 && a.lastAct == Recovery)
    && (out == Some(Absent) ==> a.recoveries == b.recoveries)
    && (out == None ==> a.recoveries == b.recoveries && a.lateErrors == b.lateErrors && (b.defiant ==> a.defiant))
  }

  /** Sends the CBW numbered `e.serial`. None means the device has it. */
  method CommandPhase(e: Entry, ghost ask: Ask) returns (out: Option<Rc>)
    requires e.dev.current <= e.serial
    modifies e`dev, e`now, e`past, e`last
    ensures PhaseDone(old(e.dev), e.dev, e.serial, out)
    ensures e.now >= old(e.now)
    ensures e.past == old(e.past) + [old(e.last)]
    ensures e.last == Exchange(e.serial, ask, old(e.now), old(e.dev).defiant, e.notReady, e.last.heard, e.last.cbw, [])
    ensures e.dev.taken == old(e.dev.taken) + if e.last.heard then [e.serial] else []
    ensures out in {None, Some(NotSent), Some(Absent)}
    ensures out == None && Synced(old(e.dev)) ==>
      Mine(e.dev, e.serial, []) && !e.dev.inHalted && !e.dev.outHalted && e.last.heard
    ensures out == Some(NotSent) ==>
      && (Quiet(old(e.dev)) ==> Quiet(e.dev))
      && (e.last.heard ==> e.dev.lateErrors == old(e.dev.lateErrors) + 1)
      && (if e.last.cbw.count > 0 || e.last.cbw.ret.Pipe? then
            && e.dev.recoveries == old(e.dev.recoveries) + 1 && e.dev.lastAct == Recovery
            && (Synced(e.dev) || e.dev.defiant)
          else e.dev.recoveries == old(e.dev.recoveries))
    ensures out == Some(Absent) <==> e.last.cbw.ret.Gone?
    ensures out == None <==> Through(e.last.cbw, CBW_SIZE)
  {
    var ret, transferred := e.SendCbw(ask);
    if ret == Gone {
      return Some(Absent);
    }
    if transferred == CBW_SIZE && (ret == Success || ret == Timeout) {
      out := None;
    } else if transferred == 0 && ret != Pipe {
      return Some(NotSent);
    } else {
      e.MassStorageReset();
      return Some(NotSent);
    }
  }

  // ------------------------------------------------------------ data phase

  /** Copies what a Bulk-In transfer delivered into the caller's buffer. */
  method Deposit(data: array<byte>, off: nat, bytes: seq<byte>)
    requires off + |bytes| <= data.Length
    modifies data
    ensures data[off..off + |bytes|] == bytes
    ensures forall i | 0 <= i < data.Length && !(off <= i < off + |bytes|) :: data[i] == old(data[i])
  {
    var i := 0;
    while i < |bytes|
      invariant 0 <= i <= |bytes|
      invariant forall k | 0 <= k < i :: data[off + k] == bytes[k]
      invariant forall k | 0 <= k < data.Length && !(off <= k < off + i) :: data[k] == old(data[k])
    {
      data[off + i] := bytes[i];
      i := i + 1;
    }
  }

  lemma EatenOnce(m: Move)
    ensures Eaten([m]) == Data(m.packets)
  {
    EatenOneMore([], m);
    assert [m] == [] + [m] && Eaten([]) + Data(m.packets) == Data(m.packets);
  }

  /** A Bulk-In transfer straight into the caller's buffer. */
  method ReadData(e: Entry, data: array<byte>, off: nat, len: nat)
    returns (ret: Ret, transferred: nat, ghost packets: seq<Packet>)
    requires off + len <= data.Length && e.last.moves == []
    modifies e`dev, e`last, data
    ensures Moved(old(e.dev), e.dev, e.serial, ret)
    ensures e.last == old(e.last).(moves := [Move(ret, transferred, packets)])
    ensures !old(e.dev.inHalted) ==> e.dev.inHalted == ret.Pipe?
    ensures e.dev.outHalted == old(e.dev.outHalted)
    ensures Mine(old(e.dev), e.serial, []) ==>
      && Mine(e.dev, e.serial, Data(packets))
      && (forall p | p in packets :: p.origin == e.serial)
      && (!AllPayload(packets) ==> !e.dev.busy && e.dev.queue == [])
    ensures Usable(ret) ==> transferred == |Wire(packets)| <= len && data[off..off + transferred] == Wire(packets)
    ensures forall i | 0 <= i < data.Length && !(off <= i < off + len) :: data[i] == old(data[i])
  {
    var read;
    ret, transferred, read := e.ReadIn(len);
    packets := read;
    assert [] + [Move(ret, transferred, packets)] == [Move(ret, transferred, packets)];
    assert Eaten([]) + Data(packets) == Data(packets);
    if ret == Success || ret == Timeout || ret == Pipe {
      Deposit(data, off, Wire(read));
    }
  }

  /** The one transfer of a data phase. */
  method MoveData(e: Entry, data: array<byte>, off: nat, len: nat, dataIn: bool) returns (ret: Ret, transferred: nat)
    requires off + len <= data.Length && e.last.moves == []
    modifies e`dev, e`last, data
    ensures Moved(old(e.dev), e.dev, e.serial, ret)
    ensures e.last == old(e.last).(moves := e.last.moves) && |e.last.moves| == 1
    ensures e.last.moves[0].ret == ret && e.last.moves[0].count == transferred
    ensures !ret.Gone? && (Usable(ret) || !dataIn) ==> transferred <= len
    ensures !old(e.dev.inHalted) && !old(e.dev.outHalted) ==>
      e.dev.inHalted == (dataIn && ret.Pipe?) && e.dev.outHalted == (!dataIn && ret.Pipe?)
    ensures Mine(old(e.dev), e.serial, []) ==>
      && Mine(e.dev, e.serial, Eaten(e.last.moves))
      && (forall p | p in e.last.moves[0].packets :: p.origin == e.serial)
      && (!AllPayload(e.last.moves[0].packets) ==> !e.dev.busy && e.dev.queue == [])
    ensures dataIn && Usable(ret) ==>
      transferred == |Wire(e.last.moves[0].packets)|
      && data[off..off + transferred] == Wire(e.last.moves[0].packets)
    ensures forall i | 0 <= i < data.Length && !(off <= i < off + len) :: data[i] == old(data[i])
    ensures !dataIn ==> data[..] == old(data[..])
  {
    hide *;
    if dataIn {
      ghost var packets;
      ret, transferred, packets := ReadData(e, data, off, len);
      EatenOnce(Move(ret, transferred, packets));
    } else {
      ret, transferred := e.WriteOut(len);
      DataWritten(old(e.dev), e.dev, e.serial, len, ret, transferred);
    }
    Usually(ret);
  }

  lemma Usually(ret: Ret)
    ensures Usable(ret) ==> !ret.Gone?
    ensures ret.Pipe? ==> Usable(ret)
  {
  }

  lemma DataWritten(b: Device, a: Device, s: nat, len: nat, ret: Ret, count: nat)
    requires WriteSound(b, a, s, len, ret, count, Eaten([]))
    ensures var m := Move(ret, count, []);
      Eaten([m]) == [] && AllPayload(m.packets) && [] + [m] == [m]
    ensures Moved(b, a, s, ret) && (!ret.Gone? ==> count <= len)
    ensures (!b.outHalted ==> a.outHalted == ret.Pipe?) && a.inHalted == b.inHalted
    ensures Mine(b, s, []) ==> Mine(a, s, [])
  {
    EatenOnce(Move(ret, count, []));
  }

  /** The data phase of `len > 0` bytes. None means the CSW comes next. */
  method DataPhase(e: Entry, data: array<byte>, off: nat, len: nat, dataIn: bool)
    returns (out: Option<Rc>, transferred: nat)
    requires off + len <= data.Length && e.last.moves == []
    modifies e`dev, e`now, e`last, data
    ensures PhaseDone(old(e.dev), e.dev, e.serial, out)
    ensures e.now >= old(e.now)
    ensures e.dev.taken == old(e.dev.taken) && e.dev.lateErrors == old(e.dev.lateErrors)
    ensures e.last == old(e.last).(moves := e.last.moves) && |e.last.moves| == 1
    ensures e.last.moves[0].count == transferred
    ensures out in {None, Some(PhaseError), Some(Absent)}
    ensures out == Some(Absent) <==> e.last.moves[0].ret.Gone?
    ensures out == None <==>
      e.last.moves[0].ret.Success? || e.last.moves[0].ret.Pipe? || Through(e.last.moves[0], len)
    ensures out == None ==> transferred <= len
    ensures out == None && !old(e.dev.inHalted) && !old(e.dev.outHalted) ==>
      e.dev.defiant || (!e.dev.inHalted && !e.dev.outHalted)
    ensures out == None && Mine(old(e.dev), e.serial, []) ==>
      && Mine(e.dev, e.serial, Eaten(e.last.moves))
      && (forall p | p in e.last.moves[0].packets :: p.origin == e.serial)
      && (!AllPayload(e.last.moves[0].packets) ==> !e.dev.busy && e.dev.queue == [])
    ensures out == None && dataIn ==>
      transferred == |Wire(e.last.moves[0].packets)|
      && data[off..off + transferred] == Wire(e.last.moves[0].packets)
    ensures forall i | 0 <= i < data.Length && !(off <= i < off + len) :: data[i] == old(data[i])
    ensures !dataIn ==> data[..] == old(data[..])
  {
    hide Within, From, Data, Wire, AllPayload, Eaten, Mine, Synced;
    var ret;
    ret, transferred := MoveData(e, data, off, len, dataIn);
    out := None;
    if ret == Pipe {
      e.ClearStall(dataIn);
    } else if ret == Timeout {
      if transferred != len {
        e.MassStorageReset();
        out := Some(PhaseError);
      }
    } else if ret == Gone {
      out := Some(Absent);
    } else if ret != Success {
      e.MassStorageReset();
      out := Some(PhaseError);
    }
  }

  // ---------------------------------------------------------- status phase

  /** Reads thirteen bytes, clearing one stall on the way. */
  method ReadCsw(e: Entry) returns (ret: Ret, transferred: nat, packets: seq<Packet>)
    modifies e`dev, e`last
    ensures Carries(old(e.dev), e.dev, e.serial) && Ages(old(e.dev), e.dev, ret)
    ensures e.dev.recoveries == old(e.dev.recoveries)
    ensures e.dev.taken == old(e.dev.taken) && e.dev.lateErrors == old(e.dev.lateErrors)
    ensures old(e.dev.defiant) ==> e.dev.defiant
    ensures e.last == old(e.last).(moves := e.last.moves) && old(e.last.moves) < e.last.moves
    ensures var k := |old(e.last.moves)|;
      |e.last.moves| == if e.last.moves[k].ret.Pipe? then k + 2 else k + 1
    ensures e.last.moves[|e.last.moves| - 1] == Move(ret, transferred, packets)
    ensures Usable(ret) ==> transferred == |Wire(packets)|
    ensures !old(e.dev.busy) && old(e.dev.queue) == [] ==> packets == []
    ensures forall lo :: Within(old(e.dev), lo, e.serial) ==> From(packets, lo, e.serial)
    // Given up on only after a second stall of the device's own making.
    ensures ret.Pipe? && !old(e.dev.inHalted) ==> e.dev.defiant || e.dev.stalls >= old(e.dev.stalls) + 2
    ensures !old(e.dev.inHalted) && !old(e.dev.outHalted) && !ret.Pipe? ==>
      e.dev.defiant || (!e.dev.inHalted && !e.dev.outHalted)
    ensures Mine(old(e.dev), e.serial, Eaten(old(e.last.moves))) ==>
      && Mine(e.dev, e.serial, Eaten(e.last.moves)) && Eaten(old(e.last.moves)) <= Eaten(e.last.moves)
      && (!AllPayload(packets) ==>
            && packets[|packets| - 1].Csw? && !e.dev.busy && e.dev.queue == []
            && (e.dev.faulted <==> packets[|packets| - 1].status == 0x02))
  {
    hide Within, From, Mine, Data, Wire, Eaten, AllPayload;
    ret, transferred, packets := e.ReadIn(CSW_SIZE);
    EatenOneMore(old(e.last.moves), Move(ret, transferred, packets));
    if ret == Pipe {
      ret, transferred, packets := ReadCswAgain(e);
    }
  }

  /** Clears the stall met before the CSW, and reads again. */
  method ReadCswAgain(e: Entry) returns (ret: Ret, transferred: nat, packets: seq<Packet>)
    modifies e`dev, e`last
    ensures Carries(old(e.dev), e.dev, e.serial) && Ages(old(e.dev), e.dev, ret)
    ensures e.dev.recoveries == old(e.dev.recoveries)
    ensures e.dev.taken == old(e.dev.taken) && e.dev.lateErrors == old(e.dev.lateErrors)
    ensures old(e.dev.defiant) ==> e.dev.defiant
    ensures e.last == old(e.last).(moves := old(e.last.moves) + [Move(ret, transferred, packets)])
    ensures Usable(ret) ==> transferred == |Wire(packets)|
    ensures !old(e.dev.busy) && old(e.dev.queue) == [] ==> packets == []
    ensures forall lo :: Within(old(e.dev), lo, e.serial) ==> From(packets, lo, e.serial)
    ensures ret.Pipe? ==> e.dev.defiant || e.dev.stalls > old(e.dev.stalls)
    ensures !old(e.dev.outHalted) && !ret.Pipe? ==> e.dev.defiant || (!e.dev.inHalted && !e.dev.outHalted)
    ensures Mine(old(e.dev), e.serial, Eaten(old(e.last.moves))) ==>
      && Mine(e.dev, e.serial, Eaten(e.last.moves)) && Eaten(old(e.last.moves)) <= Eaten(e.last.moves)
      && (!AllPayload(packets) ==>
            && packets[|packets| - 1].Csw? && !e.dev.busy && e.dev.queue == []
            && (e.dev.faulted <==> packets[|packets| - 1].status == 0x02))
  {
    e.ClearStall(true);
    ret, transferred, packets := e.ReadIn(CSW_SIZE);
    EatenOneMore(old(e.last.moves), Move(ret, transferred, packets));
  }

  /** The status phase up to a CSW that can be believed: None means that one with the
      right signature and tag arrived, and was no Phase Error. */
  method StatusPhase(e: Entry) returns (out: Option<Rc>, csw: int, residue: nat)
    requires e.tag == e.serial % TWO32 && e.last.serial == e.serial
    requires |e.last.moves| == DataMoves(e.last.ask)
    modifies e`dev, e`now, e`last
    ensures PhaseDone(old(e.dev), e.dev, e.serial, out)
    ensures e.now >= old(e.now)
    ensures e.dev.taken == old(e.dev.taken) && e.dev.lateErrors == old(e.dev.lateErrors)
    ensures e.last == old(e.last).(moves := e.last.moves) && old(e.last.moves) < e.last.moves
    ensures var k := DataMoves(e.last.ask);
      |e.last.moves| == if e.last.moves[k].ret.Pipe? then k + 2 else k + 1
    ensures out in {None, Some(PhaseError), Some(Absent)}
    ensures csw == StatusOf(e.last)
    ensures out == Some(Absent) <==> e.last.moves[|e.last.moves| - 1].ret.Gone?
    ensures out == None <==> Believed(e.last)
    ensures out == None ==> residue == CswOf(e.last).value.residue
    ensures csw >= 0 ==> OwnStatus(old(e.dev), e.last)
    ensures out == None ==> old(e.dev.busy) || old(e.dev.queue) != []
    ensures out == None && Mine(old(e.dev), e.serial, Eaten(old(e.last.moves))) ==>
      && Eaten(old(e.last.moves)) <= e.dev.pushed && e.dev.current == e.serial
      && (old(e.dev.defiant) || (!old(e.dev.inHalted) && !old(e.dev.outHalted)) ==> Quiet(e.dev))
  {
    hide Within, From, Wire, Eaten;
    csw, residue := -1, 0;
    var ret, transferred, packets := ReadCsw(e);
    assert StatusMove(e.last) == Some(Move(ret, transferred, packets));
    if ret == Gone {
      return Some(Absent), csw, residue;
    }
    if transferred != CSW_SIZE || (ret != Success && ret != Timeout) {
      e.MassStorageReset();
      return Some(PhaseError), csw, residue;
    }
    if packets == [] || !packets[|packets| - 1].Csw? {
      // Thirteen bytes that are not a CSW: the signature does not match.
      e.MassStorageReset();
      return Some(PhaseError), csw, residue;
    }
    var last := packets[|packets| - 1];
    assert last in packets && !AllPayload(packets);
    if !last.signed || last.origin % TWO32 != e.tag {
      e.MassStorageReset();
      return Some(PhaseError), csw, residue;
    }
    out, csw, residue := None, last.status, last.residue;
    OwnTag(old(e.dev), e.last, packets);
    if last.status == STATUS_PHASE_ERROR {
      e.MassStorageReset();
      out := Some(PhaseError);
    }
  }

  /** Equal tags fewer than 2^32 commands apart are the same command's. */
  lemma OwnTag(b: Device, x: Exchange, packets: seq<Packet>)
    requires forall lo :: Within(b, lo, x.serial) ==> From(packets, lo, x.serial)
    requires CswOf(x).Some? && CswOf(x).value in packets && CswOf(x).value.origin % TWO32 == x.serial % TWO32
    ensures OwnStatus(b, x)
  {
    forall lo: nat | Within(b, lo, x.serial) && x.serial < lo + TWO32
      ensures CswOf(x).value.origin == x.serial
    {
      assert From(packets, lo, x.serial);
      SameResidueSameCount(CswOf(x).value.origin, x.serial);
    }
  }

  // ------------------------------------------------------------ transaction

  /** What the whole transaction `x` leaves behind. */
  ghost predicate Transacted(b: Device, a: Device, rc: Rc, x: Exchange) {
    && Carries(b, a, x.serial) && CodeMeans(rc, x) && Ordered(x) && x.defied == b.defiant
    && (if rc.Absent? then a.life == 0 else a.life < b.life)
    // Resynchronised, whatever the device did.
    && (Quiet(b) ==> Quiet(a))
    // One Reset Recovery, last of all, where it is due, and none elsewhere. It brings any
    // device back in step that answers it.
    && (if CalledForRecovery(rc, x) then
          a.recoveries == b.recoveries + 1 && a.lastAct == Recovery && (Synced(a) || a.defiant)
        else
          a.recoveries == b.recoveries)
    // The device took this CBW at most once; never, if the host says so and libusb is right.
    && a.taken == b.taken + (if x.heard then [x.serial] else [])
    && (rc.NotSent? && x.heard ==> a.lateErrors == b.lateErrors + 1)
    && (rc.Passed? || rc.Failed? ==> a.lateErrors == b.lateErrors && (b.defiant ==> a.defiant))
    && (rc.Passed? && Synced(b) ==> x.heard)
    // A status is only ever the status of this very CBW.
    && (StatusOf(x) >= 0 ==> OwnStatus(b, x))
  }

  /** A CSW that section 6.3 calls valid and that is no Phase Error, off the wire: thirteen
      bytes that end in one, with the signature and the tag. */
  predicate GoodCsw(m: Move, serial: nat) {
    && m.count == 13 && (m.ret.Success? || m.ret.Timeout?) && m.packets != []
    && var p := m.packets[|m.packets| - 1];
       p.Csw? && p.signed && (p.origin - serial) % 0x1_0000_0000 == 0 && p.status != 0x02
  }

  /** What a transaction comes to, read off its transfers in the order they were made:
      the CBW, the data phase if there is one, the CSW. */
  function ByWire(x: Exchange): Rc {
    var n := |x.moves|;
    var data := x.ask.len > 0 && x.ask.buffered;
    if x.cbw.ret.Gone? || (n > 0 && x.moves[n - 1].ret.Gone?) then Absent
    else if x.cbw.count != 31 || !(x.cbw.ret.Success? || x.cbw.ret.Timeout?) then NotSent
    else if data && n > 0 && x.moves[0].ret.Timeout? && x.moves[0].count != x.ask.len then PhaseError
    else if data && n > 0 && (x.moves[0].ret.Overflow? || x.moves[0].ret.OtherError?) then PhaseError
    else if n == 0 || (data && n == 1) || !GoodCsw(x.moves[n - 1], x.serial) then PhaseError
    else
      var csw := x.moves[n - 1].packets[|x.moves[n - 1].packets| - 1];
      if csw.residue > x.ask.len || csw.status != 0 then Failed else Passed
  }

  /** The code is that, and the reset comes where the specification has it: after a CBW
      that went out in part or met a stall, after a data phase whose end is disputed, and
      after a CSW that is not valid or reports a Phase Error. */
  lemma CodeIsByWire(b: Device, a: Device, rc: Rc, x: Exchange)
    requires Transacted(b, a, rc, x)
    ensures rc == ByWire(x)
    ensures a.recoveries == b.recoveries +
      if ByWire(x).PhaseError? || (ByWire(x).NotSent? && (x.cbw.count > 0 || x.cbw.ret.Pipe?)) then 1 else 0
    ensures a.recoveries > b.recoveries ==> a.lastAct == Recovery
    ensures StatusOf(x) == 0 || StatusOf(x) == 1 ==>
      x.moves != [] && GoodCsw(x.moves[|x.moves| - 1], x.serial)
      && x.moves[|x.moves| - 1].packets[|x.moves[|x.moves| - 1].packets| - 1].status as int == StatusOf(x)
  {
  }

  lemma OwnStatusEarlier(b: Device, mid: Device, x: Exchange)
    requires Carries(b, mid, x.serial) && OwnStatus(mid, x)
    ensures OwnStatus(b, x)
  {
    forall lo: nat | Within(b, lo, x.serial) && x.serial < lo + TWO32
      ensures CswOf(x).Some? && CswOf(x).value.origin == x.serial
    {
      assert Within(mid, lo, x.serial);
    }
  }

  /** The transaction `x`, begun on device `b`, has come to where its CSW is due. */
  ghost predicate Underway(b: Device, a: Device, x: Exchange) {
    && PhaseDone(b, a, x.serial, None)
    && Through(x.cbw, CBW_SIZE) && DataAgreed(x) && |x.moves| == DataMoves(x.ask) && x.defied == b.defiant
    && a.taken == b.taken + (if x.heard then [x.serial] else [])
    && (Synced(b) ==>
          && x.heard
          && (a.defiant || (!a.inHalted && !a.outHalted))
          && Mine(a, x.serial, Eaten(x.moves))
          && (HasData(x.ask) ==>
                && (forall p | p in x.moves[0].packets :: p.origin == x.serial)
                && (!AllPayload(x.moves[0].packets) ==> !a.busy && a.queue == [])))
  }

  lemma EatenNothing()
    ensures Eaten([]) == []
  {
  }

  lemma TwoPhases(b: Device, m: Device, a: Device, s: nat, out: Option<Rc>)
    requires PhaseDone(b, m, s, None) && PhaseDone(m, a, s, out)
    ensures PhaseDone(b, a, s, out)
  {
    hide Within, Synced;
  }

  lemma PhaseMeans(b: Device, a: Device, s: nat, out: Option<Rc>)
    requires PhaseDone(b, a, s, out)
    ensures Carries(b, a, s) && (if out == Some(Absent) then a.life == 0 else a.life < b.life)
    ensures out == Some(PhaseError) ==>
      (Synced(a) || a.defiant) && a.recoveries == b.recoveries + 1 && a.lastAct == Recovery
    ensures out == Some(Absent) ==> a.recoveries == b.recoveries
  {
  }

  /** The CBW and the data phase, up to where the CSW is due. */
  method CommandAndData(e: Entry, ghost ask: Ask, data: array?<byte>, off: nat, len: nat, dataIn: bool)
    returns (out: Option<Rc>, transferred: nat)
    requires e.dev.current <= e.serial
    requires data != null ==> off + len <= data.Length
    requires ask.len == len && ask.dataIn == dataIn && ask.buffered == (data != null)
    modifies e`dev, e`now, e`past, e`last
    modifies data
    ensures e.past == old(e.past) + [old(e.last)]
    ensures e.last ==
      Exchange(e.serial, ask, old(e.now), old(e.dev).defiant, e.notReady, e.last.heard, e.last.cbw, e.last.moves)
    ensures e.now >= old(e.now)
    ensures out.Some? ==>
      !out.value.Passed? && !out.value.Failed? && Transacted(old(e.dev), e.dev, out.value, e.last) && !Arrived(e.last)
    ensures out == None ==>
      && Underway(old(e.dev), e.dev, e.last)
      && transferred == (if HasData(ask) then e.last.moves[0].count else 0) <= len
    ensures out == None && dataIn && data != null ==>
      transferred == |Landed(e.last)| && data[off..off + transferred] == Landed(e.last)
    ensures data != null ==>
      forall i | 0 <= i < data.Length && !(off <= i < off + len) :: data[i] == old(data[i])
    ensures data != null && !dataIn ==> data[..] == old(data[..])
  {
    hide Data, Wire, AllPayload, Carries, Mine, Synced, Eaten, PhaseDone;
    transferred := 0;
    EatenNothing();
    out := CommandPhase(e, ask);
    PhaseMeans(old(e.dev), e.dev, e.serial, out);
    ghost var mid := e.dev;
    if out == None && len > 0 && data != null {
      out, transferred := DataPhase(e, data, off, len, dataIn);
      TwoPhases(old(e.dev), mid, e.dev, e.serial, out);
      PhaseMeans(old(e.dev), e.dev, e.serial, out);
    }
  }

  /** A data phase that took no CSW off the pipe put what the device pushed into the
      buffer, and the status phase changes nothing about that. */
  lemma OwnDataRead(asked: Exchange, x: Exchange, pushed: seq<byte>)
    requires x == asked.(moves := x.moves) && asked.moves < x.moves && |asked.moves| == 1 && HasData(x.ask)
    requires AllPayload(asked.moves[0].packets)
    requires forall p | p in asked.moves[0].packets :: p.origin == x.serial
    requires Eaten(asked.moves) <= pushed
    ensures OwnData(x) && Landed(x) <= pushed
  {
    WireOfPayload(asked.moves[0].packets);
    EatenOneMore([], asked.moves[0]);
    assert asked.moves == [] + [asked.moves[0]];
    assert x.moves[0] == asked.moves[0];
  }

  /** So what a transaction that passed counts is what the device pushed for it, and
      for a read what the disc holds. */
  lemma DataCounted(asked: Exchange, x: Exchange, actual: nat, d: Device, disc: Contents)
    requires x == asked.(moves := x.moves) && asked.moves < x.moves && |asked.moves| == DataMoves(x.ask)
    requires CodeMeans(Passed, x) && x.ask.dataIn && actual == ActualOf(x) <= |Landed(asked)|
    requires HasData(x.ask) ==> asked.moves[0].count == |Landed(asked)| <= x.ask.len
    requires x.defied ==> d.defiant
    requires !x.defied ==> d.current == x.serial && Eaten(asked.moves) <= d.pushed
    requires !x.defied && HasData(x.ask) ==>
      AllPayload(asked.moves[0].packets) && forall p | p in asked.moves[0].packets :: p.origin == x.serial
    ensures Genuine(d, x, disc, Landed(asked)[..actual])
  {
    assert Landed(x) == Landed(asked);
    if !x.defied && HasData(x.ask) {
      OwnDataRead(asked, x, d.pushed);
      if x.ask.cdb in disc && Honest(x, disc) { ReadIsGenuine(x, disc); }
    }
  }

  /** A transaction that passed began in step, unless it was defied: what every one before
      it left behind leaves no third case. */
  lemma PassedInStep(b: Device, a: Device, x: Exchange)
    requires Transacted(b, a, Passed, x) && Quiet(b)
    ensures x.defied || Synced(b)
    ensures x.defied ==> a.defiant
  {
  }

  /** What a believed CSW makes of the data phase: meaningful only if its residue
      fits, and then the count of what was read. */
  method Conclude(buffered: bool, len: nat, transferred: nat, csw: int, residue: nat) returns (rc: Rc, actual: nat)
    requires transferred <= len
    ensures rc == if residue <= len && csw == STATUS_PASS as int then Passed else Failed
    ensures actual ==
      if residue <= len && len > 0 && buffered then ActualLength(transferred, len, residue) else transferred
  {
    actual := transferred;
    if residue > len {
      return Failed, actual;
    }
    if len > 0 && buffered {
      actual := ActualLength(transferred, len, residue);
    }
    if csw != STATUS_PASS {
      return Failed, actual;
    }
    rc := Passed;
  }

  /** The status phase, and what the transaction comes to. */
  method Finish(e: Entry, ghost b: Device, buffered: bool, len: nat, transferred: nat)
    returns (rc: Rc, csw: int, actual: nat)
    requires e.tag == e.serial % TWO32 && e.last.serial == e.serial
    requires e.last.ask.len == len && e.last.ask.buffered == buffered
    requires Underway(b, e.dev, e.last)
    requires transferred == (if HasData(e.last.ask) then e.last.moves[0].count else 0) <= len
    modifies e`dev, e`now, e`last
    ensures e.now >= old(e.now)
    ensures e.last == old(e.last).(moves := e.last.moves) && old(e.last.moves) < e.last.moves
    ensures Transacted(b, e.dev, rc, e.last) && csw == StatusOf(e.last)
    ensures rc == Passed ==> actual == ActualOf(e.last) <= transferred
    ensures rc == Passed && Synced(b) ==>
      && e.dev.current == e.serial && Eaten(old(e.last.moves)) <= e.dev.pushed
      && (HasData(e.last.ask) ==> AllPayload(old(e.last.moves)[0].packets))
  {
    ghost var mid := e.dev;
    var out, residue;
    out, csw, residue := StatusPhase(e);
    if csw >= 0 { OwnStatusEarlier(b, mid, e.last); }
    actual := transferred;
    if out.Some? {
      rc := out.value;
      return;
    }
    rc, actual := Conclude(buffered, len, transferred, csw, residue);
  }

  /** The three phases of CBW `e.serial`. */
  method Transact(e: Entry, ghost ask: Ask, data: array?<byte>, off: nat, len: nat, dataIn: bool, actualBefore: nat)
    returns (rc: Rc, csw: int, actual: nat)
    requires e.tag == e.serial % TWO32 && e.dev.current <= e.serial && Quiet(e.dev)
    requires data != null ==> off + len <= data.Length
    requires ask.len == len && ask.dataIn == dataIn && ask.buffered == (data != null)
    modifies e`dev, e`now, e`past, e`last
    modifies data
    ensures e.now >= old(e.now) && e.past == old(e.past) + [old(e.last)]
    ensures e.last ==
      Exchange(e.serial, ask, old(e.now), old(e.dev).defiant, e.notReady, e.last.heard, e.last.cbw, e.last.moves)
    ensures Transacted(old(e.dev), e.dev, rc, e.last) && csw == StatusOf(e.last)
    ensures rc == Passed ==> actual == ActualOf(e.last) <= len
    ensures rc == Passed && dataIn && data != null ==>
      Genuine(e.dev, e.last, e.disc, data[off..off + actual])
    ensures data != null ==>
      forall i | 0 <= i < data.Length && !(off <= i < off + len) :: data[i] == old(data[i])
    ensures data != null && !dataIn ==> data[..] == old(data[..])
  {
    hide Genuine, Transacted, Mine, Carries;
    csw, actual := -1, actualBefore;
    var out, transferred := CommandAndData(e, ask, data, off, len, dataIn);
    if out.Some? {
      rc := out.value;
      return;
    }
    ghost var asked := e.last;
    rc, csw, actual := Finish(e, old(e.dev), data != null, len, transferred);
    if data != null && dataIn && rc == Passed {
      assert data[off..off + actual] == data[off..off + transferred][..actual];
      PassedInStep(old(e.dev), e.dev, e.last);
      DataCounted(asked, e.last, actual, e.dev, e.disc);
    }
  }

  /** The next CBW gets the next tag. */
  method NumberCbw(e: Entry)
    requires e.tag == e.serial % TWO32
    modifies e`tag, e`serial
    ensures e.serial == old(e.serial) + 1 && e.tag == e.serial % TWO32
  {
    e.serial := e.serial + 1;
    e.tag := (e.tag + 1) % TWO32;
  }

  /** `n` bytes of the caller's buffer, and all that is around `len` bytes of it. */
  ghost function Window(data: array?<byte>, off: nat, n: nat): seq<byte>
    reads data
  {
    if data != null && off + n <= data.Length then data[off..off + n] else []
  }

  ghost function Around(data: array?<byte>, off: nat, len: int): (seq<byte>, seq<byte>)
    reads data
  {
    if data == null then ([], [])
    else if 0 <= len && off + len <= data.Length then (data[..off], data[off + len..])
    else (data[..], [])
  }

  /** One Bulk-Only transaction. `csw` is the raw status, -1 without a valid CSW. */
  method Send(e: Entry, cdb: seq<byte>, data: array?<byte>, off: nat, len: nat, dataIn: bool, actualBefore: nat)
    returns (rc: Rc, csw: int, actual: nat)
    requires e.Valid()
    requires data != null ==> off + len <= data.Length
    modifies e`dev, e`tag, e`serial, e`now, e`past, e`last
    modifies data
    ensures e.Valid() && e.now >= old(e.now)
    ensures if |cdb| > MAX_CDB then
        rc == NotSent && csw == -1 && e.dev == old(e.dev) && e.Log() == old(e.Log())
      else
        && e.Log() == old(e.Log()) + [e.last] && e.last.at == old(e.now) && e.last.notReady == e.notReady
        && e.last.ask == Ask(cdb, len, dataIn, data != null)
        && Transacted(old(e.dev), e.dev, rc, e.last) && csw == StatusOf(e.last) && rc == ByWire(e.last)
        && (rc == PhaseError ==> e.dev.recoveries == old(e.dev.recoveries) + 1 && e.dev.lastAct == Recovery)
    // What is counted, and that it is in the buffer, and no other command's data.
    ensures rc == Passed ==> actual == ActualOf(e.last) <= len
    ensures rc == Passed && dataIn && data != null ==>
      Genuine(e.dev, e.last, e.disc, Window(data, off, actual))
    ensures Around(data, off, len) == old(Around(data, off, len))
    ensures !dataIn ==> Around(data, off, 0) == old(Around(data, off, 0))
  {
    hide Within, From, CodeMeans, Ordered, StatusOf, OwnStatus, Genuine, ActualOf, ByWire;
    csw, actual := -1, actualBefore;
    if |cdb| > MAX_CDB {
      return NotSent, csw, actual;
    }
    NumberCbw(e);
    rc, csw, actual := Transact(e, Ask(cdb, len, dataIn, data != null), data, off, len, dataIn, actualBefore);
    CodeIsByWire(old(e.dev), e.dev, rc, e.last);
    BookedOneMore(old(e.Log()), old(e.serial), old(e.dev.taken), e.last);
    if data != null {
      assert data[..off] == old(data[..off]) && data[off + len..] == old(data[off + len..]);
      assert !dataIn ==> data[off..] == old(data[..])[off..];
    }
  }

  // ------------------------------------------------------------- whole runs

  /** One transaction of a run, between two states of the device. */
  datatype Leg = Leg(before: Device, after: Device, rc: Rc, x: Exchange)

  /** Transaction `i` of a run is as Send leaves it, and follows the one before. */
  ghost predicate Link(run: seq<Leg>, i: nat)
    requires i < |run|
  {
    && Transacted(run[i].before, run[i].after, run[i].rc, run[i].x)
    && (i > 0 ==> run[i].before == run[i - 1].after && run[i].x.serial == run[i - 1].x.serial + 1)
  }

  ghost predicate Chained(run: seq<Leg>) {
    forall i | 0 <= i < |run| :: Link(run, i)
  }

  lemma ChainedPrefix(run: seq<Leg>, n: nat)
    requires Chained(run) && n <= |run|
    ensures Chained(run[..n])
  {
    forall i | 0 <= i < n
      ensures Link(run[..n], i)
    {
      assert Link(run, i);
    }
  }

  /** What a run is worth after its last transaction. */
  ghost predicate Settled(run: seq<Leg>)
    requires run != []
  {
    var last := run[|run| - 1];
    && last.after.recoveries == run[0].before.recoveries + Recoveries(run)
    && Increasing(last.after.taken)
    && (forall t | t in last.after.taken :: t <= last.x.serial)
  }

  lemma TakesNoneTwice(taken: seq<nat>, serial: nat, heard: bool)
    requires Increasing(taken) && forall t | t in taken :: t < serial
    ensures Increasing(taken + if heard then [serial] else [])
  {
    forall j | 0 <= j < |taken|
      ensures taken[j] < serial
    {
      assert taken[j] in taken;
    }
  }

  function Recoveries(run: seq<Leg>): nat {
    if run == [] then 0
    else
      var last := run[|run| - 1];
      Recoveries(run[..|run| - 1]) + if CalledForRecovery(last.rc, last.x) then 1 else 0
  }

  ghost predicate Increasing(s: seq<nat>) {
    forall i, j | 0 <= i < j < |s| :: s[i] < s[j]
  }

  /** However a device misbehaves over a run, it is resynchronised after every
      transaction unless it left the bus or defied a recovery; recoveries are
      exactly the ones called for; and no CBW is taken twice. */
  lemma {:induction false} RunResynchronises(run: seq<Leg>)
    requires run != [] && Chained(run)
    requires Synced(run[0].before) && run[0].before.taken == []
    ensures forall i | 0 <= i < |run| :: Quiet(run[i].after)
    ensures Settled(run)
  {
    var n := |run| - 1;
    assert Link(run, n);
    var prefix := run[..n];
    if n > 0 {
      ChainedPrefix(run, n);
      RunResynchronises(prefix);
      assert prefix[n - 1] == run[n - 1] && prefix[0] == run[0];
    }
    TakesNoneTwice(run[n].before.taken, run[n].x.serial, run[n].x.heard);
    assert forall i | 0 <= i < n :: prefix[i] == run[i];
  }

  /** And whatever state a device is in, queues and halts and defiance included: from the
      first Reset Recovery on, every transaction leaves it in step, or gone, or with a
      request unanswered that no recovery has made up for since. */
  lemma {:induction false} RecoveryRestoresStep(run: seq<Leg>, i: nat, j: nat)
    requires Chained(run) && i <= j < |run| && CalledForRecovery(run[i].rc, run[i].x)
    ensures Quiet(run[j].after)
    decreases j
  {
    assert Link(run, j);
    if j > i {
      RecoveryRestoresStep(run, i, j - 1);
    }
  }

  /** What the device holds stays within the commands since `lo`, defiant or not. */
  lemma {:induction false} RunStaysWithin(run: seq<Leg>, lo: nat, i: nat)
    requires Chained(run) && i < |run| && Within(run[0].before, lo, run[0].x.serial)
    ensures Within(run[i].before, lo, run[i].x.serial) && run[i].x.serial == run[0].x.serial + i
    decreases i
  {
    if i > 0 {
      RunStaysWithin(run, lo, i - 1);
      assert Link(run, i - 1) && Link(run, i);
      assert Within(run[i - 1].after, lo, run[i - 1].x.serial);
    }
  }

  /** No status is ever taken for another command's: over every run that stays within
      2^32 commands of the oldest one the device remembers, whatever is queued and
      whatever the device defies, a status reported is that of its own CBW. */
  lemma NoForeignStatus(run: seq<Leg>, lo: nat, i: nat)
    requires Chained(run) && i < |run| && Within(run[0].before, lo, run[0].x.serial)
    requires run[0].x.serial + i < lo + TWO32
    requires StatusOf(run[i].x) >= 0
    ensures CswOf(run[i].x).Some? && CswOf(run[i].x).value.origin == run[i].x.serial
  {
    RunStaysWithin(run, lo, i);
    assert Link(run, i);
  }

  /** 2^32 commands is as far as a 32-bit tag reaches: a CSW held back for longer is
      accepted as another command's, and for no less. */
  lemma TagReaches(origin: nat, serial: nat, status: byte)
    requires origin <= serial
    ensures var stale := Csw(origin, true, 0, status);
      var x := Exchange(serial, Ask([], 0, false, false), 0, false, false, true, Move(Success, CBW_SIZE, []),
                        [Move(Success, CSW_SIZE, [stale])]);
      Arrived(x) && origin != serial <==> exists k :: 0 < k && serial == origin + k * TWO32
  {
    if origin % TWO32 == serial % TWO32 {
      assert serial == origin + (serial / TWO32 - origin / TWO32) * TWO32;
    }
    forall k | 0 < k && serial == origin + k * TWO32
      ensures origin % TWO32 == serial % TWO32
    {
      assert (origin + k * TWO32) % TWO32 == origin % TWO32;
    }
  }
}
