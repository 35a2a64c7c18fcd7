/** The per-device record that every layer shares, together with the device on
    the other end of its handle. */
module Entries {
  import opened Bytes
  import opened Exchanges
  import opened UsbDevice
  import opened Wrappers

  const MAX_BYTES_PER_TRANSFER: nat := 64 * 1024
  const MIN_BYTES_PER_TRANSFER: nat := 8 * 1024

  datatype LaserStatus =
    | OK
    | NoSuchToken
    | IO
    | MediaGone
    | Refused
    | Scrambled
    | NoKey
    | Region
    | Invalid
    | Cancelled
    | NoDevice

  /** A log that belongs to a device: a slot for every CBW issued, and the CBWs the
      device took. Number 0 was never issued. */
  predicate Booked(log: seq<Exchange>, serial: nat, taken: seq<nat>) {
    |log| == serial + 1 && Numbered(log) && taken == TakenIn(log)
  }

  lemma BookedOneMore(log: seq<Exchange>, serial: nat, taken: seq<nat>, x: Exchange)
    requires Booked(log, serial, taken) && x.serial == serial + 1
    ensures Booked(log + [x], serial + 1, taken + if x.heard then [x.serial] else [])
  {
    TakenInOneMore(log, x);
  }

  class Entry {
    var tag: nat
    var lun: byte
    var maxTransferBytes: nat
    var cancelled: bool
    var deviceGone: bool
    var notReady: bool
    var cssOpen: bool

    /** The device, and how many CBWs the host has issued to it. */
    var dev: Device
    var serial: nat

    /** The log, up to the latest transaction, and that one; both are written by the
        libusb calls below and by nothing else. */
    ghost var past: seq<Exchange>
    ghost var last: Exchange

    /** A monotonic clock, in milliseconds. */
    var now: nat

    /** The disc in the drive. */
    ghost const disc: Contents

    constructor (ghost disc: Contents, life: nat)
      ensures Valid() && Synced(dev) && this.disc == disc
    {
      tag, lun, maxTransferBytes := 0, 0, MAX_BYTES_PER_TRANSFER;
      cancelled, deviceGone, notReady, cssOpen := false, false, false, false;
      dev := Device(life, [], 0, false, false, false, false, false, [], [], 0, NoAct, false, 0, 0, 0);
      serial, past, last, now := 0, [], NO_EXCHANGE, 0;
      this.disc := disc;
    }

    ghost function Log(): seq<Exchange>
      reads this`past, this`last
    {
      past + [last]
    }

    /** Between two transactions. */
    ghost predicate Valid()
      reads this`tag, this`serial, this`dev, this`past, this`last, this`maxTransferBytes
    {
      && tag == serial % TWO32
      && dev.current <= serial
      && Quiet(dev)
      && Booked(Log(), serial, dev.taken)
      && MIN_BYTES_PER_TRANSFER <= maxTransferBytes <= MAX_BYTES_PER_TRANSFER
    }

    /** Time passes. */
    method Clock() returns (t: nat)
      modifies this`now
      ensures t == now >= old(now)
    {
      var pause :| 0 <= pause;
      now := now + pause;
      t := now;
    }

    method Sleep(ms: nat)
      modifies this`now
      ensures now >= old(now) + ms
    {
      var extra :| 0 <= extra;
      now := now + ms + extra;
    }

    // ------------------------------------------------- the libusb calls
    // Each lets the device choose its answer, and promises what holds of all.

    method SendCbw(ghost ask: Ask) returns (ret: Ret, count: nat)
      requires dev.current <= serial
      modifies this`dev, this`past, this`last
      ensures CbwSent(old(dev), dev, serial, ret, count)
      ensures past == old(past) + [old(last)]
      ensures last == Exchange(serial, ask, now, old(dev).defiant, notReady, last.heard, Move(ret, count, []), [])
      ensures dev.taken == old(dev.taken) + if last.heard then [serial] else []
    {
      var choice: CbwChoice := *;
      SendCbwSound(dev, serial, choice);
      var r := UsbDevice.SendCbw(dev, serial, choice);
      past := past + [last];
      last := Exchange(serial, ask, now, dev.defiant, notReady, r.dev.taken != dev.taken, Move(r.ret, r.count, []), []);
      dev, ret, count := r.dev, r.ret, r.count;
    }

    method ReadIn(len: nat) returns (ret: Ret, count: nat, packets: seq<Packet>)
      modifies this`dev, this`last
      ensures ReadSound(old(dev), dev, serial, len, ret, count, packets, Eaten(old(last.moves)))
      ensures last == old(last).(moves := old(last.moves) + [Move(ret, count, packets)])
    {
      var choice: InChoice := *;
      ReadInSound(dev, len, choice, serial, Eaten(last.moves));
      var r := UsbDevice.ReadIn(dev, len, choice);
      dev, ret, count, packets := r.dev, r.ret, r.count, r.packets;
      last := last.(moves := last.moves + [Move(ret, count, packets)]);
    }

    method WriteOut(len: nat) returns (ret: Ret, count: nat)
      modifies this`dev, this`last
      ensures WriteSound(old(dev), dev, serial, len, ret, count, Eaten(old(last.moves)))
      ensures last == old(last).(moves := old(last.moves) + [Move(ret, count, [])])
    {
      var choice: OutChoice := *;
      WriteOutSound(dev, len, choice, serial, Eaten(last.moves));
      var r := UsbDevice.WriteOut(dev, len, choice);
      dev, ret, count := r.dev, r.ret, r.count;
      last := last.(moves := last.moves + [Move(ret, count, [])]);
    }

    method ClearStall(isIn: bool)
      modifies this`dev
      ensures Unstalled(old(dev), dev, serial, isIn)
    {
      var answered: bool := *;
      UnstallSound(dev, isIn, answered, serial);
      dev := Unstall(dev, isIn, answered);
    }

    method MassStorageReset()
      modifies this`dev, this`now
      ensures Recovered(old(dev), dev, serial) && now >= old(now)
    {
      var choice: RecoveryChoice := *;
      RecoverSound(dev, choice, serial);
      dev := Recover(dev, choice);
      Sleep(100);
    }
  }
}
