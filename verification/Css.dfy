/** Which commands change the drive's CSS authentication state. */
module Css {
  import opened Bytes

  const REPORT_KEY: byte := 0xA4
  const SEND_KEY: byte := 0xA3
  const READ_DVD_STRUCTURE: byte := 0xAD

  /** Keyed on the key format, not on the opcode: asking for an AGID, the steps
      of the handshake, a title key and an AGID invalidation change state, while
      ASF, RPC state and the first two DVD structures are only read. */
  predicate ChangesCssState(cdb: seq<byte>) {
    |cdb| >= 12 &&
    if cdb[0] == REPORT_KEY then cdb[10] % 0x40 in {0x00, 0x01, 0x02, 0x04, 0x3f}
    else if cdb[0] == SEND_KEY then cdb[10] % 0x40 in {0x01, 0x03}
    else cdb[0] == READ_DVD_STRUCTURE && cdb[7] !in {0x00, 0x01}
  }

  /** What a host may ask of the keys of a disc (MMC-5, sections 6.25.3, 6.33.3 and 6.22.3):
      the formats of REPORT KEY, of SEND KEY and of READ DVD STRUCTURE. */
  datatype KeyCommand =
    | RequestAgid
    | ReportChallenge
    | ReportKey1
    | ReportTitleKey
    | ReportAsf
    | ReportRpcState
    | InvalidateAgid
    | SendChallenge
    | SendKey2
    | SendRpcState
    | ReadStructure(format: byte)

  /** Its CDB, for a grant id and with any other bytes. */
  predicate Asks(cdb: seq<byte>, k: KeyCommand, agid: nat) {
    |cdb| == 12 && agid < 4 &&
    match k
    case RequestAgid => cdb[0] == 0xA4 && cdb[10] == agid * 64
    case ReportChallenge => cdb[0] == 0xA4 && cdb[10] == agid * 64 + 0x01
    case ReportKey1 => cdb[0] == 0xA4 && cdb[10] == agid * 64 + 0x02
    case ReportTitleKey => cdb[0] == 0xA4 && cdb[10] == agid * 64 + 0x04
    case ReportAsf => cdb[0] == 0xA4 && cdb[10] == agid * 64 + 0x05
    case ReportRpcState => cdb[0] == 0xA4 && cdb[10] == agid * 64 + 0x08
    case InvalidateAgid => cdb[0] == 0xA4 && cdb[10] == agid * 64 + 0x3f
    case SendChallenge => cdb[0] == 0xA3 && cdb[10] == agid * 64 + 0x01
    case SendKey2 => cdb[0] == 0xA3 && cdb[10] == agid * 64 + 0x03
    case SendRpcState => cdb[0] == 0xA3 && cdb[10] == agid * 64 + 0x06
    case ReadStructure(format) => cdb[0] == 0xAD && cdb[7] == format
  }

  /** The steps of the handshake change state, whatever the grant; asking what the drive or
      the disc is, does not; and of the structures the physical and the copyright one can
      be had without a key. */
  lemma HandshakeChangesState(cdb: seq<byte>, k: KeyCommand, agid: nat)
    requires Asks(cdb, k, agid)
    ensures ChangesCssState(cdb) <==>
      || k in {RequestAgid, ReportChallenge, ReportKey1, ReportTitleKey, InvalidateAgid, SendChallenge, SendKey2}
      || (k.ReadStructure? && k.format > 1)
  {
  }

  /** Nothing else does. */
  lemma OthersDoNot(cdb: seq<byte>)
    requires |cdb| < 12 || cdb[0] !in {0xA3, 0xA4, 0xAD}
    ensures !ChangesCssState(cdb)
  {
  }
}
