/** The two read commands and the bytes of the disc they ask for. */
module Discs {
  import opened Bytes

  const BLOCK_SIZE: nat := 2048
  const CD_SECTOR_SIZE: nat := 2352

  /** The form in which a command wants the sectors: READ(10) blocks, or READ CD
      sectors under an Expected Sector Type and a field selection. */
  datatype View = Blocks | Sectors(expected: byte, fields: byte)

  /** All the bytes of the disc, in each form. */
  datatype Medium = Medium(at: (View, nat) -> byte)

  // ---------------------------------------------- blocks and bytes, linearly

  /** blocks * size, by repeated addition. */
  function Span(blocks: nat, size: nat): nat {
    if blocks == 0 then 0 else Span(blocks - 1, size) + size
  }

  /** bytes / size, by repeated subtraction. */
  function Whole(bytes: nat, size: nat): nat
    requires size > 0
    decreases bytes
  {
    if bytes < size then 0 else 1 + Whole(bytes - size, size)
  }

  lemma {:induction false} SpanIsProduct(blocks: nat, size: nat)
    ensures Span(blocks, size) == blocks * size
  {
    if blocks > 0 {
      SpanIsProduct(blocks - 1, size);
    }
  }

  lemma {:induction false} SpanSum(a: nat, b: nat, size: nat)
    ensures Span(a + b, size) == Span(a, size) + Span(b, size)
  {
    if b > 0 {
      SpanSum(a, b - 1, size);
    }
  }

  lemma {:induction false} SpanMonotone(a: nat, b: nat, size: nat)
    requires a <= b
    ensures Span(a, size) <= Span(b, size)
    ensures a < b ==> Span(a, size) + size <= Span(b, size)
  {
    if a < b {
      SpanMonotone(a, b - 1, size);
    }
  }

  lemma {:induction false} SpanOfWhole(bytes: nat, size: nat)
    requires size > 0
    ensures Span(Whole(bytes, size), size) <= bytes < Span(Whole(bytes, size), size) + size
    decreases bytes
  {
    if bytes >= size {
      SpanOfWhole(bytes - size, size);
    }
  }

  /** The whole blocks in some bytes are the ones that fit, and no more. */
  lemma WholeIs(bytes: nat, size: nat, n: nat)
    requires size > 0
    ensures n <= Whole(bytes, size) <==> Span(n, size) <= bytes
  {
    SpanOfWhole(bytes, size);
    if n <= Whole(bytes, size) {
      SpanMonotone(n, Whole(bytes, size), size);
    } else {
      SpanMonotone(Whole(bytes, size), n, size);
    }
  }

  lemma QuotientBounds(bytes: nat, size: nat)
    requires size > 0
    ensures bytes / size * size <= bytes < bytes / size * size + size
  {
  }

  lemma WholeIsTheOne(bytes: nat, size: nat, n: nat)
    requires size > 0 && n * size <= bytes < n * size + size
    ensures Whole(bytes, size) == n
  {
    SpanIsProduct(n, size);
    WholeIs(bytes, size, n);
    WholeIs(bytes, size, n + 1);
  }

  lemma WholeIsQuotient(bytes: nat, size: nat)
    requires size > 0
    ensures Whole(bytes, size) == bytes / size
  {
    QuotientBounds(bytes, size);
    WholeIsTheOne(bytes, size, bytes / size);
  }

  // ------------------------------------------------------------------- units

  function UnitSize(v: View): nat {
    if v.Blocks? then BLOCK_SIZE else CD_SECTOR_SIZE
  }

  /** Units lba .. lba + count - 1 of the disc. */
  function Units(m: Medium, v: View, lba: nat, count: nat): (s: seq<byte>)
    ensures |s| == Span(count, UnitSize(v))
  {
    seq<byte>(Span(count, UnitSize(v)), i requires i >= 0 => m.at(v, Span(lba, UnitSize(v)) + i))
  }

  lemma UnitsConcat(m: Medium, v: View, lba: nat, a: nat, b: nat)
    ensures Units(m, v, lba, a) + Units(m, v, lba + a, b) == Units(m, v, lba, a + b)
  {
    SpanSum(lba, a, UnitSize(v));
    SpanSum(a, b, UnitSize(v));
  }

  lemma UnitsPrefix(m: Medium, v: View, lba: nat, a: nat, b: nat)
    requires a <= b
    ensures Span(a, UnitSize(v)) <= Span(b, UnitSize(v))
    ensures Units(m, v, lba, b)[..Span(a, UnitSize(v))] == Units(m, v, lba, a)
  {
    UnitsConcat(m, v, lba, a, b - a);
    SpanMonotone(a, b, UnitSize(v));
    assert b == a + (b - a);
  }

  // ------------------------------------------------------------------- CDBs

  const READ_10: byte := 0x28
  const READ_CD: byte := 0xBE

  /** A value truncated to one byte, `shift` bits up. */
  function ByteOf(n: nat, unit: nat): byte
    requires unit > 0
  {
    n / unit % 256
  }

  function BuildRead10(lba: nat, blocks: nat): (cdb: seq<byte>)
    ensures |cdb| == 10
  {
    [READ_10, 0, ByteOf(lba, 0x100_0000), ByteOf(lba, 0x1_0000), ByteOf(lba, 0x100), ByteOf(lba, 1),
     0, ByteOf(blocks, 0x100), ByteOf(blocks, 1), 0]
  }

  function BuildReadCd(lba: nat, blocks: nat, expected: byte, fields: byte): (cdb: seq<byte>)
    ensures |cdb| == 12
  {
    [READ_CD, expected, ByteOf(lba, 0x100_0000), ByteOf(lba, 0x1_0000), ByteOf(lba, 0x100), ByteOf(lba, 1),
     ByteOf(blocks, 0x1_0000), ByteOf(blocks, 0x100), ByteOf(blocks, 1), fields, 0, 0]
  }

  function Build(v: View, lba: nat, blocks: nat): (cdb: seq<byte>)
    ensures 0 < |cdb| <= 12
  {
    match v
    case Blocks => BuildRead10(lba, blocks)
    case Sectors(expected, fields) => BuildReadCd(lba, blocks, expected, fields)
  }

  /** How the drive reads a CDB. */
  predicate IsRead(cdb: seq<byte>) {
    (|cdb| == 10 && cdb[0] == READ_10) || (|cdb| == 12 && cdb[0] == READ_CD)
  }

  function ViewOf(cdb: seq<byte>): View
    requires IsRead(cdb)
  {
    if cdb[0] == READ_10 then Blocks else Sectors(cdb[1], cdb[9])
  }

  function LbaOf(cdb: seq<byte>): nat
    requires IsRead(cdb)
  {
    cdb[2] as int * 0x100_0000 + cdb[3] as int * 0x1_0000 + cdb[4] as int * 0x100 + cdb[5] as int
  }

  function CountOf(cdb: seq<byte>): nat
    requires IsRead(cdb)
  {
    if cdb[0] == READ_10 then cdb[7] as int * 0x100 + cdb[8] as int
    else cdb[6] as int * 0x1_0000 + cdb[7] as int * 0x100 + cdb[8] as int
  }

  /** What a read asks the disc for. */
  function Asked(m: Medium, cdb: seq<byte>): seq<byte>
    requires IsRead(cdb)
  {
    Units(m, ViewOf(cdb), LbaOf(cdb), CountOf(cdb))
  }

  /** A disc as what it holds for each read. */
  ghost function DiscOf(m: Medium): imap<seq<byte>, seq<byte>> {
    imap cdb: seq<byte> | IsRead(cdb) :: Asked(m, cdb)
  }

  /** What the CDB of a read asks the disc for, while the count fits its field. */
  lemma AskedOfBuild(m: Medium, v: View, lba: nat, blocks: nat)
    requires lba < TWO32 && blocks < 0x1_0000
    ensures IsRead(Build(v, lba, blocks)) && Asked(m, Build(v, lba, blocks)) == Units(m, v, lba, blocks)
  {
    CdbRoundTrip(v, lba, blocks);
  }

  lemma BytesOfWord(n: nat)
    requires n < TWO32
    ensures ByteOf(n, 0x100_0000) * 0x100_0000 + ByteOf(n, 0x1_0000) * 0x1_0000
            + ByteOf(n, 0x100) * 0x100 + ByteOf(n, 1) == n
  {
    assert n / 0x100_0000 < 256;
    assert n / 0x1_0000 / 0x100 == n / 0x100_0000;
    assert n / 0x100 / 0x100 == n / 0x1_0000;
  }

  /** The CDB decodes to the request: the LBA always, the count while it fits
      the command's field (16 bits of READ(10), 24 bits of READ CD). */
  lemma CdbRoundTrip(v: View, lba: nat, blocks: nat)
    requires lba < TWO32
    ensures IsRead(Build(v, lba, blocks)) && ViewOf(Build(v, lba, blocks)) == v
    ensures LbaOf(Build(v, lba, blocks)) == lba
    ensures CountOf(Build(v, lba, blocks)) == blocks
            <==> blocks < if v.Blocks? then 0x1_0000 else 0x100_0000
    // On the bytes, as MMC-5 has them in sections 6.15 and 6.19.
    ensures var cdb := Build(v, lba, blocks);
      && cdb[2] as int * 0x100_0000 + cdb[3] as int * 0x1_0000 + cdb[4] as int * 0x100 + cdb[5] as int == lba
      && match v
         case Blocks =>
           && |cdb| == 10 && cdb[0] == 0x28 && UnitSize(v) == 2048
           && (blocks < 0x1_0000 ==> cdb[7] as int * 0x100 + cdb[8] as int == blocks)
         case Sectors(expected, fields) =>
           && |cdb| == 12 && cdb[0] == 0xBE && cdb[1] == expected && cdb[9] == fields && UnitSize(v) == 2352
           && (blocks < 0x100_0000 ==>
                 cdb[6] as int * 0x1_0000 + cdb[7] as int * 0x100 + cdb[8] as int == blocks)
  {
    BytesOfWord(lba);
    assert blocks / 0x100 / 0x100 == blocks / 0x1_0000;
    if blocks < 0x100_0000 {
      BytesOfWord(blocks);
      assert blocks / 0x100_0000 == 0;
    }
  }
}
