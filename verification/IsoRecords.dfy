/** Directory records of ECMA-119 section 9.1, as a mastering tool lays them out
    and as the directory walk reads them back. */
module IsoRecords {
  import opened Bytes
  import opened Wrappers

  const SECTOR_SIZE: nat := 2048

  // Offsets within a directory record.
  const DR_EXTENT_LE: nat := 2
  const DR_DATA_LEN_LE: nat := 10
  const DR_FILE_FLAGS: nat := 25
  const DR_NAME_LEN: nat := 32
  const DR_NAME: nat := 33

  /** Location and data length of a file or directory. */
  datatype Extent = Extent(lba: nat, len: nat)

  function Ascii(s: string): (b: seq<byte>)
    ensures |b| == |s|
  {
    seq(|s|, i requires 0 <= i < |s| => s[i] as int % 256)
  }

  // ------------------------------------------------------------------- names

  const SEMICOLON: byte := 0x3b

  function Upper(b: byte): byte {
    if 'a' as int <= b <= 'z' as int then b - 32 else b
  }

  /** Equal but for the case of ASCII letters. */
  predicate SameLetters(a: seq<byte>, b: seq<byte>) {
    |a| == |b| && forall i | 0 <= i < |a| :: Upper(a[i]) == Upper(b[i])
  }

  /** A file identifier without its version. */
  function Stem(name: seq<byte>): (stem: seq<byte>)
    ensures stem <= name && SEMICOLON !in stem
    ensures |stem| < |name| ==> name[|stem|] == SEMICOLON
  {
    if name == [] || name[0] == SEMICOLON then []
    else
      var rest := Stem(name[1..]);
      assert [name[0]] + rest <= [name[0]] + name[1..] == name;
      [name[0]] + rest
  }

  predicate Named(name: seq<byte>, want: seq<byte>) {
    SameLetters(Stem(name), want)
  }

  /** Equal, or the small and the capital form of one letter. */
  predicate OneLetter(a: byte, b: byte) {
    || a == b
    || (0x41 <= a <= 0x5a && b == a + 32)
    || (0x41 <= b <= 0x5a && a == b + 32)
  }

  /** A name is the one wanted exactly when the two agree letter by letter up to the end of
      the name or to its first semicolon. */
  lemma NamedMeans(name: seq<byte>, want: seq<byte>)
    ensures Named(name, want) <==>
      && |want| <= |name| && (|want| == |name| || name[|want|] == 0x3b)
      && forall i | 0 <= i < |want| :: name[i] != 0x3b && OneLetter(name[i], want[i])
  {
    var stem := Stem(name);
    assert forall i | 0 <= i < |stem| :: name[i] == stem[i] && stem[i] in stem;
    assert forall a: byte, b: byte :: Upper(a) == Upper(b) <==> OneLetter(a, b);
  }

  // ------------------------------------------------------------------ layout

  function Le32(n: nat): (b: seq<byte>)
    ensures |b| == 4
  {
    [n % 256, n / 0x100 % 256, n / 0x1_0000 % 256, n / 0x100_0000 % 256]
  }

  function FromLe32(b: seq<byte>, at: nat): (n: nat)
    requires at + 4 <= |b|
    ensures n < TWO32
  {
    b[at] as int + b[at + 1] as int * 0x100 + b[at + 2] as int * 0x1_0000 + b[at + 3] as int * 0x100_0000
  }

  lemma Le32RoundTrip(n: nat, b: seq<byte>, at: nat)
    requires n < TWO32 && at + 4 <= |b| && b[at..at + 4] == Le32(n)
    ensures FromLe32(b, at) == n
  {
    assert b[at] == Le32(n)[0] && b[at + 1] == Le32(n)[1] && b[at + 2] == Le32(n)[2] && b[at + 3] == Le32(n)[3];
    assert n / 0x100_0000 < 256;
    assert n / 0x1_0000 / 0x100 == n / 0x100_0000 && n / 0x100 / 0x100 == n / 0x1_0000;
  }

  /** A record, field by field. Fields the walk does not look at are kept as bytes:
      the extended attribute length, the big-endian copies, date and time, and what
      lies between the flags and the name and behind it. */
  datatype Record = Record(
    extent: Extent,
    flags: byte,
    name: seq<byte>,
    attributes: byte,
    extentBe: seq<byte>,
    lenBe: seq<byte>,
    date: seq<byte>,
    volume: seq<byte>,
    rest: seq<byte>)

  predicate Proper(r: Record) {
    && r.extent.lba < TWO32 && r.extent.len < TWO32
    && |r.extentBe| == |r.lenBe| == 4 && |r.date| == 7 && |r.volume| == 6
    && 0 < |r.name| && DR_NAME + |r.name| + |r.rest| < 256
  }

  predicate IsDirectory(r: Record) {
    r.flags / 2 % 2 == 1
  }

  function RecordLength(r: Record): nat {
    DR_NAME + |r.name| + |r.rest|
  }

  function Encode(r: Record): (b: seq<byte>)
    requires Proper(r)
    ensures |b| == RecordLength(r)
  {
    [RecordLength(r), r.attributes] + Le32(r.extent.lba) + r.extentBe + Le32(r.extent.len) + r.lenBe + r.date
    + [r.flags] + r.volume + [|r.name|] + r.name + r.rest
  }

  /** Where ECMA-119 section 9.1 has the fields: the length first, location and data length
      low byte first at 2 and 10, the flags at 25, the name at 33 behind its length. */
  lemma RecordLayout(r: Record)
    requires Proper(r)
    ensures var b := Encode(r);
      && b[0] as int == |b| == 33 + |r.name| + |r.rest| && b[25] == r.flags && b[32] as int == |r.name|
      && b[33..33 + |r.name|] == r.name
      && b[2] as int + b[3] as int * 256 + b[4] as int * 0x1_0000 + b[5] as int * 0x100_0000 == r.extent.lba
      && b[10] as int + b[11] as int * 256 + b[12] as int * 0x1_0000 + b[13] as int * 0x100_0000 == r.extent.len
  {
    var b := Encode(r);
    assert b[2..6] == Le32(r.extent.lba) && b[10..14] == Le32(r.extent.len);
    Le32RoundTrip(r.extent.lba, b, 2);
    Le32RoundTrip(r.extent.len, b, 10);
  }

  /** The record `r`, byte by byte, at offset `off` of a sector. */
  predicate EncodedAt(sector: seq<byte>, off: nat, r: Record) {
    && Proper(r) && off + RecordLength(r) <= |sector|
    && forall i | 0 <= i < RecordLength(r) :: sector[off + i] == Encode(r)[i]
  }

  /** What the walk takes for a record at offset `off` of a sector. */
  predicate RecordAt(sector: seq<byte>, off: nat) {
    off < |sector| && DR_NAME <= sector[off] as int && off + sector[off] as int <= |sector|
  }

  predicate HasName(sector: seq<byte>, off: nat)
    requires RecordAt(sector, off)
  {
    0 < sector[off + DR_NAME_LEN] && DR_NAME + sector[off + DR_NAME_LEN] as int <= sector[off] as int
  }

  function NameAt(sector: seq<byte>, off: nat): seq<byte>
    requires RecordAt(sector, off) && HasName(sector, off)
  {
    sector[off + DR_NAME..off + DR_NAME + sector[off + DR_NAME_LEN] as int]
  }

  predicate DirectoryAt(sector: seq<byte>, off: nat)
    requires RecordAt(sector, off)
  {
    sector[off + DR_FILE_FLAGS] / 2 % 2 == 1
  }

  function ExtentAt(sector: seq<byte>, off: nat): Extent
    requires RecordAt(sector, off)
  {
    Extent(FromLe32(sector, off + DR_EXTENT_LE), FromLe32(sector, off + DR_DATA_LEN_LE))
  }

  /** A record laid out at `off` is read back field by field. */
  lemma RecordReadsBack(sector: seq<byte>, off: nat, r: Record)
    requires EncodedAt(sector, off, r)
    ensures RecordAt(sector, off) && sector[off] as int == RecordLength(r)
    ensures HasName(sector, off) && NameAt(sector, off) == r.name
    ensures DirectoryAt(sector, off) <==> IsDirectory(r)
    ensures IsDirectory(r) <==> r.flags % 4 in {2, 3}
    ensures ExtentAt(sector, off) == r.extent
  {
    hide Encode;
    RecordLayout(r);
    var b, n := Encode(r), |r.name|;
    assert sector[off] == b[0] && sector[off + 25] == b[25] && sector[off + 32] == b[32];
    assert forall i | 2 <= i < 14 :: sector[off + i] == b[i];
    assert sector[off + 33..off + 33 + n] == b[33..33 + n];
  }

  // -------------------------------------------------------------- one sector

  predicate Wanted(name: seq<byte>, isDirectory: bool, want: seq<byte>, wantDirectory: bool) {
    isDirectory == wantDirectory && Named(name, want)
  }

  /** The scan of one sector from offset `off`. */
  function Scan(sector: seq<byte>, off: nat, want: seq<byte>, wantDirectory: bool): Option<Extent>
    decreases |sector| - off
  {
    if !RecordAt(sector, off) then None
    else if HasName(sector, off) && Wanted(NameAt(sector, off), DirectoryAt(sector, off), want, wantDirectory) then
      Some(ExtentAt(sector, off))
    else Scan(sector, off + sector[off] as int, want, wantDirectory)
  }

  /** Records laid out one behind the other from offset `off`, with zeros behind the
      last one; none straddles the sector. */
  predicate LaidOut(sector: seq<byte>, off: nat, records: seq<Record>)
    decreases |records|
  {
    if records == [] then
      forall i | off <= i < |sector| :: sector[i] == 0
    else
      var r := records[0];
      && EncodedAt(sector, off, r)
      && LaidOut(sector, off + RecordLength(r), records[1..])
  }

  /** The first record of the wanted kind with the wanted name. */
  function First(records: seq<Record>, want: seq<byte>, wantDirectory: bool): (found: Option<Extent>)
    ensures found == None <==>
      forall r | r in records :: !Wanted(r.name, IsDirectory(r), want, wantDirectory)
  {
    if records == [] then None
    else if Wanted(records[0].name, IsDirectory(records[0]), want, wantDirectory) then Some(records[0].extent)
    else
      assert forall r | r in records :: r == records[0] || r in records[1..];
      First(records[1..], want, wantDirectory)
  }

  /** It is the first of that kind and name, and there is none if none is. */
  lemma {:induction false} FirstIs(records: seq<Record>, want: seq<byte>, wantDirectory: bool) returns (i: nat)
    ensures i <= |records|
    ensures forall k | 0 <= k < i :: !Named(records[k].name, want) || IsDirectory(records[k]) != wantDirectory
    ensures i < |records| ==> Named(records[i].name, want) && IsDirectory(records[i]) == wantDirectory
    ensures First(records, want, wantDirectory) == if i < |records| then Some(records[i].extent) else None
  {
    i := 0;
    if records != [] && First(records[..1], want, wantDirectory) == None {
      var rest := records[1..];
      i := FirstIs(rest, want, wantDirectory);
      i := i + 1;
      assert forall k | 1 <= k < |records| :: records[k] == rest[k - 1];
    }
  }

  lemma ScanReadsRecord(sector: seq<byte>, off: nat, r: Record, want: seq<byte>, wantDirectory: bool)
    requires EncodedAt(sector, off, r)
    ensures Scan(sector, off, want, wantDirectory) ==
      if Wanted(r.name, IsDirectory(r), want, wantDirectory) then Some(r.extent)
      else Scan(sector, off + RecordLength(r), want, wantDirectory)
  {
    RecordReadsBack(sector, off, r);
  }

  /** The scan of a sector finds the first record wanted, or nothing. */
  lemma {:induction false} ScanFindsFirst(sector: seq<byte>, off: nat, records: seq<Record>,
                                          want: seq<byte>, wantDirectory: bool)
    requires LaidOut(sector, off, records)
    ensures Scan(sector, off, want, wantDirectory) == First(records, want, wantDirectory)
    decreases |records|
  {
    if records != [] {
      ScanReadsRecord(sector, off, records[0], want, wantDirectory);
      ScanFindsFirst(sector, off + RecordLength(records[0]), records[1..], want, wantDirectory);
    }
  }

  /** A sector as a mastering tool fills it. */
  function Mastered(records: seq<Record>): (b: seq<byte>)
    requires forall r | r in records :: Proper(r)
  {
    if records == [] then [] else Encode(records[0]) + Mastered(records[1..])
  }

  lemma EncodedInside(before: seq<byte>, r: Record, behind: seq<byte>)
    requires Proper(r)
    ensures EncodedAt(before + Encode(r) + behind, |before|, r)
  {
    var first := Encode(r);
    assert forall i | 0 <= i < |first| :: (before + first + behind)[|before| + i] == first[i];
  }

  lemma Regroup(before: seq<byte>, first: seq<byte>, rest: seq<byte>, padding: seq<byte>)
    ensures before + ((first + rest) + padding) == before + first + (rest + padding)
  {
  }

  function Zeros(n: nat): (b: seq<byte>)
    ensures |b| == n && forall i | 0 <= i < n :: b[i] == 0
  {
    seq(n, _ => 0)
  }

  /** Any records that fit a sector can be laid out in it. */
  lemma {:induction false} MasteredIsLaidOut(before: seq<byte>, records: seq<Record>, pad: nat)
    requires forall r | r in records :: Proper(r)
    ensures LaidOut(before + (Mastered(records) + Zeros(pad)), |before|, records)
    decreases |records|
  {
    hide *;
    if records == [] {
      NothingMastered(before, pad);
    } else {
      var r, rest := records[0], records[1..];
      OneMastered(before, records, pad);
      MasteredIsLaidOut(before + Encode(r), rest, pad);
      EncodedInside(before, r, Mastered(rest) + Zeros(pad));
      EncodedSize(before, r);
      OneLaidOut(before + (Mastered(records) + Zeros(pad)), |before|, records);
    }
  }

  lemma OneLaidOut(sector: seq<byte>, off: nat, records: seq<Record>)
    requires records != [] && EncodedAt(sector, off, records[0])
    requires LaidOut(sector, off + RecordLength(records[0]), records[1..])
    ensures LaidOut(sector, off, records)
  {
  }

  lemma NothingMastered(before: seq<byte>, pad: nat)
    ensures LaidOut(before + (Mastered([]) + Zeros(pad)), |before|, [])
  {
    assert Mastered([]) + Zeros(pad) == Zeros(pad);
  }

  /** The first record of a sector, and the rest behind it. */
  lemma OneMastered(before: seq<byte>, records: seq<Record>, pad: nat)
    requires records != [] && forall r | r in records :: Proper(r)
    ensures before + (Mastered(records) + Zeros(pad)) ==
      before + Encode(records[0]) + (Mastered(records[1..]) + Zeros(pad))
  {
    hide Encode, Zeros, Proper;
    Regroup(before, Encode(records[0]), Mastered(records[1..]), Zeros(pad));
  }

  lemma EncodedSize(before: seq<byte>, r: Record)
    requires Proper(r)
    ensures |before + Encode(r)| == |before| + RecordLength(r)
  {
  }
}
