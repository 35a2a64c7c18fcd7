/** The ISO 9660 walk that tells a Video CD from a Super Video CD. */
module Iso {
  import opened Bytes
  import opened IsoRecords
  import opened Label
  import opened Wrappers

  const PVD_LBA: nat := 16
  const MAX_DIR_SECTORS: nat := 4
  const ROOT_RECORD: nat := 156
  const LABEL_AT: nat := 40
  const LABEL_MAX: nat := 32

  type Sector = s: seq<byte> | |s| == SECTOR_SIZE witness Zeros(SECTOR_SIZE)

  /** A disc, sector by sector; None for one that does not read. */
  datatype Disc = Disc(read: nat -> Option<Sector>)

  method ReadSector(d: Disc, lba: nat, buffer: array<byte>) returns (ok: bool)
    requires buffer.Length == SECTOR_SIZE
    modifies buffer
    ensures ok <==> d.read(lba).Some?
    ensures ok ==> buffer[..] == d.read(lba).value
  {
    match d.read(lba)
    case None => ok := false;
    case Some(sector) =>
      forall i | 0 <= i < SECTOR_SIZE {
        buffer[i] := sector[i];
      }
      ok := true;
  }

  // -------------------------------------------------------------- directories

  /** The sectors of a directory, in 32-bit arithmetic, under the ceiling. */
  function SectorsOf(dirLen: nat): (n: nat)
    ensures n <= MAX_DIR_SECTORS
  {
    var n := (dirLen + SECTOR_SIZE - 1) % TWO32 / SECTOR_SIZE;
    if n > MAX_DIR_SECTORS then MAX_DIR_SECTORS else n
  }

  /** All of them up to four, exactly when the length is not within 2047 bytes of
      2^32: then the sum wraps, and the directory looks empty. */
  lemma SectorsWrap(dirLen: nat)
    requires dirLen < TWO32
    ensures var whole := (dirLen + 2047) / 2048;
      SectorsOf(dirLen) == (if whole > 4 then 4 else whole) <==> dirLen <= 0x1_0000_0000 - 2048
    ensures dirLen > 0x1_0000_0000 - 2048 ==> SectorsOf(dirLen) == 0
  {
    if dirLen > TWO32 - SECTOR_SIZE {
      assert (dirLen + SECTOR_SIZE - 1) % TWO32 == dirLen + SECTOR_SIZE - 1 - TWO32;
    }
  }

  /** The walk over sectors `s` and following of a directory. */
  function Walk(d: Disc, dirLba: nat, s: nat, sectors: nat, want: seq<byte>, wantDirectory: bool): Option<Extent>
    decreases sectors - s
  {
    if s >= sectors then None
    else
      match d.read((dirLba + s) % TWO32)
      case None => None
      case Some(sector) =>
        match Scan(sector, 0, want, wantDirectory)
        case Some(e) => Some(e)
        case None => Walk(d, dirLba, s + 1, sectors, want, wantDirectory)
  }

  /** A sector that cannot be read ends the walk: what lies behind it is not looked at. */
  lemma {:induction false} UnreadableEndsTheWalk(d: Disc, dirLba: nat, s: nat, k: nat, sectors: nat, want: seq<byte>,
                                                 wantDirectory: bool)
    requires s <= k < sectors && d.read((dirLba + k) % TWO32) == None
    ensures Walk(d, dirLba, s, sectors, want, wantDirectory) == Walk(d, dirLba, s, k, want, wantDirectory)
    decreases k - s
  {
    hide Scan;
    if s < k { UnreadableEndsTheWalk(d, dirLba, s + 1, k, sectors, want, wantDirectory); }
  }

  /** memchr() for the version separator: how long a name is without it. */
  method StemLength(buffer: array<byte>, at: nat, len: nat) returns (n: nat)
    requires at + len <= buffer.Length
    ensures n <= len && Stem(buffer[at..at + len]) == buffer[at..at + n]
  {
    hide Stem;
    ghost var name := buffer[at..at + len];
    n := 0;
    while n < len && buffer[at + n] != SEMICOLON
      invariant n <= len
      invariant SEMICOLON !in name[..n]
    {
      assert name[..n + 1] == name[..n] + [buffer[at + n]];
      n := n + 1;
    }
    StemIs(name, n);
    assert name[..n] == buffer[at..at + n];
  }

  /** A comparison without case. */
  method LettersMatch(buffer: array<byte>, at: nat, want: seq<byte>) returns (same: bool)
    requires at + |want| <= buffer.Length
    ensures same <==> SameLetters(buffer[at..at + |want|], want)
  {
    ghost var name := buffer[at..at + |want|];
    for i := 0 to |want|
      invariant forall k | 0 <= k < i :: Upper(name[k]) == Upper(want[k])
    {
      var a, b := buffer[at + i], want[i];
      if 'a' as int <= a <= 'z' as int {
        a := a - 32;
      }
      if 'a' as int <= b <= 'z' as int {
        b := b - 32;
      }
      assert a == Upper(name[i]) && b == Upper(want[i]);
      if a != b {
        return false;
      }
    }
    same := true;
  }

  /** Is the name, without its version, the one wanted? */
  method NameMatches(buffer: array<byte>, at: nat, len: nat, want: seq<byte>) returns (same: bool)
    requires at + len <= buffer.Length
    ensures same <==> Named(buffer[at..at + len], want)
  {
    hide Stem;
    var nameLen := StemLength(buffer, at, len);
    if nameLen != |want| {
      return false;
    }
    same := LettersMatch(buffer, at, want);
  }

  lemma {:induction false} StemIs(name: seq<byte>, n: nat)
    requires n <= |name| && SEMICOLON !in name[..n]
    requires n < |name| ==> name[n] == SEMICOLON
    ensures Stem(name) == name[..n]
  {
    if n > 0 {
      assert name[..n] == [name[0]] + name[1..][..n - 1];
      StemIs(name[1..], n - 1);
    }
  }

  /** Is the record at `off` the one wanted? */
  method RecordMatches(sector: array<byte>, off: nat, want: seq<byte>, wantDirectory: bool) returns (matches: bool)
    requires RecordAt(sector[..], off)
    ensures matches <==>
      HasName(sector[..], off)
      && Wanted(NameAt(sector[..], off), DirectoryAt(sector[..], off), want, wantDirectory)
  {
    var recLen, nameLen := sector[off] as nat, sector[off + DR_NAME_LEN] as nat;
    if nameLen == 0 || DR_NAME + nameLen > recLen {
      return false;
    }
    var isDirectory := sector[off + DR_FILE_FLAGS] / 2 % 2 == 1;
    var same := NameMatches(sector, off + DR_NAME, nameLen, want);
    assert NameAt(sector[..], off) == sector[off + DR_NAME..off + DR_NAME + nameLen];
    matches := isDirectory == wantDirectory && same;
  }

  /** The scan of one sector: every access stays inside it, and it ends. */
  method ScanSector(sector: array<byte>, want: seq<byte>, wantDirectory: bool) returns (found: Option<Extent>)
    requires sector.Length == SECTOR_SIZE
    ensures found == Scan(sector[..], 0, want, wantDirectory)
  {
    var off := 0;
    while off < SECTOR_SIZE
      invariant off <= SECTOR_SIZE
      invariant Scan(sector[..], 0, want, wantDirectory) == Scan(sector[..], off, want, wantDirectory)
      decreases SECTOR_SIZE - off
    {
      var recLen := sector[off] as nat;
      if recLen == 0 {
        break;
      }
      if recLen < DR_NAME || off + recLen > SECTOR_SIZE {
        break;
      }
      var matches := RecordMatches(sector, off, want, wantDirectory);
      if matches {
        return Some(ExtentAt(sector[..], off));
      }
      off := off + recLen;
    }
    found := None;
  }

  /** iso_find_child(). */
  method FindChild(d: Disc, dirLba: nat, dirLen: nat, want: seq<byte>, wantDirectory: bool)
    returns (found: Option<Extent>)
    requires dirLba < TWO32 && dirLen < TWO32
    ensures found == Walk(d, dirLba, 0, SectorsOf(dirLen), want, wantDirectory)
  {
    var sectors := (dirLen + SECTOR_SIZE - 1) % TWO32 / SECTOR_SIZE;
    if sectors > MAX_DIR_SECTORS {
      sectors := MAX_DIR_SECTORS;
    }
    var s := 0;
    while s < sectors
      invariant s <= sectors
      invariant Walk(d, dirLba, 0, sectors, want, wantDirectory) == Walk(d, dirLba, s, sectors, want, wantDirectory)
    {
      var sector := new byte[SECTOR_SIZE];
      var ok := ReadSector(d, (dirLba + s) % TWO32, sector);
      if !ok {
        return None;
      }
      found := ScanSector(sector, want, wantDirectory);
      if found.Some? {
        return;
      }
      s := s + 1;
    }
    found := None;
  }

  // ------------------------------------------------- a directory on the disc

  predicate SectorHolds(d: Disc, lba: nat, records: seq<Record>) {
    d.read(lba).Some? && LaidOut(d.read(lba).value, 0, records)
  }

  /** A directory mastered at (lba, len): its records, sector by sector. */
  predicate Holds(d: Disc, at: Extent, content: seq<seq<Record>>) {
    && at.lba + |content| <= TWO32 && at.len < TWO32
    && |content| == (at.len + SECTOR_SIZE - 1) / SECTOR_SIZE
    && forall s | 0 <= s < |content| :: SectorHolds(d, at.lba + s, content[s])
  }

  function All(content: seq<seq<Record>>): seq<Record> {
    if content == [] then [] else content[0] + All(content[1..])
  }

  lemma {:induction false} FirstOfBoth(a: seq<Record>, b: seq<Record>, want: seq<byte>, wantDirectory: bool)
    ensures First(a + b, want, wantDirectory) ==
      (match First(a, want, wantDirectory) case Some(e) => Some(e) case None => First(b, want, wantDirectory))
  {
    if a == [] {
      assert a + b == b;
    } else {
      assert (a + b)[1..] == a[1..] + b;
      FirstOfBoth(a[1..], b, want, wantDirectory);
    }
  }

  /** The scan of a sector finds what its records have. */
  predicate Finds(d: Disc, lba: nat, records: seq<Record>, want: seq<byte>, wantDirectory: bool) {
    d.read(lba).Some? && Scan(d.read(lba).value, 0, want, wantDirectory) == First(records, want, wantDirectory)
  }

  lemma SectorFinds(d: Disc, lba: nat, records: seq<Record>, want: seq<byte>, wantDirectory: bool)
    requires SectorHolds(d, lba, records)
    ensures Finds(d, lba, records, want, wantDirectory)
  {
    ScanFindsFirst(d.read(lba).value, 0, records, want, wantDirectory);
  }

  lemma WalkOneSector(d: Disc, lba: nat, s: nat, sectors: nat, records: seq<Record>,
                      want: seq<byte>, wantDirectory: bool)
    requires s < sectors && lba + s < TWO32 && Finds(d, lba + s, records, want, wantDirectory)
    ensures Walk(d, lba, s, sectors, want, wantDirectory) ==
      match First(records, want, wantDirectory)
      case Some(e) => Some(e)
      case None => Walk(d, lba, s + 1, sectors, want, wantDirectory)
  {
  }

  lemma {:induction false} WalkFindsFirst(d: Disc, lba: nat, content: seq<seq<Record>>, s: nat,
                                          want: seq<byte>, wantDirectory: bool)
    requires s <= |content| && lba + |content| <= TWO32
    requires forall k | 0 <= k < |content| :: Finds(d, lba + k, content[k], want, wantDirectory)
    ensures Walk(d, lba, s, |content|, want, wantDirectory) == First(All(content[s..]), want, wantDirectory)
    decreases |content| - s
  {
    if s < |content| {
      WalkOneSector(d, lba, s, |content|, content[s], want, wantDirectory);
      WalkFindsFirst(d, lba, content, s + 1, want, wantDirectory);
      assert All(content[s..]) == content[s] + All(content[s + 1..]) by {
        assert content[s..][1..] == content[s + 1..];
      }
      FirstOfBoth(content[s], All(content[s + 1..]), want, wantDirectory);
    }
  }

  /** On any directory laid out as ECMA-119 has it, within four sectors: the extent
      of the first record of the wanted kind and name, or nothing if there is none. */
  lemma ChildIsFound(d: Disc, at: Extent, content: seq<seq<Record>>, want: seq<byte>, wantDirectory: bool)
    requires Holds(d, at, content) && |content| <= MAX_DIR_SECTORS
    ensures Walk(d, at.lba, 0, SectorsOf(at.len), want, wantDirectory) == First(All(content), want, wantDirectory)
  {
    SectorsWrap(at.len);
    forall k | 0 <= k < |content|
      ensures Finds(d, at.lba + k, content[k], want, wantDirectory)
    {
      SectorFinds(d, at.lba + k, content[k], want, wantDirectory);
    }
    WalkFindsFirst(d, at.lba, content, 0, want, wantDirectory);
    assert content[0..] == content;
  }

  // ---------------------------------------------------------------- the verdict

  datatype Video = NoVideo | Vcd | Svcd

  /** What a kind of disc is told by: a file in a directory, and how it opens. */
  datatype Probe = Probe(dir: seq<byte>, info: seq<byte>, magic: seq<byte>, kind: Video)

  const VCD_PROBE := Probe(Ascii("VCD"), Ascii("INFO.VCD"), Ascii("VIDEO_CD"), Vcd)
  const SVCD_PROBE := Probe(Ascii("SVCD"), Ascii("INFO.SVD"), Ascii("SUPERVCD"), Svcd)

  const CD001: seq<byte> := Ascii("CD001")

  predicate IsPvd(sector: Sector) {
    sector[0] == 1 && sector[1..6] == CD001
  }

  function RootOf(pvd: Sector): Extent {
    Extent(FromLe32(pvd, ROOT_RECORD + DR_EXTENT_LE), FromLe32(pvd, ROOT_RECORD + DR_DATA_LEN_LE))
  }

  predicate OpensWith(d: Disc, file: Extent, magic: seq<byte>) {
    file.len >= 8 && d.read(file.lba).Some? && d.read(file.lba).value[..8] == magic
  }

  /** What the walk finds for one probe. */
  predicate Passes(d: Disc, root: Extent, p: Probe) {
    var dir := Walk(d, root.lba, 0, SectorsOf(root.len), p.dir, true);
    dir.Some? &&
    var info := Walk(d, dir.value.lba, 0, SectorsOf(dir.value.len), p.info, false);
    info.Some? && OpensWith(d, info.value, p.magic)
  }

  /** The first probe that passes. */
  function KindOf(d: Disc, root: Extent): Video {
    if Passes(d, root, VCD_PROBE) then Vcd
    else if Passes(d, root, SVCD_PROBE) then Svcd
    else NoVideo
  }

  function Verdict(d: Disc, base: nat): Video {
    match d.read((base + PVD_LBA) % TWO32)
    case None => NoVideo
    case Some(pvd) =>
      if !IsPvd(pvd) || RootOf(pvd).len == 0 then NoVideo else KindOf(d, RootOf(pvd))
  }

  predicate Blank(b: byte) {
    b == 0x20 || b == 0
  }

  predicate Printable(s: seq<byte>) {
    forall i | 0 <= i < |s| :: 0x20 <= s[i] <= 0x7e
  }

  /** A field without the blanks at its end. */
  function Trim(field: seq<byte>): (text: seq<byte>)
    ensures text <= field && (text == [] || !Blank(text[|text| - 1]))
    ensures forall i | |text| <= i < |field| :: Blank(field[i])
  {
    if field == [] || !Blank(field[|field| - 1]) then field else Trim(field[..|field| - 1])
  }

  /** The label of a disc: refused whole unless printable. */
  function LabelOf(pvd: Sector): (text: seq<byte>)
    ensures |text| <= LABEL_MAX && 0 !in text
  {
    var text := Trim(pvd[LABEL_AT..LABEL_AT + LABEL_MAX]);
    if Printable(text) then text else []
  }

  /** detect_iso_video(): the verdict, and the volume identifier as a terminated
      string, refused whole unless all of it is printable ASCII. */
  method DetectIsoVideo(d: Disc, base: nat, volumeId: array<byte>) returns (kind: Video)
    requires base < TWO32 && volumeId.Length == 33
    modifies volumeId
    ensures kind == Verdict(d, base)
    ensures kind == NoVideo ==> volumeId[..] == old(volumeId[..])
    ensures kind != NoVideo ==> IsString(volumeId[..], LabelOf(d.read((base + 16) % 0x1_0000_0000).value))
  {
    var pvd := new byte[SECTOR_SIZE];
    var ok := ReadSector(d, (base + PVD_LBA) % TWO32, pvd);
    if !ok {
      return NoVideo;
    }
    if pvd[0] != 1 || pvd[1..6] != CD001 {
      return NoVideo;
    }
    var root := RootOf(pvd[..]);
    if root.len == 0 {
      return NoVideo;
    }
    kind := FindKind(d, root);
    if kind == NoVideo {
      return;
    }
    CopyLabel(pvd, volumeId);
  }

  method FindKind(d: Disc, root: Extent) returns (kind: Video)
    requires root.lba < TWO32 && root.len < TWO32
    ensures kind == KindOf(d, root)
  {
    var probes := [VCD_PROBE, SVCD_PROBE];
    kind := NoVideo;
    var i := 0;
    while i < |probes|
      invariant i <= |probes| && kind == NoVideo
      invariant forall k | 0 <= k < i :: !Passes(d, root, probes[k])
    {
      var passes := TryProbe(d, root, probes[i]);
      if passes {
        assert i > 0 ==> !Passes(d, root, probes[0]);
        kind := probes[i].kind;
        break;
      }
      i := i + 1;
    }
    assert i == |probes| ==> !Passes(d, root, probes[0]) && !Passes(d, root, probes[1]);
  }

  /** One probe: its directory, its file, and how that opens. */
  method TryProbe(d: Disc, root: Extent, p: Probe) returns (passes: bool)
    requires root.lba < TWO32 && root.len < TWO32
    ensures passes <==> Passes(d, root, p)
  {
    var dir := FindChild(d, root.lba, root.len, p.dir, true);
    if dir == None {
      return false;
    }
    ExtentsFit(d, root.lba, 0, SectorsOf(root.len), p.dir, true);
    var info := FindChild(d, dir.value.lba, dir.value.len, p.info, false);
    if info == None {
      return false;
    }
    if info.value.len < 8 {
      return false;
    }
    var sector := new byte[SECTOR_SIZE];
    var ok := ReadSector(d, info.value.lba, sector);
    if !ok {
      return false;
    }
    assert sector[..][..8] == sector[..8];
    passes := sector[..8] == p.magic;
  }

  lemma {:induction false} ExtentsFit(d: Disc, dirLba: nat, s: nat, sectors: nat, want: seq<byte>, wantDirectory: bool)
    ensures var e := Walk(d, dirLba, s, sectors, want, wantDirectory);
      e.Some? ==> e.value.lba < TWO32 && e.value.len < TWO32
    decreases sectors - s
  {
    if s < sectors && d.read((dirLba + s) % TWO32).Some? {
      ScannedExtentFits(d.read((dirLba + s) % TWO32).value, 0, want, wantDirectory);
      ExtentsFit(d, dirLba, s + 1, sectors, want, wantDirectory);
    }
  }

  lemma {:induction false} ScannedExtentFits(sector: seq<byte>, off: nat, want: seq<byte>, wantDirectory: bool)
    ensures var e := Scan(sector, off, want, wantDirectory);
      e.Some? ==> e.value.lba < TWO32 && e.value.len < TWO32
    decreases |sector| - off
  {
    if RecordAt(sector, off) {
      ScannedExtentFits(sector, off + sector[off] as int, want, wantDirectory);
    }
  }

  /** The volume identifier into the caller's buffer. */
  method CopyLabel(pvd: array<byte>, volumeId: array<byte>)
    requires pvd.Length == SECTOR_SIZE && volumeId.Length == VOLUME_ID_MAX && pvd != volumeId
    modifies volumeId
    ensures IsString(volumeId[..], LabelOf(pvd[..]))
  {
    ghost var text := Trim(pvd[..][LABEL_AT..LABEL_AT + LABEL_MAX]);
    var len := TrimmedLength(pvd);
    assert LabelOf(pvd[..]) == if Printable(text) then text else [];
    var i := 0;
    while i < len
      invariant i <= len
      invariant forall k | 0 <= k < i :: 0x20 <= text[k] <= 0x7e
    {
      assert text[i] == pvd[LABEL_AT + i];
      if pvd[LABEL_AT + i] < 0x20 || pvd[LABEL_AT + i] > 0x7e {
        assert LabelOf(pvd[..]) == [];
        ghost var was := pvd[..];
        volumeId[0] := 0;
        assert pvd[..] == was;
        return;
      }
      i := i + 1;
    }
    ghost var was := pvd[..];
    forall k | 0 <= k < len {
      volumeId[k] := pvd[LABEL_AT + k];
    }
    volumeId[len] := 0;
    assert pvd[..] == was;
    assert volumeId[..][..len] == text;
  }

  method TrimmedLength(pvd: array<byte>) returns (len: nat)
    requires pvd.Length == SECTOR_SIZE
    ensures len <= LABEL_MAX && pvd[LABEL_AT..LABEL_AT + len] == Trim(pvd[..][LABEL_AT..LABEL_AT + LABEL_MAX])
  {
    ghost var field := pvd[..][LABEL_AT..LABEL_AT + LABEL_MAX];
    len := LABEL_MAX;
    assert field[..LABEL_MAX] == field;
    while len > 0 && (pvd[LABEL_AT + len - 1] == 0x20 || pvd[LABEL_AT + len - 1] == 0)
      invariant len <= LABEL_MAX
      invariant Trim(field) == Trim(field[..len])
    {
      assert field[..len][len - 1] == pvd[LABEL_AT + len - 1];
      assert field[..len][..len - 1] == field[..len - 1];
      len := len - 1;
    }
    assert len > 0 ==> field[..len][len - 1] == pvd[LABEL_AT + len - 1];
    assert pvd[LABEL_AT..LABEL_AT + len] == field[..len];
  }

  // -------------------------------------------------------- what is really there

  /** The file system as mastered: the content of the root directory, and of each
      directory a probe may enter. */
  datatype Image = Image(root: seq<seq<Record>>, sub: Extent -> seq<seq<Record>>)

  predicate Small(content: seq<seq<Record>>) {
    |content| <= MAX_DIR_SECTORS
  }

  /** A Primary Volume Descriptor as it is laid out (ECMA-119, section 8.4): type 1 and
      "CD001" first, the volume identifier at 40, the record of the root directory at 156. */
  predicate IsDescriptor(pvd: Sector, volume: seq<byte>, root: Record) {
    && pvd[0] == 1 && pvd[1] == 0x43 && pvd[2] == 0x44 && pvd[3] == 0x30 && pvd[4] == 0x30 && pvd[5] == 0x31
    && |volume| == 32 && pvd[40..72] == volume && EncodedAt(pvd, 156, root)
  }

  lemma DescriptorReadsBack(pvd: Sector, volume: seq<byte>, root: Record)
    requires IsDescriptor(pvd, volume, root)
    ensures IsPvd(pvd) && RootOf(pvd) == root.extent
    ensures LabelOf(pvd) == if Printable(Trim(volume)) then Trim(volume) else []
  {
    assert pvd[1..6] == CD001;
    RecordReadsBack(pvd, 156, root);
  }

  /** The label: what stands before the blanks, spaces or zeros, at the end of the field, and
      nothing at all if any byte of that is no printable character. */
  lemma LabelMeans(volume: seq<byte>, n: nat)
    requires n <= |volume| && forall i | n <= i < |volume| :: volume[i] in {0x00, 0x20}
    requires n > 0 ==> volume[n - 1] !in {0x00, 0x20}
    ensures Trim(volume) == volume[..n]
    ensures Printable(Trim(volume)) <==> forall i | 0 <= i < n :: 0x20 <= volume[i] <= 0x7e
  {
    assert |Trim(volume)| == n;
  }

  /** It is on the disc, with its descriptor 16 sectors into the track. */
  predicate Carries(d: Disc, base: nat, volume: seq<byte>, root: Record, image: Image) {
    var pvd := d.read((base + 16) % 0x1_0000_0000);
    && pvd.Some? && IsDescriptor(pvd.value, volume, root) && root.extent.len > 0
    && Holds(d, root.extent, image.root) && Small(image.root)
    && forall name | name in [Ascii("VCD"), Ascii("SVCD")] ::
         match First(All(image.root), name, true)
         case None => true
         case Some(dir) => Holds(d, dir, image.sub(dir)) && Small(image.sub(dir))
  }

  /** The two-level path is in the image, and its file is of eight bytes or more and opens
      with the magic. */
  predicate Exists(d: Disc, image: Image, dir: string, info: string, magic: string) {
    var at := First(All(image.root), Ascii(dir), true);
    at.Some? &&
    var file := First(All(image.sub(at.value)), Ascii(info), false);
    && file.Some? && file.value.len >= 8 && d.read(file.value.lba).Some? && |magic| == 8
    && forall i | 0 <= i < 8 :: d.read(file.value.lba).value[i] as int == magic[i] as int
  }

  /** And on a disc without such a descriptor, or with an empty root, nothing is looked for:
      a sector that cannot be read, or does not begin with 1 and "CD001". */
  lemma NothingWithoutDescriptor(d: Disc, base: nat)
    requires var pvd := d.read((base + 16) % 0x1_0000_0000);
      || pvd == None || pvd.value[0] != 1 || pvd.value[1] != 0x43 || pvd.value[2] != 0x44
      || pvd.value[3] != 0x30 || pvd.value[4] != 0x30 || pvd.value[5] != 0x31
      || pvd.value[166..170] == [0, 0, 0, 0]
    ensures Verdict(d, base) == NoVideo
  {
    var pvd := d.read((base + 16) % 0x1_0000_0000);
    if pvd.Some? && IsPvd(pvd.value) {
      var s := pvd.value;
      assert s[1..6][0] == s[1] && s[1..6][1] == s[2] && s[1..6][2] == s[3] && s[1..6][3] == s[4] && s[1..6][4] == s[5];
      assert s[166..170] == [s[166], s[167], s[168], s[169]];
    }
  }

  lemma OpensMeans(d: Disc, file: Extent, magic: string)
    requires |magic| == 8 && forall i | 0 <= i < 8 :: magic[i] as int < 256
    ensures OpensWith(d, file, Ascii(magic)) <==>
      && file.len >= 8 && d.read(file.lba).Some?
      && forall i | 0 <= i < 8 :: d.read(file.lba).value[i] as int == magic[i] as int
  {
    if d.read(file.lba).Some? {
      var s := d.read(file.lba).value;
      assert s[..8] == Ascii(magic) <==> forall i | 0 <= i < 8 :: s[i] == Ascii(magic)[i];
    }
  }

  lemma PassesIffExists(d: Disc, base: nat, volume: seq<byte>, root: Record, image: Image, p: Probe, dir: string,
                        info: string, magic: string)
    requires Carries(d, base, volume, root, image) && dir in ["VCD", "SVCD"]
    requires p.dir == Ascii(dir) && p.info == Ascii(info) && p.magic == Ascii(magic)
    requires |magic| == 8 && forall i | 0 <= i < 8 :: magic[i] as int < 256
    ensures Passes(d, root.extent, p) <==> Exists(d, image, dir, info, magic)
  {
    hide OpensWith, Walk, First, All, Ascii, IsDescriptor;
    ChildIsFound(d, root.extent, image.root, p.dir, true);
    match First(All(image.root), p.dir, true) {
      case None =>
      case Some(at) =>
        ChildIsFound(d, at, image.sub(at), p.info, false);
        match First(All(image.sub(at)), p.info, false) {
          case None =>
          case Some(file) => OpensMeans(d, file, magic);
        }
    }
  }

  /** On any such disc the verdict is what is there, Video CD first, and the label is that of
      the descriptor. */
  lemma VerdictIsTrue(d: Disc, base: nat, volume: seq<byte>, root: Record, image: Image)
    requires Carries(d, base, volume, root, image)
    ensures Verdict(d, base) == Vcd <==> Exists(d, image, "VCD", "INFO.VCD", "VIDEO_CD")
    ensures Verdict(d, base) == Svcd <==>
      Exists(d, image, "SVCD", "INFO.SVD", "SUPERVCD") && !Exists(d, image, "VCD", "INFO.VCD", "VIDEO_CD")
    ensures LabelOf(d.read((base + 16) % 0x1_0000_0000).value) == if Printable(Trim(volume)) then Trim(volume) else []
  {
    hide Passes, Exists, Holds, Trim, EncodedAt;
    PassesIffExists(d, base, volume, root, image, VCD_PROBE, "VCD", "INFO.VCD", "VIDEO_CD");
    PassesIffExists(d, base, volume, root, image, SVCD_PROBE, "SVCD", "INFO.SVD", "SUPERVCD");
    DescriptorReadsBack(d.read((base + 16) % 0x1_0000_0000).value, volume, root);
  }
}
