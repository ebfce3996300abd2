/** The layout of a data storage file: a 64-byte cFE header, a 76-byte DS header and raw packets
    framed as in section 4.1.3.5 of CCSDS 133.0-B-2 (length field = total octets - 7). */
module FileFormat {
  type Byte = b: nat | b < 256
  type Bytes = seq<Byte>

  const FS_HEADER_SIZE: nat := 64
  const DS_HEADER_SIZE: nat := 76
  const HEADER_SIZE: nat := 140
  const MAGIC: Bytes := [0x63, 0x46, 0x45, 0x31] // "cFE1"
  const TIME_SIZE: nat := 8                      // sizeof(CFE_TIME_SysTime_t)
  const NAME_SIZE: nat := 64
  const DESCRIPTION_SIZE: nat := 32

  // ----- Packets

  /** Two bytes, most significant first. */
  function Word(high: int, low: int): int {
    256 * high + low
  }

  /** Length promised by the primary header. */
  function FrameLength(p: Bytes): nat
    requires |p| >= 6
  {
    Word(p[4], p[5]) + 7
  }

  predicate Framed(p: Bytes) {
    |p| >= 7 && |p| == FrameLength(p)
  }

  function StreamId(p: Bytes): nat
    requires |p| >= 6
  {
    Word(p[0], p[1])
  }

  function Flatten(ps: seq<Bytes>): Bytes {
    if ps == [] then [] else Flatten(ps[..|ps| - 1]) + ps[|ps| - 1]
  }

  lemma {:induction false} FlattenConcat(ps: seq<Bytes>, qs: seq<Bytes>)
    ensures Flatten(ps + qs) == Flatten(ps) + Flatten(qs)
  {
    if qs == [] {
      assert ps + qs == ps;
    } else {
      FlattenConcat(ps, qs[..|qs| - 1]);
      assert (ps + qs)[..|ps + qs| - 1] == ps + qs[..|qs| - 1];
    }
  }

  lemma FlattenAppend(ps: seq<Bytes>, p: Bytes)
    ensures Flatten(ps + [p]) == Flatten(ps) + p
  {
    assert (ps + [p])[..|ps|] == ps;
  }

  lemma FlattenFirst(ps: seq<Bytes>)
    requires ps != []
    ensures Flatten(ps) == ps[0] + Flatten(ps[1..])
  {
    assert ps == [ps[0]] + ps[1..];
    assert Flatten([ps[0]]) == ps[0];
    FlattenConcat([ps[0]], ps[1..]);
  }

  ghost predicate AllFramed(ps: seq<Bytes>) {
    forall p | p in ps :: Framed(p)
  }

  /** The beginning, but not all, of some framed packet. */
  ghost predicate Partial(tail: Bytes) {
    exists whole :: Framed(whole) && tail < whole
  }

  // ----- Reading packets back

  /** The complete packets at the front of `data`, as both readers' `f.read` calls delimit them. */
  function Frames(data: Bytes): seq<Bytes> {
    if |data| < 6 || |data| < FrameLength(data) then []
    else [data[..FrameLength(data)]] + Frames(data[FrameLength(data)..])
  }

  /** Reading back what was written, whatever partial packet follows, gives the packets themselves. */
  lemma {:induction false} FramesOfFlatten(ps: seq<Bytes>, tail: Bytes)
    requires AllFramed(ps) && Partial(tail)
    ensures Frames(Flatten(ps) + tail) == ps
  {
    if ps == [] {
      assert Flatten(ps) + tail == tail;
    } else {
      FlattenFirst(ps);
      var data := Flatten(ps) + tail;
      assert ps[0] in ps && AllFramed(ps[1..]);
      assert data == ps[0] + (Flatten(ps[1..]) + tail);
      assert data[..|ps[0]|] == ps[0] && data[|ps[0]|..] == Flatten(ps[1..]) + tail;
      FramesOfFlatten(ps[1..], tail);
    }
  }

  /** A cut anywhere in a packet list leaves whole packets and a partial one. */
  lemma {:induction false} CutIsPrefix(ps: seq<Bytes>, k: nat) returns (j: nat, tail: Bytes)
    requires AllFramed(ps) && k <= |Flatten(ps)|
    ensures j <= |ps| && Partial(tail) && Flatten(ps)[..k] == Flatten(ps[..j]) + tail
  {
    if ps == [] {
      j, tail := 0, [];
      EmptyIsPartial();
    } else {
      var init, last := ps[..|ps| - 1], ps[|ps| - 1];
      if k <= |Flatten(init)| {
        j, tail := CutIsPrefix(init, k);
        assert init[..j] == ps[..j];
      } else if k < |Flatten(ps)| {
        j, tail := |init|, last[..k - |Flatten(init)|];
        FrontIsPartial(last, |tail|);
      } else {
        j, tail := |ps|, [];
        assert ps[..j] == ps;
        EmptyIsPartial();
      }
    }
  }

  lemma SomePacket() returns (p: Bytes)
    ensures Framed(p)
  {
    p := seq(7, i => 0);
    assert |p| == 7 && p[4] == 0 && p[5] == 0;
  }

  lemma FrontIsPartial(p: Bytes, k: nat)
    requires Framed(p) && k < |p|
    ensures Partial(p[..k])
  {
    assert p[..k] < p;
  }

  lemma EmptyIsPartial()
    ensures Partial([])
  {
    var p := SomePacket();
    FrontIsPartial(p, 0);
    assert p[..0] == [];
  }

  // ----- Headers

  /** The low 16 bits, least significant byte first. */
  function Little16(n: nat): Bytes {
    [n % 256, n / 256 % 256]
  }

  /** `strncpy` into the name field. */
  function NameField(name: Bytes): (f: Bytes)
    ensures |f| == NAME_SIZE
  {
    if |name| < NAME_SIZE then name + seq(NAME_SIZE - |name|, i => 0) else name[..NAME_SIZE]
  }

  /** `DS_FileHeader_t` as written: the close time is still zero. */
  function DsHeader(fileIndex: nat, nameType: nat, name: Bytes): (h: Bytes)
    ensures |h| == DS_HEADER_SIZE
  {
    seq(TIME_SIZE, i => 0) + Little16(fileIndex) + Little16(nameType) + NameField(name)
  }

  /** Writes `b` over `data` at `pos`; the range lies inside `data` or extends its end. */
  function Overlay(data: Bytes, pos: nat, b: Bytes): (r: Bytes)
    requires pos <= |data|
    ensures |r| == if pos + |b| <= |data| then |data| else pos + |b|
  {
    data[..pos] + b + if pos + |b| <= |data| then data[pos + |b|..] else []
  }

  datatype Header = Header(fileIndex: nat, nameType: nat, name: Bytes)

  /** What precedes the first zero byte. */
  function BeforeZero(b: Bytes): Bytes {
    if b == [] || b[0] == 0 then [] else [b[0]] + BeforeZero(b[1..])
  }

  /** The fields of the cFE header behind its content type. */
  datatype FsHeader = FsHeader(subType: nat, length: nat, spacecraft: nat, processor: nat, application: nat,
                               seconds: nat, subseconds: nat, description: Bytes)

  datatype File = TooShort | NotCfe
    | File(fs: FsHeader, closeSeconds: nat, closeSubsecs: nat, header: Header, data: Bytes)

  /** The low 16 bits, most significant byte first. */
  function Big16(n: nat): Bytes {
    [n / 256 % 256, n % 256]
  }

  /** 32 bits, most significant byte first. */
  function Big32(n: nat): Bytes {
    Big16(n / 0x1_0000) + Big16(n % 0x1_0000)
  }

  function Big32At(b: Bytes, at: nat): nat
    requires at + 4 <= |b|
  {
    0x1_0000 * Word(b[at], b[at + 1]) + Word(b[at + 2], b[at + 3])
  }

  /** 32 bits, least significant byte first. */
  function Little32(n: nat): Bytes {
    Little16(n % 0x1_0000) + Little16(n / 0x1_0000)
  }

  function Little32At(b: Bytes, at: nat): nat
    requires at + 4 <= |b|
  {
    0x1_0000 * Word(b[at + 3], b[at + 2]) + Word(b[at + 1], b[at])
  }

  /** `CFE_FS_Header_t` as cFE writes it, the description padded with zeros. */
  function FsBytes(h: FsHeader): (b: Bytes)
    requires |h.description| <= DESCRIPTION_SIZE
    ensures |b| == FS_HEADER_SIZE && b[..4] == MAGIC
  {
    MAGIC + Big32(h.subType) + Big32(h.length) + Big32(h.spacecraft) + Big32(h.processor) + Big32(h.application)
    + Big32(h.seconds) + Big32(h.subseconds) + h.description + seq(DESCRIPTION_SIZE - |h.description|, i => 0)
  }

  function ParseFs(b: Bytes): FsHeader
    requires |b| >= FS_HEADER_SIZE
  {
    FsHeader(Big32At(b, 4), Big32At(b, 8), Big32At(b, 12), Big32At(b, 16), Big32At(b, 20), Big32At(b, 24),
             Big32At(b, 28),
             BeforeZero(b[32..FS_HEADER_SIZE]))
  }

  /** `parse_fs_header` and `parse_ds_header`, and where the packets begin. */
  function ParseHeaders(file: Bytes): File {
    if |file| < FS_HEADER_SIZE then TooShort
    else if file[..4] != MAGIC then NotCfe
    else if |file| < HEADER_SIZE then TooShort
    else
      File(ParseFs(file), Little32At(file, 64), Little32At(file, 68),
           Header(Word(file[73], file[72]), Word(file[75], file[74]), BeforeZero(file[76..HEADER_SIZE])),
           file[HEADER_SIZE..])
  }

  lemma {:induction false} BeforeZeroOfPadded(name: Bytes, pad: Bytes)
    requires 0 !in name && forall b | b in pad :: b == 0
    ensures BeforeZero(name + pad) == name
  {
    if name == [] {
      assert name + pad == pad;
      assert pad != [] ==> pad[0] in pad;
    } else {
      assert name[0] in name;
      assert (name + pad)[1..] == name[1..] + pad;
      BeforeZeroOfPadded(name[1..], pad);
    }
  }

  /** The parsers accept a file if and only if it has both headers and begins with "cFE1"; what is behind them is
      packet data. */
  lemma HeadersAcceptedIff(file: Bytes)
    ensures var parsed := ParseHeaders(file);
            && (parsed.File? <==>
                  |file| >= 140 && file[0] == 0x63 && file[1] == 0x46 && file[2] == 0x45 && file[3] == 0x31)
            && (parsed.File? ==> file[..140] + parsed.data == file)
            && (parsed.TooShort? <==> |file| < 64 || (|file| < 140 && file[..4] == [0x63, 0x46, 0x45, 0x31]))
  {
    hide ParseFs, Little32At, BeforeZero, Word;
    if |file| >= FS_HEADER_SIZE {
      var m := file[..4];
      assert m[0] == file[0] && m[1] == file[1] && m[2] == file[2] && m[3] == file[3];
    }
  }

  /** A file as DS writes it: cFE header, DS header, with the close time possibly rewritten, then packets. */
  ghost predicate Layout(file: Bytes, fileIndex: nat, nameType: nat, name: Bytes, packets: Bytes) {
    && |file| == HEADER_SIZE + |packets|
    && file[..4] == MAGIC
    && file[72..HEADER_SIZE] == DsHeader(fileIndex, nameType, name)[TIME_SIZE..]
    && file[HEADER_SIZE..] == packets
  }

  /** The readers recover what the headers say, and the packet bytes. */
  lemma ParseOfLayout(file: Bytes, fileIndex: nat, nameType: nat, name: Bytes, packets: Bytes)
    requires Layout(file, fileIndex, nameType, name, packets)
    ensures var parsed := ParseHeaders(file);
            && parsed.File? && parsed.data == packets
            && (fileIndex < 0x1_0000 ==> parsed.header.fileIndex == fileIndex)
            && (nameType < 0x1_0000 ==> parsed.header.nameType == nameType)
            && (0 !in name ==> parsed.header.name == if |name| < NAME_SIZE then name else name[..NAME_SIZE])
  {
    hide ParseFs, Little32At;
    HeaderFields(file, fileIndex, nameType, name, packets);
    assert forall k | 0 <= k < 4 :: file[72 + k] == file[72..76][k];
    if 0 !in name && |name| < NAME_SIZE {
      BeforeZeroOfPadded(name, seq(NAME_SIZE - |name|, i => 0));
    } else if 0 !in name {
      BeforeZeroOfPadded(name[..NAME_SIZE], []);
      assert name[..NAME_SIZE] + [] == name[..NAME_SIZE];
    }
  }

  predicate FitsFields(h: FsHeader) {
    && h.subType < 0x1_0000_0000 && h.length < 0x1_0000_0000 && h.spacecraft < 0x1_0000_0000
    && h.processor < 0x1_0000_0000 && h.application < 0x1_0000_0000
    && h.seconds < 0x1_0000_0000 && h.subseconds < 0x1_0000_0000
    && 0 !in h.description && |h.description| < DESCRIPTION_SIZE
  }

  lemma HalfBack(n: nat)
    requires n < 0x1_0000
    ensures Word(n / 256 % 256, n % 256) == n
  {
  }

  lemma Big32Back(b: Bytes, at: nat, n: nat)
    requires n < 0x1_0000_0000 && at + 4 <= |b| && b[at..at + 4] == Big32(n)
    ensures Big32At(b, at) == n
  {
    HalfBack(n / 0x1_0000);
    HalfBack(n % 0x1_0000);
    var c := b[at..at + 4];
    assert c[0] == b[at] && c[1] == b[at + 1] && c[2] == b[at + 2] && c[3] == b[at + 3];
  }

  lemma Little32Back(b: Bytes, at: nat, n: nat)
    requires n < 0x1_0000_0000 && at + 4 <= |b| && b[at..at + 4] == Little32(n)
    ensures Little32At(b, at) == n
  {
    HalfBack(n / 0x1_0000);
    HalfBack(n % 0x1_0000);
    var c := b[at..at + 4];
    assert c[0] == b[at] && c[1] == b[at + 1] && c[2] == b[at + 2] && c[3] == b[at + 3];
  }

  lemma FsBack(file: Bytes, h: FsHeader)
    requires |file| >= FS_HEADER_SIZE && FitsFields(h) && file[..FS_HEADER_SIZE] == FsBytes(h)
    ensures ParseFs(file) == h
  {
    hide Big32, Big32At, BeforeZero;
    FieldsInPlace(h);
    var b := file[..FS_HEADER_SIZE];
    Big32Back(file, 4, h.subType) by { assert file[4..8] == b[4..8]; }
    Big32Back(file, 8, h.length) by { assert file[8..12] == b[8..12]; }
    Big32Back(file, 12, h.spacecraft) by { assert file[12..16] == b[12..16]; }
    Big32Back(file, 16, h.processor) by { assert file[16..20] == b[16..20]; }
    Big32Back(file, 20, h.application) by { assert file[20..24] == b[20..24]; }
    Big32Back(file, 24, h.seconds) by { assert file[24..28] == b[24..28]; }
    Big32Back(file, 28, h.subseconds) by { assert file[28..32] == b[28..32]; }
    assert file[32..64] == b[32..64];
    BeforeZeroOfPadded(h.description, seq(DESCRIPTION_SIZE - |h.description|, i => 0));
  }

  lemma FieldsInPlace(h: FsHeader)
    requires |h.description| <= DESCRIPTION_SIZE
    ensures var b := FsBytes(h);
            && b[4..8] == Big32(h.subType) && b[8..12] == Big32(h.length) && b[12..16] == Big32(h.spacecraft)
            && b[16..20] == Big32(h.processor) && b[20..24] == Big32(h.application)
            && b[24..28] == Big32(h.seconds) && b[28..32] == Big32(h.subseconds)
            && b[32..64] == h.description + seq(DESCRIPTION_SIZE - |h.description|, i => 0)
  {
  }

  /** The header parsers give back every field of the cFE header, and the close time. */
  lemma ParseOfFields(file: Bytes, h: FsHeader, seconds: nat, subsecs: nat)
    requires |file| >= HEADER_SIZE && FitsFields(h) && seconds < 0x1_0000_0000 && subsecs < 0x1_0000_0000
    requires file[..FS_HEADER_SIZE] == FsBytes(h)
    requires file[FS_HEADER_SIZE..FS_HEADER_SIZE + TIME_SIZE] == Little32(seconds) + Little32(subsecs)
    ensures var parsed := ParseHeaders(file);
            parsed.File? && parsed.fs == h && parsed.closeSeconds == seconds && parsed.closeSubsecs == subsecs
  {
    hide FsBytes, ParseFs, Little32At;
    FsBack(file, h);
    assert file[..4] == FsBytes(h)[..4];
    var time := file[FS_HEADER_SIZE..FS_HEADER_SIZE + TIME_SIZE];
    assert file[64..68] == time[..4] && file[68..72] == time[4..];
    Little32Back(file, 64, seconds);
    Little32Back(file, 68, subsecs);
  }

  lemma HeaderFields(file: Bytes, fileIndex: nat, nameType: nat, name: Bytes, packets: Bytes)
    requires Layout(file, fileIndex, nameType, name, packets)
    ensures file[72..76] == Little16(fileIndex) + Little16(nameType)
    ensures file[76..HEADER_SIZE] == NameField(name)
  {
    var h := DsHeader(fileIndex, nameType, name);
    assert h[8..12] == Little16(fileIndex) + Little16(nameType);
    assert h[12..] == NameField(name);
    assert file[72..76] == file[72..HEADER_SIZE][..4] == h[8..][..4];
    assert file[76..HEADER_SIZE] == file[72..HEADER_SIZE][4..] == h[8..][4..];
  }

  /** Rewriting the close time, even partly, leaves everything else as it was. */
  lemma OverlayKeepsLayout(file: Bytes, b: Bytes, fileIndex: nat, nameType: nat, name: Bytes, packets: Bytes)
    requires Layout(file, fileIndex, nameType, name, packets) && |b| <= TIME_SIZE
    ensures Layout(Overlay(file, FS_HEADER_SIZE, b), fileIndex, nameType, name, packets)
  {
    var file' := Overlay(file, FS_HEADER_SIZE, b);
    assert file'[..4] == file[..4];
    assert file'[72..HEADER_SIZE] == file[72..HEADER_SIZE];
    assert file'[HEADER_SIZE..] == file[HEADER_SIZE..];
  }
}
