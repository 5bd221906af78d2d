/** The bytes of a DSF file, and a reader that follows its chunk sizes. */
module DsfFile {
  import opened Bytes
  import opened Endian
  import opened BlockInterleave

  const DSD_ID: seq<byte> := [0x44, 0x53, 0x44, 0x20]
  const FMT_ID: seq<byte> := [0x66, 0x6D, 0x74, 0x20]
  const DATA_ID: seq<byte> := [0x64, 0x61, 0x74, 0x61]

  function ChannelType(channels: nat, extraSetting: nat): nat {
    if channels == 2 && extraSetting == 0 then 2
    else if channels == 5 && extraSetting == 3 then 6
    else if channels == 6 && extraSetting == 4 then 7
    else
      match channels
      case 1 => 1
      case 2 => 2
      case 3 => 3
      case 4 => 4
      case 5 => 6
      case 6 => 7
      case _ => 2
  }

  /** What is fixed when a file is created. */
  datatype Format = Format(channels: nat, sampleRate: nat, extraSetting: nat)

  function DsdChunk(fileSize: nat, metadataAt: nat): (c: seq<byte>)
    ensures |c| == 28
  {
    (DSD_ID + LittleEndian(28, 8)) + (LittleEndian(fileSize, 8) + LittleEndian(metadataAt, 8))
  }

  function FmtHead(f: Format): (c: seq<byte>)
    ensures |c| == 36
  {
    (FMT_ID + LittleEndian(52, 8))
    + (LittleEndian(1, 4) + LittleEndian(0, 4) + LittleEndian(ChannelType(f.channels, f.extraSetting), 4))
    + (LittleEndian(f.channels, 4) + (LittleEndian(f.sampleRate, 4) + LittleEndian(1, 4)))
  }

  function FmtChunk(f: Format, sampleCount: nat): (c: seq<byte>)
    ensures |c| == 52
  {
    FmtHead(f) + (LittleEndian(sampleCount, 8) + (LittleEndian(4096, 4) + LittleEndian(0, 4)))
  }

  function DataHead(dataSize: nat): (c: seq<byte>)
    ensures |c| == 12
  {
    DATA_ID + LittleEndian(dataSize, 8)
  }

  /** The four fields that `finalize` patches. */
  datatype Fields = Fields(fileSize: nat, metadataAt: nat, sampleCount: nat, dataSize: nat)

  /** The 92 bytes in front of the audio. */
  function Header(f: Format, p: Fields): (h: seq<byte>)
    ensures |h| == 92
  {
    DsdChunk(p.fileSize, p.metadataAt) + (FmtChunk(f, p.sampleCount) + DataHead(p.dataSize))
  }

  // ---------------------------------------------------------------- patching in place

  /** Seek to `at` and overwrite. */
  function Overwrite(file: seq<byte>, at: nat, bytes: seq<byte>): (r: seq<byte>)
    requires at + |bytes| <= |file|
    ensures |r| == |file|
  {
    file[..at] + bytes + file[at + |bytes|..]
  }

  lemma {:induction false} OverwriteFront(a: seq<byte>, b: seq<byte>, at: nat, bytes: seq<byte>)
    requires at + |bytes| <= |a|
    ensures Overwrite(a + b, at, bytes) == Overwrite(a, at, bytes) + b
  {
  }

  lemma {:induction false} OverwriteBack(a: seq<byte>, b: seq<byte>, at: nat, bytes: seq<byte>)
    requires at + |bytes| <= |b|
    ensures Overwrite(a + b, |a| + at, bytes) == a + Overwrite(b, at, bytes)
  {
  }

  lemma {:induction false} OverwritePart(a: seq<byte>, before: seq<byte>, b: seq<byte>, after: seq<byte>)
    requires |before| == |after|
    ensures Overwrite(a + (before + b), |a|, after) == a + (after + b)
  {
    OverwriteBack(a, before + b, 0, after);
    TakeDrop(before, b);
    assert Overwrite(before + b, 0, after) == after + b;
  }

  lemma {:induction false} OverwriteLast(a: seq<byte>, b: seq<byte>, before: seq<byte>, after: seq<byte>)
    requires |before| == |after|
    ensures Overwrite(a + (b + before), |a| + |b|, after) == a + (b + after)
  {
    OverwriteBack(a, b + before, |b|, after);
    OverwriteBack(b, before, 0, after);
    assert Overwrite(before, 0, after) == after;
  }

  /** The writes at offsets 12, 20, 64 and 84 change those fields and nothing else. */
  function Patched(file: seq<byte>, p: Fields): seq<byte>
    requires |file| >= 92
  {
    var sized := Overwrite(file, 12, LittleEndian(p.fileSize, 8));
    var pointed := Overwrite(sized, 20, LittleEndian(p.metadataAt, 8));
    var counted := Overwrite(pointed, 64, LittleEndian(p.sampleCount, 8));
    Overwrite(counted, 84, LittleEndian(p.dataSize, 8))
  }

  lemma {:induction false} PatchFileSize(f: Format, p: Fields, q: Fields, body: seq<byte>)
    requires q == p.(fileSize := q.fileSize)
    ensures Overwrite(Header(f, p) + body, 12, LittleEndian(q.fileSize, 8)) == Header(f, q) + body
  {
    var bytes := LittleEndian(q.fileSize, 8);
    OverwriteFront(Header(f, p), body, 12, bytes);
    OverwriteFront(DsdChunk(p.fileSize, p.metadataAt), FmtChunk(f, p.sampleCount) + DataHead(p.dataSize), 12, bytes);
    OverwritePart(DSD_ID + LittleEndian(28, 8), LittleEndian(p.fileSize, 8), LittleEndian(p.metadataAt, 8), bytes);
  }

  lemma {:induction false} PatchMetadata(f: Format, p: Fields, q: Fields, body: seq<byte>)
    requires q == p.(metadataAt := q.metadataAt)
    ensures Overwrite(Header(f, p) + body, 20, LittleEndian(q.metadataAt, 8)) == Header(f, q) + body
  {
    var bytes := LittleEndian(q.metadataAt, 8);
    var size, before := LittleEndian(p.fileSize, 8), LittleEndian(p.metadataAt, 8);
    OverwriteFront(Header(f, p), body, 20, bytes);
    OverwriteFront(DsdChunk(p.fileSize, p.metadataAt), FmtChunk(f, p.sampleCount) + DataHead(p.dataSize), 20, bytes);
    OverwriteLast(DSD_ID + LittleEndian(28, 8), size, before, bytes);
  }

  lemma {:induction false} PatchSampleCount(f: Format, p: Fields, q: Fields, body: seq<byte>)
    requires q == p.(sampleCount := q.sampleCount)
    ensures Overwrite(Header(f, p) + body, 64, LittleEndian(q.sampleCount, 8)) == Header(f, q) + body
  {
    var bytes := LittleEndian(q.sampleCount, 8);
    OverwriteFront(Header(f, p), body, 64, bytes);
    OverwriteBack(DsdChunk(p.fileSize, p.metadataAt), FmtChunk(f, p.sampleCount) + DataHead(p.dataSize), 36, bytes);
    OverwriteFront(FmtChunk(f, p.sampleCount), DataHead(p.dataSize), 36, bytes);
    OverwritePart(FmtHead(f), LittleEndian(p.sampleCount, 8), LittleEndian(4096, 4) + LittleEndian(0, 4), bytes);
  }

  lemma {:induction false} PatchDataSize(f: Format, p: Fields, q: Fields, body: seq<byte>)
    requires q == p.(dataSize := q.dataSize)
    ensures Overwrite(Header(f, p) + body, 84, LittleEndian(q.dataSize, 8)) == Header(f, q) + body
  {
    var bytes, before := LittleEndian(q.dataSize, 8), LittleEndian(p.dataSize, 8);
    OverwriteFront(Header(f, p), body, 84, bytes);
    OverwriteBack(DsdChunk(p.fileSize, p.metadataAt), FmtChunk(f, p.sampleCount) + DataHead(p.dataSize), 56, bytes);
    OverwriteBack(FmtChunk(f, p.sampleCount), DataHead(p.dataSize), 4, bytes);
    PatchDataHead(p.dataSize, q.dataSize);
  }

  lemma {:induction false} PatchDataHead(before: nat, after: nat)
    ensures Overwrite(DataHead(before), 4, LittleEndian(after, 8)) == DataHead(after)
  {
    var old8, new8 := LittleEndian(before, 8), LittleEndian(after, 8);
    assert |DATA_ID| == 4;
    OverwriteBack(DATA_ID, old8, 0, new8);
    assert Overwrite(old8, 0, new8) == new8;
  }

  lemma {:induction false} PatchedHeader(f: Format, p: Fields, q: Fields, body: seq<byte>)
    ensures Patched(Header(f, p) + body, q) == Header(f, q) + body
  {
    var p1 := p.(fileSize := q.fileSize);
    var p2 := p1.(metadataAt := q.metadataAt);
    var p3 := p2.(sampleCount := q.sampleCount);
    PatchFileSize(f, p, p1, body);
    PatchMetadata(f, p1, p2, body);
    PatchSampleCount(f, p2, p3, body);
    PatchDataSize(f, p3, q, body);
  }

  /** All other bytes stay as they were written. */
  lemma {:induction false} PatchedElsewhere(file: seq<byte>, p: Fields, i: nat)
    requires 92 <= |file| && i < |file|
    requires !(12 <= i < 28) && !(64 <= i < 72) && !(84 <= i < 92)
    ensures |Patched(file, p)| == |file| && Patched(file, p)[i] == file[i]
  {
  }

  // ---------------------------------------------------------------- reading

  function Field(file: seq<byte>, at: nat, width: nat): nat
    requires at + width <= |file|
  {
    ReadLittleEndian(file[at..at + width])
  }

  /** The fields of a fmt chunk. */
  datatype FmtInfo = FmtInfo(version: nat, formatId: nat, channelType: nat, channels: nat, sampleRate: nat,
                             bitsPerSample: nat, sampleCount: nat, blockSize: nat, reserved: nat)

  /** What a reader learns from a file. */
  datatype Contents = Contents(fileSize: nat, metadataAt: nat, fmt: FmtInfo, audio: seq<byte>, metadata: seq<byte>)

  function ReadFmt(file: seq<byte>, at: nat): FmtInfo
    requires at + 52 <= |file|
  {
    FmtInfo(Field(file, at + 12, 4), Field(file, at + 16, 4), Field(file, at + 20, 4), Field(file, at + 24, 4),
            Field(file, at + 28, 4), Field(file, at + 32, 4), Field(file, at + 36, 8), Field(file, at + 44, 4),
            Field(file, at + 48, 4))
  }

  /** Goes from chunk to chunk by the sizes it finds, as the DSF File Format Specification 1.01 lays out. */
  function ReadDsf(file: seq<byte>): Option<Contents> {
    if |file| < 28 || file[..4] != Named("DSD ") then None
    else
      var fmtAt := Field(file, 4, 8);
      if |file| < fmtAt + 52 || file[fmtAt..fmtAt + 4] != Named("fmt ") then None
      else
        var dataAt := fmtAt + Field(file, fmtAt + 4, 8);
        if |file| < dataAt + 12 || file[dataAt..dataAt + 4] != Named("data") then None
        else
          var dataSize := Field(file, dataAt + 4, 8);
          var metadataAt := Field(file, 20, 8);
          if dataSize < 12 || |file| < dataAt + dataSize || |file| < metadataAt then None
          else
            Some(Contents(Field(file, 12, 8), metadataAt, ReadFmt(file, fmtAt), file[dataAt + 12..dataAt + dataSize],
                          if metadataAt == 0 then [] else file[metadataAt..]))
  }

  /** The speakers that the same specification assigns to a channel type, from mono to 5.1; types 4 and 5 have four. */
  function Speakers(channelType: nat): nat {
    match channelType
    case 1 => 1
    case 2 => 2
    case 3 => 3
    case 4 => 4
    case 5 => 4
    case 6 => 5
    case 7 => 6
    case _ => 0
  }

  /** The fmt chunk describes raw DSD, one bit a sample, in blocks of 4096 bytes, with speakers for its channels. */
  predicate Describes(fmt: FmtInfo, channels: nat, sampleRate: nat, sampleCount: nat) {
    && fmt.version == 1 && fmt.formatId == 0 && fmt.bitsPerSample == 1 && fmt.blockSize == 4096 && fmt.reserved == 0
    && fmt.channels == channels && fmt.sampleRate == sampleRate && fmt.sampleCount == sampleCount
    && (if 1 <= channels <= 6 then Speakers(fmt.channelType) == channels else fmt.channelType == 2)
    && (channels == 4 ==> fmt.channelType == 4)
  }

  lemma {:induction false} ChunkNames()
    ensures DSD_ID == Named("DSD ") && FMT_ID == Named("fmt ") && DATA_ID == Named("data")
  {
  }

  lemma {:induction false} FieldAt(file: seq<byte>, at: nat, width: nat, n: nat)
    requires HoldsAt(file, at, LittleEndian(n, width)) && n < Pow256(width)
    ensures Field(file, at, width) == n
  {
    LittleEndianRoundTrip(n, width);
  }

  lemma {:induction false} InFront(a: seq<byte>, b: seq<byte>, at: nat, part: seq<byte>)
    requires HoldsAt(a, at, part)
    ensures HoldsAt(a + b, at, part)
  {
    assert (a + b)[at..at + |part|] == a[at..at + |part|];
  }

  lemma {:induction false} Behind(a: seq<byte>, b: seq<byte>, at: nat, part: seq<byte>)
    requires HoldsAt(b, at, part)
    ensures HoldsAt(a + b, |a| + at, part)
  {
    assert (a + b)[|a| + at..|a| + at + |part|] == b[at..at + |part|];
  }

  lemma {:induction false} TwoAndTwo(a: seq<byte>, b: seq<byte>, c: seq<byte>, d: seq<byte>)
    ensures var s := (a + b) + (c + d);
            && HoldsAt(s, 0, a) && HoldsAt(s, |a|, b)
            && HoldsAt(s, |a| + |b|, c) && HoldsAt(s, |a| + |b| + |c|, d)
  {
    InFront(a + b, c + d, 0, a);
    InFront(a + b, c + d, |a|, b);
    Behind(a + b, c + d, 0, c);
    Behind(a + b, c + d, |c|, d);
  }

  lemma {:induction false} DsdChunkHolds(fileSize: nat, metadataAt: nat)
    ensures var c := DsdChunk(fileSize, metadataAt);
            && HoldsAt(c, 0, DSD_ID) && HoldsAt(c, 4, LittleEndian(28, 8))
            && HoldsAt(c, 12, LittleEndian(fileSize, 8)) && HoldsAt(c, 20, LittleEndian(metadataAt, 8))
  {
    TwoAndTwo(DSD_ID, LittleEndian(28, 8), LittleEndian(fileSize, 8), LittleEndian(metadataAt, 8));
  }

  lemma {:induction false} TwoGapTwo(a: seq<byte>, b: seq<byte>, gap: seq<byte>, c: seq<byte>, d: seq<byte>,
                                     e: seq<byte>)
    ensures var s := (a + b) + gap + (c + (d + e));
            && HoldsAt(s, 0, a) && HoldsAt(s, |a|, b)
            && HoldsAt(s, |a| + |b| + |gap|, c) && HoldsAt(s, |a| + |b| + |gap| + |c|, d)
  {
    var front, back := (a + b) + gap, c + (d + e);
    InFront(a + b, gap, 0, a);
    InFront(a + b, gap, |a|, b);
    InFront(front, back, 0, a);
    InFront(front, back, |a|, b);
    Behind(front, back, 0, c);
    InFront(d, e, 0, d);
    Behind(c, d + e, 0, d);
    Behind(front, back, |c|, d);
  }

  lemma {:induction false} ThreeMore(head: seq<byte>, a: seq<byte>, b: seq<byte>, c: seq<byte>)
    ensures var s := head + (a + (b + c));
            HoldsAt(s, |head|, a) && HoldsAt(s, |head| + |a|, b) && HoldsAt(s, |head| + |a| + |b|, c)
  {
    InFront(a, b + c, 0, a);
    InFront(b, c, 0, b);
    Behind(a, b + c, 0, b);
    Behind(a, b + c, |b|, c);
    Behind(head, a + (b + c), 0, a);
    Behind(head, a + (b + c), |a|, b);
    Behind(head, a + (b + c), |a| + |b|, c);
  }

  lemma {:induction false} FmtHeadHolds(f: Format)
    ensures var c := FmtHead(f);
            && HoldsAt(c, 0, FMT_ID) && HoldsAt(c, 4, LittleEndian(52, 8))
            && HoldsAt(c, 24, LittleEndian(f.channels, 4)) && HoldsAt(c, 28, LittleEndian(f.sampleRate, 4))
            && HoldsAt(c, 32, LittleEndian(1, 4))
  {
    var gap := LittleEndian(1, 4) + LittleEndian(0, 4) + LittleEndian(ChannelType(f.channels, f.extraSetting), 4);
    TwoGapTwo(FMT_ID, LittleEndian(52, 8), gap,
              LittleEndian(f.channels, 4), LittleEndian(f.sampleRate, 4), LittleEndian(1, 4));
    ThreeMore(FMT_ID + LittleEndian(52, 8) + gap,
              LittleEndian(f.channels, 4), LittleEndian(f.sampleRate, 4), LittleEndian(1, 4));
  }

  lemma {:induction false} GapParts(a: seq<byte>, x: seq<byte>, y: seq<byte>, z: seq<byte>, b: seq<byte>)
    ensures var s := a + (x + y + z) + b;
            HoldsAt(s, |a|, x) && HoldsAt(s, |a| + |x|, y) && HoldsAt(s, |a| + |x| + |y|, z)
  {
    InFront(x + y, z, 0, x);
    InFront(x + y, z, |x|, y);
    Behind(a, x + y + z, 0, x);
    Behind(a, x + y + z, |x|, y);
    Behind(a, x + y + z, |x| + |y|, z);
    InFront(a + (x + y + z), b, |a|, x);
    InFront(a + (x + y + z), b, |a| + |x|, y);
    InFront(a + (x + y + z), b, |a| + |x| + |y|, z);
  }

  lemma {:induction false} FmtGapHolds(f: Format)
    ensures var c := FmtHead(f);
            && HoldsAt(c, 12, LittleEndian(1, 4)) && HoldsAt(c, 16, LittleEndian(0, 4))
            && HoldsAt(c, 20, LittleEndian(ChannelType(f.channels, f.extraSetting), 4))
  {
    GapParts(FMT_ID + LittleEndian(52, 8), LittleEndian(1, 4), LittleEndian(0, 4),
             LittleEndian(ChannelType(f.channels, f.extraSetting), 4),
             LittleEndian(f.channels, 4) + (LittleEndian(f.sampleRate, 4) + LittleEndian(1, 4)));
  }

  /** The last three fields of the chunk. */
  lemma {:induction false} FmtTailHolds(f: Format, sampleCount: nat)
    ensures var c := FmtChunk(f, sampleCount);
            && HoldsAt(c, 36, LittleEndian(sampleCount, 8))
            && HoldsAt(c, 44, LittleEndian(4096, 4)) && HoldsAt(c, 48, LittleEndian(0, 4))
  {
    ThreeMore(FmtHead(f), LittleEndian(sampleCount, 8), LittleEndian(4096, 4), LittleEndian(0, 4));
  }

  lemma {:induction false} FmtHeadInChunk(f: Format, sampleCount: nat, at: nat, part: seq<byte>)
    requires HoldsAt(FmtHead(f), at, part)
    ensures HoldsAt(FmtChunk(f, sampleCount), at, part)
  {
    InFront(FmtHead(f), LittleEndian(sampleCount, 8) + (LittleEndian(4096, 4) + LittleEndian(0, 4)), at, part);
  }

  lemma {:induction false} DataHeadHolds(dataSize: nat)
    ensures HoldsAt(DataHead(dataSize), 0, DATA_ID) && HoldsAt(DataHead(dataSize), 4, LittleEndian(dataSize, 8))
  {
  }

  lemma {:induction false} FileHoldsDsd(f: Format, p: Fields, body: seq<byte>, at: nat, part: seq<byte>)
    requires HoldsAt(DsdChunk(p.fileSize, p.metadataAt), at, part)
    ensures HoldsAt(Header(f, p) + body, at, part)
  {
    InFront(DsdChunk(p.fileSize, p.metadataAt), FmtChunk(f, p.sampleCount) + DataHead(p.dataSize), at, part);
    InFront(Header(f, p), body, at, part);
  }

  lemma {:induction false} FileHoldsFmt(f: Format, p: Fields, body: seq<byte>, at: nat, part: seq<byte>)
    requires HoldsAt(FmtChunk(f, p.sampleCount), at, part)
    ensures HoldsAt(Header(f, p) + body, 28 + at, part)
  {
    InFront(FmtChunk(f, p.sampleCount), DataHead(p.dataSize), at, part);
    Behind(DsdChunk(p.fileSize, p.metadataAt), FmtChunk(f, p.sampleCount) + DataHead(p.dataSize), at, part);
    InFront(Header(f, p), body, 28 + at, part);
  }

  lemma {:induction false} FileHoldsData(f: Format, p: Fields, body: seq<byte>, at: nat, part: seq<byte>)
    requires HoldsAt(DataHead(p.dataSize), at, part)
    ensures HoldsAt(Header(f, p) + body, 80 + at, part)
  {
    Behind(FmtChunk(f, p.sampleCount), DataHead(p.dataSize), at, part);
    Behind(DsdChunk(p.fileSize, p.metadataAt), FmtChunk(f, p.sampleCount) + DataHead(p.dataSize), 52 + at, part);
    InFront(Header(f, p), body, 80 + at, part);
  }

  /** Every integer fits the width of its field. */
  predicate Fits(f: Format, p: Fields) {
    && f.channels < 0x1_0000_0000 && f.sampleRate < 0x1_0000_0000
    && p.fileSize < 0x1_0000_0000_0000_0000 && p.metadataAt < 0x1_0000_0000_0000_0000
    && p.sampleCount < 0x1_0000_0000_0000_0000 && p.dataSize < 0x1_0000_0000_0000_0000
  }

  lemma {:induction false} DsdFields(f: Format, p: Fields, body: seq<byte>)
    requires Fits(f, p)
    ensures var file := Header(f, p) + body;
            && HoldsAt(file, 0, DSD_ID) && Field(file, 4, 8) == 28
            && Field(file, 12, 8) == p.fileSize && Field(file, 20, 8) == p.metadataAt
  {
    var file := Header(f, p) + body;
    Pow256Values();
    DsdChunkHolds(p.fileSize, p.metadataAt);
    FileHoldsDsd(f, p, body, 0, DSD_ID);
    FileHoldsDsd(f, p, body, 4, LittleEndian(28, 8));
    FieldAt(file, 4, 8, 28);
    FileHoldsDsd(f, p, body, 12, LittleEndian(p.fileSize, 8));
    FieldAt(file, 12, 8, p.fileSize);
    FileHoldsDsd(f, p, body, 20, LittleEndian(p.metadataAt, 8));
    FieldAt(file, 20, 8, p.metadataAt);
  }

  lemma {:induction false} FmtField(f: Format, p: Fields, body: seq<byte>, at: nat, width: nat, n: nat)
    requires HoldsAt(FmtChunk(f, p.sampleCount), at, LittleEndian(n, width)) && n < Pow256(width)
    ensures var file := Header(f, p) + body;
            28 + at + width <= |file| && Field(file, 28 + at, width) == n
  {
    FileHoldsFmt(f, p, body, at, LittleEndian(n, width));
    FieldAt(Header(f, p) + body, 28 + at, width, n);
  }

  lemma {:induction false} FmtHeadField(f: Format, p: Fields, body: seq<byte>, at: nat, width: nat, n: nat)
    requires HoldsAt(FmtHead(f), at, LittleEndian(n, width)) && n < Pow256(width)
    ensures var file := Header(f, p) + body;
            28 + at + width <= |file| && Field(file, 28 + at, width) == n
  {
    FmtHeadInChunk(f, p.sampleCount, at, LittleEndian(n, width));
    FmtField(f, p, body, at, width, n);
  }

  lemma {:induction false} FmtHeadFields(f: Format, p: Fields, body: seq<byte>)
    requires Fits(f, p)
    ensures var file := Header(f, p) + body;
            && HoldsAt(file, 28, FMT_ID) && Field(file, 32, 8) == 52
            && Field(file, 52, 4) == f.channels && Field(file, 56, 4) == f.sampleRate && Field(file, 60, 4) == 1
  {
    Pow256Values();
    FmtHeadHolds(f);
    FmtHeadInChunk(f, p.sampleCount, 0, FMT_ID);
    FileHoldsFmt(f, p, body, 0, FMT_ID);
    FmtHeadField(f, p, body, 4, 8, 52);
    FmtHeadField(f, p, body, 24, 4, f.channels);
    FmtHeadField(f, p, body, 28, 4, f.sampleRate);
    FmtHeadField(f, p, body, 32, 4, 1);
  }

  lemma {:induction false} FmtGapFields(f: Format, p: Fields, body: seq<byte>)
    ensures var file := Header(f, p) + body;
            && Field(file, 40, 4) == 1 && Field(file, 44, 4) == 0
            && Field(file, 48, 4) == ChannelType(f.channels, f.extraSetting)
  {
    Pow256Values();
    FmtGapHolds(f);
    FmtHeadField(f, p, body, 12, 4, 1);
    FmtHeadField(f, p, body, 16, 4, 0);
    FmtHeadField(f, p, body, 20, 4, ChannelType(f.channels, f.extraSetting));
  }

  lemma {:induction false} FmtTailFields(f: Format, p: Fields, body: seq<byte>)
    requires Fits(f, p)
    ensures var file := Header(f, p) + body;
            && Field(file, 64, 8) == p.sampleCount && Field(file, 72, 4) == 4096 && Field(file, 76, 4) == 0
  {
    Pow256Values();
    FmtTailHolds(f, p.sampleCount);
    FmtField(f, p, body, 36, 8, p.sampleCount);
    FmtField(f, p, body, 44, 4, 4096);
    FmtField(f, p, body, 48, 4, 0);
  }

  /** The whole chunk as a reader finds it. */
  lemma {:induction false} FmtFields(f: Format, p: Fields, body: seq<byte>)
    requires Fits(f, p)
    ensures var file := Header(f, p) + body;
            && HoldsAt(file, 28, FMT_ID) && Field(file, 32, 8) == 52
            && Describes(ReadFmt(file, 28), f.channels, f.sampleRate, p.sampleCount)
  {
    FmtHeadFields(f, p, body);
    FmtGapFields(f, p, body);
    FmtTailFields(f, p, body);
  }

  lemma {:induction false} DataFields(f: Format, p: Fields, body: seq<byte>)
    requires Fits(f, p)
    ensures var file := Header(f, p) + body;
            HoldsAt(file, 80, DATA_ID) && Field(file, 84, 8) == p.dataSize
  {
    var file := Header(f, p) + body;
    Pow256Values();
    DataHeadHolds(p.dataSize);
    FileHoldsData(f, p, body, 0, DATA_ID);
    FileHoldsData(f, p, body, 4, LittleEndian(p.dataSize, 8));
    FieldAt(file, 84, 8, p.dataSize);
  }
}
