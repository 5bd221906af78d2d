/** Writing audio sectors: the inverse of the header decoders, for any legal packet layout. */
module SectorEncoding {
  import opened Bytes
  import opened AudioPackets

  /** One packet of a sector, of any data type; type 2 is audio. `spare` is the unused bit of its entry. */
  datatype Slot = Slot(frameStart: bool, spare: bool, dataType: uint3, data: seq<byte>) {
    predicate Legal() { |data| < 2048 }

    predicate IsAudio() { dataType == 2 }

    function PacketInfo(): AudioPacketInfo
      requires Legal()
    {
      AudioPacketInfo(frameStart, dataType, |data|)
    }
  }

  /** A frame info, with the bits around the packet countdown of a DST sector. */
  datatype Entry = Entry(info: AudioFrameInfo, low: int, high: int) {
    /** Sectors without DST have no countdown. */
    predicate Legal(dst: bool) { 0 <= low < 4 && 0 <= high < 2 && (!dst ==> info.sectorCount == 0) }
  }

  function Bit(b: bool): nat { if b then 1 else 0 }

  function EncodeHeader(dst: bool, spare: bool, frameInfoCount: uint3, packetInfoCount: uint3): byte {
    Bit(dst) + Bit(spare) * 2 + frameInfoCount * 4 + packetInfoCount * 32
  }

  function EncodePacketInfo(p: AudioPacketInfo, spare: bool): seq<byte> {
    [Bit(p.frameStart) * 128 + Bit(spare) * 64 + p.dataType * 8 + p.packetLength / 256, p.packetLength % 256]
  }

  /** Four bytes in a DST sector, three in others. */
  function EncodeFrameInfo(dst: bool, e: Entry): (bytes: seq<byte>)
    requires e.Legal(dst)
    ensures |bytes| == Entries(dst, 1)
  {
    [e.info.minutes, e.info.seconds, e.info.frames]
    + if dst then [e.high * 128 + e.info.sectorCount * 4 + e.low] else []
  }

  /** The size of `n` frame infos. */
  function Entries(dst: bool, n: nat): nat { if dst then 4 * n else 3 * n }

  predicate LegalSlots(layout: seq<Slot>) {
    forall i :: 0 <= i < |layout| ==> layout[i].Legal()
  }

  predicate LegalEntries(dst: bool, entries: seq<Entry>) {
    forall i :: 0 <= i < |entries| ==> entries[i].Legal(dst)
  }

  function PacketTable(layout: seq<Slot>): (bytes: seq<byte>)
    requires LegalSlots(layout)
    ensures |bytes| == 2 * |layout|
  {
    if layout == [] then []
    else
      var last := layout[|layout| - 1];
      PacketTable(layout[..|layout| - 1]) + EncodePacketInfo(last.PacketInfo(), last.spare)
  }

  function FrameTable(dst: bool, entries: seq<Entry>): (bytes: seq<byte>)
    requires LegalEntries(dst, entries)
    ensures |bytes| == Entries(dst, |entries|)
  {
    if entries == [] then []
    else FrameTable(dst, entries[..|entries| - 1]) + EncodeFrameInfo(dst, entries[|entries| - 1])
  }

  function Payloads(layout: seq<Slot>): seq<byte> {
    if layout == [] then [] else Payloads(layout[..|layout| - 1]) + layout[|layout| - 1].data
  }

  /** How many audio packets claim to start a frame. */
  function Starts(layout: seq<Slot>): nat {
    if layout == [] then 0
    else
      var last := layout[|layout| - 1];
      Starts(layout[..|layout| - 1]) + Bit(last.IsAudio() && last.frameStart)
  }

  /**
   * The audio packets of a layout, as the framing layer should see them: start number `n` of the
   * sector has frame info number `n`, if there is one.
   */
  function LaidOut(layout: seq<Slot>, entries: seq<Entry>): seq<Packet> {
    if layout == [] then []
    else
      var last, init := layout[|layout| - 1], layout[..|layout| - 1];
      LaidOut(init, entries) +
        if !last.IsAudio() then []
        else if !last.frameStart then [Continue(last.data)]
        else if Starts(init) < |entries| then [Start(entries[Starts(init)].info, last.data)]
        else [Orphan(last.data)]
  }

  /** The bytes of the audio packets of a layout. */
  function AudioOf(layout: seq<Slot>): seq<byte> {
    if layout == [] then []
    else
      var last := layout[|layout| - 1];
      AudioOf(layout[..|layout| - 1]) + if last.IsAudio() then last.data else []
  }

  /** A sector, DST or not: its packets, its frame infos, and the bytes that fill it up. */
  datatype Layout = Layout(dst: bool, spare: bool, slots: seq<Slot>, entries: seq<Entry>, fill: seq<byte>) {
    predicate Legal() {
      && LegalSlots(slots) && LegalEntries(dst, entries)
      && |slots| <= 7 && |entries| <= 7
      && 1 + 2 * |slots| + Entries(dst, |entries|) + |Payloads(slots)| + |fill| == 2048
    }

    function Encode(): (sector: seq<byte>)
      requires Legal()
      ensures |sector| == 2048
    {
      [EncodeHeader(dst, spare, |entries|, |slots|)] + PacketTable(slots) + FrameTable(dst, entries)
      + Payloads(slots) + fill
    }

    function Packets(): seq<Packet> { LaidOut(slots, entries) }
  }

  // ---------------------------------------------------------------- decoding undoes encoding

  lemma {:induction false} PacketInfoRoundTrip(p: AudioPacketInfo, spare: bool)
    ensures var b := EncodePacketInfo(p, spare); PacketFromBytes(b[0], b[1]) == p
  {
    PacketBits(Bit(p.frameStart), Bit(spare), p.dataType, p.packetLength);
  }

  lemma {:induction false} PacketBits(start: nat, spare: nat, dataType: nat, length: nat)
    requires start < 2 && spare < 2 && dataType < 8 && length < 2048
    ensures var b := start * 128 + spare * 64 + dataType * 8 + length / 256;
            && b < 256 && b / 128 % 2 == start && b / 8 % 8 == dataType
            && b % 8 * 256 + length % 256 == length
  {
    var high := length / 256;
    var b := start * 128 + spare * 64 + dataType * 8 + high;
    assert length == 256 * high + length % 256 && high < 8;
    assert b == 8 * (start * 16 + spare * 8 + dataType) + high;
    assert b / 8 == start * 16 + spare * 8 + dataType;
    assert b / 128 == start;
  }

  lemma {:induction false} FrameInfoRoundTrip(dst: bool, e: Entry)
    requires e.Legal(dst)
    ensures FrameInfoFromBytes(EncodeFrameInfo(dst, e), dst) == e.info
  {
    assert (e.high * 128 + e.info.sectorCount * 4 + e.low) / 4 == e.high * 32 + e.info.sectorCount;
  }

  lemma {:induction false} PacketTableEntry(layout: seq<Slot>, i: nat)
    requires LegalSlots(layout) && i < |layout|
    ensures PacketFromBytes(PacketTable(layout)[2 * i], PacketTable(layout)[2 * i + 1]) == layout[i].PacketInfo()
    decreases |layout|
  {
    var init := layout[..|layout| - 1];
    if i < |init| {
      PacketTableEntry(init, i);
      assert PacketTable(layout)[..2 * |init|] == PacketTable(init);
    } else {
      PacketInfoRoundTrip(layout[i].PacketInfo(), layout[i].spare);
    }
  }

  lemma {:induction false} FrameTableEntry(dst: bool, entries: seq<Entry>, i: nat)
    requires LegalEntries(dst, entries) && i < |entries|
    ensures FrameInfoFromBytes(SliceAt(FrameTable(dst, entries), Entries(dst, i), Entries(dst, 1)), dst)
         == entries[i].info
    decreases |entries|
  {
    var init, last := entries[..|entries| - 1], entries[|entries| - 1];
    if i < |init| {
      FrameTableEntry(dst, init, i);
      SliceInFront(FrameTable(dst, init), EncodeFrameInfo(dst, last), Entries(dst, i), Entries(dst, i + 1));
    } else {
      FrameInfoRoundTrip(dst, last);
      TakeDrop(FrameTable(dst, init), EncodeFrameInfo(dst, last));
    }
  }

  lemma {:induction false} HeaderRoundTrip(dst: bool, spare: bool, frameInfoCount: uint3, packetInfoCount: uint3)
    ensures HeaderFromByte(EncodeHeader(dst, spare, frameInfoCount, packetInfoCount))
         == AudioFrameHeader(dst, frameInfoCount, packetInfoCount)
  {
    HeaderBits(Bit(dst), Bit(spare), frameInfoCount, packetInfoCount);
  }

  lemma {:induction false} HeaderBits(low: nat, spare: nat, f: nat, p: nat)
    requires low < 2 && spare < 2 && f < 8 && p < 8
    ensures var b := low + spare * 2 + f * 4 + p * 32;
            b % 2 == low && b / 4 % 8 == f && b / 32 % 8 == p
  {
    var b := low + spare * 2 + f * 4 + p * 32;
    assert b == 2 * (spare + 2 * f + 16 * p) + low;
    assert b / 4 == f + 8 * p;
    assert b / 32 == p;
  }

  predicate Describe(ps: seq<AudioPacketInfo>, slots: seq<Slot>)
    requires LegalSlots(slots)
  {
    |ps| == |slots| && forall i :: 0 <= i < |slots| ==> ps[i] == slots[i].PacketInfo()
  }

  function InfosOf(entries: seq<Entry>): (infos: seq<AudioFrameInfo>)
    ensures |infos| == |entries| && forall i :: 0 <= i < |entries| ==> infos[i] == entries[i].info
  {
    seq(|entries|, i requires 0 <= i < |entries| => entries[i].info)
  }

  /** The parts of an encoded sector, by position. */
  predicate Holds(sector: seq<byte>, l: Layout)
    requires l.Legal()
  {
    var tables := 1 + 2 * |l.slots|;
    && |sector| == 2048
    && HeaderFromByte(sector[0]) == AudioFrameHeader(l.dst, |l.entries|, |l.slots|)
    && HoldsAt(sector, 1, PacketTable(l.slots))
    && HoldsAt(sector, tables, FrameTable(l.dst, l.entries))
    && HoldsAt(sector, tables + Entries(l.dst, |l.entries|), Payloads(l.slots))
  }

  lemma {:induction false} FiveParts(a: seq<byte>, b: seq<byte>, c: seq<byte>, d: seq<byte>, e: seq<byte>)
    ensures var s := a + b + c + d + e;
            && |s| == |a| + |b| + |c| + |d| + |e| && (a != [] ==> s[0] == a[0])
            && HoldsAt(s, |a|, b) && HoldsAt(s, |a| + |b|, c) && HoldsAt(s, |a| + |b| + |c|, d)
  {
    TakeDrop(a, b);
    TakeDrop(a + b, c);
    TakeDrop(a + b + c, d);
    SliceInFront(a + b, c, |a|, |a| + |b|);
    SliceInFront(a + b + c, d, |a|, |a| + |b|);
    SliceInFront(a + b + c, d, |a| + |b|, |a| + |b| + |c|);
    SliceInFront(a + b + c + d, e, |a|, |a| + |b|);
    SliceInFront(a + b + c + d, e, |a| + |b|, |a| + |b| + |c|);
    SliceInFront(a + b + c + d, e, |a| + |b| + |c|, |a| + |b| + |c| + |d|);
  }

  lemma {:induction false} EncodeHolds(l: Layout)
    requires l.Legal()
    ensures Holds(l.Encode(), l)
  {
    var head := [EncodeHeader(l.dst, l.spare, |l.entries|, |l.slots|)];
    FiveParts(head, PacketTable(l.slots), FrameTable(l.dst, l.entries), Payloads(l.slots), l.fill);
    HeaderRoundTrip(l.dst, l.spare, |l.entries|, |l.slots|);
  }

  lemma {:induction false} PacketInfosRoundTrip(sector: seq<byte>, l: Layout)
    requires l.Legal() && Holds(sector, l)
    ensures Describe(PacketInfos(sector), l.slots)
  {
    var slots := l.slots;
    var ps, table := PacketInfos(sector), PacketTable(slots);
    forall i | 0 <= i < |slots| ensures ps[i] == slots[i].PacketInfo() {
      PacketTableEntry(slots, i);
      SubSlice(sector, 1, table, 2 * i, 2);
      var entry := table[2 * i..2 * i + 2];
      assert sector[1 + 2 * i] == entry[0] == table[2 * i];
      assert sector[2 + 2 * i] == entry[1] == table[2 * i + 1];
    }
  }

  lemma {:induction false} FrameInfoRead(sector: seq<byte>, table: seq<byte>, at: nat, k: nat, size: nat)
    requires HoldsAt(sector, at, table) && k + size <= |table|
    ensures at + k + size <= |sector| && SliceAt(sector, at + k, size) == SliceAt(table, k, size)
  {
    SubSlice(sector, at, table, k, size);
  }

  lemma {:induction false} FrameInfosRoundTrip(sector: seq<byte>, l: Layout)
    requires l.Legal() && Holds(sector, l)
    ensures FrameInfos(sector) == InfosOf(l.entries)
  {
    var table, at := FrameTable(l.dst, l.entries), 1 + 2 * |l.slots|;
    var infos := FrameInfos(sector);
    forall i | 0 <= i < |l.entries| ensures infos[i] == l.entries[i].info {
      FrameTableEntry(l.dst, l.entries, i);
      FrameInfoRead(sector, table, at, Entries(l.dst, i), Entries(l.dst, 1));
      assert infos[i] == FrameInfoFromBytes(SliceAt(sector, at + Entries(l.dst, i), Entries(l.dst, 1)), l.dst);
    }
    assert infos == InfosOf(l.entries);
  }

  /** The walk behind the packets of `done`. */
  function WalkedTo(start: nat, done: seq<Slot>, entries: seq<Entry>): Walk {
    var starts := Starts(done);
    Walk(start + |Payloads(done)|, if starts < |entries| then starts else |entries|, LaidOut(done, entries), true)
  }

  /** One more packet: it lies where the walk looks for it. */
  lemma {:induction false} WalkOnePacket(sector: seq<byte>, slots: seq<Slot>, entries: seq<Entry>, start: nat, k: nat)
    requires LegalSlots(slots) && 0 < k <= |slots| && start <= |sector|
    requires HoldsAt(sector, start, Payloads(slots[..k]))
    requires WalkedTo(start, slots[..k - 1], entries).offset <= |sector|
    ensures WalkTurn(WalkedTo(start, slots[..k - 1], entries), slots[k - 1].PacketInfo(), InfosOf(entries), sector)
         == WalkedTo(start, slots[..k], entries)
  {
    var done, before, data := slots[..k], slots[..k - 1], slots[k - 1].data;
    assert done[..k - 1] == before && done[k - 1] == slots[k - 1];
    assert Payloads(done) == Payloads(before) + data;
    SubSlice(sector, start, Payloads(done), |Payloads(before)|, |data|);
    var at := start + |Payloads(before)|;
    assert sector[at..at + |data|] == data;
  }

  lemma {:induction false} WalkRoundTrip(sector: seq<byte>, slots: seq<Slot>, ps: seq<AudioPacketInfo>,
                                         entries: seq<Entry>, start: nat, k: nat)
    requires LegalSlots(slots) && k <= |slots| && Describe(ps, slots)
    requires HoldsAt(sector, start, Payloads(slots[..k]))
    ensures WalkPackets(ps, InfosOf(entries), sector, start, k) == WalkedTo(start, slots[..k], entries)
  {
    if k > 0 {
      var done, before := slots[..k], slots[..k - 1];
      assert done[..k - 1] == before;
      SubSlice(sector, start, Payloads(done), 0, |Payloads(before)|);
      WalkRoundTrip(sector, slots, ps, entries, start, k - 1);
      WalkOnePacket(sector, slots, entries, start, k);
    }
  }

  lemma {:induction false} SectorWalk(sector: seq<byte>, ps: seq<AudioPacketInfo>, infos: seq<AudioFrameInfo>,
                                      start: nat)
    requires |sector| == 2048 && ps == PacketInfos(sector) && infos == FrameInfos(sector)
    requires start == HeaderSize(HeaderFromByte(sector[0]))
    ensures SectorPackets(sector) == WalkPackets(ps, infos, sector, start, |ps|)
  {
  }

  /** Decoding an encoded sector gives back its audio packets, whatever lies between and after them. */
  lemma {:induction false} SectorRoundTrip(l: Layout)
    requires l.Legal()
    ensures SectorPackets(l.Encode()).fits
    ensures SectorPackets(l.Encode()).packets == l.Packets()
  {
    var sector := l.Encode();
    var start := 1 + 2 * |l.slots| + Entries(l.dst, |l.entries|);
    EncodeHolds(l);
    PacketInfosRoundTrip(sector, l);
    FrameInfosRoundTrip(sector, l);
    assert l.slots[..|l.slots|] == l.slots;
    WalkRoundTrip(sector, l.slots, PacketInfos(sector), l.entries, start, |l.slots|);
    SectorWalk(sector, PacketInfos(sector), FrameInfos(sector), start);
  }

  // ---------------------------------------------------------------- the smallest sectors

  /** A sector with one audio packet and nothing else: the start of a frame, or a continuation. */
  function Alone(dst: bool, entry: Option<Entry>, data: seq<byte>): Layout
    requires |data| <= 2041
  {
    Layout(dst, false, [Slot(entry.Some?, false, 2, data)], if entry.Some? then [entry.value] else [],
           Zeros(2048 - 3 - Entries(dst, Bit(entry.Some?)) - |data|))
  }

  function AlonePacket(entry: Option<Entry>, data: seq<byte>): Packet {
    if entry.Some? then Start(entry.value.info, data) else Continue(data)
  }

  lemma {:induction false} AloneRoundTrip(dst: bool, entry: Option<Entry>, data: seq<byte>)
    requires |data| <= 2041 && (entry.Some? ==> entry.value.Legal(dst))
    ensures var l := Alone(dst, entry, data);
            && l.Legal() && l.Packets() == [AlonePacket(entry, data)]
            && SectorPackets(l.Encode()).fits && SectorPackets(l.Encode()).packets == [AlonePacket(entry, data)]
  {
    var l := Alone(dst, entry, data);
    var slot := l.slots[0];
    assert l.slots[..0] == [];
    assert Payloads(l.slots) == Payloads([]) + data;
    assert LaidOut(l.slots, l.entries) == LaidOut([], l.entries) + [AlonePacket(entry, data)];
    SectorRoundTrip(l);
  }

  /** What such a sector looks like without DST: a frame start of two bytes. */
  lemma {:induction false} SmallPlainSector()
    ensures Alone(false, Some(Entry(AudioFrameInfo(1, 2, 3, 0), 0, 0)), [0xAA, 0xBB]).Encode()
         == [0x24, 0x90, 2, 1, 2, 3, 0xAA, 0xBB] + Zeros(2040)
  {
    SmallParts(false, Entry(AudioFrameInfo(1, 2, 3, 0), 0, 0));
  }

  /** And with DST: a frame of one packet. */
  lemma {:induction false} SmallDstSector()
    ensures Alone(true, Some(Entry(AudioFrameInfo(1, 2, 3, 1), 0, 0)), [0xAA, 0xBB]).Encode()
         == [0x25, 0x90, 2, 1, 2, 3, 4, 0xAA, 0xBB] + Zeros(2039)
  {
    SmallParts(true, Entry(AudioFrameInfo(1, 2, 3, 1), 0, 0));
  }

  lemma {:induction false} SmallParts(dst: bool, e: Entry)
    requires e.Legal(dst)
    ensures var slots := [Slot(true, false, 2, [0xAA, 0xBB])];
            && PacketTable(slots) == [0x90, 2] && Payloads(slots) == [0xAA, 0xBB]
            && FrameTable(dst, [e]) == EncodeFrameInfo(dst, e)
  {
    var slots := [Slot(true, false, 2, [0xAA, 0xBB])];
    assert slots[..0] == [] && [e][..0] == [];
    assert PacketTable(slots) == PacketTable([]) + EncodePacketInfo(slots[0].PacketInfo(), false);
    assert Payloads(slots) == Payloads([]) + slots[0].data;
    assert FrameTable(dst, [e]) == FrameTable(dst, []) + EncodeFrameInfo(dst, e);
  }
}
