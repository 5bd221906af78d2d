/** The header of a 2048-byte audio sector and the packets it describes. */
module AudioPackets {
  import opened Bytes

  type uint3 = n: int | 0 <= n < 8
  type uint5 = n: int | 0 <= n < 32
  type uint11 = n: int | 0 <= n < 2048

  const SECTOR_SIZE: nat := 2048
  const DATA_TYPE_AUDIO: uint3 := 2
  const FRAMES_PER_SECOND: nat := 75
  const FRAMES_PER_MINUTE: nat := 60 * 75

  /** The four low bits of the area flags. */
  datatype FrameFormat =
    | Dst | Reserved | Dsd3In14 | Dsd3In16 | Dsd4 | Dsd5 | Dsd6 | Dsd7
    | Unknown(code: byte)
  {
    function SectorsPerFrame(): Option<nat> {
      match this
      case Dst | Dsd3In14 | Dsd4 | Dsd5 | Dsd6 | Dsd7 => Some(14)
      case Dsd3In16 => Some(16)
      case Reserved | Unknown(_) => None
    }
  }

  datatype AudioFrameHeader = AudioFrameHeader(dstEncoded: bool, frameInfoCount: uint3, packetInfoCount: uint3)

  function HeaderFromByte(b: byte): AudioFrameHeader {
    AudioFrameHeader(b % 2 != 0, b / 4 % 8, b / 32 % 8)
  }

  datatype AudioPacketInfo = AudioPacketInfo(frameStart: bool, dataType: uint3, packetLength: uint11)

  function PacketFromBytes(b0: byte, b1: byte): AudioPacketInfo {
    AudioPacketInfo(b0 / 128 % 2 != 0, b0 / 8 % 8, b0 % 8 * 256 + b1)
  }

  /** The disc frame that a time stands for: 75 frames to a second, 60 seconds to a minute. */
  function FrameNumber(minutes: byte, seconds: byte, frames: byte): nat { (minutes * 60 + seconds) * 75 + frames }

  datatype AudioFrameInfo = AudioFrameInfo(minutes: byte, seconds: byte, frames: byte, sectorCount: uint5)
  {
    function ToFrameCount(): nat {
      minutes * FRAMES_PER_MINUTE + seconds * FRAMES_PER_SECOND + frames
    }
  }

  /** What is counted is the disc frame that the info names. */
  lemma {:induction false} InfoCountIsNumber(i: AudioFrameInfo)
    ensures i.ToFrameCount() == FrameNumber(i.minutes, i.seconds, i.frames)
  {
  }

  function FrameInfoSize(dstEncoded: bool): nat { if dstEncoded then 4 else 3 }

  /** Bits 2 to 6 of the fourth byte hold the packet countdown; only DST sectors have it. */
  function FrameInfoFromBytes(bytes: seq<byte>, dstEncoded: bool): AudioFrameInfo
    requires |bytes| == FrameInfoSize(dstEncoded)
  {
    AudioFrameInfo(bytes[0], bytes[1], bytes[2], if dstEncoded then bytes[3] / 4 % 32 else 0)
  }

  /** Where frame info `i` starts, after the header byte and the packet table. */
  function FrameInfoOffset(h: AudioFrameHeader, i: uint3): (n: nat)
    ensures n <= 43
  {
    1 + 2 * h.packetInfoCount + if h.dstEncoded then 4 * i else 3 * i
  }

  function HeaderSize(h: AudioFrameHeader): nat { FrameInfoOffset(h, h.frameInfoCount) }

  function SliceAt(sector: seq<byte>, at: nat, length: nat): (r: seq<byte>)
    requires at + length <= |sector|
    ensures |r| == length
  {
    sector[at..at + length]
  }

  function PacketInfos(sector: seq<byte>): (ps: seq<AudioPacketInfo>)
    requires |sector| >= SECTOR_SIZE
    ensures |ps| == HeaderFromByte(sector[0]).packetInfoCount
  {
    seq(HeaderFromByte(sector[0]).packetInfoCount,
        i requires 0 <= i < HeaderFromByte(sector[0]).packetInfoCount =>
          PacketFromBytes(sector[1 + 2 * i], sector[2 + 2 * i]))
  }

  function FrameInfos(sector: seq<byte>): (fs: seq<AudioFrameInfo>)
    requires |sector| >= SECTOR_SIZE
    ensures |fs| == HeaderFromByte(sector[0]).frameInfoCount
  {
    var h := HeaderFromByte(sector[0]);
    seq(h.frameInfoCount,
        i requires 0 <= i < h.frameInfoCount =>
          FrameInfoFromBytes(SliceAt(sector, FrameInfoOffset(h, i), FrameInfoSize(h.dstEncoded)), h.dstEncoded))
  }

  /**
   * An audio packet as the framing layer sees it: one that opens a frame, one that claims
   * to but has no frame info left in the sector header, or a continuation.
   */
  datatype Packet =
    | Start(info: AudioFrameInfo, data: seq<byte>)
    | Orphan(data: seq<byte>)
    | Continue(data: seq<byte>)

  /** What an audio packet means, when `used` of the sector's frame infos are spent. */
  function ReadPacket(p: AudioPacketInfo, infos: seq<AudioFrameInfo>, used: nat, data: seq<byte>): (r: Packet)
    ensures r.data == data
  {
    if !p.frameStart then Continue(data)
    else if used < |infos| then Start(infos[used], data)
    else Orphan(data)
  }

  /**
   * Where the payload walk stands: the offset of the next payload, the frame infos spent,
   * the audio packets so far, and whether every payload so far lay inside the sector.
   */
  datatype Walk = Walk(offset: nat, used: nat, packets: seq<Packet>, fits: bool)

  function WalkTurn(w: Walk, p: AudioPacketInfo, infos: seq<AudioFrameInfo>, sector: seq<byte>): (r: Walk)
    requires w.offset <= |sector|
    ensures r.offset <= |sector|
    ensures |r.packets| <= |w.packets| + 1
  {
    var next := w.offset + p.packetLength;
    if !w.fits then w
    else if next > |sector| then w.(fits := false)
    else if p.dataType != DATA_TYPE_AUDIO then w.(offset := next)
    else Walk(next, if p.frameStart && w.used < |infos| then w.used + 1 else w.used,
              w.packets + [ReadPacket(p, infos, w.used, sector[w.offset..next])], true)
  }

  /** The walk over the first `k` packets, which stays where it is from the first overrun on. */
  function WalkPackets(ps: seq<AudioPacketInfo>, infos: seq<AudioFrameInfo>, sector: seq<byte>, start: nat,
                       k: nat): (w: Walk)
    requires start <= |sector| && k <= |ps|
    ensures w.offset <= |sector|
    ensures |w.packets| <= k
  {
    if k == 0 then Walk(start, 0, [], true)
    else WalkTurn(WalkPackets(ps, infos, sector, start, k - 1), ps[k - 1], infos, sector)
  }

  function SectorPackets(sector: seq<byte>): (w: Walk)
    requires |sector| >= SECTOR_SIZE
    ensures |w.packets| <= 7
  {
    var ps := PacketInfos(sector);
    WalkPackets(ps, FrameInfos(sector), sector, HeaderSize(HeaderFromByte(sector[0])), |ps|)
  }

  lemma {:induction false} WalkStaysStopped(ps: seq<AudioPacketInfo>, infos: seq<AudioFrameInfo>, sector: seq<byte>,
                                            start: nat, k: nat, n: nat)
    requires start <= |sector| && k <= n <= |ps|
    requires !WalkPackets(ps, infos, sector, start, k).fits
    ensures WalkPackets(ps, infos, sector, start, n) == WalkPackets(ps, infos, sector, start, k)
  {
    if k < n {
      WalkStaysStopped(ps, infos, sector, start, k, n - 1);
    }
  }

  function TotalLength(ps: seq<AudioPacketInfo>): nat {
    if ps == [] then 0 else TotalLength(ps[..|ps| - 1]) + ps[|ps| - 1].packetLength
  }

  lemma {:induction false} WalkFits(ps: seq<AudioPacketInfo>, infos: seq<AudioFrameInfo>, sector: seq<byte>,
                                    start: nat, k: nat)
    requires start <= |sector| && k <= |ps|
    ensures var w := WalkPackets(ps, infos, sector, start, k);
            && (w.fits <==> start + TotalLength(ps[..k]) <= |sector|)
            && (w.fits ==> w.offset == start + TotalLength(ps[..k]))
  {
    if k > 0 {
      WalkFits(ps, infos, sector, start, k - 1);
      assert ps[..k][..k - 1] == ps[..k - 1];
    }
  }

  /** A sector parses exactly when its header and all its payloads fit in it. */
  lemma {:induction false} SectorFits(sector: seq<byte>)
    requires |sector| >= SECTOR_SIZE
    ensures SectorPackets(sector).fits <==>
            HeaderSize(HeaderFromByte(sector[0])) + TotalLength(PacketInfos(sector)) <= |sector|
  {
    var ps := PacketInfos(sector);
    WalkFits(ps, FrameInfos(sector), sector, HeaderSize(HeaderFromByte(sector[0])), |ps|);
    assert ps[..|ps|] == ps;
  }
}
