/** The bytes of an ID3v2.3 tag, and a reader that walks it by its sizes. */
module Id3Tag {
  import opened Bytes
  import opened Endian

  /** A frame: a four-byte identifier and its payload. */
  datatype Frame = Frame(id: seq<byte>, payload: seq<byte>)

  /** Latin-1; other characters become question marks. */
  function Latin1(c: char): byte { if c as int <= 0xFF then c as int else 63 }

  function Iso8859Bytes(s: string): (bytes: seq<byte>)
    ensures |bytes| == |s|
  {
    seq(|s|, i requires 0 <= i < |s| => Latin1(s[i]))
  }

  function TextPayload(s: string): seq<byte> { [0] + Iso8859Bytes(s) + [0] }

  function TxxxPayload(description: string, value: string): seq<byte> {
    [0] + Iso8859Bytes(description) + [0] + Iso8859Bytes(value) + [0]
  }

  /** Four bytes of seven bits each. */
  function SyncSafe(n: nat): (bytes: seq<byte>)
    ensures |bytes| == 4 && forall i :: 0 <= i < 4 ==> bytes[i] < 128
  {
    [n / 0x200000 % 128, n / 0x4000 % 128, n / 128 % 128, n % 128]
  }

  function ReadSyncSafe(bytes: seq<byte>): nat
    requires |bytes| == 4
  {
    (bytes[0] as int) * 0x200000 + ((bytes[1] as int) * 0x4000 + ((bytes[2] as int) * 128 + (bytes[3] as int)))
  }

  /** The size survives exactly when it is below 2^28, and modulo 2^28 otherwise. */
  lemma {:induction false} SyncSafeRoundTrip(n: nat)
    ensures ReadSyncSafe(SyncSafe(n)) == n % 0x10000000
    ensures ReadSyncSafe(SyncSafe(n)) == n <==> n < 0x10000000
  {
    var a := n / 128;
    var b := a / 128;
    var c := b / 128;
    SevenBits(n);
    assert n == 128 * (128 * (128 * c + b % 128) + a % 128) + n % 128;
    assert n == 0x10000000 * (c / 128) + (0x200000 * (c % 128) + (0x4000 * (b % 128) + (128 * (a % 128) + n % 128)));
  }

  lemma {:induction false} SevenBits(n: nat)
    ensures n / 0x4000 == n / 128 / 128 && n / 0x200000 == n / 128 / 128 / 128
  {
  }

  // ---------------------------------------------------------------- writing

  function FrameBytes(f: Frame): seq<byte> {
    f.id + BigEndian(|f.payload|, 4) + [0, 0] + f.payload
  }

  function Body(frames: seq<Frame>): seq<byte> {
    if frames == [] then [] else Body(frames[..|frames| - 1]) + FrameBytes(frames[|frames| - 1])
  }

  const HEADER: seq<byte> := [0x49, 0x44, 0x33, 3, 0, 0]

  function Tag(frames: seq<Frame>): seq<byte> {
    HEADER + SyncSafe(|Body(frames)|) + Body(frames)
  }

  // ---------------------------------------------------------------- reading

  /** One frame at the front: its size says where the next one starts; frames with flags are not read. */
  function ReadFrame(buf: seq<byte>): (r: Option<Frame>)
    ensures r.Some? ==> |r.value.id| == 4 && 10 + |r.value.payload| <= |buf|
  {
    if |buf| < 10 then None
    else
      var size := ReadBigEndian(buf[4..8]);
      if 10 + size > |buf| || buf[8..10] != [0, 0] then None else Some(Frame(buf[..4], buf[10..10 + size]))
  }

  function ReadFrames(buf: seq<byte>): Option<seq<Frame>>
    decreases |buf|
  {
    if buf == [] then Some([])
    else
      var f := ReadFrame(buf);
      if f == None then None
      else
        var rest := ReadFrames(buf[10 + |f.value.payload|..]);
        if rest == None then None else Some([f.value] + rest.value)
  }

  /** A tag is all there is: a header of version 2.3.0 without flags, and as many bytes as it announces. */
  function ReadTag(bytes: seq<byte>): Option<seq<Frame>> {
    if |bytes| < 10 || bytes[..6] != Named("ID3") + [3, 0, 0] || |bytes| != 10 + ReadSyncSafe(bytes[6..10]) then None
    else ReadFrames(bytes[10..])
  }

  predicate Writable(frames: seq<Frame>) {
    forall i :: 0 <= i < |frames| ==> |frames[i].id| == 4 && |frames[i].payload| < 0x1_0000_0000
  }

  lemma {:induction false} ReadOneFrame(f: Frame, more: seq<byte>)
    requires |f.id| == 4 && |f.payload| < 0x1_0000_0000
    ensures ReadFrame(FrameBytes(f) + more) == Some(f)
    ensures |FrameBytes(f)| == 10 + |f.payload|
  {
    var buf := FrameBytes(f) + more;
    var size := BigEndian(|f.payload|, 4);
    Pow256Values();
    BigEndianRoundTrip(|f.payload|, 4);
    assert buf[..4] == f.id;
    assert buf[4..8] == size;
    assert buf[8..10] == [0, 0];
    assert buf[10..10 + |f.payload|] == f.payload;
  }

  /** Frames in walking order. */
  function BodyFrom(frames: seq<Frame>): seq<byte> {
    if frames == [] then [] else FrameBytes(frames[0]) + BodyFrom(frames[1..])
  }

  lemma {:induction false} BodyFromSnoc(frames: seq<Frame>, last: Frame)
    ensures BodyFrom(frames + [last]) == BodyFrom(frames) + FrameBytes(last)
    decreases |frames|
  {
    if frames == [] {
      assert BodyFrom([last]) == FrameBytes(last) + BodyFrom([]);
      assert [] + [last] == [last];
      assert [] + FrameBytes(last) == FrameBytes(last) + [];
    } else {
      assert (frames + [last])[1..] == frames[1..] + [last];
      BodyFromSnoc(frames[1..], last);
      Assoc(FrameBytes(frames[0]), BodyFrom(frames[1..]), FrameBytes(last));
    }
  }

  lemma {:induction false} BodyIsBodyFrom(frames: seq<Frame>)
    ensures Body(frames) == BodyFrom(frames)
    decreases |frames|
  {
    if frames != [] {
      var init, last := frames[..|frames| - 1], frames[|frames| - 1];
      BodyIsBodyFrom(init);
      SplitLast(frames);
      BodyFromSnoc(init, last);
    }
  }

  lemma {:induction false} ReadBody(frames: seq<Frame>)
    requires Writable(frames)
    ensures ReadFrames(BodyFrom(frames)) == Some(frames)
    decreases |frames|
  {
    if frames != [] {
      var f, more := frames[0], BodyFrom(frames[1..]);
      ReadOneFrame(f, more);
      ReadBody(frames[1..]);
      TakeDrop(FrameBytes(f), more);
      assert [f] + frames[1..] == frames;
    }
  }

  lemma {:induction false} PayloadsFit(frames: seq<Frame>)
    requires forall i :: 0 <= i < |frames| ==> |frames[i].id| == 4
    ensures forall i :: 0 <= i < |frames| ==> |frames[i].payload| <= |Body(frames)|
    decreases |frames|
  {
    if frames != [] {
      PayloadsFit(frames[..|frames| - 1]);
    }
  }

  /**
   * Walking the frames by their sizes ends exactly at the tag's end and gives back every frame,
   * if and only if the body is below 2^28 bytes.
   */
  lemma {:induction false} TagRoundTrip(frames: seq<Frame>)
    requires forall i :: 0 <= i < |frames| ==> |frames[i].id| == 4
    ensures ReadTag(Tag(frames)) == Some(frames) <==> |Body(frames)| < 0x10000000
  {
    var bytes, size, body := Tag(frames), SyncSafe(|Body(frames)|), Body(frames);
    SyncSafeRoundTrip(|body|);
    TakeDrop(HEADER + size, body);
    assert Named("ID3") + [3, 0, 0] == HEADER;
    assert bytes[..6] == HEADER && bytes[6..10] == size;
    if |body| < 0x10000000 {
      PayloadsFit(frames);
      BodyIsBodyFrom(frames);
      ReadBody(frames);
    }
  }

  // ---------------------------------------------------------------- text

  /** The bytes between the encoding byte, which says Latin-1, and the first zero: a text, or a TXXX description. */
  function LeadingText(payload: seq<byte>): seq<byte> {
    if payload == [] || payload[0] != 0 then [] else payload[1..NextZero(payload, 1)]
  }

  lemma {:induction false} LeadingTextOf(text: seq<byte>, more: seq<byte>)
    requires 0 !in text
    ensures LeadingText([0] + text + [0] + more) == text
  {
    var payload := [0] + text + [0] + more;
    assert forall i :: 1 <= i <= |text| ==> payload[i] == text[i - 1];
    NextZeroIs(payload, 1, 1 + |text|);
  }

  function FromLatin1(bytes: seq<byte>): string {
    seq(|bytes|, i requires 0 <= i < |bytes| => bytes[i] as char)
  }

  predicate PlainLatin1(s: string) {
    forall i :: 0 <= i < |s| ==> 0 < s[i] as int <= 0xFF
  }

  /** A text frame gives its text back exactly when it is Latin-1 without NUL. */
  lemma {:induction false} TextRoundTrip(s: string)
    ensures FromLatin1(LeadingText(TextPayload(s))) == s <==> PlainLatin1(s)
  {
    var bytes, payload := Iso8859Bytes(s), TextPayload(s);
    if PlainLatin1(s) {
      assert 0 !in bytes;
      assert payload == [0] + bytes + [0] + [];
      LeadingTextOf(bytes, []);
      assert FromLatin1(bytes) == s;
    } else {
      var k :| 0 <= k < |s| && !(0 < s[k] as int <= 0xFF);
      var lead := LeadingText(payload);
      assert payload[1 + k] == bytes[k];
      if k < |lead| {
        assert FromLatin1(lead)[k] == lead[k] as char;
      }
    }
  }
}
