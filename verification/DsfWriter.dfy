/** The DSF writer: channel buffers, the nopad carry, and late patching of the header. */
module DsfWriterClass {
  import opened Bytes
  import opened Endian
  import opened BitOrder
  import opened BlockInterleave
  import opened DsfFile

  /** Per-channel tails of an unfinished last block, already in on-disk form. */
  datatype NopadCarry = NopadCarry(channelTails: seq<seq<byte>>)

  // ---------------------------------------------------------------- what a finished file is

  /** Zero bytes up to the end of the current group, if one has been begun. */
  function Padded(stream: seq<byte>, channels: nat): seq<byte>
    requires channels > 0
  {
    var rest := Rest(stream, channels);
    if rest == [] then stream else stream + Zeros(4096 * channels - |rest|)
  }

  /** The audio of a finished file: a begun group is either held back or padded. */
  function FinalAudio(stream: seq<byte>, channels: nat, nopad: bool): seq<byte>
    requires channels > 0
  {
    Audio(if nopad then stream else Padded(stream, channels), channels)
  }

  function FinalCarry(stream: seq<byte>, channels: nat, nopad: bool): Option<NopadCarry>
    requires channels > 0
  {
    var rest := Rest(stream, channels);
    if nopad && rest != [] then Some(NopadCarry(Columns(rest, channels))) else None
  }

  /** Eight samples a byte, one byte of each channel at a time. */
  function SampleCount(bytes: nat, channels: nat): nat
    requires channels > 0
  {
    bytes / channels * 8
  }

  function FinalFields(stream: seq<byte>, decoded: nat, channels: nat, nopad: bool, footer: seq<byte>): Fields
    requires channels > 0
  {
    var audio := FinalAudio(stream, channels, nopad);
    Fields(92 + |audio| + |footer|,
           if footer == [] then 0 else 92 + |audio|,
           SampleCount(if FinalCarry(stream, channels, nopad).Some? then |audio| else decoded, channels),
           12 + |audio|)
  }

  /**
   * The file for a byte stream in on-disk form, of which `decoded` bytes came from
   * `write_samples` and the others from a carry.
   */
  function FinalFile(f: Format, stream: seq<byte>, decoded: nat, nopad: bool, footer: seq<byte>): seq<byte>
    requires f.channels > 0
  {
    Header(f, FinalFields(stream, decoded, f.channels, nopad, footer))
    + (FinalAudio(stream, f.channels, nopad) + footer)
  }

  // ---------------------------------------------------------------- one byte at a time

  lemma {:induction false} GroupsAndRows(g: nat, q: nat, channels: nat, r: nat)
    requires r < channels
    ensures (g * (4096 * channels) + (q * channels + r)) % channels == r
  {
    assert g * (4096 * channels) == (4096 * g) * channels;
    assert (4096 * g) * channels + q * channels == (4096 * g + q) * channels;
    ModOfRow(4096 * g + q, channels, r);
  }

  lemma {:induction false} RestMod(s: seq<byte>, channels: nat)
    requires channels > 0
    ensures |Rest(s, channels)| % channels == |s| % channels
  {
    AudioLength(s, channels);
    var n := |Rest(s, channels)|;
    DivMod(n, channels);
    GroupsAndRows(Groups(s, channels), n / channels, channels, n % channels);
    assert |s| == |Audio(s, channels)| + n;
  }

  /** Adding a byte to the stream adds it to what is left over, or completes a group. */
  lemma {:induction false} AddByte(s: seq<byte>, b: byte, channels: nat)
    requires channels > 0
    ensures var rest := Rest(s, channels) + [b];
            && |rest| <= 4096 * channels
            && (if |rest| < 4096 * channels then
                  Audio(s + [b], channels) == Audio(s, channels) && Rest(s + [b], channels) == rest
                else
                  Audio(s + [b], channels) == Audio(s, channels) + Group(rest, channels, channels) &&
                  Rest(s + [b], channels) == [])
  {
    var rest := Rest(s, channels) + [b];
    AudioConcat(s, [b], channels);
    if |rest| == 4096 * channels {
      assert rest[..4096 * channels] == rest && rest[4096 * channels..] == [];
      assert Group(rest, channels, channels) + [] == Group(rest, channels, channels);
    } else {
      assert Audio(s, channels) + [] == Audio(s, channels);
    }
  }

  /** Round robin: the byte goes to the channel after the one that got the last byte. */
  lemma {:induction false} PushByte(buffers: seq<seq<byte>>, s: seq<byte>, b: byte, channels: nat)
    requires channels > 0 && buffers == Columns(Rest(s, channels), channels)
    ensures var idx := |s| % channels;
            buffers[idx := buffers[idx] + [b]] == Columns(Rest(s, channels) + [b], channels)
  {
    var idx := |s| % channels;
    var rest := Rest(s, channels) + [b];
    RestMod(s, channels);
    assert rest[..|rest| - 1] == Rest(s, channels);
    var pushed := buffers[idx := buffers[idx] + [b]];
    forall ch | 0 <= ch < channels ensures pushed[ch] == Column(rest, channels, ch) {
      assert Column(Rest(s, channels), channels, ch) + [] == Column(Rest(s, channels), channels, ch);
    }
  }

  /** All channels have a full block exactly when the group is complete. */
  lemma {:induction false} AllFull(rest: seq<byte>, channels: nat)
    requires channels > 0 && |rest| <= 4096 * channels
    ensures (forall ch :: 0 <= ch < channels ==> |Column(rest, channels, ch)| >= 4096) <==> |rest| == 4096 * channels
    ensures |rest| == 4096 * channels ==> forall ch :: 0 <= ch < channels ==> |Column(rest, channels, ch)| == 4096
    ensures forall ch :: 0 <= ch < channels ==> |Column(rest, channels, ch)| <= 4096
  {
    var q, r := |rest| / channels, |rest| % channels;
    assert |rest| == q * channels + r;
    forall ch | 0 <= ch < channels
      ensures |Column(rest, channels, ch)| == q + if ch < r then 1 else 0
    {
      ColumnLength(rest, channels, ch);
    }
    if |rest| == 4096 * channels {
      DivModUnique(4096, 0, q, r, channels);
    } else {
      NoFewer(q, 4096, channels);
      assert |Column(rest, channels, channels - 1)| == q;
    }
  }

  lemma {:induction false} BuffersFull(buffers: seq<seq<byte>>, rest: seq<byte>, channels: nat)
    requires channels > 0 && |rest| <= 4096 * channels && buffers == Columns(rest, channels)
    ensures (forall ch :: 0 <= ch < channels ==> |buffers[ch]| >= 4096) <==> |rest| == 4096 * channels
  {
    AllFull(rest, channels);
    assert forall ch :: 0 <= ch < channels ==> buffers[ch] == Column(rest, channels, ch);
  }

  lemma {:induction false} NoFewer(q: nat, n: nat, channels: nat)
    ensures q >= n ==> q * channels >= n * channels
  {
    if q >= n {
      assert q * channels == (q - n) * channels + n * channels;
    }
  }

  // ---------------------------------------------------------------- padding

  lemma {:induction false} ColumnOfZeros(s: seq<byte>, n: nat, channels: nat, ch: nat)
    requires channels > 0
    ensures var column := Column(s, channels, ch);
            var padded := Column(s + Zeros(n), channels, ch);
            |column| <= |padded| && padded == column + Zeros(|padded| - |column|)
  {
    if n == 0 {
      assert s + Zeros(0) == s;
    } else {
      ColumnOfZeros(s, n - 1, channels, ch);
      var all := s + Zeros(n);
      assert all[..|all| - 1] == s + Zeros(n - 1) && all[|all| - 1] == 0;
    }
  }

  /** Padding every channel to 4096 bytes is padding the interleaved stream. */
  lemma {:induction false} PaddedColumn(rest: seq<byte>, channels: nat, ch: nat)
    requires channels > 0 && ch < channels && |rest| <= 4096 * channels
    ensures var column := Column(rest, channels, ch);
            |column| <= 4096 &&
            Column(rest + Zeros(4096 * channels - |rest|), channels, ch) == column + Zeros(4096 - |column|)
  {
    var full := rest + Zeros(4096 * channels - |rest|);
    ColumnOfZeros(rest, 4096 * channels - |rest|, channels, ch);
    AllFull(full, channels);
  }

  lemma {:induction false} PaddedAudio(stream: seq<byte>, channels: nat)
    requires channels > 0 && Rest(stream, channels) != []
    ensures var rest := Rest(stream, channels);
            var full := rest + Zeros(4096 * channels - |rest|);
            Audio(Padded(stream, channels), channels) == Audio(stream, channels) + Group(full, channels, channels)
  {
    var rest := Rest(stream, channels);
    var zeros := Zeros(4096 * channels - |rest|);
    var full := rest + zeros;
    AudioConcat(stream, zeros, channels);
    assert full[..4096 * channels] == full && full[4096 * channels..] == [];
    assert Group(full, channels, channels) + [] == Group(full, channels, channels);
  }

  /** Something is buffered exactly when some channel has a byte, and channel 0 is the first to get one. */
  lemma {:induction false} SomeBuffered(rest: seq<byte>, channels: nat)
    requires channels > 0
    ensures rest != [] <==> exists ch :: 0 <= ch < channels && Column(rest, channels, ch) != []
  {
    if rest != [] {
      ColumnLength(rest, channels, 0);
      var q, r := |rest| / channels, |rest| % channels;
      assert |rest| == q * channels + r;
      assert Column(rest, channels, 0) != [];
    }
  }

  lemma {:induction false} BuffersSomeFilled(buffers: seq<seq<byte>>, rest: seq<byte>, channels: nat)
    requires channels > 0 && buffers == Columns(rest, channels)
    ensures rest != [] <==> exists ch :: 0 <= ch < channels && buffers[ch] != []
  {
    SomeBuffered(rest, channels);
    assert forall ch :: 0 <= ch < channels ==> buffers[ch] == Column(rest, channels, ch);
  }

  /** Appending the footer and patching gives the finished file. */
  lemma {:induction false} FinishedFile(f: Format, initial: Fields, stream: seq<byte>, decoded: nat, nopad: bool,
                                        footer: seq<byte>)
    requires f.channels > 0
    ensures var fields := FinalFields(stream, decoded, f.channels, nopad, footer);
            Patched(Header(f, initial) + FinalAudio(stream, f.channels, nopad) + footer, fields)
            == FinalFile(f, stream, decoded, nopad, footer)
  {
    var audio := FinalAudio(stream, f.channels, nopad);
    Assoc(Header(f, initial), audio, footer);
    PatchedHeader(f, initial, FinalFields(stream, decoded, f.channels, nopad, footer), audio + footer);
  }

  /** What the fields of a writer are, for the bytes it has received. */
  ghost predicate Consistent(f: Format, initial: Fields, file: seq<byte>, written: nat, buffers: seq<seq<byte>>,
                             stream: seq<byte>)
    requires f.channels > 0
  {
    && file == Header(f, initial) + Audio(stream, f.channels)
    && written == |Audio(stream, f.channels)|
    && buffers == Columns(Rest(stream, f.channels), f.channels)
  }

  /** One more byte is buffered, or completes a group. */
  lemma {:induction false} ByteStep(f: Format, initial: Fields, file: seq<byte>, written: nat, buffers: seq<seq<byte>>,
                 stream: seq<byte>, b: byte)
    returns (rest: seq<byte>, pushed: seq<seq<byte>>)
    requires f.channels > 0 && Consistent(f, initial, file, written, buffers, stream)
    ensures pushed == buffers[|stream| % f.channels := buffers[|stream| % f.channels] + [b]]
    ensures |rest| <= 4096 * f.channels && pushed == Columns(rest, f.channels)
    ensures (forall ch :: 0 <= ch < f.channels ==> |pushed[ch]| >= 4096) <==> |rest| == 4096 * f.channels
    ensures |rest| < 4096 * f.channels ==> Consistent(f, initial, file, written, pushed, stream + [b])
    ensures |rest| == 4096 * f.channels ==>
              Consistent(f, initial, file + Group(rest, f.channels, f.channels), written + |rest|,
                         Columns([], f.channels), stream + [b])
  {
    rest := Rest(stream, f.channels) + [b];
    pushed := buffers[|stream| % f.channels := buffers[|stream| % f.channels] + [b]];
    AddByte(stream, b, f.channels);
    PushByte(buffers, stream, b, f.channels);
    BuffersFull(pushed, rest, f.channels);
    if |rest| == 4096 * f.channels {
      GroupBlock(rest, f.channels, f.channels, 0);
      Assoc(Header(f, initial), Audio(stream, f.channels), Group(rest, f.channels, f.channels));
    }
  }

  /** Padding completes the last group. */
  lemma {:induction false} PadStep(f: Format, initial: Fields, file: seq<byte>, written: nat, buffers: seq<seq<byte>>,
                                   stream: seq<byte>,
                full: seq<byte>, padded: seq<byte>)
    requires f.channels > 0 && Rest(stream, f.channels) != [] && |full| == 4096 * f.channels
    requires Consistent(f, initial, file, written, buffers, stream)
    requires full == Rest(stream, f.channels) + Zeros(4096 * f.channels - |Rest(stream, f.channels)|)
    requires padded == Audio(Padded(stream, f.channels), f.channels)
    ensures file + Group(full, f.channels, f.channels) == Header(f, initial) + padded
    ensures written + |full| == |padded|
  {
    PaddedParts(stream, f.channels, full, padded);
    Glue(Header(f, initial), Audio(stream, f.channels), Group(full, f.channels, f.channels), padded, file, written,
         full);
  }

  lemma {:induction false} PaddedParts(stream: seq<byte>, channels: nat, full: seq<byte>, padded: seq<byte>)
    requires channels > 0 && Rest(stream, channels) != [] && |full| == 4096 * channels
    requires full == Rest(stream, channels) + Zeros(4096 * channels - |Rest(stream, channels)|)
    requires padded == Audio(Padded(stream, channels), channels)
    ensures padded == Audio(stream, channels) + Group(full, channels, channels)
    ensures |Group(full, channels, channels)| == |full|
  {
    PaddedAudio(stream, channels);
    GroupBlock(full, channels, channels, 0);
  }

  lemma {:induction false} Glue(header: seq<byte>, audio: seq<byte>, group: seq<byte>, padded: seq<byte>,
                                file: seq<byte>, written: nat,
             full: seq<byte>)
    requires file == header + audio && padded == audio + group && written == |audio| && |group| == |full|
    ensures file + group == header + padded && written + |full| == |padded|
  {
    Assoc(header, audio, group);
  }

  lemma {:induction false} ReversedSnoc(before: seq<byte>, data: seq<byte>, i: nat)
    requires i < |data|
    ensures before + Reversed(data[..i]) + [ReverseBits(data[i])] == before + Reversed(data[..i + 1])
  {
    assert data[..i + 1] == data[..i] + [data[i]];
    ReversedConcat(data[..i], [data[i]]);
    Assoc(before, Reversed(data[..i]), [ReverseBits(data[i])]);
  }

  // ---------------------------------------------------------------- the object

  class DsfWriter {
    const format: Format
    var file: seq<byte>
    var dataChunkOffset: nat
    var bytesWritten: nat
    var decodedBytesTotal: nat
    var channelBuffers: seq<seq<byte>>
    var channelBufferPos: nat
    var id3Footer: Option<seq<byte>>
    var nopad: bool

    /** Every byte received so far, in on-disk form: the carry, then what was written. */
    ghost var stream: seq<byte>
    ghost var initial: Fields

    ghost predicate Valid()
      reads this
    {
      && format.channels > 0
      && |channelBuffers| == format.channels
      && dataChunkOffset == 80
      && channelBufferPos == |stream|
      && Consistent(format, initial, file, bytesWritten, channelBuffers, stream)
    }

    constructor (f: Format, estimatedSamples: nat)
      requires f.channels > 0
      ensures Valid() && format == f && stream == [] && decodedBytesTotal == 0
      ensures id3Footer == None && !nopad
    {
      format := f;
      file := Header(f, Fields(0, 0, estimatedSamples, 0));
      dataChunkOffset := 80;
      bytesWritten, decodedBytesTotal, channelBufferPos := 0, 0, 0;
      channelBuffers := seq(f.channels, _ => []);
      id3Footer, nopad := None, false;
      stream, initial := [], Fields(0, 0, estimatedSamples, 0);
      new;
      assert Audio([], f.channels) == [] && Rest([], f.channels) == [];
      assert file + [] == file;
      assert channelBuffers == Columns([], f.channels);
    }

    method SetId3Footer(footer: seq<byte>)
      modifies this`id3Footer
      ensures id3Footer == Some(footer)
    {
      id3Footer := Some(footer);
    }

    method SetNopad(on: bool)
      modifies this`nopad
      ensures nopad == on
    {
      nopad := on;
    }

    /**
     * Only called on a new writer. The tails must be shorter than a block and equally long,
     * which the source asserts in debug builds.
     */
    method PreLoadCarry(carry: NopadCarry)
      requires Valid() && stream == []
      requires |carry.channelTails| == format.channels
      requires Equal(carry.channelTails, |carry.channelTails[0]|) && |carry.channelTails[0]| < 4096
      modifies this`channelBuffers, this`channelBufferPos, this`stream
      ensures Valid()
      ensures stream == Weave(carry.channelTails, |carry.channelTails[0]|)
    {
      var perChannel := |carry.channelTails[0]|;
      assert forall ch :: 0 <= ch < format.channels ==> channelBuffers[ch] == [] by {
        assert Rest([], format.channels) == [];
      }
      for ch := 0 to format.channels
        invariant |channelBuffers| == format.channels
        invariant forall i :: 0 <= i < format.channels ==>
                    channelBuffers[i] == if i < ch then carry.channelTails[i] else []
      {
        channelBuffers := channelBuffers[ch := channelBuffers[ch] + carry.channelTails[ch]];
      }
      assert channelBuffers == carry.channelTails;
      channelBufferPos := perChannel * format.channels;
      stream := Weave(carry.channelTails, perChannel);
      CarryIsRest(carry.channelTails, perChannel);
      assert Audio([], format.channels) == [];
      assert Consistent(format, initial, file, bytesWritten, channelBuffers, stream);
    }

    /** Moves one full block of every channel to the file. */
    method WriteBlocks(ghost rest: seq<byte>)
      requires format.channels > 0 && |rest| == 4096 * format.channels
      requires channelBuffers == Columns(rest, format.channels)
      modifies this`file, this`bytesWritten, this`channelBuffers
      ensures file == old(file) + Group(rest, format.channels, format.channels)
      ensures bytesWritten == old(bytesWritten) + |rest|
      ensures channelBuffers == Columns([], format.channels)
    {
      AllFull(rest, format.channels);
      for channel := 0 to format.channels
        invariant |channelBuffers| == format.channels
        invariant file == old(file) + Group(rest, format.channels, channel)
        invariant bytesWritten == old(bytesWritten) + 4096 * channel
        invariant forall ch :: 0 <= ch < format.channels ==>
                    channelBuffers[ch] == if ch < channel then [] else Column(rest, format.channels, ch)
      {
        var block := channelBuffers[channel][..4096];
        assert block == Column(rest, format.channels, channel);
        Assoc(old(file), Group(rest, format.channels, channel), block);
        channelBuffers := channelBuffers[channel := channelBuffers[channel][4096..]];
        file := file + block;
        bytesWritten := bytesWritten + 4096;
      }
    }

    /** One turn of the loop over the samples. */
    method WriteByte(b: byte)
      requires Valid()
      modifies this`file, this`bytesWritten, this`channelBuffers, this`channelBufferPos, this`stream
      ensures Valid() && stream == old(stream) + [ReverseBits(b)]
    {
      var channelIdx := channelBufferPos % format.channels;
      var reversed := ReverseBits(b);
      ghost var rest, pushed := ByteStep(format, initial, file, bytesWritten, channelBuffers, stream, reversed);
      channelBuffers := channelBuffers[channelIdx := channelBuffers[channelIdx] + [reversed]];
      channelBufferPos := channelBufferPos + 1;
      stream := stream + [reversed];
      assert channelBuffers == pushed;
      if forall ch :: 0 <= ch < format.channels ==> |channelBuffers[ch]| >= 4096 {
        WriteBlocks(rest);
      }
    }

    /** Byte-interleaved MSB-first audio in; complete blocks go to the file, the rest is buffered. */
    method WriteSamples(data: seq<byte>)
      requires Valid()
      modifies this`file, this`bytesWritten, this`decodedBytesTotal
      modifies this`channelBuffers, this`channelBufferPos, this`stream
      ensures Valid() && stream == old(stream) + Reversed(data)
      ensures decodedBytesTotal == old(decodedBytesTotal) + |data|
    {
      decodedBytesTotal := decodedBytesTotal + |data|;
      assert Reversed([]) == [] && stream + [] == stream;
      for i := 0 to |data|
        invariant Valid() && stream == old(stream) + Reversed(data[..i])
        invariant decodedBytesTotal == old(decodedBytesTotal) + |data|
      {
        WriteByte(data[i]);
        ReversedSnoc(old(stream), data, i);
      }
      assert data[..|data|] == data;
    }

    /** Seek and overwrite. */
    method PatchAt(at: nat, bytes: seq<byte>)
      requires at + |bytes| <= |file|
      modifies this`file
      ensures file == Overwrite(old(file), at, bytes)
    {
      file := file[..at] + bytes + file[at + |bytes|..];
    }

    method PatchHeader(fields: Fields)
      requires |file| >= 92 && dataChunkOffset == 80
      modifies this`file
      ensures file == Patched(old(file), fields)
    {
      PatchAt(12, LittleEndian(fields.fileSize, 8));
      PatchAt(20, LittleEndian(fields.metadataAt, 8));
      PatchAt(64, LittleEndian(fields.sampleCount, 8));
      PatchAt(dataChunkOffset + 4, LittleEndian(fields.dataSize, 8));
    }

    method PadBuffers()
      requires format.channels > 0 && channelBuffers == Columns(Rest(stream, format.channels), format.channels)
      modifies this`channelBuffers
      ensures var rest := Rest(stream, format.channels);
              channelBuffers == Columns(rest + Zeros(4096 * format.channels - |rest|), format.channels)
    {
      ghost var rest := Rest(stream, format.channels);
      ghost var full := rest + Zeros(4096 * format.channels - |rest|);
      for ch := 0 to format.channels
        invariant |channelBuffers| == format.channels
        invariant forall i :: 0 <= i < ch ==> channelBuffers[i] == Column(full, format.channels, i)
        invariant forall i :: ch <= i < format.channels ==> channelBuffers[i] == Column(rest, format.channels, i)
      {
        PaddedColumn(rest, format.channels, ch);
        if |channelBuffers[ch]| < 4096 {
          channelBuffers := channelBuffers[ch := channelBuffers[ch] + Zeros(4096 - |channelBuffers[ch]|)];
        } else {
          assert channelBuffers[ch] + Zeros(0) == channelBuffers[ch];
        }
      }
    }

    /** Zero-pads every channel to a full block and writes the group. */
    method PadAndFlush()
      requires Valid() && Rest(stream, format.channels) != []
      modifies this`file, this`bytesWritten, this`channelBuffers
      ensures file == Header(format, initial) + Audio(Padded(stream, format.channels), format.channels)
      ensures bytesWritten == |Audio(Padded(stream, format.channels), format.channels)|
    {
      ghost var rest := Rest(stream, format.channels);
      ghost var full := rest + Zeros(4096 * format.channels - |rest|);
      PadStep(format, initial, file, bytesWritten, channelBuffers, stream, full,
              Audio(Padded(stream, format.channels), format.channels));
      PadBuffers();
      WriteBlocks(full);
    }

    /** Ends the audio, appends the footer, and patches the header. The writer is used up. */
    method Finalize() returns (carry: Option<NopadCarry>)
      requires Valid()
      modifies this
      ensures carry == FinalCarry(old(stream), format.channels, old(nopad))
      ensures file == FinalFile(format, old(stream), old(decodedBytesTotal), old(nopad),
                                if old(id3Footer).Some? then old(id3Footer).value else [])
    {
      var footer := if id3Footer.Some? then id3Footer.value else [];
      ghost var expected := FinalFields(stream, decodedBytesTotal, format.channels, nopad, footer);
      ghost var whole := FinalFile(format, stream, decodedBytesTotal, nopad, footer);
      FinishedFile(format, initial, stream, decodedBytesTotal, nopad, footer);
      carry := HoldBackOrPad();
      var audioEndPos := |file|;
      file := file + footer;
      var sampleCount := (if carry.Some? then bytesWritten else decodedBytesTotal) / format.channels * 8;
      var metadataAt := if |footer| > 0 then audioEndPos else 0;
      var fields := Fields(audioEndPos + |footer|, metadataAt, sampleCount, 12 + bytesWritten);
      assert fields == expected;
      PatchHeader(fields);
      assert file == whole;
    }

    /** The unfinished group is handed over in nopad mode, and padded and written otherwise. */
    method HoldBackOrPad() returns (carry: Option<NopadCarry>)
      requires Valid()
      modifies this`file, this`bytesWritten, this`channelBuffers
      ensures carry == FinalCarry(stream, format.channels, nopad)
      ensures file == Header(format, initial) + FinalAudio(stream, format.channels, nopad)
      ensures bytesWritten == |FinalAudio(stream, format.channels, nopad)|
    {
      var hasPartial := exists ch :: 0 <= ch < format.channels && channelBuffers[ch] != [];
      BuffersSomeFilled(channelBuffers, Rest(stream, format.channels), format.channels);
      carry := None;
      if nopad && hasPartial {
        carry := Some(NopadCarry(channelBuffers));
        channelBuffers := seq(format.channels, _ => []);
      } else if hasPartial {
        PadAndFlush();
      }
    }
  }

  lemma {:induction false} WeaveIsShort(perChannel: nat, channels: nat)
    requires perChannel < 4096 && channels > 0
    ensures perChannel * channels < 4096 * channels
  {
    assert 4096 * channels == perChannel * channels + (4096 - perChannel) * channels;
    Multiples(4096 - perChannel, channels);
  }

  /** Equal tails are the channel buffers of their interleaving. */
  lemma {:induction false} CarryIsRest(tails: seq<seq<byte>>, perChannel: nat)
    requires |tails| > 0 && Equal(tails, perChannel) && perChannel < 4096
    ensures var s := Weave(tails, perChannel);
            && Rest(s, |tails|) == s && Audio(s, |tails|) == []
            && Columns(s, |tails|) == tails
  {
    WeaveIsShort(perChannel, |tails|);
    var s := Weave(tails, perChannel);
    forall ch | 0 <= ch < |tails| ensures Columns(s, |tails|)[ch] == tails[ch] {
      ColumnOfWeave(tails, perChannel, ch);
    }
  }
}
