/** What the bytes of every finished DSF file mean. */
module DsfTheorems {
  import opened Bytes
  import opened BitOrder
  import opened BlockInterleave
  import opened DsfFile
  import opened DsfWriterClass

  // ---------------------------------------------------------------- sizes

  /** Padding rounds up to a whole group, and never adds a whole one. */
  lemma {:induction false} PaddedLength(stream: seq<byte>, channels: nat)
    requires channels > 0
    ensures Rest(Padded(stream, channels), channels) == []
    ensures |stream| <= |Padded(stream, channels)| < |stream| + 4096 * channels
    ensures |Audio(Padded(stream, channels), channels)| == |Padded(stream, channels)|
  {
    var rest := Rest(stream, channels);
    if rest != [] {
      AudioConcat(stream, Zeros(4096 * channels - |rest|), channels);
    }
    AudioLength(Padded(stream, channels), channels);
  }

  /** The audio of a finished file is a whole number of groups, of 4096 bytes per channel each. */
  lemma {:induction false} AudioIsWholeGroups(stream: seq<byte>, channels: nat, nopad: bool)
    requires channels > 0
    ensures var groups := Groups(if nopad then stream else Padded(stream, channels), channels);
            |FinalAudio(stream, channels, nopad)| == groups * (4096 * channels)
  {
    AudioLength(if nopad then stream else Padded(stream, channels), channels);
  }

  lemma {:induction false} QuotientBound(b: nat, c: nat)
    requires c > 0
    ensures b / c <= b
  {
    DivMod(b, c);
    NoFewer(c, 1, b / c);
  }

  lemma {:induction false} QuotientMonotonic(a: nat, b: nat, c: nat)
    requires c > 0 && a <= b
    ensures a / c <= b / c
  {
    DivMod(a, c);
    DivMod(b, c);
    var p, q := a / c, b / c;
    NoFewer(p, q + 1, c);
    assert (q + 1) * c == q * c + c;
  }

  /** `sample_count` never claims more samples than the file stores per channel. */
  lemma {:induction false} SampleCountIsStored(stream: seq<byte>, decoded: nat, channels: nat, nopad: bool,
                                               footer: seq<byte>)
    requires channels > 0 && decoded <= |stream|
    ensures FinalFields(stream, decoded, channels, nopad, footer).sampleCount
            <= |FinalAudio(stream, channels, nopad)| / channels * 8
  {
    var audio := FinalAudio(stream, channels, nopad);
    if FinalCarry(stream, channels, nopad) == None {
      PaddedLength(stream, channels);
      AudioLength(stream, channels);
      QuotientMonotonic(decoded, |audio|, channels);
    }
  }

  // ---------------------------------------------------------------- the reader's view

  lemma {:induction false} HeaderReads(f: Format, p: Fields, audio: seq<byte>, footer: seq<byte>)
    requires Fits(f, p) && p.dataSize == 12 + |audio|
    requires p.metadataAt == if footer == [] then 0 else 92 + |audio|
    ensures var r := ReadDsf(Header(f, p) + (audio + footer));
            && r.Some? && r.value == Contents(p.fileSize, p.metadataAt, r.value.fmt, audio, footer)
            && Describes(r.value.fmt, f.channels, f.sampleRate, p.sampleCount)
  {
    ChunkNames();
    DsdFields(f, p, audio + footer);
    FmtFields(f, p, audio + footer);
    DataFields(f, p, audio + footer);
    BodyParts(Header(f, p), audio, footer);
  }

  lemma {:induction false} FieldsFit(f: Format, stream: seq<byte>, decoded: nat, nopad: bool, footer: seq<byte>)
    requires f.channels > 0 && f.channels < 0x1_0000_0000 && f.sampleRate < 0x1_0000_0000 && decoded <= |stream|
    requires 8 * |FinalFile(f, stream, decoded, nopad, footer)| < 0x1_0000_0000_0000_0000
    ensures Fits(f, FinalFields(stream, decoded, f.channels, nopad, footer))
  {
    SampleCountIsStored(stream, decoded, f.channels, nopad, footer);
    QuotientBound(|FinalAudio(stream, f.channels, nopad)|, f.channels);
  }

  /**
   * A reader that follows the chunk sizes of a finished file finds its true length, the footer
   * behind the metadata pointer (or a null pointer and no footer), and exactly the audio.
   */
  lemma {:induction false} FinishedFileReads(f: Format, stream: seq<byte>, decoded: nat, nopad: bool, footer: seq<byte>)
    requires f.channels > 0 && f.channels < 0x1_0000_0000 && f.sampleRate < 0x1_0000_0000 && decoded <= |stream|
    requires 8 * |FinalFile(f, stream, decoded, nopad, footer)| < 0x1_0000_0000_0000_0000
    ensures var file := FinalFile(f, stream, decoded, nopad, footer);
            var audio := FinalAudio(stream, f.channels, nopad);
            var p := FinalFields(stream, decoded, f.channels, nopad, footer);
            var r := ReadDsf(file);
            && r.Some? && r.value == Contents(p.fileSize, p.metadataAt, r.value.fmt, audio, footer)
            && Describes(r.value.fmt, f.channels, f.sampleRate, p.sampleCount)
            && p.fileSize == |file| == 92 + |audio| + |footer|
            && p.metadataAt == (if footer == [] then 0 else 92 + |audio|)
  {
    FieldsFit(f, stream, decoded, nopad, footer);
    HeaderReads(f, FinalFields(stream, decoded, f.channels, nopad, footer), FinalAudio(stream, f.channels, nopad),
                footer);
  }

  lemma {:induction false} BodyParts(header: seq<byte>, audio: seq<byte>, footer: seq<byte>)
    ensures var file := header + (audio + footer);
            && file[|header|..|header| + |audio|] == audio
            && file[|header| + |audio|..] == footer
  {
    Assoc(header, audio, footer);
    TakeDrop(header + audio, footer);
    TakeDrop(header, audio);
  }

  // ---------------------------------------------------------------- samples

  /** Where every byte of the input ends up, for every group that is complete. */
  lemma {:induction false} OutputByte(data: seq<byte>, channels: nat, k: nat, ch: nat, j: nat)
    requires channels > 0 && ch < channels && j < 4096 && (k + 1) * (4096 * channels) <= |data|
    ensures 0 <= (k * channels + ch) * 4096 + j < |Audio(Reversed(data), channels)|
    ensures 0 <= (k * 4096 + j) * channels + ch < |data|
    ensures Audio(Reversed(data), channels)[(k * channels + ch) * 4096 + j]
         == ReverseBits(data[(k * 4096 + j) * channels + ch])
  {
    AudioAt(Reversed(data), channels, k, ch, j);
  }

  /** Splitting the input into several writes changes nothing. */
  lemma {:induction false} ChunkingIsIrrelevant(chunks: seq<seq<byte>>, stream: seq<byte>)
    ensures AfterWrites(stream, chunks) == stream + Reversed(Flatten(chunks))
    decreases |chunks|
  {
    if chunks == [] {
      assert stream + Reversed([]) == stream;
    } else {
      ChunkingIsIrrelevant(chunks[1..], stream + Reversed(chunks[0]));
      ReversedConcat(chunks[0], Flatten(chunks[1..]));
      Assoc(stream, Reversed(chunks[0]), Reversed(Flatten(chunks[1..])));
    }
  }

  /** The stream after one `write_samples` per chunk. */
  function AfterWrites(stream: seq<byte>, chunks: seq<seq<byte>>): seq<byte>
    decreases |chunks|
  {
    if chunks == [] then stream else AfterWrites(stream + Reversed(chunks[0]), chunks[1..])
  }

  /** A player that undoes interleaving and bit order hears the input, and silence up to the block end. */
  lemma {:induction false} PlayerRestores(data: seq<byte>, channels: nat)
    requires channels > 0
    ensures var played := Reversed(Deinterleave(FinalAudio(Reversed(data), channels, false), channels));
            |data| <= |played| < |data| + 4096 * channels && played == data + Zeros(|played| - |data|)
  {
    var stream := Reversed(data);
    var padded := Padded(stream, channels);
    PaddedLength(stream, channels);
    DeinterleaveAudio(padded, channels);
    assert Deinterleave(Audio(padded, channels), channels) + [] == Deinterleave(Audio(padded, channels), channels);
    var zeros := Zeros(|padded| - |stream|);
    assert padded == stream + zeros;
    ReversedConcat(stream, zeros);
    ReversedInvolution(data);
    assert Reversed(zeros) == zeros by {
      assert ReverseBits(0) == 0;
    }
  }

  // ---------------------------------------------------------------- the carry

  /**
   * The tails handed to the next track are equally long, as it demands, exactly when the
   * bytes so far are a whole number of rows.
   */
  lemma {:induction false} CarryTailsEqual(stream: seq<byte>, channels: nat)
    requires channels > 0 && FinalCarry(stream, channels, true).Some?
    ensures var tails := FinalCarry(stream, channels, true).value.channelTails;
            && |tails| == channels
            && (Equal(tails, |tails[0]|) <==> |stream| % channels == 0)
            && (|stream| % channels == 0 ==> |tails[0]| < 4096)
  {
    var rest := Rest(stream, channels);
    var tails := Columns(rest, channels);
    RestMod(stream, channels);
    var q, r := |rest| / channels, |rest| % channels;
    DivMod(|rest|, channels);
    forall ch | 0 <= ch < channels ensures |tails[ch]| == q + if ch < r then 1 else 0 {
      ColumnLength(rest, channels, ch);
    }
    NoFewer(q, 4096, channels);
    if r > 0 {
      assert |tails[0]| == q + 1 && |tails[channels - 1]| == q;
    }
  }

  /** Interleaving the tails again gives back the held-over bytes. */
  lemma {:induction false} CarryRestores(stream: seq<byte>, channels: nat)
    requires channels > 0 && FinalCarry(stream, channels, true).Some? && |stream| % channels == 0
    ensures var tails := FinalCarry(stream, channels, true).value.channelTails;
            && |tails| == channels && Equal(tails, |tails[0]|)
            && Weave(tails, |tails[0]|) == Rest(stream, channels)
  {
    CarryTailsEqual(stream, channels);
    RestMod(stream, channels);
    var rest := Rest(stream, channels);
    DivMod(|rest|, channels);
    ColumnLength(rest, channels, 0);
    WeaveOfColumns(rest, channels, |rest| / channels);
    assert rest[..|rest|] == rest;
  }

  /**
   * `sample_count` counts all audio bytes of the stream only if nothing was carried in, unless
   * the file itself ends with a carry; then it counts the stored ones.
   */
  lemma {:induction false} SampleCountExact(stream: seq<byte>, decoded: nat, channels: nat, rows: nat, nopad: bool,
                                            footer: seq<byte>)
    requires channels > 0 && |stream| == rows * channels + decoded
    ensures var count := FinalFields(stream, decoded, channels, nopad, footer).sampleCount;
            if FinalCarry(stream, channels, nopad).Some? then
              count == |FinalAudio(stream, channels, nopad)| / channels * 8
            else
              (count == |stream| / channels * 8 <==> rows == 0)
  {
    DivMod(decoded, channels);
    var q, r := decoded / channels, decoded % channels;
    assert |stream| == (rows + q) * channels + r;
    ModOfRow(rows + q, channels, r);
  }
}
