/**
 * Byte-interleaved audio (ch0 ch1 .. ch0 ch1 ..) to block-interleaved audio, in which every
 * channel in turn has 4096 consecutive bytes. Generic in the bytes: bit order is separate.
 */
module BlockInterleave {
  import opened Bytes

  // ---------------------------------------------------------------- one channel

  /** The bytes at positions congruent to `ch`, modulo the number of channels. */
  function Column(s: seq<byte>, channels: nat, ch: nat): seq<byte>
    requires channels > 0
  {
    if s == [] then []
    else
      Column(s[..|s| - 1], channels, ch) + if (|s| - 1) % channels == ch then [s[|s| - 1]] else []
  }

  lemma {:induction false} Multiples(k: int, c: nat)
    ensures k >= 1 ==> k * c >= c
  {
    if k >= 1 {
      assert k * c == (k - 1) * c + c;
    }
  }

  lemma {:induction false} DivModUnique(q: nat, r: nat, d: nat, m: nat, c: nat)
    requires q * c + r == d * c + m && r < c && m < c
    ensures q == d && r == m
  {
    Multiples(d - q, c);
    Multiples(q - d, c);
    assert (d - q) * c == d * c - q * c;
    assert (q - d) * c == q * c - d * c;
  }

  lemma {:induction false} DivMod(n: nat, c: nat)
    requires c > 0
    ensures n == (n / c) * c + n % c && n % c < c
  {
  }

  lemma {:induction false} ModOfRow(q: nat, c: nat, r: nat)
    requires r < c
    ensures (q * c + r) % c == r
    ensures (q * c + r) / c == q
  {
    var x := q * c + r;
    assert x == (x / c) * c + x % c;
    DivModUnique(q, r, x / c, x % c, c);
  }

  /** A whole number of rows followed by part of one: a channel gets its byte of the partial row, if reached. */
  lemma {:induction false} ColumnPartialRow(rows: seq<byte>, q: nat, part: seq<byte>, channels: nat, ch: nat)
    requires channels > 0 && ch < channels && |rows| == q * channels && |part| <= channels
    ensures Column(rows + part, channels, ch)
         == Column(rows, channels, ch) + if ch < |part| then [part[ch]] else []
    decreases |part|
  {
    if part == [] {
      assert rows + part == rows;
      assert Column(rows, channels, ch) + [] == Column(rows, channels, ch);
    } else {
      var m := |part| - 1;
      var all := rows + part;
      assert all[..|all| - 1] == rows + part[..m] && all[|all| - 1] == part[m];
      ColumnPartialRow(rows, q, part[..m], channels, ch);
      ModOfRow(q, channels, m);
      assert (|all| - 1) % channels == m;
    }
  }

  lemma {:induction false} ColumnOfRows(s: seq<byte>, q: nat, channels: nat, ch: nat)
    requires channels > 0 && ch < channels && |s| == q * channels
    ensures |Column(s, channels, ch)| == q
    ensures forall j: nat :: j < q ==> j * channels + ch < |s| && Column(s, channels, ch)[j] == s[j * channels + ch]
    decreases q
  {
    if q > 0 {
      var n := (q - 1) * channels;
      assert n + channels == |s|;
      var rows, row := s[..n], s[n..];
      assert s == rows + row;
      ColumnOfRows(rows, q - 1, channels, ch);
      ColumnPartialRow(rows, q - 1, row, channels, ch);
      EntriesOfRows(s, n, Column(rows, channels, ch), Column(s, channels, ch), q, channels, ch);
    }
  }

  lemma {:induction false} EntriesOfRows(s: seq<byte>, n: nat, before: seq<byte>, column: seq<byte>, q: nat,
                                         channels: nat, ch: nat)
    requires ch < channels && q > 0 && n == (q - 1) * channels && |s| == n + channels
    requires |before| == q - 1 && column == before + [s[n + ch]]
    requires forall j: nat :: j < q - 1 ==> j * channels + ch < n && before[j] == s[..n][j * channels + ch]
    ensures forall j: nat :: j < q ==> j * channels + ch < |s| && column[j] == s[j * channels + ch]
  {
    forall j: nat | j < q ensures j * channels + ch < |s| && column[j] == s[j * channels + ch] {
      if j < q - 1 {
        assert column[j] == before[j];
      }
    }
  }

  lemma {:induction false} ColumnAt(s: seq<byte>, q: nat, channels: nat, ch: nat, j: nat)
    requires channels > 0 && ch < channels && |s| == q * channels && j < q
    ensures |Column(s, channels, ch)| == q
    ensures j * channels + ch < |s| && Column(s, channels, ch)[j] == s[j * channels + ch]
  {
    ColumnOfRows(s, q, channels, ch);
  }

  /** How many bytes each channel has got after any number of bytes. */
  lemma {:induction false} ColumnLength(s: seq<byte>, channels: nat, ch: nat)
    requires channels > 0 && ch < channels
    ensures |Column(s, channels, ch)| == |s| / channels + if ch < |s| % channels then 1 else 0
  {
    var q, r := |s| / channels, |s| % channels;
    assert |s| == q * channels + r;
    var n := q * channels;
    assert s == s[..n] + s[n..];
    ColumnOfRows(s[..n], q, channels, ch);
    ColumnPartialRow(s[..n], q, s[n..], channels, ch);
  }

  // ---------------------------------------------------------------- all channels

  function Columns(s: seq<byte>, channels: nat): (cols: seq<seq<byte>>)
    requires channels > 0
    ensures |cols| == channels
  {
    seq(channels, ch requires 0 <= ch < channels => Column(s, channels, ch))
  }

  predicate Equal(cols: seq<seq<byte>>, rows: nat) {
    forall ch :: 0 <= ch < |cols| ==> |cols[ch]| == rows
  }

  /** Back from channels to byte-interleaved rows. */
  function Weave(cols: seq<seq<byte>>, rows: nat): (s: seq<byte>)
    requires forall ch :: 0 <= ch < |cols| ==> rows <= |cols[ch]|
    ensures |s| == rows * |cols|
  {
    if rows == 0 then []
    else Weave(cols, rows - 1) + seq(|cols|, ch requires 0 <= ch < |cols| => cols[ch][rows - 1])
  }

  lemma {:induction false} ColumnOfWeave(cols: seq<seq<byte>>, rows: nat, ch: nat)
    requires ch < |cols|
    requires forall i :: 0 <= i < |cols| ==> rows <= |cols[i]|
    ensures Column(Weave(cols, rows), |cols|, ch) == cols[ch][..rows]
  {
    if rows > 0 {
      ColumnOfWeave(cols, rows - 1, ch);
      var row := seq(|cols|, i requires 0 <= i < |cols| => cols[i][rows - 1]);
      ColumnPartialRow(Weave(cols, rows - 1), rows - 1, row, |cols|, ch);
      assert cols[ch][..rows] == cols[ch][..rows - 1] + [cols[ch][rows - 1]];
    }
  }

  lemma {:induction false} LastRow(s: seq<byte>, cols: seq<seq<byte>>, n: nat, k: nat, channels: nat)
    requires |cols| == channels && n == k * channels && n + channels <= |s|
    requires forall ch :: 0 <= ch < channels ==> k < |cols[ch]| && cols[ch][k] == s[n + ch]
    ensures s[..n] + seq(|cols|, ch requires 0 <= ch < |cols| => cols[ch][k]) == s[..n + channels]
  {
    var row := seq(|cols|, ch requires 0 <= ch < |cols| => cols[ch][k]);
    assert row == s[n..n + channels];
  }

  lemma {:induction false} WeaveOfColumns(s: seq<byte>, channels: nat, rows: nat)
    requires channels > 0 && rows * channels <= |s|
    ensures forall ch :: 0 <= ch < channels ==> rows <= |Column(s, channels, ch)|
    ensures Weave(Columns(s, channels), rows) == s[..rows * channels]
  {
    var cols := Columns(s, channels);
    forall ch | 0 <= ch < channels
      ensures rows <= |cols[ch]|
      ensures forall j: nat :: j < rows ==> j * channels + ch < |s| && cols[ch][j] == s[j * channels + ch]
    {
      ColumnPrefix(s, channels, rows, ch);
      assert cols[ch] == Column(s, channels, ch);
    }
    assert forall ch :: 0 <= ch < channels ==> cols[ch] == Column(s, channels, ch);
    if rows > 0 {
      var n := (rows - 1) * channels;
      assert n + channels == rows * channels;
      WeaveOfColumns(s, channels, rows - 1);
      LastRow(s, cols, n, rows - 1, channels);
    }
  }

  /** The first rows of a channel, whatever follows them. */
  lemma {:induction false} ColumnPrefix(s: seq<byte>, channels: nat, rows: nat, ch: nat)
    requires channels > 0 && ch < channels && rows * channels <= |s|
    ensures rows <= |Column(s, channels, ch)|
    ensures forall j: nat :: j < rows ==> j * channels + ch < |s| && Column(s, channels, ch)[j] == s[j * channels + ch]
  {
    ColumnOfRows(s[..rows * channels], rows, channels, ch);
    ColumnOfPrefix(s, channels, rows * channels, ch);
  }

  lemma {:induction false} ColumnOfPrefix(s: seq<byte>, channels: nat, n: nat, ch: nat)
    requires channels > 0 && n <= |s|
    ensures Column(s[..n], channels, ch) <= Column(s, channels, ch)
    decreases |s|
  {
    if n == |s| {
      assert s[..n] == s;
    } else {
      ColumnOfPrefix(s[..|s| - 1], channels, n, ch);
      assert s[..|s| - 1][..n] == s[..n];
    }
  }

  // ---------------------------------------------------------------- blocks of all channels

  /** The first `n` channel blocks of one group: 4096 bytes of channel 0, then of channel 1, and so on. */
  function Group(s: seq<byte>, channels: nat, n: nat): seq<byte>
    requires channels > 0
  {
    if n == 0 then [] else Group(s, channels, n - 1) + Column(s, channels, n - 1)
  }

  /** The blocks written once all channels have 4096 bytes, again and again. */
  function Audio(s: seq<byte>, channels: nat): seq<byte>
    requires channels > 0
    decreases |s|
  {
    if |s| < 4096 * channels then []
    else Group(s[..4096 * channels], channels, channels) + Audio(s[4096 * channels..], channels)
  }

  /** What is left over for the channel buffers. */
  function Rest(s: seq<byte>, channels: nat): (r: seq<byte>)
    requires channels > 0
    ensures |r| < 4096 * channels
    decreases |s|
  {
    if |s| < 4096 * channels then s else Rest(s[4096 * channels..], channels)
  }

  lemma {:induction false} GroupBlock(s: seq<byte>, channels: nat, n: nat, ch: nat)
    requires channels > 0 && |s| == 4096 * channels && ch < n <= channels
    ensures |Group(s, channels, n)| == 4096 * n
    ensures HoldsAt(Group(s, channels, n), 4096 * ch, Column(s, channels, ch))
  {
    var group, column := Group(s, channels, n - 1), Column(s, channels, n - 1);
    ColumnOfRows(s, 4096, channels, n - 1);
    if ch < n - 1 {
      GroupBlock(s, channels, n - 1, ch);
      HoldsInLonger(group, column, 4096 * ch, Column(s, channels, ch));
    } else {
      if n > 1 {
        GroupBlock(s, channels, n - 1, 0);
      }
      assert group + column == (group + column)[..|group|] + column;
    }
  }

  lemma {:induction false} HoldsInLonger(s: seq<byte>, more: seq<byte>, at: nat, part: seq<byte>)
    requires HoldsAt(s, at, part)
    ensures HoldsAt(s + more, at, part)
  {
    assert (s + more)[at..at + |part|] == s[at..at + |part|];
  }

  lemma {:induction false} GroupAt(s: seq<byte>, channels: nat, ch: nat, j: nat)
    requires channels > 0 && |s| == 4096 * channels && ch < channels && j < 4096
    ensures |Group(s, channels, channels)| == 4096 * channels
    ensures j * channels + ch < |s|
    ensures Group(s, channels, channels)[ch * 4096 + j] == s[j * channels + ch]
  {
    GroupBlock(s, channels, channels, ch);
    ColumnAt(s, 4096, channels, ch, j);
    SubSlice(Group(s, channels, channels), 4096 * ch, Column(s, channels, ch), j, 1);
  }

  /** The number of full groups. */
  function Groups(s: seq<byte>, channels: nat): nat
    requires channels > 0
    decreases |s|
  {
    if |s| < 4096 * channels then 0 else 1 + Groups(s[4096 * channels..], channels)
  }

  lemma {:induction false} AudioLength(s: seq<byte>, channels: nat)
    requires channels > 0
    ensures |Audio(s, channels)| == Groups(s, channels) * (4096 * channels)
    ensures |Audio(s, channels)| <= |s| && Rest(s, channels) == s[|Audio(s, channels)|..]
    decreases |s|
  {
    var n := 4096 * channels;
    if |s| >= n {
      var later := s[n..];
      AudioLength(later, channels);
      GroupBlock(s[..n], channels, channels, 0);
      assert (Groups(later, channels) + 1) * n == Groups(later, channels) * n + n;
      assert later[|Audio(later, channels)|..] == s[n + |Audio(later, channels)|..];
    }
  }

  /** Adding bytes only ever touches what was left over. */
  lemma {:induction false} AudioConcat(a: seq<byte>, b: seq<byte>, channels: nat)
    requires channels > 0
    ensures Audio(a + b, channels) == Audio(a, channels) + Audio(Rest(a, channels) + b, channels)
    ensures Rest(a + b, channels) == Rest(Rest(a, channels) + b, channels)
    decreases |a|
  {
    var n := 4096 * channels;
    if |a| >= n {
      assert (a + b)[..n] == a[..n] && (a + b)[n..] == a[n..] + b;
      AudioConcat(a[n..], b, channels);
      Assoc(Group(a[..n], channels, channels), Audio(a[n..], channels), Audio(Rest(a, channels) + b, channels));
    }
  }

  lemma {:induction false} IndexShift(channels: nat, k: nat, ch: nat, j: nat)
    requires k > 0
    ensures (k * channels + ch) * 4096 + j == 4096 * channels + (((k - 1) * channels + ch) * 4096 + j)
    ensures (k * 4096 + j) * channels + ch == 4096 * channels + (((k - 1) * 4096 + j) * channels + ch)
    ensures (k + 1) * (4096 * channels) == 4096 * channels + k * (4096 * channels)
  {
    assert k * channels == (k - 1) * channels + channels;
    assert (k * 4096 + j) * channels == 4096 * channels + ((k - 1) * 4096 + j) * channels by {
      assert k * 4096 + j == 4096 + ((k - 1) * 4096 + j);
    }
  }

  lemma {:induction false} AudioParts(s: seq<byte>, channels: nat)
    requires channels > 0 && |s| >= 4096 * channels
    ensures var n := 4096 * channels;
            var group := Group(s[..n], channels, channels);
            && |group| == n
            && Audio(s, channels) == group + Audio(s[n..], channels)
  {
    GroupBlock(s[..4096 * channels], channels, channels, 0);
  }

  /** The closed form of the permutation, for every full group. */
  lemma {:induction false} AudioAt(s: seq<byte>, channels: nat, k: nat, ch: nat, j: nat)
    requires channels > 0 && ch < channels && j < 4096 && (k + 1) * (4096 * channels) <= |s|
    ensures 0 <= (k * channels + ch) * 4096 + j < |Audio(s, channels)|
    ensures 0 <= (k * 4096 + j) * channels + ch < |s|
    ensures Audio(s, channels)[(k * channels + ch) * 4096 + j] == s[(k * 4096 + j) * channels + ch]
    decreases k, 1
  {
    if k == 0 {
      AudioParts(s, channels);
      GroupAt(s[..4096 * channels], channels, ch, j);
      assert s[..4096 * channels][j * channels + ch] == s[j * channels + ch];
    } else {
      IndexShift(channels, k, ch, j);
      LaterGroup(s, channels, k, ch, j);
    }
  }

  lemma {:induction false} LaterGroup(s: seq<byte>, channels: nat, k: nat, ch: nat, j: nat)
    requires channels > 0 && ch < channels && j < 4096 && k > 0 && 4096 * channels + k * (4096 * channels) <= |s|
    ensures var n := 4096 * channels;
            var out, at := ((k - 1) * channels + ch) * 4096 + j, ((k - 1) * 4096 + j) * channels + ch;
            && 0 <= out && n + out < |Audio(s, channels)|
            && 0 <= at && n + at < |s|
            && Audio(s, channels)[n + out] == s[n + at]
    decreases k, 0
  {
    var n := 4096 * channels;
    MultiplesAddUp(k, n);
    AudioAt(s[n..], channels, k - 1, ch, j);
    AudioParts(s, channels);
  }

  lemma {:induction false} MultiplesAddUp(k: int, n: int)
    ensures ((k - 1) + 1) * n == k * n
  {
  }

  // ---------------------------------------------------------------- and back

  /** What a player does: take each channel's block of every group, and interleave them again. */
  function Deinterleave(audio: seq<byte>, channels: nat): seq<byte>
    requires channels > 0
    decreases |audio|
  {
    if |audio| < 4096 * channels then []
    else Weave(Blocks(audio[..4096 * channels], channels), 4096) + Deinterleave(audio[4096 * channels..], channels)
  }

  function Blocks(group: seq<byte>, channels: nat): (blocks: seq<seq<byte>>)
    requires |group| == 4096 * channels
    ensures |blocks| == channels && forall ch :: 0 <= ch < channels ==> |blocks[ch]| == 4096
  {
    seq(channels, ch requires 0 <= ch < channels => group[4096 * ch..4096 * ch + 4096])
  }

  lemma {:induction false} BlocksOfGroup(s: seq<byte>, channels: nat)
    requires channels > 0 && |s| == 4096 * channels
    ensures |Group(s, channels, channels)| == 4096 * channels
    ensures Blocks(Group(s, channels, channels), channels) == Columns(s, channels)
  {
    GroupBlock(s, channels, channels, 0);
    var group := Group(s, channels, channels);
    forall ch | 0 <= ch < channels ensures Blocks(group, channels)[ch] == Column(s, channels, ch) {
      ColumnOfRows(s, 4096, channels, ch);
      GroupBlock(s, channels, channels, ch);
    }
  }

  lemma {:induction false} DeinterleaveGroup(first: seq<byte>, later: seq<byte>, channels: nat)
    requires channels > 0 && |first| == 4096 * channels
    ensures Deinterleave(Group(first, channels, channels) + later, channels) == first + Deinterleave(later, channels)
  {
    BlocksOfGroup(first, channels);
    WeaveOfColumns(first, channels, 4096);
    TakeDrop(Group(first, channels, channels), later);
    assert first[..4096 * channels] == first;
  }

  /** De-interleaving the written blocks restores every byte that is not still buffered. */
  lemma {:induction false} DeinterleaveAudio(s: seq<byte>, channels: nat)
    requires channels > 0
    ensures Deinterleave(Audio(s, channels), channels) + Rest(s, channels) == s
    decreases |s|
  {
    var n := 4096 * channels;
    if |s| >= n {
      var first, later := s[..n], s[n..];
      DeinterleaveAudio(later, channels);
      DeinterleaveGroup(first, Audio(later, channels), channels);
      Assoc(first, Deinterleave(Audio(later, channels), channels), Rest(later, channels));
      assert s == first + later;
    }
  }
}
