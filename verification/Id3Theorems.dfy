/** No ID3 footer repeats a frame, and every footer below 2^28 bytes reads back. */
module Id3Theorems {
  import opened Bytes
  import opened Text
  import opened Id3Tag
  import opened Id3Footer
  import TT = TrackText

  function IdNumber(id: seq<byte>): nat
    requires |id| == 4
  {
    (id[0] as int) * 0x1000000 + (id[1] as int) * 0x10000 + (id[2] as int) * 0x100 + (id[3] as int)
  }

  const TXXX: nat := 0x54585858

  /** The place of a text frame among the frames of a footer, by its identifier. */
  function TextRank(id: nat): nat {
    match id
    case 0x54495432 => 0
    case 0x54414C42 => 1
    case 0x54504531 => 3
    case 0x54504532 => 4
    case 0x54434F4D => 6
    case 0x54535243 => 9
    case 0x54504F53 => 10
    case 0x54434F4E => 11
    case 0x54594552 => 12
    case 0x54444154 => 13
    case 0x5452434B => 14
    case _ => 15
  }

  /** The same for user frames; the four descriptions already differ in length. */
  function UserRank(length: nat): nat {
    match length
    case 12 => 2
    case 9 => 5
    case 14 => 7
    case 20 => 8
    case _ => 15
  }

  /** Depends only on the frame's bytes: its identifier and, for TXXX, its description. */
  function Rank(f: Frame): nat
    requires |f.id| == 4
  {
    if IdNumber(f.id) == TXXX then UserRank(|LeadingText(f.payload)|) else TextRank(IdNumber(f.id))
  }

  /** Ranks go up from frame to frame, within bounds. */
  predicate Ranked(frames: seq<Frame>, lo: nat, hi: nat) {
    && (forall i :: 0 <= i < |frames| ==> |frames[i].id| == 4 && lo <= Rank(frames[i]) < hi)
    && (forall i, j :: 0 <= i < j < |frames| ==> Rank(frames[i]) < Rank(frames[j]))
  }

  lemma {:induction false} RankedOne(f: Frame, lo: nat, hi: nat)
    requires |f.id| == 4 && lo <= Rank(f) < hi
    ensures Ranked([f], lo, hi)
  {
  }

  lemma {:induction false} RankedConcat(a: seq<Frame>, b: seq<Frame>, lo: nat, mid: nat, hi: nat)
    requires lo <= mid <= hi && Ranked(a, lo, mid) && Ranked(b, mid, hi)
    ensures Ranked(a + b, lo, hi)
  {
    var all := a + b;
    forall i | 0 <= i < |all| ensures |all[i].id| == 4 && lo <= Rank(all[i]) < hi {
    }
    forall i, j | 0 <= i < j < |all| ensures Rank(all[i]) < Rank(all[j]) {
      if i < |a| <= j {
        assert all[i] == a[i] && all[j] == b[j - |a|];
      }
    }
  }

  lemma {:induction false} TextFrameRank(id: string, value: string)
    requires |id| == 4 && IdNumber(Ascii(id)) != TXXX
    ensures |TextFrame(id, value).id| == 4 && Rank(TextFrame(id, value)) == TextRank(IdNumber(Ascii(id)))
  {
  }

  lemma {:induction false} UserFrameRank(description: string, value: string)
    requires 0 !in Ascii(description)
    ensures |UserFrame(description, value).id| == 4
    ensures Rank(UserFrame(description, value)) == UserRank(|description|)
  {
    LeadingTextOf(Ascii(description), Ascii(value) + [0]);
    var payload := TxxxPayload(description, value);
    assert payload == [0] + Ascii(description) + [0] + (Ascii(value) + [0]);
    assert IdNumber(Ascii("TXXX")) == TXXX;
  }

  lemma {:induction false} AlbumRanked(m: Metadata)
    ensures Ranked(AlbumFrames(m), 1, 3)
  {
    if m.text.Some? {
      var albumTitle, discTitle := m.text.value.albumTitle, m.text.value.discTitle;
      var first := OptionalText("TALB", albumTitle);
      OptionalRanked("TALB", albumTitle, 1, 2);
      if albumTitle.Some? && discTitle.Some? {
        UserFrameRank("DISCSUBTITLE", discTitle.value);
        RankedOne(UserFrame("DISCSUBTITLE", discTitle.value), 2, 3);
        var second := if discTitle.value != albumTitle.value || m.master.albumSetSize > 1
                      then [UserFrame("DISCSUBTITLE", discTitle.value)] else [];
        RankedConcat(first, second, 1, 2, 3);
      } else if discTitle.Some? {
        OptionalRanked("TALB", discTitle, 1, 3);
        RankedConcat([], [TextFrame("TALB", discTitle.value)], 1, 1, 3);
      } else {
        RankedConcat(first, [], 1, 2, 3);
      }
    }
  }

  lemma {:induction false} OptionalRanked(id: string, value: Option<string>, lo: nat, hi: nat)
    requires |id| == 4 && IdNumber(Ascii(id)) != TXXX && lo <= TextRank(IdNumber(Ascii(id))) < hi
    ensures Ranked(OptionalText(id, value), lo, hi)
  {
    if value.Some? {
      TextFrameRank(id, value.value);
      RankedOne(TextFrame(id, value.value), lo, hi);
    }
  }

  lemma {:induction false} ArtistsRanked(m: Metadata)
    ensures Ranked(ArtistFrames(m), 3, 6)
  {
    var performer := Lookup(m.trackTexts, TT.Performer);
    var fallback := if m.text == None then None else Or(m.text.value.discArtist, m.text.value.albumArtist);
    var a := OptionalText("TPE1", Or(performer, fallback));
    var b := if m.text == None then [] else OptionalText("TPE2", m.text.value.albumArtist);
    var c := if performer == None then [] else [UserFrame("PERFORMER", performer.value)];
    OptionalRanked("TPE1", Or(performer, fallback), 3, 4);
    if m.text.Some? {
      OptionalRanked("TPE2", m.text.value.albumArtist, 4, 5);
    }
    if performer.Some? {
      UserFrameRank("PERFORMER", performer.value);
      RankedOne(UserFrame("PERFORMER", performer.value), 5, 6);
    }
    RankedConcat(a, b, 3, 4, 5);
    RankedConcat(a + b, c, 3, 5, 6);
  }

  lemma {:induction false} NamesRanked(m: Metadata)
    ensures Ranked(NameFrames(m), 0, 7)
  {
    var a, b, c := [TitleFrame(m)], AlbumFrames(m), ArtistFrames(m);
    var composer := Lookup(m.trackTexts, TT.Composer);
    var title := Lookup(m.trackTexts, TT.Title);
    OptionalRanked("TIT2", Some(if title.Some? then title.value else "no track title"), 0, 1);
    AlbumRanked(m);
    ArtistsRanked(m);
    OptionalRanked("TCOM", composer, 6, 7);
    RankedConcat(a, b, 0, 1, 3);
    RankedConcat(a + b, c, 0, 3, 6);
    RankedConcat(a + b + c, OptionalText("TCOM", composer), 0, 6, 7);
  }

  lemma {:induction false} CatalogRanked(m: Metadata)
    ensures Ranked(CatalogFrames(m), 7, 9)
  {
    var disc, album := AsciiTrim(m.master.discCatalog), AsciiTrim(m.master.albumCatalog);
    var value := if disc == "" then album else disc;
    var number, albumNumber := UserFrame("Catalog Number", value), UserFrame("Album Catalog Number", album);
    UserFrameRank("Catalog Number", value);
    UserFrameRank("Album Catalog Number", album);
    RankedOne(number, 7, 8);
    RankedOne(number, 7, 9);
    RankedOne(albumNumber, 8, 9);
    RankedConcat([number], if album == "" || album == disc then [] else [albumNumber], 7, 8, 9);
  }

  lemma {:induction false} IsrcRanked(m: Metadata)
    ensures Ranked(IsrcFrames(m), 9, 10)
  {
    if m.isrc.Some? {
      var i := m.isrc.value;
      OptionalRanked("TSRC", Some(Concatenated([i.country, i.owner, i.year, i.designation])), 9, 10);
    }
  }

  lemma {:induction false} GenreRanked(m: Metadata)
    ensures Ranked(GenreFrames(m), 11, 12)
  {
    var g := ChosenGenre(m);
    if g.Some? && 0 < g.value.genre < |GENRE_NAMES| {
      OptionalRanked("TCON", Some(GENRE_NAMES[g.value.genre]), 11, 12);
    }
  }

  lemma {:induction false} DatesRanked(m: Metadata)
    ensures Ranked(DateFrames(m), 12, 15)
  {
    var d := DateFrames(m);
    TextFrameRank("TYER", Padded(m.master.year, 4));
    TextFrameRank("TDAT", Padded(m.master.day, 2) + Padded(m.master.month, 2));
    TextFrameRank("TRCK", Decimal(m.trackIdx + 1) + "/" + Decimal(m.trackCount));
    RankedOne(d[0], 12, 13);
    RankedOne(d[1], 13, 14);
    RankedOne(d[2], 14, 15);
    RankedConcat([d[0]], [d[1]], 12, 13, 14);
    RankedConcat([d[0]] + [d[1]], [d[2]], 12, 14, 15);
    assert [d[0]] + [d[1]] + [d[2]] == d;
  }

  lemma {:induction false} PartOfSetRanked(m: Metadata)
    ensures Ranked([PartOfSet(m)], 10, 11)
  {
    var setSize := if m.master.albumSetSize > 1 then m.master.albumSetSize else 1;
    OptionalRanked("TPOS", Some(Decimal(m.master.albumSequenceNumber) + "/" + Decimal(setSize)), 10, 11);
  }

  lemma {:induction false} NumbersRanked(m: Metadata)
    ensures Ranked(NumberFrames(m), 7, 15)
  {
    var a, b, c, d := CatalogFrames(m), IsrcFrames(m), [PartOfSet(m)], GenreFrames(m);
    CatalogRanked(m);
    IsrcRanked(m);
    PartOfSetRanked(m);
    GenreRanked(m);
    DatesRanked(m);
    RankedConcat(a, b, 7, 9, 10);
    RankedConcat(a + b, c, 7, 10, 11);
    RankedConcat(a + b + c, d, 7, 11, 12);
    RankedConcat(a + b + c + d, DateFrames(m), 7, 12, 15);
  }

  lemma {:induction false} FramesRanked(m: Metadata)
    ensures Ranked(Frames(m), 0, 15)
  {
    NamesRanked(m);
    NumbersRanked(m);
    RankedConcat(NameFrames(m), NumberFrames(m), 0, 7, 15);
  }

  /**
   * For all metadata: two frames with the same identifier are both TXXX, and their descriptions
   * differ.
   */
  lemma {:induction false} FramesAreUnique(m: Metadata, i: nat, j: nat)
    requires i < j < |Frames(m)| && Frames(m)[i].id == Frames(m)[j].id
    ensures Frames(m)[i].id == Ascii("TXXX")
    ensures LeadingText(Frames(m)[i].payload) != LeadingText(Frames(m)[j].payload)
  {
    FramesRanked(m);
    var f, g := Frames(m)[i], Frames(m)[j];
    assert Rank(f) < Rank(g);
    IdOfNumber(f.id);
  }

  lemma {:induction false} IdOfNumber(id: seq<byte>)
    requires |id| == 4 && IdNumber(id) == TXXX
    ensures id == Ascii("TXXX")
  {
    assert id == [0x54, 0x58, 0x58, 0x58];
  }

  /** The text of the first frame with an identifier, as a player looks it up. */
  function TextOf(frames: seq<Frame>, id: seq<byte>): Option<string> {
    if frames == [] then None
    else if frames[0].id == id then Some(FromLatin1(LeadingText(frames[0].payload)))
    else TextOf(frames[1..], id)
  }

  /** The bytes between the description's zero and the next one. */
  function UserValue(payload: seq<byte>): seq<byte> {
    var d := if payload == [] then 0 else NextZero(payload, 1);
    if d >= |payload| then [] else payload[d + 1..NextZero(payload, d + 1)]
  }

  /** The value of the first user frame with a description. */
  function UserOf(frames: seq<Frame>, description: seq<byte>): Option<string> {
    if frames == [] then None
    else if frames[0].id == Ascii("TXXX") && LeadingText(frames[0].payload) == description then
      Some(FromLatin1(UserValue(frames[0].payload)))
    else UserOf(frames[1..], description)
  }

  /** A value gives its text back exactly when it is Latin-1 without NUL. */
  lemma {:induction false} UserRoundTrip(description: string, value: string)
    requires 0 !in Ascii(description)
    ensures FromLatin1(UserValue(TxxxPayload(description, value))) == value <==> PlainLatin1(value)
    ensures LeadingText(TxxxPayload(description, value)) == Ascii(description)
  {
    var a, v, payload := Ascii(description), Ascii(value), TxxxPayload(description, value);
    DescriptionOf(a, v, payload);
    UserParts(a, v, payload);
    NextZeroIs(payload, 1, 1 + |a|);
    ValueRoundTrip(value, payload, 2 + |a|);
  }

  lemma {:induction false} DescriptionOf(a: seq<byte>, v: seq<byte>, payload: seq<byte>)
    requires payload == [0] + a + [0] + v + [0] && 0 !in a
    ensures LeadingText(payload) == a
  {
    assert payload == [0] + a + [0] + (v + [0]);
    LeadingTextOf(a, v + [0]);
  }

  lemma {:induction false} UserParts(a: seq<byte>, v: seq<byte>, payload: seq<byte>)
    requires payload == [0] + a + [0] + v + [0]
    ensures |payload| == 3 + |a| + |v| && payload[1 + |a|] == 0 && payload[2 + |a| + |v|] == 0
    ensures forall i :: 1 <= i <= |a| ==> payload[i] == a[i - 1]
    ensures forall i :: 0 <= i < |v| ==> payload[2 + |a| + i] == v[i]
  {
  }

  lemma {:induction false} ValueRoundTrip(value: string, payload: seq<byte>, at: nat)
    requires |payload| == at + |value| + 1 && payload[at + |value|] == 0
    requires forall i :: 0 <= i < |value| ==> payload[at + i] == Ascii(value)[i]
    ensures FromLatin1(payload[at..NextZero(payload, at)]) == value <==> PlainLatin1(value)
  {
    var read := payload[at..NextZero(payload, at)];
    if PlainLatin1(value) {
      assert forall i :: at <= i < at + |value| ==> payload[i] == Ascii(value)[i - at];
      NextZeroIs(payload, at, at + |value|);
      assert FromLatin1(read) == value;
    } else {
      var k :| 0 <= k < |value| && !(0 < value[k] as int <= 0xFF);
      if k < |read| {
        assert read[k] == payload[at + k] == Ascii(value)[k];
        assert FromLatin1(read)[k] == read[k] as char;
      }
    }
  }

  lemma {:induction false} TextOfFirst(frames: seq<Frame>, i: nat)
    requires i < |frames| && forall j :: 0 <= j < i ==> frames[j].id != frames[i].id
    ensures TextOf(frames, frames[i].id) == Some(FromLatin1(LeadingText(frames[i].payload)))
    decreases i
  {
    if i > 0 {
      TextOfFirst(frames[1..], i - 1);
    }
  }

  lemma {:induction false} UserOfFirst(frames: seq<Frame>, i: nat, description: seq<byte>)
    requires i < |frames| && frames[i].id == Ascii("TXXX") && LeadingText(frames[i].payload) == description
    requires forall j :: 0 <= j < i ==> frames[j].id != frames[i].id || LeadingText(frames[j].payload) != description
    ensures UserOf(frames, description) == Some(FromLatin1(UserValue(frames[i].payload)))
    decreases i
  {
    if i > 0 {
      UserOfFirst(frames[1..], i - 1, description);
    }
  }

  /** Every text frame of every footer: a player finds its text, exactly if that is Latin-1 without NUL. */
  lemma {:induction false} TextsRead(m: Metadata, i: nat, id: string, value: string)
    requires i < |Frames(m)| && Frames(m)[i] == TextFrame(id, value) && Ascii(id) != Ascii("TXXX")
    ensures TextOf(Frames(m), Ascii(id)) == Some(value) <==> PlainLatin1(value)
  {
    forall j | 0 <= j < i ensures Frames(m)[j].id != Frames(m)[i].id {
      if Frames(m)[j].id == Frames(m)[i].id {
        FramesAreUnique(m, j, i);
      }
    }
    TextOfFirst(Frames(m), i);
    TextRoundTrip(value);
  }

  /** And every user frame: a player finds its value by its description. */
  lemma {:induction false} UserTextsRead(m: Metadata, i: nat, description: string, value: string)
    requires i < |Frames(m)| && Frames(m)[i] == UserFrame(description, value) && 0 !in Ascii(description)
    ensures UserOf(Frames(m), Ascii(description)) == Some(value) <==> PlainLatin1(value)
  {
    UserRoundTrip(description, value);
    forall j | 0 <= j < i
      ensures Frames(m)[j].id != Frames(m)[i].id || LeadingText(Frames(m)[j].payload) != Ascii(description)
    {
      if Frames(m)[j].id == Frames(m)[i].id {
        FramesAreUnique(m, j, i);
      }
    }
    UserOfFirst(Frames(m), i, Ascii(description));
  }

  /**
   * For all metadata: the rendered footer reads back frame by frame exactly when its body is below
   * 2^28 bytes, and its title is the track's exactly when that is Latin-1 without NUL.
   */
  lemma {:induction false} FooterReads(m: Metadata)
    ensures ReadTag(Tag(Frames(m))) == Some(Frames(m)) <==> |Body(Frames(m))| < 0x10000000
    ensures var title := Lookup(m.trackTexts, TT.Title);
            title.Some? ==> (TextOf(Frames(m), Ascii("TIT2")) == title <==> PlainLatin1(title.value))
  {
    FramesRanked(m);
    TagRoundTrip(Frames(m));
    var title := Lookup(m.trackTexts, TT.Title);
    assert Frames(m)[0] == TitleFrame(m);
    if title.Some? {
      TextRoundTrip(title.value);
    }
  }
}
