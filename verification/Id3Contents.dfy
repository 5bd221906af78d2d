/** What a reader of a footer finds in it, identifier by identifier, in terms of the track's metadata. */
module Id3Contents {
  import opened Bytes
  import opened Text
  import opened Id3Tag
  import opened Id3Footer
  import opened Id3Theorems
  import TT = TrackText

  // ---------------------------------------------------------------- looking up

  /**
   * What a lookup gives for a text that should be there, or not: nothing if there is none, and
   * otherwise the text itself exactly if it is Latin-1 without NUL.
   */
  predicate Gives(found: Option<string>, expected: Option<string>) {
    if expected == None then found == None
    else found.Some? && (found == expected <==> PlainLatin1(expected.value))
  }

  /** The text of the frame with a four-letter identifier. */
  predicate ShowsText(m: Metadata, id: string, expected: Option<string>) {
    Gives(TextOf(Frames(m), Ascii(id)), expected)
  }

  /** The value of the user frame with a description. */
  predicate ShowsUser(m: Metadata, description: string, expected: Option<string>) {
    Gives(UserOf(Frames(m), Ascii(description)), expected)
  }

  lemma {:induction false} TextOfConcat(a: seq<Frame>, b: seq<Frame>, id: seq<byte>)
    ensures TextOf(a + b, id) == if TextOf(a, id).Some? then TextOf(a, id) else TextOf(b, id)
  {
    if a == [] {
      assert a + b == b;
    } else {
      assert (a + b)[1..] == a[1..] + b;
      TextOfConcat(a[1..], b, id);
    }
  }

  lemma {:induction false} UserOfConcat(a: seq<Frame>, b: seq<Frame>, description: seq<byte>)
    ensures UserOf(a + b, description)
         == if UserOf(a, description).Some? then UserOf(a, description) else UserOf(b, description)
  {
    if a == [] {
      assert a + b == b;
    } else {
      assert (a + b)[1..] == a[1..] + b;
      UserOfConcat(a[1..], b, description);
    }
  }

  /** A list of frames has no text with an identifier of another place. */
  lemma {:induction false} NoText(frames: seq<Frame>, lo: nat, hi: nat, id: seq<byte>)
    requires Ranked(frames, lo, hi) && |id| == 4 && IdNumber(id) != TXXX && !(lo <= TextRank(IdNumber(id)) < hi)
    ensures TextOf(frames, id) == None
  {
    if frames != [] {
      assert frames[0].id != id;
      RankedTail(frames, lo, hi);
      NoText(frames[1..], lo, hi, id);
    }
  }

  lemma {:induction false} RankOfUser(f: Frame)
    ensures f.id == Ascii("TXXX") ==> |f.id| == 4 && Rank(f) == UserRank(|LeadingText(f.payload)|)
  {
    assert IdNumber(Ascii("TXXX")) == TXXX;
  }

  lemma {:induction false} NoUser(frames: seq<Frame>, lo: nat, hi: nat, description: seq<byte>)
    requires Ranked(frames, lo, hi) && !(lo <= UserRank(|description|) < hi)
    ensures UserOf(frames, description) == None
  {
    if frames != [] {
      RankOfUser(frames[0]);
      RankedTail(frames, lo, hi);
      NoUser(frames[1..], lo, hi, description);
    }
  }

  lemma {:induction false} RankedTail(frames: seq<Frame>, lo: nat, hi: nat)
    requires frames != [] && Ranked(frames, lo, hi)
    ensures Ranked(frames[1..], lo, hi)
  {
  }

  /** Of two lists of frames in order, only one can have a text. */
  lemma {:induction false} TextInOne(a: seq<Frame>, b: seq<Frame>, lo: nat, mid: nat, hi: nat, id: seq<byte>)
    requires Ranked(a, lo, mid) && Ranked(b, mid, hi) && |id| == 4 && IdNumber(id) != TXXX
    ensures TextOf(a + b, id) == if TextRank(IdNumber(id)) < mid then TextOf(a, id) else TextOf(b, id)
  {
    TextOfConcat(a, b, id);
    if TextRank(IdNumber(id)) < mid {
      NoText(b, mid, hi, id);
    } else {
      NoText(a, lo, mid, id);
    }
  }

  lemma {:induction false} UserInOne(a: seq<Frame>, b: seq<Frame>, lo: nat, mid: nat, hi: nat, description: seq<byte>)
    requires Ranked(a, lo, mid) && Ranked(b, mid, hi)
    ensures UserOf(a + b, description)
         == if UserRank(|description|) < mid then UserOf(a, description) else UserOf(b, description)
  {
    UserOfConcat(a, b, description);
    if UserRank(|description|) < mid {
      NoUser(b, mid, hi, description);
    } else {
      NoUser(a, lo, mid, description);
    }
  }

  function ComposerFrames(m: Metadata): seq<Frame> { OptionalText("TCOM", Lookup(m.trackTexts, TT.Composer)) }

  lemma {:induction false} TitleRanked(m: Metadata)
    ensures Ranked([TitleFrame(m)], 0, 1)
  {
    var title := Lookup(m.trackTexts, TT.Title);
    OptionalRanked("TIT2", Some(if title.Some? then title.value else "no track title"), 0, 1);
  }

  /** Titles, albums and people are looked up among their own frames. */
  lemma {:induction false} TextInNames(m: Metadata, id: seq<byte>)
    requires |id| == 4 && IdNumber(id) != TXXX && TextRank(IdNumber(id)) < 7
    ensures var r := TextRank(IdNumber(id));
            TextOf(Frames(m), id)
            == if r < 1 then TextOf([TitleFrame(m)], id)
               else if r < 3 then TextOf(AlbumFrames(m), id)
               else if r < 6 then TextOf(ArtistFrames(m), id)
               else TextOf(ComposerFrames(m), id)
  {
    var a, b, c, d := [TitleFrame(m)], AlbumFrames(m), ArtistFrames(m), ComposerFrames(m);
    TitleRanked(m);
    AlbumRanked(m);
    ArtistsRanked(m);
    OptionalRanked("TCOM", Lookup(m.trackTexts, TT.Composer), 6, 7);
    NamesRanked(m);
    NumbersRanked(m);
    TextInOne(NameFrames(m), NumberFrames(m), 0, 7, 15, id);
    RankedConcat(a, b, 0, 1, 3);
    RankedConcat(a + b, c, 0, 3, 6);
    TextInOne(a + b + c, d, 0, 6, 7, id);
    TextInOne(a + b, c, 0, 3, 6, id);
    TextInOne(a, b, 0, 1, 3, id);
  }

  lemma {:induction false} UserInNames(m: Metadata, description: seq<byte>)
    requires UserRank(|description|) < 6
    ensures var r := UserRank(|description|);
            UserOf(Frames(m), description)
            == if r < 1 then UserOf([TitleFrame(m)], description)
               else if r < 3 then UserOf(AlbumFrames(m), description)
               else UserOf(ArtistFrames(m), description)
  {
    var a, b, c, d := [TitleFrame(m)], AlbumFrames(m), ArtistFrames(m), ComposerFrames(m);
    TitleRanked(m);
    AlbumRanked(m);
    ArtistsRanked(m);
    OptionalRanked("TCOM", Lookup(m.trackTexts, TT.Composer), 6, 7);
    NamesRanked(m);
    NumbersRanked(m);
    UserInOne(NameFrames(m), NumberFrames(m), 0, 7, 15, description);
    RankedConcat(a, b, 0, 1, 3);
    RankedConcat(a + b, c, 0, 3, 6);
    UserInOne(a + b + c, d, 0, 6, 7, description);
    UserInOne(a + b, c, 0, 3, 6, description);
    UserInOne(a, b, 0, 1, 3, description);
  }

  /** Codes, genre and dates too. */
  lemma {:induction false} TextInNumbers(m: Metadata, id: seq<byte>)
    requires |id| == 4 && IdNumber(id) != TXXX && 9 <= TextRank(IdNumber(id)) < 15
    ensures var r := TextRank(IdNumber(id));
            TextOf(Frames(m), id)
            == if r < 10 then TextOf(IsrcFrames(m), id)
               else if r < 11 then TextOf([PartOfSet(m)], id)
               else if r < 12 then TextOf(GenreFrames(m), id)
               else TextOf(DateFrames(m), id)
  {
    var a, b, c, d := CatalogFrames(m), IsrcFrames(m), [PartOfSet(m)], GenreFrames(m);
    NamesRanked(m);
    NumbersRanked(m);
    CatalogRanked(m);
    IsrcRanked(m);
    PartOfSetRanked(m);
    GenreRanked(m);
    DatesRanked(m);
    RankedConcat(a, b, 7, 9, 10);
    RankedConcat(a + b, c, 7, 10, 11);
    RankedConcat(a + b + c, d, 7, 11, 12);
    TextInOne(NameFrames(m), NumberFrames(m), 0, 7, 15, id);
    TextInOne(a + b + c + d, DateFrames(m), 7, 12, 15, id);
    TextInOne(a + b + c, d, 7, 11, 12, id);
    TextInOne(a + b, c, 7, 10, 11, id);
    TextInOne(a, b, 7, 9, 10, id);
  }

  lemma {:induction false} UserInNumbers(m: Metadata, description: seq<byte>)
    requires 7 <= UserRank(|description|) < 9
    ensures UserOf(Frames(m), description) == UserOf(CatalogFrames(m), description)
  {
    var a, b, c, d := CatalogFrames(m), IsrcFrames(m), [PartOfSet(m)], GenreFrames(m);
    NamesRanked(m);
    NumbersRanked(m);
    CatalogRanked(m);
    IsrcRanked(m);
    PartOfSetRanked(m);
    GenreRanked(m);
    DatesRanked(m);
    RankedConcat(a, b, 7, 9, 10);
    RankedConcat(a + b, c, 7, 10, 11);
    RankedConcat(a + b + c, d, 7, 11, 12);
    UserInOne(NameFrames(m), NumberFrames(m), 0, 7, 15, description);
    UserInOne(a + b + c + d, DateFrames(m), 7, 12, 15, description);
    UserInOne(a + b + c, d, 7, 11, 12, description);
    UserInOne(a + b, c, 7, 10, 11, description);
    UserInOne(a, b, 7, 9, 10, description);
  }

  // ---------------------------------------------------------------- frames by their texts

  lemma {:induction false} TextFirst(id: string, value: string, more: seq<Frame>)
    ensures Gives(TextOf([TextFrame(id, value)] + more, Ascii(id)), Some(value))
  {
    TextRoundTrip(value);
  }

  lemma {:induction false} OptionalGives(id: string, value: Option<string>)
    ensures Gives(TextOf(OptionalText(id, value), Ascii(id)), value)
  {
    if value.Some? {
      TextFirst(id, value.value, []);
      assert OptionalText(id, value) + [] == OptionalText(id, value);
    }
  }

  lemma {:induction false} UserFirst(description: string, value: string, more: seq<Frame>)
    requires 0 !in Ascii(description)
    ensures Gives(UserOf([UserFrame(description, value)] + more, Ascii(description)), Some(value))
  {
    UserRoundTrip(description, value);
  }

  // ---------------------------------------------------------------- what the track is called

  /** A text of the track: the plain one, or else the phonetic one. */
  predicate IsTrackText(m: Metadata, field: TT.TextField, text: Option<string>) {
    if m.trackTexts == None then text == None
    else
      var plain, phonetic := TT.Known(field, false), TT.Known(field, true);
      && (plain in m.trackTexts.value ==> text == Some(m.trackTexts.value[plain]))
      && (plain !in m.trackTexts.value && phonetic in m.trackTexts.value ==>
            text == Some(m.trackTexts.value[phonetic]))
      && (plain !in m.trackTexts.value && phonetic !in m.trackTexts.value ==> text == None)
  }

  lemma {:induction false} TitleRead(m: Metadata, title: Option<string>)
    requires IsTrackText(m, TT.Title, title)
    ensures ShowsText(m, "TIT2", if title == None then Some("no track title") else title)
  {
    TextInNames(m, Ascii("TIT2"));
    TextFirst("TIT2", if title == None then "no track title" else title.value, []);
    assert [TitleFrame(m)] + [] == [TitleFrame(m)];
  }

  lemma {:induction false} ComposerRead(m: Metadata, composer: Option<string>)
    requires IsTrackText(m, TT.Composer, composer)
    ensures ShowsText(m, "TCOM", composer)
  {
    TextInNames(m, Ascii("TCOM"));
    OptionalGives("TCOM", composer);
  }

  /** A title of the disc, if there is a master text and it has one. */
  function AlbumTitle(m: Metadata): Option<string> { if m.text == None then None else m.text.value.albumTitle }

  function DiscTitle(m: Metadata): Option<string> { if m.text == None then None else m.text.value.discTitle }

  function AlbumArtist(m: Metadata): Option<string> { if m.text == None then None else m.text.value.albumArtist }

  function DiscArtist(m: Metadata): Option<string> { if m.text == None then None else m.text.value.discArtist }

  /** The album is the album's title, or the disc's if it has none. */
  lemma {:induction false} AlbumRead(m: Metadata)
    ensures ShowsText(m, "TALB", if AlbumTitle(m).Some? then AlbumTitle(m) else DiscTitle(m))
  {
    TextInNames(m, Ascii("TALB"));
    var album, disc := AlbumTitle(m), DiscTitle(m);
    if album.Some? {
      TextFirst("TALB", album.value, AlbumFrames(m)[1..]);
      assert AlbumFrames(m) == [TextFrame("TALB", album.value)] + AlbumFrames(m)[1..];
    } else if disc.Some? {
      TextFirst("TALB", disc.value, []);
      assert AlbumFrames(m) == [TextFrame("TALB", disc.value)] + [];
    } else {
      assert AlbumFrames(m) == [];
    }
  }

  /** The disc's title is a subtitle if there is an album title too, and it says more or the album has more discs. */
  lemma {:induction false} SubtitleRead(m: Metadata)
    ensures ShowsUser(m, "DISCSUBTITLE",
                    if AlbumTitle(m).Some? && DiscTitle(m).Some?
                       && (m.master.albumSetSize > 1 || AlbumTitle(m) != DiscTitle(m))
                    then DiscTitle(m) else None)
  {
    UserInNames(m, Ascii("DISCSUBTITLE"));
    var album, disc := AlbumTitle(m), DiscTitle(m);
    if album.Some? && disc.Some? && (m.master.albumSetSize > 1 || album != disc) {
      AlbumWithSubtitle(album.value, disc.value);
      assert AlbumFrames(m) == [TextFrame("TALB", album.value)] + [UserFrame("DISCSUBTITLE", disc.value)];
    } else {
      OneTextAtMost(m);
    }
  }

  lemma {:induction false} AlbumWithSubtitle(album: string, disc: string)
    ensures Gives(UserOf([TextFrame("TALB", album)] + [UserFrame("DISCSUBTITLE", disc)], Ascii("DISCSUBTITLE")),
                  Some(disc))
  {
    UserOfConcat([TextFrame("TALB", album)], [UserFrame("DISCSUBTITLE", disc)], Ascii("DISCSUBTITLE"));
    OnlyText("TALB", album, Ascii("DISCSUBTITLE"));
    UserFirst("DISCSUBTITLE", disc, []);
    assert [UserFrame("DISCSUBTITLE", disc)] + [] == [UserFrame("DISCSUBTITLE", disc)];
  }

  lemma {:induction false} OneTextAtMost(m: Metadata)
    requires !(AlbumTitle(m).Some? && DiscTitle(m).Some?
               && (m.master.albumSetSize > 1 || AlbumTitle(m) != DiscTitle(m)))
    ensures UserOf(AlbumFrames(m), Ascii("DISCSUBTITLE")) == None
  {
    OptionalIsText("TALB", if AlbumTitle(m).Some? then AlbumTitle(m) else DiscTitle(m), Ascii("DISCSUBTITLE"));
    assert AlbumFrames(m) == OptionalText("TALB", if AlbumTitle(m).Some? then AlbumTitle(m) else DiscTitle(m));
  }

  lemma {:induction false} OnlyText(id: string, value: string, description: seq<byte>)
    requires |id| == 4 && IdNumber(Ascii(id)) != TXXX
    ensures UserOf([TextFrame(id, value)], description) == None
  {
    assert IdNumber(Ascii("TXXX")) == TXXX;
    assert [TextFrame(id, value)][1..] == [];
  }

  /** The artist is the track's performer, or else the disc's artist, or else the album's. */
  lemma {:induction false} ArtistRead(m: Metadata, performer: Option<string>)
    requires IsTrackText(m, TT.Performer, performer)
    ensures ShowsText(m, "TPE1", if performer.Some? then performer
                                else if DiscArtist(m).Some? then DiscArtist(m) else AlbumArtist(m))
  {
    TextInNames(m, Ascii("TPE1"));
    var artist := if performer.Some? then performer
                  else if DiscArtist(m).Some? then DiscArtist(m) else AlbumArtist(m);
    ArtistParts(m, performer, artist);
    OptionalGives("TPE1", artist);
    TextOfConcat(OptionalText("TPE1", artist), OptionalText("TPE2", AlbumArtist(m)), Ascii("TPE1"));
    TextOfConcat(OptionalText("TPE1", artist) + OptionalText("TPE2", AlbumArtist(m)),
                 PerformerFrames(performer), Ascii("TPE1"));
    OtherText("TPE2", AlbumArtist(m), Ascii("TPE1"));
    NoTextIn(performer, Ascii("TPE1"));
  }

  function PerformerFrames(performer: Option<string>): seq<Frame> {
    if performer == None then [] else [UserFrame("PERFORMER", performer.value)]
  }

  lemma {:induction false} ArtistParts(m: Metadata, performer: Option<string>, artist: Option<string>)
    requires IsTrackText(m, TT.Performer, performer)
    requires artist == if performer.Some? then performer
                       else if DiscArtist(m).Some? then DiscArtist(m) else AlbumArtist(m)
    ensures ArtistFrames(m)
         == OptionalText("TPE1", artist) + OptionalText("TPE2", AlbumArtist(m)) + PerformerFrames(performer)
  {
  }

  lemma {:induction false} OtherText(id: string, value: Option<string>, other: seq<byte>)
    requires Ascii(id) != other
    ensures TextOf(OptionalText(id, value), other) == None
  {
  }

  lemma {:induction false} NoTextIn(performer: Option<string>, id: seq<byte>)
    requires id != Ascii("TXXX")
    ensures TextOf(PerformerFrames(performer), id) == None
  {
  }

  lemma {:induction false} AlbumArtistRead(m: Metadata, performer: Option<string>)
    requires IsTrackText(m, TT.Performer, performer)
    ensures ShowsText(m, "TPE2", AlbumArtist(m))
  {
    TextInNames(m, Ascii("TPE2"));
    var artist := if performer.Some? then performer
                  else if DiscArtist(m).Some? then DiscArtist(m) else AlbumArtist(m);
    ArtistParts(m, performer, artist);
    OptionalGives("TPE2", AlbumArtist(m));
    TextOfConcat(OptionalText("TPE1", artist), OptionalText("TPE2", AlbumArtist(m)), Ascii("TPE2"));
    TextOfConcat(OptionalText("TPE1", artist) + OptionalText("TPE2", AlbumArtist(m)),
                 PerformerFrames(performer), Ascii("TPE2"));
    OtherText("TPE1", artist, Ascii("TPE2"));
    NoTextIn(performer, Ascii("TPE2"));
  }

  lemma {:induction false} PerformerRead(m: Metadata, performer: Option<string>)
    requires IsTrackText(m, TT.Performer, performer)
    ensures ShowsUser(m, "PERFORMER", performer)
  {
    UserInNames(m, Ascii("PERFORMER"));
    var artist := if performer.Some? then performer
                  else if DiscArtist(m).Some? then DiscArtist(m) else AlbumArtist(m);
    ArtistParts(m, performer, artist);
    PerformerLast(artist, AlbumArtist(m), performer);
    PerformerGives(performer);
  }

  lemma {:induction false} PerformerLast(artist: Option<string>, albumArtist: Option<string>, performer: Option<string>)
    ensures UserOf(OptionalText("TPE1", artist) + OptionalText("TPE2", albumArtist) + PerformerFrames(performer),
                   Ascii("PERFORMER"))
         == UserOf(PerformerFrames(performer), Ascii("PERFORMER"))
  {
    var a, b := OptionalText("TPE1", artist), OptionalText("TPE2", albumArtist);
    UserOfConcat(a, b, Ascii("PERFORMER"));
    UserOfConcat(a + b, PerformerFrames(performer), Ascii("PERFORMER"));
    OptionalIsText("TPE1", artist, Ascii("PERFORMER"));
    OptionalIsText("TPE2", albumArtist, Ascii("PERFORMER"));
  }

  lemma {:induction false} PerformerGives(performer: Option<string>)
    ensures Gives(UserOf(PerformerFrames(performer), Ascii("PERFORMER")), performer)
  {
    if performer.Some? {
      UserFirst("PERFORMER", performer.value, []);
      assert PerformerFrames(performer) + [] == PerformerFrames(performer);
    }
  }

  lemma {:induction false} OptionalIsText(id: string, value: Option<string>, description: seq<byte>)
    requires |id| == 4 && IdNumber(Ascii(id)) != TXXX
    ensures UserOf(OptionalText(id, value), description) == None
  {
    if value.Some? {
      OnlyText(id, value.value, description);
    }
  }

  // ---------------------------------------------------------------- numbers, codes and dates

  /** The catalogue number is the disc's, or else the album's; the album's is there too if it differs. */
  lemma {:induction false} CatalogRead(m: Metadata)
    ensures var disc, album := AsciiTrim(m.master.discCatalog), AsciiTrim(m.master.albumCatalog);
            && ShowsUser(m, "Catalog Number",
                         if disc != "" then Some(disc) else if album != "" then Some(album) else None)
            && ShowsUser(m, "Album Catalog Number",
                       if disc != "" && album != "" && album != disc then Some(album) else None)
  {
    var disc, album := AsciiTrim(m.master.discCatalog), AsciiTrim(m.master.albumCatalog);
    UserInNumbers(m, Ascii("Catalog Number"));
    UserInNumbers(m, Ascii("Album Catalog Number"));
    if disc == "" && album == "" {
      assert CatalogFrames(m) == [];
    } else {
      var first := if disc != "" then disc else album;
      var second := disc != "" && album != "" && album != disc;
      CatalogParts(m, first, second);
      CatalogLookups(first, if second then [UserFrame("Album Catalog Number", album)] else [],
                     if second then Some(album) else None);
    }
  }

  lemma {:induction false} CatalogParts(m: Metadata, first: string, second: bool)
    requires var disc, album := AsciiTrim(m.master.discCatalog), AsciiTrim(m.master.albumCatalog);
             && (disc != "" || album != "") && first == (if disc != "" then disc else album)
             && second == (disc != "" && album != "" && album != disc)
    ensures CatalogFrames(m)
         == [UserFrame("Catalog Number", first)]
            + if second then [UserFrame("Album Catalog Number", AsciiTrim(m.master.albumCatalog))] else []
  {
  }

  lemma {:induction false} CatalogLookups(first: string, more: seq<Frame>, second: Option<string>)
    requires more == if second == None then [] else [UserFrame("Album Catalog Number", second.value)]
    ensures Gives(UserOf([UserFrame("Catalog Number", first)] + more, Ascii("Catalog Number")), Some(first))
    ensures Gives(UserOf([UserFrame("Catalog Number", first)] + more, Ascii("Album Catalog Number")), second)
  {
    UserFirst("Catalog Number", first, more);
    UserOfConcat([UserFrame("Catalog Number", first)], more, Ascii("Album Catalog Number"));
    OtherCatalog(first);
    SecondCatalog(more, second);
  }

  lemma {:induction false} SecondCatalog(more: seq<Frame>, second: Option<string>)
    requires more == if second == None then [] else [UserFrame("Album Catalog Number", second.value)]
    ensures Gives(UserOf(more, Ascii("Album Catalog Number")), second)
  {
    if second.Some? {
      UserFirst("Album Catalog Number", second.value, []);
      assert more + [] == more;
    }
  }

  lemma {:induction false} OtherCatalog(first: string)
    ensures UserOf([UserFrame("Catalog Number", first)], Ascii("Album Catalog Number")) == None
  {
    UserRoundTrip("Catalog Number", first);
    assert |LeadingText(UserFrame("Catalog Number", first).payload)| != |Ascii("Album Catalog Number")|;
    assert [UserFrame("Catalog Number", first)][1..] == [];
  }

  /** The parts of the track's code. */
  function IsrcParts(m: Metadata): seq<seq<byte>> {
    if m.isrc == None then []
    else [m.isrc.value.country, m.isrc.value.owner, m.isrc.value.year, m.isrc.value.designation]
  }

  /** One of them has text. */
  predicate AnyText(parts: seq<seq<byte>>) { exists i :: 0 <= i < |parts| && parts[i] != [] && parts[i][0] != 0 }

  /** The ISRC: its four parts, each up to its first zero; absent only if all of them are. */
  lemma {:induction false} IsrcRead(m: Metadata)
    ensures ShowsText(m, "TSRC", if AnyText(IsrcParts(m)) then Some(Concatenated(IsrcParts(m))) else None)
  {
    TextInNumbers(m, Ascii("TSRC"));
    IsrcFramesAre(m);
    OptionalGives("TSRC", if AnyText(IsrcParts(m)) then Some(Concatenated(IsrcParts(m))) else None);
  }

  lemma {:induction false} IsrcFramesAre(m: Metadata)
    ensures IsrcFrames(m)
         == OptionalText("TSRC", if AnyText(IsrcParts(m)) then Some(Concatenated(IsrcParts(m))) else None)
  {
    if m.isrc.Some? {
      var i, parts := m.isrc.value, IsrcParts(m);
      assert parts[0] == i.country && parts[1] == i.owner && parts[2] == i.year && parts[3] == i.designation;
    }
  }

  /** The genre's name, if it is one of the general table. */
  predicate GenreNamed(g: Option<Genre>, name: Option<string>) {
    if g.Some? && 1 <= g.value.genre <= 28 then name == Some(GENRE_NAMES[g.value.genre]) else name == None
  }

  /** The first entry of the general genre table, category 1, in a list. */
  predicate IsFirstGeneral(genres: seq<Genre>, g: Option<Genre>) {
    if g == None then forall i :: 0 <= i < |genres| ==> genres[i].category != 1
    else exists i :: 0 <= i < |genres| && genres[i] == g.value && genres[i].category == 1 &&
                     forall j :: 0 <= j < i ==> genres[j].category != 1
  }

  lemma {:induction false} FirstGeneralIs(genres: seq<Genre>)
    ensures IsFirstGeneral(genres, FirstGeneral(genres))
  {
    if genres != [] && genres[0].category != 1 {
      FirstGeneralIs(genres[1..]);
      var g := FirstGeneral(genres[1..]);
      if g.Some? {
        var i :| 0 <= i < |genres[1..]| && genres[1..][i] == g.value && genres[1..][i].category == 1 &&
                 forall j :: 0 <= j < i ==> genres[1..][j].category != 1;
        assert genres[i + 1] == g.value;
        forall j | 0 <= j < i + 1 ensures genres[j].category != 1 {
          assert j > 0 ==> genres[1..][j - 1] == genres[j];
        }
      } else {
        forall j | 0 <= j < |genres| ensures genres[j].category != 1 {
          assert j > 0 ==> genres[1..][j - 1] == genres[j];
        }
      }
    }
  }

  lemma {:induction false} FirstGeneralUnique(genres: seq<Genre>, a: Option<Genre>, b: Option<Genre>)
    requires IsFirstGeneral(genres, a) && IsFirstGeneral(genres, b)
    ensures a == b
  {
    if a.Some? && b.Some? {
      var i :| 0 <= i < |genres| && genres[i] == a.value && genres[i].category == 1 &&
               forall k :: 0 <= k < i ==> genres[k].category != 1;
      var j :| 0 <= j < |genres| && genres[j] == b.value && genres[j].category == 1 &&
               forall k :: 0 <= k < j ==> genres[k].category != 1;
      assert i == j;
    }
  }

  /** The genre is the track's if that is of the general table, or else the disc's first such, or else the album's. */
  lemma {:induction false} GenreRead(m: Metadata, disc: Option<Genre>, album: Option<Genre>, name: Option<string>)
    requires IsFirstGeneral(m.master.discGenres, disc) && IsFirstGeneral(m.master.albumGenres, album)
    requires GenreNamed(if m.trackGenre.Some? && m.trackGenre.value.category == 1 then m.trackGenre
                        else if disc.Some? then disc else album, name)
    ensures ShowsText(m, "TCON", name)
  {
    FirstGeneralIs(m.master.discGenres);
    FirstGeneralUnique(m.master.discGenres, disc, FirstGeneral(m.master.discGenres));
    FirstGeneralIs(m.master.albumGenres);
    FirstGeneralUnique(m.master.albumGenres, album, FirstGeneral(m.master.albumGenres));
    TextInNumbers(m, Ascii("TCON"));
    GenreFramesAre(m, name);
    OptionalGives("TCON", name);
  }

  lemma {:induction false} GenreFramesAre(m: Metadata, name: Option<string>)
    requires GenreNamed(ChosenGenre(m), name)
    ensures GenreFrames(m) == OptionalText("TCON", name)
  {
    assert |GENRE_NAMES| == 29;
  }

  /** The disc's number in the set; a set has at least one disc. */
  lemma {:induction false} PartOfSetRead(m: Metadata)
    ensures ShowsText(m, "TPOS", Some(Decimal(m.master.albumSequenceNumber) + "/"
                                     + Decimal(if m.master.albumSetSize == 0 then 1 else m.master.albumSetSize)))
  {
    TextInNumbers(m, Ascii("TPOS"));
    TextFirst("TPOS", Decimal(m.master.albumSequenceNumber) + "/"
                      + Decimal(if m.master.albumSetSize == 0 then 1 else m.master.albumSetSize), []);
    assert [PartOfSet(m)] + [] == [PartOfSet(m)];
  }

  lemma {:induction false} TextInDates(m: Metadata, id: seq<byte>)
    requires |id| == 4 && IdNumber(id) != TXXX && 12 <= TextRank(IdNumber(id)) < 15
    ensures TextOf(Frames(m), id) == TextOf(DateFrames(m), id)
  {
    TextInNumbers(m, id);
  }

  /** The track's number, counted from one, and the number of tracks. */
  lemma {:induction false} TrackNumberRead(m: Metadata)
    ensures ShowsText(m, "TRCK", Some(Decimal(m.trackIdx + 1) + "/" + Decimal(m.trackCount)))
  {
    TextInDates(m, Ascii("TRCK"));
    DateLookups(m);
  }

  /** The year in four digits. */
  lemma {:induction false} YearRead(m: Metadata)
    ensures ShowsText(m, "TYER", Some(Padded(m.master.year, 4)))
  {
    TextInDates(m, Ascii("TYER"));
    DateLookups(m);
  }

  /** Day and month in two digits each. */
  lemma {:induction false} DayRead(m: Metadata)
    ensures ShowsText(m, "TDAT", Some(Padded(m.master.day, 2) + Padded(m.master.month, 2)))
  {
    TextInDates(m, Ascii("TDAT"));
    DateLookups(m);
  }

  lemma {:induction false} DateLookups(m: Metadata)
    ensures Gives(TextOf(DateFrames(m), Ascii("TYER")), Some(Padded(m.master.year, 4)))
    ensures Gives(TextOf(DateFrames(m), Ascii("TDAT")), Some(Padded(m.master.day, 2) + Padded(m.master.month, 2)))
    ensures Gives(TextOf(DateFrames(m), Ascii("TRCK")), Some(Decimal(m.trackIdx + 1) + "/" + Decimal(m.trackCount)))
  {
    var year, date := Padded(m.master.year, 4), Padded(m.master.day, 2) + Padded(m.master.month, 2);
    var track := Decimal(m.trackIdx + 1) + "/" + Decimal(m.trackCount);
    ThreeTexts(year, date, track);
    assert DateFrames(m) == [TextFrame("TYER", year)] + ([TextFrame("TDAT", date)] + ([TextFrame("TRCK", track)] + []));
  }

  lemma {:induction false} ThreeTexts(year: string, date: string, track: string)
    ensures var frames := [TextFrame("TYER", year)] + ([TextFrame("TDAT", date)] + ([TextFrame("TRCK", track)] + []));
            && Gives(TextOf(frames, Ascii("TYER")), Some(year))
            && Gives(TextOf(frames, Ascii("TDAT")), Some(date))
            && Gives(TextOf(frames, Ascii("TRCK")), Some(track))
  {
    var c := [TextFrame("TRCK", track)] + [];
    var b := [TextFrame("TDAT", date)] + c;
    TextFirst("TYER", year, b);
    TextFirst("TDAT", date, c);
    TextFirst("TRCK", track, []);
    PassOver("TYER", year, b, "TDAT");
    PassOver("TYER", year, b, "TRCK");
    PassOver("TDAT", date, c, "TRCK");
  }

  lemma {:induction false} PassOver(id: string, value: string, more: seq<Frame>, other: string)
    requires |id| == |other| && |id| == 4 && IdNumber(Ascii(id)) != IdNumber(Ascii(other))
    ensures TextOf([TextFrame(id, value)] + more, Ascii(other)) == TextOf(more, Ascii(other))
  {
    assert ([TextFrame(id, value)] + more)[1..] == more;
  }
}
