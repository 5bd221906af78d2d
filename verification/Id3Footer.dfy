/** The ID3 footer of a track: which frames it has, and that they read back. */
module Id3Footer {
  import opened Bytes
  import opened Endian
  import opened Id3Tag
  import opened Text
  import TT = TrackText

  datatype Genre = Genre(category: byte, genre: nat)

  datatype Isrc = Isrc(country: seq<byte>, owner: seq<byte>, year: seq<byte>, designation: seq<byte>)

  datatype MasterText = MasterText(albumTitle: Option<string>, albumArtist: Option<string>,
                                   discTitle: Option<string>, discArtist: Option<string>)

  datatype MasterToc = MasterToc(
    albumSetSize: nat,
    albumSequenceNumber: nat,
    albumCatalog: seq<byte>,
    albumGenres: seq<Genre>,
    discCatalog: seq<byte>,
    discGenres: seq<Genre>,
    year: nat,
    month: byte,
    day: byte)

  /** What `render_id3` is given for one track; absent list entries are None. */
  datatype Metadata = Metadata(
    master: MasterToc,
    text: Option<MasterText>,
    trackTexts: Option<TT.Texts>,
    isrc: Option<Isrc>,
    trackGenre: Option<Genre>,
    trackIdx: nat,
    trackCount: byte)

  const GENRE_NAMES: seq<string> := [
    "Not used", "Not defined", "Adult Contemporary", "Alternative Rock", "Children's Music",
    "Classical", "Contemporary Christian", "Country", "Dance", "Easy Listening", "Erotic", "Folk",
    "Gospel", "Hip Hop", "Jazz", "Latin", "Musical", "New Age", "Opera", "Operetta", "Pop Music",
    "RAP", "Reggae", "Rock Music", "Rhythm & Blues", "Sound Effects", "Sound Track", "Spoken Word",
    "World Music"]

  // ---------------------------------------------------------------- strings

  /** The bytes up to the first zero, as Latin-1. */
  function UpToZero(bytes: seq<byte>): string { FromLatin1(bytes[..NextZero(bytes, 0)]) }

  function AsciiTrim(bytes: seq<byte>): string { Trim(UpToZero(bytes)) }

  // ---------------------------------------------------------------- the frames of a track

  function Ascii(s: string): seq<byte> { Iso8859Bytes(s) }

  function TextFrame(id: string, value: string): Frame { Frame(Ascii(id), TextPayload(value)) }

  function UserFrame(description: string, value: string): Frame {
    Frame(Ascii("TXXX"), TxxxPayload(description, value))
  }

  function OptionalText(id: string, value: Option<string>): seq<Frame> {
    if value == None then [] else [TextFrame(id, value.value)]
  }

  function Lookup(texts: Option<TT.Texts>, field: TT.TextField): Option<string> {
    if texts == None then None
    else if TT.Known(field, false) in texts.value then Some(texts.value[TT.Known(field, false)])
    else if TT.Known(field, true) in texts.value then Some(texts.value[TT.Known(field, true)])
    else None
  }

  function Or(a: Option<string>, b: Option<string>): Option<string> { if a.Some? then a else b }

  function AlbumFrames(m: Metadata): seq<Frame> {
    if m.text == None then []
    else
      OptionalText("TALB", m.text.value.albumTitle) +
      match (m.text.value.albumTitle, m.text.value.discTitle)
      case (Some(album), Some(disc)) =>
        if disc != album || m.master.albumSetSize > 1 then [UserFrame("DISCSUBTITLE", disc)] else []
      case (None, Some(disc)) => [TextFrame("TALB", disc)]
      case (_, None) => []
  }

  function ArtistFrames(m: Metadata): seq<Frame> {
    var performer := Lookup(m.trackTexts, TT.Performer);
    var fallback := if m.text == None then None else Or(m.text.value.discArtist, m.text.value.albumArtist);
    OptionalText("TPE1", Or(performer, fallback))
    + (if m.text == None then [] else OptionalText("TPE2", m.text.value.albumArtist))
    + (if performer == None then [] else [UserFrame("PERFORMER", performer.value)])
  }

  function CatalogFrames(m: Metadata): seq<Frame> {
    var disc, album := AsciiTrim(m.master.discCatalog), AsciiTrim(m.master.albumCatalog);
    if disc == "" then
      if album == "" then [] else [UserFrame("Catalog Number", album)]
    else
      [UserFrame("Catalog Number", disc)]
      + if album == "" || album == disc then [] else [UserFrame("Album Catalog Number", album)]
  }

  /** Present if any of its parts is, country code or not. */
  function IsrcFrames(m: Metadata): seq<Frame> {
    if m.isrc == None then []
    else
      var i := m.isrc.value;
      if HasText(i.country) || HasText(i.owner) || HasText(i.year) || HasText(i.designation) then
        [TextFrame("TSRC", Concatenated([i.country, i.owner, i.year, i.designation]))]
      else []
  }

  predicate HasText(bytes: seq<byte>) { bytes != [] && bytes[0] != 0 }

  function FirstGeneral(genres: seq<Genre>): Option<Genre> {
    if genres == [] then None
    else if genres[0].category == 1 then Some(genres[0])
    else FirstGeneral(genres[1..])
  }

  function ChosenGenre(m: Metadata): Option<Genre> {
    if m.trackGenre.Some? && m.trackGenre.value.category == 1 then m.trackGenre
    else if FirstGeneral(m.master.discGenres).Some? then FirstGeneral(m.master.discGenres)
    else FirstGeneral(m.master.albumGenres)
  }

  function GenreFrames(m: Metadata): seq<Frame> {
    var g := ChosenGenre(m);
    if g.Some? && 0 < g.value.genre < |GENRE_NAMES| then [TextFrame("TCON", GENRE_NAMES[g.value.genre])] else []
  }

  function TitleFrame(m: Metadata): Frame {
    var title := Lookup(m.trackTexts, TT.Title);
    TextFrame("TIT2", if title.Some? then title.value else "no track title")
  }

  /** The title, the album, and the people. */
  function NameFrames(m: Metadata): seq<Frame> {
    [TitleFrame(m)] + AlbumFrames(m) + ArtistFrames(m) + OptionalText("TCOM", Lookup(m.trackTexts, TT.Composer))
  }

  function PartOfSet(m: Metadata): Frame {
    var setSize := if m.master.albumSetSize > 1 then m.master.albumSetSize else 1;
    TextFrame("TPOS", Decimal(m.master.albumSequenceNumber) + "/" + Decimal(setSize))
  }

  function DateFrames(m: Metadata): seq<Frame> {
    [TextFrame("TYER", Padded(m.master.year, 4)),
     TextFrame("TDAT", Padded(m.master.day, 2) + Padded(m.master.month, 2)),
     TextFrame("TRCK", Decimal(m.trackIdx + 1) + "/" + Decimal(m.trackCount))]
  }

  /** Catalogue numbers, codes, genre, and dates. */
  function NumberFrames(m: Metadata): seq<Frame> {
    CatalogFrames(m) + IsrcFrames(m) + [PartOfSet(m)] + GenreFrames(m) + DateFrames(m)
  }

  /** All frames, in the order they are written. */
  function Frames(m: Metadata): seq<Frame> { NameFrames(m) + NumberFrames(m) }

  // ---------------------------------------------------------------- the code

  method EncodeIso8859(s: string) returns (v: seq<byte>)
    ensures v == Iso8859Bytes(s)
  {
    v := [];
    for i := 0 to |s|
      invariant v == Iso8859Bytes(s[..i])
    {
      var n := s[i] as int;
      v := v + [if n <= 0xFF then n else '?' as int];
      assert s[..i + 1] == s[..i] + [s[i]];
    }
    assert s[..|s|] == s;
  }

  /** Appends the bytes before the first zero. */
  method AppendUpToZero(s: string, bytes: seq<byte>) returns (r: string)
    ensures r == s + UpToZero(bytes)
  {
    r := s;
    var i := 0;
    while i < |bytes|
      invariant i <= |bytes| && NextZero(bytes, 0) == NextZero(bytes, i)
      invariant r == s + FromLatin1(bytes[..i])
    {
      if bytes[i] == 0 {
        break;
      }
      r := r + [bytes[i] as char];
      assert FromLatin1(bytes[..i + 1]) == FromLatin1(bytes[..i]) + [bytes[i] as char];
      i := i + 1;
    }
  }

  method TrimmedAscii(bytes: seq<byte>) returns (r: string)
    ensures r == AsciiTrim(bytes)
  {
    var s := AppendUpToZero("", bytes);
    assert "" + UpToZero(bytes) == UpToZero(bytes);
    r := Trim(s);
  }

  function Concatenated(parts: seq<seq<byte>>): string {
    if parts == [] then "" else Concatenated(parts[..|parts| - 1]) + UpToZero(parts[|parts| - 1])
  }

  method AsciiConcat(parts: seq<seq<byte>>) returns (s: string)
    ensures s == Concatenated(parts)
  {
    s := "";
    for i := 0 to |parts|
      invariant s == Concatenated(parts[..i])
    {
      s := AppendUpToZero(s, parts[i]);
      assert parts[..i + 1][..i] == parts[..i];
    }
    assert parts[..|parts|] == parts;
  }

  /** The growing list of frames; `frames` is what its bytes stand for. */
  class FrameBuffer {
    var bytes: seq<byte>
    ghost var frames: seq<Frame>

    ghost predicate Valid()
      reads this
    {
      bytes == Body(frames)
    }

    constructor ()
      ensures Valid() && frames == []
    {
      bytes := [];
      frames := [];
    }

    method PushFrame(id: seq<byte>, payload: seq<byte>)
      requires Valid()
      modifies this
      ensures Valid() && frames == old(frames) + [Frame(id, payload)]
    {
      var frame := id;
      frame := frame + BigEndian(|payload|, 4);
      frame := frame + [0, 0];
      frame := frame + payload;
      bytes := bytes + frame;
      BodySnoc(frames, Frame(id, payload));
      frames := frames + [Frame(id, payload)];
    }

    method AddText(id: string, value: string)
      requires Valid()
      modifies this
      ensures Valid() && frames == old(frames) + [TextFrame(id, value)]
    {
      var encoded := EncodeIso8859(value);
      PushFrame(Ascii(id), [0] + encoded + [0]);
    }

    method AddTxxx(description: string, value: string)
      requires Valid()
      modifies this
      ensures Valid() && frames == old(frames) + [UserFrame(description, value)]
    {
      var first := EncodeIso8859(description);
      var second := EncodeIso8859(value);
      PushFrame(Ascii("TXXX"), [0] + first + [0] + second + [0]);
    }

    method AddOptionalText(id: string, value: Option<string>)
      requires Valid()
      modifies this
      ensures Valid() && frames == old(frames) + OptionalText(id, value)
    {
      if value.Some? {
        AddText(id, value.value);
      }
    }

    method AddAlbum(m: Metadata)
      requires Valid()
      modifies this
      ensures Valid() && frames == old(frames) + AlbumFrames(m)
    {
      if m.text.Some? {
        var albumTitle, discTitle := m.text.value.albumTitle, m.text.value.discTitle;
        AddOptionalText("TALB", albumTitle);
        if albumTitle.Some? && discTitle.Some? {
          if discTitle.value != albumTitle.value || m.master.albumSetSize > 1 {
            AddTxxx("DISCSUBTITLE", discTitle.value);
          }
        } else if discTitle.Some? {
          AddText("TALB", discTitle.value);
        }
      }
    }

    method AddArtists(m: Metadata)
      requires Valid()
      modifies this
      ensures Valid() && frames == old(frames) + ArtistFrames(m)
    {
      var performer := Lookup(m.trackTexts, TT.Performer);
      var artist := performer;
      if artist == None && m.text.Some? {
        artist := Or(m.text.value.discArtist, m.text.value.albumArtist);
      }
      AddOptionalText("TPE1", artist);
      if m.text.Some? {
        AddOptionalText("TPE2", m.text.value.albumArtist);
      }
      if performer.Some? {
        AddTxxx("PERFORMER", performer.value);
      }
    }

    method AddCatalogNumbers(m: Metadata)
      requires Valid()
      modifies this
      ensures Valid() && frames == old(frames) + CatalogFrames(m)
    {
      var disc := TrimmedAscii(m.master.discCatalog);
      if disc != "" {
        AddTxxx("Catalog Number", disc);
      }
      var album := TrimmedAscii(m.master.albumCatalog);
      if album != "" {
        if disc == "" {
          AddTxxx("Catalog Number", album);
        } else if album != disc {
          AddTxxx("Album Catalog Number", album);
        }
      }
    }

    method AddIsrc(m: Metadata)
      requires Valid()
      modifies this
      ensures Valid() && frames == old(frames) + IsrcFrames(m)
    {
      if m.isrc.Some? {
        var i := m.isrc.value;
        if HasText(i.country) || HasText(i.owner) || HasText(i.year) || HasText(i.designation) {
          var code := AsciiConcat([i.country, i.owner, i.year, i.designation]);
          AddText("TSRC", code);
        }
      }
    }

    method AddGenre(m: Metadata)
      requires Valid()
      modifies this
      ensures Valid() && frames == old(frames) + GenreFrames(m)
    {
      var g := ChosenGenre(m);
      if g.Some? && 0 < g.value.genre < |GENRE_NAMES| {
        AddText("TCON", GENRE_NAMES[g.value.genre]);
      }
    }

    method AddNames(m: Metadata)
      requires Valid()
      modifies this
      ensures Valid() && frames == old(frames) + NameFrames(m)
    {
      var title := Lookup(m.trackTexts, TT.Title);
      AddText("TIT2", if title.Some? then title.value else "no track title");
      AddAlbum(m);
      AddArtists(m);
      AddOptionalText("TCOM", Lookup(m.trackTexts, TT.Composer));
      ConcatFour(old(frames), [TitleFrame(m)], AlbumFrames(m), ArtistFrames(m),
                 OptionalText("TCOM", Lookup(m.trackTexts, TT.Composer)));
    }

    method AddPartOfSet(m: Metadata)
      requires Valid()
      modifies this
      ensures Valid() && frames == old(frames) + [PartOfSet(m)]
    {
      var setSize := if m.master.albumSetSize > 1 then m.master.albumSetSize else 1;
      AddText("TPOS", Decimal(m.master.albumSequenceNumber) + "/" + Decimal(setSize));
    }

    method AddDates(m: Metadata)
      requires Valid()
      modifies this
      ensures Valid() && frames == old(frames) + DateFrames(m)
    {
      AddText("TYER", Padded(m.master.year, 4));
      AddText("TDAT", Padded(m.master.day, 2) + Padded(m.master.month, 2));
      AddText("TRCK", Decimal(m.trackIdx + 1) + "/" + Decimal(m.trackCount));
    }

    method AddNumbers(m: Metadata)
      requires Valid()
      modifies this
      ensures Valid() && frames == old(frames) + NumberFrames(m)
    {
      AddCatalogNumbers(m);
      AddIsrc(m);
      AddPartOfSet(m);
      AddGenre(m);
      AddDates(m);
      ConcatFour(old(frames), CatalogFrames(m), IsrcFrames(m), [PartOfSet(m)], GenreFrames(m));
      Assoc(old(frames), CatalogFrames(m) + IsrcFrames(m) + [PartOfSet(m)] + GenreFrames(m), DateFrames(m));
    }
  }

  lemma {:induction false} ConcatFour<T>(s: seq<T>, a: seq<T>, b: seq<T>, c: seq<T>, d: seq<T>)
    ensures s + a + b + c + d == s + (a + b + c + d)
  {
  }

  lemma {:induction false} BodySnoc(frames: seq<Frame>, last: Frame)
    ensures Body(frames + [last]) == Body(frames) + FrameBytes(last)
  {
    TakeDrop(frames, [last]);
  }

  /** The footer's bytes are the tag of the track's frames. */
  method RenderId3(m: Metadata) returns (out: seq<byte>)
    ensures out == Tag(Frames(m))
  {
    var buffer := new FrameBuffer();
    buffer.AddNames(m);
    buffer.AddNumbers(m);
    assert buffer.frames == Frames(m) by {
      assert [] + NameFrames(m) == NameFrames(m);
    }
    out := HEADER;
    out := out + SyncSafe(|buffer.bytes|);
    out := out + buffer.bytes;
  }
}
