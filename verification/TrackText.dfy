/** The per-track text table of an area TOC. */
module TrackText {
  import opened Bytes

  const SECTOR: nat := 2048

  datatype TextField = Title | Performer | Songwriter | Composer | Arranger | Message | ExtraMessage | Copyright

  datatype TextType = Known(field: TextField, phonetic: bool) | Unknown(code: byte)

  function FieldOf(n: nat): Option<TextField> {
    match n
    case 1 => Some(Title)
    case 2 => Some(Performer)
    case 3 => Some(Songwriter)
    case 4 => Some(Composer)
    case 5 => Some(Arranger)
    case 6 => Some(Message)
    case 7 => Some(ExtraMessage)
    case 8 => Some(Copyright)
    case _ => None
  }

  /** Codes 0x01 to 0x08, and the same from 0x81 on for phonetic text. */
  function TypeOf(code: byte): TextType {
    var f := FieldOf(code % 128);
    if f == None then Unknown(code) else Known(f.value, code >= 128)
  }

  /** The fields in the order of their codes. */
  const FIELDS: seq<TextField> :=
    [Title, Performer, Songwriter, Composer, Arranger, Message, ExtraMessage, Copyright]

  lemma {:induction false} TypeOfCode(code: byte)
    ensures 1 <= code <= 8 ==> TypeOf(code) == Known(FIELDS[code - 1], false)
    ensures 0x81 <= code <= 0x88 ==> TypeOf(code) == Known(FIELDS[code - 0x81], true)
    ensures !(1 <= code <= 8 || 0x81 <= code <= 0x88) ==> TypeOf(code).Unknown?
  {
  }

  /** The texts of one track, by type; a type without text is absent. */
  type Texts = map<TextType, string>

  function SetText(texts: Texts, kind: TextType, text: string): Texts {
    if text == "" || kind.Unknown? then texts else texts[kind := text]
  }

  datatype TextError = OffsetBeyondData | InvalidSignature

  const SIGNATURE: seq<byte> := [0x53, 0x41, 0x43, 0x44, 0x54, 0x54, 0x78, 0x74]

  // ---------------------------------------------------------------- walking the items

  function NextNonZero(data: seq<byte>, at: nat): (p: nat)
    requires at <= |data|
    ensures at <= p <= |data|
    ensures forall i :: at <= i < p ==> data[i] == 0
    ensures p < |data| ==> data[p] != 0
    decreases |data| - at
  {
    if at == |data| || data[at] != 0 then at else NextNonZero(data, at + 1)
  }

  function BigEndian16(high: byte, low: byte): nat { (high as int) * 256 + (low as int) }

  /** What a track's texts become with one more item. */
  function Adding(lossy: seq<byte> -> string): (Texts, byte, seq<byte>) -> Texts {
    (texts: Texts, code: byte, text: seq<byte>) => SetText(texts, TypeOf(code), lossy(text))
  }

  /**
   * The `n` items from `at` on: a type byte, a padding byte, a string, its terminator, and zeros.
   * Each is added to what the ones before it have made.
   */
  function Items<T>(data: seq<byte>, at: nat, n: nat, acc: T, add: (T, byte, seq<byte>) -> T): T
    decreases n
  {
    if n == 0 || at + 2 >= |data| then acc
    else
      var end := NextZero(data, at + 2);
      if end == |data| then acc
      else Items(data, NextNonZero(data, end + 1), n - 1, add(acc, data[at], data[at + 2..end]), add)
  }

  /** The texts of track `idx`, whose position is entry `idx` of the table after the signature. */
  function TrackTexts(data: seq<byte>, table: nat, idx: nat, lossy: seq<byte> -> string): Texts {
    var entry := table + 8 + 2 * idx;
    if entry + 2 > |data| then map[]
    else
      var position: nat := BigEndian16(data[entry], data[entry + 1]);
      var at := table + position;
      if position == 0 || at >= |data| then map[]
      else Items(data, at + 4, data[at], map[], Adding(lossy))
  }

  /** One turn of the walk. */
  lemma {:induction false} ItemsUnfold<T>(data: seq<byte>, at: nat, n: nat, acc: T, end: nat, add: (T, byte,
                                          seq<byte>) -> T)
    requires n > 0 && at + 2 <= end < |data| && NextZero(data, at + 2) == end
    ensures Items(data, at, n, acc, add)
         == Items(data, NextNonZero(data, end + 1), n - 1, add(acc, data[at], data[at + 2..end]), add)
  {
  }

  /** With `n` items to come, going on from `next` with `longer` gives the same result. */
  predicate Turned(data: seq<byte>, at: nat, n: nat, texts: Texts, next: nat, longer: Texts, lossy: seq<byte> -> string)
    requires n > 0
  {
    Items(data, at, n, texts, Adding(lossy)) == Items(data, next, n - 1, longer, Adding(lossy))
  }

  lemma {:induction false} OneTurn(data: seq<byte>, at: nat, n: nat, texts: Texts, end: nat, next: nat, longer: Texts,
                lossy: seq<byte> -> string)
    requires n > 0 && at + 2 <= end < |data| && NextZero(data, at + 2) == end && next == NextNonZero(data, end + 1)
    requires longer == SetText(texts, TypeOf(data[at]), lossy(data[at + 2..end]))
    ensures Turned(data, at, n, texts, next, longer, lossy)
  {
    ItemsUnfold(data, at, n, texts, end, Adding(lossy));
    assert Adding(lossy)(texts, data[at], data[at + 2..end]) == longer;
  }

  method SkipToZero(data: seq<byte>, start: nat) returns (ptr: nat)
    requires start <= |data|
    ensures ptr == NextZero(data, start)
  {
    ptr := start;
    while ptr < |data| && data[ptr] != 0
      invariant start <= ptr <= |data|
      invariant NextZero(data, start) == NextZero(data, ptr)
    {
      ptr := ptr + 1;
    }
  }

  method SkipZeros(data: seq<byte>, start: nat) returns (ptr: nat)
    requires start <= |data|
    ensures ptr == NextNonZero(data, start)
  {
    ptr := start;
    while ptr < |data| && data[ptr] == 0
      invariant start <= ptr <= |data|
      invariant NextNonZero(data, start) == NextNonZero(data, ptr)
    {
      ptr := ptr + 1;
    }
  }

  /** One turn of the loop over the items; `left` items are still to come. */
  method WalkItem(data: seq<byte>, start: nat, texts: Texts, lossy: seq<byte> -> string, ghost left: nat)
    returns (stop: bool, next: nat, longer: Texts)
    requires left > 0
    ensures stop ==> Items(data, start, left, texts, Adding(lossy)) == texts
    ensures !stop ==> Turned(data, start, left, texts, next, longer, lossy)
  {
    var ptr := start;
    stop, next, longer := true, ptr, texts;
    if ptr >= |data| {
      return;
    }
    var textType := TypeOf(data[ptr]);
    ptr := ptr + 1;
    if ptr >= |data| {
      return;
    }
    ptr := ptr + 1;
    if ptr >= |data| {
      return;
    }
    var end := SkipToZero(data, ptr);
    if end >= |data| {
      return;
    }
    longer := SetText(texts, textType, lossy(data[ptr..end]));
    next := SkipZeros(data, end + 1);
    stop := false;
    OneTurn(data, start, left, texts, end, next, longer, lossy);
  }

  /** The items of one track, as the code walks them. */
  method WalkItems(data: seq<byte>, start: nat, nItems: nat, lossy: seq<byte> -> string) returns (texts: Texts)
    ensures texts == Items(data, start, nItems, map[], Adding(lossy))
  {
    texts := map[];
    var ptr: nat := start;
    for i := 0 to nItems
      invariant Items(data, start, nItems, map[], Adding(lossy)) == Items(data, ptr, nItems - i, texts, Adding(lossy))
    {
      var stop, next, longer := WalkItem(data, ptr, texts, lossy, nItems - i);
      if stop {
        return;
      }
      texts, ptr := longer, next;
    }
  }

  method ReadTrack(data: seq<byte>, table: nat, idx: nat, lossy: seq<byte> -> string) returns (texts: Texts)
    ensures texts == TrackTexts(data, table, idx, lossy)
  {
    texts := map[];
    var entry := table + 8 + 2 * idx;
    if entry + 2 > |data| {
      return;
    }
    var position: nat := BigEndian16(data[entry], data[entry + 1]);
    if position == 0 {
      return;
    }
    var at := table + position;
    if at >= |data| {
      return;
    }
    texts := WalkItems(data, at + 4, data[at], lossy);
  }

  /** Every index is checked before it is used, so any bytes at all are accepted. */
  method ParseTrackText(data: seq<byte>, offset: nat, trackCount: byte, lossy: seq<byte> -> string)
    returns (r: Result<seq<Texts>, TextError>)
    ensures offset == 0 ==> r == Ok(seq(trackCount, _ => map[]))
    ensures offset != 0 ==>
              var table := offset * 2048;
              if table + 8 > |data| then r == Err(OffsetBeyondData)
              else if data[table..table + 8] != Named("SACDTTxt") then r == Err(InvalidSignature)
              else r.Ok? && |r.value| == trackCount &&
                   forall i :: 0 <= i < trackCount ==> r.value[i] == TrackTexts(data, table, i, lossy)
  {
    if offset == 0 {
      return Ok(seq(trackCount, _ => map[]));
    }
    var table := offset * SECTOR;
    if table + 8 > |data| {
      return Err(OffsetBeyondData);
    }
    assert SIGNATURE == Named("SACDTTxt");
    if data[table..table + 8] != SIGNATURE {
      return Err(InvalidSignature);
    }
    var all: seq<Texts> := [];
    for i := 0 to trackCount
      invariant |all| == i
      invariant forall k :: 0 <= k < i ==> all[k] == TrackTexts(data, table, k, lossy)
    {
      var texts := ReadTrack(data, table, i, lossy);
      all := all + [texts];
    }
    return Ok(all);
  }

  // ---------------------------------------------------------------- round trip

  /** An item as it is laid out: any type byte but zero, any padding byte, and some zeros after it. */
  datatype Item = Item(code: byte, padding: byte, text: seq<byte>, zeros: nat) {
    predicate Legal() {
      code != 0 && 0 !in text
    }

    function Encode(): seq<byte> { [code, padding] + text + [0] + Zeros(zeros) }
  }

  function EncodeItems(items: seq<Item>): seq<byte> {
    if items == [] then [] else items[0].Encode() + EncodeItems(items[1..])
  }

  /** For each known type the last non-empty text, later items overriding earlier ones. */
  function LastTexts(items: seq<Item>, texts: Texts, lossy: seq<byte> -> string): Texts {
    Folded(items, texts, Adding(lossy))
  }

  function Folded<T>(items: seq<Item>, acc: T, add: (T, byte, seq<byte>) -> T): T
    decreases |items|
  {
    if items == [] then acc else Folded(items[1..], add(acc, items[0].code, items[0].text), add)
  }

  /** The walk skips at least the item's own zeros, and stops at the next type byte. */
  lemma {:induction false} NextNonZeroAt(data: seq<byte>, at: nat, end: nat)
    requires at <= end <= |data| && forall i :: at <= i < end ==> data[i] == 0
    ensures NextNonZero(data, at) >= end
    ensures end < |data| && data[end] != 0 ==> NextNonZero(data, at) == end
  {
  }

  lemma {:induction false} ItemParts(data: seq<byte>, at: nat, item: Item)
    requires item.Legal() && HoldsAt(data, at, item.Encode())
    ensures var end := at + 2 + |item.text|;
            var next := end + 1 + item.zeros;
            && next == at + |item.Encode()| <= |data|
            && data[at] == item.code && data[at + 2..end] == item.text
            && NextZero(data, at + 2) == end
            && forall i :: end + 1 <= i < next ==> data[i] == 0
  {
    var e := item.Encode();
    var end := at + 2 + |item.text|;
    assert forall i :: 0 <= i < |e| ==> data[at..at + |e|][i] == e[i] == data[at + i];
    forall i | at + 2 <= i < end ensures data[i] == item.text[i - at - 2] && data[i] != 0 {
      assert e[i - at] == item.text[i - at - 2];
    }
    assert e[2 + |item.text|] == 0;
    assert data[end] == 0;
    NextZeroIs(data, at + 2, end);
    forall i | end + 1 <= i < end + 1 + item.zeros ensures data[i] == 0 {
      assert e[i - at] == 0;
    }
  }

  /** One item is read, and the walk goes on behind its zeros, and any further ones. */
  lemma {:induction false} OneItem<T>(data: seq<byte>, at: nat, item: Item, n: nat, acc: T, add: (T, byte,
                                      seq<byte>) -> T)
    returns (p: nat)
    requires item.Legal() && HoldsAt(data, at, item.Encode()) && n > 0
    ensures Items(data, at, n, acc, add) == Items(data, p, n - 1, add(acc, item.code, item.text), add)
    ensures var next := at + |item.Encode()|;
            next < |data| && data[next] != 0 ==> p == next
  {
    ItemParts(data, at, item);
    var end := at + 2 + |item.text|;
    NextNonZeroAt(data, end + 1, at + |item.Encode()|);
    p := NextNonZero(data, end + 1);
    ItemsUnfold(data, at, n, acc, end, add);
  }

  lemma {:induction false} FirstItem(data: seq<byte>, at: nat, items: seq<Item>)
    requires items != [] && HoldsAt(data, at, EncodeItems(items))
    ensures HoldsAt(data, at, items[0].Encode())
  {
    var first, later := items[0].Encode(), EncodeItems(items[1..]);
    TakeDrop(first, later);
    SubSlice(data, at, first + later, 0, |first|);
  }

  lemma {:induction false} NextItem(data: seq<byte>, at: nat, items: seq<Item>)
    requires |items| > 1 && HoldsAt(data, at, EncodeItems(items)) && items[1].Legal()
    ensures var next := at + |items[0].Encode()|;
            && HoldsAt(data, next, EncodeItems(items[1..]))
            && next < |data| && data[next] == items[1].code != 0
  {
    var first, later := items[0].Encode(), EncodeItems(items[1..]);
    TakeDrop(first, later);
    SubSlice(data, at, first + later, 0, |first|);
    SubSlice(data, at, first + later, |first|, |later|);
    assert later == items[1].Encode() + EncodeItems(items[1..][1..]);
    assert data[at + |first|] == later[0];
  }

  /** Items laid out one after the other are read back in order. */
  lemma {:induction false} ItemsRoundTrip<T>(data: seq<byte>, at: nat, items: seq<Item>, acc: T, add: (T, byte,
                                             seq<byte>) -> T)
    requires HoldsAt(data, at, EncodeItems(items)) && forall i :: 0 <= i < |items| ==> items[i].Legal()
    ensures Items(data, at, |items|, acc, add) == Folded(items, acc, add)
    decreases |items|
  {
    if items != [] {
      FirstItem(data, at, items);
      var p := OneItem(data, at, items[0], |items|, acc, add);
      if |items| > 1 {
        NextItem(data, at, items);
        ItemsRoundTrip(data, p, items[1..], add(acc, items[0].code, items[0].text), add);
      }
    }
  }

  /** A track's block: the number of items, three reserved bytes, and the items. */
  predicate HasItems(data: seq<byte>, table: nat, idx: nat, items: seq<Item>) {
    var entry := table + 8 + 2 * idx;
    && entry + 2 <= |data| && |items| < 256
    && (forall i :: 0 <= i < |items| ==> items[i].Legal())
    && var position: nat := 256 * (data[entry] as int) + data[entry + 1];
       && position != 0 && table + position < |data|
       && data[table + position] == |items|
       && HoldsAt(data, table + position + 4, EncodeItems(items))
  }

  /**
   * For any layout of a track's items, `parse_track_text` recovers for every known type the last
   * non-empty text.
   */
  lemma {:induction false} TrackRoundTrip(data: seq<byte>, table: nat, idx: nat, items: seq<Item>,
                                          lossy: seq<byte> -> string)
    requires HasItems(data, table, idx, items)
    ensures TrackTexts(data, table, idx, lossy) == LastTexts(items, map[], lossy)
  {
    var entry := table + 8 + 2 * idx;
    var at := table + (256 * (data[entry] as int) + data[entry + 1]);
    BlockOf(data, table, idx, at, lossy);
    BlockRoundTrip(data, at, items, lossy);
  }

  lemma {:induction false} BlockRoundTrip(data: seq<byte>, at: nat, items: seq<Item>, lossy: seq<byte> -> string)
    requires at < |data| && data[at] == |items| && HoldsAt(data, at + 4, EncodeItems(items))
    requires forall i :: 0 <= i < |items| ==> items[i].Legal()
    ensures Items(data, at + 4, data[at], map[], Adding(lossy)) == LastTexts(items, map[], lossy)
  {
    ItemsRoundTrip(data, at + 4, items, map[], Adding(lossy));
  }

  lemma {:induction false} BlockOf(data: seq<byte>, table: nat, idx: nat, at: nat, lossy: seq<byte> -> string)
    requires table + 8 + 2 * idx + 2 <= |data| && table < at < |data|
    requires var entry := table + 8 + 2 * idx; at == table + (256 * (data[entry] as int) + data[entry + 1])
    ensures TrackTexts(data, table, idx, lossy) == Items(data, at + 4, data[at], map[], Adding(lossy))
  {
  }

  // ---------------------------------------------------------------- damaged tables

  /** An item whose text does not end before the data does ends the walk, and is not stored. */
  lemma {:induction false} UnterminatedItem<T>(data: seq<byte>, at: nat, n: nat, acc: T,
                                               add: (T, byte, seq<byte>) -> T)
    requires forall i :: at + 2 <= i < |data| ==> data[i] != 0
    ensures Items(data, at, n, acc, add) == acc
  {
    if n > 0 && at + 2 < |data| {
      var end := NextZero(data, at + 2);
      assert end == |data|;
    }
  }

  /** A track whose table entry is missing, zero, or points behind the data has no texts. */
  lemma {:induction false} NoBlock(data: seq<byte>, table: nat, idx: nat, lossy: seq<byte> -> string)
    requires var entry := table + 8 + 2 * idx;
             || entry + 2 > |data|
             || data[entry] == data[entry + 1] == 0
             || table + (256 * (data[entry] as int) + data[entry + 1]) >= |data|
    ensures TrackTexts(data, table, idx, lossy) == map[]
  {
  }

  // ---------------------------------------------------------------- which text is kept

  /** Item `k` is of a field, plain or phonetic, and has a text. */
  predicate HasField(item: Item, field: TextField, phonetic: bool, lossy: seq<byte> -> string) {
    && lossy(item.text) != ""
    && exists n :: 0 <= n < 8 && FIELDS[n] == field && item.code as int == n + if phonetic then 0x81 else 1
  }

  /** What "last" means, by the codes of the items: the last text of a field is the one that is kept. */
  lemma {:induction false} LastOfField(items: seq<Item>, k: nat, field: TextField, phonetic: bool,
                                       lossy: seq<byte> -> string)
    requires k < |items| && HasField(items[k], field, phonetic, lossy)
    requires forall i :: k < i < |items| ==> !HasField(items[i], field, phonetic, lossy)
    ensures var texts := LastTexts(items, map[], lossy);
            Known(field, phonetic) in texts && texts[Known(field, phonetic)] == lossy(items[k].text)
  {
    FieldCode(items[k], field, phonetic, lossy);
    forall i | k < i < |items|
      ensures TypeOf(items[i].code) != TypeOf(items[k].code) || lossy(items[i].text) == ""
    {
      FieldCode(items[i], field, phonetic, lossy);
    }
    LastWins(items, k, map[], lossy);
  }

  lemma {:induction false} FieldCode(item: Item, field: TextField, phonetic: bool, lossy: seq<byte> -> string)
    ensures HasField(item, field, phonetic, lossy) <==>
              lossy(item.text) != "" && TypeOf(item.code) == Known(field, phonetic)
  {
    TypeOfCode(item.code);
    if TypeOf(item.code) == Known(field, phonetic) {
      var n := (item.code as int) - if phonetic then 0x81 else 1;
      assert 0 <= n < 8 && FIELDS[n] == field;
    }
  }

  /** And a field without any text is absent. */
  lemma {:induction false} NoneOfField(items: seq<Item>, field: TextField, phonetic: bool, lossy: seq<byte> -> string)
    requires forall i :: 0 <= i < |items| ==> !HasField(items[i], field, phonetic, lossy)
    ensures Known(field, phonetic) !in LastTexts(items, map[], lossy)
  {
    forall i | 0 <= i < |items|
      ensures TypeOf(items[i].code) != Known(field, phonetic) || lossy(items[i].text) == ""
    {
      FieldCode(items[i], field, phonetic, lossy);
    }
    OthersKeep(items, Known(field, phonetic), map[], lossy);
  }

  /** In general: item `k` decides, if no later item of its type has a text. */
  lemma {:induction false} LastWins(items: seq<Item>, k: nat, texts: Texts, lossy: seq<byte> -> string)
    requires k < |items| && lossy(items[k].text) != "" && TypeOf(items[k].code).Known?
    requires forall i :: k < i < |items| ==>
               TypeOf(items[i].code) != TypeOf(items[k].code) || lossy(items[i].text) == ""
    ensures TypeOf(items[k].code) in LastTexts(items, texts, lossy)
    ensures LastTexts(items, texts, lossy)[TypeOf(items[k].code)] == lossy(items[k].text)
    decreases |items|
  {
    var stored := SetText(texts, TypeOf(items[0].code), lossy(items[0].text));
    if k > 0 {
      LastWins(items[1..], k - 1, stored, lossy);
    } else {
      OthersKeep(items[1..], TypeOf(items[0].code), stored, lossy);
    }
  }

  lemma {:induction false} OthersKeep(items: seq<Item>, kind: TextType, texts: Texts, lossy: seq<byte> -> string)
    requires forall i :: 0 <= i < |items| ==> TypeOf(items[i].code) != kind || lossy(items[i].text) == ""
    ensures kind in LastTexts(items, texts, lossy) <==> kind in texts
    ensures kind in texts ==> LastTexts(items, texts, lossy)[kind] == texts[kind]
    decreases |items|
  {
    if items != [] {
      OthersKeep(items[1..], kind, SetText(texts, TypeOf(items[0].code), lossy(items[0].text)), lossy);
    }
  }
}
