/** The track selection of the command line, such as "1-3,5". */
module TrackSelection {
  import opened Bytes
  import opened Text

  const USIZE_MAX: nat := 0xFFFF_FFFF_FFFF_FFFF

  datatype SelectionError = InvalidRange | InvalidNumber | ZeroTrack | Backwards

  /** An inclusive range of track numbers. */
  datatype Range = Range(first: int, last: int)

  type Span = r: Range | 1 <= r.first <= r.last <= USIZE_MAX witness Range(1, 1)

  /** Digits, with an optional plus sign, up to the largest `usize`. */
  function ParseUsize(s: string): Option<nat> {
    var digits := if s != "" && s[0] == '+' then s[1..] else s;
    if digits == "" || !AllDigits(digits) || Value(digits) > USIZE_MAX then None else Some(Value(digits))
  }

  /** What one part of the selection stands for. */
  function PartSpan(untrimmed: string): Result<Span, SelectionError> {
    var part := Trim(untrimmed);
    if '-' in part then
      var ends := Split(part, '-');
      if |ends| != 2 then Err(InvalidRange)
      else
        var first, last := ParseUsize(ends[0]), ParseUsize(ends[1]);
        if first == None || last == None then Err(InvalidNumber)
        else if first.value == 0 || last.value == 0 then Err(ZeroTrack)
        else if first.value > last.value then Err(Backwards)
        else Ok(Range(first.value, last.value))
    else
      var track := ParseUsize(part);
      if track == None then Err(InvalidNumber)
      else if track.value == 0 then Err(ZeroTrack)
      else Ok(Range(track.value, track.value))
  }

  /** Some span holds the track. */
  predicate Covered(spans: seq<Span>, x: int) {
    exists i :: 0 <= i < |spans| && spans[i].first <= x <= spans[i].last
  }

  predicate AllParsed(parts: seq<string>, spans: seq<Span>) {
    |spans| == |parts| && forall i :: 0 <= i < |parts| ==> PartSpan(parts[i]) == Ok(spans[i])
  }

  /** Every part is well formed, and the list holds exactly the tracks of their spans. */
  ghost predicate IsUnion(parts: seq<string>, list: seq<nat>) {
    exists spans: seq<Span> :: AllParsed(parts, spans) && forall x :: x in list <==> Covered(spans, x)
  }

  /** The part at `i` is the first one that is wrong. */
  predicate FirstError(parts: seq<string>, i: nat, e: SelectionError) {
    i < |parts| && PartSpan(parts[i]) == Err(e) && forall j :: 0 <= j < i ==> PartSpan(parts[j]).Ok?
  }

  predicate Increasing(s: seq<nat>) { forall i, j :: 0 <= i < j < |s| ==> s[i] < s[j] }

  predicate Distinct(s: seq<nat>) { forall i, j :: 0 <= i < j < |s| ==> s[i] != s[j] }

  // ---------------------------------------------------------------- sorting

  function Insert(x: nat, s: seq<nat>): (r: seq<nat>)
    ensures forall y :: y in r <==> y == x || y in s
  {
    if s == [] then [x]
    else if x <= s[0] then [x] + s
    else
      assert s == [s[0]] + s[1..];
      [s[0]] + Insert(x, s[1..])
  }

  function Sorted(s: seq<nat>): (r: seq<nat>)
    ensures forall y :: y in r <==> y in s
  {
    if s == [] then []
    else
      assert s == [s[0]] + s[1..];
      Insert(s[0], Sorted(s[1..]))
  }

  lemma {:induction false} InsertIncreases(x: nat, s: seq<nat>)
    requires Increasing(s) && x !in s
    ensures Increasing(Insert(x, s))
  {
    if s != [] && x > s[0] {
      InsertIncreases(x, s[1..]);
      var rest := Insert(x, s[1..]);
      forall y | y in rest ensures s[0] < y {
      }
      IncreasingCons(s[0], rest);
    } else if s != [] {
      IncreasingCons(x, s);
    }
  }

  lemma {:induction false} IncreasingCons(x: nat, s: seq<nat>)
    requires Increasing(s) && forall y :: y in s ==> x < y
    ensures Increasing([x] + s)
  {
    var r := [x] + s;
    forall i, j | 0 <= i < j < |r| ensures r[i] < r[j] {
      assert r[j] == s[j - 1] && s[j - 1] in s;
      assert i > 0 ==> r[i] == s[i - 1];
    }
  }

  lemma {:induction false} SortedIncreases(s: seq<nat>)
    requires Distinct(s)
    ensures Increasing(Sorted(s))
  {
    if s != [] {
      SortedIncreases(s[1..]);
      InsertIncreases(s[0], Sorted(s[1..]));
    }
  }

  // ---------------------------------------------------------------- the code

  /** Adds a track unless it is there already. */
  method Select(selected: seq<nat>, track: nat) returns (r: seq<nat>)
    requires Distinct(selected)
    ensures Distinct(r) && forall x :: x in r <==> x in selected || x == track
  {
    r := if track in selected then selected else selected + [track];
  }

  /** Selects the tracks of one part. */
  method SelectPart(selected: seq<nat>, untrimmed: string) returns (r: Result<seq<nat>, SelectionError>)
    requires Distinct(selected)
    ensures match PartSpan(untrimmed)
            case Err(e) => r == Err(e)
            case Ok(span) => r.Ok? && Distinct(r.value)
                             && forall x :: x in r.value <==> x in selected || span.first <= x <= span.last
  {
    var part := Trim(untrimmed);
    if '-' in part {
      var rangeParts := Split(part, '-');
      if |rangeParts| != 2 {
        return Err(InvalidRange);
      }
      var start, end := ParseUsize(rangeParts[0]), ParseUsize(rangeParts[1]);
      if start == None || end == None {
        return Err(InvalidNumber);
      }
      if start.value == 0 || end.value == 0 {
        return Err(ZeroTrack);
      }
      if start.value > end.value {
        return Err(Backwards);
      }
      var longer := selected;
      for track := start.value to end.value + 1
        invariant Distinct(longer)
        invariant forall x :: x in longer <==> x in selected || start.value <= x < track
      {
        longer := Select(longer, track);
      }
      r := Ok(longer);
    } else {
      var track := ParseUsize(part);
      if track == None {
        return Err(InvalidNumber);
      }
      if track.value == 0 {
        return Err(ZeroTrack);
      }
      var longer := Select(selected, track.value);
      r := Ok(longer);
    }
  }

  /**
   * An accepted selection is a strictly increasing, non-empty list of positive numbers whose set
   * is the union of the listed spans; otherwise the first wrong part is reported.
   */
  method ParseTrackSelection(tracks: string) returns (r: Result<seq<nat>, SelectionError>)
    ensures r.Err? ==> exists i :: FirstError(Split(tracks, ','), i, r.error)
    ensures r.Ok? ==> IsUnion(Split(tracks, ','), r.value)
    ensures r.Ok? ==> Increasing(r.value) && r.value != []
    ensures r.Ok? ==> forall x :: x in r.value ==> 1 <= x <= USIZE_MAX
  {
    var selected: seq<nat> := [];
    var parts := Split(tracks, ',');
    ghost var spans: seq<Span> := [];
    for i := 0 to |parts|
      invariant Distinct(selected) && AllParsed(parts[..i], spans)
      invariant forall x :: x in selected <==> Covered(spans, x)
    {
      var longer := SelectPart(selected, parts[i]);
      if longer.Err? {
        assert FirstError(parts, i, longer.error) by {
          forall j | 0 <= j < i ensures PartSpan(parts[j]).Ok? {
            assert parts[..i][j] == parts[j];
          }
        }
        return Err(longer.error);
      }
      selected := longer.value;
      ParsedSnoc(parts, i, spans);
      CoveredSnoc(spans, PartSpan(parts[i]).value);
      spans := spans + [PartSpan(parts[i]).value];
    }
    assert parts[..|parts|] == parts;
    SortedIncreases(selected);
    assert Covered(spans, spans[0].first);
    r := Ok(Sorted(selected));
  }

  lemma {:induction false} ParsedSnoc(parts: seq<string>, i: nat, spans: seq<Span>)
    requires i < |parts| && AllParsed(parts[..i], spans) && PartSpan(parts[i]).Ok?
    ensures AllParsed(parts[..i + 1], spans + [PartSpan(parts[i]).value])
  {
    var more := spans + [PartSpan(parts[i]).value];
    forall j | 0 <= j < i + 1 ensures PartSpan(parts[..i + 1][j]) == Ok(more[j]) {
      assert j < i ==> parts[..i][j] == parts[j];
    }
  }

  lemma {:induction false} CoveredSnoc(spans: seq<Span>, last: Span)
    ensures forall x :: Covered(spans + [last], x) <==> Covered(spans, x) || last.first <= x <= last.last
  {
    var more := spans + [last];
    forall x | Covered(spans, x) || last.first <= x <= last.last ensures Covered(more, x) {
      if Covered(spans, x) {
        var k :| 0 <= k < |spans| && spans[k].first <= x <= spans[k].last;
        assert more[k] == spans[k];
      } else {
        assert more[|spans|] == last;
      }
    }
  }

  // ---------------------------------------------------------------- what the order is for

  /** Two strictly increasing lists with the same tracks are the same list. */
  lemma {:induction false} IncreasingListsAgree(a: seq<nat>, b: seq<nat>)
    requires Increasing(a) && Increasing(b) && forall x :: x in a <==> x in b
    ensures a == b
    decreases |a|
  {
    assert a != [] ==> a[0] in b;
    assert b != [] ==> b[0] in a;
    if a != [] && b != [] {
      TailOf(a);
      TailOf(b);
      assert a[0] == b[0];
      IncreasingListsAgree(a[1..], b[1..]);
      assert a == [a[0]] + a[1..] && b == [b[0]] + b[1..];
    }
  }

  lemma {:induction false} TailOf(s: seq<nat>)
    requires s != [] && Increasing(s)
    ensures Increasing(s[1..])
    ensures forall x :: x in s[1..] <==> x in s && x > s[0]
    ensures forall x :: x in s ==> x >= s[0]
  {
    assert s == [s[0]] + s[1..];
  }

  /** The text alone decides the list. */
  lemma {:induction false} UnionDecides(parts: seq<string>, a: seq<nat>, b: seq<nat>)
    requires IsUnion(parts, a) && IsUnion(parts, b) && Increasing(a) && Increasing(b)
    ensures a == b
  {
    var spansA: seq<Span> :| AllParsed(parts, spansA) && forall x :: x in a <==> Covered(spansA, x);
    var spansB: seq<Span> :| AllParsed(parts, spansB) && forall x :: x in b <==> Covered(spansB, x);
    SpansAgree(parts, spansA, spansB);
    IncreasingListsAgree(a, b);
  }

  lemma {:induction false} SpansAgree(parts: seq<string>, a: seq<Span>, b: seq<Span>)
    requires AllParsed(parts, a) && AllParsed(parts, b)
    ensures a == b
  {
    forall i | 0 <= i < |parts| ensures a[i] == b[i] {
      assert PartSpan(parts[i]) == Ok(a[i]);
    }
  }

  /** Consecutive tracks that are both selected are extracted one right after the other. */
  lemma {:induction false} NeighboursAreAdjacent(selected: seq<nat>, n: nat)
    requires Increasing(selected) && n in selected && n + 1 in selected
    ensures exists i :: 0 <= i < |selected| - 1 && selected[i] == n && selected[i + 1] == n + 1
  {
    var i :| 0 <= i < |selected| && selected[i] == n;
    var j :| 0 <= j < |selected| && selected[j] == n + 1;
    assert i < j && selected[i] < selected[i + 1] <= selected[j];
  }

  // ---------------------------------------------------------------- writing a selection

  /** A number as it may be written: with a plus sign or without. */
  function Numeral(n: nat, plus: bool): (s: string)
    ensures s != "" && '-' !in s && ',' !in s
  {
    (if plus then "+" else "") + Decimal(n)
  }

  lemma {:induction false} NumeralParses(n: nat, plus: bool)
    ensures ParseUsize(Numeral(n, plus)) == if n <= USIZE_MAX then Some(n) else None
  {
    var s, d := Numeral(n, plus), Decimal(n);
    DecimalValue(n);
    assert IsDigit(d[0]);
    if plus {
      assert s[1..] == d;
    } else {
      assert s == d;
    }
  }

  lemma {:induction false} NumeralIsBare(n: nat, plus: bool)
    ensures Bare(Numeral(n, plus))
  {
    var s, d := Numeral(n, plus), Decimal(n);
    assert IsDigit(d[0]) && IsDigit(d[|d| - 1]);
    assert s[|s| - 1] == d[|d| - 1];
  }

  /** A part as it may be written: a number or a range, with white space around it. */
  datatype Piece =
    | One(track: nat, plus: bool, before: string, after: string)
    | Interval(first: nat, last: nat, plusFirst: bool, plusLast: bool, before: string, after: string)
  {
    predicate Spaced() { Blank(before) && Blank(after) }

    function Body(): string {
      match this
      case One(n, plus, _, _) => Numeral(n, plus)
      case Interval(a, b, p, q, _, _) => Numeral(a, p) + (['-'] + Numeral(b, q))
    }

    function Written(): string { before + (Body() + after) }

    function First(): nat { if One? then track else first }

    function Last(): nat { if One? then track else last }

    /** Two positive numbers that fit, the second not below the first. */
    predicate Legal() { Spaced() && 1 <= First() <= Last() <= USIZE_MAX }
  }

  lemma {:induction false} BodyIsBare(p: Piece)
    ensures Bare(p.Body())
  {
    if p.One? {
      NumeralIsBare(p.track, p.plus);
    } else {
      NumeralIsBare(p.first, p.plusFirst);
      NumeralIsBare(p.last, p.plusLast);
    }
  }

  lemma {:induction false} BodySplits(p: Piece)
    requires p.Interval?
    ensures '-' in p.Body()
    ensures Split(p.Body(), '-') == [Numeral(p.first, p.plusFirst), Numeral(p.last, p.plusLast)]
  {
    var a, b := Numeral(p.first, p.plusFirst), Numeral(p.last, p.plusLast);
    SplitFirst(a, '-', b);
    SplitNone(b, '-');
    assert p.Body()[|a|] == '-';
  }

  /** What a pair of numbers stands for. */
  function PairOutcome(first: nat, last: nat): Result<Span, SelectionError> {
    if first > USIZE_MAX || last > USIZE_MAX then Err(InvalidNumber)
    else if first == 0 || last == 0 then Err(ZeroTrack)
    else if first > last then Err(Backwards)
    else Ok(Range(first, last))
  }

  lemma {:induction false} TrimmedSpan(part: string, trimmed: string)
    requires Trim(part) == trimmed == Trim(trimmed)
    ensures PartSpan(part) == PartSpan(trimmed)
  {
  }

  lemma {:induction false} NumberSpan(n: nat, plus: bool)
    requires Trim(Numeral(n, plus)) == Numeral(n, plus)
    ensures PartSpan(Numeral(n, plus)) == PairOutcome(n, n)
  {
    NumeralParses(n, plus);
  }

  lemma {:induction false} EndsSpan(body: string, first: nat, plusFirst: bool, last: nat, plusLast: bool)
    requires Trim(body) == body && '-' in body
    requires Split(body, '-') == [Numeral(first, plusFirst), Numeral(last, plusLast)]
    ensures PartSpan(body) == PairOutcome(first, last)
  {
    NumeralParses(first, plusFirst);
    NumeralParses(last, plusLast);
  }

  /** Whatever numbers are written: what the part stands for, or what is wrong with it. */
  lemma {:induction false} PieceParses(p: Piece)
    requires p.Spaced()
    ensures PartSpan(p.Written()) == PairOutcome(p.First(), p.Last())
  {
    var body := p.Body();
    BodyIsBare(p);
    TrimOf(p.before, body, p.after);
    TrimOf("", body, "");
    assert "" + (body + "") == body;
    TrimmedSpan(p.Written(), body);
    if p.One? {
      NumberSpan(p.track, p.plus);
    } else {
      BodySplits(p);
      EndsSpan(body, p.first, p.plusFirst, p.last, p.plusLast);
    }
  }

  /** More than two ends are no range. */
  lemma {:induction false} TooManyEnds(ends: seq<string>)
    requires |ends| > 2 && (forall i :: 0 <= i < |ends| ==> '-' !in ends[i]) && Bare(Join(ends, '-'))
    ensures PartSpan(Join(ends, '-')) == Err(InvalidRange)
  {
    var s := Join(ends, '-');
    TrimOf("", s, "");
    assert "" + (s + "") == s;
    SplitJoin(ends, '-');
    assert s[|ends[0]|] == '-';
  }

  function WrittenParts(pieces: seq<Piece>): (parts: seq<string>)
    ensures |parts| == |pieces| && forall i :: 0 <= i < |pieces| ==> parts[i] == pieces[i].Written()
  {
    seq(|pieces|, i requires 0 <= i < |pieces| => pieces[i].Written())
  }

  function SpanOf(p: Piece): Span
    requires p.Legal()
  {
    Range(p.First(), p.Last())
  }

  function SpansOf(pieces: seq<Piece>): (spans: seq<Span>)
    requires forall i :: 0 <= i < |pieces| ==> pieces[i].Legal()
    ensures |spans| == |pieces|
    ensures forall i :: 0 <= i < |pieces| ==> spans[i] == Range(pieces[i].First(), pieces[i].Last())
  {
    seq(|pieces|, i requires 0 <= i < |pieces| && pieces[i].Legal() => SpanOf(pieces[i]))
  }

  lemma {:induction false} NoComma(p: Piece)
    requires p.Spaced()
    ensures ',' !in p.Written()
  {
    assert !IsWhitespace(',');
  }

  /** The list holds exactly the tracks that some piece asks for. */
  predicate Collects(pieces: seq<Piece>, list: seq<nat>) {
    && (forall k :: 0 <= k < |list| ==>
          exists i :: 0 <= i < |pieces| && pieces[i].First() <= list[k] <= pieces[i].Last())
    && (forall i, x: nat :: 0 <= i < |pieces| && pieces[i].First() <= x <= pieces[i].Last() ==> x in list)
  }

  /** Numbers and ranges, separated by commas, with plus signs and white space or not, select their tracks. */
  lemma {:induction false} SelectionRoundTrip(pieces: seq<Piece>, list: seq<nat>)
    requires pieces != [] && (forall i :: 0 <= i < |pieces| ==> pieces[i].Legal()) && Collects(pieces, list)
    ensures IsUnion(Split(Join(WrittenParts(pieces), ','), ','), list)
  {
    var parts, spans := WrittenParts(pieces), SpansOf(pieces);
    forall i | 0 <= i < |pieces| ensures PartSpan(parts[i]) == Ok(spans[i]) && ',' !in parts[i] {
      PieceParses(pieces[i]);
      NoComma(pieces[i]);
    }
    SplitJoin(parts, ',');
    forall x | x in list ensures Covered(spans, x) {
      var k :| 0 <= k < |list| && list[k] == x;
      var i :| 0 <= i < |pieces| && pieces[i].First() <= list[k] <= pieces[i].Last();
      assert spans[i].first <= x <= spans[i].last;
    }
    assert AllParsed(parts, spans);
  }

  /** The tracks of a piece, in order. */
  function TracksOf(p: Piece): (list: seq<nat>)
    requires p.Legal()
    ensures |list| == p.Last() - p.First() + 1 && forall i :: 0 <= i < |list| ==> list[i] == p.First() + i
  {
    seq(p.Last() - p.First() + 1, i => p.First() + i)
  }

  /** A single number or range selects its tracks in order, without a gap. */
  lemma {:induction false} PieceSelects(p: Piece, list: seq<nat>)
    requires p.Legal() && IsUnion(Split(p.Written(), ','), list) && Increasing(list)
    ensures list == TracksOf(p)
  {
    var all := TracksOf(p);
    assert [p][0] == p;
    forall i, x: nat | 0 <= i < |[p]| && [p][i].First() <= x <= [p][i].Last() ensures x in all {
      assert all[x - p.First()] == x;
    }
    SelectionRoundTrip([p], all);
    assert WrittenParts([p]) == [p.Written()];
    UnionDecides(Split(p.Written(), ','), list, all);
  }
}
