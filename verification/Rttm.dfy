/** RTTM text: the fixture's printer and the scorer's parser, and that they undo each other. */
module Rttm {
  import opened Results
  import opened Sorting
  import opened Text

  /** A speaker turn of the fixture; times in milliseconds. */
  datatype Turn = Turn(start: int, end: int, speaker: string)

  /** A parsed segment; times in seconds. */
  datatype Segment = Segment(start: real, end: real, speaker: string)

  datatype ParseError =
    | FieldCount(line: nat, fields: nat)
    | NotANumber(line: nat)
    | EndNotAfterStart(line: nat)
    | SeveralFiles(files: set<string>)
    | NoSegments

  // ----- characters, as Python's str methods see them -----

  predicate IsLineBreak(c: char) {
    || '\n' <= c <= '\r'
    || '\U{1C}' <= c <= '\U{1E}'
    || c == '\U{85}' || c == '\U{2028}' || c == '\U{2029}'
  }

  predicate IsBlank(c: char) {
    || '\t' <= c <= '\r'
    || '\U{1C}' <= c <= ' '
    || c in {'\U{85}', '\U{A0}', '\U{1680}', '\U{2028}', '\U{2029}', '\U{202F}', '\U{205F}', '\U{3000}'}
    || '\U{2000}' <= c <= '\U{200A}'
  }

  function Upper(s: string): string {
    if s == "" then "" else [if 'a' <= s[0] <= 'z' then s[0] - 'a' + 'A' else s[0]] + Upper(s[1..])
  }

  // ----- splitting -----

  /** The length of the line the text starts with. */
  function LineLength(s: string): (k: nat)
    ensures k <= |s|
    ensures k < |s| ==> IsLineBreak(s[k])
  {
    if s == "" || IsLineBreak(s[0]) then 0 else 1 + LineLength(s[1..])
  }

  /** `splitlines`: a carriage return and a newline together end one line; nothing follows a final break. */
  function SplitLines(s: string): seq<string> {
    if s == "" then []
    else
      var k := LineLength(s);
      if k == |s| then [s]
      else if s[k] == '\r' && k + 1 < |s| && s[k + 1] == '\n' then [s[..k]] + SplitLines(s[k + 2..])
      else [s[..k]] + SplitLines(s[k + 1..])
  }

  function BeforeHash(s: string): string {
    if s == "" || s[0] == '#' then "" else [s[0]] + BeforeHash(s[1..])
  }

  /** The length of the word the text starts with. */
  function WordLength(s: string): (k: nat)
    ensures k <= |s|
  {
    if s == "" || IsBlank(s[0]) then 0 else 1 + WordLength(s[1..])
  }

  /** `split()`: the maximal runs of characters that are not blank. */
  function Fields(s: string): seq<string> {
    if s == "" then []
    else if IsBlank(s[0]) then Fields(s[1..])
    else [s[..WordLength(s)]] + Fields(s[WordLength(s)..])
  }

  // ----- numbers -----

  predicate AllDigits(s: string) { forall k | 0 <= k < |s| :: IsDigit(s[k]) }

  function DigitCount(s: string): (k: nat)
    ensures k <= |s|
    ensures AllDigits(s[..k])
    ensures k < |s| ==> !IsDigit(s[k])
  {
    if s == "" || !IsDigit(s[0]) then 0
    else
      assert forall i :: 0 < i < 1 + DigitCount(s[1..]) ==> s[i] == s[1..][i - 1];
      1 + DigitCount(s[1..])
  }

  function PowerOfTen(k: nat): (p: nat)
    ensures p > 0
  {
    if k == 0 then 1 else 10 * PowerOfTen(k - 1)
  }

  function Fraction(whole: string, part: string): real
    requires AllDigits(whole) && AllDigits(part)
  {
    ReadDigits(whole) as real + ReadDigits(part) as real / PowerOfTen(|part|) as real
  }

  /** Digits, or digits around a point, with at least one digit. */
  function Unsigned(s: string): Option<real> {
    var k := DigitCount(s);
    if k == |s| then if k == 0 then None else Some(ReadDigits(s) as real)
    else if s[k] != '.' then None
    else
      var fraction := s[k + 1..];
      if !AllDigits(fraction) || k + |fraction| == 0 then None
      else Some(Fraction(s[..k], fraction))
  }

  /** `float` of a plain decimal number. */
  function Number(s: string): Option<real> {
    if s != "" && s[0] == '-' then
      match Unsigned(s[1..]) case Some(x) => Some(-x) case None => None
    else if s != "" && s[0] == '+' then Unsigned(s[1..])
    else Unsigned(s)
  }

  // ----- one line -----

  datatype Line = Empty | Spoken(file: Option<string>, segment: Segment) | Bad(error: ParseError)

  function MakeLine(number: nat, file: Option<string>, start: Option<real>, end: Option<real>, speaker: string): Line {
    if start.None? || end.None? then Bad(NotANumber(number))
    else if end.value <= start.value then Bad(EndNotAfterStart(number))
    else Spoken(file, Segment(start.value, end.value, speaker))
  }

  function Plus(x: Option<real>, y: Option<real>): Option<real> {
    if x.Some? && y.Some? then Some(x.value + y.value) else None
  }

  /** A ten-field SPEAKER line or `start end speaker`, after any comment is cut off. */
  function ReadLine(raw: string, number: nat): Line {
    var fields := Fields(BeforeHash(raw));
    if fields == [] then Empty
    else if Upper(fields[0]) == "SPEAKER" then
      if |fields| != 10 then Bad(FieldCount(number, |fields|))
      else
        MakeLine(number, Some(fields[1]), Number(fields[3]), Plus(Number(fields[3]), Number(fields[4])), fields[7])
    else if |fields| != 3 then Bad(FieldCount(number, |fields|))
    else MakeLine(number, None, Number(fields[0]), Number(fields[1]), fields[2])
  }

  // ----- the whole text -----

  datatype Progress = Progress(segments: seq<Segment>, files: set<string>)

  function FileSet(file: Option<string>): set<string> { if file.Some? then {file.value} else {} }

  function ReadAll(lines: seq<string>): (read: seq<Line>)
    ensures |read| == |lines| && forall k :: 0 <= k < |lines| ==> read[k] == ReadLine(lines[k], k + 1)
  {
    seq(|lines|, k requires 0 <= k < |lines| => ReadLine(lines[k], k + 1))
  }

  /** The segments and file ids of the first `k` lines, or the first bad line's error. */
  function Collect(read: seq<Line>, k: nat): Result<Progress, ParseError>
    requires k <= |read|
  {
    if k == 0 then Ok(Progress([], {}))
    else match Collect(read, k - 1)
      case Err(e) => Err(e)
      case Ok(p) =>
        match read[k - 1]
        case Empty => Ok(p)
        case Bad(e) => Err(e)
        case Spoken(file, segment) => Ok(Progress(p.segments + [segment], p.files + FileSet(file)))
  }

  function Conclude(p: Progress): Result<seq<Segment>, ParseError> {
    if |p.files| > 1 then Err(SeveralFiles(p.files)) else if p.segments == [] then Err(NoSegments) else Ok(p.segments)
  }

  function Parse(text: string): Result<seq<Segment>, ParseError> {
    ParseRead(ReadAll(SplitLines(text)))
  }

  function ParseRead(read: seq<Line>): Result<seq<Segment>, ParseError> {
    match Collect(read, |read|) case Err(e) => Err(e) case Ok(p) => Conclude(p)
  }

  lemma {:induction false} FirstErrorStays(read: seq<Line>, k: nat, m: nat)
    requires k <= m <= |read| && Collect(read, k).Err?
    ensures Collect(read, m) == Collect(read, k)
    decreases m - k
  {
    if k < m {
      FirstErrorStays(read, k, m - 1);
    }
  }

  /** The loop over the lines: it stops at the first bad one, and judges the whole only at the end. */
  method CollectSegments(read: seq<Line>) returns (r: Result<seq<Segment>, ParseError>)
    ensures r == ParseRead(read)
  {
    var segments: seq<Segment> := [];
    var files: set<string> := {};
    for k := 0 to |read|
      invariant Collect(read, k) == Ok(Progress(segments, files))
    {
      match read[k] {
        case Empty =>
        case Bad(e) =>
          FirstErrorStays(read, k + 1, |read|);
          return Err(e);
        case Spoken(file, segment) =>
          segments := segments + [segment];
          files := files + FileSet(file);
      }
    }
    if |files| > 1 {
      return Err(SeveralFiles(files));
    }
    if |segments| == 0 {
      return Err(NoSegments);
    }
    return Ok(segments);
  }

  /** The line an error names, if it names one. */
  function LineNumber(e: ParseError): Option<nat> {
    match e
    case FieldCount(number, _) => Some(number)
    case NotANumber(number) => Some(number)
    case EndNotAfterStart(number) => Some(number)
    case _ => None
  }

  ghost predicate FirstBad(read: seq<Line>, k: nat) {
    k < |read| && read[k].Bad? && forall j :: 0 <= j < k ==> !read[j].Bad?
  }

  ghost predicate NoneBad(read: seq<Line>, k: nat)
    requires k <= |read|
  {
    forall j :: 0 <= j < k ==> !read[j].Bad?
  }

  /** The file ids that the first `k` lines name. */
  ghost function FileIds(read: seq<Line>, k: nat): set<string>
    requires k <= |read|
  {
    set j | 0 <= j < k && read[j].Spoken? && read[j].file.Some? :: read[j].file.value
  }

  /** `at` are the positions of the spoken lines among the first `k`, in order, and `segments` what they say. */
  ghost predicate SpokenAt(read: seq<Line>, k: nat, at: seq<nat>, segments: seq<Segment>)
    requires k <= |read|
  {
    && |at| == |segments|
    && (forall x :: 0 <= x < |at| ==> at[x] < k && read[at[x]].Spoken? && read[at[x]].segment == segments[x])
    && (forall x, y :: 0 <= x < y < |at| ==> at[x] < at[y])
    && (forall j: nat :: j < k && read[j].Spoken? ==> j in at)
  }

  ghost predicate ListsSpoken(read: seq<Line>, segments: seq<Segment>) {
    exists at :: SpokenAt(read, |read|, at, segments)
  }

  /** The spoken lines among the first `k`, when none of those is bad. */
  lemma {:induction false} CollectMeans(read: seq<Line>, k: nat) returns (at: seq<nat>)
    requires k <= |read| && NoneBad(read, k)
    ensures Collect(read, k).Ok? && Collect(read, k).value.files == FileIds(read, k)
    ensures SpokenAt(read, k, at, Collect(read, k).value.segments)
  {
    at := [];
    if k > 0 {
      at := CollectMeans(read, k - 1);
      var line := read[k - 1];
      assert FileIds(read, k) == FileIds(read, k - 1) + if line.Spoken? then FileSet(line.file) else {};
      if line.Spoken? {
        at := at + [k - 1];
      }
    }
  }

  lemma FirstBadDecides(read: seq<Line>, k: nat)
    requires FirstBad(read, k)
    ensures ParseRead(read) == Err(read[k].error)
  {
    var at := CollectMeans(read, k);
    FirstErrorStays(read, k + 1, |read|);
  }

  /** Bad lines are numbered from 1. */
  lemma BadLineNumber(line: Line, raw: string, number: nat)
    requires line == ReadLine(raw, number) && line.Bad?
    ensures LineNumber(line.error) == Some(number)
  {
  }

  lemma SomeBad(read: seq<Line>) returns (k: nat)
    requires !NoneBad(read, |read|)
    ensures FirstBad(read, k)
  {
    k := 0;
    while k < |read| && !read[k].Bad?
      invariant k <= |read| && NoneBad(read, k)
    {
      k := k + 1;
    }
  }

  /** Without a bad line: several file ids, no segments, or everything that was said, in order. */
  ghost predicate Judged(read: seq<Line>, r: Result<seq<Segment>, ParseError>) {
    var ids := FileIds(read, |read|);
    if |ids| > 1 then r == Err(SeveralFiles(ids))
    else if forall j :: 0 <= j < |read| ==> !read[j].Spoken? then r == Err(NoSegments)
    else r.Ok? && ListsSpoken(read, r.value)
  }

  lemma NoneBadJudged(read: seq<Line>)
    requires NoneBad(read, |read|)
    ensures Judged(read, ParseRead(read))
  {
    var at := CollectMeans(read, |read|);
    var segments := Collect(read, |read|).value.segments;
    assert SpokenAt(read, |read|, at, segments);
    if segments == [] {
      assert forall j :: 0 <= j < |read| ==> !read[j].Spoken?;
    } else {
      assert read[at[0]].Spoken?;
    }
  }

  /**
    `_parse_segments`. The first line that cannot be read is the error, with its number; else several
    file ids are; else having no segment is; else the result lists what the lines say, in order.
   */
  method ParseSegments(text: string) returns (r: Result<seq<Segment>, ParseError>)
    ensures r == Parse(text)
    ensures var read := ReadAll(SplitLines(text));
      if NoneBad(read, |read|) then Judged(read, r)
      else exists k: nat :: FirstBad(read, k) && r == Err(read[k].error) && LineNumber(read[k].error) == Some(k + 1)
  {
    var lines := SplitLines(text);
    var read := ReadAll(lines);
    r := CollectSegments(read);
    if NoneBad(read, |read|) {
      NoneBadJudged(read);
    } else {
      ghost var k := SomeBad(read);
      FirstBadDecides(read, k);
      BadLineNumber(read[k], lines[k], k + 1);
    }
  }

  ghost predicate Forward(line: Line) {
    line.Spoken? ==> line.segment.start < line.segment.end
  }

  ghost predicate AllForward(segments: seq<Segment>) {
    forall i :: 0 <= i < |segments| ==> segments[i].start < segments[i].end
  }

  lemma {:induction false} CollectForward(read: seq<Line>, k: nat)
    requires k <= |read| && forall i :: 0 <= i < |read| ==> Forward(read[i])
    ensures Collect(read, k).Ok? ==> AllForward(Collect(read, k).value.segments)
  {
    if k > 0 {
      CollectForward(read, k - 1);
      assert Forward(read[k - 1]);
    }
  }

  /** Whatever the text, a parse that succeeds gives some segments, and each ends after it starts. */
  lemma ParsedSegmentsForward(text: string)
    requires Parse(text).Ok?
    ensures Parse(text).value != [] && AllForward(Parse(text).value)
  {
    var read := ReadAll(SplitLines(text));
    AllReadForward(SplitLines(text));
    CollectForward(read, |read|);
  }

  lemma ReadLineForward(raw: string, number: nat)
    ensures Forward(ReadLine(raw, number))
  {
  }

  lemma AllReadForward(lines: seq<string>)
    ensures forall i :: 0 <= i < |lines| ==> Forward(ReadAll(lines)[i])
  {
    forall i | 0 <= i < |lines|
      ensures Forward(ReadAll(lines)[i])
    {
      ReadLineForward(lines[i], i + 1);
    }
  }

  // ----- printing -----

  predicate TurnLe(a: Turn, b: Turn) {
    || a.start < b.start
    || (a.start == b.start && (a.end < b.end || (a.end == b.end && StrLe(a.speaker, b.speaker))))
  }

  lemma TurnLeOrder()
    ensures TotalOrder(TurnLe)
  {
    StrLeOrder();
  }

  function ThreeDigits(n: nat): (s: string)
    requires n < 1000
    ensures |s| == 3 && AllDigits(s)
  {
    [Digit(n / 100), Digit(n / 10 % 10), Digit(n % 10)]
  }

  /** Seconds with three decimals. */
  function Millis(n: int): string {
    var m := if n < 0 then -n else n;
    (if n < 0 then "-" else "") + Decimal(m / 1000) + "." + ThreeDigits(m % 1000)
  }

  /** Words with a blank between each two. */
  function Spaced(words: seq<string>): string {
    if words == [] then "" else if |words| == 1 then words[0] else words[0] + " " + Spaced(words[1..])
  }

  function LineFields(name: string, t: Turn): seq<string> {
    ["SPEAKER", name, "1", Millis(t.start), Millis(t.end - t.start), "<NA>", "<NA>", t.speaker, "<NA>", "<NA>"]
  }

  /** Each line followed by a newline. */
  function Unlines(name: string, turns: seq<Turn>): string {
    if turns == [] then "" else Spaced(LineFields(name, turns[0])) + "\n" + Unlines(name, turns[1..])
  }

  /** `rttm_text`: the sorted turns, one line each; a lone newline when there are none. */
  function RttmText(name: string, turns: seq<Turn>): string {
    if turns == [] then "\n" else Unlines(name, Sort(turns, TurnLe))
  }

  // ----- what is printed reads back -----

  ghost predicate Word(s: string) {
    s != "" && forall k :: 0 <= k < |s| ==> !IsBlank(s[k]) && s[k] != '#'
  }

  ghost predicate Words(words: seq<string>) {
    forall i :: 0 <= i < |words| ==> Word(words[i])
  }

  lemma {:induction false} WordThen(w: string, rest: string)
    requires forall k :: 0 <= k < |w| ==> !IsBlank(w[k])
    requires rest == "" || IsBlank(rest[0])
    ensures WordLength(w + rest) == |w|
  {
    if w == "" {
      assert w + rest == rest;
    } else {
      WordThen(w[1..], rest);
      assert (w + rest)[1..] == w[1..] + rest;
    }
  }

  lemma {:induction false} FieldsOfSpaced(words: seq<string>)
    requires Words(words)
    ensures Fields(Spaced(words)) == words
  {
    if |words| > 1 {
      FieldsOfSpaced(words[1..]);
      FieldsFirst(words[0], Spaced(words[1..]));
      assert Spaced(words) == words[0] + " " + Spaced(words[1..]);
      assert words == [words[0]] + words[1..];
    } else if words != [] {
      FirstField(words[0], "");
      assert words[0] + "" == words[0] && words == [words[0]];
    }
  }

  lemma FieldsFirst(w: string, rest: string)
    requires Word(w)
    ensures Fields(w + " " + rest) == [w] + Fields(rest)
  {
    FirstField(w, " " + rest);
    assert (" " + rest)[1..] == rest;
    assert w + " " + rest == w + (" " + rest);
  }

  lemma FirstField(w: string, rest: string)
    requires Word(w) && (rest == "" || IsBlank(rest[0]))
    ensures Fields(w + rest) == [w] + Fields(rest)
  {
    WordThen(w, rest);
    assert (w + rest)[..|w|] == w && (w + rest)[|w|..] == rest;
  }

  lemma {:induction false} WordLengthJoin(a: string, b: string)
    ensures WordLength(a + " " + b) == WordLength(a)
  {
    var text := a + " " + b;
    if a == "" {
      assert text[0] == ' ';
    } else if !IsBlank(a[0]) {
      WordLengthJoin(a[1..], b);
      assert text[1..] == a[1..] + " " + b;
    }
  }

  /** Across a blank, the fields of a text are the fields of its two parts. */
  lemma {:induction false} FieldsJoin(a: string, b: string)
    ensures Fields(a + " " + b) == Fields(a) + Fields(b)
    decreases |a|
  {
    var text := a + " " + b;
    if a == "" {
      assert text[0] == ' ' && text[1..] == b;
    } else if IsBlank(a[0]) {
      FieldsJoin(a[1..], b);
      assert text[1..] == a[1..] + " " + b;
    } else {
      var k := WordLength(a);
      WordLengthJoin(a, b);
      FieldsJoin(a[k..], b);
      assert text[..k] == a[..k] && text[k..] == a[k..] + " " + b;
    }
  }

  lemma {:induction false} WordHasNoBlank(s: string)
    ensures forall k :: 0 <= k < WordLength(s) ==> !IsBlank(s[k])
  {
    if s != "" && !IsBlank(s[0]) {
      WordHasNoBlank(s[1..]);
      assert forall k :: 1 <= k < WordLength(s) ==> s[k] == s[1..][k - 1];
    }
  }

  /** No blank and no comment sign gets into a field. */
  lemma {:induction false} FieldsAreWords(s: string)
    requires forall k :: 0 <= k < |s| ==> s[k] != '#'
    ensures Words(Fields(s))
    decreases |s|
  {
    if s != "" {
      if IsBlank(s[0]) {
        FieldsAreWords(s[1..]);
      } else {
        var k := WordLength(s);
        WordHasNoBlank(s);
        FieldsAreWords(s[k..]);
        assert Word(s[..k]);
      }
    }
  }

  lemma {:induction false} BeforeHashHasNone(s: string)
    ensures forall k :: 0 <= k < |BeforeHash(s)| ==> BeforeHash(s)[k] != '#'
  {
    if s != "" {
      BeforeHashHasNone(s[1..]);
    }
  }

  lemma {:induction false} BeforeHashCuts(s: string, rest: string)
    requires forall k :: 0 <= k < |s| ==> s[k] != '#'
    ensures BeforeHash(s + "#" + rest) == s
  {
    var text := s + "#" + rest;
    if s == "" {
      assert text[0] == '#';
    } else {
      BeforeHashCuts(s[1..], rest);
      assert text[1..] == s[1..] + "#" + rest;
    }
  }

  ghost predicate OneLine(s: string) {
    forall k :: 0 <= k < |s| ==> !IsLineBreak(s[k])
  }

  /** Neither a comment sign nor a line break. */
  ghost predicate Clean(s: string) {
    OneLine(s) && forall k :: 0 <= k < |s| ==> s[k] != '#'
  }

  lemma {:induction false} SpacedIsClean(words: seq<string>)
    requires Words(words)
    ensures Clean(Spaced(words))
  {
    if words != [] {
      SpacedIsClean(words[1..]);
      assert Word(words[0]);
    }
  }

  lemma {:induction false} CleanHasNoComment(s: string)
    requires Clean(s)
    ensures BeforeHash(s) == s
  {
    if s != "" {
      CleanHasNoComment(s[1..]);
    }
  }

  lemma {:induction false} CleanLine(s: string, rest: string)
    requires OneLine(s)
    ensures LineLength(s + "\n" + rest) == |s|
  {
    var text := s + "\n" + rest;
    if s != "" {
      CleanLine(s[1..], rest);
      assert text[1..] == s[1..] + "\n" + rest;
    }
  }

  lemma FirstLine(s: string, rest: string)
    requires OneLine(s)
    ensures SplitLines(s + "\n" + rest) == [s] + SplitLines(rest)
  {
    var text := s + "\n" + rest;
    CleanLine(s, rest);
    assert text[|s|] == '\n' && text[..|s|] == s && text[|s| + 1..] == rest;
  }

  // ----- numbers read back -----

  lemma {:induction false} DigitCountOf(d: string, rest: string)
    requires AllDigits(d) && (rest == "" || !IsDigit(rest[0]))
    ensures DigitCount(d + rest) == |d|
  {
    if d == "" {
      assert d + rest == rest;
    } else {
      DigitCountOf(d[1..], rest);
      assert (d + rest)[1..] == d[1..] + rest;
    }
  }

  lemma ReadSnoc(s: string, d: nat)
    requires AllDigits(s) && d < 10
    ensures AllDigits(s + [Digit(d)]) && ReadDigits(s + [Digit(d)]) == 10 * ReadDigits(s) + d
  {
    assert (s + [Digit(d)])[..|s|] == s;
  }

  lemma ReadThree(a: nat, b: nat, c: nat)
    requires a < 10 && b < 10 && c < 10
    ensures ReadDigits([Digit(a), Digit(b), Digit(c)]) == 100 * a + 10 * b + c
  {
    var one, two := "" + [Digit(a)], [Digit(a)] + [Digit(b)];
    assert AllDigits(one) && ReadDigits(one) == a by {
      ReadSnoc("", a);
    }
    assert AllDigits(two) && ReadDigits(two) == 10 * a + b by {
      assert one == [Digit(a)];
      ReadSnoc(one, b);
    }
    assert [Digit(a), Digit(b), Digit(c)] == two + [Digit(c)];
    ReadSnoc(two, c);
  }

  lemma ReadThreeDigits(n: nat)
    requires n < 1000
    ensures ReadDigits(ThreeDigits(n)) == n
  {
    ReadThree(n / 100, n / 10 % 10, n % 10);
    DigitsOf(n);
  }

  lemma DigitsOf(n: nat)
    ensures n == 100 * (n / 100) + 10 * (n / 10 % 10) + n % 10
  {
    assert n / 100 == n / 10 / 10;
  }

  lemma UnsignedOf(whole: string, part: string)
    requires whole != "" && AllDigits(whole) && AllDigits(part)
    ensures Unsigned(whole + "." + part) == Some(Fraction(whole, part))
  {
    var s, rest := whole + "." + part, "." + part;
    assert s == whole + rest;
    DigitCountOf(whole, rest);
    assert s[..|whole|] == whole && s[|whole|] == '.' && s[|whole| + 1..] == part;
  }

  lemma ThousandIs()
    ensures PowerOfTen(3) == 1000
  {
    assert PowerOfTen(1) == 10 && PowerOfTen(2) == 100;
  }

  lemma FractionOf(whole: string, part: string, a: nat, b: nat)
    requires AllDigits(whole) && AllDigits(part) && |part| == 3 && ReadDigits(whole) == a && ReadDigits(part) == b
    ensures Fraction(whole, part) == a as real + b as real / 1000.0
  {
    ThousandIs();
  }

  lemma Thousandths(m: nat)
    ensures (m / 1000) as real + (m % 1000) as real / 1000.0 == m as real / 1000.0
  {
    assert m == 1000 * (m / 1000) + m % 1000;
    assert m as real == 1000.0 * (m / 1000) as real + (m % 1000) as real;
  }

  lemma UnsignedReadsBack(m: nat)
    ensures Unsigned(Decimal(m / 1000) + "." + ThreeDigits(m % 1000)) == Some(m as real / 1000.0)
  {
    var whole, part := Decimal(m / 1000), ThreeDigits(m % 1000);
    UnsignedOf(whole, part);
    ReadDecimal(m / 1000);
    ReadThreeDigits(m % 1000);
    FractionOf(whole, part, m / 1000, m % 1000);
    Thousandths(m);
  }

  lemma NumberOf(s: string, x: real)
    requires s != "" && IsDigit(s[0]) && Unsigned(s) == Some(x)
    ensures Number(s) == Some(x) && Number("-" + s) == Some(-x)
  {
    assert ("-" + s)[1..] == s;
  }

  lemma NumberReadsBack(n: int)
    ensures Number(Millis(n)) == Some(n as real / 1000.0)
  {
    var m := if n < 0 then -n else n;
    var s := Decimal(m / 1000) + "." + ThreeDigits(m % 1000);
    UnsignedReadsBack(m);
    NumberOf(s, m as real / 1000.0);
    if n < 0 {
      assert Millis(n) == "-" + s;
      assert -(m as real / 1000.0) == n as real / 1000.0;
    } else {
      assert Millis(n) == s;
    }
  }

  lemma MillisIsWord(n: int)
    ensures Word(Millis(n))
  {
  }

  // ----- the round trip -----

  /** Labels the format can carry: each is one word. */
  ghost predicate WordLabels(turns: seq<Turn>) {
    forall i :: 0 <= i < |turns| ==> Word(turns[i].speaker)
  }

  /** File names and labels the format can carry: a name reads as one field, whatever blanks surround it. */
  ghost predicate Printable(name: string, turns: seq<Turn>) {
    Clean(name) && |Fields(name)| == 1 && WordLabels(turns)
  }

  function SegmentOf(t: Turn): Segment {
    Segment(t.start as real / 1000.0, t.end as real / 1000.0, t.speaker)
  }

  lemma SpeakerLine(raw: string, number: nat, fields: seq<string>, start: real, duration: real)
    requires Fields(BeforeHash(raw)) == fields && |fields| == 10 && Upper(fields[0]) == "SPEAKER"
    requires Number(fields[3]) == Some(start) && Number(fields[4]) == Some(duration)
    ensures ReadLine(raw, number) == MakeLine(number, Some(fields[1]), Some(start), Some(start + duration), fields[7])
  {
  }

  lemma MadeLine(name: string, t: Turn, number: nat, start: real, end: real)
    requires start == t.start as real / 1000.0 && end == t.end as real / 1000.0
    ensures MakeLine(number, Some(name), Some(start), Some(end), t.speaker) == PrintedLine(name, t, number)
  {
    assert start < end <==> t.start < t.end;
  }

  /** `text` is one field, and the parser reads it as `n` milliseconds. */
  ghost predicate Reads(text: string, n: int) {
    Word(text) && Number(text) == Some(n as real / 1000.0)
  }

  lemma MillisReadBack(n: int)
    ensures Reads(Millis(n), n)
  {
    MillisIsWord(n);
    NumberReadsBack(n);
  }

  lemma FixedWords()
    ensures Word("SPEAKER") && Word("1") && Word("<NA>")
  {
  }

  /** What the parser makes of one printed turn. */
  function PrintedLine(name: string, t: Turn, number: nat): Line {
    if t.start < t.end then Spoken(Some(name), SegmentOf(t)) else Bad(EndNotAfterStart(number))
  }

  lemma FieldsReadBack(name: string, t: Turn, number: nat, fields: seq<string>, raw: string, from: string, lasting: string)
    requires Fields(BeforeHash(raw)) == fields && |fields| == 10
    requires fields[0] == "SPEAKER" && fields[1] == name && fields[3] == from && fields[4] == lasting && fields[7] == t.speaker
    requires Reads(from, t.start) && Reads(lasting, t.end - t.start)
    ensures ReadLine(raw, number) == PrintedLine(name, t, number)
  {
    var start, duration := t.start as real / 1000.0, (t.end - t.start) as real / 1000.0;
    SpeakerTurn(raw, number, fields, start, duration);
    MadeLine(name, t, number, start, start + duration);
  }

  lemma SpeakerTurn(raw: string, number: nat, fields: seq<string>, start: real, duration: real)
    requires Fields(BeforeHash(raw)) == fields && |fields| == 10 && fields[0] == "SPEAKER"
    requires Number(fields[3]) == Some(start) && Number(fields[4]) == Some(duration)
    ensures ReadLine(raw, number) == MakeLine(number, Some(fields[1]), Some(start), Some(start + duration), fields[7])
  {
    UpperSpeaker();
    SpeakerLine(raw, number, fields, start, duration);
  }

  /** The fields of a printed line after the file name. */
  function TailFields(t: Turn): seq<string> {
    ["1", Millis(t.start), Millis(t.end - t.start), "<NA>", "<NA>", t.speaker, "<NA>", "<NA>"]
  }

  lemma TailIsWords(t: Turn)
    requires Word(t.speaker)
    ensures Words(TailFields(t))
  {
    MillisIsWord(t.start);
    MillisIsWord(t.end - t.start);
    PiecesAreWords(t.speaker, Millis(t.start), Millis(t.end - t.start), TailFields(t));
  }

  lemma PiecesAreWords(speaker: string, from: string, lasting: string, tail: seq<string>)
    requires Word(speaker) && Word(from) && Word(lasting)
    requires tail == ["1", from, lasting, "<NA>", "<NA>", speaker, "<NA>", "<NA>"]
    ensures Words(tail)
  {
    FixedWords();
  }

  lemma LineParts(name: string, t: Turn)
    ensures Spaced(LineFields(name, t)) == "SPEAKER" + " " + (name + " " + Spaced(TailFields(t)))
  {
    var fields := LineFields(name, t);
    assert fields[1..][0] == name && fields[1..][1..] == TailFields(t);
  }

  /** A printed line has the fields of the file name, however many they are, between SPEAKER and the others. */
  lemma LineSplits(name: string, tail: seq<string>, raw: string)
    requires Clean(name) && Words(tail) && raw == "SPEAKER" + " " + (name + " " + Spaced(tail))
    ensures Clean(raw) && Fields(BeforeHash(raw)) == ["SPEAKER"] + Fields(name) + tail
  {
    FixedWords();
    SpacedIsClean(tail);
    assert Clean("SPEAKER" + " ") && Clean(name + " " + Spaced(tail)) && Clean(raw);
    CleanHasNoComment(raw);
    FieldsFirst("SPEAKER", name + " " + Spaced(tail));
    FieldsJoin(name, Spaced(tail));
    FieldsOfSpaced(tail);
  }

  lemma PiecesReadBack(name: string, t: Turn, number: nat, from: string, lasting: string, tail: seq<string>, raw: string)
    requires Clean(name) && |Fields(name)| == 1 && Word(t.speaker) && Reads(from, t.start) && Reads(lasting, t.end - t.start)
    requires tail == ["1", from, lasting, "<NA>", "<NA>", t.speaker, "<NA>", "<NA>"]
    requires raw == "SPEAKER" + " " + (name + " " + Spaced(tail))
    ensures ReadLine(raw, number) == PrintedLine(Fields(name)[0], t, number)
  {
    PiecesAreWords(t.speaker, from, lasting, tail);
    LineSplits(name, tail, raw);
    FieldsReadBack(Fields(name)[0], t, number, ["SPEAKER"] + Fields(name) + tail, raw, from, lasting);
  }

  lemma LineReadsBack(name: string, t: Turn, number: nat)
    requires Clean(name) && |Fields(name)| == 1 && Word(t.speaker)
    ensures ReadLine(Spaced(LineFields(name, t)), number) == PrintedLine(Fields(name)[0], t, number)
  {
    LineParts(name, t);
    MillisReadBack(t.start);
    MillisReadBack(t.end - t.start);
    PiecesReadBack(name, t, number, Millis(t.start), Millis(t.end - t.start), TailFields(t), Spaced(LineFields(name, t)));
  }

  lemma UpperSpeaker()
    ensures Upper("SPEAKER") == "SPEAKER"
  {
  }

  ghost function LinesOf(name: string, turns: seq<Turn>): seq<string> {
    seq(|turns|, i requires 0 <= i < |turns| => Spaced(LineFields(name, turns[i])))
  }

  lemma PrintedIsClean(name: string, t: Turn)
    requires Clean(name) && Word(t.speaker)
    ensures Clean(Spaced(LineFields(name, t)))
  {
    LineParts(name, t);
    TailIsWords(t);
    LineSplits(name, TailFields(t), Spaced(LineFields(name, t)));
  }

  lemma {:induction false} LinesReadBack(name: string, turns: seq<Turn>)
    requires Clean(name) && WordLabels(turns)
    ensures SplitLines(Unlines(name, turns)) == LinesOf(name, turns)
  {
    if turns != [] {
      var line := Spaced(LineFields(name, turns[0]));
      assert Clean(line) by {
        PrintedIsClean(name, turns[0]);
      }
      LinesReadBack(name, turns[1..]);
      FirstLine(line, Unlines(name, turns[1..]));
      assert LinesOf(name, turns) == [line] + LinesOf(name, turns[1..]);
    }
  }

  ghost function SegmentsOf(turns: seq<Turn>): seq<Segment> {
    seq(|turns|, i requires 0 <= i < |turns| => SegmentOf(turns[i]))
  }

  ghost predicate ReadAs(file: string, turns: seq<Turn>, read: seq<Line>) {
    |read| == |turns| && forall i: nat :: i < |turns| ==> read[i] == PrintedLine(file, turns[i], i + 1)
  }

  lemma LineRead(name: string, turns: seq<Turn>, lines: seq<string>, i: nat)
    requires Printable(name, turns) && i < |turns| == |lines| && lines[i] == Spaced(LineFields(name, turns[i]))
    ensures ReadAll(lines)[i] == PrintedLine(Fields(name)[0], turns[i], i + 1)
  {
    LineReadsBack(name, turns[i], i + 1);
  }

  lemma LinesRead(name: string, turns: seq<Turn>, lines: seq<string>)
    requires Printable(name, turns) && lines == LinesOf(name, turns)
    ensures ReadAs(Fields(name)[0], turns, ReadAll(lines))
  {
    forall i: nat | i < |turns|
      ensures ReadAll(lines)[i] == PrintedLine(Fields(name)[0], turns[i], i + 1)
    {
      LineRead(name, turns, lines, i);
    }
  }

  /** The parser reads every printed turn as itself. */
  lemma TextReadsBack(name: string, turns: seq<Turn>) returns (read: seq<Line>)
    requires Printable(name, turns)
    ensures Parse(Unlines(name, turns)) == ParseRead(read) && ReadAs(Fields(name)[0], turns, read)
  {
    LinesReadBack(name, turns);
    LinesRead(name, turns, LinesOf(name, turns));
    read := ReadAll(LinesOf(name, turns));
  }

  lemma {:induction false} ProgressThrough(name: string, turns: seq<Turn>, k: nat, read: seq<Line>)
    requires k <= |turns| && ReadAs(name, turns, read)
    requires forall i :: 0 <= i < k ==> turns[i].start < turns[i].end
    ensures Collect(read, k) == Ok(Progress(SegmentsOf(turns[..k]), if k == 0 then {} else {name}))
  {
    if k > 0 {
      ProgressThrough(name, turns, k - 1, read);
      assert SegmentsOf(turns[..k]) == SegmentsOf(turns[..k - 1]) + [SegmentOf(turns[k - 1])];
      assert (if k == 1 then {} else {name}) + {name} == {name};
    }
  }

  /** A turn that does not end after it starts is refused, by its line number. */
  lemma BackwardTurnRefused(name: string, turns: seq<Turn>, k: nat)
    requires Printable(name, turns) && k < |turns| && turns[k].start >= turns[k].end
    requires forall i :: 0 <= i < k ==> turns[i].start < turns[i].end
    ensures Parse(Unlines(name, turns)) == Err(EndNotAfterStart(k + 1))
  {
    var read := TextReadsBack(name, turns);
    RefusedRead(Fields(name)[0], turns, k, read);
  }

  lemma RefusedRead(name: string, turns: seq<Turn>, k: nat, read: seq<Line>)
    requires ReadAs(name, turns, read) && k < |turns| && turns[k].start >= turns[k].end
    requires forall i :: 0 <= i < k ==> turns[i].start < turns[i].end
    ensures ParseRead(read) == Err(EndNotAfterStart(k + 1))
  {
    ProgressThrough(name, turns, k, read);
    FirstErrorStays(read, k + 1, |read|);
  }

  lemma ForwardTurnsParse(name: string, turns: seq<Turn>)
    requires Printable(name, turns) && turns != [] && forall i :: 0 <= i < |turns| ==> turns[i].start < turns[i].end
    ensures Parse(Unlines(name, turns)) == Ok(SegmentsOf(turns))
  {
    var read := TextReadsBack(name, turns);
    ForwardRead(Fields(name)[0], turns, read);
  }

  lemma ForwardRead(name: string, turns: seq<Turn>, read: seq<Line>)
    requires ReadAs(name, turns, read) && turns != [] && forall i :: 0 <= i < |turns| ==> turns[i].start < turns[i].end
    ensures ParseRead(read) == Ok(SegmentsOf(turns))
  {
    ProgressThrough(name, turns, |turns|, read);
    assert turns[..|turns|] == turns;
  }

  lemma {:induction false} FirstBackward(turns: seq<Turn>, k: nat) returns (first: nat)
    requires k < |turns| && turns[k].start >= turns[k].end
    ensures first <= k && turns[first].start >= turns[first].end
    ensures forall i :: 0 <= i < first ==> turns[i].start < turns[i].end
  {
    first := k;
    if i: nat :| i < k && turns[i].start >= turns[i].end {
      first := FirstBackward(turns, i);
    }
  }

  lemma SameMembers(turns: seq<Turn>, sorted: seq<Turn>)
    requires multiset(turns) == multiset(sorted)
    ensures forall t :: t in turns <==> t in sorted
  {
    forall t
      ensures t in turns <==> t in sorted
    {
      assert t in turns <==> t in multiset(turns);
      assert t in sorted <==> t in multiset(sorted);
    }
  }

  lemma SortedLabels(turns: seq<Turn>, sorted: seq<Turn>)
    requires multiset(turns) == multiset(sorted)
    ensures WordLabels(turns) <==> WordLabels(sorted)
  {
    SameMembers(turns, sorted);
    assert forall i :: 0 <= i < |sorted| ==> sorted[i] in turns;
    assert forall i :: 0 <= i < |turns| ==> turns[i] in sorted;
  }

  lemma SortedParses(name: string, sorted: seq<Turn>)
    requires Printable(name, sorted) && sorted != []
    ensures Parse(Unlines(name, sorted)) == Ok(SegmentsOf(sorted)) <==> forall t :: t in sorted ==> t.start < t.end
  {
    if t :| t in sorted && t.start >= t.end {
      var k :| 0 <= k < |sorted| && sorted[k] == t;
      var first := FirstBackward(sorted, k);
      BackwardTurnRefused(name, sorted, first);
    } else {
      ForwardTurnsParse(name, sorted);
    }
  }

  ghost predicate WordSegments(segments: seq<Segment>) {
    forall i :: 0 <= i < |segments| ==> Word(segments[i].speaker)
  }

  lemma SpokenIsWord(raw: string, number: nat)
    ensures var line := ReadLine(raw, number); line.Spoken? ==> Word(line.segment.speaker)
  {
    BeforeHashHasNone(raw);
    FieldsAreWords(BeforeHash(raw));
  }

  lemma {:induction false} CollectWords(read: seq<Line>, k: nat)
    requires k <= |read| && forall i :: 0 <= i < |read| && read[i].Spoken? ==> Word(read[i].segment.speaker)
    ensures Collect(read, k).Ok? ==> WordSegments(Collect(read, k).value.segments)
  {
    if k > 0 {
      CollectWords(read, k - 1);
    }
  }

  /** Whatever the text, every label that is parsed is one word. */
  lemma ParsedLabelsAreWords(text: string)
    requires Parse(text).Ok?
    ensures WordSegments(Parse(text).value)
  {
    LinesAreWords(SplitLines(text), ReadAll(SplitLines(text)));
  }

  lemma LinesAreWords(lines: seq<string>, read: seq<Line>)
    requires read == ReadAll(lines)
    ensures Collect(read, |read|).Ok? ==> WordSegments(Collect(read, |read|).value.segments)
  {
    forall i | 0 <= i < |read|
      ensures read[i].Spoken? ==> Word(read[i].segment.speaker)
    {
      SpokenIsWord(lines[i], i + 1);
    }
    CollectWords(read, |read|);
  }

  /** A file name that does not read as one field makes the first line one of too few or too many fields. */
  lemma NameNotOneField(name: string, turns: seq<Turn>)
    requires Clean(name) && |Fields(name)| != 1 && WordLabels(turns) && turns != []
    ensures Parse(Unlines(name, turns)) == Err(FieldCount(1, 9 + |Fields(name)|))
  {
    var lines, t := LinesOf(name, turns), turns[0];
    LinesReadBack(name, turns);
    LineParts(name, t);
    TailIsWords(t);
    LineSplits(name, TailFields(t), lines[0]);
    UpperSpeaker();
    assert (["SPEAKER"] + Fields(name) + TailFields(t))[0] == "SPEAKER";
    assert FirstBad(ReadAll(lines), 0);
    FirstBadDecides(ReadAll(lines), 0);
  }

  lemma SortedRoundTrip(name: string, sorted: seq<Turn>)
    requires Clean(name) && sorted != []
    ensures Parse(Unlines(name, sorted)) == Ok(SegmentsOf(sorted))
       <==> |Fields(name)| == 1 && WordLabels(sorted) && forall t :: t in sorted ==> t.start < t.end
  {
    if !WordLabels(sorted) {
      var i :| 0 <= i < |sorted| && !Word(sorted[i].speaker);
      assert SegmentsOf(sorted)[i].speaker == sorted[i].speaker;
      if Parse(Unlines(name, sorted)).Ok? {
        ParsedLabelsAreWords(Unlines(name, sorted));
      }
    } else if |Fields(name)| != 1 {
      NameNotOneField(name, sorted);
    } else {
      SortedParses(name, sorted);
    }
  }

  /**
   * For a file name without comment sign or line break, parsing the printed text gives back exactly
   * the sorted turns precisely when there are turns, the name reads as one field, every label is
   * one word and each turn ends after it starts.
   */
  lemma RoundTripExactly(name: string, turns: seq<Turn>)
    requires Clean(name)
    ensures Parse(RttmText(name, turns)) == Ok(SegmentsOf(Sort(turns, TurnLe)))
       <==> turns != [] && |Fields(name)| == 1 && WordLabels(turns) && forall t :: t in turns ==> t.start < t.end
    ensures turns == [] ==> Parse(RttmText(name, turns)) == Err(NoSegments)
    ensures Ordered(Sort(turns, TurnLe), TurnLe) && multiset(Sort(turns, TurnLe)) == multiset(turns)
  {
    var sorted := Sort(turns, TurnLe);
    TurnLeOrder();
    SortOrdered(turns, TurnLe);
    if turns == [] {
      NothingPrinted();
    } else {
      assert |sorted| == |multiset(sorted)| == |multiset(turns)| == |turns|;
      SortedLabels(turns, sorted);
      SameMembers(turns, sorted);
      SortedRoundTrip(name, sorted);
    }
  }

  /** What follows SPEAKER in the printed line of `t`, and a comment sign. */
  function MaskingName(file: string, t: Turn): string {
    file + " " + Spaced(TailFields(t)) + "#"
  }

  /**
   * With a comment sign in the file name the text may say something else altogether: under this
   * name every turn is read as `t`.
   */
  lemma HashInName(file: string, t: Turn, u: Turn)
    requires Clean(file) && |Fields(file)| == 1 && Word(t.speaker) && t.start < t.end && Word(u.speaker)
    ensures Parse(RttmText(MaskingName(file, t), [u])) == Ok([SegmentOf(t)])
  {
    var name, shown := MaskingName(file, t), Spaced(LineFields(file, t));
    var raw := Spaced(LineFields(name, u));
    LineParts(file, t);
    LineParts(name, u);
    PrintedIsClean(file, t);
    TailIsWords(u);
    SpacedIsClean(TailFields(u));
    Masks(file, Spaced(TailFields(t)), Spaced(TailFields(u)), shown, raw);
    LineReadsBack(file, t, 1);
    OneTurnText(name, u, raw);
    OneSpoken(ReadAll([raw]), Fields(file)[0], SegmentOf(t));
  }

  lemma Masks(file: string, tail: string, other: string, shown: string, raw: string)
    requires shown == "SPEAKER" + " " + (file + " " + tail) && raw == "SPEAKER" + " " + ((file + " " + tail + "#") + " " + other)
    requires Clean(shown) && Clean(other)
    ensures OneLine(raw) && ReadLine(raw, 1) == ReadLine(shown, 1)
  {
    assert raw == shown + "#" + (" " + other);
    BeforeHashCuts(shown, " " + other);
    CleanHasNoComment(shown);
  }

  lemma OneTurnText(name: string, u: Turn, raw: string)
    requires raw == Spaced(LineFields(name, u)) && OneLine(raw)
    ensures SplitLines(RttmText(name, [u])) == [raw]
  {
    TurnLeOrder();
    assert Sort([u], TurnLe) == [u];
    FirstLine(raw, "");
    assert Unlines(name, [u]) == raw + "\n" + "";
  }

  lemma OneSpoken(read: seq<Line>, file: string, segment: Segment)
    requires read == [Spoken(Some(file), segment)]
    ensures ParseRead(read) == Ok([segment])
  {
    var none: seq<Segment> := [];
    assert Collect(read, 0) == Ok(Progress(none, {}));
    assert none + [segment] == [segment] && {} + FileSet(Some(file)) == {file};
    assert Collect(read, 1) == Ok(Progress([segment], {file}));
  }

  lemma NothingPrinted()
    ensures Parse("\n") == Err(NoSegments)
  {
    assert LineLength("\n") == 0;
    assert SplitLines("\n"[1..]) == [];
    assert SplitLines("\n") == [""];
    assert ReadAll([""]) == [Empty];
    assert Collect([Empty], 1) == Ok(Progress([], {}));
  }
}
