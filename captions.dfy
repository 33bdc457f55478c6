/**
 * Captions (Editor/script.js): the SubRip parser `parseSRT`, its time-stamp
 * reader `parseTimeString` with the JavaScript number readers it calls, and
 * the lookup of the caption shown at a given time. A JavaScript `NaN` is
 * `None` here.
 */
module Captions {
  import opened Wrappers
  import opened Text

  // ---------------------------------------------------------------------------
  // parseInt and parseFloat.

  /** The longest prefix of `s` made of decimal digits. */
  function LeadingDigits(s: string): (d: string)
    ensures |d| <= |s| && AllDigits(d)
  {
    if s != [] && IsDigit(s[0]) then [s[0]] + LeadingDigits(s[1..]) else []
  }

  /** The digits read are a prefix of the text, and the character after them is not a digit. */
  lemma {:induction false} LeadingDigitsLongest(s: string)
    ensures var d := LeadingDigits(s);
      && d == s[..|d|]
      && (|d| < |s| ==> !IsDigit(s[|d|]))
  {
    if s != [] && IsDigit(s[0]) {
      LeadingDigitsLongest(s[1..]);
    }
  }

  lemma LeadingDigitsOf(d: string, rest: string)
    requires AllDigits(d)
    requires rest == [] || !IsDigit(rest[0])
    ensures LeadingDigits(d + rest) == d
  {
    if d != [] {
      assert (d + rest)[1..] == d[1..] + rest;
      LeadingDigitsOf(d[1..], rest);
    }
  }

  /** A leading sign: whether it is `-`, and the text after it (a `+` is dropped too). */
  function SignOf(s: string): (bool, string)
  {
    if s != [] && s[0] == '-' then (true, s[1..])
    else if s != [] && s[0] == '+' then (false, s[1..])
    else (false, s)
  }

  /** `parseInt(s)` (decimal): leading space skipped, a sign, then as many digits as there are; none is `NaN`. */
  function ParseInt(s: string): Option<int>
  {
    var (negative, rest) := SignOf(TrimStart(s));
    var digits := LeadingDigits(rest);
    if digits == [] then None
    else
      var v: int := DigitsValue(digits);
      Some(if negative then -v else v)
  }

  /** The value of a digit string read as the part after a decimal point: `0.d₀d₁…` is `(d₀ + 0.d₁…) / 10`. */
  function Fraction(d: string): (f: real)
    requires AllDigits(d)
    ensures 0.0 <= f < 1.0
  {
    if d == [] then 0.0 else (DigitValue(d[0]) as real + Fraction(d[1..])) / 10.0
  }

  /** The number written `w.f`. */
  function DecimalValue(w: string, f: string): real
    requires AllDigits(w) && AllDigits(f)
  {
    DigitsValue(w) as real + Fraction(f)
  }

  /**
   * `parseFloat(s)`: leading space skipped, a sign, digits, and optionally a
   * point followed by more digits; with no digit on either side it is `NaN`.
   */
  function ParseFloat(s: string): Option<real>
  {
    var (negative, rest) := SignOf(TrimStart(s));
    var whole := LeadingDigits(rest);
    var after := rest[|whole|..];
    var frac := if after != [] && after[0] == '.' then LeadingDigits(after[1..]) else [];
    if whole == [] && frac == [] then None
    else
      var v := DecimalValue(whole, frac);
      Some(if negative then -v else v)
  }

  /** Text starting with a digit has no leading space and no sign. */
  lemma StartsWithDigit(s: string)
    requires |s| > 0 && IsDigit(s[0])
    ensures TrimStart(s) == s
    ensures SignOf(s) == (false, s)
  {
  }

  /** Plain digits are read as their value by both readers. */
  lemma ParseDigits(d: string)
    requires |d| > 0 && AllDigits(d)
    ensures ParseInt(d) == Some(DigitsValue(d))
    ensures ParseFloat(d) == Some(DigitsValue(d) as real)
  {
    ParseIntDigits(d);
    ParseFloatDigits(d);
  }

  lemma ParseIntDigits(d: string)
    requires |d| > 0 && AllDigits(d)
    ensures ParseInt(d) == Some(DigitsValue(d))
  {
    StartsWithDigit(d);
    EmptyRest(d);
    LeadingDigitsOf(d, []);
  }

  lemma ParseFloatDigits(d: string)
    requires |d| > 0 && AllDigits(d)
    ensures ParseFloat(d) == Some(DigitsValue(d) as real)
  {
    StartsWithDigit(d);
    EmptyRest(d);
    LeadingDigitsOf(d, []);
  }

  lemma EmptyRest(d: string)
    ensures d + [] == d && d[|d|..] == []
  {
  }

  /** `w.f` is read as the whole part plus the fraction. */
  lemma ParseDecimal(w: string, f: string)
    requires |w| > 0 && AllDigits(w) && AllDigits(f)
    ensures ParseFloat(w + "." + f) == Some(DecimalValue(w, f))
  {
    DecimalPieces(w, f);
    StartsWithDigit(w + "." + f);
    LeadingDigitsOf(w, "." + f);
    LeadingDigitsOf(f, []);
  }

  lemma DecimalPieces(w: string, f: string)
    ensures w + "." + f == w + ("." + f)
    ensures (w + "." + f)[|w|..] == "." + f
    ensures ("." + f)[1..] == f + [] == f
  {
  }

  // ---------------------------------------------------------------------------
  // parseTimeString.

  /** Hours, minutes and seconds as seconds. */
  function Clock(h: int, m: int, s: real): real
  {
    (h * 3600 + m * 60) as real + s
  }

  /**
   * `parseTimeString(t)`: the first ',' becomes '.', the text is split at
   * ':', and hours, minutes and seconds are combined; any `NaN` part, a
   * missing one included, makes the result `NaN`.
   */
  function ParseTimeString(t: string): Option<real>
  {
    var parts := Split(ReplaceFirst(t, ',', '.'), ":");
    if |parts| < 3 then None
    else
      var h, m, s := ParseInt(parts[0]), ParseInt(parts[1]), ParseFloat(parts[2]);
      if h.Some? && m.Some? && s.Some? then Some(Clock(h.value, m.value, s.value)) else None
  }

  /** A SubRip time stamp `HH:MM:SS,mmm` reads as its hours, minutes and seconds with the milliseconds as a fraction. */
  lemma ParseSrtTimeStamp(h: string, m: string, s: string, ms: string)
    requires |h| > 0 && |m| > 0 && |s| > 0
    requires AllDigits(h) && AllDigits(m) && AllDigits(s) && AllDigits(ms)
    ensures ParseTimeString(h + ":" + m + ":" + s + "," + ms) == Some(Clock(DigitsValue(h), DigitsValue(m), DecimalValue(s, ms)))
  {
    StampParts(h, m, s, ms);
    ParseDigits(h);
    ParseDigits(m);
    ParseDecimal(s, ms);
    ParseTimeOfParts(h + ":" + m + ":" + s + "," + ms, h, m, s + "." + ms, DigitsValue(h), DigitsValue(m), DecimalValue(s, ms));
  }

  /** The parts `parseTimeString` finds in `HH:MM:SS,mmm`. */
  lemma StampParts(h: string, m: string, s: string, ms: string)
    requires AllDigits(h) && AllDigits(m) && AllDigits(s) && AllDigits(ms)
    ensures Split(ReplaceFirst(h + ":" + m + ":" + s + "," + ms, ',', '.'), ":") == [h, m, s + "." + ms]
  {
    ReplaceFirstComma(h, m, s, ms);
    NoColonInStamp(h, m, s, ms);
    SplitThree(':', h, m, s + "." + ms);
  }

  /** `parseTimeString` of a text whose three parts read as `x`, `y` and `z`. */
  lemma ParseTimeOfParts(t: string, h: string, m: string, f: string, x: int, y: int, z: real)
    requires Split(ReplaceFirst(t, ',', '.'), ":") == [h, m, f]
    requires ParseInt(h) == Some(x) && ParseInt(m) == Some(y) && ParseFloat(f) == Some(z)
    ensures ParseTimeString(t) == Some(Clock(x, y, z))
  {
  }

  /** A time text with fewer than three parts, or with a part that is not a number, is `NaN`. */
  lemma ParseTimeNaN(t: string)
    requires var parts := Split(ReplaceFirst(t, ',', '.'), ":");
      |parts| < 3 || ParseInt(parts[0]).None? || ParseInt(parts[1]).None? || ParseFloat(parts[2]).None?
    ensures ParseTimeString(t).None?
  {
  }

  lemma ReplaceFirstComma(h: string, m: string, s: string, ms: string)
    requires AllDigits(h) && AllDigits(m) && AllDigits(s) && AllDigits(ms)
    ensures ReplaceFirst(h + ":" + m + ":" + s + "," + ms, ',', '.') == h + ":" + m + ":" + (s + "." + ms)
  {
    NoCommaInDigits(h, m, s);
    RegroupStamp(h, m, s, ms);
    ReplaceFirstAt(h + ":" + m + ":" + s, ms, ',', '.');
  }

  lemma NoCommaInDigits(h: string, m: string, s: string)
    requires AllDigits(h) && AllDigits(m) && AllDigits(s)
    ensures ',' !in h + ":" + m + ":" + s
  {
    assert ',' !in h;
    assert ',' !in m;
    assert ',' !in s;
  }

  lemma NoColonInStamp(h: string, m: string, s: string, ms: string)
    requires AllDigits(h) && AllDigits(m) && AllDigits(s) && AllDigits(ms)
    ensures ':' !in h && ':' !in m && ':' !in s + "." + ms
  {
    NoDigit(h, ':');
    NoDigit(m, ':');
    NoDigit(s, ':');
    NoDigit(ms, ':');
  }

  /** A character that is not a digit does not occur in a digit string. */
  lemma NoDigit(d: string, c: char)
    requires AllDigits(d) && !IsDigit(c)
    ensures c !in d
  {
  }

  lemma RegroupStamp(h: string, m: string, s: string, ms: string)
    ensures h + ":" + m + ":" + s + "," + ms == (h + ":" + m + ":" + s) + [','] + ms
    ensures h + ":" + m + ":" + (s + "." + ms) == (h + ":" + m + ":" + s) + ['.'] + ms
  {
  }

  /** Splitting `a`, `b` and `c` joined by a one-character separator that no part holds gives the three parts back. */
  lemma SplitThree(sep: char, a: string, b: string, c: string)
    requires sep !in a && sep !in b && sep !in c
    ensures Split(a + [sep] + b + [sep] + c, [sep]) == [a, b, c]
  {
    var pieces := [a, b, c];
    forall k, j | 0 <= k < |pieces| && 0 <= j
      ensures !OccursAt(pieces[k] + [sep], [sep], j) || j == |pieces[k]|
    {
      OnlyAtEnd(pieces[k], sep, j);
    }
    SplitJoin(pieces, [sep]);
    assert Join(pieces, [sep]) == a + [sep] + b + [sep] + c by {
      assert Join([c], [sep]) == c;
      assert Join([b, c], [sep]) == b + [sep] + c by {
        assert [b, c][1..] == [c];
      }
      assert pieces[1..] == [b, c];
    }
  }

  /** A one-character separator absent from `p` occurs in `p + sep` only at the end. */
  lemma OnlyAtEnd(p: string, c: char, j: nat)
    requires c !in p
    ensures !OccursAt(p + [c], [c], j) || j == |p|
  {
    if j < |p| {
      assert (p + [c])[j..j + 1] == [p[j]];
    }
  }

  // ---------------------------------------------------------------------------
  // parseSRT.

  /** A caption; either end may be `NaN` (`None`) when its time stamp did not parse. */
  datatype Caption = Caption(start: Option<real>, end: Option<real>, text: string)

  /**
   * One block of an SRT file: its trimmed lines, if there are at least three,
   * are an index, a `start --> end` line and the text, whose lines are joined
   * with spaces. Anything else is dropped.
   */
  function ParseBlock(block: string): (c: Option<Caption>)
    ensures c.Some? ==> |Split(Trim(block), "\n")| >= 3
  {
    var lines := Split(Trim(block), "\n");
    if |lines| < 3 then None
    else
      var times := Split(lines[1], " --> ");
      if |times| != 2 then None
      else Some(Caption(ParseTimeString(Trim(times[0])), ParseTimeString(Trim(times[1])), Join(lines[2..], " ")))
  }

  /** `filter(Boolean)` over parsed blocks: the values that are present, in order. */
  function Present<T>(xs: seq<Option<T>>): (ys: seq<T>)
    ensures |ys| <= |xs|
  {
    if xs == [] then []
    else if xs[0].Some? then [xs[0].value] + Present(xs[1..])
    else Present(xs[1..])
  }

  /** `parseSRT(content)`: the content split into blank-line separated blocks, each parsed on its own, the failures dropped. */
  function ParseSRT(content: string): (cs: seq<Caption>)
    ensures |cs| <= |Split(content, "\n\n")|
  {
    var blocks := Split(content, "\n\n");
    Present(seq(|blocks|, i requires 0 <= i < |blocks| => ParseBlock(blocks[i])))
  }

  /** Every value kept comes from some entry, in order. */
  lemma {:induction false} PresentFrom<T>(xs: seq<Option<T>>, k: nat)
    requires k < |Present(xs)|
    ensures exists i :: 0 <= i < |xs| && xs[i] == Some(Present(xs)[k])
  {
    if xs[0].Some? && k == 0 {
      assert xs[0] == Some(Present(xs)[0]);
    } else {
      var k' := if xs[0].Some? then k - 1 else k;
      assert Present(xs)[k] == Present(xs[1..])[k'];
      PresentFrom(xs[1..], k');
      var i :| 0 <= i < |xs[1..]| && xs[1..][i] == Some(Present(xs[1..])[k']);
      assert xs[i + 1] == xs[1..][i];
    }
  }

  /** When every entry is present, all of them are kept. */
  lemma {:induction false} PresentAll<T>(xs: seq<Option<T>>, ys: seq<T>)
    requires |xs| == |ys|
    requires forall i :: 0 <= i < |xs| ==> xs[i] == Some(ys[i])
    ensures Present(xs) == ys
  {
    if xs != [] {
      PresentAll(xs[1..], ys[1..]);
      assert ys == [ys[0]] + ys[1..];
    }
  }

  /** Every caption `parseSRT` returns is the parse of one of the content's blocks. */
  lemma ParseSRTFrom(content: string, k: nat)
    requires k < |ParseSRT(content)|
    ensures exists i :: 0 <= i < |Split(content, "\n\n")| && ParseBlock(Split(content, "\n\n")[i]) == Some(ParseSRT(content)[k])
  {
    var blocks := Split(content, "\n\n");
    var parsed := seq(|blocks|, i requires 0 <= i < |blocks| => ParseBlock(blocks[i]));
    PresentFrom(parsed, k);
    var i :| 0 <= i < |parsed| && parsed[i] == Some(Present(parsed)[k]);
  }

  /** A blank line (`\n\n`) occurs in `b` followed by one only where the two meet. */
  predicate SeparableBlock(b: string)
  {
    forall j: nat :: j <= |b| + 2 && OccursAt(b + "\n\n", "\n\n", j) ==> j == |b|
  }

  /** A file written as blocks that parse and are separable (no blank line, no trailing line break), separated by blank lines, reads back as exactly their captions. */
  lemma ParseSRTJoin(blocks: seq<string>, captions: seq<Caption>)
    requires |blocks| >= 1 && |blocks| == |captions|
    requires forall i :: 0 <= i < |blocks| ==> SeparableBlock(blocks[i])
    requires forall i :: 0 <= i < |blocks| ==> ParseBlock(blocks[i]) == Some(captions[i])
    ensures ParseSRT(Join(blocks, "\n\n")) == captions
  {
    forall k, j | 0 <= k < |blocks| && 0 <= j
      ensures !OccursAt(blocks[k] + "\n\n", "\n\n", j) || j == |blocks[k]|
    {
      assert SeparableBlock(blocks[k]);
    }
    SplitJoin(blocks, "\n\n");
    var parsed := seq(|blocks|, i requires 0 <= i < |blocks| => ParseBlock(blocks[i]));
    PresentAll(parsed, captions);
  }

  /** A block with a time line and a one-line text, and no space at its ends, parses to that caption. */
  lemma ParseBlockOf(index: string, start: string, end: string, text: string)
    requires '\n' !in index && '\n' !in start && '\n' !in end && '\n' !in text
    requires |index| > 0 && !IsJsSpace(index[0])
    requires |text| > 0 && !IsJsSpace(text[|text| - 1])
    requires Split(start + " --> " + end, " --> ") == [start, end]
    ensures ParseBlock(index + "\n" + (start + " --> " + end) + "\n" + text)
         == Some(Caption(ParseTimeString(Trim(start)), ParseTimeString(Trim(end)), text))
  {
    var timeLine := start + " --> " + end;
    BlockEnds(index, timeLine, text);
    TrimNoSpace(index + "\n" + timeLine + "\n" + text);
    NoLineBreakInTimeLine(start, end);
    SplitThree('\n', index, timeLine, text);
    ParseBlockOfLines(index + "\n" + timeLine + "\n" + text, index, timeLine, text, start, end);
  }

  lemma BlockEnds(index: string, timeLine: string, text: string)
    requires |index| > 0 && |text| > 0
    ensures var block := index + "\n" + timeLine + "\n" + text;
      block[0] == index[0] && block[|block| - 1] == text[|text| - 1]
  {
  }

  lemma NoLineBreakInTimeLine(start: string, end: string)
    requires '\n' !in start && '\n' !in end
    ensures '\n' !in start + " --> " + end
  {
  }

  /** A block whose trimmed lines are an index, a time line and one text line. */
  lemma ParseBlockOfLines(block: string, index: string, timeLine: string, text: string, start: string, end: string)
    requires Split(Trim(block), "\n") == [index, timeLine, text]
    requires Split(timeLine, " --> ") == [start, end]
    ensures ParseBlock(block) == Some(Caption(ParseTimeString(Trim(start)), ParseTimeString(Trim(end)), text))
  {
    assert [index, timeLine, text][2..] == [text];
  }

  // ---------------------------------------------------------------------------
  // The caption at a given time.

  /** Caption `c` is shown at time `t`: both ends are numbers and `t` lies between them, inclusive. */
  predicate Covers(c: Caption, t: real)
  {
    c.start.Some? && c.end.Some? && c.start.value <= t <= c.end.value
  }

  /** `captions.find(c => t >= c.start && t <= c.end)`: the first caption covering `t`, if any. */
  function CaptionAt(captions: seq<Caption>, t: real): (r: Option<nat>)
    ensures r.Some? ==> r.value < |captions| && Covers(captions[r.value], t)
    ensures r.Some? ==> forall k :: 0 <= k < r.value ==> !Covers(captions[k], t)
    ensures r.None? <==> forall k :: 0 <= k < |captions| ==> !Covers(captions[k], t)
  {
    if captions == [] then None
    else if Covers(captions[0], t) then Some(0)
    else
      match CaptionAt(captions[1..], t)
      case None => None
      case Some(i) =>
        assert forall k :: 1 <= k <= i ==> captions[k] == captions[1..][k - 1];
        Some(i + 1)
  }

  /** A caption whose time stamp did not parse is never shown. */
  lemma UnparsedNeverShown(captions: seq<Caption>, t: real, k: nat)
    requires k < |captions| && (captions[k].start.None? || captions[k].end.None?)
    ensures CaptionAt(captions, t) != Some(k)
  {
  }
}
