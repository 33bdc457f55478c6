/**
 * The editor's string helpers (Editor/script.js): the `m:ss` time display
 * `fmt`, the file-name prettifier `formatFileName`, and the JavaScript
 * string primitives they and the caption parser rely on (`split`, `join`,
 * `trim`, `padStart`, decimal conversion).
 */
module Text {
  import opened Wrappers

  // ---------------------------------------------------------------------------
  // Decimal digits.

  predicate IsDigit(c: char)
  {
    '0' <= c <= '9'
  }

  predicate AllDigits(s: string)
  {
    forall i :: 0 <= i < |s| ==> IsDigit(s[i])
  }

  function DigitChar(d: nat): (c: char)
    requires d < 10
    ensures IsDigit(c)
  {
    ('0' as int + d) as char
  }

  function DigitValue(c: char): (d: nat)
    requires IsDigit(c)
    ensures d < 10 && DigitChar(d) == c
  {
    (c as int - '0' as int) as nat
  }

  /** The value of a string of decimal digits, most significant first. */
  function DigitsValue(s: string): nat
    requires AllDigits(s)
  {
    if s == [] then 0 else DigitsValue(s[..|s| - 1]) * 10 + DigitValue(s[|s| - 1])
  }

  /** `String(n)` for a natural number: its shortest decimal spelling. */
  function NatToString(n: nat): (s: string)
    ensures |s| >= 1 && AllDigits(s)
    ensures |s| == 1 <==> n < 10
    ensures n >= 10 ==> s[0] != '0'
  {
    if n < 10 then [DigitChar(n)] else NatToString(n / 10) + [DigitChar(n % 10)]
  }

  /** Reading the spelling back gives the number. */
  lemma {:induction false} NatToStringRoundTrip(n: nat)
    ensures DigitsValue(NatToString(n)) == n
  {
    var s := NatToString(n);
    if n >= 10 {
      NatToStringRoundTrip(n / 10);
      assert s[..|s| - 1] == NatToString(n / 10);
    }
  }

  /** `String(n)` for an integer: a minus sign before a negative number's digits. */
  function IntToString(n: int): (s: string)
    ensures n >= 0 ==> s == NatToString(n)
    ensures n < 0 ==> s == "-" + NatToString(-n)
  {
    if n < 0 then "-" + NatToString(-n) else NatToString(n)
  }

  /** `s.padStart(2, '0')`: a one-character string gets a leading zero. */
  function PadStart2(s: string): (r: string)
    ensures |s| >= 2 ==> r == s
    ensures |s| < 2 ==> |r| == 2 && r[2 - |s|..] == s && forall i :: 0 <= i < 2 - |s| ==> r[i] == '0'
  {
    if |s| >= 2 then s else if |s| == 1 then "0" + s else "00"
  }

  // ---------------------------------------------------------------------------
  // `fmt(s)`: minutes, a colon and two-digit seconds.

  /** `Math.floor` of a real. */
  function Floor(x: real): int
  {
    x.Floor
  }

  /** JavaScript's `s % 60`: the remainder takes the sign of the dividend. */
  function Rem60(x: real): (r: real)
    ensures x >= 0.0 ==> 0.0 <= r < 60.0
    ensures x < 0.0 ==> -60.0 < r <= 0.0
  {
    var q := x / 60.0;
    var t := if q >= 0.0 then q.Floor else -((-q).Floor);
    x - 60.0 * t as real
  }

  function Minutes(s: real): int
  {
    Floor(s / 60.0)
  }

  function Seconds(s: real): int
  {
    Floor(Rem60(s))
  }

  /** `fmt(s)`: `Math.floor(s/60) + ':' + String(Math.floor(s%60)).padStart(2,'0')`. */
  function Fmt(s: real): string
  {
    IntToString(Minutes(s)) + ":" + PadStart2(IntToString(Seconds(s)))
  }

  /** For a non-negative time the two fields are whole minutes and the remaining whole seconds. */
  lemma FmtFields(s: real)
    requires s >= 0.0
    ensures 0 <= Seconds(s) < 60
    ensures 0 <= Minutes(s)
    ensures Minutes(s) * 60 + Seconds(s) == Floor(s)
  {
    var m := Minutes(s);
    assert m as real <= s / 60.0 < m as real + 1.0;
    assert 60.0 * m as real <= s < 60.0 * m as real + 60.0;
    var r := s - 60.0 * m as real;
    assert Rem60(s) == r;
    assert r.Floor == s.Floor - 60 * m by {
      var f := s.Floor;
      assert f as real <= s < f as real + 1.0;
      assert (f - 60 * m) as real <= r < (f - 60 * m) as real + 1.0;
    }
  }

  /** Splitting a non-negative time's display at its colon and reading both fields back gives the whole seconds. */
  lemma FmtRoundTrip(s: real)
    requires s >= 0.0
    ensures var f := Fmt(s);
      var m := NatToString(Minutes(s));
      && f == m + ":" + f[|m| + 1..]
      && |f[|m| + 1..]| == 2 && AllDigits(f[|m| + 1..])
      && DigitsValue(m) * 60 + DigitsValue(f[|m| + 1..]) == Floor(s)
  {
    FmtFields(s);
    var m := NatToString(Minutes(s));
    var sec := NatToString(Seconds(s));
    var ss := PadStart2(sec);
    assert Fmt(s) == m + ":" + ss;
    assert (m + ":" + ss)[|m| + 1..] == ss;
    NatToStringRoundTrip(Minutes(s));
    NatToStringRoundTrip(Seconds(s));
    if |sec| == 1 {
      assert ss == "0" + sec;
      assert ss[..1] == "0";
      assert DigitsValue(ss[..1]) == 0 by {
        assert ss[..1][..0] == [];
      }
    }
  }

  lemma FmtExamples()
    ensures Fmt(0.0) == "0:00"
    ensures Fmt(75.5) == "1:15"
    ensures Fmt(-5.0) == "-1:-5"
  {
    assert Minutes(75.5) == 1;
    assert Seconds(75.5) == 15;
    assert NatToString(15) == "15" by {
      assert NatToString(1) == "1";
    }
    assert Minutes(-5.0) == -1;
    assert Seconds(-5.0) == -5;
  }

  // ---------------------------------------------------------------------------
  // split, join and trim.

  /** Whether `sep` occurs in `s` at index `i`. */
  predicate OccursAt(s: string, sep: string, i: nat)
  {
    i + |sep| <= |s| && s[i..i + |sep|] == sep
  }

  /** `s.split(sep)` for a non-empty separator: the pieces between occurrences, scanning left to right. */
  function Split(s: string, sep: string): (pieces: seq<string>)
    requires |sep| > 0
    ensures |pieces| >= 1
    decreases |s|, 1, 0
  {
    SplitFrom(s, sep, 0)
  }

  function SplitFrom(s: string, sep: string, i: nat): (pieces: seq<string>)
    requires |sep| > 0 && i <= |s|
    ensures |pieces| >= 1
    decreases |s|, 0, |s| - i
  {
    if i + |sep| > |s| then [s]
    else if s[i..i + |sep|] == sep then [s[..i]] + Split(s[i + |sep|..], sep)
    else SplitFrom(s, sep, i + 1)
  }

  /** `pieces.join(sep)`. */
  function Join(pieces: seq<string>, sep: string): string
  {
    if pieces == [] then ""
    else if |pieces| == 1 then pieces[0]
    else pieces[0] + sep + Join(pieces[1..], sep)
  }

  /** A string with no occurrence of `sep` is one piece. */
  lemma {:induction false} SplitNoSeparator(s: string, sep: string, i: nat)
    requires |sep| > 0 && i <= |s|
    requires forall j :: i <= j && OccursAt(s, sep, j) ==> false
    ensures SplitFrom(s, sep, i) == [s]
    decreases |s| - i
  {
    if i + |sep| <= |s| {
      assert !OccursAt(s, sep, i);
      SplitNoSeparator(s, sep, i + 1);
    }
  }

  /** Joining pieces and splitting again gives the pieces back, when `sep` occurs in each `piece + sep` only at the join. */
  lemma {:induction false} SplitJoin(pieces: seq<string>, sep: string)
    requires |sep| > 0 && |pieces| >= 1
    requires forall k, j :: 0 <= k < |pieces| && 0 <= j ==> !OccursAt(pieces[k] + sep, sep, j) || j == |pieces[k]|
    ensures Split(Join(pieces, sep), sep) == pieces
    decreases |pieces|
  {
    if |pieces| == 1 {
      NoSeparatorIn(pieces[0], sep);
      SplitNoSeparator(pieces[0], sep, 0);
    } else {
      var p := pieces[0];
      var rest := Join(pieces[1..], sep);
      var s := p + sep + rest;
      FirstSeparatorAt(p, sep, rest);
      assert s[|p| + |sep|..] == rest;
      SplitJoin(pieces[1..], sep);
    }
  }

  /** Splitting and joining again gives the text back, and no piece holds the separator. */
  lemma {:induction false} JoinSplit(s: string, sep: string)
    requires |sep| > 0
    ensures Join(Split(s, sep), sep) == s
    ensures forall k, j :: 0 <= k < |Split(s, sep)| ==> !OccursAt(Split(s, sep)[k], sep, j)
    decreases |s|, 1
  {
    JoinSplitFrom(s, sep, 0);
  }

  /** The same, for a scan that starts at `i` past a prefix free of the separator. */
  lemma {:induction false} JoinSplitFrom(s: string, sep: string, i: nat)
    requires |sep| > 0 && i <= |s|
    requires forall j: nat :: j < i ==> !OccursAt(s, sep, j)
    ensures Join(SplitFrom(s, sep, i), sep) == s
    ensures forall k, j :: 0 <= k < |SplitFrom(s, sep, i)| ==> !OccursAt(SplitFrom(s, sep, i)[k], sep, j)
    decreases |s|, 0, |s| - i
  {
    if i + |sep| > |s| {
      assert SplitFrom(s, sep, i) == [s];
    } else if s[i..i + |sep|] == sep {
      var rest := s[i + |sep|..];
      JoinSplit(rest, sep);
      var tail := Split(rest, sep);
      assert SplitFrom(s, sep, i) == [s[..i]] + tail;
      assert ([s[..i]] + tail)[1..] == tail;
      assert s == s[..i] + sep + rest;
      forall j: nat | OccursAt(s[..i], sep, j)
        ensures false
      {
        assert s[..i][j..j + |sep|] == s[j..j + |sep|];
        assert OccursAt(s, sep, j);
      }
      forall k, j | 0 <= k < |SplitFrom(s, sep, i)|
        ensures !OccursAt(SplitFrom(s, sep, i)[k], sep, j)
      {
        if k > 0 {
          assert SplitFrom(s, sep, i)[k] == tail[k - 1];
        }
      }
    } else {
      assert !OccursAt(s, sep, i);
      JoinSplitFrom(s, sep, i + 1);
    }
  }

  /** When `sep` occurs in `p + sep` only at the join, it does not occur in `p` at all. */
  lemma NoSeparatorIn(p: string, sep: string)
    requires |sep| > 0
    requires forall j :: 0 <= j ==> !OccursAt(p + sep, sep, j) || j == |p|
    ensures forall j :: 0 <= j && OccursAt(p, sep, j) ==> false
  {
    forall j | 0 <= j && OccursAt(p, sep, j)
      ensures false
    {
      assert (p + sep)[j..j + |sep|] == p[j..j + |sep|];
      assert OccursAt(p + sep, sep, j);
    }
  }

  /** Scanning `p + sep + rest` finds the separator first just after `p`. */
  lemma FirstSeparatorAt(p: string, sep: string, rest: string)
    requires |sep| > 0
    requires forall j :: 0 <= j ==> !OccursAt(p + sep, sep, j) || j == |p|
    ensures SplitFrom(p + sep + rest, sep, 0) == [p] + Split((p + sep + rest)[|p| + |sep|..], sep)
  {
    var s := p + sep + rest;
    forall j | 0 <= j < |p|
      ensures !OccursAt(s, sep, j)
    {
      assert !OccursAt(p + sep, sep, j);
      if j + |sep| <= |s| {
        assert s[j..j + |sep|] == (p + sep)[j..j + |sep|];
      }
    }
    ScanTo(s, sep, 0, |p|);
    assert s[..|p|] == p;
    assert s[|p|..|p| + |sep|] == sep;
  }

  lemma {:induction false} ScanTo(s: string, sep: string, i: nat, k: nat)
    requires |sep| > 0 && i <= k && k + |sep| <= |s|
    requires forall j :: i <= j < k ==> !OccursAt(s, sep, j)
    ensures SplitFrom(s, sep, i) == SplitFrom(s, sep, k)
    decreases k - i
  {
    if i < k {
      assert !OccursAt(s, sep, i);
      ScanTo(s, sep, i + 1, k);
    }
  }

  /** The characters `String.prototype.trim` removes: white space and line terminators. */
  predicate IsJsSpace(c: char)
  {
    if c < '\U{A0}' then c == ' ' || '\t' <= c <= '\r'
    else
      || c == '\U{A0}' || c == '\U{1680}' || ('\U{2000}' <= c <= '\U{200A}') || c == '\U{2028}' || c == '\U{2029}'
      || c == '\U{202F}' || c == '\U{205F}' || c == '\U{3000}' || c == '\U{FEFF}'
  }

  function TrimStart(s: string): (r: string)
    ensures |r| <= |s| && r == s[|s| - |r|..]
    ensures r == [] || !IsJsSpace(r[0])
  {
    if s != [] && IsJsSpace(s[0]) then TrimStart(s[1..]) else s
  }

  /** Every character of `s[lo..hi]` is white space. */
  predicate AllSpace(s: string, lo: int, hi: int)
    requires 0 <= lo && hi <= |s|
  {
    forall j :: lo <= j < hi ==> IsJsSpace(s[j])
  }

  /** What `TrimStart` drops is white space. */
  lemma {:induction false} TrimStartDropsSpace(s: string)
    ensures AllSpace(s, 0, |s| - |TrimStart(s)|)
  {
    if s != [] && IsJsSpace(s[0]) {
      var t := s[1..];
      TrimStartDropsSpace(t);
      assert TrimStart(s) == TrimStart(t);
      forall i | 1 <= i < |s| - |TrimStart(s)|
        ensures IsJsSpace(s[i])
      {
        assert s[i] == t[i - 1];
      }
    }
  }

  function TrimEnd(s: string): (r: string)
    ensures |r| <= |s| && r == s[..|r|]
    ensures r == [] || !IsJsSpace(r[|r| - 1])
  {
    if s != [] && IsJsSpace(s[|s| - 1]) then TrimEnd(s[..|s| - 1]) else s
  }

  /** What `TrimEnd` drops is white space. */
  lemma {:induction false} TrimEndDropsSpace(s: string)
    ensures AllSpace(s, |TrimEnd(s)|, |s|)
  {
    if s != [] && IsJsSpace(s[|s| - 1]) {
      var t := s[..|s| - 1];
      TrimEndDropsSpace(t);
      assert TrimEnd(s) == TrimEnd(t);
      forall i | |TrimEnd(s)| <= i < |s| - 1
        ensures IsJsSpace(s[i])
      {
        assert s[i] == t[i];
      }
    }
  }

  /** `s.trim()`: the string without leading and trailing white space. */
  function Trim(s: string): (r: string)
    ensures r == [] || (!IsJsSpace(r[0]) && !IsJsSpace(r[|r| - 1]))
    ensures |r| <= |s|
  {
    TrimEnd(TrimStart(s))
  }

  /** `r` is `s[i..i + |r|]` and everything of `s` around it is white space. */
  predicate SpaceAround(s: string, i: int, r: string)
  {
    && 0 <= i && i + |r| <= |s| && r == s[i..i + |r|]
    && AllSpace(s, 0, i) && AllSpace(s, i + |r|, |s|)
  }

  /** Trimming removes only white space, and only from the two ends. */
  lemma TrimRemovesEnds(s: string)
    ensures SpaceAround(s, |s| - |TrimStart(s)|, Trim(s))
  {
    var t := TrimStart(s);
    TrimStartDropsSpace(s);
    TrimEndDropsSpace(t);
    SuffixPrefix(s, t, TrimEnd(t));
  }

  lemma SuffixPrefix(s: string, t: string, r: string)
    requires |t| <= |s| && t == s[|s| - |t|..]
    requires |r| <= |t| && r == t[..|r|]
    requires AllSpace(s, 0, |s| - |t|)
    requires AllSpace(t, |r|, |t|)
    ensures SpaceAround(s, |s| - |t|, r)
  {
    var i := |s| - |t|;
    forall j | i + |r| <= j < |s|
      ensures IsJsSpace(s[j])
    {
      assert s[j] == t[j - i];
    }
  }

  /** A string with space at neither end is left as it is. */
  lemma TrimNoSpace(s: string)
    requires s == [] || (!IsJsSpace(s[0]) && !IsJsSpace(s[|s| - 1]))
    ensures Trim(s) == s
  {
  }

  /** `s.replace(a, b)` with a string pattern: only the first occurrence is replaced. */
  function ReplaceFirst(s: string, a: char, b: char): (r: string)
    ensures |r| == |s|
    ensures a !in s ==> r == s
  {
    if s == [] then []
    else if s[0] == a then [b] + s[1..]
    else [s[0]] + ReplaceFirst(s[1..], a, b)
  }

  /** Only the first `a` changes: in `x + [a] + y` with no `a` in `x`, the rest is kept. */
  lemma {:induction false} ReplaceFirstAt(x: string, y: string, a: char, b: char)
    requires a !in x
    ensures ReplaceFirst(x + [a] + y, a, b) == x + [b] + y
  {
    if x != [] {
      ConsSplit(x, a, y);
      ConsSplit(x, b, y);
      ReplaceFirstAt(x[1..], y, a, b);
    }
  }

  lemma ConsSplit(x: string, c: char, y: string)
    requires x != []
    ensures x + [c] + y == [x[0]] + (x[1..] + [c] + y)
    ensures (x + [c] + y)[0] == x[0] && (x + [c] + y)[1..] == x[1..] + [c] + y
  {
  }

  // ---------------------------------------------------------------------------
  // `formatFileName`.

  /** `\w`: an ASCII letter, digit or underscore. */
  predicate IsWordChar(c: char)
  {
    ('a' <= c <= 'z') || ('A' <= c <= 'Z') || IsDigit(c) || c == '_'
  }

  function ToUpperAscii(c: char): (u: char)
    ensures !('a' <= u <= 'z')
    ensures IsWordChar(c) <==> IsWordChar(u)
  {
    if 'a' <= c <= 'z' then (c as int - 32) as char else c
  }

  /** Index of the last '.' in `s`, if any. */
  function LastDot(s: string): (r: Option<nat>)
    ensures r.Some? ==> r.value < |s| && s[r.value] == '.' && '.' !in s[r.value + 1..]
    ensures r.None? ==> '.' !in s
  {
    if s == [] then None
    else if s[|s| - 1] == '.' then Some(|s| - 1)
    else
      var r := LastDot(s[..|s| - 1]);
      assert s == s[..|s| - 1] + [s[|s| - 1]];
      r
  }

  /**
   * `name.replace(/\.[^/.]+$/, '')`: drops a final extension, a '.' followed by
   * at least one character, none of them a '/' or a '.', up to the end.
   */
  function StripExtension(s: string): (r: string)
    ensures |r| <= |s| && r == s[..|r|]
  {
    match LastDot(s)
    case None => s
    case Some(i) => if i + 1 < |s| && '/' !in s[i + 1..] then s[..i] else s
  }

  /** A final extension is dropped, and only it. */
  lemma StripExtensionOf(base: string, ext: string)
    requires |ext| > 0 && '.' !in ext && '/' !in ext
    ensures StripExtension(base + "." + ext) == base
  {
    var s := base + "." + ext;
    assert s[|base|] == '.';
    assert s[|base| + 1..] == ext;
    var d := LastDot(s);
    assert d.Some? by {
      assert s[|base|] in s;
    }
    assert s[..|base|] == base;
  }

  /** A name without a '.' keeps everything. */
  lemma StripExtensionNoDot(s: string)
    requires '.' !in s
    ensures StripExtension(s) == s
  {
  }

  /** `name.replace(/[_-]/g, ' ')`. */
  function Spaced(s: string): string
  {
    seq(|s|, i requires 0 <= i < |s| => if s[i] == '_' || s[i] == '-' then ' ' else s[i])
  }

  /** Position `i` of `s` starts a word: a word character after a non-word character or the start. */
  predicate WordStart(s: string, i: nat)
    requires i < |s|
  {
    IsWordChar(s[i]) && (i == 0 || !IsWordChar(s[i - 1]))
  }

  /**
   * `name.replace(/\b\w/g, l => l.toUpperCase())`: the first character of every
   * word upper-cased. Matches are found in the original string, so each
   * position is decided independently.
   */
  function Capitalised(s: string): string
  {
    seq(|s|, i requires 0 <= i < |s| => if WordStart(s, i) then ToUpperAscii(s[i]) else s[i])
  }

  /** The longest display name; longer ones keep 22 characters and get "...". */
  const MaxNameLength: nat := 25

  /** `formatFileName(filename)`. */
  function FormatFileName(filename: string): (r: string)
    ensures |r| <= MaxNameLength
    ensures filename == [] ==> r == []
  {
    if filename == [] then ""
    else
      var name := Capitalised(Spaced(StripExtension(filename)));
      if |name| > MaxNameLength then name[..22] + "..." else name
  }

  /** The display name has no '_' or '-', and every word in it starts with a capital. */
  lemma FormatFileNameShape(filename: string)
    ensures '_' !in FormatFileName(filename) && '-' !in FormatFileName(filename)
    ensures var r := FormatFileName(filename);
      forall i :: 0 <= i < |r| && i < 22 && WordStart(r, i) ==> !('a' <= r[i] <= 'z')
  {
    if filename != [] {
      var spaced := Spaced(StripExtension(filename));
      var name := Capitalised(spaced);
      assert forall i :: 0 <= i < |name| ==> name[i] != '_' && name[i] != '-';
      forall i | 0 <= i < |name| && WordStart(name, i)
        ensures !('a' <= name[i] <= 'z')
      {
        assert IsWordChar(spaced[i]) <==> IsWordChar(name[i]);
        if i > 0 {
          assert IsWordChar(spaced[i - 1]) <==> IsWordChar(name[i - 1]);
        }
      }
    }
  }

  /** A short name keeps its length; a long one is cut to exactly 25 characters ending in "...". */
  lemma FormatFileNameLength(filename: string)
    requires filename != []
    ensures var n := |StripExtension(filename)|;
      && (n <= MaxNameLength ==> |FormatFileName(filename)| == n)
      && (n > MaxNameLength ==> |FormatFileName(filename)| == MaxNameLength
                                && FormatFileName(filename)[22..] == "...")
  {
  }

  lemma FormatFileNameExample()
    ensures FormatFileName("my_demo-1.mp4") == "My Demo 1"
  {
    ExampleStripped();
    ExampleSpaced();
    ExampleCapitalised();
  }

  lemma ExampleStripped()
    ensures StripExtension("my_demo-1.mp4") == "my_demo-1"
  {
    StripExtensionOf("my_demo-1", "mp4");
    assert "my_demo-1" + "." + "mp4" == "my_demo-1.mp4";
  }

  lemma ExampleSpaced()
    ensures Spaced("my_demo-1") == "my demo 1"
  {
    var sp := Spaced("my_demo-1");
    assert |sp| == 9;
    assert sp[2] == ' ' && sp[7] == ' ';
  }

  lemma ExampleCapitalised()
    ensures Capitalised("my demo 1") == "My Demo 1"
  {
    var s := "my demo 1";
    var c := Capitalised(s);
    assert WordStart(s, 0) && WordStart(s, 3) && WordStart(s, 8);
    assert !WordStart(s, 1) && !WordStart(s, 4) && !WordStart(s, 5) && !WordStart(s, 6);
    assert c[0] == 'M' && c[3] == 'D';
  }
}
