/**
 * The string operations the pipeline uses: Python's `str.strip()`, `str.lower()`,
 * `str.split(sep)`, `sep.join(parts)` and the decimal rendering of a score.
 */
module Text {
  import opened Seqs

  /** The characters Python's `str.strip()` removes when called without arguments. */
  predicate IsSpace(c: char) {
    || ('\t' <= c <= '\r')
    || ('\U{1C}' <= c <= ' ')
    || c == '\U{85}' || c == '\U{A0}' || c == '\U{1680}'
    || ('\U{2000}' <= c <= '\U{200A}')
    || c == '\U{2028}' || c == '\U{2029}' || c == '\U{202F}' || c == '\U{205F}' || c == '\U{3000}'
  }

  /** A string made of whitespace only (the empty string included). */
  ghost predicate Blank(s: string) {
    forall i :: 0 <= i < |s| ==> IsSpace(s[i])
  }

  /** The first index at or after `i` that does not hold whitespace, or `|s|`. */
  function SkipSpaces(s: string, i: nat): (n: nat)
    requires i <= |s|
    ensures i <= n <= |s|
    ensures forall k :: i <= k < n ==> IsSpace(s[k])
    ensures n < |s| ==> !IsSpace(s[n])
    decreases |s| - i
  {
    if i < |s| && IsSpace(s[i]) then SkipSpaces(s, i + 1) else i
  }

  /** The end of the text before `e` once trailing whitespace is dropped, not going below `lo`. */
  function SkipSpacesBack(s: string, lo: nat, e: nat): (n: nat)
    requires lo <= e <= |s|
    ensures lo <= n <= e
    ensures forall k :: n <= k < e ==> IsSpace(s[k])
    ensures lo < n ==> !IsSpace(s[n - 1])
  {
    if lo < e && IsSpace(s[e - 1]) then SkipSpacesBack(s, lo, e - 1) else e
  }

  /** Where the text of `s` starts and ends once the surrounding whitespace is dropped. */
  function TrimStartIndex(s: string): nat { SkipSpaces(s, 0) }

  function TrimEndIndex(s: string): nat { SkipSpacesBack(s, SkipSpaces(s, 0), |s|) }

  lemma TrimFacts(s: string)
    ensures var a, e := TrimStartIndex(s), TrimEndIndex(s);
      && a <= e <= |s|
      && (a == e <==> Blank(s))
      && (a < e ==> !IsSpace(s[a]) && !IsSpace(s[e - 1]))
      && (forall i :: 0 <= i < a ==> IsSpace(s[i]))
      && (forall i :: e <= i < |s| ==> IsSpace(s[i]))
  {
  }

  /** Python's `s.strip()`. */
  function Trim(s: string): (r: string)
    ensures r == [] <==> Blank(s)
    ensures r != [] ==> !IsSpace(r[0]) && !IsSpace(r[|r| - 1])
  {
    TrimFacts(s);
    s[TrimStartIndex(s)..TrimEndIndex(s)]
  }

  /** `Trim` removes a whitespace prefix and a whitespace suffix and nothing else. */
  lemma TrimParts(s: string) returns (w1: string, w2: string)
    ensures s == w1 + Trim(s) + w2
    ensures Blank(w1) && Blank(w2)
  {
    var a := SkipSpaces(s, 0);
    var e := SkipSpacesBack(s, a, |s|);
    w1 := s[..a];
    w2 := s[e..];
    assert Trim(s) == s[a..e];
    ThreeParts(s, a, e);
    forall i | 0 <= i < |w1| ensures IsSpace(w1[i]) {
      assert w1[i] == s[i];
    }
    forall i | 0 <= i < |w2| ensures IsSpace(w2[i]) {
      assert w2[i] == s[e + i];
    }
  }

  /** A string that neither starts nor ends with whitespace is its own strip. */
  lemma TrimUnpadded(s: string)
    requires s != [] && !IsSpace(s[0]) && !IsSpace(s[|s| - 1])
    ensures Trim(s) == s
  {
    assert TrimStartIndex(s) == 0;
    assert TrimEndIndex(s) == |s|;
    assert s[0..|s|] == s;
  }

  /** A string with a whitespace prefix or suffix is blank exactly when its rest is. */
  lemma BlankPadded(w: string, t: string)
    requires Blank(w)
    ensures Blank(w + t) <==> Blank(t)
    ensures Blank(t + w) <==> Blank(t)
  {
    assert forall i :: 0 <= i < |t| ==> (w + t)[|w| + i] == t[i] && (t + w)[i] == t[i];
  }

  /** ASCII lower-casing of one character, as `str.lower()` does for ASCII letters. */
  function LowerChar(c: char): (r: char)
    ensures IsSpace(r) <==> IsSpace(c)
    ensures r == ',' <==> c == ','
  {
    if 'A' <= c <= 'Z' then (c as int + 32) as char else c
  }

  /** Python's `s.lower()` on ASCII text. */
  function Lower(s: string): (r: string)
    ensures |r| == |s|
    ensures forall i :: 0 <= i < |s| ==> r[i] == LowerChar(s[i])
  {
    if s == [] then [] else [LowerChar(s[0])] + Lower(s[1..])
  }

  /** `Lower` applied to every piece of a list. */
  function LowerAll(parts: seq<string>): (r: seq<string>)
    ensures |r| == |parts|
    ensures forall i :: 0 <= i < |parts| ==> r[i] == Lower(parts[i])
  {
    if parts == [] then [] else [Lower(parts[0])] + LowerAll(parts[1..])
  }

  /**
   * Python's `s.split(sep)` for a one-character separator: the maximal pieces between
   * separators, empty pieces included; the empty string gives one empty piece.
   */
  function Split(s: string, sep: char): (r: seq<string>)
    ensures |r| >= 1
  {
    if s == [] then [[]]
    else
      var rest := Split(s[1..], sep);
      if s[0] == sep then [[]] + rest else [[s[0]] + rest[0]] + rest[1..]
  }

  /** No piece of a split holds the separator. */
  lemma {:induction false} SplitFree(s: string, sep: char)
    ensures forall i :: 0 <= i < |Split(s, sep)| ==> sep !in Split(s, sep)[i]
  {
    if s != [] {
      SplitFree(s[1..], sep);
      var rest := Split(s[1..], sep);
      if s[0] != sep {
        var first := [s[0]] + rest[0];
        assert forall k :: 0 <= k < |first| ==> first[k] != sep by {
          assert forall k :: 0 < k < |first| ==> first[k] == rest[0][k - 1];
        }
      }
    }
  }

  /** Python's `sep.join(parts)`. */
  function Join(sep: string, parts: seq<string>): string {
    if |parts| == 0 then ""
    else if |parts| == 1 then parts[0]
    else parts[0] + sep + Join(sep, parts[1..])
  }

  /** Joining the pieces of a split with the separator gives back the text. */
  lemma {:induction false} JoinSplit(s: string, sep: char)
    ensures Join([sep], Split(s, sep)) == s
  {
    if s != [] {
      JoinSplit(s[1..], sep);
      var rest := Split(s[1..], sep);
      if s[0] == sep {
        assert s == [sep] + s[1..];
      } else if |rest| == 1 {
        assert s == [s[0]] + rest[0];
      } else {
        assert s == [s[0]] + (rest[0] + [sep] + Join([sep], rest[1..]));
      }
    }
  }

  /** Splitting text that starts with a separator-free prefix `w` glues `w` to the first piece. */
  lemma {:induction false} SplitPrefix(w: string, x: string, sep: char)
    requires sep !in w
    ensures Split(w + x, sep) == [w + Split(x, sep)[0]] + Split(x, sep)[1..]
  {
    if w != [] {
      SplitPrefix(w[1..], x, sep);
      var s := w + x;
      var p := Split(x, sep);
      assert s[0] == w[0] && w[0] != sep;
      assert s[1..] == w[1..] + x;
      var rest := Split(s[1..], sep);
      assert rest == [w[1..] + p[0]] + p[1..];
      assert Split(s, sep) == [[s[0]] + rest[0]] + rest[1..];
      assert [w[0]] + (w[1..] + p[0]) == w + p[0];
    } else {
      var p := Split(x, sep);
      assert w + x == x && w + p[0] == p[0];
      assert p == [p[0]] + p[1..];
    }
  }

  /** `p` with `w` appended to its last piece. */
  function GlueLast(p: seq<string>, w: string): seq<string>
    requires |p| >= 1
  {
    p[..|p| - 1] + [p[|p| - 1] + w]
  }

  /** `p` with `c` put in front of its first piece. */
  function GlueFirst(c: char, p: seq<string>): seq<string>
    requires |p| >= 1
  {
    [[c] + p[0]] + p[1..]
  }

  lemma GlueFirstLast(c: char, p: seq<string>, w: string)
    requires |p| >= 1
    ensures GlueFirst(c, GlueLast(p, w)) == GlueLast(GlueFirst(c, p), w)
  {
    if |p| == 1 {
      assert [c] + (p[0] + w) == ([c] + p[0]) + w;
    } else {
      assert GlueLast(p, w)[0] == p[0];
      assert GlueLast(p, w)[1..] == p[1..|p| - 1] + [p[|p| - 1] + w];
    }
  }

  lemma GlueLastAfter(q: seq<string>, p: seq<string>, w: string)
    requires |p| >= 1
    ensures q + GlueLast(p, w) == GlueLast(q + p, w)
  {
    assert (q + p)[..|q + p| - 1] == q + p[..|p| - 1];
  }

  /** Splitting text that ends with a separator-free suffix `w` glues `w` to the last piece. */
  lemma {:induction false} SplitSuffix(x: string, w: string, sep: char)
    requires sep !in w
    ensures Split(x + w, sep) == GlueLast(Split(x, sep), w)
  {
    if x == [] {
      SplitPrefix(w, [], sep);
      assert w + [] == w && x + w == w;
    } else {
      SplitSuffix(x[1..], w, sep);
      assert (x + w)[0] == x[0] && (x + w)[1..] == x[1..] + w;
      var t := Split(x[1..], sep);
      if x[0] == sep {
        GlueLastAfter([[]], t, w);
      } else {
        GlueFirstLast(x[0], t, w);
      }
    }
  }

  /** Splitting a join of separator-free pieces gives back the pieces. */
  lemma {:induction false} SplitJoin(parts: seq<string>, sep: char)
    requires |parts| >= 1
    requires forall i :: 0 <= i < |parts| ==> sep !in parts[i]
    ensures Split(Join([sep], parts), sep) == parts
  {
    if |parts| == 1 {
      SplitPrefix(parts[0], [], sep);
      assert parts[0] + [] == parts[0];
    } else {
      var tail := Join([sep], parts[1..]);
      SplitJoin(parts[1..], sep);
      SplitPrefix(parts[0], [sep] + tail, sep);
      assert Join([sep], parts) == parts[0] + ([sep] + tail);
      assert ([sep] + tail)[1..] == tail;
      assert Split([sep] + tail, sep) == [[]] + parts[1..];
      assert parts[0] + [] == parts[0];
      assert parts == [parts[0]] + parts[1..];
    }
  }

  /** Lower-casing commutes with splitting on a separator that lower-casing keeps. */
  lemma {:induction false} SplitLower(s: string)
    ensures Split(Lower(s), ',') == LowerAll(Split(s, ','))
  {
    if s != [] {
      SplitLower(s[1..]);
      assert Lower(s)[1..] == Lower(s[1..]);
      var t := Split(s[1..], ',');
      if s[0] != ',' {
        assert Lower([s[0]] + t[0]) == [LowerChar(s[0])] + Lower(t[0]);
        assert LowerAll(t)[1..] == LowerAll(t[1..]);
      }
    }
  }

  // ---------------------------------------------------------------------------
  // Decimal rendering of whole-number scores.

  function DigitChar(d: nat): (c: char)
    requires d < 10
    ensures '0' <= c <= '9'
  {
    (48 + d) as char
  }

  /** The decimal digits of `n` without leading zeros (Python `str(n)` for n >= 0). */
  function NatToString(n: nat): (r: string)
    ensures |r| >= 1
    ensures n >= 10 ==> |r| >= 2
    ensures forall i :: 0 <= i < |r| ==> '0' <= r[i] <= '9'
  {
    if n < 10 then [DigitChar(n)] else NatToString(n / 10) + [DigitChar(n % 10)]
  }

  /** Python `str(i)` for an integer. */
  function IntToString(i: int): (r: string)
    ensures |r| >= 1
    ensures forall k :: 0 <= k < |r| ==> ('0' <= r[k] <= '9') || (k == 0 && r[k] == '-')
    ensures (r[0] == '-') <==> i < 0
  {
    if i < 0 then "-" + NatToString(-i) else NatToString(i)
  }

  lemma {:induction false} NatToStringInjective(a: nat, b: nat)
    requires NatToString(a) == NatToString(b)
    ensures a == b
  {
    if a >= 10 && b >= 10 {
      var ra, rb := NatToString(a), NatToString(b);
      assert ra[|ra| - 1] == DigitChar(a % 10) && rb[|rb| - 1] == DigitChar(b % 10);
      assert ra[..|ra| - 1] == NatToString(a / 10) && rb[..|rb| - 1] == NatToString(b / 10);
      NatToStringInjective(a / 10, b / 10);
    }
  }

  /** Distinct integers are rendered as distinct strings. */
  lemma IntToStringInjective(a: int, b: int)
    requires IntToString(a) == IntToString(b)
    ensures a == b
  {
    if a < 0 {
      assert IntToString(a)[1..] == NatToString(-a) && IntToString(b)[1..] == NatToString(-b);
      NatToStringInjective(-a, -b);
    } else {
      NatToStringInjective(a, b);
    }
  }

  /**
   * Python `str(v)` for a score cell: pandas stores a whole-number column that has a missing
   * cell as floating point, which renders as "5.0"; a complete column renders as "5".
   */
  function ScoreText(floatColumn: bool, v: int): (r: string)
    ensures forall k :: 0 <= k < |r| ==> ('0' <= r[k] <= '9') || r[k] == '-' || r[k] == '.'
  {
    IntToString(v) + (if floatColumn then ".0" else "")
  }

  /** Within one column, distinct scores are rendered as distinct strings. */
  lemma ScoreTextInjective(floatColumn: bool, a: int, b: int)
    requires ScoreText(floatColumn, a) == ScoreText(floatColumn, b)
    ensures a == b
  {
    var ra, rb := IntToString(a), IntToString(b);
    assert ScoreText(floatColumn, a)[..|ra|] == ra;
    assert ScoreText(floatColumn, b)[..|rb|] == rb;
    IntToStringInjective(a, b);
  }

  /** The rendering of -1 in either column kind. */
  lemma ScoreTextMinusOne(floatColumn: bool)
    ensures ScoreText(floatColumn, -1) == if floatColumn then "-1.0" else "-1"
  {
    assert NatToString(1) == "1";
  }
}
