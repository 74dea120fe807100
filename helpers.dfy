/**
 * The two derived fields of an incident: its sophistication category, from the number of
 * usable technique names it lists, and the canonical combination string of those names.
 */
module Helpers {
  import opened Text
  import opened Ordering
  import opened Seqs

  /** The four sophistication levels; every technique value falls in exactly one. */
  datatype Category = UnknownTechnique | SingleTechnique | MultiTechnique | MultiStage {

    /** The label the charts show (the range in the third label uses an en dash). */
    function Label(): string {
      match this
      case UnknownTechnique => "Unknown Technique"
      case SingleTechnique => "Single Technique"
      case MultiTechnique => "Multi-Technique (2\U{2013}3)"
      case MultiStage => "Multi-Stage (4+)"
    }

    /** The two categories the combination view keeps. */
    predicate IsMulti() {
      MultiTechnique? || MultiStage?
    }
  }

  /** The fixed order of the sophistication axis. */
  const CategoryOrder: seq<Category> := [UnknownTechnique, SingleTechnique, MultiTechnique, MultiStage]

  /** A cell of the techniques column as the helpers accept it: missing, a string, or a list. */
  datatype TechniquesValue = Missing | Str(text: string) | List(items: seq<string>)

  /** The lower-cased texts that stand for "nothing recorded". */
  predicate IsSentinel(t: string) {
    t == "" || t == "nan" || t == "unknown" || t == "none"
  }

  /** The pieces stripped of surrounding whitespace, the blank ones dropped, in order. */
  function Tokens(pieces: seq<string>): (r: seq<string>)
    ensures |r| <= |pieces|
  {
    if pieces == [] then []
    else (if Trim(pieces[0]) == [] then [] else [Trim(pieces[0])]) + Tokens(pieces[1..])
  }

  /** The number of pieces holding a non-whitespace character. */
  ghost function NonBlankCount(pieces: seq<string>): nat {
    if pieces == [] then 0 else (if Blank(pieces[0]) then 0 else 1) + NonBlankCount(pieces[1..])
  }

  /** The thresholds of the classification: 0, 1, 2 to 3, 4 or more. */
  function CategoryOfCount(n: nat): Category {
    if n == 0 then UnknownTechnique
    else if n == 1 then SingleTechnique
    else if n <= 3 then MultiTechnique
    else MultiStage
  }

  /** The classification of a text: strip, lower-case, test the sentinels, count the names. */
  function SignalOfText(text: string): Category {
    var t := Lower(Trim(text));
    if IsSentinel(t) then UnknownTechnique else CategoryOfCount(|Tokens(Split(t, ','))|)
  }

  /** `get_sophistication_signal`: a list is classified as its `,`-joined text. */
  function SophisticationSignal(val: TechniquesValue): Category {
    match val
    case Missing => UnknownTechnique
    case Str(s) => SignalOfText(s)
    case List(items) => SignalOfText(Join(",", items))
  }

  // ---------------------------------------------------------------------------
  // Counting names.

  lemma {:induction false} TokensAppend(a: seq<string>, b: seq<string>)
    ensures Tokens(a + b) == Tokens(a) + Tokens(b)
  {
    if a == [] {
      EmptyAppend(a, b);
    } else {
      AppendHeadTail(a, b);
      TokensAppend(a[1..], b);
      var h := if Trim(a[0]) == [] then [] else [Trim(a[0])];
      assert Tokens(a) == h + Tokens(a[1..]);
      assert Tokens(a + b) == h + Tokens(a[1..] + b);
      Assoc(h, Tokens(a[1..]), Tokens(b));
    }
  }

  /** Stripping drops exactly the blank pieces. */
  lemma {:induction false} TokensCount(pieces: seq<string>)
    ensures |Tokens(pieces)| == NonBlankCount(pieces)
  {
    if pieces != [] { TokensCount(pieces[1..]); }
  }

  /** Two lists that agree piece by piece on blankness have as many non-blank pieces. */
  lemma {:induction false} NonBlankSame(a: seq<string>, b: seq<string>)
    requires |a| == |b|
    requires forall i :: 0 <= i < |a| ==> (Blank(a[i]) <==> Blank(b[i]))
    ensures NonBlankCount(a) == NonBlankCount(b)
  {
    if a != [] { NonBlankSame(a[1..], b[1..]); }
  }

  /** Lower-casing keeps blankness. */
  lemma NonBlankLower(pieces: seq<string>)
    ensures NonBlankCount(LowerAll(pieces)) == NonBlankCount(pieces)
  {
    forall i | 0 <= i < |pieces| ensures Blank(LowerAll(pieces)[i]) <==> Blank(pieces[i]) {
      var p := pieces[i];
      assert forall k :: 0 <= k < |p| ==> (IsSpace(Lower(p)[k]) <==> IsSpace(p[k]));
    }
    NonBlankSame(LowerAll(pieces), pieces);
  }

  /** Whitespace around a text only pads its first and last piece, so no count changes. */
  lemma SplitPaddedCount(w1: string, x: string, w2: string)
    requires Blank(w1) && Blank(w2)
    ensures NonBlankCount(Split(w1 + x + w2, ',')) == NonBlankCount(Split(x, ','))
  {
    assert ',' !in w1 && ',' !in w2 by {
      assert !IsSpace(',');
    }
    var q := Split(x, ',');
    SplitSuffix(x, w2, ',');
    PaddedLast(q, w2);
    var p := Split(x + w2, ',');
    SplitPrefix(w1, x + w2, ',');
    assert w1 + x + w2 == w1 + (x + w2);
    PaddedFirst(w1, p);
  }

  lemma PaddedLast(q: seq<string>, w: string)
    requires |q| >= 1 && Blank(w)
    ensures NonBlankCount(GlueLast(q, w)) == NonBlankCount(q)
  {
    var r := GlueLast(q, w);
    var n := |q|;
    forall i | 0 <= i < n ensures Blank(r[i]) <==> Blank(q[i]) {
      if i == n - 1 {
        BlankPadded(w, q[n - 1]);
      }
    }
    NonBlankSame(r, q);
  }

  lemma PaddedFirst(w: string, p: seq<string>)
    requires |p| >= 1 && Blank(w)
    ensures NonBlankCount([w + p[0]] + p[1..]) == NonBlankCount(p)
  {
    var r := [w + p[0]] + p[1..];
    forall i | 0 <= i < |p| ensures Blank(r[i]) <==> Blank(p[i]) {
      if i == 0 {
        BlankPadded(w, p[0]);
      } else {
        assert r[i] == p[i];
      }
    }
    NonBlankSame(r, p);
  }

  /**
   * Outside the sentinels the category is set by how many `,`-separated pieces of the
   * text hold a non-whitespace character: none, one, two or three, four or more.
   */
  lemma SignalThresholds(text: string)
    requires !IsSentinel(Lower(Trim(text)))
    ensures var n := NonBlankCount(Split(text, ','));
      SophisticationSignal(Str(text)) == if n == 0 then UnknownTechnique
        else if n == 1 then SingleTechnique
        else if n <= 3 then MultiTechnique
        else MultiStage
  {
    var w1, w2 := TrimParts(text);
    var t := Trim(text);
    TokensCount(Split(Lower(t), ','));
    SplitLower(t);
    NonBlankLower(Split(t, ','));
    SplitPaddedCount(w1, t, w2);
  }

  /** A list of `,`-free pieces (as splitting produces) is classified by its non-blank pieces. */
  lemma SignalOfPieces(items: seq<string>)
    requires forall i :: 0 <= i < |items| ==> ',' !in items[i]
    requires !IsSentinel(Lower(Trim(Join(",", items))))
    ensures SophisticationSignal(List(items)) == CategoryOfCount(NonBlankCount(items))
  {
    SignalThresholds(Join(",", items));
    if items != [] {
      SplitJoin(items, ',');
    }
  }

  /**
   * Every text that trims and lower-cases to a sentinel word is Unknown Technique, and
   * besides those only the texts without a non-blank piece are.
   */
  lemma UnknownSignal(text: string)
    ensures IsSentinel(Lower(Trim(text))) ==> SophisticationSignal(Str(text)) == UnknownTechnique
    ensures SophisticationSignal(Str(text)) == UnknownTechnique <==>
      IsSentinel(Lower(Trim(text))) || NonBlankCount(Split(text, ',')) == 0
  {
    if !IsSentinel(Lower(Trim(text))) {
      SignalThresholds(text);
    }
  }

  /** The list `["Unknown"]` that a missing cell becomes is a sentinel, as are nothing and the empty list. */
  lemma SignalSentinels()
    ensures SophisticationSignal(List(["Unknown"])) == UnknownTechnique
    ensures SophisticationSignal(List([])) == UnknownTechnique
    ensures SophisticationSignal(Missing) == UnknownTechnique
  {
    var u := "Unknown";
    assert Join(",", [u]) == u;
    TrimUnpadded(u);
    LowerUnknown();
    assert Join(",", []) == "";
  }

  lemma LowerUnknown()
    ensures Lower("Unknown") == "unknown"
  {
    var l := Lower("Unknown");
    assert l[0] == LowerChar('U') == 'u';
    assert forall i :: 1 <= i < 7 ==> l[i] == "Unknown"[i];
  }

  /** A sentinel word next to another name is not a sentinel: `["unknown", "x"]` counts two names. */
  lemma SignalNearSentinel()
    ensures SophisticationSignal(List(["unknown", "x"])) == MultiTechnique
  {
    NearSentinelPair(["unknown", "x"]);
  }

  lemma NearSentinelPair(pair: seq<string>)
    requires |pair| == 2 && pair[0] == "unknown" && pair[1] == "x"
    ensures SophisticationSignal(List(pair)) == MultiTechnique
  {
    PairText(pair);
    PairFree(pair);
    SignalOfPieces(pair);
    NonBlankPair(pair);
  }

  lemma PairText(pair: seq<string>)
    requires |pair| == 2 && pair[0] == "unknown" && pair[1] == "x"
    ensures !IsSentinel(Lower(Trim(Join(",", pair))))
  {
    var text := Join(",", pair);
    JoinTwo(",", pair);
    var u, x := pair[0], pair[1];
    assert |u| == 7 && u[0] == 'u' && x == ['x'];
    assert text == u + "," + x;
    assert |text| == 9 && text[0] == u[0] && text[8] == x[0];
    TrimUnpadded(text);
    forall i | 0 <= i < |text| ensures !('A' <= text[i] <= 'Z') {
      if i < 7 { assert text[i] == u[i]; }
    }
    LowerUnchanged(text);
  }

  lemma JoinTwo(sep: string, pair: seq<string>)
    requires |pair| == 2
    ensures Join(sep, pair) == pair[0] + sep + pair[1]
  {
    assert pair[1..] == [pair[1]];
  }

  lemma PairFree(pair: seq<string>)
    requires |pair| == 2 && pair[0] == "unknown" && pair[1] == "x"
    ensures forall i :: 0 <= i < |pair| ==> ',' !in pair[i]
  {
    assert forall k :: 0 <= k < 7 ==> pair[0][k] != ',';
  }

  lemma LowerUnchanged(s: string)
    requires forall i :: 0 <= i < |s| ==> !('A' <= s[i] <= 'Z')
    ensures Lower(s) == s
  {
  }

  lemma NonBlankPair(pair: seq<string>)
    requires |pair| == 2 && pair[0] == "unknown" && pair[1] == "x"
    ensures NonBlankCount(pair) == 2
  {
    assert !Blank(pair[0]) by { assert !IsSpace(pair[0][0]); }
    assert !Blank(pair[1]) by { assert !IsSpace(pair[1][0]); }
    var tail := pair[1..];
    assert tail[1..] == [];
    assert NonBlankCount(tail) == 1 + NonBlankCount(tail[1..]);
  }

  // ---------------------------------------------------------------------------
  // Combination strings.

  /** The stripped non-blank names in ascending order (Python's `sorted`). */
  function SortedTokens(pieces: seq<string>): (r: seq<string>)
    ensures Sorted(r, StrLe)
    ensures multiset(r) == multiset(Tokens(pieces))
  {
    StrLeIsOrder();
    Sort(Tokens(pieces), StrLe)
  }

  /** The names joined by " + ", or "Unknown" when there is none. */
  function ComboOf(pieces: seq<string>): string {
    var techs := SortedTokens(pieces);
    if techs == [] then "Unknown" else Join(" + ", techs)
  }

  /** `format_combo`: the canonical combination string of a technique value. */
  function FormatCombo(val: TechniquesValue): string {
    match val
    case Missing => "Unknown"
    case Str(s) => ComboOf(Split(s, ','))
    case List(items) => ComboOf(items)
  }

  /** Rearranging the pieces rearranges the names. */
  lemma {:induction false} TokensPermutation(a: seq<string>, b: seq<string>)
    requires multiset(a) == multiset(b)
    ensures multiset(Tokens(a)) == multiset(Tokens(b))
    decreases |a|
  {
    if a == [] {
      assert |b| == |multiset(b)| == 0;
    } else {
      assert a[0] in multiset(b);
      var j :| 0 <= j < |b| && b[j] == a[0];
      var rest := b[..j] + b[j + 1..];
      RemoveOne(a, b, j);
      TokensPermutation(a[1..], rest);
      TokensAround(b, j);
      TokensAppend(b[..j], b[j + 1..]);
      HeadTail(a);
      TokensAppend([a[0]], a[1..]);
      var x, y, z := Tokens(b[..j]), Tokens([b[j]]), Tokens(b[j + 1..]);
      assert multiset(Tokens(a)) == multiset(y) + multiset(Tokens(a[1..]));
      assert multiset(Tokens(rest)) == multiset(x) + multiset(z);
      assert multiset(Tokens(b)) == multiset(x) + multiset(y) + multiset(z);
    }
  }

  /** Taking out one matching element on each side keeps two permutations permutations. */
  lemma RemoveOne<T>(a: seq<T>, b: seq<T>, j: nat)
    requires multiset(a) == multiset(b) && |a| >= 1
    requires j < |b| && b[j] == a[0]
    ensures multiset(a[1..]) == multiset(b[..j] + b[j + 1..])
  {
    assert a == [a[0]] + a[1..];
    assert multiset(a) == multiset{a[0]} + multiset(a[1..]);
    assert b == b[..j] + ([b[j]] + b[j + 1..]);
    assert multiset(b) == multiset(b[..j]) + (multiset{b[j]} + multiset(b[j + 1..]));
    assert multiset(b[..j] + b[j + 1..]) == multiset(b[..j]) + multiset(b[j + 1..]);
    assert multiset(a[1..]) == multiset(a) - multiset{a[0]};
    assert multiset(b[..j]) + multiset(b[j + 1..]) == multiset(b) - multiset{b[j]};
  }

  lemma TokensAround(b: seq<string>, j: nat)
    requires j < |b|
    ensures Tokens(b) == Tokens(b[..j]) + Tokens([b[j]]) + Tokens(b[j + 1..])
  {
    AroundIndex(b, j);
    TokensAppend(b[..j], [b[j]] + b[j + 1..]);
    TokensAppend([b[j]], b[j + 1..]);
    Assoc(Tokens(b[..j]), Tokens([b[j]]), Tokens(b[j + 1..]));
  }

  /** The combination string does not depend on the order of the names. */
  lemma FormatComboPermutation(a: seq<string>, b: seq<string>)
    requires multiset(a) == multiset(b)
    ensures FormatCombo(List(a)) == FormatCombo(List(b))
  {
    TokensPermutation(a, b);
    StrLeIsOrder();
    SortedUnique(SortedTokens(a), SortedTokens(b), StrLe);
  }

  lemma {:induction false} TokensBlank(pieces: seq<string>)
    ensures Tokens(pieces) == [] <==> forall i :: 0 <= i < |pieces| ==> Blank(pieces[i])
  {
    if pieces != [] {
      TokensBlank(pieces[1..]);
      var rest := pieces[1..];
      if Tokens(pieces) == [] {
        forall i | 0 <= i < |pieces| ensures Blank(pieces[i]) {
          if i > 0 { assert pieces[i] == rest[i - 1]; }
        }
      } else if Trim(pieces[0]) == [] {
        assert Tokens(rest) != [];
        var i :| 0 <= i < |rest| && !Blank(rest[i]);
        assert !Blank(pieces[i + 1]);
      }
    }
  }

  /**
   * An empty or all-blank list gives "Unknown"; otherwise the result is the ascending,
   * duplicate-keeping list of stripped names joined with " + ".
   */
  lemma FormatComboShape(items: seq<string>)
    ensures (forall i :: 0 <= i < |items| ==> Blank(items[i])) ==> FormatCombo(List(items)) == "Unknown"
    ensures (exists i :: 0 <= i < |items| && !Blank(items[i])) ==>
      var techs := SortedTokens(items);
      techs != [] && FormatCombo(List(items)) == Join(" + ", techs)
  {
    TokensBlank(items);
    var techs := SortedTokens(items);
    assert |techs| == |multiset(techs)| == |Tokens(items)|;
  }

  /** Worked cases: names in either order give "a + b"; nothing usable gives "Unknown". */
  lemma FormatComboExamples()
    ensures FormatCombo(List(["b", "a"])) == "a + b"
    ensures FormatCombo(List(["a", "b"])) == "a + b"
    ensures FormatCombo(List([])) == "Unknown"
    ensures FormatCombo(List(["", "  "])) == "Unknown"
  {
    ComboAB();
    assert multiset(["b", "a"]) == multiset(["a", "b"]);
    FormatComboPermutation(["b", "a"], ["a", "b"]);
    ComboBlank();
  }

  lemma ComboAB()
    ensures FormatCombo(List(["a", "b"])) == "a + b"
  {
    SortedAB();
    JoinAB();
  }

  lemma JoinAB()
    ensures Join(" + ", ["a", "b"]) == "a + b"
  {
    var ab := ["a", "b"];
    assert ab[1..] == ["b"];
    assert Join(" + ", ab) == "a" + " + " + "b";
  }

  lemma ComboBlank()
    ensures FormatCombo(List([])) == "Unknown"
    ensures FormatCombo(List(["", "  "])) == "Unknown"
  {
    assert Blank("") && Blank("  ");
    FormatComboShape(["", "  "]);
    FormatComboShape([]);
  }

  lemma SortedAB()
    ensures SortedTokens(["a", "b"]) == ["a", "b"]
  {
    TrimUnpadded("a");
    TrimUnpadded("b");
    var ab := ["a", "b"];
    assert Tokens(ab[1..]) == ["b"];
    assert Tokens(ab) == ab;
    assert StrLe("a", "b");
    StrLeIsOrder();
    assert Sorted(ab, StrLe);
    SortedUnique(SortedTokens(ab), ab, StrLe);
  }

  /** A join of two or more names contains "+", so it is never the fallback "Unknown". */
  lemma JoinedNotUnknown(techs: seq<string>)
    requires |techs| >= 2
    ensures Join(" + ", techs) != "Unknown"
  {
    var j := Join(" + ", techs);
    assert j == techs[0] + " + " + Join(" + ", techs[1..]);
    assert j[|techs[0]| + 1] == '+';
    assert forall k :: 0 <= k < |"Unknown"| ==> "Unknown"[k] != '+';
  }

  /**
   * A list of `,`-free pieces classified as multi-technique or multi-stage has a
   * combination string made of at least two stripped names joined by " + ", never "Unknown".
   */
  lemma MultiCombo(items: seq<string>)
    requires forall i :: 0 <= i < |items| ==> ',' !in items[i]
    requires SophisticationSignal(List(items)).IsMulti()
    ensures |SortedTokens(items)| >= 2
    ensures FormatCombo(List(items)) == Join(" + ", SortedTokens(items))
    ensures FormatCombo(List(items)) != "Unknown"
  {
    SignalOfPieces(items);
    TokensCount(items);
    var techs := SortedTokens(items);
    assert |techs| == |multiset(techs)| == |Tokens(items)|;
    JoinedNotUnknown(techs);
  }
}
