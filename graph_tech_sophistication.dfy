/**
 * The two sophistication views: incident counts per sophistication category, in the fixed
 * category order, and the ten most frequent technique combinations among the incidents
 * that used two or more techniques.
 */
module GraphTechSophistication {
  import opened Wrappers
  import opened Ordering
  import opened Text
  import opened Tables
  import opened Helpers
  import opened DataHandler
  import opened Seqs

  function CategoryOf(row: BaseRow): Category { row.category }

  /** The position of a category in the display order. */
  function Rank(c: Category): (r: nat)
    ensures r < |CategoryOrder| && CategoryOrder[r] == c
  {
    match c
    case UnknownTechnique => 0
    case SingleTechnique => 1
    case MultiTechnique => 2
    case MultiStage => 3
  }

  /** One bar per category of `cs` that some row has, in the order of `cs`. */
  function PresentBars(rows: seq<BaseRow>, cs: seq<Category>): (bars: seq<Bucket<Category>>)
    ensures |bars| <= |cs|
  {
    if cs == [] then []
    else
      var n := CountEq(rows, CategoryOf, cs[0]);
      (if n > 0 then [Bucket(cs[0], n)] else []) + PresentBars(rows, cs[1..])
  }

  /** A bar for exactly the categories of `cs` that occur. */
  lemma {:induction false} PresentBarsKeys(rows: seq<BaseRow>, cs: seq<Category>)
    ensures forall c :: c in Keys(PresentBars(rows, cs)) <==> c in cs && CountEq(rows, CategoryOf, c) > 0
  {
    if cs != [] {
      PresentBarsKeys(rows, cs[1..]);
      var n := CountEq(rows, CategoryOf, cs[0]);
      var rest := PresentBars(rows, cs[1..]);
      if n > 0 {
        assert PresentBars(rows, cs) == [Bucket(cs[0], n)] + rest;
        KeysCons(Bucket(cs[0], n), rest);
      } else {
        assert PresentBars(rows, cs) == rest;
      }
      HeadTail(cs);
    }
  }

  /** Each bar holds the number of rows of its category. */
  lemma {:induction false} PresentBarsCounts(rows: seq<BaseRow>, cs: seq<Category>)
    ensures forall i :: 0 <= i < |PresentBars(rows, cs)| ==>
      PresentBars(rows, cs)[i].count == CountEq(rows, CategoryOf, PresentBars(rows, cs)[i].key)
  {
    if cs != [] {
      PresentBarsCounts(rows, cs[1..]);
      var n := CountEq(rows, CategoryOf, cs[0]);
      var rest := PresentBars(rows, cs[1..]);
      if n > 0 {
        var r := [Bucket(cs[0], n)] + rest;
        assert PresentBars(rows, cs) == r;
        forall i | 0 <= i < |r| ensures r[i].count == CountEq(rows, CategoryOf, r[i].key) {
          if i > 0 { assert r[i] == rest[i - 1]; }
        }
      } else {
        assert PresentBars(rows, cs) == rest;
      }
    }
  }

  /** The bars keep the order of `cs`. */
  lemma {:induction false} PresentBarsOrder(rows: seq<BaseRow>, cs: seq<Category>)
    requires forall i, j :: 0 <= i < j < |cs| ==> Rank(cs[i]) < Rank(cs[j])
    ensures forall i, j :: 0 <= i < j < |PresentBars(rows, cs)| ==>
      Rank(PresentBars(rows, cs)[i].key) < Rank(PresentBars(rows, cs)[j].key)
  {
    if cs != [] {
      PresentBarsOrder(rows, cs[1..]);
      PresentBarsKeys(rows, cs[1..]);
      var rest := PresentBars(rows, cs[1..]);
      forall j | 0 <= j < |rest| ensures Rank(cs[0]) < Rank(rest[j].key) {
        assert Keys(rest)[j] == rest[j].key;
        assert rest[j].key in cs[1..];
        var m :| 0 <= m < |cs[1..]| && cs[1..][m] == rest[j].key;
        assert cs[m + 1] == rest[j].key;
      }
    }
  }

  lemma {:induction false} PresentBarsTotal(rows: seq<BaseRow>, cs: seq<Category>)
    ensures Total(PresentBars(rows, cs)) == SumEach(rows, CategoryOf, cs)
  {
    if cs != [] {
      PresentBarsTotal(rows, cs[1..]);
      var n := CountEq(rows, CategoryOf, cs[0]);
      var rest := PresentBars(rows, cs[1..]);
      if n > 0 {
        assert PresentBars(rows, cs) == [Bucket(cs[0], n)] + rest;
        assert (([Bucket(cs[0], n)] + rest)[1..]) == rest;
      } else {
        assert PresentBars(rows, cs) == rest;
      }
    }
  }

  /**
   * `sophistication_bar`: among the rows of the selected actors, one bar per category that
   * occurs, in the order Unknown, Single, Multi-Technique, Multi-Stage, each with its
   * number of incidents; together the bars count every selected incident once.
   */
  function SophisticationBar(df: seq<BaseRow>, selectedTa: seq<string>): (bars: seq<Bucket<Category>>)
    ensures forall i, j :: 0 <= i < j < |bars| ==> Rank(bars[i].key) < Rank(bars[j].key)
    ensures forall c :: c in Keys(bars) <==> CountEq(Keep(df, ActorIn(selectedTa)), CategoryOf, c) > 0
    ensures forall i :: 0 <= i < |bars| ==>
      bars[i].count == CountEq(Keep(df, ActorIn(selectedTa)), CategoryOf, bars[i].key)
    ensures Total(bars) == |Keep(df, ActorIn(selectedTa))|
  {
    var rows := Keep(df, ActorIn(selectedTa));
    PresentBarsKeys(rows, CategoryOrder);
    PresentBarsCounts(rows, CategoryOrder);
    PresentBarsOrder(rows, CategoryOrder);
    PresentBarsTotal(rows, CategoryOrder);
    AllCategoriesCounted(rows);
    PresentBars(rows, CategoryOrder)
  }

  /** Every row has one of the four categories, so counting each category counts every row. */
  lemma AllCategoriesCounted(rows: seq<BaseRow>)
    ensures SumEach(rows, CategoryOf, CategoryOrder) == |rows|
    ensures forall c: Category :: c in CategoryOrder
  {
    forall c: Category ensures c in CategoryOrder { assert CategoryOrder[Rank(c)] == c; }
    SumEachCover(rows, CategoryOf, CategoryOrder);
    CountInAll(rows, CategoryOf, set c | c in CategoryOrder);
  }

  // ---------------------------------------------------------------------------
  // Technique combinations.

  /** Line 25: the category is one of the two multi-technique labels. */
  function IsSophisticated(row: BaseRow): bool { row.category.IsMulti() }

  /** Line 24: the combination string of the row's techniques. */
  function ComboKey(row: BaseRow): Option<string> { Some(FormatCombo(List(row.incident.techniques))) }

  /** The rows whose combinations are counted. */
  function ComboRows(df: seq<BaseRow>, selectedTa: seq<string>): seq<BaseRow> {
    Keep(Keep(df, ActorIn(selectedTa)), IsSophisticated)
  }

  /**
   * `tech_combination`: the ten most frequent combinations among the selected actors'
   * multi-technique incidents, most frequent first, each with its number of incidents; a
   * combination left out is no more frequent than any shown.
   */
  function TechCombination(df: seq<BaseRow>, selectedTa: seq<string>): (t: seq<Bucket<string>>)
    ensures |t| == Min(10, |GroupBy(ComboRows(df, selectedTa), ComboKey)|)
    ensures |t| < 10 ==> forall k :: CountKey(ComboRows(df, selectedTa), ComboKey, k) > 0 ==> k in Keys(t)
    ensures Distinct(Keys(t))
    ensures forall i :: 0 <= i < |t| ==> t[i].count >= 1 && t[i].count == CountKey(ComboRows(df, selectedTa), ComboKey, t[i].key)
    ensures forall i, j :: 0 <= i < j < |t| ==> t[i].count >= t[j].count
    ensures forall k :: CountKey(ComboRows(df, selectedTa), ComboKey, k) > 0 && k !in Keys(t) ==>
              forall i :: 0 <= i < |t| ==> CountKey(ComboRows(df, selectedTa), ComboKey, k) <= t[i].count
  {
    TopCounts(ComboRows(df, selectedTa), ComboKey, 10)
  }

  /**
   * Every combination shown is the " + "-join of the sorted, stripped techniques of some
   * selected multi-technique incident, has at least two of them, and is never "Unknown".
   */
  lemma CombinationsAreMulti(df: seq<BaseRow>, selectedTa: seq<string>)
    requires forall i :: 0 <= i < |df| ==> Consistent(df[i])
    ensures forall k :: k in Keys(TechCombination(df, selectedTa)) ==>
      && k != "Unknown"
      && exists row :: row in df && Allows(selectedTa, row.incident.actor) && row.category.IsMulti()
           && |SortedTokens(row.incident.techniques)| >= 2 && k == Join(" + ", SortedTokens(row.incident.techniques))
  {
    var rows := ComboRows(df, selectedTa);
    var t := TechCombination(df, selectedTa);
    forall k | k in Keys(t)
      ensures && k != "Unknown"
              && exists row :: row in df && Allows(selectedTa, row.incident.actor) && row.category.IsMulti()
                   && |SortedTokens(row.incident.techniques)| >= 2 && k == Join(" + ", SortedTokens(row.incident.techniques))
    {
      var m :| 0 <= m < |t| && Keys(t)[m] == k;
      var i := CountKeyWitness(rows, ComboKey, k);
      var row := rows[i];
      KeepMember(Keep(df, ActorIn(selectedTa)), IsSophisticated, row);
      KeepMember(df, ActorIn(selectedTa), row);
      var j :| 0 <= j < |df| && df[j] == row;
      assert Consistent(row);
      MultiCombo(row.incident.techniques);
    }
  }

  /** Incidents listing the same techniques in another order fall under the same combination. */
  lemma ComboIgnoresOrder(a: BaseRow, b: BaseRow)
    requires multiset(a.incident.techniques) == multiset(b.incident.techniques)
    ensures ComboKey(a) == ComboKey(b)
  {
    FormatComboPermutation(a.incident.techniques, b.incident.techniques);
  }
}
