/**
 * The protection-by-sensitivity heatmap: under the actor selection, a missing sensitivity
 * score becomes -1 and the rows are pivoted into a table of counts with one row per
 * protection state and one column per score, absent combinations counting 0.
 */
module GraphHeatmap {
  import opened Wrappers
  import opened Ordering
  import opened Text
  import opened Tables
  import opened DataHandler

  function StateOf(row: BaseRow): string { row.incident.protection }

  /** Line 7: the score with a missing cell filled with -1. */
  function ScoreOf(row: BaseRow): int { row.incident.sensitivity.GetOr(-1) }

  function CellOf(row: BaseRow): (string, int) { (StateOf(row), ScoreOf(row)) }

  /** Lines 5 and 6: the rows of the selected actors. */
  function Filtered(df: seq<BaseRow>, selectedTa: seq<string>): seq<BaseRow> {
    Keep(df, ActorIn(selectedTa))
  }

  /** A pivot table: row and column headers, and one row of cells per row header. */
  datatype Pivot = Pivot(states: seq<string>, scores: seq<int>, cells: seq<seq<nat>>)

  /** The cells of the pivot row of state `s`, one per score. */
  function PivotRow(rows: seq<BaseRow>, s: string, scores: seq<int>): (r: seq<nat>)
    ensures |r| == |scores|
    ensures forall c :: 0 <= c < |scores| ==> r[c] == CountEq(rows, CellOf, (s, scores[c]))
  {
    if scores == [] then [] else [CountEq(rows, CellOf, (s, scores[0]))] + PivotRow(rows, s, scores[1..])
  }

  function Cells(rows: seq<BaseRow>, states: seq<string>, scores: seq<int>): (r: seq<seq<nat>>)
    ensures |r| == |states|
    ensures forall i :: 0 <= i < |states| ==> r[i] == PivotRow(rows, states[i], scores)
  {
    if states == [] then [] else [PivotRow(rows, states[0], scores)] + Cells(rows, states[1..], scores)
  }

  /**
   * Line 9, `pivot_table(..., aggfunc='size', fill_value=0)`: the row headers are the
   * protection states present, sorted and distinct; the column headers are the scores
   * present, increasing; each cell counts the rows of its (state, score), 0 when none.
   */
  function PivotTable(rows: seq<BaseRow>): (p: Pivot)
    ensures Sorted(p.states, StrLe) && Distinct(p.states)
    ensures forall s :: s in p.states <==> s in Column(rows, StateOf)
    ensures forall i, j :: 0 <= i < j < |p.scores| ==> p.scores[i] < p.scores[j]
    ensures forall v :: v in p.scores <==> v in Column(rows, ScoreOf)
    ensures |p.cells| == |p.states|
    ensures forall r :: 0 <= r < |p.states| ==> |p.cells[r]| == |p.scores|
    ensures forall r, c :: 0 <= r < |p.states| && 0 <= c < |p.scores| ==>
      p.cells[r][c] == CountEq(rows, CellOf, (p.states[r], p.scores[c]))
  {
    var states := SortedStrings(Column(rows, StateOf));
    var scores := SortedInts(Column(rows, ScoreOf));
    Pivot(states, scores, Cells(rows, states, scores))
  }

  const ScoreUnknownColumn := "-1 (score unknown)"

  /**
   * Line 10: the column label of a score. It is "-1 (score unknown)" exactly for -1 (in
   * lower case, unlike the label of the exploded table) and the decimal form otherwise.
   */
  function ColumnLabel(v: int): (r: string)
    ensures r == "-1 (score unknown)" <==> v == -1
    ensures v != -1 ==> r == IntToString(v)
  {
    ScoreTextMinusOne(false);
    if v == -1 then IntToString(v) + " (score unknown)"
    else
      var r := IntToString(v);
      assert r != ScoreUnknownColumn by {
        if |r| > 2 { assert r[2] != ' '; }
      }
      r
  }

  /** Distinct scores get distinct column labels. */
  lemma ColumnLabelsDistinct(v: int, w: int)
    requires ColumnLabel(v) == ColumnLabel(w)
    ensures v == w
  {
    if v != -1 && w != -1 {
      IntToStringInjective(v, w);
    }
  }

  /** The heatmap's unknown column is spelt differently from the exploded table's label. */
  lemma UnknownColumnSpelling()
    ensures ColumnLabel(-1) != ScoreUnknownLabel
  {
    var col := ColumnLabel(-1);
    assert col == ScoreUnknownColumn;
    assert col[4] == 's' && ScoreUnknownLabel[4] == 'S';
  }

  /** The table the heatmap draws, and its column labels. */
  datatype HeatmapData = HeatmapData(pivot: Pivot, xLabels: seq<string>)

  /** `heatmap` up to the drawing. */
  function Heatmap(df: seq<BaseRow>, selectedTa: seq<string>): (h: HeatmapData)
    ensures h.pivot == PivotTable(Filtered(df, selectedTa))
    ensures |h.xLabels| == |h.pivot.scores|
    ensures forall c :: 0 <= c < |h.xLabels| ==> h.xLabels[c] == ColumnLabel(h.pivot.scores[c])
  {
    var p := PivotTable(Filtered(df, selectedTa));
    HeatmapData(p, seq(|p.scores|, c requires 0 <= c < |p.scores| => ColumnLabel(p.scores[c])))
  }

  // ---------------------------------------------------------------------------
  // Row and table sums.

  function Sum(xs: seq<nat>): nat {
    if xs == [] then 0 else xs[0] + Sum(xs[1..])
  }

  function SumRows(cells: seq<seq<nat>>): nat {
    if cells == [] then 0 else Sum(cells[0]) + SumRows(cells[1..])
  }

  /** A (state, score) cell counts the rows of that state that have that score. */
  lemma {:induction false} CellOfState(rows: seq<BaseRow>, s: string, v: int)
    ensures CountEq(rows, CellOf, (s, v)) == CountEq(Keep(rows, Is(StateOf, s)), ScoreOf, v)
  {
    if rows != [] {
      CellOfState(rows[1..], s, v);
      var rest := Keep(rows[1..], Is(StateOf, s));
      if StateOf(rows[0]) == s {
        var kept := [rows[0]] + rest;
        assert Keep(rows, Is(StateOf, s)) == kept;
        assert kept[0] == rows[0] && kept[1..] == rest;
        assert CountEq(kept, ScoreOf, v) == (if ScoreOf(rows[0]) == v then 1 else 0) + CountEq(rest, ScoreOf, v);
        assert (CellOf(rows[0]) == (s, v)) == (ScoreOf(rows[0]) == v);
      } else {
        assert Keep(rows, Is(StateOf, s)) == rest;
        assert CellOf(rows[0]) != (s, v);
      }
    }
  }

  lemma {:induction false} PivotRowSum(rows: seq<BaseRow>, s: string, scores: seq<int>)
    ensures Sum(PivotRow(rows, s, scores)) == SumEach(Keep(rows, Is(StateOf, s)), ScoreOf, scores)
  {
    if scores != [] {
      PivotRowSum(rows, s, scores[1..]);
      CellOfState(rows, s, scores[0]);
      assert PivotRow(rows, s, scores)[1..] == PivotRow(rows, s, scores[1..]);
    }
  }

  /** Each pivot row adds up to the number of rows of its protection state. */
  lemma RowTotal(rows: seq<BaseRow>, s: string)
    ensures Sum(PivotRow(rows, s, PivotTable(rows).scores)) == CountEq(rows, StateOf, s)
  {
    var scores := PivotTable(rows).scores;
    var kept := Keep(rows, Is(StateOf, s));
    PivotRowSum(rows, s, scores);
    SumEachCover(kept, ScoreOf, scores);
    forall i | 0 <= i < |kept| ensures ScoreOf(kept[i]) in set v | v in scores {
      assert kept[i] in kept;
      KeepMember(rows, Is(StateOf, s), kept[i]);
      var j :| 0 <= j < |rows| && rows[j] == kept[i];
      assert Column(rows, ScoreOf)[j] == ScoreOf(kept[i]);
    }
    CountInAll(kept, ScoreOf, set v | v in scores);
    KeepIsCount(rows, StateOf, s);
  }

  lemma {:induction false} CellsSum(rows: seq<BaseRow>, states: seq<string>, scores: seq<int>)
    requires forall s :: s in states ==> Sum(PivotRow(rows, s, scores)) == CountEq(rows, StateOf, s)
    ensures SumRows(Cells(rows, states, scores)) == SumEach(rows, StateOf, states)
  {
    if states != [] {
      CellsSum(rows, states[1..], scores);
      assert Cells(rows, states, scores)[1..] == Cells(rows, states[1..], scores);
    }
  }

  /**
   * Every pivot row adds up to the rows of its protection state, and the whole table to
   * the number of selected rows: the pivot loses no row and counts none twice.
   */
  lemma HeatmapSums(df: seq<BaseRow>, selectedTa: seq<string>)
    ensures var p := Heatmap(df, selectedTa).pivot;
      && (forall r :: 0 <= r < |p.states| ==> Sum(p.cells[r]) == CountEq(Filtered(df, selectedTa), StateOf, p.states[r]))
      && SumRows(p.cells) == |Filtered(df, selectedTa)|
  {
    var rows := Filtered(df, selectedTa);
    var p := PivotTable(rows);
    forall s | true ensures Sum(PivotRow(rows, s, p.scores)) == CountEq(rows, StateOf, s) {
      RowTotal(rows, s);
    }
    CellsSum(rows, p.states, p.scores);
    SumEachCover(rows, StateOf, p.states);
    forall i | 0 <= i < |rows| ensures StateOf(rows[i]) in set s | s in p.states {
      assert Column(rows, StateOf)[i] == StateOf(rows[i]);
    }
    CountInAll(rows, StateOf, set s | s in p.states);
  }
}
