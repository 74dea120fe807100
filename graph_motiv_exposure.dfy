/**
 * The motivation-by-exposure view: the root cause is filled with "Unknown" to give the
 * motivation before the motivation selection is applied, every exposure score gets a label
 * ("Unknown" for a missing score or -1), and the exposure selection tests that label.
 */
module GraphMotivExposure {
  import opened Wrappers
  import opened Ordering
  import opened Text
  import opened Tables
  import opened DataHandler

  /** A (motivation, exposure label) group. */
  datatype MeKey = MeKey(motivation: string, exposureLabel: string)

  /** Line 5: the root cause, "Unknown" when missing. */
  function Motivation(row: BaseRow): string { row.incident.rootCause.GetOr(UnknownName) }

  /** A whole-number column that has a missing cell is stored, and rendered, as floating point. */
  function HasMissingExposure(df: seq<BaseRow>): bool {
    exists i | 0 <= i < |df| :: df[i].incident.exposure.None?
  }

  /**
   * Line 10: the string form of a filled score with "-1.0", then "-1", replaced by
   * "Unknown". The label is "Unknown" exactly for -1, otherwise the score's string form.
   */
  function ExposureLabel(floatColumn: bool, v: int): (r: string)
    ensures r == "Unknown" <==> v == -1
    ensures v != -1 ==> r == ScoreText(floatColumn, v)
  {
    var text := ScoreText(floatColumn, v);
    ScoreTextFacts(floatColumn, v);
    var once := if text == "-1.0" then UnknownName else text;
    if once == "-1" then UnknownName else once
  }

  /** A score's string form is never "Unknown", and is "-1" or "-1.0" only for -1. */
  lemma ScoreTextFacts(floatColumn: bool, v: int)
    ensures ScoreText(floatColumn, v) != "Unknown"
    ensures ScoreText(floatColumn, v) == "-1.0" || ScoreText(floatColumn, v) == "-1" <==> v == -1
  {
    var text := ScoreText(floatColumn, v);
    assert text != UnknownName by { assert text[0] != 'U'; }
    ScoreTextMinusOne(floatColumn);
    if text == ScoreText(floatColumn, -1) {
      ScoreTextInjective(floatColumn, v, -1);
    } else if floatColumn {
      assert text != "-1" by { assert |text| == |IntToString(v)| + 2; }
    } else {
      assert text != "-1.0" by { if |text| == 4 { assert text[2] != '.'; } }
    }
  }

  /** The label of a row, its score filled with -1 (line 9). */
  function RowLabel(floatColumn: bool, row: BaseRow): string {
    ExposureLabel(floatColumn, row.incident.exposure.GetOr(-1))
  }

  function MotivationIn(selected: seq<string>): BaseRow -> bool {
    (row: BaseRow) => Allows(selected, Some(Motivation(row)))
  }

  function LabelIn(floatColumn: bool, selected: seq<string>): BaseRow -> bool {
    (row: BaseRow) => Allows(selected, Some(RowLabel(floatColumn, row)))
  }

  /** Lines 5 to 12: the motivation selection on the filled cells, then the label selection. */
  function Selected(df: seq<BaseRow>, motivations: seq<string>, exposures: seq<string>): seq<BaseRow> {
    Keep(Keep(df, MotivationIn(motivations)), LabelIn(HasMissingExposure(df), exposures))
  }

  function MeKeyOf(floatColumn: bool): BaseRow -> Option<MeKey> {
    (row: BaseRow) => Some(MeKey(Motivation(row), RowLabel(floatColumn, row)))
  }

  /**
   * Line 14: the group counts (`Actual_Count`); every selected row is in a group, so the
   * counts add up to the number of selected rows.
   */
  function MotivExposure(df: seq<BaseRow>, motivations: seq<string>, exposures: seq<string>): (t: seq<Bucket<MeKey>>)
    ensures Distinct(Keys(t)) && Positive(t)
    ensures Total(t) == |Selected(df, motivations, exposures)|
    ensures forall k :: Lookup(t, k) == CountKey(Selected(df, motivations, exposures), MeKeyOf(HasMissingExposure(df)), k)
  {
    var rows := Selected(df, motivations, exposures);
    CountKeyedAll(rows, MeKeyOf(HasMissingExposure(df)));
    GroupBy(rows, MeKeyOf(HasMissingExposure(df)))
  }

  /** Empty selections keep every row. */
  lemma MotivExposureUnfiltered(df: seq<BaseRow>)
    ensures MotivExposure(df, [], []) == GroupBy(df, MeKeyOf(HasMissingExposure(df)))
  {
    var fc := HasMissingExposure(df);
    assert forall i :: 0 <= i < |df| ==> MotivationIn([])(df[i]);
    KeepAll(df, MotivationIn([]));
    assert forall i :: 0 <= i < |df| ==> LabelIn(fc, [])(df[i]);
    KeepAll(df, LabelIn(fc, []));
  }

  /**
   * A row survives the selections exactly when its filled motivation and its label are
   * selected: since the fill comes first, selecting "Unknown" keeps the rows whose root
   * cause is missing, and selecting the label "Unknown" keeps the rows whose exposure is
   * missing or -1.
   */
  lemma SelectedRows(df: seq<BaseRow>, motivations: seq<string>, exposures: seq<string>, row: BaseRow)
    ensures row in Selected(df, motivations, exposures) <==>
      && row in df
      && Allows(motivations, Some(row.incident.rootCause.GetOr("Unknown")))
      && Allows(exposures, Some(ExposureLabel(HasMissingExposure(df), row.incident.exposure.GetOr(-1))))
  {
    var fc := HasMissingExposure(df);
    KeepMember(Keep(df, MotivationIn(motivations)), LabelIn(fc, exposures), row);
    KeepMember(df, MotivationIn(motivations), row);
    assert MotivationIn(motivations)(row) == Allows(motivations, Some(row.incident.rootCause.GetOr("Unknown")));
    assert LabelIn(fc, exposures)(row) == Allows(exposures, Some(ExposureLabel(fc, row.incident.exposure.GetOr(-1))));
  }

  /** Selecting the label "Unknown" keeps exactly the rows whose exposure is missing or -1. */
  lemma UnknownExposureRows(df: seq<BaseRow>, row: BaseRow)
    ensures row in Selected(df, [], ["Unknown"]) <==>
      row in df && (row.incident.exposure.None? || row.incident.exposure == Some(-1))
  {
    SelectedRows(df, [], ["Unknown"], row);
    var text := ExposureLabel(HasMissingExposure(df), row.incident.exposure.GetOr(-1));
    assert text in ["Unknown"] <==> text == "Unknown";
  }
}
