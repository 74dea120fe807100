/**
 * Loading and cleaning the incident table: missing protection states and techniques are
 * filled, the techniques text is split on ",", the table is exploded to one row per
 * technique piece (stripped), and every exploded row gets a sensitivity label.
 */
module DataHandler {
  import opened Wrappers
  import opened Text
  import opened Helpers
  import opened Tables

  /** One row of the incident file as read; any cell may be missing. */
  datatype RawIncident = RawIncident(
    actor: Option<string>,
    protection: Option<string>,
    techniques: Option<string>,
    sensitivity: Option<int>,
    exposure: Option<int>,
    rootCause: Option<string>,
    asset: Option<string>)

  /** A row of the cleaned base table: protection filled, techniques split into pieces. */
  datatype Incident = Incident(
    actor: Option<string>,
    protection: string,
    techniques: seq<string>,
    sensitivity: Option<int>,
    exposure: Option<int>,
    rootCause: Option<string>,
    asset: Option<string>)

  /** A row of the exploded table: the incident, one stripped technique piece, and its label. */
  datatype ExplodedRow = ExplodedRow(incident: Incident, technique: string, scoreLabel: string)

  /** A row of the base table once the sophistication column has been attached. */
  datatype BaseRow = BaseRow(incident: Incident, category: Category)

  /**
   * What the loader and the dashboard guarantee of a base row: its technique pieces come
   * from a split on ",", and its category is the signal of those pieces.
   */
  predicate Consistent(row: BaseRow) {
    && (forall k :: 0 <= k < |row.incident.techniques| ==> ',' !in row.incident.techniques[k])
    && row.category == SophisticationSignal(List(row.incident.techniques))
  }

  /** The actor selection applied to base rows: a non-empty selection keeps the rows whose actor it lists. */
  function ActorIn(selected: seq<string>): BaseRow -> bool {
    (row: BaseRow) => Allows(selected, row.incident.actor)
  }

  const NoProtection := "No Protection"
  const UnknownName := "Unknown"
  const ScoreUnknownLabel := "-1 (Score Unknown)"

  // ---------------------------------------------------------------------------
  // Normalisation (one row at a time).

  /** The three column rewrites, applied to one row. */
  function Normalise(r: RawIncident): Incident {
    Incident(r.actor, r.protection.GetOr(NoProtection), Split(r.techniques.GetOr(UnknownName), ','),
             r.sensitivity, r.exposure, r.rootCause, r.asset)
  }

  /**
   * After normalisation a row has a protection state (the given one, or "No Protection"),
   * a non-empty list of `,`-free technique pieces that joins back to the given text (or
   * `["Unknown"]`), and every other cell as it was.
   */
  lemma NormaliseFacts(r: RawIncident)
    ensures var n := Normalise(r);
      && (r.protection.Some? ==> n.protection == r.protection.value)
      && (r.protection.None? ==> n.protection == "No Protection")
      && |n.techniques| >= 1
      && (forall k :: 0 <= k < |n.techniques| ==> ',' !in n.techniques[k])
      && (r.techniques.Some? ==> Join(",", n.techniques) == r.techniques.value)
      && (r.techniques.None? ==> n.techniques == ["Unknown"])
      && n.actor == r.actor && n.sensitivity == r.sensitivity && n.exposure == r.exposure
      && n.rootCause == r.rootCause && n.asset == r.asset
  {
    SplitFree(r.techniques.GetOr(UnknownName), ',');
    if r.techniques.Some? {
      JoinSplit(r.techniques.value, ',');
    } else {
      SplitPrefix("Unknown", "", ',');
      assert "Unknown" + "" == "Unknown";
    }
  }

  /** Lines 19 to 21: rewrite the protection and techniques columns of every row. */
  method NormaliseColumns(raw: seq<RawIncident>) returns (df: seq<Incident>)
    ensures |df| == |raw|
    ensures forall i :: 0 <= i < |raw| ==> df[i] == Normalise(raw[i])
  {
    df := [];
    var i := 0;
    while i < |raw|
      invariant 0 <= i <= |raw|
      invariant |df| == i
      invariant forall j :: 0 <= j < i ==> df[j] == Normalise(raw[j])
    {
      var r := raw[i];
      var protection := if r.protection.Some? then r.protection.value else NoProtection;
      var text := if r.techniques.Some? then r.techniques.value else UnknownName;
      df := df + [Incident(r.actor, protection, Split(text, ','), r.sensitivity, r.exposure, r.rootCause, r.asset)];
      i := i + 1;
    }
  }

  // ---------------------------------------------------------------------------
  // Exploding.

  /** The exploded rows of one incident, before labelling: one per piece, in order, stripped. */
  function Pieces(inc: Incident): (r: seq<ExplodedRow>)
    ensures |r| == |inc.techniques|
    ensures forall k :: 0 <= k < |r| ==> r[k] == ExplodedRow(inc, Trim(inc.techniques[k]), "")
  {
    seq(|inc.techniques|, k requires 0 <= k < |inc.techniques| => ExplodedRow(inc, Trim(inc.techniques[k]), ""))
  }

  /** One row per technique piece of every incident, in order, each piece stripped. */
  function Explode(df: seq<Incident>): seq<ExplodedRow> {
    if df == [] then [] else Explode(df[..|df| - 1]) + Pieces(df[|df| - 1])
  }

  /** The total number of pieces of the first rows. */
  function PieceCount(df: seq<Incident>): nat {
    if df == [] then 0 else PieceCount(df[..|df| - 1]) + |df[|df| - 1].techniques|
  }

  lemma {:induction false} PieceCountPrefix(df: seq<Incident>, i: nat)
    requires i < |df|
    ensures PieceCount(df[..i + 1]) == PieceCount(df[..i]) + |df[i].techniques|
    ensures PieceCount(df[..i]) + |df[i].techniques| <= PieceCount(df)
  {
    assert df[..i + 1][..i] == df[..i];
    if i + 1 < |df| {
      PieceCountPrefix(df[..|df| - 1], i);
      assert df[..|df| - 1][..i + 1] == df[..i + 1];
      assert df[..|df| - 1][..i] == df[..i];
    } else {
      assert df[..i + 1] == df;
    }
  }

  /** A table of k-piece, l-piece, ... incidents explodes to k + l + ... rows. */
  lemma {:induction false} ExplodeLength(df: seq<Incident>)
    ensures |Explode(df)| == PieceCount(df)
  {
    if df != [] { ExplodeLength(df[..|df| - 1]); }
  }

  /**
   * The rows of incident `i` form one block, in piece order: row `k` of the block carries the
   * whole incident and its piece `k` stripped; a blank piece gives an empty technique.
   */
  lemma ExplodeBlock(df: seq<Incident>, i: nat, k: nat)
    requires i < |df| && k < |df[i].techniques|
    ensures PieceCount(df[..i]) + k < |Explode(df)|
    ensures Explode(df)[PieceCount(df[..i]) + k] == ExplodedRow(df[i], Trim(df[i].techniques[k]), "")
    ensures Explode(df)[PieceCount(df[..i]) + k].technique == [] <==> Blank(df[i].techniques[k])
  {
    ExplodeAt(df, i, k);
  }

  lemma {:induction false} ExplodeAt(df: seq<Incident>, i: nat, k: nat)
    requires i < |df| && k < |df[i].techniques|
    ensures PieceCount(df[..i]) + k < |Explode(df)|
    ensures Explode(df)[PieceCount(df[..i]) + k] == Pieces(df[i])[k]
    decreases |df|
  {
    var n := |df| - 1;
    var init := df[..n];
    ExplodeLength(df);
    ExplodeLength(init);
    PieceCountPrefix(df, i);
    var e, ei := Explode(df), Explode(init);
    assert e == ei + Pieces(df[n]);
    if i < n {
      ExplodeAt(init, i, k);
      assert init[..i] == df[..i];
      assert init[i] == df[i];
      assert e[PieceCount(df[..i]) + k] == ei[PieceCount(df[..i]) + k];
    } else {
      assert init == df[..i];
    }
  }

  /** Conversely, every exploded row carries one of the incidents. */
  lemma {:induction false} ExplodeOrigin(df: seq<Incident>, k: nat) returns (i: nat)
    requires k < |Explode(df)|
    ensures i < |df| && Explode(df)[k].incident == df[i]
    decreases |df|
  {
    var n := |df| - 1;
    var init := df[..n];
    assert Explode(df) == Explode(init) + Pieces(df[n]);
    if k < |Explode(init)| {
      i := ExplodeOrigin(init, k);
      assert init[i] == df[i];
    } else {
      i := n;
    }
  }

  // ---------------------------------------------------------------------------
  // Sensitivity labels.

  /** Python `str` of a sensitivity cell: a missing value in a float column renders as "nan". */
  function CellText(floatColumn: bool, v: Option<int>): string {
    if v.Some? then ScoreText(floatColumn, v.value) else "nan"
  }

  /** The label: "-1 (Score Unknown)" for a score of -1, otherwise the cell's string form. */
  function SensitivityLabel(floatColumn: bool, v: Option<int>): string {
    if v == Some(-1) then ScoreUnknownLabel else CellText(floatColumn, v)
  }

  /** A whole-number column that has a missing cell is stored, and rendered, as floating point. */
  function HasMissingSensitivity(df: seq<Incident>): bool {
    exists i | 0 <= i < |df| :: df[i].sensitivity.None?
  }

  /**
   * The label is "-1 (Score Unknown)" exactly when the score is -1; the other labels are
   * the string forms of the scores, and distinct scores get distinct labels.
   */
  lemma SensitivityLabelFacts(floatColumn: bool, v: Option<int>, w: Option<int>)
    ensures SensitivityLabel(floatColumn, v) == "-1 (Score Unknown)" <==> v == Some(-1)
    ensures v != Some(-1) ==> SensitivityLabel(floatColumn, v) == CellText(floatColumn, v)
    ensures SensitivityLabel(floatColumn, v) == SensitivityLabel(floatColumn, w) ==> v == w
  {
    var unknown := ScoreUnknownLabel;
    assert unknown[2] == ' ';
    if v.Some? {
      assert ScoreText(floatColumn, v.value) != unknown by {
        var s := ScoreText(floatColumn, v.value);
        if |s| > 2 { assert s[2] != ' '; }
      }
    }
    if w.Some? {
      assert ScoreText(floatColumn, w.value) != unknown by {
        var s := ScoreText(floatColumn, w.value);
        if |s| > 2 { assert s[2] != ' '; }
      }
    }
    if SensitivityLabel(floatColumn, v) == SensitivityLabel(floatColumn, w) && v.Some? && w.Some? {
      ScoreTextInjective(floatColumn, v.value, w.value);
    }
    if v.Some? && w.None? {
      var s := ScoreText(floatColumn, v.value);
      assert s != "nan" by { assert s[0] != 'n'; }
    }
    if v.None? && w.Some? {
      var s := ScoreText(floatColumn, w.value);
      assert s != "nan" by { assert s[0] != 'n'; }
    }
  }

  /** Every exploded row relabelled from its incident's score. */
  function Labelled(rows: seq<ExplodedRow>, floatColumn: bool): (r: seq<ExplodedRow>)
    ensures |r| == |rows|
  {
    seq(|rows|, i requires 0 <= i < |rows| =>
      rows[i].(scoreLabel := SensitivityLabel(floatColumn, rows[i].incident.sensitivity)))
  }

  /**
   * Lines 28 and 29: write the string form of every score into the label column, then
   * overwrite, in place, the labels of the rows whose score is -1.
   */
  method LabelSensitivity(rows: array<ExplodedRow>, floatColumn: bool)
    modifies rows
    ensures rows[..] == Labelled(old(rows[..]), floatColumn)
  {
    var i := 0;
    while i < rows.Length
      invariant 0 <= i <= rows.Length
      invariant forall j :: 0 <= j < i ==>
        rows[j] == old(rows[j]).(scoreLabel := CellText(floatColumn, old(rows[j]).incident.sensitivity))
      invariant forall j :: i <= j < rows.Length ==> rows[j] == old(rows[j])
    {
      rows[i] := rows[i].(scoreLabel := CellText(floatColumn, rows[i].incident.sensitivity));
      i := i + 1;
    }
    i := 0;
    while i < rows.Length
      invariant 0 <= i <= rows.Length
      invariant forall j :: 0 <= j < i ==>
        rows[j] == old(rows[j]).(scoreLabel := SensitivityLabel(floatColumn, old(rows[j]).incident.sensitivity))
      invariant forall j :: i <= j < rows.Length ==>
        rows[j] == old(rows[j]).(scoreLabel := CellText(floatColumn, old(rows[j]).incident.sensitivity))
    {
      if rows[i].incident.sensitivity == Some(-1) {
        rows[i] := rows[i].(scoreLabel := ScoreUnknownLabel);
      }
      i := i + 1;
    }
  }

  // ---------------------------------------------------------------------------
  // The whole load.

  /** Lines 24 and 25: one row per piece of every incident, in order, each piece stripped. */
  method ExplodeTechniques(df: seq<Incident>) returns (rows: seq<ExplodedRow>)
    ensures rows == Explode(df)
  {
    rows := [];
    var i := 0;
    while i < |df|
      invariant 0 <= i <= |df|
      invariant rows == Explode(df[..i])
    {
      var block := ExplodeIncident(df[i]);
      ExplodeStep(df, i);
      rows := rows + block;
      i := i + 1;
    }
    assert df[..i] == df;
  }

  /** The inner loop of the explode: the rows of one incident, piece by piece. */
  method ExplodeIncident(inc: Incident) returns (block: seq<ExplodedRow>)
    ensures block == Pieces(inc)
  {
    block := [];
    var k := 0;
    while k < |inc.techniques|
      invariant 0 <= k <= |inc.techniques|
      invariant block == Pieces(inc)[..k]
    {
      var row := ExplodedRow(inc, Trim(inc.techniques[k]), "");
      assert Pieces(inc)[..k + 1] == Pieces(inc)[..k] + [row];
      block := block + [row];
      k := k + 1;
    }
  }

  lemma ExplodeStep(df: seq<Incident>, i: nat)
    requires i < |df|
    ensures Explode(df[..i + 1]) == Explode(df[..i]) + Pieces(df[i])
  {
    assert df[..i + 1][..i] == df[..i];
  }

  /**
   * `load_and_clean_data` on rows already read from the file: the cleaned base table, the
   * labelled exploded table, and the number of records.
   */
  method LoadAndClean(raw: seq<RawIncident>) returns (df: seq<Incident>, exploded: seq<ExplodedRow>, totalRecords: nat)
    ensures totalRecords == |raw|
    ensures |df| == |raw| && forall i :: 0 <= i < |raw| ==> df[i] == Normalise(raw[i])
    ensures exploded == Labelled(Explode(df), HasMissingSensitivity(df))
  {
    totalRecords := |raw|;
    df := NormaliseColumns(raw);
    var rows := ExplodeTechniques(df);
    var table := new ExplodedRow[|rows|](j requires 0 <= j < |rows| => rows[j]);
    assert table[..] == rows;
    LabelSensitivity(table, HasMissingSensitivity(df));
    exploded := table[..];
  }
}
