/**
 * The dashboard built from the components: the start-up state (the cleaned and exploded
 * tables, the sophistication column, the record count and the dropdown domains), and the
 * callback that routes each filter selection to the aggregator of its view.
 */
module Dashboard {
  import opened Wrappers
  import opened Ordering
  import opened Text
  import opened Tables
  import opened Helpers
  import opened DataHandler
  import GA = GraphActor
  import GTS = GraphTechSophistication
  import GAP = GraphActorProtection
  import GTSe = GraphTechSensitivity
  import GMA = GraphMotivAsset
  import GH = GraphHeatmap
  import GME = GraphMotivExposure

  // ---------------------------------------------------------------------------
  // The sophistication column.

  /** Line 36 on one record: the record with the signal of its technique pieces attached. */
  function Categorised(inc: Incident): BaseRow {
    BaseRow(inc, SophisticationSignal(List(inc.techniques)))
  }

  /** A loaded record with its category attached is consistent. */
  lemma CategorisedConsistent(r: RawIncident)
    ensures Consistent(Categorised(Normalise(r)))
  {
    NormaliseFacts(r);
  }

  /** Line 36: the category column attached to every record, one record at a time. */
  method AttachCategories(df: seq<Incident>) returns (rows: seq<BaseRow>)
    ensures |rows| == |df|
    ensures forall i :: 0 <= i < |df| ==> rows[i] == Categorised(df[i])
  {
    rows := [];
    var i := 0;
    while i < |df|
      invariant 0 <= i <= |df|
      invariant |rows| == i
      invariant forall j :: 0 <= j < i ==> rows[j] == Categorised(df[j])
    {
      var category := SophisticationSignal(List(df[i].techniques));
      rows := rows + [BaseRow(df[i], category)];
      i := i + 1;
    }
  }

  // ---------------------------------------------------------------------------
  // Dropdown domains.

  function RootCell(row: BaseRow): Option<string> { row.incident.rootCause }

  function AssetCell(row: BaseRow): Option<string> { row.incident.asset }

  function ScoreLabelOf(row: ExplodedRow): string { row.scoreLabel }

  function ExposureLabelOf(floatColumn: bool): BaseRow -> string {
    (row: BaseRow) => GME.RowLabel(floatColumn, row)
  }

  /** Line 39: the motivations, sorted and distinct, a missing root cause shown as "Unknown". */
  function Motivations(df: seq<BaseRow>): (r: seq<string>)
    ensures Sorted(r, StrLe) && Distinct(r)
    ensures forall x :: x in r <==> exists i :: 0 <= i < |df| && df[i].incident.rootCause.GetOr("Unknown") == x
  {
    var col := Column(df, GME.Motivation);
    var r := SortedStrings(col);
    assert forall x :: x in col <==> exists i :: 0 <= i < |df| && col[i] == x;
    r
  }

  /**
   * Lines 40 to 47: the exposure levels, sorted and distinct, exactly the labels of the
   * records. "Unknown" is listed exactly when a score is missing or -1, any other score is
   * listed, in its string form, exactly when some record has it, and nothing else is listed.
   */
  function ExposureLevels(df: seq<BaseRow>): (r: seq<string>)
    ensures Sorted(r, StrLe) && Distinct(r)
    ensures "Unknown" in r <==>
      exists i :: 0 <= i < |df| && (df[i].incident.exposure.None? || df[i].incident.exposure == Some(-1))
    ensures forall v :: v != -1 ==>
      (ScoreText(GME.HasMissingExposure(df), v) in r <==> exists i :: 0 <= i < |df| && df[i].incident.exposure == Some(v))
    ensures forall x :: x in r <==> exists i :: 0 <= i < |df| && GME.RowLabel(GME.HasMissingExposure(df), df[i]) == x
    ensures forall x :: x in r ==>
      (x == "Unknown" ||
       exists i :: 0 <= i < |df| && df[i].incident.exposure.Some? && df[i].incident.exposure.value != -1 &&
         x == ScoreText(GME.HasMissingExposure(df), df[i].incident.exposure.value))
  {
    var fc := GME.HasMissingExposure(df);
    var col := Column(df, ExposureLabelOf(fc));
    assert forall x :: x in col <==> exists i :: 0 <= i < |df| && col[i] == x;
    UnknownLevel(df, fc);
    forall v | v != -1
      ensures ScoreText(fc, v) in Column(df, ExposureLabelOf(fc)) <==> exists i :: 0 <= i < |df| && df[i].incident.exposure == Some(v)
    {
      ScoreLevel(df, fc, v);
    }
    SortedStrings(Column(df, ExposureLabelOf(fc)))
  }

  lemma UnknownLevel(df: seq<BaseRow>, fc: bool)
    ensures "Unknown" in Column(df, ExposureLabelOf(fc)) <==>
      exists i :: 0 <= i < |df| && (df[i].incident.exposure.None? || df[i].incident.exposure == Some(-1))
  {
    var col := Column(df, ExposureLabelOf(fc));
    if "Unknown" in col {
      var i :| 0 <= i < |col| && col[i] == "Unknown";
      assert GME.RowLabel(fc, df[i]) == "Unknown";
    }
    if exists i :: 0 <= i < |df| && (df[i].incident.exposure.None? || df[i].incident.exposure == Some(-1)) {
      var i :| 0 <= i < |df| && (df[i].incident.exposure.None? || df[i].incident.exposure == Some(-1));
      assert col[i] == "Unknown";
    }
  }

  lemma ScoreLevel(df: seq<BaseRow>, fc: bool, v: int)
    requires v != -1
    ensures ScoreText(fc, v) in Column(df, ExposureLabelOf(fc)) <==>
      exists i :: 0 <= i < |df| && df[i].incident.exposure == Some(v)
  {
    var col := Column(df, ExposureLabelOf(fc));
    if ScoreText(fc, v) in col {
      var i :| 0 <= i < |col| && col[i] == ScoreText(fc, v);
      LabelOfScore(fc, df[i].incident.exposure.GetOr(-1), v);
    }
    if exists i :: 0 <= i < |df| && df[i].incident.exposure == Some(v) {
      var i :| 0 <= i < |df| && df[i].incident.exposure == Some(v);
      LabelOfScore(fc, v, v);
      assert col[i] == ScoreText(fc, v);
    }
  }

  /** Away from -1, a label names exactly one score. */
  lemma LabelOfScore(floatColumn: bool, w: int, v: int)
    requires v != -1
    ensures GME.ExposureLabel(floatColumn, w) == ScoreText(floatColumn, v) <==> w == v
  {
    GME.ScoreTextFacts(floatColumn, v);
    if w != -1 && GME.ExposureLabel(floatColumn, w) == ScoreText(floatColumn, v) {
      ScoreTextInjective(floatColumn, w, v);
    }
  }

  /** Line 49: the exploded techniques, sorted and distinct. */
  function TechniqueOptions(exploded: seq<ExplodedRow>): (r: seq<string>)
    ensures Sorted(r, StrLe) && Distinct(r)
    ensures forall x :: x in r <==> exists i :: 0 <= i < |exploded| && exploded[i].technique == x
  {
    var col := Column(exploded, GTSe.RowTechnique);
    assert forall x :: x in col <==> exists i :: 0 <= i < |exploded| && col[i] == x;
    SortedStrings(col)
  }

  /**
   * Line 50, `value_counts().head(15)`: 15 actors, or every present actor when there are
   * fewer, in non-increasing order of record count, and no actor left out has more records
   * than one listed.
   */
  function ThreatActors(df: seq<BaseRow>): (r: seq<string>)
    ensures |r| == Min(15, |GroupBy(df, GAP.ActorCell)|)
    ensures |r| < 15 ==> forall a :: CountKey(df, GAP.ActorCell, a) > 0 ==> a in r
    ensures Distinct(r)
    ensures forall i :: 0 <= i < |r| ==> CountKey(df, GAP.ActorCell, r[i]) >= 1
    ensures forall i, j :: 0 <= i < j < |r| ==> CountKey(df, GAP.ActorCell, r[i]) >= CountKey(df, GAP.ActorCell, r[j])
    ensures forall a :: CountKey(df, GAP.ActorCell, a) > 0 && a !in r ==>
      forall i :: 0 <= i < |r| ==> CountKey(df, GAP.ActorCell, a) <= CountKey(df, GAP.ActorCell, r[i])
  {
    Keys(TopCounts(df, GAP.ActorCell, 15))
  }

  /** Lines 51 and 52: the present values of a column, sorted and distinct. */
  function PresentOptions(df: seq<BaseRow>, cell: BaseRow -> Option<string>): (r: seq<string>)
    ensures Sorted(r, StrLe) && Distinct(r)
    ensures forall x :: x in r <==> exists i :: 0 <= i < |df| && cell(df[i]) == Some(x)
  {
    SortedStrings(Present(df, cell))
  }

  /** Line 53: the protection states, sorted and distinct. */
  function ProtectionStates(df: seq<BaseRow>): (r: seq<string>)
    ensures Sorted(r, StrLe) && Distinct(r)
    ensures forall x :: x in r <==> exists i :: 0 <= i < |df| && df[i].incident.protection == x
  {
    var col := Column(df, GH.StateOf);
    assert forall x :: x in col <==> exists i :: 0 <= i < |df| && col[i] == x;
    SortedStrings(col)
  }

  /** Line 54: the sensitivity labels of the exploded table, sorted and distinct. */
  function SensitivityOptions(exploded: seq<ExplodedRow>): (r: seq<string>)
    ensures Sorted(r, StrLe) && Distinct(r)
    ensures forall x :: x in r <==> exists i :: 0 <= i < |exploded| && exploded[i].scoreLabel == x
  {
    var col := Column(exploded, ScoreLabelOf);
    assert forall x :: x in col <==> exists i :: 0 <= i < |exploded| && col[i] == x;
    SortedStrings(col)
  }

  datatype Domains = Domains(
    motivations: seq<string>,
    exposureLevels: seq<string>,
    techniques: seq<string>,
    threatActors: seq<string>,
    rootCauses: seq<string>,
    assetTypes: seq<string>,
    protectionStates: seq<string>,
    sensitivityOptions: seq<string>)

  function DomainsOf(df: seq<BaseRow>, exploded: seq<ExplodedRow>): Domains {
    Domains(Motivations(df), ExposureLevels(df), TechniqueOptions(exploded), ThreatActors(df),
            PresentOptions(df, RootCell), PresentOptions(df, AssetCell), ProtectionStates(df),
            SensitivityOptions(exploded))
  }

  // ---------------------------------------------------------------------------
  // Start-up.

  /** What the dashboard holds once started: the two tables, the record count, the domains. */
  datatype State = State(df: seq<BaseRow>, exploded: seq<ExplodedRow>, totalRecords: nat, domains: Domains)

  /** The start-up state of rows read from the file. */
  function StartState(raw: seq<RawIncident>): State {
    var df := Column(raw, Normalise);
    var exploded := Labelled(Explode(df), HasMissingSensitivity(df));
    var rows := Column(df, Categorised);
    State(rows, exploded, |raw|, DomainsOf(rows, exploded))
  }

  /** Lines 34 to 54: load, attach the categories, compute the domains. */
  method Startup(raw: seq<RawIncident>) returns (s: State)
    ensures s == StartState(raw)
  {
    var df, exploded, totalRecords := LoadAndClean(raw);
    assert df == Column(raw, Normalise);
    var rows := AttachCategories(df);
    assert rows == Column(df, Categorised);
    s := State(rows, exploded, totalRecords, DomainsOf(rows, exploded));
  }

  /** Every record of the started dashboard is consistent. */
  lemma StartConsistent(raw: seq<RawIncident>)
    ensures forall i :: 0 <= i < |StartState(raw).df| ==> Consistent(StartState(raw).df[i])
  {
    forall i | 0 <= i < |raw| ensures Consistent(StartState(raw).df[i]) {
      CategorisedConsistent(raw[i]);
    }
  }

  /**
   * The sensitivity options list "-1 (Score Unknown)" exactly when some record has the
   * score -1: every record explodes to at least one row, and every row carries its record.
   */
  lemma UnknownSensitivityOption(raw: seq<RawIncident>)
    ensures ScoreUnknownLabel in StartState(raw).domains.sensitivityOptions <==>
      exists i :: 0 <= i < |raw| && raw[i].sensitivity == Some(-1)
  {
    var df := Column(raw, Normalise);
    var exploded := Labelled(Explode(df), HasMissingSensitivity(df));
    assert StartState(raw).domains.sensitivityOptions == SensitivityOptions(exploded);
    if exists i :: 0 <= i < |raw| && raw[i].sensitivity == Some(-1) {
      var i :| 0 <= i < |raw| && raw[i].sensitivity == Some(-1);
      var k := UnknownScoreRow(raw, i);
    }
    if ScoreUnknownLabel in SensitivityOptions(exploded) {
      var k :| 0 <= k < |exploded| && exploded[k].scoreLabel == ScoreUnknownLabel;
      var i := UnknownRowScore(raw, k);
    }
  }

  /** A record with the score -1 gives a row labelled "-1 (Score Unknown)". */
  lemma UnknownScoreRow(raw: seq<RawIncident>, i: nat) returns (k: nat)
    requires i < |raw| && raw[i].sensitivity == Some(-1)
    ensures var df := Column(raw, Normalise);
      var exploded := Labelled(Explode(df), HasMissingSensitivity(df));
      k < |exploded| && exploded[k].scoreLabel == ScoreUnknownLabel
  {
    var df := Column(raw, Normalise);
    var fc := HasMissingSensitivity(df);
    assert df[i] == Normalise(raw[i]);
    assert |df[i].techniques| >= 1;
    ExplodeBlock(df, i, 0);
    k := PieceCount(df[..i]);
    var row := Explode(df)[k];
    assert row.incident.sensitivity == Some(-1);
    assert Labelled(Explode(df), fc)[k] == row.(scoreLabel := SensitivityLabel(fc, row.incident.sensitivity));
  }

  /** A row labelled "-1 (Score Unknown)" comes from a record with the score -1. */
  lemma UnknownRowScore(raw: seq<RawIncident>, k: nat) returns (i: nat)
    requires var df := Column(raw, Normalise);
      var exploded := Labelled(Explode(df), HasMissingSensitivity(df));
      k < |exploded| && exploded[k].scoreLabel == ScoreUnknownLabel
    ensures i < |raw| && raw[i].sensitivity == Some(-1)
  {
    var df := Column(raw, Normalise);
    var fc := HasMissingSensitivity(df);
    i := ExplodeOrigin(df, k);
    SensitivityLabelFacts(fc, df[i].sensitivity, df[i].sensitivity);
  }

  // ---------------------------------------------------------------------------
  // The callback.

  /** The ten filter selections, in the callback's argument order (an empty one selects all). */
  datatype Selections = Selections(
    selectedTa: seq<string>,
    selectedTech: seq<string>,
    selectedRoot: seq<string>,
    selectedAsset: seq<string>,
    selectedSection5Tech: seq<string>,
    roseMotivation: seq<string>,
    roseExposure: seq<string>,
    s4Ta: seq<string>,
    s4Prot: seq<string>,
    selectedScores: seq<string>)

  /** The tables of the nine figures the callback returns. */
  datatype Views = Views(
    mainBar: seq<Bucket<GA.Pair>>,
    network: Option<map<GA.Pair, nat>>,
    rootAsset: seq<Bucket<GMA.RaKey>>,
    heatmap: GH.HeatmapData,
    actorProtection: seq<GAP.Share>,
    techSens: (seq<Bucket<GTSe.TlKey>>, seq<string>),
    rose: seq<Bucket<GME.MeKey>>,
    soph: seq<Bucket<Category>>,
    combo: seq<Bucket<string>>)

  /**
   * The network edges of an exploded table: none when a relabelled pair repeats, otherwise
   * exactly the ten relabelled top pairs with their counts.
   */
  ghost predicate NetworkOf(exploded: seq<ExplodedRow>, edges: Option<map<GA.Pair, nat>>) {
    var top := GA.Relabelled(GA.TopPairs(exploded));
    && (edges.None? <==> !Distinct(Keys(top)))
    && (edges.Some? ==> forall p :: p in edges.value <==> p in Keys(top))
    && (edges.Some? ==> forall i :: 0 <= i < |top| ==> top[i].key in edges.value && edges.value[top[i].key] == top[i].count)
  }

  /** Lines 274 to 299: which table each figure gets, from which selections. */
  ghost predicate ViewsOf(s: State, sel: Selections, v: Views) {
    && v.mainBar == GA.MainBar(s.exploded, s.exploded, sel.selectedTa, sel.selectedTech)
    && NetworkOf(s.exploded, v.network)
    && v.rootAsset == GMA.MotivAsset(s.df, sel.selectedRoot, sel.selectedAsset)
    && v.heatmap == GH.Heatmap(s.df, sel.selectedTa)
    && v.actorProtection == GAP.ActorProtection(s.df, sel.s4Ta, sel.s4Prot)
    && v.techSens == GTSe.TechSensitivity(s.exploded, sel.selectedScores, sel.selectedSection5Tech)
    && v.rose == GME.MotivExposure(s.df, sel.roseMotivation, sel.roseExposure)
    && v.soph == GTS.SophisticationBar(s.df, sel.selectedTa)
    && v.combo == GTS.TechCombination(s.df, sel.selectedTa)
  }

  /** `update_dashboard`: every view from the start-up tables and its own selections. */
  method UpdateDashboard(s: State, sel: Selections) returns (v: Views)
    ensures ViewsOf(s, sel, v)
  {
    var mainBar := GA.MainBar(s.exploded, s.exploded, sel.selectedTa, sel.selectedTech);
    var network := GA.NetworkGraph(s.exploded);
    v := Views(mainBar, network,
               GMA.MotivAsset(s.df, sel.selectedRoot, sel.selectedAsset),
               GH.Heatmap(s.df, sel.selectedTa),
               GAP.ActorProtection(s.df, sel.s4Ta, sel.s4Prot),
               GTSe.TechSensitivity(s.exploded, sel.selectedScores, sel.selectedSection5Tech),
               GME.MotivExposure(s.df, sel.roseMotivation, sel.roseExposure),
               GTS.SophisticationBar(s.df, sel.selectedTa),
               GTS.TechCombination(s.df, sel.selectedTa));
  }

  /** The network edges are determined by the exploded table. */
  lemma NetworkUnique(exploded: seq<ExplodedRow>, e1: Option<map<GA.Pair, nat>>, e2: Option<map<GA.Pair, nat>>)
    requires NetworkOf(exploded, e1) && NetworkOf(exploded, e2)
    ensures e1 == e2
  {
    if e1.Some? {
      EdgesUnique(GA.Relabelled(GA.TopPairs(exploded)), e1.value, e2.value);
    }
  }

  /** Two edge maps that both hold exactly the pairs of `top`, with their counts, are equal. */
  lemma EdgesUnique(top: seq<Bucket<GA.Pair>>, m1: map<GA.Pair, nat>, m2: map<GA.Pair, nat>)
    requires forall p :: p in m1 <==> p in Keys(top)
    requires forall p :: p in m2 <==> p in Keys(top)
    requires forall i :: 0 <= i < |top| ==> top[i].key in m1 && m1[top[i].key] == top[i].count
    requires forall i :: 0 <= i < |top| ==> top[i].key in m2 && m2[top[i].key] == top[i].count
    ensures m1 == m2
  {
    forall p | p in m1 ensures p in m2 && m1[p] == m2[p] {
      var i :| 0 <= i < |top| && Keys(top)[i] == p;
    }
    assert m1.Keys == m2.Keys;
  }

  /** The views are a function of the state and the selections. */
  lemma ViewsDeterministic(s: State, sel: Selections, v1: Views, v2: Views)
    requires ViewsOf(s, sel, v1) && ViewsOf(s, sel, v2)
    ensures v1 == v2
  {
    NetworkUnique(s.exploded, v1.network, v2.network);
  }

  /** The network view does not depend on any selection. */
  lemma NetworkIgnoresSelections(s: State, sel1: Selections, sel2: Selections, v1: Views, v2: Views)
    requires ViewsOf(s, sel1, v1) && ViewsOf(s, sel2, v2)
    ensures v1.network == v2.network
  {
    NetworkUnique(s.exploded, v1.network, v2.network);
  }

  /**
   * The first actor selection drives the main bar, the heatmap, the sophistication bar and
   * the combinations, and nothing else: changing it alone leaves the other five views as
   * they were.
   */
  lemma ActorSelectionRouting(s: State, sel: Selections, ta: seq<string>, v1: Views, v2: Views)
    requires ViewsOf(s, sel, v1) && ViewsOf(s, sel.(selectedTa := ta), v2)
    ensures v1.network == v2.network && v1.rootAsset == v2.rootAsset && v1.actorProtection == v2.actorProtection
         && v1.techSens == v2.techSens && v1.rose == v2.rose
    ensures v2.mainBar == GA.MainBar(s.exploded, s.exploded, ta, sel.selectedTech)
         && v2.heatmap == GH.Heatmap(s.df, ta)
         && v2.soph == GTS.SophisticationBar(s.df, ta)
         && v2.combo == GTS.TechCombination(s.df, ta)
  {
    NetworkUnique(s.exploded, v1.network, v2.network);
  }

  /**
   * Over a started dashboard, every reported combination is the " + "-join of the sorted
   * non-blank pieces (at least two) of a multi-technique record of a selected actor, and is
   * never "Unknown".
   */
  lemma StartedCombinations(raw: seq<RawIncident>, sel: Selections, v: Views)
    requires ViewsOf(StartState(raw), sel, v)
    ensures forall k :: k in Keys(v.combo) ==>
      && k != "Unknown"
      && exists row :: row in StartState(raw).df && Allows(sel.selectedTa, row.incident.actor) && row.category.IsMulti()
           && |SortedTokens(row.incident.techniques)| >= 2 && k == Join(" + ", SortedTokens(row.incident.techniques))
  {
    StartConsistent(raw);
    GTS.CombinationsAreMulti(StartState(raw).df, sel.selectedTa);
  }

  /** With no actor selected, the heatmap of a started dashboard counts every record once. */
  lemma StartedHeatmapTotal(raw: seq<RawIncident>)
    ensures GH.SumRows(GH.Heatmap(StartState(raw).df, []).pivot.cells) == |raw|
  {
    var df := StartState(raw).df;
    GH.HeatmapSums(df, []);
    assert forall i :: 0 <= i < |df| ==> ActorIn([])(df[i]);
    KeepAll(df, ActorIn([]));
  }
}
