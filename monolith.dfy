/**
 * The single-file variant of the dashboard. Its start-up writes the loader's steps inline
 * and in another order (the category is attached before the exploded rows are labelled),
 * and its callback filters the exploded table for the main bar itself; its other sections
 * are the component functions' code, repeated.
 */
module Monolith {
  import opened Tables
  import opened DataHandler
  import GA = GraphActor
  import GTS = GraphTechSophistication
  import GAP = GraphActorProtection
  import GTSe = GraphTechSensitivity
  import GMA = GraphMotivAsset
  import GH = GraphHeatmap
  import GME = GraphMotivExposure
  import D = Dashboard

  /**
   * Lines 35 to 106: count the records, normalise the columns, explode and strip, attach
   * the category, compute the domains, and only then label the exploded rows in place. The
   * result is the start-up state of the component-based dashboard.
   */
  method Startup(raw: seq<RawIncident>) returns (s: D.State)
    ensures s == D.StartState(raw)
  {
    var totalRecords := |raw|;
    var df := NormaliseColumns(raw);
    var unlabelled := ExplodeTechniques(df);
    var rows := D.AttachCategories(df);
    assert df == Column(raw, Normalise);
    assert rows == Column(df, D.Categorised);
    var motivations := D.Motivations(rows);
    var exposureLevels := D.ExposureLevels(rows);
    var techniques := D.TechniqueOptions(unlabelled);
    var threatActors := D.ThreatActors(rows);
    var rootCauses := D.PresentOptions(rows, D.RootCell);
    var assetTypes := D.PresentOptions(rows, D.AssetCell);
    var protectionStates := D.ProtectionStates(rows);
    var exploded := LabelCopy(unlabelled, HasMissingSensitivity(df));
    TechniquesKeptByLabel(unlabelled, HasMissingSensitivity(df));
    var sensitivityOptions := D.SensitivityOptions(exploded);
    s := D.State(rows, exploded, totalRecords,
                 D.Domains(motivations, exposureLevels, techniques, threatActors, rootCauses, assetTypes,
                           protectionStates, sensitivityOptions));
  }

  /** Lines 104 and 105: the exploded rows, labelled in place in a table of their own. */
  method LabelCopy(unlabelled: seq<ExplodedRow>, floatColumn: bool) returns (exploded: seq<ExplodedRow>)
    ensures exploded == Labelled(unlabelled, floatColumn)
  {
    var table := new ExplodedRow[|unlabelled|](j requires 0 <= j < |unlabelled| => unlabelled[j]);
    assert table[..] == unlabelled;
    LabelSensitivity(table, floatColumn);
    exploded := table[..];
  }

  /** Labelling leaves the techniques as they were, so the technique domain can be taken before it. */
  lemma TechniquesKeptByLabel(rows: seq<ExplodedRow>, floatColumn: bool)
    ensures D.TechniqueOptions(Labelled(rows, floatColumn)) == D.TechniqueOptions(rows)
  {
    assert Column(Labelled(rows, floatColumn), GTSe.RowTechnique) == Column(rows, GTSe.RowTechnique);
  }

  /**
   * Lines 315 to 509: the main bar filters the exploded table inline (lines 316 to 321);
   * every other section is the code of its component function. The views are those of the
   * component-based callback.
   */
  method UpdateDashboard(s: D.State, sel: D.Selections) returns (v: D.Views)
    ensures D.ViewsOf(s, sel, v)
  {
    var fDfExp := s.exploded;
    if |sel.selectedTa| > 0 {
      fDfExp := Keep(fDfExp, GA.ActorFilter(sel.selectedTa));
    }
    if |sel.selectedTech| > 0 {
      fDfExp := Keep(fDfExp, GA.TechniqueFilter(sel.selectedTech));
    }
    InlineFilters(s.exploded, sel.selectedTa, sel.selectedTech);
    var taTechCounts := GroupBy(fDfExp, GA.PairKey);
    var network := GA.NetworkGraph(s.exploded);
    v := D.Views(taTechCounts, network,
                 GMA.MotivAsset(s.df, sel.selectedRoot, sel.selectedAsset),
                 GH.Heatmap(s.df, sel.selectedTa),
                 GAP.ActorProtection(s.df, sel.s4Ta, sel.s4Prot),
                 GTSe.TechSensitivity(s.exploded, sel.selectedScores, sel.selectedSection5Tech),
                 GME.MotivExposure(s.df, sel.roseMotivation, sel.roseExposure),
                 GTS.SophisticationBar(s.df, sel.selectedTa),
                 GTS.TechCombination(s.df, sel.selectedTa));
  }

  /** Skipping a filter whose selection is empty is the same as applying it. */
  lemma InlineFilters(exploded: seq<ExplodedRow>, selectedTa: seq<string>, selectedTech: seq<string>)
    ensures var byActor := if |selectedTa| > 0 then Keep(exploded, GA.ActorFilter(selectedTa)) else exploded;
      (if |selectedTech| > 0 then Keep(byActor, GA.TechniqueFilter(selectedTech)) else byActor)
      == Keep(Keep(exploded, GA.ActorFilter(selectedTa)), GA.TechniqueFilter(selectedTech))
  {
    var byActor := Keep(exploded, GA.ActorFilter(selectedTa));
    if |selectedTa| == 0 {
      KeepAll(exploded, GA.ActorFilter(selectedTa));
    }
    if |selectedTech| == 0 {
      KeepAll(byActor, GA.TechniqueFilter(selectedTech));
    }
  }
}
