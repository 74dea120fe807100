/**
 * The technique-by-sensitivity view: exploded rows counted per (technique, sensitivity
 * label) under the label and technique selections, with the techniques ordered by their
 * total count, largest first.
 */
module GraphTechSensitivity {
  import opened Wrappers
  import opened Ordering
  import opened Tables
  import opened DataHandler

  /** A (technique, sensitivity label) group. */
  datatype TlKey = TlKey(technique: string, scoreLabel: string)

  function LabelIn(selected: seq<string>): ExplodedRow -> bool {
    (row: ExplodedRow) => Allows(selected, Some(row.scoreLabel))
  }

  function TechniqueIn(selected: seq<string>): ExplodedRow -> bool {
    (row: ExplodedRow) => Allows(selected, Some(row.technique))
  }

  /** Every exploded row has a technique and a label (a missing score is labelled "nan"). */
  function TlKeyOf(row: ExplodedRow): Option<TlKey> { Some(TlKey(row.technique, row.scoreLabel)) }

  function TechniqueOfKey(k: TlKey): string { k.technique }

  function RowTechnique(row: ExplodedRow): string { row.technique }

  /** Lines 3 to 7: the rows of the selected labels and techniques. */
  function Selected(exploded: seq<ExplodedRow>, selectedScores: seq<string>, selectedTech: seq<string>): seq<ExplodedRow> {
    Keep(Keep(exploded, LabelIn(selectedScores)), TechniqueIn(selectedTech))
  }

  /** Line 9: the group counts. */
  function Distribution(exploded: seq<ExplodedRow>, selectedScores: seq<string>, selectedTech: seq<string>): (t: seq<Bucket<TlKey>>)
    ensures Distinct(Keys(t)) && Positive(t)
    ensures Total(t) == |Selected(exploded, selectedScores, selectedTech)|
  {
    var rows := Selected(exploded, selectedScores, selectedTech);
    CountKeyedAll(rows, TlKeyOf);
    GroupBy(rows, TlKeyOf)
  }

  /** Line 10: the techniques with their summed counts, largest total first. */
  function TechniqueTotals(dist: seq<Bucket<TlKey>>): (totals: seq<Bucket<string>>)
    ensures Distinct(Keys(totals))
    ensures forall i, j :: 0 <= i < j < |totals| ==> totals[i].count >= totals[j].count
    ensures forall x :: x in Keys(totals) <==> exists i :: 0 <= i < |dist| && dist[i].key.technique == x
    ensures forall i :: 0 <= i < |totals| ==> totals[i].count == TotalWhere(dist, Is(TechniqueOfKey, totals[i].key))
  {
    var sums := SumBy(dist, TechniqueOfKey);
    var totals := ByCountDescending(sums);
    Reordered(sums, totals);
    totals
  }

  /** `tech_sensitivity` up to the drawing: the bars and the technique order. */
  function TechSensitivity(exploded: seq<ExplodedRow>, selectedScores: seq<string>, selectedTech: seq<string>)
    : (r: (seq<Bucket<TlKey>>, seq<string>))
    ensures r.0 == Distribution(exploded, selectedScores, selectedTech)
    ensures Distinct(r.1) && forall x :: x in r.1 <==> exists i :: 0 <= i < |r.0| && r.0[i].key.technique == x
    ensures forall i, j :: 0 <= i < j < |r.1| ==>
              TotalWhere(r.0, Is(TechniqueOfKey, r.1[i])) >= TotalWhere(r.0, Is(TechniqueOfKey, r.1[j]))
  {
    var dist := Distribution(exploded, selectedScores, selectedTech);
    var totals := TechniqueTotals(dist);
    assert forall i :: 0 <= i < |totals| ==> Keys(totals)[i] == totals[i].key;
    (dist, Keys(totals))
  }

  /** A technique's total is the number of selected rows of that technique. */
  lemma TechniqueTotalCountsRows(exploded: seq<ExplodedRow>, selectedScores: seq<string>, selectedTech: seq<string>, x: string)
    ensures TotalWhere(Distribution(exploded, selectedScores, selectedTech), Is(TechniqueOfKey, x))
         == CountEq(Selected(exploded, selectedScores, selectedTech), RowTechnique, x)
  {
    var rows := Selected(exploded, selectedScores, selectedTech);
    GroupByTotalWhere(rows, TlKeyOf, Is(TechniqueOfKey, x));
    TechniqueRows(rows, x);
  }

  lemma {:induction false} TechniqueRows(rows: seq<ExplodedRow>, x: string)
    ensures CountKeyWhere(rows, TlKeyOf, Is(TechniqueOfKey, x)) == CountEq(rows, RowTechnique, x)
  {
    if rows != [] {
      TechniqueRows(rows[1..], x);
      var k := TlKeyOf(rows[0]).value;
      assert TechniqueOfKey(k) == RowTechnique(rows[0]);
      if RowTechnique(rows[0]) == x {
        assert Is(TechniqueOfKey, x)(k);
      } else {
        assert !Is(TechniqueOfKey, x)(k);
      }
    }
  }

  /** The selections only hide groups: a selected group keeps its count over the whole table. */
  lemma DistributionSelected(exploded: seq<ExplodedRow>, selectedScores: seq<string>, selectedTech: seq<string>, k: TlKey)
    ensures Lookup(Distribution(exploded, selectedScores, selectedTech), k)
         == if Allows(selectedScores, Some(k.scoreLabel)) && Allows(selectedTech, Some(k.technique))
            then CountKey(exploded, TlKeyOf, k) else 0
  {
    var byLabel := Keep(exploded, LabelIn(selectedScores));
    CountKeyKeep(exploded, TlKeyOf, LabelIn(selectedScores), k, Allows(selectedScores, Some(k.scoreLabel)));
    CountKeyKeep(byLabel, TlKeyOf, TechniqueIn(selectedTech), k, Allows(selectedTech, Some(k.technique)));
  }
}
