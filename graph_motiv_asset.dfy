/**
 * The motivation-by-asset view: incidents per (root cause, asset type). The root-cause and
 * asset selections are applied to the cells as loaded, and only then are the missing cells
 * filled with "Unknown".
 */
module GraphMotivAsset {
  import opened Wrappers
  import opened Ordering
  import opened Tables
  import opened DataHandler

  /** A (root cause, asset type) group, both filled. */
  datatype RaKey = RaKey(rootCause: string, asset: string)

  function RootIn(selected: seq<string>): BaseRow -> bool {
    (row: BaseRow) => Allows(selected, row.incident.rootCause)
  }

  function AssetIn(selected: seq<string>): BaseRow -> bool {
    (row: BaseRow) => Allows(selected, row.incident.asset)
  }

  /** Lines 6 to 9: the rows of the selected root causes and asset types, on the raw cells. */
  function Selected(df: seq<BaseRow>, selectedRoot: seq<string>, selectedAsset: seq<string>): seq<BaseRow> {
    Keep(Keep(df, RootIn(selectedRoot)), AssetIn(selectedAsset))
  }

  /** Lines 11 and 12: the group of a row once both cells are filled; every row has one. */
  function RaKeyOf(row: BaseRow): Option<RaKey> {
    Some(RaKey(row.incident.rootCause.GetOr(UnknownName), row.incident.asset.GetOr(UnknownName)))
  }

  /**
   * Line 13: the group counts. Because of the fill every selected row lands in a group,
   * so the counts add up to the number of selected rows.
   */
  function MotivAsset(df: seq<BaseRow>, selectedRoot: seq<string>, selectedAsset: seq<string>): (t: seq<Bucket<RaKey>>)
    ensures Distinct(Keys(t)) && Positive(t)
    ensures Total(t) == |Selected(df, selectedRoot, selectedAsset)|
    ensures forall k :: Lookup(t, k) == CountKey(Selected(df, selectedRoot, selectedAsset), RaKeyOf, k)
  {
    var rows := Selected(df, selectedRoot, selectedAsset);
    CountKeyedAll(rows, RaKeyOf);
    GroupBy(rows, RaKeyOf)
  }

  /** Empty selections keep every row: the groups are those of the whole table. */
  lemma MotivAssetUnfiltered(df: seq<BaseRow>)
    ensures MotivAsset(df, [], []) == GroupBy(df, RaKeyOf)
  {
    KeepAll(df, RootIn([]));
    KeepAll(df, AssetIn([]));
  }

  /**
   * The selections test the cells before the fill: under a non-empty root-cause selection
   * a surviving row has a root cause, and it is one of the selected ones. Selecting
   * "Unknown" therefore never brings back the rows whose root cause was missing.
   */
  lemma SelectedRootPresent(df: seq<BaseRow>, selectedRoot: seq<string>, selectedAsset: seq<string>, row: BaseRow)
    requires |selectedRoot| > 0
    requires row in Selected(df, selectedRoot, selectedAsset)
    ensures row in df
    ensures row.incident.rootCause.Some? && row.incident.rootCause.value in selectedRoot
  {
    KeepMember(Keep(df, RootIn(selectedRoot)), AssetIn(selectedAsset), row);
    KeepMember(df, RootIn(selectedRoot), row);
  }

  /** The same for the asset selection. */
  lemma SelectedAssetPresent(df: seq<BaseRow>, selectedRoot: seq<string>, selectedAsset: seq<string>, row: BaseRow)
    requires |selectedAsset| > 0
    requires row in Selected(df, selectedRoot, selectedAsset)
    ensures row in df
    ensures row.incident.asset.Some? && row.incident.asset.value in selectedAsset
  {
    KeepMember(Keep(df, RootIn(selectedRoot)), AssetIn(selectedAsset), row);
    KeepMember(df, RootIn(selectedRoot), row);
  }

  /**
   * The selections only hide groups: a group that only present cells produce keeps its
   * count over the whole table when both of its values are selected, and is 0 otherwise.
   */
  lemma MotivAssetSelected(df: seq<BaseRow>, selectedRoot: seq<string>, selectedAsset: seq<string>, k: RaKey)
    requires forall row :: row in df && RaKeyOf(row) == Some(k) ==>
      row.incident.rootCause.Some? && row.incident.asset.Some?
    ensures Lookup(MotivAsset(df, selectedRoot, selectedAsset), k)
         == if Allows(selectedRoot, Some(k.rootCause)) && Allows(selectedAsset, Some(k.asset))
            then CountKey(df, RaKeyOf, k) else 0
  {
    var byRoot := Keep(df, RootIn(selectedRoot));
    forall i | 0 <= i < |df| && RaKeyOf(df[i]) == Some(k)
      ensures RootIn(selectedRoot)(df[i]) == Allows(selectedRoot, Some(k.rootCause))
    {
      assert df[i] in df;
    }
    CountKeyKeep(df, RaKeyOf, RootIn(selectedRoot), k, Allows(selectedRoot, Some(k.rootCause)));
    forall i | 0 <= i < |byRoot| && RaKeyOf(byRoot[i]) == Some(k)
      ensures AssetIn(selectedAsset)(byRoot[i]) == Allows(selectedAsset, Some(k.asset))
    {
      assert byRoot[i] in byRoot;
      KeepMember(df, RootIn(selectedRoot), byRoot[i]);
    }
    CountKeyKeep(byRoot, RaKeyOf, AssetIn(selectedAsset), k, Allows(selectedAsset, Some(k.asset)));
  }
}
