# PrivacyDashBoard, the data pipeline in Dafny

PrivacyDashBoard is a Dash application over a file of privacy incidents. Each incident
record has a threat actor, a `,`-separated list of techniques, a data protection state, a
data sensitivity score, a data exposure score, a root cause and an asset type, and any of
these may be missing. The application loads the records once and then computes nine
figures from them: the technique-by-actor bar, the actor/technique network, the
motivation-by-asset bar, the protection-by-sensitivity heatmap, the security posture per
actor, the technique-by-sensitivity bar, the motivation-by-exposure rose, the
sophistication bar and the top technique combinations. Every figure is drawn from a table
built by filtering the records with the user's selections, grouping them and counting.

This project models that pipeline up to the table handed to the plotting call, and proves
what each table holds.

- `wrappers.dfy`, `seqs.dfy`, `ordering.dfy`, `text.dfy`: the building blocks the pipeline
  uses.
  - Missing cells are `Option`s. `GetOr` is `fillna`.
  - Python's `sorted` is an insertion sort proved sorted and a permutation. `unique` is
    modelled too.
  - `str.strip`, `str.lower`, `str.split`, `str.join` and the decimal rendering of a score
    are modelled.
- `tables.dfy`: the pandas operations.
  - `Keep` is boolean-mask filtering, and `Allows` is the `isin` allow-list behind
    `if selection:`.
  - `GroupBy` is `groupby(...).size()`, which drops rows whose key is missing. `SumBy` is
    `groupby(...)[...].sum()`.
  - `Top` and `TopCounts` are `nlargest` and `value_counts().head(n)`. `ByCountDescending`
    is `sort_values(ascending=False)`.
  - A group table is a sequence of `Bucket(key, count)` with distinct keys. `Lookup` reads
    it as a map that is 0 off its keys.
- `data_handler.dfy`: the loader and normaliser, written as methods that rewrite the table
  the way the source does.
  - `NormaliseColumns` fills the protection state and the techniques and splits the
    techniques.
  - `ExplodeTechniques` and `ExplodeIncident` give one row per piece, stripped.
  - `LabelSensitivity` writes the label column in place over an array.
- `helpers.dfy`: the sophistication signal (four categories) and the combination string.
- `graph_*.dfy`: one module per component file, with the table each chart is drawn from.
  - The network graph is modelled as methods. `RelabelUnknown` relabels in place over an
    array. `BuildGraph` and `ActorEdges` are the nested loops that add an edge per
    (actor, technique). `DrawnEdges` keeps the edges of positive weight.
- `dashboard.dfy`: the component-based dashboard.
  - `Startup` loads the records, attaches the sophistication category and computes the
    eight dropdown domains.
  - `UpdateDashboard` routes each selection to its aggregator.
- `monolith.dfy`: the single-file variant. It performs the same steps inline and in
  another order, and is proved to reach the same start-up state and the same views.

Conventions of the model:

- Scores are whole numbers (`int`).
  - pandas stores a whole-number column that has a missing cell as floating point, so its
    string form is `"5.0"` rather than `"5"`.
  - `ScoreText(floatColumn, v)` models exactly this. `floatColumn` says whether the column
    has a missing cell.
- Group tables list their keys in the order in which they first appear when the rows are
  read from the last to the first. pandas sorts group keys. No property stated here
  depends on that order.
- The network graph's `.item()` call raises when a (actor, technique) pair occurs twice in
  the relabelled top ten. That happens in two ways. "Unknown" and "Unknown (Threat Actor)"
  can both be top actors with the same technique. Or "Unknown" and "Unknown (Technique
  Used)" can both be top techniques of the same actor. The model returns `None` for this
  failure in both cases (`GraphActor.NetworkGraph`).
- A blank piece of a technique list, such as the middle one of `"A,,B"`, is kept by the
  explode as a row whose technique is empty (`DataHandler.ExplodeBlock`).

## Model

| member | source | states |
|---|---|---|
| DataHandler.NormaliseFacts | components/data_handler.py:19-21 | a missing protection state becomes "No Protection" and a present one is kept; the technique list is non-empty and its pieces contain no ','; rejoined with ',' the pieces give the raw text back, and a missing value gives ["Unknown"]; every other cell is unchanged |
| DataHandler.NormaliseColumns | components/data_handler.py:19-21 | the loop rewrites every record and keeps the row count |
| DataHandler.Pieces | components/data_handler.py:24-25 | one exploded row per technique piece, carrying the whole incident and the piece stripped |
| DataHandler.ExplodeLength | components/data_handler.py:24 | the exploded table has as many rows as the technique lists have pieces in total |
| DataHandler.PieceCountPrefix | components/data_handler.py:24 | the block of incident i starts after the pieces of the incidents before it and ends within the table |
| DataHandler.ExplodeAt | components/data_handler.py:24-25 | row k of incident i's block is that incident's piece k |
| DataHandler.ExplodeBlock | components/data_handler.py:24-25 | incident i's piece k sits at a fixed index of the exploded table, carries the whole incident and the stripped piece, and is empty exactly when the piece is blank (blank pieces are not dropped) |
| DataHandler.ExplodeOrigin | components/data_handler.py:24 | every exploded row carries one of the loaded incidents |
| DataHandler.ExplodeStep | components/data_handler.py:24 | exploding one more incident appends exactly its pieces |
| DataHandler.ExplodeTechniques | components/data_handler.py:24-25 | the explode loop builds exactly the exploded table |
| DataHandler.ExplodeIncident | components/data_handler.py:24-25 | the inner loop builds exactly one incident's block |
| DataHandler.SensitivityLabelFacts | components/data_handler.py:28-29 | the label is "-1 (Score Unknown)" exactly when the score is -1 and is otherwise the cell's string form; distinct cells get distinct labels |
| DataHandler.Labelled | components/data_handler.py:28-29 | labelling keeps the number of rows |
| DataHandler.LabelSensitivity | components/data_handler.py:28-29 | the in-place labelling of the array leaves it equal to the labelled table |
| DataHandler.LoadAndClean | components/data_handler.py:7-31 | returns the record count, the normalised records and the exploded, labelled table |
| Helpers.Tokens | components/data_handler.py:46 | stripping and dropping blank pieces never adds a piece |
| Helpers.TokensCount | components/data_handler.py:46-47 | the token count is the number of non-blank pieces |
| Helpers.TokensAppend | components/data_handler.py:46 | tokenising distributes over concatenation |
| Helpers.NonBlankLower | components/data_handler.py:41 | lower-casing does not change which pieces are blank |
| Helpers.SplitPaddedCount | components/data_handler.py:41-46 | stripping the whole text before splitting does not change the number of non-blank pieces |
| Helpers.SignalThresholds | components/data_handler.py:43-56 | outside the sentinels, the category is Unknown for 0 names, Single for 1, Multi-Technique for 2 or 3 and Multi-Stage for 4 or more |
| Helpers.SignalOfPieces | components/data_handler.py:40-56 | a list is classified as its ','-joined text, that is, by its non-blank pieces |
| Helpers.UnknownSignal | components/data_handler.py:43-56 | every text that strips and lower-cases to "", "nan", "unknown" or "none" is Unknown Technique, and otherwise exactly the texts without a non-blank piece are |
| Helpers.SignalSentinels | components/data_handler.py:37-44 | a missing value, the empty list and ["Unknown"] are all Unknown Technique |
| Helpers.SignalNearSentinel | components/data_handler.py:43-54 | ["unknown", "x"] is not a sentinel; it counts two names and is Multi-Technique |
| Helpers.SortedTokens | components/data_handler.py:61-63 | the tokens in ascending order, as a permutation of the tokens |
| Helpers.TokensPermutation | components/data_handler.py:61-63 | permuting the pieces permutes the tokens |
| Helpers.TokensBlank | components/data_handler.py:63-64 | there is no token exactly when every piece is blank |
| Helpers.FormatComboPermutation | components/data_handler.py:58-64 | the combination string does not depend on the order of the techniques |
| Helpers.FormatComboShape | components/data_handler.py:58-64 | all-blank input gives "Unknown"; otherwise the result is the sorted tokens joined by " + " |
| Helpers.FormatComboExamples | components/data_handler.py:58-64 | ["b", "a"] and ["a", "b"] both give "a + b"; [] and ["", "  "] give "Unknown" |
| Helpers.JoinedNotUnknown | components/data_handler.py:64 | two or more names joined by " + " never read "Unknown" |
| Helpers.MultiCombo | components/data_handler.py:46-64 | a multi-technique or multi-stage value has at least two tokens, and its combination string is their sorted join, never "Unknown" |
| Text.Trim | components/data_handler.py:25 | the result is empty exactly for blank text and otherwise neither starts nor ends with whitespace |
| Text.TrimParts | components/data_handler.py:25 | the text is a whitespace prefix, its stripped form and a whitespace suffix |
| Text.TrimUnpadded | components/data_handler.py:25 | stripping text without surrounding whitespace changes nothing |
| Text.Lower | components/data_handler.py:41 | lower-casing keeps the length and maps each character |
| Text.Split | components/data_handler.py:21 | splitting always yields at least one piece |
| Text.SplitFree | components/data_handler.py:21 | no piece contains the separator |
| Text.JoinSplit | components/data_handler.py:21 | joining the pieces with the separator gives the text back |
| Text.SplitJoin | components/data_handler.py:21 | splitting a join of separator-free pieces gives the pieces back |
| Text.SplitLower | components/data_handler.py:41-46 | lower-casing commutes with splitting on ',' |
| Text.IntToString | components/data_handler.py:28 | the decimal form has a leading '-' exactly for negative numbers, and digits otherwise |
| Text.IntToStringInjective | components/data_handler.py:28 | distinct numbers have distinct decimal forms |
| Text.ScoreTextInjective | components/data_handler.py:28 | distinct scores have distinct string forms |
| Text.ScoreTextMinusOne | components/graph_motiv_exposure.py:10 | -1 renders as "-1.0" in a column with a missing cell and as "-1" otherwise |
| Ordering.Sort | dashboard.py:39 | the sorted sequence is ordered and a permutation of the input |
| Ordering.SortedUnique | dashboard.py:39 | two ordered permutations of the same values are equal, so `sorted` has one answer |
| Ordering.StrLeIsOrder | dashboard.py:39 | lexicographic order on strings is total, transitive and antisymmetric |
| Ordering.Unique | dashboard.py:39 | distinct values, exactly those of the input |
| Ordering.SortedStrings | dashboard.py:39 | strictly increasing, with exactly the values of the input |
| Ordering.SortedInts | components/graph_heatmap.py:9 | strictly increasing, with exactly the values of the input |
| Tables.Keep | components/graph_actor.py:10-13 | the kept rows all pass the mask and are no more than the input |
| Tables.KeepMultiset | components/graph_actor.py:10-13 | each row value is kept as often as it occurs when it passes, and never otherwise |
| Tables.KeepMember | components/graph_actor.py:10-13 | a row is kept exactly when it is in the table and passes |
| Tables.KeepCommutes | components/graph_actor.py:10-13 | two filters give the same table in either order |
| Tables.KeepAll | components/graph_actor.py:10-13 | a filter every row passes keeps the table unchanged |
| Tables.Column | components/graph_heatmap.py:7 | a whole-column map keeps the row order and maps each cell |
| Tables.Present | dashboard.py:51-52 | the present values of a column, exactly those of some row |
| Tables.CountKeyKeep | components/graph_actor.py:10-15 | a filter that passes all or none of the rows of key k keeps or zeroes k's count |
| Tables.GroupBy | components/graph_actor.py:15 | distinct keys with counts of at least 1; each count is the number of rows with that key, absent keys count 0, and the counts add up to the rows whose key is present |
| Tables.GroupByTotalWhere | components/graph_tech_sensitivity.py:9-10 | the counts of the groups satisfying a predicate add up to the rows whose key satisfies it |
| Tables.SumBy | components/graph_tech_sensitivity.py:10 | one bucket per projected key, holding the sum of the counts of the groups projecting to it; the total is kept |
| Tables.ByCountDescending | components/graph_tech_sensitivity.py:10 | a permutation of the groups in non-increasing count order |
| Tables.Reordered | components/graph_tech_sensitivity.py:10 | reordering a group table keeps its keys distinct, its key set and each key's count |
| Tables.Top | components/graph_actor.py:27 | min(n, number of groups) groups taken from the table, every group when there are at most n, non-increasing, and no group left out has a larger count than one kept |
| Tables.TopCounts | components/graph_tech_sophistication.py:27 | min(n, number of distinct keys) distinct keys, every present key when fewer than n, each counted exactly, non-increasing, and no key left out outnumbers one kept |
| Tables.KeepIsCount | components/graph_heatmap.py:9 | filtering on "f is k" keeps exactly as many rows as have f equal to k |
| Tables.SumEachCover | components/graph_heatmap.py:9 | the counts of distinct values add up to the rows whose value is among them |
| GraphActor.MainBar | components/graph_actor.py:7-15 | distinct pairs with counts of at least 1, all of selected actors and selected techniques, adding up to the filtered rows that have an actor; the first argument is ignored |
| GraphActor.MainBarCounts | components/graph_actor.py:9-15 | a pair's count is its count in the whole exploded table when both its actor and its technique are selected, and 0 otherwise |
| GraphActor.MainBarUnfiltered | components/graph_actor.py:10-15 | empty selections give the groups of the whole exploded table |
| GraphActor.TopPairs | components/graph_actor.py:27 | min(10, number of pairs) distinct pairs of the unfiltered table, every pair when fewer than ten, each with its exact count, non-increasing, and no pair left out occurs more often than one kept |
| GraphActor.Relabelled | components/graph_actor.py:29-32 | relabelling keeps the number of pairs and every count |
| GraphActor.RelabelUnknown | components/graph_actor.py:29-32 | the in-place relabelling leaves the array equal to the relabelled table |
| GraphActor.RelabelledDistinct | components/graph_actor.py:29-32 | when no name already reads like a relabelled one, relabelling keeps the pairs distinct |
| GraphActor.RelabelPairInjective | components/graph_actor.py:29-32 | relabelling is injective on names that are not already relabelled |
| GraphActor.MaskFacts | components/graph_actor.py:40-42 | the mask selects as many rows as the pair occurs; the first selected count is the pair's count, and an absent pair weighs 0 |
| GraphActor.KeyCountDistinct | components/graph_actor.py:40-42 | the pairs are distinct exactly when no pair is selected twice |
| GraphActor.BuildGraph | components/graph_actor.py:37-45 | fails exactly when some (actor, technique) pair is selected more than once; otherwise there is an edge for every actor and every technique, weighted by the pair's count or 0 |
| GraphActor.ActorEdges | components/graph_actor.py:39-45 | one actor's loop fails exactly when a pair of that actor repeats; otherwise it adds that actor's edges with their weights |
| GraphActor.DrawnEdges | components/graph_actor.py:56-62 | exactly the edges of positive weight, with their weights |
| GraphActor.ActorColumn | components/graph_actor.py:34 | exactly the actors of the pairs, each once |
| GraphActor.TechniqueColumn | components/graph_actor.py:35 | exactly the techniques of the pairs, each once |
| GraphActor.DrawnArePairs | components/graph_actor.py:38-62 | the drawn edges are exactly the kept pairs, each weighted by its count |
| GraphActor.PairGraph | components/graph_actor.py:34-62 | on a pair table with positive counts: failure exactly when a pair repeats; otherwise the drawn edges are exactly its pairs with their counts |
| GraphActor.NetworkGraph | components/graph_actor.py:24-62 | failure exactly when the relabelled top ten repeat a pair; otherwise the drawn edges, keyed by the ordered (actor, technique) pair, are exactly the relabelled top pairs with their counts |
| GraphTechSophistication.Rank | components/graph_tech_sophistication.py:9 | each category's position in the fixed display order |
| GraphTechSophistication.PresentBarsKeys | components/graph_tech_sophistication.py:8 | a bar for exactly the listed categories that some row has |
| GraphTechSophistication.PresentBarsCounts | components/graph_tech_sophistication.py:8 | each bar counts the rows of its category |
| GraphTechSophistication.PresentBarsOrder | components/graph_tech_sophistication.py:9 | the bars keep the display order |
| GraphTechSophistication.PresentBarsTotal | components/graph_tech_sophistication.py:8 | the bars add up to the rows of the listed categories |
| GraphTechSophistication.AllCategoriesCounted | components/graph_tech_sophistication.py:9 | the display order lists every category, so its counts add up to every row |
| GraphTechSophistication.SophisticationBar | components/graph_tech_sophistication.py:3-9 | bars in display order, one for exactly each category present among the selected actors' rows, each counting its rows, adding up to all of them |
| GraphTechSophistication.TechCombination | components/graph_tech_sophistication.py:19-27 | min(10, number of combinations) distinct combinations (all of them when fewer than ten) of the selected actors' multi-technique rows, each counted exactly and at least once, non-increasing, none left out with a larger count |
| GraphTechSophistication.CombinationsAreMulti | components/graph_tech_sophistication.py:24-25 | every listed combination is the sorted " + " join of at least two names of a selected multi-technique record, and is never "Unknown" |
| GraphTechSophistication.ComboIgnoresOrder | components/graph_tech_sophistication.py:24 | records with the same techniques in another order have the same combination |
| GraphActorProtection.ApCounts | components/graph_actor_protection.py:9 | distinct (actor, protection) groups with counts of at least 1, adding up to the selected rows that have an actor |
| GraphActorProtection.ApCountsSelected | components/graph_actor_protection.py:3-9 | a group's count is its count over all records when its actor and its state are selected, and 0 otherwise |
| GraphActorProtection.ActorTotalCountsRows | components/graph_actor_protection.py:9-10 | an actor's denominator is the number of surviving rows of that actor |
| GraphActorProtection.PercentageBounds | components/graph_actor_protection.py:10 | a share of a positive total lies in (0, 100] |
| GraphActorProtection.Shares | components/graph_actor_protection.py:10 | every group keeps its actor, state and count, and gets a percentage in (0, 100] |
| GraphActorProtection.PercentOfShares | components/graph_actor_protection.py:10 | an actor's percentages add up to 100 times its groups' counts over its total |
| GraphActorProtection.SharesSumTo100 | components/graph_actor_protection.py:10 | within each actor the percentages add up to exactly 100 |
| GraphActorProtection.ActorProtection | components/graph_actor_protection.py:2-10 | one share per group of the selected rows, in the groups' order, with the group's actor, state and count; its percentage is the count over the actor's positive total times 100, lies in (0, 100], and the percentages of each actor shown add up to exactly 100 |
| GraphTechSensitivity.Distribution | components/graph_tech_sensitivity.py:9 | distinct (technique, label) groups with counts of at least 1, adding up to the selected exploded rows |
| GraphTechSensitivity.DistributionSelected | components/graph_tech_sensitivity.py:3-9 | a group's count is its count over the whole exploded table when its label and technique are selected, and 0 otherwise |
| GraphTechSensitivity.TechniqueTotals | components/graph_tech_sensitivity.py:10 | each grouped technique exactly once, with the sum of its groups' counts, in non-increasing order |
| GraphTechSensitivity.TechniqueTotalCountsRows | components/graph_tech_sensitivity.py:9-10 | a technique's total is the number of selected rows of that technique |
| GraphTechSensitivity.TechSensitivity | components/graph_tech_sensitivity.py:2-10 | the groups, and a technique order listing each grouped technique exactly once, in non-increasing order of the technique's summed count |
| GraphMotivAsset.MotivAsset | components/graph_motiv_asset.py:11-13 | distinct groups with counts of at least 1; every selected row is counted in the group of its filled cells |
| GraphMotivAsset.MotivAssetUnfiltered | components/graph_motiv_asset.py:6-9 | empty selections keep every record |
| GraphMotivAsset.SelectedRootPresent | components/graph_motiv_asset.py:6-7 | under a root-cause selection every surviving row has a selected root cause, so selecting "Unknown" never keeps a missing one |
| GraphMotivAsset.SelectedAssetPresent | components/graph_motiv_asset.py:8-9 | under an asset selection every surviving row has a selected asset type |
| GraphMotivAsset.MotivAssetSelected | components/graph_motiv_asset.py:6-13 | a group of present cells keeps its full count when both values are selected, and is 0 otherwise |
| GraphHeatmap.PivotRow | components/graph_heatmap.py:9 | one cell per score, counting the rows of that state and score |
| GraphHeatmap.Cells | components/graph_heatmap.py:9 | one pivot row per state |
| GraphHeatmap.PivotTable | components/graph_heatmap.py:9 | rows are the distinct states in order, columns the distinct scores in increasing order, and each cell counts its (state, score), 0 when none |
| GraphHeatmap.ColumnLabel | components/graph_heatmap.py:10 | "-1 (score unknown)" exactly for -1, the decimal form otherwise |
| GraphHeatmap.ColumnLabelsDistinct | components/graph_heatmap.py:10 | distinct scores get distinct column labels |
| GraphHeatmap.UnknownColumnSpelling | components/graph_heatmap.py:10 | the heatmap's unknown column is spelt differently from the exploded table's label |
| GraphHeatmap.Heatmap | components/graph_heatmap.py:3-10 | the pivot of the selected actors' rows, with one label per column |
| GraphHeatmap.RowTotal | components/graph_heatmap.py:9 | each pivot row adds up to the rows of its state |
| GraphHeatmap.HeatmapSums | components/graph_heatmap.py:5-9 | each row adds up to its state's rows, and the table to the number of selected rows |
| GraphMotivExposure.ExposureLabel | components/graph_motiv_exposure.py:9-10 | "Unknown" exactly for -1 (a filled missing score), otherwise the score's string form |
| GraphMotivExposure.ScoreTextFacts | components/graph_motiv_exposure.py:10 | a score's string form is never "Unknown", and is "-1" or "-1.0" only for -1 |
| GraphMotivExposure.MotivExposure | components/graph_motiv_exposure.py:14 | distinct groups with counts of at least 1, each counting its rows, adding up to the selected rows |
| GraphMotivExposure.MotivExposureUnfiltered | components/graph_motiv_exposure.py:6-12 | empty selections keep every record |
| GraphMotivExposure.SelectedRows | components/graph_motiv_exposure.py:5-12 | a row survives exactly when its filled motivation and its exposure label are selected |
| GraphMotivExposure.UnknownExposureRows | components/graph_motiv_exposure.py:9-12 | selecting the label "Unknown" keeps exactly the rows whose exposure is missing or -1 |
| Dashboard.CategorisedConsistent | dashboard.py:36 | a loaded record's attached category is the signal of its own techniques |
| Dashboard.AttachCategories | dashboard.py:36 | the loop attaches the category to every record, in order |
| Dashboard.Motivations | dashboard.py:39 | sorted and distinct, exactly the root causes with a missing one shown as "Unknown" |
| Dashboard.ExposureLevels | dashboard.py:40-47 | sorted and distinct; "Unknown" is listed exactly when a score is missing or -1, and any other score exactly when some record has it; the list is exactly the records' labels, so nothing else is listed |
| Dashboard.LabelOfScore | dashboard.py:40-47 | a score's level matches another score's string form exactly when they are equal |
| Dashboard.TechniqueOptions | dashboard.py:49 | sorted and distinct, exactly the exploded techniques |
| Dashboard.ThreatActors | dashboard.py:50 | min(15, number of present actors) distinct actors, every present actor when fewer than 15, non-increasing in frequency, none left out more frequent than one listed |
| Dashboard.PresentOptions | dashboard.py:51-52 | sorted and distinct, exactly the present values of the column |
| Dashboard.ProtectionStates | dashboard.py:53 | sorted and distinct, exactly the protection states |
| Dashboard.SensitivityOptions | dashboard.py:54 | sorted and distinct, exactly the labels of the exploded table |
| Dashboard.Startup | dashboard.py:34-54 | the start-up method builds the start-up state |
| Dashboard.StartConsistent | dashboard.py:34-36 | every started record carries the category of its techniques |
| Dashboard.UnknownSensitivityOption | dashboard.py:54 | "-1 (Score Unknown)" is offered exactly when some record's sensitivity score is -1 |
| Dashboard.UnknownScoreRow | components/data_handler.py:24-29 | a record with score -1 yields an exploded row labelled "-1 (Score Unknown)" |
| Dashboard.UnknownRowScore | components/data_handler.py:24-29 | an exploded row labelled "-1 (Score Unknown)" comes from a record with score -1 |
| Dashboard.UpdateDashboard | dashboard.py:269-301 | every figure's table is its aggregator applied to the start-up tables and its own selections |
| Dashboard.ViewsDeterministic | dashboard.py:269-301 | the views are determined by the state and the selections |
| Dashboard.NetworkIgnoresSelections | dashboard.py:278 | the network is the same under any selections |
| Dashboard.ActorSelectionRouting | dashboard.py:274-299 | the first actor selection drives the main bar, heatmap, sophistication and combination views and no other |
| Dashboard.StartedCombinations | dashboard.py:296-299 | every listed combination of the started dashboard comes from a selected multi-technique record and is never "Unknown" |
| Dashboard.StartedHeatmapTotal | dashboard.py:284 | with no actor selected the heatmap cells add up to the number of records |
| Monolith.Startup | dashboard2.py:35-106 | the inline start-up, with the category attached before the labels, reaches the same state as the component dashboard |
| Monolith.LabelCopy | dashboard2.py:104-105 | the in-place labelling of a copy gives the labelled table |
| Monolith.TechniquesKeptByLabel | dashboard2.py:97-105 | labelling leaves the techniques alone, so the technique domain taken before it is the same |
| Monolith.InlineFilters | dashboard2.py:315-319 | skipping a filter whose selection is empty is the same as applying it |
| Monolith.UpdateDashboard | dashboard2.py:310-520 | the inline callback produces the same views as the component callback |

## Left out

- Reading the CSV file (the path, the `;` separator, the byte-order mark) is input; the
  model starts from a sequence of records with `Option` cells. `month_name` is left out.
- The Dash layout, the callback registration and `app.run` are server plumbing.
- All plotly and networkx rendering is left out: figures, axes, colours, hover templates,
  the node positions, and the `Display_Size` square root of the rose, which is
  floating-point presentation. The model stops at the tables and edge weights handed to
  the plotting calls.
- GraphActor.NetworkGraph: networkx's `Graph` is undirected and merges nodes by name. When
  a name is both an actor and a technique, a later `add_edge` between the same two names
  (possibly with weight 0) overwrites an earlier edge, so a kept pair can go undrawn, and
  the `count` node attribute is overwritten. The model keys edges by the ordered
  (actor, technique) pair and does not capture this.
- The order of Python sets and of pandas groups is not modelled. Group tables are in the
  order of first appearance from the last row backwards, and no stated property depends
  on this order.
- Ties are not modelled. Which tied item `nlargest` and `value_counts` keep, and which of
  two equal technique totals comes first, are pandas-internal. The model states the
  length of the cut, the non-increasing order, and that no item left out outnumbers one
  kept.
- Float rendering is modelled only as far as the ".0" suffix of a whole-number column
  with a missing cell. Non-integral scores are not modelled.
- Lower-casing is ASCII only. Whitespace is Python's full `str.isspace` set, the
  characters `str.strip` removes (`Text.IsSpace`).
- Percentages are exact rationals (`real`), not floating point.
- Group counts are sequences of buckets with distinct keys rather than maps. `Lookup`
  gives the map view.
- GraphActor.NetworkGraph: the `ValueError` that `.item()` raises on a repeated pair is
  modelled as the result `None`, not as an exception.
- Dashboard.UpdateDashboard: that `ValueError` aborts the whole callback, so none of the
  nine figures is updated. The model returns `None` for the network view only and still
  computes the other eight views. The single-file callback, `Monolith.UpdateDashboard`,
  is modelled the same way.
- Dashboard.ThreatActors: the actors are those of the first 15 entries in some
  non-increasing frequency order. Which of two tied actors is listed is not fixed.
