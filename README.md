# Random forests and cross-validation, modelled in Dafny

This project models the learning and evaluation pipeline of a small random-forest classifier written in Python:

- typed attributes and data instances (`data_instance.py`);
- ID3 split selection by information gain (`entropy_calculator.py`);
- recursive tree induction (`decision_tree.py`);
- classification by a tree of leaves and decision nodes (`tree_node.py`);
- bootstrap sampling (`bootstrap.py`) and the forest's majority vote (`random_forest.py`);
- plain k-fold division (`crossvalidation.py`) and stratified k-fold division (`cross_validation.py`), each repeated with random offsets.

Each source file has its own module:

| module | file | source |
|---|---|---|
| `Wrappers` | wrappers.dfy | — (Option and Result types) |
| `Counting` | counting.dfy | — (`list.count`, `set`, `max`/`index`, `Counter.most_common`) |
| `Instances` | instances.dfy | data_instance.py, datainstance.py |
| `Partitions` | partitions.dfy | the filters of entropy_calculator.py and decision_tree.py |
| `Entropy` | entropy.dfy | entropy_calculator.py |
| `Tree` | tree.dfy | tree_node.py |
| `DecisionTree` | decision_tree.dfy | decision_tree.py |
| `Bootstraps` | bootstrap.dfy | bootstrap.py |
| `RandomForests` | random_forest.dfy | random_forest.py |
| `CrossValidation` | crossvalidation.dfy | crossvalidation.py |
| `StratifiedCrossValidation` | stratified_cross_validation.dfy | cross_validation.py |
| `StratifiedPartition` | stratified_partition.dfy | cross_validation.py (see "Findings") |

## How the model is built

**One instance shape.** The Python code mixes two shapes of data instance:

- `datainstance.py` has a list of attributes and a target. The tree builder and the entropy calculator use it.
- `data_instance.py` has `Attribute` records, and its target is itself an `Attribute`. The classifier and the stratified division use it, reading `el.target.value`.

The model uses one value type for both, `Instances.Instance(attributes: seq<Attribute>, target: Value)`:

- An `Attribute` is a name, a value and its type tag.
- A `Value` is either text (`Str`) or a parsed number (`Num`).
- The `target` of an `Instance` is the target attribute's value. So `el.target.value` in `cross_validation.py` is `Instance.target`, and `d.target` in the entropy calculator is the same field.
- `data_instance.DataInstance` is a class that holds an `AttributeList` object. `Value()` gives the `Instance` the rest of the pipeline works on.

**Form of each file:**

- **Pure parts** are datatypes, functions and lemmas: attribute construction, the partition filters, the entropy formulas, the tree, classification, the forest and its vote.
- **Loops and in-place updates** are methods proved against those functions. Each method's `ensures` ties its result to the function, and the lemmas about the function carry the properties. These are:
  - the entropy accumulators and `best_attribute`;
  - the builder loop of `get_decision_tree` and its helpers;
  - `create_bootstrap` and `bootstraps_with_resampling`;
  - both fold divisions;
  - `DecisionNode.add_branch` and `DecisionNode.set_as_numeric_node`;
  - `DataInstance.__init__`, which pops the target out of the caller's list.
- **`itertools.cycle`** is the class `CrossValidation.Cycle`: a fixed item sequence and a position that `Next` advances. The functions describe the same cursor as index arithmetic modulo `n`:
  - `Window` for the plain division;
  - `CycleAt`, `ScanFrom` and `TakeStratum` for the stratified scan.

**Parameters standing in for what cannot be modelled:**

- Randomness is an oracle. Each bootstrap gets a `Draws` value: one split draw per instance, then the resampling indices. The repetition offsets come from a sequence of draws. Predicates constrain the draws to the ranges `randint` can return.
- `float(text)` is the parameter `parseFloat: string -> Option<real>`.
- `math.log2` is the parameter `log2: real -> real`.
- Floating-point numbers are exact reals.

**Exceptions** become `Err` or `None` results:

- an invalid type tag;
- a record without a target;
- an unknown attribute name;
- every exception `classify` raises;
- resampling from an empty training set;
- `k_folds == 0`;
- an empty offset range for `randint`;
- `next` on the cycle of an empty dataset;
- `most_common(1)[0]` with no trees.

**Where the model follows the code rather than its description:**

- **The decision node's attribute name** is `xs[0].attributes[i].name`, as `decision_tree.py:16` reads it, not the `i`-th entry of the header list.
  - In the single instance shape, attributes are named records, so this read is well defined. Classification looks attributes up by the same names.
  - The header list still drives termination: the recursion stops when it is empty. The header at the chosen index is removed with `list.remove`, that is, its first occurrence.
- **Tree induction only makes categorical splits.** Numeric thresholds appear only in the classifier. There is no random feature subsampling, and no search for a numeric split point.
- **Several calls in the source do not match the definitions they call.** The model does what they evidently mean:
  - the builder calls `node.add_child`, but `DecisionNode` defines `add_branch`;
  - `random_forest.py:2` imports `possible_values_of_attributes`, which does not exist;
  - `random_forest.py:14` passes a third argument to the two-argument `get_decision_tree`.

## Model

| member | source | states |
|---|---|---|
| `Wrappers.TryMapInOrder` | random_forest.py:20 | mapping a raising call over a list succeeds iff every call succeeds; result `j` is the `j`-th call's result; otherwise the error is the first failing call's |
| `Counting.Count` | decision_tree.py:53 | `list.count`: at most the length, and positive iff the value occurs |
| `Counting.Distinct` | decision_tree.py:48 | `set(...)`: no duplicates, exactly the values that occur, no longer than the input |
| `Counting.DistinctInFirstOccurrenceOrder` | cross_validation.py:63 | the distinct values appear in order of first occurrence, as the keys of a `Counter` do |
| `Counting.ArgMax` | entropy_calculator.py:30 | `l.index(max(l))`: an index holding the maximum, with every earlier entry strictly smaller |
| `Counting.MostCommonIsMajority` | random_forest.py:24-26 | `Counter(l).most_common(1)[0][0]`: fails iff the list is empty; otherwise returns a value of the list whose count is no smaller than any other's, and on a tie the one that occurs first |
| `Counting.FindFirst` | data_instance.py:38-40 | a linear search returns the first index satisfying the test, or nothing when no index does |
| `Instances.NewAttribute` | data_instance.py:5-15 | tags `'c'` and `'t'` keep the text unchanged; tag `'n'` stores the parsed number and fails iff the text does not parse; any other tag fails with `InvalidMetadataType`; the name and tag are kept |
| `Instances.SplitTarget` | data_instance.py:32-35 | finds nothing iff no attribute has tag `'t'`; otherwise returns the first `'t'` attribute and the list without exactly that position, one shorter |
| `Instances.SplitTargetKeepsOrder` | data_instance.py:32-34 | after removing the target at index `i`, attributes before `i` stay in place and those after move down by one, later `'t'` attributes included |
| `Instances.AttributeList.constructor` | data_instance.py:29 | the caller's attribute list, as an object the constructor updates in place |
| `Instances.DataInstance.Init` | data_instance.py:30-35 | stores the id, the attribute list object and the target |
| `Instances.DataInstance.New` | data_instance.py:29-35 | fails iff the list has no `'t'` attribute, leaving the list unchanged; otherwise pops the first target out of the caller's list in place and stores that same list object |
| `Instances.DataInstance.AttributeWithName` | data_instance.py:37-42 | returns the first attribute with the name, and succeeds iff some attribute has it |
| `Partitions.WithTargetSize` | entropy_calculator.py:99-103 | the instances of target class `c` number as many as the occurrences of `c` among the targets |
| `Partitions.WithTargetMembers` | entropy_calculator.py:103 | filtering by target keeps exactly the instances with that target |
| `Partitions.WithTargetAppend` | entropy_calculator.py:103 | filtering by target distributes over concatenation, so the kept instances stay in their original order |
| `Partitions.WithAttributeValueSize` | entropy_calculator.py:80-84 | the instances with value `v` in column `i` number as many as the occurrences of `v` in that column |
| `Partitions.WithAttributeValueMembers` | decision_tree.py:73-75 | filtering by value keeps exactly the instances with that value in the column |
| `Partitions.WithAttributeValueAppend` | entropy_calculator.py:84 | filtering by value distributes over concatenation, so the kept instances stay in their original order |
| `Partitions.SubPartitionsCover` | entropy_calculator.py:54-63 | every distinct value of a column selects at least one instance, and the per-value sub-partitions together hold every instance once |
| `Partitions.TargetClassesCover` | entropy_calculator.py:36-45 | every distinct target class has a non-empty sub-list, and the class sub-lists together hold every instance once |
| `Partitions.RemoveFirst` | decision_tree.py:18 | `list.remove(x)`: one element shorter when `x` occurs, unchanged otherwise |
| `Partitions.RemoveFirstOfDistinct` | decision_tree.py:17-18 | on a list without duplicates, removing the value at index `i` removes exactly position `i` |
| `Entropy.GainsAt` | entropy_calculator.py:25-28 | entry `j` of the gain list is the information gain of attribute `j` |
| `Entropy.LogArgumentsInUnitInterval` | entropy_calculator.py:41-45 | every `log2` argument in the target entropy, a class's share of the partition, lies in (0, 1] |
| `Entropy.WeightSumIsCountRatio` | entropy_calculator.py:59-63 | the size weights of the first `n` values sum to their total count over the partition size |
| `Entropy.WeightsSumToOne` | entropy_calculator.py:54-63 | the size weights of a column's distinct values sum to 1 |
| `Entropy.SingleClassEntropyIsZero` | entropy_calculator.py:36-47 | a partition whose instances share one target has one class, and its entropy is 0 when `log2(1) = 0` |
| `Entropy.IndexOfMax` | entropy_calculator.py:30 | the loop finds the arg-max: the first index of the largest value |
| `Entropy.EntropyCalculator.constructor` | entropy_calculator.py:10-13 | keeps the partition, records its target entropy, and records the first instance's attribute count |
| `Entropy.EntropyCalculator.GetTargetClasses` | entropy_calculator.py:86-97 | the loop returns the distinct target values |
| `Entropy.EntropyCalculator.CalculateEntropyClass` | entropy_calculator.py:105-120 | the loop returns the target entropy of the given instances |
| `Entropy.EntropyCalculator.GetClassesAttribute` | entropy_calculator.py:67-78 | the loop returns the distinct values of column `i` |
| `Entropy.EntropyCalculator.CalculateEntropyAttribute` | entropy_calculator.py:49-65 | the loop returns the size-weighted entropy of the per-value sub-partitions of column `i` |
| `Entropy.EntropyCalculator.WeightedEntropy` | entropy_calculator.py:56-63 | the accumulation loop returns the sum of the weighted terms |
| `Entropy.EntropyCalculator.GainID3` | entropy_calculator.py:15-19 | the target entropy minus the weighted entropy of attribute `i` |
| `Entropy.EntropyCalculator.InformationGains` | entropy_calculator.py:25-28 | the gain list, one entry per attribute index in order |
| `Entropy.EntropyCalculator.BestAttribute` | entropy_calculator.py:21-30 | an index below the attribute count whose gain is maximal, with every earlier gain strictly smaller; nothing when there is no attribute, where `max` raises |
| `Tree.AsNumber` | tree_node.py:73 | `float(value)`: a stored number is itself, and text is parsed |
| `Tree.SplitEdge` | tree_node.py:73-76 | the split token is `LESS_OR_EQUAL` iff the value is at most the threshold, and `BIGGER_THAN` iff it is larger |
| `Tree.Classification` | tree_node.py:27-92 | a leaf returns its classification whatever the instance; a decision node without a matching attribute fails; a success is always the label of some leaf of the tree |
| `Tree.CategoricalStep` | tree_node.py:86-89 | a categorical node descends into the first branch whose value equals the first same-named attribute's value |
| `Tree.UnmatchedCategory` | tree_node.py:86-92 | a categorical node fails when no branch carries the attribute's value |
| `Tree.NumericStep` | tree_node.py:69-77 | a node with any threshold, 0.0 included, is numeric: a value at most the threshold descends into the first `LESS_OR_EQUAL` branch, a larger one into the first `BIGGER_THAN` branch |
| `Tree.MissingSplit` | tree_node.py:79-84 | a numeric node fails when no branch carries the required split token |
| `Tree.ClassifyIgnoresTarget` | tree_node.py:55-92 | classification reads only the attributes, never the instance's target |
| `Tree.DecisionNode.constructor` | tree_node.py:44-47 | a node on the given attribute, with no branches and the given threshold |
| `Tree.DecisionNode.AddBranch` | tree_node.py:49-50 | appends the branch at the end; earlier branches and the threshold are unchanged |
| `Tree.DecisionNode.SetAsNumericNode` | tree_node.py:52-53 | sets the threshold and leaves the branches unchanged |
| `Tree.DecisionNode.Classify` | tree_node.py:55-67 | classifying the node object gives the classification of its current snapshot |
| `DecisionTree.MostFrequentTarget` | decision_tree.py:41-62 | a target of the partition whose count is no smaller than any other target's |
| `DecisionTree.BestColumn` | decision_tree.py:15 | the chosen attribute index is a column of the partition |
| `DecisionTree.RemoveColumnShape` | decision_tree.py:78-84 | removing column `i` keeps the instances, their order and their targets; each attribute list loses exactly index `i` |
| `DecisionTree.SubsetShape` | decision_tree.py:22-26 | the child's instances are those with the value, each one column shorter, and their targets come from the partition |
| `DecisionTree.BranchesAt` | decision_tree.py:21-28 | branch `j` is labelled with the `j`-th distinct value and holds the tree built from that value's instances without the column |
| `DecisionTree.ChildTree` | decision_tree.py:17-27 | every child of a decision node is the tree built from a non-empty sub-partition over one header fewer, with targets from the partition |
| `DecisionTree.LeavesAreTrainingTargets` | decision_tree.py:8-29 | every leaf label of the built tree is a target of the training instances |
| `DecisionTree.DepthBound` | decision_tree.py:12-18 | the tree is no deeper than the number of headers, because each level removes one |
| `DecisionTree.AllCategorical` | decision_tree.py:16 | every decision node the builder makes is categorical (no threshold) |
| `DecisionTree.SplitsOnBestColumn` | decision_tree.py:15-29 | a mixed-target partition with headers left gives a node on the first column of largest gain, named after that attribute, with exactly one branch per distinct value in order; the empty-partition fallback never fires |
| `DecisionTree.InstancesHaveTheSameTarget` | decision_tree.py:32-38 | true iff every instance has the first instance's target |
| `DecisionTree.MostFrequentTargetOf` | decision_tree.py:41-62 | the loops return the most frequent target, and nothing for an empty list |
| `DecisionTree.PossibleValuesOfAttribute` | decision_tree.py:65-70 | each distinct value of column `i` exactly once |
| `DecisionTree.RemoveAttributeFromInstances` | decision_tree.py:78-84 | the loop returns the instances with column `i` removed |
| `DecisionTree.BestAttributeOf` | decision_tree.py:15 | the index the entropy calculator's `best_attribute` picks |
| `DecisionTree.GetDecisionTree` | decision_tree.py:8-29 | the builder, with its mutable node and branch loop, returns the tree of the recursive definition |
| `DecisionTree.AddBranches` | decision_tree.py:20-28 | the branch loop completes iff every value selects an instance, and then leaves the node with exactly the defined branches |
| `Bootstraps.BootstrapOf` | bootstrap.py:27-51 | fails iff the training part is empty while the dataset is not; otherwise the training set is as large as the dataset, starts with the unchanged training part and is extended only with training-part elements, and the test set is the test part |
| `Bootstraps.SplitSizes` | bootstrap.py:36-41 | the training part and the test part together are as large as the dataset |
| `Bootstraps.SplitIsPartition` | bootstrap.py:36-41 | every instance goes to exactly one of the two parts, as often as it occurs |
| `Bootstraps.SplitMembers` | bootstrap.py:36-41 | an instance is in the training part iff some position holding it drew below 80, and in the test part iff some drew 80 or more |
| `Bootstraps.BootstrapFromDataset` | bootstrap.py:27-51 | both sets of a bootstrap hold only dataset instances |
| `Bootstraps.BootstrapsInOrder` | bootstrap.py:20-24 | `b` bootstraps in index order, the `j`-th from the `j`-th draws, or the first failure |
| `Bootstraps.FirstErrorStays` | bootstrap.py:20-24 | once a bootstrap fails, later indices do not change the outcome |
| `Bootstraps.CreateBootstrap` | bootstrap.py:27-51 | the split loop and the resampling loop compute `BootstrapOf` |
| `Bootstraps.BootstrapsWithResampling` | bootstrap.py:20-24 | the loop computes the first `b` bootstraps or the first failure |
| `RandomForests.BootstrapsTrainable` | random_forest.py:12-14 | every bootstrap's training set of a non-empty dataset can be given to the tree builder |
| `RandomForests.Forest` | random_forest.py:7-14 | a built forest has `numTrees` bootstraps and `numTrees` trees and keeps its dataset and headers; it fails on an empty dataset iff trees are asked for |
| `RandomForests.OneTreePerBootstrap` | random_forest.py:12-14 | bootstrap `j` comes from the `j`-th draws, and tree `j` is the tree built from its training set |
| `RandomForests.VotesInOrder` | random_forest.py:20 | the votes are the trees' classifications in tree order, and exist iff no tree fails |
| `RandomForests.PredictionIsMajority` | random_forest.py:20-26 | with no trees the vote fails; otherwise it is a label voted for, with a count no smaller than any other's, and ties go to the first one voted |
| `RandomForests.PredictionsInOrder` | random_forest.py:16-22 | one prediction per test instance, in test-set order, or the first failure |
| `RandomForests.TrainingTargetIsDatasetTarget` | bootstrap.py:36-49 | every target in a bootstrap's training set is a dataset target |
| `RandomForests.VoteIsDatasetTarget` | random_forest.py:14-20 | every tree's vote is a target of the dataset |
| `RandomForests.PredictionIsDatasetTarget` | random_forest.py:16-26 | every prediction of the forest is a target of the dataset |
| `CrossValidation.Cycle.constructor` | crossvalidation.py:27 | a cycle over the dataset, at position 0 |
| `CrossValidation.Cycle.Next` | crossvalidation.py:33 | yields the item at the position modulo the length and advances by one |
| `CrossValidation.FoldSize` | crossvalidation.py:28 | `int(n / k)` is the truncated quotient: `k * fs <= n < k * fs + k` |
| `CrossValidation.FoldsOf` | crossvalidation.py:25-48 | fails iff `k` is 0 or an empty dataset must be skipped into; otherwise `k` folds |
| `CrossValidation.RepetitionOffset` | crossvalidation.py:17-22 | fails iff `k` is 0 or `n / k < 2`; otherwise the drawn offset, in `[1, n / k - 1]` |
| `CrossValidation.FoldsPrefix` | crossvalidation.py:36-40 | the first `i` folds read in order are the `i * (n / k)` items of the cycle after the offset |
| `CrossValidation.FoldsConcatenate` | crossvalidation.py:36-46 | all folds read in order are one full turn of the cycle from the offset |
| `CrossValidation.FoldSizes` | crossvalidation.py:28-46 | the first `k - 1` folds have `n / k` instances and the last `n / k + n % k` |
| `CrossValidation.FoldElements` | crossvalidation.py:27-39 | element `j` of fold `i` is `ds[(offset + i * (n / k) + j) mod n]` |
| `CrossValidation.FoldsPartitionDataset` | crossvalidation.py:30-46 | the folds read in order are the dataset rotated left by the offset, so each instance appears exactly once; with offset 0 they are the dataset itself |
| `CrossValidation.RepetitionsInOrder` | crossvalidation.py:5-14 | `r` repetitions in order, the `j`-th cut with its offset, or the first failure |
| `CrossValidation.RepetitionOffsets` | crossvalidation.py:7-13 | repetition 0 uses offset 0; a later one fails for `k = 0` or `n / k < 2`, and otherwise uses its draw in `[1, n / k - 1]` |
| `CrossValidation.FirstErrorStays` | crossvalidation.py:7-14 | once a repetition fails, later ones do not change the outcome |
| `CrossValidation.AppendNext` | crossvalidation.py:38-39 | appends the next `count` items of the cycle and advances it by `count` |
| `CrossValidation.Skip` | crossvalidation.py:32-33 | advances the cycle by `count` |
| `CrossValidation.CutFolds` | crossvalidation.py:36-40 | cuts `k` folds of `fs` consecutive cycle items, fold `q` starting `q * fs` after the start |
| `CrossValidation.FoldDivision` | crossvalidation.py:25-48 | the nested loops over the cycle compute `FoldsOf` |
| `CrossValidation.CrossValidationDivision` | crossvalidation.py:5-14 | the repetition loop computes the first `r` repetitions or the first failure |
| `StratifiedCrossValidation.StrataDistribution` | cross_validation.py:61-69 | at most one stratum per instance; every stratum's class is a target of the dataset; no class appears twice |
| `StratifiedCrossValidation.StrataDescribeTargets` | cross_validation.py:61-69 | a value has a stratum iff it is a target; each stratum's proportion is its count over `n`, and lies in (0, 1] |
| `StratifiedCrossValidation.StrataInFirstOccurrenceOrder` | cross_validation.py:63-66 | strata are listed in order of their class's first occurrence |
| `StratifiedCrossValidation.StrataSumToOne` | cross_validation.py:61-69 | the stratum counts sum to `n`, and the proportions sum to 1 |
| `StratifiedCrossValidation.RoundHalfEven` | cross_validation.py:42 | Python's `round`: within 0.5 of the argument, strictly unless on a tie; a tie goes to the even neighbour; not negative for a non-negative argument |
| `StratifiedCrossValidation.StratumSizeRounds` | cross_validation.py:42 | a stratum of share `p` puts `round(p * fold_size)` instances in a fold: within 0.5 of the exact product, strictly unless on a tie, and even on a tie |
| `StratifiedCrossValidation.MatchWithinTurn` | cross_validation.py:46-47 | an instance of any stratum's class is found within one turn of the cycle, so the scan terminates |
| `StratifiedCrossValidation.ScanFrom` | cross_validation.py:44-47 | the scan stops within one turn, at an instance of the wanted class |
| `StratifiedCrossValidation.ScanFindsFirst` | cross_validation.py:44-47 | the scan skips only instances of other classes: it stops at the first match |
| `StratifiedCrossValidation.TakeStratum` | cross_validation.py:43-49 | taking a stratum appends exactly `count` instances, and the cycle only moves forward |
| `StratifiedCrossValidation.TakeStratumMembers` | cross_validation.py:43-49 | every instance taken for a stratum has its class and is a dataset instance |
| `StratifiedCrossValidation.TakeStratumCounts` | cross_validation.py:43-49 | taking a stratum adds `count` instances of its class and none of any other |
| `StratifiedCrossValidation.FoldOfStrataMembers` | cross_validation.py:40-49 | a fold holds the sum of its strata sizes, all dataset instances |
| `StratifiedCrossValidation.FoldOfStrataCounts` | cross_validation.py:40-51 | in a fold, each stratum's class occurs exactly its stratum size, whatever the order the strata were visited |
| `StratifiedCrossValidation.PrefixFoldsStratified` | cross_validation.py:39-51 | every fold cut by the loop is stratified and holds only dataset instances |
| `StratifiedCrossValidation.StratifiedFoldsOf` | cross_validation.py:27-59 | fails iff `k` is 0 or an empty dataset must be skipped into; otherwise `k` folds |
| `StratifiedCrossValidation.StratifiedFoldsShape` | cross_validation.py:39-57 | the first `k - 1` folds hold exactly `round(p * (n / k))` instances of each stratum; the last starts with such a stratified part and holds `n % k` further instances, a count in `[0, k)`; every element is a dataset instance |
| `StratifiedCrossValidation.GetStrataDistribution` | cross_validation.py:61-69 | the Counter loop and the proportion loop compute `StrataDistribution` |
| `StratifiedCrossValidation.NextOfClass` | cross_validation.py:44-47 | the `next`/`while` scan yields the instance where `ScanFrom` stops and leaves the cycle just after it |
| `StratifiedCrossValidation.TakeFromCycle` | cross_validation.py:43-49 | the stratum loop appends what `TakeStratum` takes and leaves the cycle where it stops |
| `StratifiedCrossValidation.FoldFromCycle` | cross_validation.py:40-51 | the strata loop builds the fold `FoldOfStrata` defines |
| `StratifiedCrossValidation.CutStratifiedFolds` | cross_validation.py:39-51 | the fold loop builds the `k` folds `StratifiedFoldsPrefix` defines |
| `StratifiedCrossValidation.StratifiedFoldDivision` | cross_validation.py:27-59 | the whole division, with its skip and remainder loops, computes `StratifiedFoldsOf` |
| `StratifiedCrossValidation.StratifiedCrossValidationDivision` | cross_validation.py:8-24 | the repetition loop computes the first `r` stratified repetitions, offset 0 first and drawn offsets after, or the first failure |
| `StratifiedPartition.EmptyStrataEmptyFold` | cross_validation.py:40-49 | when every stratum rounds to 0 instances, a fold is empty and the cycle does not move |
| `StratifiedPartition.EmptyStrataEmptyFolds` | cross_validation.py:39-51 | when every stratum rounds to 0 instances, every fold cut by the loop is empty and the cycle does not move |
| `StratifiedPartition.StrataOfTwoClasses` | cross_validation.py:61-69 | one instance of class A then one of class B have the strata A with share 0.5 and B with share 0.5, in that order |
| `StratifiedPartition.EmptyStrataEmptyDivision` | cross_validation.py:27-57 | when every stratum rounds to 0 instances and `k` divides `n`, the division as written yields `k` empty folds |
| `StratifiedPartition.AsWrittenFoldsEmpty` | cross_validation.py:27-57 | the division as written cuts one instance of class A and one of class B into two empty folds |
| `StratifiedPartition.AsWrittenLosesInstances` | cross_validation.py:39-57 | the folds of the division as written do not hold the dataset: for the two instances above, they hold neither |
| `StratifiedPartition.TakeClassSplits` | cross_validation.py:43-49 | corrected: taking `count` instances of a class out of the pool splits the pool; the taken and the remaining instances together are exactly the pool |
| `StratifiedPartition.TakeClassCount` | cross_validation.py:43-49 | corrected: a stratum takes `count` instances, or every instance of its class still in the pool when fewer remain, and only instances of its class |
| `StratifiedPartition.ConsumeFoldSize` | cross_validation.py:40-49 | corrected: a fold holds at most the sum of its strata sizes |
| `StratifiedPartition.ConsumeFoldSplits` | cross_validation.py:40-51 | corrected: a fold and the rest of the pool together are exactly the pool |
| `StratifiedPartition.ConsumeFoldsSplit` | cross_validation.py:39-51 | corrected: the `k` folds and the rest of the pool together are exactly the pool |
| `StratifiedPartition.IntendedFoldsOf` | cross_validation.py:27-57 | corrected: fails exactly when the division as written fails; otherwise yields `k` folds |
| `StratifiedPartition.IntendedFoldsPartition` | cross_validation.py:39-57 | corrected: for `k > 0` and every offset the division accepts, it yields folds that together hold every dataset instance exactly as often as the dataset does |

## Left out

- `main.py`: argument handling, CSV reading and `sys.exit` are input and output.
- `print` in `crossvalidation.py:12`, every `__str__`/`__repr__`, and exception messages. Errors are result variants without text.
- `random.seed` and `random.randint`: draws are oracle parameters, constrained to the ranges `randint` can return. Seeding and per-index streams are not modelled. The first entry of the offset draws is never read, because repetition 0 uses offset 0.
- `deepcopy` and object identity: copies are values. The resampled training instances and the instances without a column are equal values, not fresh objects.
- Floating-point arithmetic:
  - entropies, weights and proportions are exact reals;
  - `math.log2` is an uninterpreted parameter, assumed only to give `log2(1) = 0` where a lemma needs it;
  - `float(text)` is an uninterpreted parser;
  - `int(n / k)` is the exact truncated quotient, which differs from the float division only for very large `n`;
  - the float product in the stratum size is the exact product, so rounding happens only once.
- Iteration order of `set` and `dict`: the model fixes it to first-occurrence order. With that order, `most_frequent_target_of` and the forest vote break ties by first occurrence.
- `constants.py` is not part of this model. The split tokens `LESS_OR_EQUAL` and `BIGGER_THAN` are the constructors `LessOrEqual` and `BiggerThan` of `Tree.Edge`.
- Random feature subsampling and numeric split-point search do not exist in this version of the code.
- `k_folds` is a natural number. A negative fold count, where `range` and `folds[-1]` behave differently, is not modelled.
- The helper methods `WeightedEntropy`, `AddBranches`, `BestAttributeOf`, `AppendNext`, `Skip`, `CutFolds`, `NextOfClass`, `TakeFromCycle`, `FoldFromCycle` and `CutStratifiedFolds` split the source's nested loops into one method per loop. The source writes each of these inline.
- `Partitions.WithAttributeValue` is total: it is also defined for instances too short to have the column, where the Python comprehension would raise `IndexError`. Every caller has the column, so the difference never shows.
- `Entropy.EntropyCalculator.constructor` requires a non-empty partition whose instances all have as many attributes as the first. The source raises `IndexError` on an empty partition at `entropy_calculator.py:13` and is only built from non-empty partitions.
- `Entropy.Gain`: the model does not state that information gain is non-negative. That needs properties of `log2` beyond `log2(1) = 0`.
- `DecisionTree.BestColumn` states only that the index is a column. What the index is comes from `BestAttribute` and `Counting.ArgMax`, and `DecisionTree.SplitsOnBestColumn` ties the tree to it.
- `DecisionTree.BuildTree`, `DecisionTree.GetDecisionTree`, `RandomForests.Forest`: require every instance to have one attribute per header. The source also runs on ragged input. For example, `get_decision_tree(xs, [])` returns the majority leaf whatever the instances hold (`decision_tree.py:12-13`). The recursion removes a header and a column together, so the model keeps them matched from the start.
- `StratifiedPartition.IntendedFoldsOf`: the corrected division proves only that the folds partition the dataset and that each stratum takes at most its rounded size. It does not state how many instances of each class every fold holds once a class runs out.

## Findings

| source | as written | input that shows it | evidently intended | confidence | as-written member | corrected member |
|---|---|---|---|---|---|---|
| cross_validation.py:39-57 | Each stratum's scan takes the next instance of its class on the cycle, but nothing marks an instance as used. A later fold can pick the same instance again, and an instance the scans pass over is never picked. The last fold gets only the next `n - k * (n / k)` instances of the cycle, whichever they are. So the folds need not partition the dataset, despite the comment at :53-54 about not losing instances. | `[A, B]` (one instance of each class), `k = 2`, offset 0: each share is 0.5, the fold size is 1, and `round(0.5) = 0`. Both folds come out empty and `n % k = 0` adds nothing. With `[x(A), y(B), z(A), w(A)]` and `k = 2`, the folds are `[x, z]` and `[w, x]`: `x` twice, `y` never. | Each fold takes the next *unused* instances of each class, and whatever no fold took goes to the last fold. The `k` folds then partition the dataset. | not executed | `StratifiedPartition.AsWrittenLosesInstances` | `StratifiedPartition.IntendedFoldsPartition` |
