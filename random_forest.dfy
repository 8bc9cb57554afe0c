/** random_forest.py: one ID3 tree per bootstrap of the dataset, and a
    majority vote of the trees for every instance to classify. */
module RandomForests {
  import opened Wrappers
  import opened Counting
  import opened Instances
  import opened Partitions
  import opened Tree
  import opened DecisionTree
  import opened Bootstraps

  /** `RandomForest`: its fields are set once, by the constructor. */
  datatype RandomForest = RandomForest(
    dataset: seq<Instance>,
    numTrees: nat,
    headers: seq<string>,
    bootstraps: seq<Bootstrap<Instance>>,
    trees: seq<Node>)

  /** The exceptions building or querying a forest raises: a bootstrap that
      cannot resample, `get_decision_tree` on an empty training set (index 0
      of an empty list), a tree whose `classify` raises, and
      `most_common(1)[0]` on an empty vote list. */
  datatype ForestError =
    | BootstrapFailed(bootstrapError: BootstrapError)
    | EmptyDataset
    | TreeFailed(classifyError: ClassifyError)
    | NoVotes

  /** Every bootstrap's training set can be given to the tree builder. */
  ghost predicate Trainable(bs: seq<Bootstrap<Instance>>, m: nat) {
    forall j :: 0 <= j < |bs| ==> |bs[j].trainingSet| > 0 && Rectangular(bs[j].trainingSet, m)
  }

  /** The tree of every bootstrap, in bootstrap order. */
  function Trees(bs: seq<Bootstrap<Instance>>, headers: seq<string>, log2: real -> real): (ts: seq<Node>)
    requires Trainable(bs, |headers|)
    ensures |ts| == |bs|
  {
    seq(|bs|, j requires 0 <= j < |bs| => BuildTree(bs[j].trainingSet, headers, log2))
  }

  /** The bootstraps of a non-empty dataset with rows of `m` columns can be
      trained on: each training set is as large as the dataset and holds only
      its instances. */
  lemma BootstrapsTrainable(dataset: seq<Instance>, m: nat, draws: seq<Draws>, n: nat)
    requires |dataset| > 0 && Rectangular(dataset, m)
    requires n <= |draws| && forall j :: 0 <= j < |draws| ==> ValidDraws(dataset, draws[j])
    requires BootstrapsPrefix(dataset, draws, n).Ok?
    ensures Trainable(BootstrapsPrefix(dataset, draws, n).value, m)
  {
    var bs := BootstrapsPrefix(dataset, draws, n).value;
    BootstrapsInOrder(dataset, draws, n);
    forall j | 0 <= j < |bs| ensures |bs[j].trainingSet| > 0 && Rectangular(bs[j].trainingSet, m) {
      BootstrapFromDataset(dataset, draws[j]);
      var t := bs[j].trainingSet;
      forall k | 0 <= k < |t| ensures |t[k].attributes| == m {
        assert t[k] in dataset;
      }
    }
  }

  /** `RandomForest(dataset, num_trees, data_headers)`: `num_trees`
      bootstraps, then one tree per bootstrap's training set. */
  function Forest(dataset: seq<Instance>, numTrees: nat, headers: seq<string>, draws: seq<Draws>,
                  log2: real -> real): (r: Result<RandomForest, ForestError>)
    requires Rectangular(dataset, |headers|)
    requires numTrees <= |draws| && forall j :: 0 <= j < |draws| ==> ValidDraws(dataset, draws[j])
    ensures r.Ok? ==> |r.value.bootstraps| == |r.value.trees| == r.value.numTrees == numTrees
    ensures r.Ok? ==> r.value.dataset == dataset && r.value.headers == headers
    ensures r == Err(EmptyDataset) <==> |dataset| == 0 && numTrees > 0
  {
    match BootstrapsPrefix(dataset, draws, numTrees)
    case Err(e) =>
      BootstrapsInOrder(dataset, draws, numTrees);
      Err(BootstrapFailed(e))
    case Ok(bs) =>
      BootstrapsInOrder(dataset, draws, numTrees);
      if |dataset| == 0 && numTrees > 0 then Err(EmptyDataset)
      else if numTrees == 0 then Ok(RandomForest(dataset, numTrees, headers, bs, []))
      else
        BootstrapsTrainable(dataset, |headers|, draws, numTrees);
        Ok(RandomForest(dataset, numTrees, headers, bs, Trees(bs, headers, log2)))
  }

  /** The votes of the trees for `inst`, in tree order, or the first
      exception a tree raises. */
  function Votes(trees: seq<Node>, inst: Instance, parseFloat: string -> Option<real>): Result<seq<Value>, ClassifyError> {
    TryMap((t: Node) => Classification(t, inst, parseFloat), trees, |trees|)
  }

  /** The forest's answer for one instance: `__most_common` of the votes. */
  function Prediction(trees: seq<Node>, inst: Instance, parseFloat: string -> Option<real>): Result<Value, ForestError> {
    match Votes(trees, inst, parseFloat)
    case Err(e) => Err(TreeFailed(e))
    case Ok(vs) =>
      match MostCommon(vs)
      case None => Err(NoVotes)
      case Some(v) => Ok(v)
  }

  /** `RandomForest.classify`: one prediction per test instance, or the
      first exception. */
  function Classify(forest: RandomForest, testSet: seq<Instance>, parseFloat: string -> Option<real>): Result<seq<Value>, ForestError> {
    TryMap((x: Instance) => Prediction(forest.trees, x, parseFloat), testSet, |testSet|)
  }

  // ---------------------------------------------------------------------
  // Lemmas

  /** A built forest holds, for every bootstrap, the tree of its training
      set. */
  lemma OneTreePerBootstrap(dataset: seq<Instance>, numTrees: nat, headers: seq<string>,
                            draws: seq<Draws>, log2: real -> real)
    requires Rectangular(dataset, |headers|)
    requires numTrees <= |draws| && forall j :: 0 <= j < |draws| ==> ValidDraws(dataset, draws[j])
    requires Forest(dataset, numTrees, headers, draws, log2).Ok?
    ensures var f := Forest(dataset, numTrees, headers, draws, log2).value;
      Trainable(f.bootstraps, |headers|) &&
      forall j :: 0 <= j < numTrees ==>
        BootstrapOf(dataset, draws[j]) == Ok(f.bootstraps[j]) &&
        f.trees[j] == BuildTree(f.bootstraps[j].trainingSet, headers, log2)
  {
    BootstrapsInOrder(dataset, draws, numTrees);
    if numTrees > 0 {
      BootstrapsTrainable(dataset, |headers|, draws, numTrees);
    }
  }

  /** The votes come from the trees in order; they exist exactly when no
      tree raises. */
  lemma VotesInOrder(trees: seq<Node>, inst: Instance, parseFloat: string -> Option<real>)
    ensures Votes(trees, inst, parseFloat).Ok? <==>
      forall j :: 0 <= j < |trees| ==> Classification(trees[j], inst, parseFloat).Ok?
    ensures Votes(trees, inst, parseFloat).Ok? ==>
      |Votes(trees, inst, parseFloat).value| == |trees| &&
      forall j :: 0 <= j < |trees| ==> Classification(trees[j], inst, parseFloat) == Ok(Votes(trees, inst, parseFloat).value[j])
  {
    TryMapInOrder((t: Node) => Classification(t, inst, parseFloat), trees, |trees|);
  }

  /** The majority vote: the prediction is a vote that no other vote
      outnumbers, the earliest among equally frequent ones, and there is none
      without trees. */
  lemma PredictionIsMajority(trees: seq<Node>, inst: Instance, parseFloat: string -> Option<real>)
    requires Votes(trees, inst, parseFloat).Ok?
    ensures Prediction(trees, inst, parseFloat) == Err(NoVotes) <==> |trees| == 0
    ensures Prediction(trees, inst, parseFloat).Ok? ==>
      var vs := Votes(trees, inst, parseFloat).value;
      var p := Prediction(trees, inst, parseFloat).value;
      p in vs &&
      (forall v :: v in vs ==> Count(vs, v) <= Count(vs, p)) &&
      (forall v :: v in vs && Count(vs, v) == Count(vs, p) ==> FirstIndex(vs, p) <= FirstIndex(vs, v))
  {
    VotesInOrder(trees, inst, parseFloat);
    MostCommonIsMajority(Votes(trees, inst, parseFloat).value);
  }

  /** One prediction per test instance, in order, or the first exception. */
  lemma PredictionsInOrder(forest: RandomForest, testSet: seq<Instance>, parseFloat: string -> Option<real>)
    ensures Classify(forest, testSet, parseFloat).Ok? <==>
      forall j :: 0 <= j < |testSet| ==> Prediction(forest.trees, testSet[j], parseFloat).Ok?
    ensures Classify(forest, testSet, parseFloat).Ok? ==>
      |Classify(forest, testSet, parseFloat).value| == |testSet| &&
      forall j :: 0 <= j < |testSet| ==>
        Prediction(forest.trees, testSet[j], parseFloat) == Ok(Classify(forest, testSet, parseFloat).value[j])
  {
    TryMapInOrder((x: Instance) => Prediction(forest.trees, x, parseFloat), testSet, |testSet|);
  }

  /** A target value of a bootstrap's training set is a target value of
      the dataset. */
  lemma TrainingTargetIsDatasetTarget(dataset: seq<Instance>, d: Draws, v: Value)
    requires ValidDraws(dataset, d) && BootstrapOf(dataset, d).Ok?
    requires v in Targets(BootstrapOf(dataset, d).value.trainingSet)
    ensures v in Targets(dataset)
  {
    var t := BootstrapOf(dataset, d).value.trainingSet;
    var k :| 0 <= k < |t| && t[k].target == v;
    BootstrapFromDataset(dataset, d);
    assert t[k] in dataset;
    var i :| 0 <= i < |dataset| && dataset[i] == t[k];
    assert Targets(dataset)[i] == v;
  }

  /** A vote is the target of some training instance of its tree's
      bootstrap, hence a target of the dataset. */
  lemma VoteIsDatasetTarget(dataset: seq<Instance>, numTrees: nat, headers: seq<string>,
                            draws: seq<Draws>, log2: real -> real, inst: Instance,
                            parseFloat: string -> Option<real>, j: nat)
    requires Rectangular(dataset, |headers|)
    requires numTrees <= |draws| && forall k :: 0 <= k < |draws| ==> ValidDraws(dataset, draws[k])
    requires Forest(dataset, numTrees, headers, draws, log2).Ok?
    requires j < numTrees
    requires Classification(Forest(dataset, numTrees, headers, draws, log2).value.trees[j], inst, parseFloat).Ok?
    ensures Classification(Forest(dataset, numTrees, headers, draws, log2).value.trees[j], inst, parseFloat).value
      in Targets(dataset)
  {
    var f := Forest(dataset, numTrees, headers, draws, log2).value;
    OneTreePerBootstrap(dataset, numTrees, headers, draws, log2);
    var t := f.bootstraps[j].trainingSet;
    LeavesAreTrainingTargets(t, headers, log2);
    TrainingTargetIsDatasetTarget(dataset, draws[j], Classification(f.trees[j], inst, parseFloat).value);
  }

  /** Every prediction of a built forest is a target value of its dataset. */
  lemma PredictionIsDatasetTarget(dataset: seq<Instance>, numTrees: nat, headers: seq<string>,
                                  draws: seq<Draws>, log2: real -> real, inst: Instance,
                                  parseFloat: string -> Option<real>)
    requires Rectangular(dataset, |headers|)
    requires numTrees <= |draws| && forall k :: 0 <= k < |draws| ==> ValidDraws(dataset, draws[k])
    requires Forest(dataset, numTrees, headers, draws, log2).Ok?
    requires Prediction(Forest(dataset, numTrees, headers, draws, log2).value.trees, inst, parseFloat).Ok?
    ensures Prediction(Forest(dataset, numTrees, headers, draws, log2).value.trees, inst, parseFloat).value
      in Targets(dataset)
  {
    var trees := Forest(dataset, numTrees, headers, draws, log2).value.trees;
    var vs := Votes(trees, inst, parseFloat).value;
    PredictionIsMajority(trees, inst, parseFloat);
    VotesInOrder(trees, inst, parseFloat);
    var p := Prediction(trees, inst, parseFloat).value;
    var j :| 0 <= j < |vs| && vs[j] == p;
    VoteIsDatasetTarget(dataset, numTrees, headers, draws, log2, inst, parseFloat, j);
  }
}
