/** bootstrap.py: a bootstrap splits the dataset at random into a training
    set (each instance with an 80% chance) and a test set, then resamples the
    training set with replacement until it is as large as the dataset.
    The random number generator is an oracle: the draws one bootstrap
    consumes are given as parameters. */
module Bootstraps {
  import opened Wrappers

  /** `Bootstrap`: a training set and a test set, never updated after
      construction. */
  datatype Bootstrap<T> = Bootstrap(trainingSet: seq<T>, testSet: seq<T>)

  /** `random.randint(0, -1)`: resampling from an empty training set raises
      ValueError. */
  datatype BootstrapError = EmptyTrainingSet

  /** The draws one call of `create_bootstrap` consumes: one draw in [0, 99]
      per dataset instance, then one index per resampled instance. */
  datatype Draws = Draws(split: seq<int>, resample: seq<int>)

  /** An instance whose draw is below this goes to the training set. */
  const TrainingChance := 80

  /** The instances among the first `n` whose draw sends them to training,
      in dataset order. */
  function TrainPrefix<T>(ds: seq<T>, split: seq<int>, n: nat): (r: seq<T>)
    requires n <= |ds| && n <= |split|
    ensures |r| <= n
  {
    if n == 0 then []
    else if split[n - 1] < TrainingChance then TrainPrefix(ds, split, n - 1) + [ds[n - 1]]
    else TrainPrefix(ds, split, n - 1)
  }

  /** The instances among the first `n` whose draw sends them to the test
      set, in dataset order. */
  function TestPrefix<T>(ds: seq<T>, split: seq<int>, n: nat): (r: seq<T>)
    requires n <= |ds| && n <= |split|
    ensures |r| <= n
  {
    if n == 0 then []
    else if split[n - 1] < TrainingChance then TestPrefix(ds, split, n - 1)
    else TestPrefix(ds, split, n - 1) + [ds[n - 1]]
  }

  /** The training set before resampling (bootstrap.py:36-41). */
  function TrainingPart<T>(ds: seq<T>, split: seq<int>): seq<T>
    requires |split| == |ds|
  {
    TrainPrefix(ds, split, |ds|)
  }

  /** The test set (bootstrap.py:36-41). */
  function TestPart<T>(ds: seq<T>, split: seq<int>): seq<T>
    requires |split| == |ds|
  {
    TestPrefix(ds, split, |ds|)
  }

  /** Draws `randint` can produce: split draws in [0, 99]; when the
      training part is not empty, enough resampling draws, each an index of
      the training part. With an empty training part and a non-empty dataset
      the first resampling draw raises, so no resampling draws are needed. */
  ghost predicate ValidDraws<T>(ds: seq<T>, d: Draws) {
    |d.split| == |ds| &&
    (forall j :: 0 <= j < |d.split| ==> 0 <= d.split[j] <= 99) &&
    (|TrainingPart(ds, d.split)| > 0 ==>
      |d.resample| >= |ds| - |TrainingPart(ds, d.split)| &&
      forall j :: 0 <= j < |d.resample| ==> 0 <= d.resample[j] < |TrainingPart(ds, d.split)|)
  }

  /** `create_bootstrap`: the split, then the training part extended with one
      resampled training instance per instance that went to the test set. */
  function BootstrapOf<T>(ds: seq<T>, d: Draws): (r: Result<Bootstrap<T>, BootstrapError>)
    requires ValidDraws(ds, d)
    ensures r.Err? <==> |TrainingPart(ds, d.split)| == 0 && |ds| > 0
    ensures r.Ok? ==> |r.value.trainingSet| == |ds|
    ensures r.Ok? ==> r.value.trainingSet[..|TrainingPart(ds, d.split)|] == TrainingPart(ds, d.split)
    ensures r.Ok? ==> forall j :: |TrainingPart(ds, d.split)| <= j < |ds| ==>
      r.value.trainingSet[j] in TrainingPart(ds, d.split)
    ensures r.Ok? ==> r.value.testSet == TestPart(ds, d.split)
  {
    var train := TrainingPart(ds, d.split);
    var missing := |ds| - |train|;
    if missing > 0 && |train| == 0 then Err(EmptyTrainingSet)
    else
      var extra := seq(missing, j requires 0 <= j < missing => train[d.resample[j]]);
      assert forall j :: 0 <= j < missing ==> extra[j] in train;
      Ok(Bootstrap(train + extra, TestPart(ds, d.split)))
  }

  /** `bootstraps_with_resampling` over the first `n` bootstrap indices: the
      bootstraps in index order, or the first error. */
  function BootstrapsPrefix<T>(ds: seq<T>, draws: seq<Draws>, n: nat): Result<seq<Bootstrap<T>>, BootstrapError>
    requires n <= |draws|
    requires forall j :: 0 <= j < |draws| ==> ValidDraws(ds, draws[j])
  {
    if n == 0 then Ok([])
    else
      match BootstrapsPrefix(ds, draws, n - 1)
      case Err(e) => Err(e)
      case Ok(bs) =>
        match BootstrapOf(ds, draws[n - 1])
        case Err(e) => Err(e)
        case Ok(b) => Ok(bs + [b])
  }

  // ---------------------------------------------------------------------
  // Lemmas

  /** Every instance goes to exactly one of the two sets. */
  lemma {:induction false} SplitSizes<T>(ds: seq<T>, split: seq<int>, n: nat)
    requires n <= |ds| && n <= |split|
    ensures |TrainPrefix(ds, split, n)| + |TestPrefix(ds, split, n)| == n
  {
    if n > 0 {
      SplitSizes(ds, split, n - 1);
    }
  }

  /** The two sets together hold the instances of the dataset, each as often
      as in the dataset. */
  lemma {:induction false} SplitIsPartition<T>(ds: seq<T>, split: seq<int>, n: nat)
    requires n <= |ds| && n <= |split|
    ensures multiset(TrainPrefix(ds, split, n)) + multiset(TestPrefix(ds, split, n)) == multiset(ds[..n])
  {
    if n > 0 {
      SplitIsPartition(ds, split, n - 1);
      assert ds[..n] == ds[..n - 1] + [ds[n - 1]];
    }
  }

  /** An instance is in the training part exactly when some position holding
      it drew below 80, and in the test part exactly when some position
      holding it drew 80 or more. */
  lemma {:induction false} SplitMembers<T>(ds: seq<T>, split: seq<int>, n: nat, x: T)
    requires n <= |ds| && n <= |split|
    ensures x in TrainPrefix(ds, split, n) <==>
      exists j :: 0 <= j < n && split[j] < TrainingChance && ds[j] == x
    ensures x in TestPrefix(ds, split, n) <==>
      exists j :: 0 <= j < n && split[j] >= TrainingChance && ds[j] == x
  {
    if n > 0 {
      SplitMembers(ds, split, n - 1, x);
    }
  }

  /** Both sets of a bootstrap hold only instances of the dataset. */
  lemma BootstrapFromDataset<T>(ds: seq<T>, d: Draws)
    requires ValidDraws(ds, d) && BootstrapOf(ds, d).Ok?
    ensures forall x :: x in BootstrapOf(ds, d).value.trainingSet ==> x in ds
    ensures forall x :: x in BootstrapOf(ds, d).value.testSet ==> x in ds
  {
    var b := BootstrapOf(ds, d).value;
    var train := TrainingPart(ds, d.split);
    forall x | x in train ensures x in ds {
      SplitMembers(ds, d.split, |ds|, x);
      var i :| 0 <= i < |ds| && d.split[i] < TrainingChance && ds[i] == x;
    }
    forall x | x in b.testSet ensures x in ds {
      SplitMembers(ds, d.split, |ds|, x);
      var i :| 0 <= i < |ds| && d.split[i] >= TrainingChance && ds[i] == x;
    }
    forall x | x in b.trainingSet ensures x in ds {
      var j :| 0 <= j < |b.trainingSet| && b.trainingSet[j] == x;
      if j < |train| {
        assert b.trainingSet[..|train|][j] == x;
      }
    }
  }

  /** `bootstraps_with_resampling` returns one bootstrap per index, the j-th
      built from the j-th draws, or the error of the first failing one. */
  lemma {:induction false} BootstrapsInOrder<T>(ds: seq<T>, draws: seq<Draws>, n: nat)
    requires n <= |draws|
    requires forall j :: 0 <= j < |draws| ==> ValidDraws(ds, draws[j])
    ensures BootstrapsPrefix(ds, draws, n).Ok? <==>
      forall j :: 0 <= j < n ==> BootstrapOf(ds, draws[j]).Ok?
    ensures BootstrapsPrefix(ds, draws, n).Ok? ==>
      |BootstrapsPrefix(ds, draws, n).value| == n &&
      forall j :: 0 <= j < n ==> BootstrapOf(ds, draws[j]) == Ok(BootstrapsPrefix(ds, draws, n).value[j])
  {
    if n > 0 {
      BootstrapsInOrder(ds, draws, n - 1);
    }
  }

  /** Once a bootstrap fails, later indices do not change the error. */
  lemma {:induction false} FirstErrorStays<T>(ds: seq<T>, draws: seq<Draws>, n: nat, m: nat)
    requires n <= m <= |draws|
    requires forall j :: 0 <= j < |draws| ==> ValidDraws(ds, draws[j])
    requires BootstrapsPrefix(ds, draws, n).Err?
    ensures BootstrapsPrefix(ds, draws, m) == BootstrapsPrefix(ds, draws, n)
    decreases m - n
  {
    if n < m {
      FirstErrorStays(ds, draws, n, m - 1);
    }
  }

  // ---------------------------------------------------------------------
  // The loops of bootstrap.py

  /** `create_bootstrap` with its split loop and its resampling loop. */
  method CreateBootstrap<T>(ds: seq<T>, d: Draws) returns (r: Result<Bootstrap<T>, BootstrapError>)
    requires ValidDraws(ds, d)
    ensures r == BootstrapOf(ds, d)
  {
    var trainingSet: seq<T> := [];
    var testSet: seq<T> := [];
    var k := 0;
    while k < |ds|
      invariant 0 <= k <= |ds|
      invariant trainingSet == TrainPrefix(ds, d.split, k)
      invariant testSet == TestPrefix(ds, d.split, k)
    {
      if d.split[k] < TrainingChance {
        trainingSet := trainingSet + [ds[k]];
      } else {
        testSet := testSet + [ds[k]];
      }
      k := k + 1;
    }
    ghost var train := trainingSet;
    var originalSize := |trainingSet|;
    var missing := |ds| - originalSize;
    if missing > 0 && originalSize == 0 {
      return Err(EmptyTrainingSet);
    }
    var j := 0;
    while j < missing
      invariant 0 <= j <= missing
      invariant |trainingSet| == originalSize + j
      invariant trainingSet[..originalSize] == train
      invariant forall t :: 0 <= t < j ==> trainingSet[originalSize + t] == train[d.resample[t]]
    {
      trainingSet := trainingSet + [trainingSet[d.resample[j]]];
      j := j + 1;
    }
    assert trainingSet == train + seq(missing, t requires 0 <= t < missing => train[d.resample[t]]);
    return Ok(Bootstrap(trainingSet, testSet));
  }

  /** `bootstraps_with_resampling`: `b` bootstraps, the j-th from the j-th
      draws. */
  method BootstrapsWithResampling<T>(ds: seq<T>, b: nat, draws: seq<Draws>)
      returns (r: Result<seq<Bootstrap<T>>, BootstrapError>)
    requires b <= |draws|
    requires forall j :: 0 <= j < |draws| ==> ValidDraws(ds, draws[j])
    ensures r == BootstrapsPrefix(ds, draws, b)
  {
    var bootstraps: seq<Bootstrap<T>> := [];
    var k := 0;
    while k < b
      invariant 0 <= k <= b
      invariant BootstrapsPrefix(ds, draws, k) == Ok(bootstraps)
    {
      var one := CreateBootstrap(ds, draws[k]);
      if one.Err? {
        FirstErrorStays(ds, draws, k + 1, b);
        return Err(one.error);
      }
      bootstraps := bootstraps + [one.value];
      k := k + 1;
    }
    return Ok(bootstraps);
  }
}
