/** crossvalidation.py: repeated k-fold division of a dataset. The dataset
    is read as an endless cycle; a repetition skips a random offset, then
    cuts `k` folds of `n / k` consecutive instances, and the last fold also
    takes the `n - k * (n / k)` instances that do not fill a fold. */
module CrossValidation {
  import opened Wrappers

  /** The exceptions a fold division raises: `int(n / 0)`, `randint(1, 0)`
      or lower (a fold size below 2), and `next` on the cycle of an empty
      dataset. */
  datatype FoldError = ZeroFolds | EmptyOffsetRange | StopIteration

  // ---------------------------------------------------------------------
  // Arithmetic on positions in the cycle

  /** A positive multiple of `n` is at least `n`: a nonlinear step the
      solver does not take alone inside the position arithmetic. */
  lemma MulAtLeast(d: int, n: int)
    requires n > 0 && d >= 1
    ensures d * n >= n
  {
  }

  /** The remainder is the one `r` with `y == q * n + r` and `0 <= r < n`. */
  lemma ModUnique(y: int, n: int, q: int, r: int)
    requires n > 0 && 0 <= r < n && y == q * n + r
    ensures y % n == r
  {
    var q', r' := y / n, y % n;
    assert y == q' * n + r';
    assert (q - q') * n == r' - r;
    if q - q' >= 1 {
      MulAtLeast(q - q', n);
    } else if q' - q >= 1 {
      MulAtLeast(q' - q, n);
    }
  }

  /** Moving `b` further along the cycle from `a` only depends on where `a`
      falls in the cycle. */
  lemma ModAdd(a: nat, b: nat, n: int)
    requires n > 0
    ensures (a + b) % n == (a % n + b) % n
  {
    var c := a % n + b;
    assert a == (a / n) * n + a % n;
    assert c == (c / n) * n + c % n;
    ModUnique(a + b, n, a / n + c / n, c % n);
  }

  /** Every item of a cycle of `n` items comes up within `n` steps from any
      position. */
  lemma ReachEveryPosition(pos: nat, i: nat, n: nat) returns (t: nat)
    requires i < n
    ensures t < n && (pos + t) % n == i
  {
    var r := pos % n;
    assert pos == (pos / n) * n + r;
    if r <= i {
      t := i - r;
      ModUnique(pos + t, n, pos / n, i);
    } else {
      t := n + i - r;
      assert pos + t == (pos / n + 1) * n + i;
      ModUnique(pos + t, n, pos / n + 1, i);
    }
  }

  // ---------------------------------------------------------------------
  // The cycle

  /** `itertools.cycle(items)`: `position` counts the calls of `next`. */
  class Cycle<T> {
    const items: seq<T>
    var position: nat

    constructor (items: seq<T>)
      ensures this.items == items && position == 0
    {
      this.items := items;
      position := 0;
    }

    /** `next(cycle)`: the item at the position, going round the items
        again after the last one; raises on an empty cycle. */
    method Next() returns (x: T)
      requires |items| > 0
      modifies this
      ensures position == old(position) + 1
      ensures x == items[old(position) % |items|]
    {
      x := items[position % |items|];
      position := position + 1;
    }
  }

  /** The `len` items the cycle of `ds` yields from position `start` on. */
  function Window<T>(ds: seq<T>, start: nat, len: nat): (w: seq<T>)
    requires |ds| > 0
    ensures |w| == len
  {
    seq(len, t requires 0 <= t < len => ds[(start + t) % |ds|])
  }

  // ---------------------------------------------------------------------
  // Fold division as a function

  /** `int(n / k)` for `n >= 0` and `k > 0`. */
  function FoldSize(n: nat, k: nat): (fs: nat)
    requires k > 0
    ensures k * fs <= n < k * fs + k
  {
    n / k
  }

  /** Fold `i`: `n / k` instances of the cycle after the offset and the
      earlier folds; the last fold also takes the remaining `n % k`. */
  function Fold<T>(ds: seq<T>, k: nat, offset: nat, i: nat): seq<T>
    requires |ds| > 0 && i < k
  {
    var fs := FoldSize(|ds|, k);
    Window(ds, offset + i * fs, if i == k - 1 then fs + (|ds| - k * fs) else fs)
  }

  /** `fold_division(ds, k, offset)`. */
  function FoldsOf<T>(ds: seq<T>, k: nat, offset: nat): (r: Result<seq<seq<T>>, FoldError>)
    ensures r.Err? <==> k == 0 || (|ds| == 0 && offset > 0)
    ensures r.Ok? ==> |r.value| == k
  {
    if k == 0 then Err(ZeroFolds)
    else if |ds| == 0 then
      if offset > 0 then Err(StopIteration) else Ok(seq(k, i => []))
    else Ok(seq(k, i requires 0 <= i < k => Fold(ds, k, offset, i)))
  }

  /** `get_repetition_offset`: a draw of `randint(1, n / k - 1)`; the draw
      is the oracle's answer. */
  function RepetitionOffset(n: nat, k: nat, draw: int): (r: Result<nat, FoldError>)
    requires k > 0 && FoldSize(n, k) >= 2 ==> 1 <= draw <= FoldSize(n, k) - 1
    ensures r.Err? <==> k == 0 || FoldSize(n, k) < 2
    ensures r.Ok? ==> 1 <= r.value < FoldSize(n, k) && r.value == draw
  {
    if k == 0 then Err(ZeroFolds)
    else if FoldSize(n, k) < 2 then Err(EmptyOffsetRange)
    else Ok(draw)
  }

  /** The draws `randint` can return for the repetitions after the first. */
  ghost predicate ValidOffsetDraws(n: nat, k: nat, draws: seq<int>) {
    forall rep :: 1 <= rep < |draws| ==>
      (k > 0 && FoldSize(n, k) >= 2 ==> 1 <= draws[rep] <= FoldSize(n, k) - 1)
  }

  /** `fold_division(ds, k, offset)` as a function of the offset. */
  function Division<T>(ds: seq<T>, k: nat): nat -> Result<seq<seq<T>>, FoldError> {
    (offset: nat) => FoldsOf(ds, k, offset)
  }

  /** The folds of repetition `rep` of a dataset of `n` instances, cut by
      `divide`: offset 0 for the first repetition, a drawn offset for the
      others. */
  function RepetitionFolds<T>(n: nat, k: nat, rep: nat, draws: seq<int>,
                              divide: nat -> Result<seq<seq<T>>, FoldError>): Result<seq<seq<T>>, FoldError>
    requires rep < |draws| && ValidOffsetDraws(n, k, draws)
  {
    if rep == 0 then divide(0)
    else
      match RepetitionOffset(n, k, draws[rep])
      case Err(e) => Err(e)
      case Ok(offset) => divide(offset)
  }

  /** `cross_validation_division` over the first `m` repetitions: their
      folds in order, or the first exception. */
  function RepetitionsPrefix<T>(n: nat, k: nat, draws: seq<int>,
                                divide: nat -> Result<seq<seq<T>>, FoldError>, m: nat): Result<seq<seq<seq<T>>>, FoldError>
    requires m <= |draws| && ValidOffsetDraws(n, k, draws)
  {
    if m == 0 then Ok([])
    else
      match RepetitionsPrefix(n, k, draws, divide, m - 1)
      case Err(e) => Err(e)
      case Ok(reps) =>
        match RepetitionFolds(n, k, m - 1, draws, divide)
        case Err(e) => Err(e)
        case Ok(folds) => Ok(reps + [folds])
  }

  /** The concatenation of the first `n` folds. */
  function Concat<T>(folds: seq<seq<T>>, n: nat): seq<T>
    requires n <= |folds|
  {
    if n == 0 then [] else Concat(folds, n - 1) + folds[n - 1]
  }

  /** The dataset read from position `r` of its cycle: `ds[r..] + ds[..r]`
      once `r` is taken modulo `|ds|`. */
  function Rotation<T>(ds: seq<T>, r: nat): seq<T>
    requires |ds| > 0
  {
    ds[r % |ds|..] + ds[..r % |ds|]
  }

  // ---------------------------------------------------------------------
  // Lemmas

  /** Consecutive stretches of the cycle join into one. */
  lemma WindowSplit<T>(ds: seq<T>, start: nat, a: nat, b: nat)
    requires |ds| > 0
    ensures Window(ds, start, a + b) == Window(ds, start, a) + Window(ds, start + a, b)
  {
    var w := Window(ds, start, a) + Window(ds, start + a, b);
    forall t | 0 <= t < a + b ensures Window(ds, start, a + b)[t] == w[t] {
      if t >= a {
        assert start + t == (start + a) + (t - a);
      }
    }
  }

  /** One full turn of the cycle from any position is the rotated dataset. */
  lemma FullTurnIsRotation<T>(ds: seq<T>, start: nat)
    requires |ds| > 0
    ensures Window(ds, start, |ds|) == Rotation(ds, start)
  {
    var n := |ds|;
    var r := start % n;
    assert start == (start / n) * n + r;
    forall t | 0 <= t < n ensures Window(ds, start, n)[t] == Rotation(ds, start)[t] {
      if t < n - r {
        ModUnique(start + t, n, start / n, r + t);
      } else {
        ModUnique(start + t, n, start / n + 1, t - (n - r));
      }
    }
  }

  /** Rotating by 0 changes nothing. */
  lemma RotationByZero<T>(ds: seq<T>)
    requires |ds| > 0
    ensures Rotation(ds, 0) == ds
  {
  }

  /** A rotation holds every instance as often as the dataset does. */
  lemma RotationPermutes<T>(ds: seq<T>, r: nat)
    requires |ds| > 0
    ensures multiset(Rotation(ds, r)) == multiset(ds)
  {
    var m := r % |ds|;
    var front, back := ds[..m], ds[m..];
    assert ds == front + back;
    SwapHalves(back, front);
  }

  /** Swapping the two halves of a sequence keeps its multiset (the step
      from `ds[..m] + ds[m..]` to a rotation). */
  lemma SwapHalves<T>(a: seq<T>, b: seq<T>)
    ensures multiset(a + b) == multiset(b + a)
  {
  }

  /** The first `i` folds, when none of them is the last, read the cycle from
      the offset on without gaps. */
  lemma {:induction false} FoldsPrefix<T>(ds: seq<T>, k: nat, offset: nat, i: nat)
    requires |ds| > 0 && 0 < k && i < k
    ensures FoldsOf(ds, k, offset).Ok? && i <= |FoldsOf(ds, k, offset).value|
    ensures Concat(FoldsOf(ds, k, offset).value, i) == Window(ds, offset, i * FoldSize(|ds|, k))
  {
    var fs := FoldSize(|ds|, k);
    if i > 0 {
      FoldsPrefix(ds, k, offset, i - 1);
      assert i * fs == (i - 1) * fs + fs;
      WindowSplit(ds, offset, (i - 1) * fs, fs);
    }
  }

  /** All `k` folds read the cycle for one full turn from the offset. */
  lemma FoldsConcatenate<T>(ds: seq<T>, k: nat, offset: nat)
    requires |ds| > 0 && k > 0
    ensures FoldsOf(ds, k, offset).Ok?
    ensures Concat(FoldsOf(ds, k, offset).value, k) == Window(ds, offset, |ds|)
  {
    var n := |ds|;
    var fs := FoldSize(n, k);
    var folds := FoldsOf(ds, k, offset).value;
    var a := (k - 1) * fs;
    assert k * fs == a + fs;
    var b := n - a;
    FoldsPrefix(ds, k, offset, k - 1);
    assert folds[k - 1] == Window(ds, offset + a, b);
    WindowSplit(ds, offset, a, b);
  }

  /** The first `k - 1` folds have `n / k` instances, the last one
      `n / k + n % k`. */
  lemma FoldSizes<T>(ds: seq<T>, k: nat, offset: nat)
    requires |ds| > 0 && k > 0
    ensures FoldsOf(ds, k, offset).Ok?
    ensures forall i :: 0 <= i < k - 1 ==> |FoldsOf(ds, k, offset).value[i]| == |ds| / k
    ensures |FoldsOf(ds, k, offset).value[k - 1]| == |ds| / k + |ds| % k
  {
    var n := |ds|;
    assert n == k * (n / k) + n % k;
  }

  /** Element `j` of fold `i` is the dataset element at position
      `offset + i * (n / k) + j`, counted around the cycle. */
  lemma FoldElements<T>(ds: seq<T>, k: nat, offset: nat, i: nat)
    requires |ds| > 0 && i < k
    ensures FoldsOf(ds, k, offset).Ok?
    ensures forall j :: 0 <= j < |FoldsOf(ds, k, offset).value[i]| ==>
      FoldsOf(ds, k, offset).value[i][j] == ds[(offset + i * FoldSize(|ds|, k) + j) % |ds|]
  {
  }

  /** Reading the folds in order gives one full turn of the cycle from the
      offset: every instance of the dataset lands in exactly one fold, as
      often as it occurs in the dataset, and with offset 0 the folds are the
      dataset cut in order. */
  lemma FoldsPartitionDataset<T>(ds: seq<T>, k: nat, offset: nat)
    requires |ds| > 0 && k > 0
    ensures FoldsOf(ds, k, offset).Ok?
    ensures Concat(FoldsOf(ds, k, offset).value, k) == Rotation(ds, offset)
    ensures multiset(Concat(FoldsOf(ds, k, offset).value, k)) == multiset(ds)
    ensures offset == 0 ==> Concat(FoldsOf(ds, k, offset).value, k) == ds
  {
    FoldsConcatenate(ds, k, offset);
    FullTurnIsRotation(ds, offset);
    RotationPermutes(ds, offset);
    RotationByZero(ds);
  }

  /** Repetitions come out in order: one list of folds per repetition, the
      first with offset 0, or the exception of the first failing one. */
  lemma {:induction false} RepetitionsInOrder<T>(n: nat, k: nat, draws: seq<int>,
                                                 divide: nat -> Result<seq<seq<T>>, FoldError>, m: nat)
    requires m <= |draws| && ValidOffsetDraws(n, k, draws)
    ensures RepetitionsPrefix(n, k, draws, divide, m).Ok? <==>
      forall rep :: 0 <= rep < m ==> RepetitionFolds(n, k, rep, draws, divide).Ok?
    ensures RepetitionsPrefix(n, k, draws, divide, m).Ok? ==>
      |RepetitionsPrefix(n, k, draws, divide, m).value| == m &&
      forall rep :: 0 <= rep < m ==>
        RepetitionFolds(n, k, rep, draws, divide) == Ok(RepetitionsPrefix(n, k, draws, divide, m).value[rep])
  {
    if m > 0 {
      RepetitionsInOrder(n, k, draws, divide, m - 1);
    }
  }

  /** The first repetition cuts at offset 0; a later one fails when `k` is
      zero or a fold would hold fewer than two instances, and otherwise cuts
      at an offset in [1, n / k - 1]. */
  lemma RepetitionOffsets<T>(n: nat, k: nat, rep: nat, draws: seq<int>,
                             divide: nat -> Result<seq<seq<T>>, FoldError>)
    requires rep < |draws| && ValidOffsetDraws(n, k, draws)
    ensures rep == 0 ==> RepetitionFolds(n, k, rep, draws, divide) == divide(0)
    ensures rep > 0 && k == 0 ==> RepetitionFolds(n, k, rep, draws, divide) == Err(ZeroFolds)
    ensures rep > 0 && k > 0 && n / k < 2 ==> RepetitionFolds(n, k, rep, draws, divide) == Err(EmptyOffsetRange)
    ensures rep > 0 && k > 0 && n / k >= 2 ==>
      1 <= draws[rep] < n / k &&
      RepetitionFolds(n, k, rep, draws, divide) == divide(draws[rep])
  {
  }

  /** Once a repetition fails, later ones do not change the error. */
  lemma {:induction false} FirstErrorStays<T>(n: nat, k: nat, draws: seq<int>,
                                              divide: nat -> Result<seq<seq<T>>, FoldError>, m: nat, m': nat)
    requires m <= m' <= |draws| && ValidOffsetDraws(n, k, draws)
    requires RepetitionsPrefix(n, k, draws, divide, m).Err?
    ensures RepetitionsPrefix(n, k, draws, divide, m') == RepetitionsPrefix(n, k, draws, divide, m)
    decreases m' - m
  {
    if m < m' {
      FirstErrorStays(n, k, draws, divide, m, m' - 1);
    }
  }

  /** The folds the loops of `fold_division` build: `k` stretches of `fs`
      instances, the last one extended by the `remaining` instances that
      follow, are the folds of `FoldsOf`. */
  lemma AssembleFolds<T>(ds: seq<T>, k: nat, offset: nat, folds: seq<seq<T>>, tail: seq<T>)
    requires |ds| > 0 && k > 0 && |folds| == k
    requires forall q :: 0 <= q < k ==> folds[q] == Window(ds, offset + q * FoldSize(|ds|, k), FoldSize(|ds|, k))
    requires tail == Window(ds, offset + k * FoldSize(|ds|, k), |ds| - k * FoldSize(|ds|, k))
    ensures FoldsOf(ds, k, offset) == Ok(folds[k - 1 := folds[k - 1] + tail])
  {
    var fs := FoldSize(|ds|, k);
    var expected := FoldsOf(ds, k, offset).value;
    var result := folds[k - 1 := folds[k - 1] + tail];
    forall q | 0 <= q < k ensures result[q] == expected[q] {
      if q == k - 1 {
        var start := offset + (k - 1) * fs;
        assert offset + k * fs == start + fs;
        WindowSplit(ds, start, fs, |ds| - k * fs);
      }
    }
    assert result == expected;
  }

  // ---------------------------------------------------------------------
  // The loops of crossvalidation.py

  /** `fold.append(next(circular_iterator))`, `count` times. */
  method AppendNext<T>(cursor: Cycle<T>, fold: seq<T>, count: nat) returns (r: seq<T>)
    requires |cursor.items| > 0
    modifies cursor
    ensures cursor.position == old(cursor.position) + count
    ensures r == fold + Window(cursor.items, old(cursor.position), count)
  {
    r := fold;
    var j := 0;
    while j < count
      invariant 0 <= j <= count
      invariant cursor.position == old(cursor.position) + j
      invariant r == fold + Window(cursor.items, old(cursor.position), j)
    {
      var x := cursor.Next();
      r := r + [x];
      j := j + 1;
    }
  }

  /** The shift loop: `next(circular_iterator)`, `count` times. */
  method Skip<T>(cursor: Cycle<T>, count: nat)
    requires |cursor.items| > 0
    modifies cursor
    ensures cursor.position == old(cursor.position) + count
  {
    var i := 0;
    while i < count
      invariant 0 <= i <= count && cursor.position == old(cursor.position) + i
    {
      var _ := cursor.Next();
      i := i + 1;
    }
  }

  /** The fold loop: `k` folds of `fs` consecutive items of the cycle. */
  method CutFolds<T>(cursor: Cycle<T>, k: nat, fs: nat) returns (folds: seq<seq<T>>)
    requires |cursor.items| > 0
    modifies cursor
    ensures cursor.position == old(cursor.position) + k * fs
    ensures |folds| == k
    ensures forall q :: 0 <= q < k ==> folds[q] == Window(cursor.items, old(cursor.position) + q * fs, fs)
  {
    folds := [];
    var i := 0;
    while i < k
      invariant 0 <= i <= k && |folds| == i
      invariant cursor.position == old(cursor.position) + i * fs
      invariant forall q :: 0 <= q < i ==> folds[q] == Window(cursor.items, old(cursor.position) + q * fs, fs)
    {
      var fold := AppendNext(cursor, [], fs);
      folds := folds + [fold];
      assert (i + 1) * fs == i * fs + fs;
      i := i + 1;
    }
  }

  /** `fold_division` with its cycle. */
  method FoldDivision<T>(ds: seq<T>, k: nat, offset: nat) returns (r: Result<seq<seq<T>>, FoldError>)
    ensures r == FoldsOf(ds, k, offset)
  {
    if k == 0 {
      return Err(ZeroFolds);
    }
    var n := |ds|;
    var cursor := new Cycle(ds);
    var fs := n / k;
    if n == 0 {
      if offset > 0 {
        return Err(StopIteration);
      }
      return Ok(seq(k, i => []));
    }
    Skip(cursor, offset);
    var folds := CutFolds(cursor, k, fs);
    var remaining := n - k * fs;
    ghost var before := folds;
    var last := AppendNext(cursor, folds[k - 1], remaining);
    folds := folds[k - 1 := last];
    AssembleFolds(ds, k, offset, before, Window(ds, offset + k * fs, remaining));
    return Ok(folds);
  }

  /** `cross_validation_division`: `r` repetitions, repetition `rep > 0`
      offset by `draws[rep]`. */
  method CrossValidationDivision<T>(ds: seq<T>, k: nat, r: nat, draws: seq<int>)
      returns (res: Result<seq<seq<seq<T>>>, FoldError>)
    requires r <= |draws| && ValidOffsetDraws(|ds|, k, draws)
    ensures res == RepetitionsPrefix(|ds|, k, draws, Division(ds, k), r)
  {
    var repetitions: seq<seq<seq<T>>> := [];
    var rep := 0;
    while rep < r
      invariant 0 <= rep <= r
      invariant RepetitionsPrefix(|ds|, k, draws, Division(ds, k), rep) == Ok(repetitions)
    {
      var offset := 0;
      if rep > 0 {
        var o := RepetitionOffset(|ds|, k, draws[rep]);
        if o.Err? {
          FirstErrorStays(|ds|, k, draws, Division(ds, k), rep + 1, r);
          return Err(o.error);
        }
        offset := o.value;
      }
      var folds := FoldDivision(ds, k, offset);
      if folds.Err? {
        FirstErrorStays(|ds|, k, draws, Division(ds, k), rep + 1, r);
        return Err(folds.error);
      }
      repetitions := repetitions + [folds.value];
      rep := rep + 1;
    }
    return Ok(repetitions);
  }
}
