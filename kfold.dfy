/** `kfold_split` of the dataset splitter (functions/dataset_splitter/app.py):
    balanced fold sizes, and for each fold a contiguous block of the (possibly
    shuffled) index array as validation set with everything around it as
    training set.

    The random generator is injected: `shuffler(n, seed)` is the arrangement of
    `0..n-1` that the seeded generator leaves in the index array, so the folds
    are a function of `(n, k, shuffle, seed)` alone. */
module KFoldSplitter {
  import opened Wrappers

  /** One element the generator yields: `(train_indices, validation_indices)`. */
  datatype Fold = Fold(train: seq<int>, validation: seq<int>)

  /** What the generator raises on its first step, in the order it checks:
      when shuffling, `np.random.default_rng` of a negative seed raises
      ValueError; then `n // 0` raises ZeroDivisionError, and `np.full` of a
      negative size raises ValueError. */
  datatype SplitError = NegativeSeed | ZeroDivision | NegativeDimensions

  /** `np.arange(n)`. */
  function Arange(n: nat): seq<int> {
    seq(n, i => i)
  }

  /** `p` is an arrangement of `0..n-1`. */
  ghost predicate IsPermutation(p: seq<int>, n: nat) {
    multiset(p) == multiset(Arange(n))
  }

  /** `s` holds no value twice. */
  ghost predicate Distinct(s: seq<int>) {
    forall i, j :: 0 <= i < j < |s| ==> s[i] != s[j]
  }

  lemma {:induction false} DistinctCountsOnce(s: seq<int>, v: int)
    requires Distinct(s)
    ensures multiset(s)[v] <= 1
  {
    if s != [] {
      var t := s[..|s| - 1];
      assert s == t + [s[|s| - 1]];
      assert Distinct(t);
      DistinctCountsOnce(t, v);
      if v == s[|s| - 1] {
        assert v !in t;
      }
    }
  }

  /** A permutation of `0..n-1` has length `n`, holds exactly the values
      `0..n-1`, and holds each of them once. */
  lemma PermutationFacts(p: seq<int>, n: nat)
    requires IsPermutation(p, n)
    ensures |p| == n
    ensures forall i :: 0 <= i < |p| ==> 0 <= p[i] < n
    ensures forall v :: 0 <= v < n ==> v in p
    ensures Distinct(p)
  {
    assert |multiset(p)| == |multiset(Arange(n))|;
    forall i | 0 <= i < |p|
      ensures 0 <= p[i] < n
    {
      assert p[i] in multiset(Arange(n));
    }
    forall v | 0 <= v < n
      ensures v in p
    {
      assert Arange(n)[v] == v;
      assert v in multiset(Arange(n));
    }
    forall i, j | 0 <= i < j < |p|
      ensures p[i] != p[j]
    {
      if p[i] == p[j] {
        var v := p[i];
        assert p == p[..j] + [p[j]] + p[j + 1..];
        assert p[..j][i] == v;
        assert multiset(p)[v] >= 2;
        assert Distinct(Arange(n));
        DistinctCountsOnce(Arange(n), v);
        assert false;
      }
    }
  }

  function Sum(s: seq<nat>): nat {
    if s == [] then 0 else Sum(s[..|s| - 1]) + s[|s| - 1]
  }

  /** `fold_sizes`: `n_splits` entries of `n // n_splits`, the first
      `n % n_splits` of them one larger. */
  function FoldSizes(n: nat, k: nat): seq<nat>
    requires k > 0
  {
    seq(k, i => n / k + if i < n % k then 1 else 0)
  }

  lemma FoldSizesPrefixSum(n: nat, k: nat, m: nat)
    requires 0 < k && m <= k
    ensures Sum(FoldSizes(n, k)[..m]) == m * (n / k) + if m < n % k then m else n % k
  {
    PrefixSumOf(FoldSizes(n, k), n / k, n % k, m);
  }

  /** The first `m` of sizes that are `q`, the first `r` of them one larger,
      add up to `m * q` plus the larger ones among them. */
  lemma {:induction false} PrefixSumOf(s: seq<nat>, q: nat, r: nat, m: nat)
    requires m <= |s| && forall i :: 0 <= i < |s| ==> s[i] == q + if i < r then 1 else 0
    ensures Sum(s[..m]) == m * q + if m < r then m else r
  {
    if m > 0 {
      assert s[..m][..m - 1] == s[..m - 1];
      PrefixSumOf(s, q, r, m - 1);
      assert m * q == (m - 1) * q + q;
    }
  }

  /** The fold sizes have `k` entries, each `n // k` or one more, differing by
      at most one, and they add up to `n`. */
  lemma FoldSizesBalanced(n: nat, k: nat)
    requires k > 0
    ensures |FoldSizes(n, k)| == k
    ensures forall i :: 0 <= i < k ==> FoldSizes(n, k)[i] in {n / k, n / k + 1}
    ensures forall i, j :: 0 <= i < k && 0 <= j < k ==> FoldSizes(n, k)[i] <= FoldSizes(n, k)[j] + 1
    ensures forall i, j :: 0 <= i <= j < k ==> FoldSizes(n, k)[j] <= FoldSizes(n, k)[i]
    ensures Sum(FoldSizes(n, k)) == n
  {
    FoldSizesPrefixSum(n, k, k);
    assert FoldSizes(n, k)[..k] == FoldSizes(n, k);
  }

  /** Where fold `i`'s block starts: the sizes of the folds before it. */
  function Offset(sizes: seq<nat>, i: nat): nat
    requires i <= |sizes|
  {
    Sum(sizes[..i])
  }

  lemma OffsetStep(sizes: seq<nat>, i: nat)
    requires i < |sizes|
    ensures Offset(sizes, i + 1) == Offset(sizes, i) + sizes[i]
  {
    assert sizes[..i + 1][..i] == sizes[..i];
  }

  lemma {:induction false} OffsetMonotone(sizes: seq<nat>, i: nat, j: nat)
    requires i <= j <= |sizes|
    ensures Offset(sizes, i) <= Offset(sizes, j)
    decreases j - i
  {
    if i < j {
      OffsetStep(sizes, j - 1);
      OffsetMonotone(sizes, i, j - 1);
    }
  }

  /** Each block ends no later than the total. */
  lemma BlockInRange(sizes: seq<nat>, i: nat)
    requires i < |sizes|
    ensures Offset(sizes, i) + sizes[i] <= Sum(sizes)
  {
    OffsetStep(sizes, i);
    OffsetMonotone(sizes, i + 1, |sizes|);
    assert sizes[..|sizes|] == sizes;
  }

  /** Python's `s[a:b]` for non-negative bounds: both clamp to the length, and a
      reversed range is empty. */
  function Slice(s: seq<int>, a: nat, b: nat): seq<int> {
    if a >= |s| || b <= a then [] else s[a..if b < |s| then b else |s|]
  }

  /** Fold `i`: validation is `indices[start:stop]` and training is
      `indices[:start] + indices[stop:]`, with `start` the running offset and
      `stop = start + fold_sizes[i]`. */
  function FoldAt(order: seq<int>, sizes: seq<nat>, i: nat): Fold
    requires i < |sizes|
  {
    Cut(order, Offset(sizes, i), Offset(sizes, i) + sizes[i])
  }

  /** The fold whose validation block is `order[start:stop]`. */
  function Cut(order: seq<int>, start: nat, stop: nat): Fold {
    Fold(Slice(order, 0, start) + Slice(order, stop, |order|), Slice(order, start, stop))
  }

  function Folds(order: seq<int>, sizes: seq<nat>): seq<Fold> {
    seq(|sizes|, i requires 0 <= i < |sizes| => FoldAt(order, sizes, i))
  }

  /** The index array before the folds are cut: shuffled in place by the seeded
      generator, or left in `np.arange` order. */
  function Order(n: nat, shuffle: bool, seed: int, shuffler: (nat, int) -> seq<int>): seq<int> {
    if shuffle then shuffler(n, seed) else Arange(n)
  }

  /** Everything `kfold_split` yields for `n` samples, or the exception it
      raises on its first step. */
  function KFold(nSplits: int, n: nat, shuffle: bool, seed: int,
                 shuffler: (nat, int) -> seq<int>): (r: Result<seq<Fold>, SplitError>)
    ensures r.Success? <==> nSplits > 0 && (shuffle ==> seed >= 0)
    ensures r.Success? ==> |r.value| == nSplits
    ensures shuffle && seed < 0 ==> r == Failure(NegativeSeed)
    ensures (!shuffle || seed >= 0) && nSplits == 0 ==> r == Failure(ZeroDivision)
    ensures (!shuffle || seed >= 0) && nSplits < 0 ==> r == Failure(NegativeDimensions)
  {
    if shuffle && seed < 0 then Failure(NegativeSeed)
    else if nSplits == 0 then Failure(ZeroDivision)
    else if nSplits < 0 then Failure(NegativeDimensions)
    else Success(Folds(Order(n, shuffle, seed, shuffler), FoldSizes(n, nSplits)))
  }

  /** Once the sizes add up to the number of indices, no slice clamps: fold
      `i`'s validation set is the block `[start, stop)` of the index array and
      its training set is what lies before and after that block. */
  lemma FoldIsBlock(order: seq<int>, sizes: seq<nat>, i: nat)
    requires |order| == Sum(sizes) && i < |sizes|
    ensures Offset(sizes, i) + sizes[i] <= |order|
    ensures var start, stop := Offset(sizes, i), Offset(sizes, i) + sizes[i];
            FoldAt(order, sizes, i) == Fold(order[..start] + order[stop..], order[start..stop])
  {
    BlockInRange(sizes, i);
    var start, stop := Offset(sizes, i), Offset(sizes, i) + sizes[i];
    SliceInRange(order, 0, start);
    SliceInRange(order, start, stop);
    SliceInRange(order, stop, |order|);
  }

  /** Within bounds, `Slice` is plain slicing. */
  lemma SliceInRange(s: seq<int>, a: nat, b: nat)
    requires a <= b <= |s|
    ensures Slice(s, a, b) == s[a..b]
  {
  }

  /** The validation sets of `folds`, concatenated in fold order. */
  function ConcatValidations(folds: seq<Fold>): seq<int> {
    if folds == [] then [] else ConcatValidations(folds[..|folds| - 1]) + folds[|folds| - 1].validation
  }

  lemma {:induction false} ConcatValidationsPrefix(order: seq<int>, sizes: seq<nat>, i: nat)
    requires |order| == Sum(sizes) && i <= |sizes|
    ensures Offset(sizes, i) <= |order|
    ensures ConcatValidations(Folds(order, sizes)[..i]) == order[..Offset(sizes, i)]
  {
    if i == 0 {
      assert Folds(order, sizes)[..0] == [];
    } else {
      ConcatValidationsPrefix(order, sizes, i - 1);
      FoldIsBlock(order, sizes, i - 1);
      OffsetStep(sizes, i - 1);
      assert Folds(order, sizes)[..i][..i - 1] == Folds(order, sizes)[..i - 1];
      assert order[..Offset(sizes, i)] == order[..Offset(sizes, i - 1)] + order[Offset(sizes, i - 1)..Offset(sizes, i)];
    }
  }

  /** Validation coverage: the validation blocks, concatenated in fold order,
      give back the whole index array. */
  lemma ValidationsReassemble(order: seq<int>, sizes: seq<nat>)
    requires |order| == Sum(sizes)
    ensures ConcatValidations(Folds(order, sizes)) == order
  {
    ConcatValidationsPrefix(order, sizes, |sizes|);
    assert Folds(order, sizes)[..|sizes|] == Folds(order, sizes);
    assert sizes[..|sizes|] == sizes;
  }

  /** The block that holds position `pos`. */
  lemma {:induction false} FindBlock(sizes: seq<nat>, pos: nat) returns (i: nat)
    requires pos < Sum(sizes)
    ensures i < |sizes| && Offset(sizes, i) <= pos < Offset(sizes, i) + sizes[i]
  {
    var last := |sizes| - 1;
    OffsetStep(sizes, last);
    assert sizes[..last + 1] == sizes;
    if pos >= Offset(sizes, last) {
      i := last;
    } else {
      var prefix := sizes[..last];
      assert Sum(prefix) == Offset(sizes, last);
      i := FindBlock(prefix, pos);
      assert prefix[..i] == sizes[..i];
      assert prefix[..i + 1] == sizes[..i + 1];
    }
  }

  /** Some fold validates index `x`. */
  ghost predicate Validated(folds: seq<Fold>, x: int) {
    exists i :: 0 <= i < |folds| && x in folds[i].validation
  }

  /** With distinct indices, the value at position `p` is validated by fold `a`
      only if `p` lies in fold `a`'s block. */
  lemma ValidatedOnlyInOwnBlock(order: seq<int>, sizes: seq<nat>, a: nat, p: nat)
    requires |order| == Sum(sizes) && Distinct(order) && a < |sizes| && p < |order|
    requires order[p] in Folds(order, sizes)[a].validation
    ensures Offset(sizes, a) <= p < Offset(sizes, a) + sizes[a]
  {
    FoldIsBlock(order, sizes, a);
    var block := order[Offset(sizes, a)..Offset(sizes, a) + sizes[a]];
    var q :| 0 <= q < |block| && block[q] == order[p];
    assert order[Offset(sizes, a) + q] == order[p];
  }

  /** Blocks of different folds do not overlap. */
  lemma BlocksDisjoint(sizes: seq<nat>, a: nat, b: nat, p: nat)
    requires a < |sizes| && b < |sizes|
    requires Offset(sizes, a) <= p < Offset(sizes, a) + sizes[a]
    requires Offset(sizes, b) <= p < Offset(sizes, b) + sizes[b]
    ensures a == b
  {
    if a < b {
      OffsetStep(sizes, a);
      OffsetMonotone(sizes, a + 1, b);
    } else if b < a {
      OffsetStep(sizes, b);
      OffsetMonotone(sizes, b + 1, a);
    }
  }

  /** When the index array is a permutation of `0..n-1`, every index lies in
      the validation set of exactly one fold. */
  lemma ValidationExactlyOnce(order: seq<int>, n: nat, sizes: seq<nat>, x: int)
    requires IsPermutation(order, n) && Sum(sizes) == n && 0 <= x < n
    ensures Validated(Folds(order, sizes), x)
    ensures forall i, j ::
              (0 <= i < |sizes| && 0 <= j < |sizes| &&
               x in Folds(order, sizes)[i].validation && x in Folds(order, sizes)[j].validation) ==> i == j
  {
    var p := PositionOf(order, n, x);
    ValidatedAt(order, sizes, p);
    forall a, b | 0 <= a < |sizes| && 0 <= b < |sizes| &&
                  x in Folds(order, sizes)[a].validation && x in Folds(order, sizes)[b].validation
      ensures a == b
    {
      OnlyOneValidates(order, sizes, a, b, p);
    }
  }

  /** Where `x` sits in an arrangement of `0..n-1`, which holds no value twice. */
  lemma PositionOf(order: seq<int>, n: nat, x: int) returns (p: nat)
    requires IsPermutation(order, n) && 0 <= x < n
    ensures p < |order| == n && order[p] == x && Distinct(order)
  {
    PermutationFacts(order, n);
    assert x in order;
    p :| 0 <= p < |order| && order[p] == x;
  }

  /** The value at position `p` is validated by the fold whose block holds `p`. */
  lemma ValidatedAt(order: seq<int>, sizes: seq<nat>, p: nat)
    requires |order| == Sum(sizes) && p < |order|
    ensures Validated(Folds(order, sizes), order[p])
  {
    var i := FindBlock(sizes, p);
    FoldIsBlock(order, sizes, i);
    assert order[Offset(sizes, i)..Offset(sizes, i) + sizes[i]][p - Offset(sizes, i)] == order[p];
    assert order[p] in Folds(order, sizes)[i].validation;
  }

  /** With distinct indices, two folds validating the value at position `p`
      are the same fold. */
  lemma OnlyOneValidates(order: seq<int>, sizes: seq<nat>, a: nat, b: nat, p: nat)
    requires |order| == Sum(sizes) && Distinct(order) && a < |sizes| && b < |sizes| && p < |order|
    requires order[p] in Folds(order, sizes)[a].validation && order[p] in Folds(order, sizes)[b].validation
    ensures a == b
  {
    ValidatedOnlyInOwnBlock(order, sizes, a, p);
    ValidatedOnlyInOwnBlock(order, sizes, b, p);
    BlocksDisjoint(sizes, a, b, p);
  }

  /** Train is the complement: within each fold, training and validation share
      no index, their lengths add up to `n`, and together they are a
      permutation of `0..n-1`. */
  lemma TrainIsComplement(order: seq<int>, n: nat, sizes: seq<nat>, i: nat)
    requires IsPermutation(order, n) && Sum(sizes) == n && i < |sizes|
    ensures var f := Folds(order, sizes)[i];
            && |f.train| + |f.validation| == n
            && IsPermutation(f.train + f.validation, n)
            && forall x :: x in f.train ==> x !in f.validation
  {
    PermutationFacts(order, n);
    FoldIsBlock(order, sizes, i);
    var start, stop := Offset(sizes, i), Offset(sizes, i) + sizes[i];
    var f := Folds(order, sizes)[i];
    assert f.train == order[..start] + order[stop..] && f.validation == order[start..stop];
    BlockRearranges(order, start, stop);
    BlockApart(order, start, stop);
  }

  /** What lies around a block, followed by the block, rearranges the whole. */
  lemma BlockRearranges(s: seq<int>, start: nat, stop: nat)
    requires start <= stop <= |s|
    ensures multiset(s[..start] + s[stop..] + s[start..stop]) == multiset(s)
  {
    assert s == s[..start] + s[start..stop] + s[stop..];
  }

  /** Without repeated values, nothing around a block occurs in it. */
  lemma BlockApart(s: seq<int>, start: nat, stop: nat)
    requires start <= stop <= |s| && Distinct(s)
    ensures forall x :: x in s[..start] + s[stop..] ==> x !in s[start..stop]
  {
    forall x | x in s[..start] + s[stop..]
      ensures x !in s[start..stop]
    {
      var k :| 0 <= k < |s[..start] + s[stop..]| && (s[..start] + s[stop..])[k] == x;
      var a := if k < start then k else k - start + stop;
      assert s[a] == x;
      forall m | 0 <= m < stop - start
        ensures s[start..stop][m] != x
      {
        assert s[start..stop][m] == s[start + m];
      }
    }
  }

  /** Where fold `i`'s block starts: `i * (n // k)` plus one for each earlier
      fold that got an extra element. */
  lemma OffsetOfFold(n: nat, k: nat, i: nat)
    requires 0 < k && i <= k
    ensures Offset(FoldSizes(n, k), i) == i * (n / k) + if i < n % k then i else n % k
  {
    FoldSizesPrefixSum(n, k, i);
  }

  /** Without shuffling, fold `i` validates the consecutive indices of its
      block, in increasing order. */
  lemma UnshuffledValidation(n: nat, k: nat, i: nat)
    requires 0 < k && i < k
    ensures var start := i * (n / k) + (if i < n % k then i else n % k);
            Folds(Arange(n), FoldSizes(n, k))[i].validation ==
              seq(FoldSizes(n, k)[i], j => start + j)
  {
    var sizes := FoldSizes(n, k);
    FoldSizesBalanced(n, k);
    OffsetOfFold(n, k, i);
    FoldIsBlock(Arange(n), sizes, i);
  }

  /** Ten samples in five folds without shuffling: every fold validates two
      samples and trains on eight; fold 0 validates [0, 1] and fold 4 [8, 9]. */
  lemma TenSamplesFiveFolds()
    ensures var folds := KFold(5, 10, false, 42, (n: nat, seed: int) => Arange(n));
            && folds.Success? && |folds.value| == 5
            && folds.value[0].validation == [0, 1]
            && folds.value[4].validation == [8, 9]
            && forall i :: 0 <= i < 5 ==> |folds.value[i].validation| == 2 && |folds.value[i].train| == 8
  {
    UnshuffledValidation(10, 5, 0);
    UnshuffledValidation(10, 5, 4);
    forall i | 0 <= i < 5
      ensures |Folds(Arange(10), FoldSizes(10, 5))[i].validation| == 2
      ensures |Folds(Arange(10), FoldSizes(10, 5))[i].train| == 8
    {
      EvenFolds(10, 5, i);
    }
  }

  /** When `k` divides `n`, every unshuffled fold validates `n / k` samples
      and trains on the rest. */
  lemma EvenFolds(n: nat, k: nat, i: nat)
    requires 0 < k && n % k == 0 && i < k
    ensures |Folds(Arange(n), FoldSizes(n, k))[i].validation| == n / k
    ensures |Folds(Arange(n), FoldSizes(n, k))[i].train| == n - n / k
  {
    assert IsPermutation(Arange(n), n);
    FoldSizesBalanced(n, k);
    FoldIsBlock(Arange(n), FoldSizes(n, k), i);
    TrainIsComplement(Arange(n), n, FoldSizes(n, k), i);
  }

  /** More folds than samples: fold `i < n` validates one index, and each of
      the trailing `k - n` folds validates nothing and trains on all `n`. */
  lemma MoreFoldsThanSamples(order: seq<int>, n: nat, k: nat, i: nat)
    requires |order| == n < k && i < k
    ensures i < n ==> |Folds(order, FoldSizes(n, k))[i].validation| == 1
    ensures n <= i ==> Folds(order, FoldSizes(n, k))[i] == Fold(order, [])
  {
    var sizes := FoldSizes(n, k);
    var q := n / k;
    assert q == 0 && n % k == n by {
      assert n == k * q + n % k;
    }
    assert sizes[i] == if i < n then 1 else 0;
    FoldSizesPrefixSum(n, k, k);
    assert sizes[..k] == sizes;
    OffsetOfFold(n, k, i);
    assert i * q == 0;
    assert Offset(sizes, i) == if i < n then i else n;
    FoldIsBlock(order, sizes, i);
  }

  /** Everything the generator promises, for a fold count it accepts: `k`
      folds, every index validated by exactly one of them, and each fold's
      training set the complement of its validation set. Repeated calls with
      the same `(n, k, seed)` give the same folds because `KFold` is a
      function of those alone. */
  lemma KFoldPartitions(nSplits: int, n: nat, shuffle: bool, seed: int,
                        shuffler: (nat, int) -> seq<int>)
    requires nSplits > 0
    requires shuffle ==> seed >= 0 && IsPermutation(shuffler(n, seed), n)
    ensures var r := KFold(nSplits, n, shuffle, seed, shuffler);
            && r.Success? && |r.value| == nSplits
            && ConcatValidations(r.value) == Order(n, shuffle, seed, shuffler)
            && (forall x :: 0 <= x < n ==> Validated(r.value, x))
            && (forall i :: 0 <= i < nSplits ==>
                  |r.value[i].train| + |r.value[i].validation| == n &&
                  IsPermutation(r.value[i].train + r.value[i].validation, n))
  {
    var order := Order(n, shuffle, seed, shuffler);
    var sizes := FoldSizes(n, nSplits);
    assert IsPermutation(order, n);
    FoldSizesBalanced(n, nSplits);
    ValidationsReassemble(order, sizes);
    forall x | 0 <= x < n
      ensures Validated(Folds(order, sizes), x)
    {
      ValidationExactlyOnce(order, n, sizes, x);
    }
    forall i | 0 <= i < nSplits
      ensures |Folds(order, sizes)[i].train| + |Folds(order, sizes)[i].validation| == n
      ensures IsPermutation(Folds(order, sizes)[i].train + Folds(order, sizes)[i].validation, n)
    {
      TrainIsComplement(order, n, sizes, i);
    }
  }

  /** `rng.shuffle(indices)` on the `np.arange` array: the generator's
      arrangement `p` is applied in place. */
  method ShuffleInPlace(indices: array<int>, p: seq<int>)
    requires indices[..] == Arange(indices.Length)
    requires IsPermutation(p, indices.Length)
    modifies indices
    ensures indices[..] == p
  {
    PermutationFacts(p, indices.Length);
    forall i | 0 <= i < indices.Length {
      indices[i] := indices[p[i]];
    }
  }

  /** `np.full(n_splits, n // n_splits)` followed by `fold_sizes[:n % n_splits] += 1`. */
  method NewFoldSizes(n: nat, nSplits: nat) returns (foldSizes: array<nat>)
    requires nSplits > 0
    ensures fresh(foldSizes)
    ensures foldSizes[..] == FoldSizes(n, nSplits)
  {
    foldSizes := new nat[nSplits](_ => n / nSplits);
    for i := 0 to n % nSplits
      invariant forall j :: 0 <= j < nSplits ==> foldSizes[j] == n / nSplits + if j < i then 1 else 0
    {
      foldSizes[i] := foldSizes[i] + 1;
    }
  }

  /** `kfold_split(n_splits, lines, shuffle, random_state)`, run to exhaustion.
      The folds depend on `lines` only through its length. */
  method KFoldSplit(nSplits: int, lines: seq<string>, shuffle: bool, randomState: int,
                    shuffler: (nat, int) -> seq<int>)
    returns (r: Result<seq<Fold>, SplitError>)
    requires shuffle && randomState >= 0 ==> IsPermutation(shuffler(|lines|, randomState), |lines|)
    ensures r == KFold(nSplits, |lines|, shuffle, randomState, shuffler)
  {
    var n := |lines|;
    var indices := new int[n](i => i);
    if shuffle {
      if randomState < 0 {
        return Failure(NegativeSeed);
      }
      ShuffleInPlace(indices, shuffler(n, randomState));
    }
    if nSplits == 0 {
      return Failure(ZeroDivision);
    } else if nSplits < 0 {
      return Failure(NegativeDimensions);
    }
    var foldSizes := NewFoldSizes(n, nSplits);
    assert indices[..] == Order(n, shuffle, randomState, shuffler);
    var folds := CutFolds(indices[..], foldSizes[..]);
    return Success(folds);
  }

  /** The loop over `fold_sizes`: each fold validates the next block of
      `fold_size` indices and trains on everything before and after it. */
  method CutFolds(order: seq<int>, sizes: seq<nat>) returns (folds: seq<Fold>)
    ensures folds == Folds(order, sizes)
  {
    var current: nat := 0;
    folds := [];
    for f := 0 to |sizes|
      invariant current == Offset(sizes, f)
      invariant folds == Folds(order, sizes)[..f]
    {
      var start, stop := current, current + sizes[f];
      NextFold(order, sizes, f, start, stop);
      folds := folds + [Cut(order, start, stop)];
      current := stop;
    }
    assert Folds(order, sizes)[..|sizes|] == Folds(order, sizes);
  }

  /** The first `i + 1` folds are the first `i` and the fold cut from the
      block that starts at the running offset. */
  lemma NextFold(order: seq<int>, sizes: seq<nat>, i: nat, start: nat, stop: nat)
    requires i < |sizes| && start == Offset(sizes, i) && stop == start + sizes[i]
    ensures Offset(sizes, i + 1) == stop
    ensures Folds(order, sizes)[..i + 1] == Folds(order, sizes)[..i] + [Cut(order, start, stop)]
  {
    OffsetStep(sizes, i);
    PrefixStep(Folds(order, sizes), i);
  }

  lemma PrefixStep<T>(s: seq<T>, i: nat)
    requires i < |s|
    ensures s[..i + 1] == s[..i] + [s[i]]
  {
  }
}
