/** The dataset splitter's handler (functions/dataset_splitter/app.py): it
    reads the records, counts their classes, cuts them into folds and, fold by
    fold, writes the training and validation records and appends a descriptor
    of the fold.

    Storage is abstracted: the records read are a parameter, and the writes
    are returned as a log of (path, records) pairs in the order they happen. */
module DatasetSplitter {
  import opened Wrappers
  import opened Strings
  import opened PosixPath
  import opened KFoldSplitter
  import opened ClassCounter

  /** The `ValueError` raised by `validate_enum`. */
  datatype EnumError<T> = NotAllowed(name: string, allowedValues: seq<T>)

  /** `validate_enum(value, allowed_values, name)`: the value itself when it is
      one of the allowed values, otherwise the error naming the parameter. */
  function ValidateEnum<T(==)>(value: T, allowedValues: seq<T>, name: string): (r: Result<T, EnumError<T>>)
    ensures r.Success? <==> value in allowedValues
    ensures r.Success? ==> r.value == value
    ensures r.Failure? ==> r.error == NotAllowed(name, allowedValues)
  {
    if value !in allowedValues then Failure(NotAllowed(name, allowedValues)) else Success(value)
  }

  /** `[lines[i] for i in indices]`: the image of the indices under `lines[_]`. */
  function Pick(lines: seq<string>, indices: seq<int>): (r: seq<string>)
    requires IndicesBelow(indices, |lines|)
    ensures |r| == |indices| && forall j :: 0 <= j < |indices| ==> r[j] == lines[indices[j]]
  {
    ImageAt(At(lines), indices);
    Image(At(lines), indices)
  }

  /** `[f(i) for i in s]`, for a total `f`. */
  function Image(f: int -> string, s: seq<int>): seq<string> {
    if s == [] then [] else [f(s[0])] + Image(f, s[1..])
  }

  lemma {:induction false} ImageAt(f: int -> string, s: seq<int>)
    ensures |Image(f, s)| == |s| && forall j :: 0 <= j < |s| ==> Image(f, s)[j] == f(s[j])
  {
    if s != [] {
      ImageAt(f, s[1..]);
    }
  }

  lemma {:induction false} ImageConcat(f: int -> string, a: seq<int>, b: seq<int>)
    ensures Image(f, a + b) == Image(f, a) + Image(f, b)
  {
    if a != [] {
      assert (a + b)[1..] == a[1..] + b;
      ImageConcat(f, a[1..], b);
    } else {
      assert a + b == b;
    }
  }

  lemma Splice<T>(s: seq<T>, k: nat)
    requires k < |s|
    ensures s == s[..k] + ([s[k]] + s[k + 1..])
  {
  }

  lemma RemoveAt<T>(s: seq<T>, k: nat)
    requires k < |s|
    ensures multiset(s[..k] + s[k + 1..]) == multiset(s) - multiset{s[k]}
  {
    assert s == s[..k] + [s[k]] + s[k + 1..];
  }

  /** Removing equal elements from sequences with equal multisets leaves
      equal multisets. */
  lemma RemoveMatching<T>(a: seq<T>, b: seq<T>, k: nat)
    requires multiset(a) == multiset(b) && |a| > 0 && k < |b| && b[k] == a[0]
    ensures multiset(a[1..]) == multiset(b[..k] + b[k + 1..])
  {
    RemoveAt(b, k);
    assert a == [a[0]] + a[1..];
  }

  /** Taking index `k` out of `b` takes its record out of the image. */
  lemma ImageRemove(f: int -> string, b: seq<int>, k: nat)
    requires k < |b|
    ensures multiset(Image(f, b)) == multiset{f(b[k])} + multiset(Image(f, b[..k] + b[k + 1..]))
  {
    var left, x, right := b[..k], b[k], b[k + 1..];
    Splice(b, k);
    ImageConcat(f, left, [x] + right);
    ImageConcat(f, [x], right);
    ImageConcat(f, left, right);
    assert Image(f, [x]) == [f(x)] by {
      assert [x][1..] == [];
    }
  }

  /** Mapping index sequences with the same multiset of indices gives the same
      multiset of records. */
  lemma {:induction false} ImageMultiset(f: int -> string, a: seq<int>, b: seq<int>)
    requires multiset(a) == multiset(b)
    ensures multiset(Image(f, a)) == multiset(Image(f, b))
    decreases |a|
  {
    if a == [] {
      assert |multiset(b)| == 0;
    } else {
      var x := a[0];
      assert x in multiset(b);
      var k :| 0 <= k < |b| && b[k] == x;
      var rest := b[..k] + b[k + 1..];
      RemoveMatching(a, b, k);
      ImageMultiset(f, a[1..], rest);
      ImageRemove(f, b, k);
      assert Image(f, a) == [f(x)] + Image(f, a[1..]);
    }
  }

  /** Every index in `indices` is a valid position in a list of `n` records. */
  predicate IndicesBelow(indices: seq<int>, n: int) {
    forall j :: 0 <= j < |indices| ==> 0 <= indices[j] < n
  }

  /** Both index sequences of `fold` are valid positions among `n` records. */
  predicate FoldInRange(fold: Fold, n: int) {
    IndicesBelow(fold.train, n) && IndicesBelow(fold.validation, n)
  }

  /** One element `split_lines` yields: `(fold_idx, train_lines, validation_lines)`. */
  datatype LineFold = LineFold(foldIdx: nat, trainLines: seq<string>, validationLines: seq<string>)

  lemma FoldIndicesInRange(lines: seq<string>, nSplits: int, randomState: int,
                           shuffler: (nat, int) -> seq<int>, folds: seq<Fold>)
    requires IsPermutation(shuffler(|lines|, randomState), |lines|)
    requires KFold(nSplits, |lines|, true, randomState, shuffler) == Success(folds)
    ensures forall i :: 0 <= i < |folds| ==> FoldInRange(folds[i], |lines|)
  {
    forall i | 0 <= i < |folds|
      ensures FoldInRange(folds[i], |lines|)
    {
      RecordsPreserved(lines, nSplits, randomState, shuffler, folds, i);
    }
  }

  /** Fold `i` of `split_lines`: the records at its training and validation
      indices, in index-sequence order. */
  function LinesOf(lines: seq<string>, folds: seq<Fold>, i: nat): LineFold
    requires i < |folds|
    requires FoldInRange(folds[i], |lines|)
  {
    LineFold(i, Pick(lines, folds[i].train), Pick(lines, folds[i].validation))
  }

  /** Everything `split_lines(lines, n_splits, random_state)` yields (always
      shuffled), or the exception it raises on its first step. */
  function SplitLines(lines: seq<string>, nSplits: int, randomState: int,
                      shuffler: (nat, int) -> seq<int>): (r: Result<seq<LineFold>, SplitError>)
    requires randomState >= 0 ==> IsPermutation(shuffler(|lines|, randomState), |lines|)
    ensures r.Success? <==> nSplits > 0 && randomState >= 0
    ensures r.Failure? ==> r.error == KFold(nSplits, |lines|, true, randomState, shuffler).error
    ensures r.Success? ==> |r.value| == nSplits
    ensures r.Success? ==> forall i :: 0 <= i < |r.value| ==>
              && r.value[i].foldIdx == i
              && |r.value[i].trainLines| + |r.value[i].validationLines| == |lines|
              && multiset(r.value[i].trainLines) + multiset(r.value[i].validationLines) == multiset(lines)
  {
    match KFold(nSplits, |lines|, true, randomState, shuffler)
    case Failure(e) => Failure(e)
    case Success(folds) =>
      LineFoldsPreserved(lines, nSplits, randomState, shuffler, folds);
      Success(LineFolds(lines, folds))
  }

  /** Every fold's records, in fold order. */
  function LineFolds(lines: seq<string>, folds: seq<Fold>): (r: seq<LineFold>)
    requires forall i :: 0 <= i < |folds| ==> FoldInRange(folds[i], |lines|)
    ensures |r| == |folds| && forall i :: 0 <= i < |r| ==> r[i] == LinesOf(lines, folds, i)
  {
    seq(|folds|, i requires 0 <= i < |folds| => LinesOf(lines, folds, i))
  }

  lemma LineFoldsPreserved(lines: seq<string>, nSplits: int, randomState: int,
                           shuffler: (nat, int) -> seq<int>, folds: seq<Fold>)
    requires IsPermutation(shuffler(|lines|, randomState), |lines|)
    requires KFold(nSplits, |lines|, true, randomState, shuffler) == Success(folds)
    ensures forall i :: 0 <= i < |folds| ==> FoldInRange(folds[i], |lines|)
    ensures var r := LineFolds(lines, folds);
            forall i :: 0 <= i < |r| ==>
              && r[i].foldIdx == i
              && |r[i].trainLines| + |r[i].validationLines| == |lines|
              && multiset(r[i].trainLines) + multiset(r[i].validationLines) == multiset(lines)
  {
    FoldIndicesInRange(lines, nSplits, randomState, shuffler, folds);
    var r := LineFolds(lines, folds);
    forall i | 0 <= i < |r|
      ensures |r[i].trainLines| + |r[i].validationLines| == |lines|
      ensures multiset(r[i].trainLines) + multiset(r[i].validationLines) == multiset(lines)
    {
      RecordsPreserved(lines, nSplits, randomState, shuffler, folds, i);
      assert |multiset(r[i].trainLines) + multiset(r[i].validationLines)| == |multiset(lines)|;
    }
  }

  /** Records picked by two index sequences that together arrange `0..n-1`
      are, together, the dataset's records rearranged. */
  lemma PickPermutation(lines: seq<string>, t: seq<int>, v: seq<int>)
    requires IsPermutation(t + v, |lines|)
    ensures IndicesBelow(t, |lines|) && IndicesBelow(v, |lines|)
    ensures multiset(Pick(lines, t)) + multiset(Pick(lines, v)) == multiset(lines)
  {
    var n := |lines|;
    var f := At(lines);
    PartsBelow(t, v, n);
    ImageConcat(f, t, v);
    ImageMultiset(f, t + v, Arange(n));
    ArangeImage(lines);
  }

  /** `lines[k]` as a total function of `k`. */
  function At(lines: seq<string>): int -> string {
    k => if 0 <= k < |lines| then lines[k] else ""
  }

  lemma PartsBelow(t: seq<int>, v: seq<int>, n: nat)
    requires IsPermutation(t + v, n)
    ensures IndicesBelow(t, n) && IndicesBelow(v, n)
  {
    PermutationFacts(t + v, n);
    assert forall j :: 0 <= j < |t| ==> t[j] == (t + v)[j];
    assert forall j :: 0 <= j < |v| ==> v[j] == (t + v)[|t| + j];
  }

  lemma ArangeImage(lines: seq<string>)
    ensures Image(At(lines), Arange(|lines|)) == lines
  {
    ImageAt(At(lines), Arange(|lines|));
  }

  /** `split_lines` yields, for each fold of the generator, its index and the
      records at its indices. */
  lemma SplitLinesAt(lines: seq<string>, nSplits: int, randomState: int,
                     shuffler: (nat, int) -> seq<int>, folds: seq<Fold>)
    requires IsPermutation(shuffler(|lines|, randomState), |lines|)
    requires KFold(nSplits, |lines|, true, randomState, shuffler) == Success(folds)
    ensures forall i :: 0 <= i < |folds| ==> FoldInRange(folds[i], |lines|)
    ensures SplitLines(lines, nSplits, randomState, shuffler).Success?
    ensures |SplitLines(lines, nSplits, randomState, shuffler).value| == |folds|
    ensures forall i :: 0 <= i < |folds| ==> SplitLines(lines, nSplits, randomState, shuffler).value[i] == LinesOf(lines, folds, i)
  {
    FoldIndicesInRange(lines, nSplits, randomState, shuffler, folds);
  }

  /** Each fold's training and validation records together are the dataset's
      records, rearranged. */
  lemma RecordsPreserved(lines: seq<string>, nSplits: int, randomState: int,
                         shuffler: (nat, int) -> seq<int>, folds: seq<Fold>, i: nat)
    requires IsPermutation(shuffler(|lines|, randomState), |lines|)
    requires KFold(nSplits, |lines|, true, randomState, shuffler) == Success(folds)
    requires i < |folds|
    ensures FoldInRange(folds[i], |lines|)
    ensures multiset(Pick(lines, folds[i].train)) + multiset(Pick(lines, folds[i].validation)) == multiset(lines)
  {
    KFoldPartitions(nSplits, |lines|, true, randomState, shuffler);
    PickPermutation(lines, folds[i].train, folds[i].validation);
  }

  /** The handler's inputs: `job_config.output_prefix`, `job_config.input_path`,
      `crossvalidation.n_splits` and the optional `crossvalidation.random_state`. */
  datatype SplitterConfig = SplitterConfig(outputPrefix: string, inputPath: string,
                                           nSplits: int, randomState: Option<int>)

  /** `random_state`, 42 when absent. */
  function RandomState(config: SplitterConfig): int {
    config.randomState.GetOr(42)
  }

  /** What `make_path` closes over: the stem `join(join(output_prefix, "splits"), root)`
      and the extension `ext`, where `root, ext = splitext(basename(input_path))`;
      the handler computes both once. */
  datatype PathTemplate = PathTemplate(stem: string, ext: string)

  function TemplateOf(config: SplitterConfig): (t: PathTemplate)
    ensures t.ext == [] || (t.ext[0] == '.' && '.' !in t.ext[1..])
    ensures '/' !in t.ext
  {
    var (root, ext) := SplitExt(Basename(config.inputPath));
    PathTemplate(Join(Join(config.outputPrefix, "splits"), root), ext)
  }

  /** `make_path(fold_idx, variant)`: `stem + "-fold" + str(fold_idx) + "-" + variant + ext`.
      The path lies under the stem and keeps the input's extension. */
  function MakePath(t: PathTemplate, foldIdx: nat, variant: string): (p: string)
    ensures |t.stem| + |t.ext| < |p|
    ensures p[..|t.stem|] == t.stem
    ensures p[|p| - |t.ext|..] == t.ext
  {
    t.stem + "-fold" + NatToString(foldIdx) + "-" + variant + t.ext
  }

  /** Different `(fold, variant)` pairs get different paths, so no write of one
      fold overwrites another. */
  lemma MakePathInjective(t: PathTemplate, i: nat, v: string, j: nat, w: string)
    ensures MakePath(t, i, v) == MakePath(t, j, w) ==> i == j && v == w
  {
    var head := t.stem + "-fold";
    var si, sj := NatToString(i), NatToString(j);
    Regroup(head, si, v, t.ext);
    Regroup(head, sj, w, t.ext);
    if MakePath(t, i, v) == MakePath(t, j, w) {
      StripAround(head, si + "-" + v, sj + "-" + w, t.ext);
      assert !IsDigit('-');
      SplitAtSeparator(si, v, sj, w, '-');
      NatToStringInjective(i, j);
    }
  }

  lemma Regroup(head: string, digits: string, variant: string, ext: string)
    ensures head + digits + "-" + variant + ext == head + (digits + "-" + variant) + ext
  {
  }

  lemma StripAround(head: string, m1: string, m2: string, tail: string)
    requires head + m1 + tail == head + m2 + tail
    ensures m1 == m2
  {
    assert |m1| == |m2|;
    assert m1 == (head + m1 + tail)[|head|..|head| + |m1|];
    assert m2 == (head + m2 + tail)[|head|..|head| + |m2|];
  }

  /** One entry of `event['splits']`. */
  datatype Descriptor = Descriptor(train: string, validation: string, foldName: string,
                                   numTrainingSamples: string, numValidationSamples: string,
                                   numClasses: string)

  /** The descriptor the handler appends for a fold `split_lines` yielded: it
      is named after the fold's index, its string-encoded counts read back as
      the fold's record counts and the class count, and its two paths differ. */
  function DescriptorFor(t: PathTemplate, fold: LineFold, numClasses: nat): (d: Descriptor)
    ensures d.foldName == "fold" + NatToString(fold.foldIdx)
    ensures AllDigits(d.numTrainingSamples) && AllDigits(d.numValidationSamples) && AllDigits(d.numClasses)
    ensures DecimalValue(d.numTrainingSamples) == |fold.trainLines|
    ensures DecimalValue(d.numValidationSamples) == |fold.validationLines|
    ensures DecimalValue(d.numClasses) == numClasses
    ensures d.train != d.validation
  {
    DecimalRoundTrip(|fold.trainLines|);
    DecimalRoundTrip(|fold.validationLines|);
    DecimalRoundTrip(numClasses);
    MakePathInjective(t, fold.foldIdx, "train", fold.foldIdx, "validation");
    Descriptor(MakePath(t, fold.foldIdx, "train"), MakePath(t, fold.foldIdx, "validation"),
               "fold" + NatToString(fold.foldIdx),
               NatToString(|fold.trainLines|), NatToString(|fold.validationLines|),
               NatToString(numClasses))
  }

  /** What the handler raises: the `TypeError` of `count_classes`, or what the
      generator raises on its first step. */
  datatype HandlerError = CountFailed(countError: CountError) | SplitFailed(splitError: SplitError)

  /** The dataset splitter's `lambda_handler`: count the classes once, then for
      each fold `split_lines` yields write its training records, then its
      validation records, and append its descriptor. `r` is `event['splits']`;
      `writes` logs every write in order. A record `count_classes` cannot
      handle, a negative seed or a fold count the generator rejects raises
      before any write; the class count comes first. */
  method LambdaHandler<C(==)>(config: SplitterConfig, lines: seq<string>, parse: string -> Parsed<C>,
                              shuffler: (nat, int) -> seq<int>)
    returns (r: Result<seq<Descriptor>, HandlerError>, writes: seq<(string, seq<string>)>)
    requires RandomState(config) >= 0 ==> IsPermutation(shuffler(|lines|, RandomState(config)), |lines|)
    ensures r.Success? <==> ClassCount(lines, parse).Success? && config.nSplits > 0 && RandomState(config) >= 0
    ensures ClassCount(lines, parse).Failure? ==> r == Failure(CountFailed(TypeError))
    ensures ClassCount(lines, parse).Success? && r.Failure? ==>
              r == Failure(SplitFailed(KFold(config.nSplits, |lines|, true, RandomState(config), shuffler).error))
    ensures r.Failure? ==> writes == []
    ensures r.Success? ==>
              var folds := SplitLines(lines, config.nSplits, RandomState(config), shuffler).value;
              && |r.value| == |folds|
              && (forall i :: 0 <= i < |folds| ==>
                    r.value[i] == DescriptorFor(TemplateOf(config), folds[i], ClassCount(lines, parse).value))
              && |writes| == 2 * |folds|
              && (forall i :: 0 <= i < |folds| ==>
                    writes[2 * i] == (r.value[i].train, folds[i].trainLines) &&
                    writes[2 * i + 1] == (r.value[i].validation, folds[i].validationLines))
  {
    var count, _ := CountClasses(lines, parse);
    if count.Failure? {
      return Failure(CountFailed(count.error)), [];
    }
    var numClasses := count.value;
    var kf := KFoldSplit(config.nSplits, lines, true, RandomState(config), shuffler);
    if kf.Failure? {
      return Failure(SplitFailed(kf.error)), [];
    }
    var folds := kf.value;
    SplitLinesAt(lines, config.nSplits, RandomState(config), shuffler, folds);
    var splits;
    var template := TemplateOf(config);
    splits, writes := WriteFolds(template, lines, folds, numClasses);
    ghost var lineFolds := SplitLines(lines, config.nSplits, RandomState(config), shuffler).value;
    WrittenAsYielded(template, lines, folds, lineFolds, numClasses, splits, writes);
    return Success(splits), writes;
  }

  /** What the handler's loop wrote for the folds, restated for the folds
      `split_lines` yields. */
  lemma WrittenAsYielded(template: PathTemplate, lines: seq<string>, folds: seq<Fold>, lineFolds: seq<LineFold>,
                         numClasses: nat, splits: seq<Descriptor>, writes: seq<(string, seq<string>)>)
    requires forall i :: 0 <= i < |folds| ==> FoldInRange(folds[i], |lines|)
    requires |lineFolds| == |folds| && forall i :: 0 <= i < |folds| ==> lineFolds[i] == LinesOf(lines, folds, i)
    requires |splits| == |folds| && |writes| == 2 * |folds|
    requires forall i :: 0 <= i < |folds| ==> splits[i] == DescriptorFor(template, LinesOf(lines, folds, i), numClasses)
    requires forall i :: 0 <= i < |folds| ==>
               writes[2 * i] == (splits[i].train, LinesOf(lines, folds, i).trainLines) &&
               writes[2 * i + 1] == (splits[i].validation, LinesOf(lines, folds, i).validationLines)
    ensures forall i :: 0 <= i < |lineFolds| ==> splits[i] == DescriptorFor(template, lineFolds[i], numClasses)
    ensures forall i :: 0 <= i < |lineFolds| ==>
              writes[2 * i] == (splits[i].train, lineFolds[i].trainLines) &&
              writes[2 * i + 1] == (splits[i].validation, lineFolds[i].validationLines)
  {
  }

  /** The handler's loop over the folds: fold `f` writes its training records
      to the `"train"` path, then its validation records to the `"validation"`
      path, and appends its descriptor. */
  method WriteFolds(template: PathTemplate, lines: seq<string>, folds: seq<Fold>, numClasses: nat)
    returns (splits: seq<Descriptor>, writes: seq<(string, seq<string>)>)
    requires forall i :: 0 <= i < |folds| ==> FoldInRange(folds[i], |lines|)
    ensures |splits| == |folds| && |writes| == 2 * |folds|
    ensures forall i :: 0 <= i < |folds| ==> splits[i] == DescriptorFor(template, LinesOf(lines, folds, i), numClasses)
    ensures forall i :: 0 <= i < |folds| ==>
              writes[2 * i] == (splits[i].train, LinesOf(lines, folds, i).trainLines) &&
              writes[2 * i + 1] == (splits[i].validation, LinesOf(lines, folds, i).validationLines)
  {
    ghost var lineFolds := seq(|folds|, i requires 0 <= i < |folds| => LinesOf(lines, folds, i));
    ghost var expected := seq(|folds|, i requires 0 <= i < |folds| => DescriptorFor(template, lineFolds[i], numClasses));
    splits, writes := [], [];
    for f := 0 to |folds|
      invariant splits == expected[..f]
      invariant LogMatches(splits, writes, lineFolds)
    {
      var trainLines := Pick(lines, folds[f].train);
      var validationLines := Pick(lines, folds[f].validation);
      var descriptor := DescriptorFor(template, LineFold(f, trainLines, validationLines), numClasses);
      assert descriptor == expected[f];
      AppendFold(splits, writes, lineFolds, descriptor);
      PrefixStep(expected, f);
      writes := writes + [(descriptor.train, trainLines), (descriptor.validation, validationLines)];
      splits := splits + [descriptor];
    }
    assert splits == expected;
  }

  /** `writes` holds, for each descriptor in `splits`, the write of its fold's
      training records and then of its validation records. */
  ghost predicate LogMatches(splits: seq<Descriptor>, writes: seq<(string, seq<string>)>, lineFolds: seq<LineFold>) {
    && |writes| == 2 * |splits| && |splits| <= |lineFolds|
    && forall i :: 0 <= i < |splits| ==>
         writes[2 * i] == (splits[i].train, lineFolds[i].trainLines) &&
         writes[2 * i + 1] == (splits[i].validation, lineFolds[i].validationLines)
  }

  /** Appending the next fold's two writes and its descriptor keeps the log in
      step with the descriptors. */
  lemma AppendFold(splits: seq<Descriptor>, writes: seq<(string, seq<string>)>, lineFolds: seq<LineFold>, d: Descriptor)
    requires LogMatches(splits, writes, lineFolds) && |splits| < |lineFolds|
    ensures var fold := lineFolds[|splits|];
            LogMatches(splits + [d], writes + [(d.train, fold.trainLines), (d.validation, fold.validationLines)], lineFolds)
  {
  }

  /** What each descriptor promises downstream, whatever the path template
      and class count: fold `i` is named `"fold" + i`, its string-encoded
      counts read back to a training and a validation count that add up to the
      number of records, it reads back to the class count, and its two paths
      differ. */
  lemma DescriptorsConsistent(lines: seq<string>, nSplits: int, randomState: int,
                              shuffler: (nat, int) -> seq<int>, folds: seq<LineFold>,
                              t: PathTemplate, numClasses: nat)
    requires IsPermutation(shuffler(|lines|, randomState), |lines|)
    requires SplitLines(lines, nSplits, randomState, shuffler) == Success(folds)
    ensures forall i :: 0 <= i < |folds| ==>
              var d := DescriptorFor(t, folds[i], numClasses);
              && d.foldName == "fold" + NatToString(i)
              && DecimalValue(d.numTrainingSamples) + DecimalValue(d.numValidationSamples) == |lines|
              && DecimalValue(d.numClasses) == numClasses
              && d.train != d.validation
  {
    forall i | 0 <= i < |folds|
      ensures var d := DescriptorFor(t, folds[i], numClasses);
              && d.foldName == "fold" + NatToString(i)
              && DecimalValue(d.numTrainingSamples) + DecimalValue(d.numValidationSamples) == |lines|
              && DecimalValue(d.numClasses) == numClasses
              && d.train != d.validation
    {
    }
  }

  /** No two writes of one run target the same path: the descriptors of two
      different folds share no path. */
  lemma DescriptorPathsUnique(lines: seq<string>, nSplits: int, randomState: int,
                              shuffler: (nat, int) -> seq<int>, folds: seq<LineFold>,
                              t: PathTemplate, numClasses: nat)
    requires IsPermutation(shuffler(|lines|, randomState), |lines|)
    requires SplitLines(lines, nSplits, randomState, shuffler) == Success(folds)
    ensures forall i, j :: 0 <= i < j < |folds| ==>
              PathsApart(DescriptorFor(t, folds[i], numClasses), DescriptorFor(t, folds[j], numClasses))
  {
    forall i, j | 0 <= i < j < |folds|
      ensures PathsApart(DescriptorFor(t, folds[i], numClasses), DescriptorFor(t, folds[j], numClasses))
    {
      DescriptorPathsDistinct(t, folds[i], folds[j], numClasses);
    }
  }

  /** Two descriptors name four different paths between them. */
  predicate PathsApart(d: Descriptor, e: Descriptor) {
    && d.train != e.train && d.validation != e.validation
    && d.train != e.validation && d.validation != e.train
  }

  /** Descriptors of folds with different indices share no path. */
  lemma DescriptorPathsDistinct(t: PathTemplate, f: LineFold, g: LineFold, numClasses: nat)
    requires f.foldIdx != g.foldIdx
    ensures PathsApart(DescriptorFor(t, f, numClasses), DescriptorFor(t, g, numClasses))
  {
    MakePathInjective(t, f.foldIdx, "train", g.foldIdx, "train");
    MakePathInjective(t, f.foldIdx, "validation", g.foldIdx, "validation");
    MakePathInjective(t, f.foldIdx, "train", g.foldIdx, "validation");
    MakePathInjective(t, f.foldIdx, "validation", g.foldIdx, "train");
  }
}
