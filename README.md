# Cross-validation fold splitter: a Dafny model

This project models the core of a serverless cross-validation pipeline for
machine-learning training jobs:

- the **dataset splitter** reads a JSON-lines dataset, counts its label
  classes, shuffles the record indices with a seeded generator, and cuts
  them into `n_splits` folds. For each fold it writes the training and the
  validation records to their own S3 paths and appends a fold descriptor
  to the event (`functions/dataset_splitter/app.py`);
- the **split preparer** fills a fold's numbers into the hyperparameter and
  training-job-name templates and tags the fold's training job
  (`functions/split_preparer/app.py`);
- the **S3 wrapper's path logic**: turning `s3://bucket/key` into
  `(bucket, key)` the way `urllib.parse.urlparse` does, choosing where
  `save` writes, and choosing the content type from the extension through
  a `defaultdict` (`layers/s3fs/s3wrapper.py`);
- the **image manifest example**: for every listed object, one manifest
  line per class label its key contains, and a warning when no label or
  several labels match (`examples/image_manifest_s3.py`).

Modules:

| file | module | models |
|---|---|---|
| `wrappers.dfy` | `Wrappers` | `Option` and `Result` |
| `strings.dfy` | `Strings` | `str(n)` for naturals, substring search (`in` on strings) |
| `posix_path.dfy` | `PosixPath` | `os.path.join`, `basename` and `splitext` on POSIX paths |
| `kfold.dfy` | `KFoldSplitter` | `kfold_split`: index array, in-place shuffle, fold sizes, the fold loop |
| `class_count.dfy` | `ClassCounter` | `count_classes` |
| `dataset_splitter.dfy` | `DatasetSplitter` | `validate_enum`, `split_lines`, `make_path`, the handler and its fold loop |
| `split_preparer.dfy` | `SplitPreparer` | `substitute_all`, `str.replace`, the handler's updates to the event |
| `s3wrapper.dfy` | `S3Paths` | `urlsplit`/`urlparse`, `parse_url`, `_get_path`, `content_type_map`, `save` |
| `manifest.dfy` | `ImageManifest` | `write_entry` and the `do_write` loops |

Code that updates state step by step is modelled as methods proved against
specification functions:
- `KFoldSplit` keeps the numpy arrays as Dafny `array`s;
- `CountClasses`, `SubstituteAll` and `DoWrite` keep their loops;
- the `defaultdict` is a class whose `Get` inserts missing keys;
- the split preparer's event is a graph of objects whose fields the handler
  assigns.

Outside effects are parameters or logs:
- numpy's seeded shuffle is an injected function `shuffler(n, seed)`. It
  must return an arrangement of `0..n-1`, and it depends only on `(n, seed)`.
  Repeated runs with the same seed are therefore identical by construction.
- JSON parsing of a record is an injected function `parse(line)`.
- Reading the dataset is the `lines` parameter.
- Every S3 write is an entry `(path, records)` in a returned log, in write
  order.
- `save` returns the `Upload` it would write.
- The manifest output is a sequence of entries and warnings.

Error behaviour the code has and the model keeps:
- A non-positive fold count is not rejected up front; the generator fails on
  its first step:
  - a negative seed makes `default_rng` fail (`NegativeSeed`), before
    anything else, since `split_lines` always shuffles;
  - zero folds divide by zero (`ZeroDivision`);
  - a negative count makes `np.full` fail (`NegativeDimensions`).

  This happens after the records are read and their classes counted. No fold
  is written in any of these cases.
- Besides giving 0 for an unparsable record, the code raises `TypeError` for
  a record that is valid JSON but not a usable object: a number, `true`/`false` or `null` (at `'class' in data`), a string
  or array containing `"class"` (at `data['class']`), or an object whose
  class is a list or object (at `classes.add`). The handler then fails
  before writing anything.
- The split preparer's module comment lists the placeholders
  `${num_testing_samples}` and `${fold_name}`. The code substitutes
  `${num_training_samples}`, `${num_validation_samples}` and `${num_classes}`
  into the hyperparameters, and `${fold_name}` only into the job name.
  `HyperParameterKeys` states this.

## Model

| member | source | states |
|---|---|---|
| KFoldSplitter.KFoldSplit | functions/dataset_splitter/app.py:35-50 | running the generator to exhaustion gives exactly `KFold(n_splits, len(lines), shuffle, seed)`: a negative seed with shuffling fails first, then a zero fold count fails with a division by zero and a negative one with negative dimensions; otherwise the folds cut from the (shuffled) index array |
| KFoldSplitter.KFold | functions/dataset_splitter/app.py:35-50 | succeeds exactly for a positive fold count and, when shuffling, a non-negative seed, with one fold per split; each failure is named after the first check that fails, in the order seed, zero count, negative count |
| KFoldSplitter.ShuffleInPlace | functions/dataset_splitter/app.py:37-40 | shuffling `arange(n)` in place leaves the array equal to the generator's arrangement |
| KFoldSplitter.NewFoldSizes | functions/dataset_splitter/app.py:41-42 | a fresh array of `n_splits` sizes, `n // n_splits` each, with one more for the first `n % n_splits` folds |
| KFoldSplitter.FoldSizesBalanced | functions/dataset_splitter/app.py:41-42 | there are `k` fold sizes, each `n // k` or `n // k + 1`. Any two differ by at most one, they never increase, and they add up to `n` |
| KFoldSplitter.FoldSizesPrefixSum | functions/dataset_splitter/app.py:41-42 | the first `m` sizes add up to `m * (n // k) + min(m, n % k)` |
| KFoldSplitter.CutFolds | functions/dataset_splitter/app.py:43-50 | the loop over the fold sizes, carrying the running offset, yields exactly `Folds(order, sizes)`: fold `i` validates the block of its size at its offset and trains on the rest |
| KFoldSplitter.FoldIsBlock | functions/dataset_splitter/app.py:45-47 | fold `i`'s block lies inside the index array; it validates `indices[start:stop]` and trains on `indices[:start] + indices[stop:]` |
| KFoldSplitter.EvenFolds | functions/dataset_splitter/app.py:41-47 | without shuffling, when `k` divides `n`, every fold validates `n / k` indices and trains on `n - n / k` |
| KFoldSplitter.OffsetOfFold | functions/dataset_splitter/app.py:43-50 | fold `i`'s validation block starts at `i * (n // k) + min(i, n % k)` |
| KFoldSplitter.ValidationsReassemble | functions/dataset_splitter/app.py:43-47 | the validation blocks of all folds, concatenated in fold order, are the whole index array |
| KFoldSplitter.ValidationExactlyOnce | functions/dataset_splitter/app.py:43-49 | for a permutation of `0..n-1`, every index is validated by some fold and by no two different folds |
| KFoldSplitter.TrainIsComplement | functions/dataset_splitter/app.py:45-47 | a fold's training indices are disjoint from its validation indices, their lengths add up to `n`, and together they arrange `0..n-1` |
| KFoldSplitter.UnshuffledValidation | functions/dataset_splitter/app.py:35-50 | without shuffling, fold `i` validates the consecutive indices starting at its offset |
| KFoldSplitter.TenSamplesFiveFolds | functions/dataset_splitter/app.py:35-50 | ten samples, five folds, no shuffle: each fold validates 2 and trains on 8, fold 0 validates `[0, 1]` and fold 4 validates `[8, 9]` |
| KFoldSplitter.MoreFoldsThanSamples | functions/dataset_splitter/app.py:41-47 | with more folds than samples, folds below `n` validate one index; the others validate nothing and train on every index |
| KFoldSplitter.KFoldPartitions | functions/dataset_splitter/app.py:35-50 | a positive fold count succeeds with `k` folds whose validation blocks reassemble the order, cover every index, and whose train/validation pairs each arrange `0..n-1` |
| ClassCounter.CountClasses | functions/dataset_splitter/app.py:61-72 | the loop returns `ClassCount(lines)`: the number of distinct classes, 0 at the first unparsable or unlabelled record, or `TypeError` at the first record that is JSON but not a usable object; it stops right after the record that decides |
| ClassCounter.ClassCount | functions/dataset_splitter/app.py:61-72 | a successful count never exceeds the number of records, and no records count 0 |
| ClassCounter.LabelSetMembers | functions/dataset_splitter/app.py:61-72 | a value is among the collected classes exactly when some record parses to it |
| ClassCounter.FirstUnlabeled | functions/dataset_splitter/app.py:63-71 | every record before the returned position is labelled, and the record at it (if any) is not |
| ClassCounter.SoftFail | functions/dataset_splitter/app.py:64-71 | all records labelled: the number of distinct labels. An unparsable or unlabelled record with only labelled records before it: 0, whatever follows it. The count raises exactly when an unusable record comes before any unlabelled one |
| ClassCounter.TwoClassesOfThree | functions/dataset_splitter/app.py:61-72 | records labelled `a`, `b`, `a` count 2 |
| ClassCounter.MalformedGivesZero | functions/dataset_splitter/app.py:70-71 | a labelled record followed by one that is not JSON counts 0 |
| ClassCounter.UnusableRaises | functions/dataset_splitter/app.py:65-69 | a labelled record followed by one that is JSON but not a usable object raises `TypeError` |
| DatasetSplitter.ValidateEnum | functions/dataset_splitter/app.py:18-21 | succeeds, returning the value, exactly when the value is allowed; otherwise the error names the parameter and the allowed values |
| DatasetSplitter.SplitLines | functions/dataset_splitter/app.py:52-59 | succeeds exactly for a positive fold count and a non-negative seed, failing otherwise with the generator's error; on success one entry per fold, numbered `0..k-1`, whose training and validation records are, together, the dataset's records rearranged |
| DatasetSplitter.SplitLinesAt | functions/dataset_splitter/app.py:52-59 | fold `i` yields the records at the generator's training and validation indices for fold `i`, in index order |
| DatasetSplitter.RecordsPreserved | functions/dataset_splitter/app.py:55-57 | the records picked for a fold's training and validation sets form, together, a rearrangement of all records |
| DatasetSplitter.PickPermutation | functions/dataset_splitter/app.py:56-57 | picking records by two index lists that together arrange `0..n-1` rearranges the records |
| DatasetSplitter.TemplateOf | functions/dataset_splitter/app.py:93 | the extension taken from the input path is empty or one dot followed by no dot and no slash |
| DatasetSplitter.MakePath | functions/dataset_splitter/app.py:94-95 | a fold path starts with the stem `splits_prefix/root` and ends with the input's extension, with the fold and variant in between |
| DatasetSplitter.MakePathInjective | functions/dataset_splitter/app.py:94-95 | `make_path` gives different paths to different `(fold, variant)` pairs |
| DatasetSplitter.LambdaHandler | functions/dataset_splitter/app.py:74-116 | succeeds exactly when the class count does not raise, the fold count is positive and the seed non-negative; a failing count fails with its `TypeError`, otherwise with the generator's error, and nothing is written on failure. On success, fold `i`'s descriptor is built from the `i`th fold `split_lines` yields and the class count. The writes alternate between fold `i`'s training records at its train path and its validation records at its validation path |
| DatasetSplitter.WriteFolds | functions/dataset_splitter/app.py:97-111 | the fold loop appends fold `i`'s descriptor and writes its training and then validation records in fold order |
| DatasetSplitter.DescriptorsConsistent | functions/dataset_splitter/app.py:97-111 | for any path template and class count, the descriptor of `split_lines`' fold `i` is named `fold<i>`. Its sample counts read back as decimals and add up to the number of records, its class count reads back as the class count, and its train and validation paths differ |
| DatasetSplitter.DescriptorPathsUnique | functions/dataset_splitter/app.py:94-111 | the descriptors of two different folds of one run share no path: neither train nor validation path of one is a path of the other |
| DatasetSplitter.DescriptorFor | functions/dataset_splitter/app.py:104-111 | a fold's descriptor is named after its index, its counts are decimal strings that read back as the fold's record counts and the class count, and its two paths differ |
| DatasetSplitter.DescriptorPathsDistinct | functions/dataset_splitter/app.py:94-111 | descriptors of folds with different indices share no path |
| PosixPath.Basename | functions/dataset_splitter/app.py:93 | the base name has no slash, is a suffix of the path, and is either the whole path or preceded by a slash |
| PosixPath.SplitExt | functions/dataset_splitter/app.py:93 | root and extension concatenate back to the name; the extension is empty or a dot followed by no dot and no slash |
| PosixPath.Join | layers/s3fs/s3wrapper.py:43-44 | an absolute second part replaces the first; otherwise the parts are joined with exactly one added slash unless the first is empty or already ends in one |
| Strings.NatToString | functions/dataset_splitter/app.py:107-110 | `str(n)` is a non-empty string of decimal digits, one digit long exactly when `n < 10` |
| Strings.DecimalRoundTrip | functions/dataset_splitter/app.py:108-110 | reading `str(n)` back as a decimal gives `n` |
| Strings.NatToStringInjective | functions/dataset_splitter/app.py:95 | different numbers have different decimal strings |
| Strings.Contains | examples/image_manifest_s3.py:21 | `label in key` holds exactly when the label occurs at some position of the key |
| SplitPreparer.ReplaceAll | functions/split_preparer/app.py:14 | replacing a key by itself changes nothing; a same-length replacement keeps the length |
| SplitPreparer.ReplaceAllAbsent | functions/split_preparer/app.py:14 | a key that does not occur leaves the text unchanged |
| SplitPreparer.ReplaceAllSkip | functions/split_preparer/app.py:14 | a prefix without the key's first character is copied unchanged |
| SplitPreparer.ReplaceAllFirst | functions/split_preparer/app.py:14 | text not starting with the key keeps its first character and is replaced from the second on |
| SplitPreparer.ReplaceAllNoMatch | functions/split_preparer/app.py:14 | a prefix where no occurrence of the key starts is copied unchanged, even when the key straddles its end |
| SplitPreparer.ReplaceAllAt | functions/split_preparer/app.py:14 | text starting with the key has that occurrence replaced by the value |
| SplitPreparer.ReplaceAllSingle | functions/split_preparer/app.py:14 | when the key does not occur before a given occurrence, the text up to it is kept, the occurrence becomes the value, and the rest is replaced on its own |
| SplitPreparer.SubstituteAll | functions/split_preparer/app.py:11-16 | the loop applies the substitutions one after another in order, giving `Substituted(template, subs)` |
| SplitPreparer.Substituted | functions/split_preparer/app.py:11-16 | substitutions mapping each key to itself change nothing; ones keeping each key's length keep the text's length |
| SplitPreparer.SubstitutedAbsent | functions/split_preparer/app.py:11-16 | a template containing none of the keys comes back unchanged |
| SplitPreparer.FirstKey | functions/split_preparer/app.py:13-14 | the first substitution for a key, if any: it has that key, and no earlier one does |
| SplitPreparer.ReplaceAllOther | functions/split_preparer/app.py:14 | a `$`-placeholder other than the key, and not a prefix of it or the reverse, is copied through whole |
| SplitPreparer.ReplaceAllPieces | functions/split_preparer/app.py:14 | over a template cut into literal text without the key's first character and placeholders, one replacement turns exactly the placeholders equal to the key into the value |
| SplitPreparer.FillStep | functions/split_preparer/app.py:13-14 | filling placeholders with one more substitution is filling with the earlier ones, then with the new one |
| SplitPreparer.FilledStepReady | functions/split_preparer/app.py:13-14 | once the earlier values (which hold no `$`) are in, the next replacement sees only literal text and whole placeholders |
| SplitPreparer.SubstitutedFills | functions/split_preparer/app.py:11-16 | for `$`-placeholder keys, values without `$`, literal text without `$` and placeholders none a prefix of another, `substitute_all` replaces every placeholder that has a substitution by its first substitution's value and keeps everything else |
| SplitPreparer.CountKeysApart | functions/split_preparer/app.py:25-29 | the three count placeholders are `$`-placeholders, none a prefix of another |
| SplitPreparer.HyperParametersFilled | functions/split_preparer/app.py:23-30 | a hyperparameter template whose only `$` signs start the three count placeholders (each any number of times) comes out with every `${num_training_samples}` replaced by the training count, every `${num_validation_samples}` by the validation count and every `${num_classes}` by the class count, and nothing else changed |
| SplitPreparer.Quoted | functions/split_preparer/app.py:12 | the serialized string is the text between two double quotes |
| SplitPreparer.HyperParameterSubstitutions | functions/split_preparer/app.py:25-29 | the three substitutions, in order, map the training, validation and class placeholders to the split's values |
| SplitPreparer.HyperParameterKeys | functions/split_preparer/app.py:23-30 | the hyperparameter keys are exactly those three placeholders, neither `${fold_name}` nor `${num_testing_samples}` |
| SplitPreparer.JobNameSubstitutions | functions/split_preparer/app.py:35-37 | the job name has one substitution, `${fold_name}` to the fold name |
| SplitPreparer.TrainingJobNameOf | functions/split_preparer/app.py:33-38 | a job-name template `<name>-${fold_name}` becomes `<name>-<fold>` |
| SplitPreparer.SplitTags | functions/split_preparer/app.py:41-55 | the job's tags (none if absent) come first, followed by the `fold_name`, `crossvalidator_job_name` and `created_by` tags |
| SplitPreparer.LambdaHandler | functions/split_preparer/app.py:18-57 | a missing key stops the handler where Python raises `KeyError`, in source order, keeping earlier updates. On success the hyperparameters and job name are substituted, both templates are deleted, the tags are set, the job config and input counts are unchanged, and the event is returned |
| S3Paths.UrlSplit | layers/s3fs/s3wrapper.py:24 | `urlsplit`: path and query hold no `#`, path no `?`, netloc none of `/?#` |
| S3Paths.SplitScheme | layers/s3fs/s3wrapper.py:24 | a scheme, when found, starts with a letter and is followed by `:` and the rest; otherwise the whole URL is the rest |
| S3Paths.SplitNetloc | layers/s3fs/s3wrapper.py:24 | the network location after a leading `//` holds none of `/?#`; without a leading `//` it is empty and the rest is kept whole |
| S3Paths.SplitPathQueryFragment | layers/s3fs/s3wrapper.py:24 | the path holds no `#` or `?` and the query no `#`; text without either is all path |
| S3Paths.NetlocEnd | layers/s3fs/s3wrapper.py:24 | the network location ends at the first `/`, `?` or `#` |
| S3Paths.UrlParse | layers/s3fs/s3wrapper.py:24 | `urlparse` fails exactly when `urlsplit` does and keeps its netloc; for a scheme without parameters it keeps the path too |
| S3Paths.ParseUrl | layers/s3fs/s3wrapper.py:21-26 | the bucket is the netloc, the key the path without one leading slash |
| S3Paths.ParseUrlRoundTrip | layers/s3fs/s3wrapper.py:21-26 | `parse_url("s3://" + bucket + "/" + key)` (the manifest's `source-ref` URL) gives back `(bucket, key)` when the bucket is ASCII with none of `/?#[]` or tab/CR/LF, and the key has none of `?#` or tab/CR/LF |
| S3Paths.ParseUrlKeepsInnerSlash | layers/s3fs/s3wrapper.py:25 | only one leading slash is stripped: a key starting with `/` keeps it |
| S3Paths.GetPath | layers/s3fs/s3wrapper.py:39-44 | fails exactly when the target path is falsy and the prefix or file name is falsy; a truthy target path wins; otherwise prefix joined with file name |
| S3Paths.SavedUnderPrefix | layers/s3fs/s3wrapper.py:43-44 | a relative file name saved under a prefix gives a path starting with the prefix and ending with the file name |
| S3Paths.ContentTypeOf | layers/s3fs/s3wrapper.py:11-19 | `.html`, `.csv`, `.txt` and `.json` map to `text/html`, `text/csv`, `text/plain` and `application/json`; every other extension, matched exactly, gets `application/octet-stream` |
| S3Paths.InitialContentTypes | layers/s3fs/s3wrapper.py:11-19 | the table starts with exactly the four listed extensions, each mapped to its type |
| S3Paths.ContentTypeMap.constructor | layers/s3fs/s3wrapper.py:11-19 | the map starts as the four-entry table |
| S3Paths.ContentTypeMap.Get | layers/s3fs/s3wrapper.py:49 | the lookup returns the extension's type and stores it under the extension; a key already present leaves the map unchanged |
| S3Paths.S3Wrapper.constructor | layers/s3fs/s3wrapper.py:35-37 | the wrapper keeps its save prefix and the content-type map it looks types up in |
| S3Paths.S3Wrapper.Save | layers/s3fs/s3wrapper.py:46-52 | the path is `_get_path`'s result. The content type comes from the file name's extension when a file name is given, otherwise from the target path's. On failure nothing is uploaded and the map is unchanged |
| S3Paths.ExtensionSource | layers/s3fs/s3wrapper.py:48 | the extension comes from the file name when it is non-empty, else from the target path, and the chosen text is never empty |
| ImageManifest.EntryLine | examples/image_manifest_s3.py:9-10 | a manifest line ends in a newline and holds no other newline when the path has none |
| ImageManifest.EntryLineInjective | examples/image_manifest_s3.py:9-10 | for paths without `"`, equal manifest lines have equal paths and labels |
| ImageManifest.MatchingIndicesSound | examples/image_manifest_s3.py:20-21 | the labels matched for a key are listed in increasing index order, and each occurs in the key |
| ImageManifest.MatchingIndicesComplete | examples/image_manifest_s3.py:20-21 | every label occurring in the key is matched |
| ImageManifest.DoWrite | examples/image_manifest_s3.py:15-27 | fails exactly when some page has no `Contents`. The output is that of every page before the first such page, in order |
| ImageManifest.WritePage | examples/image_manifest_s3.py:17-27 | the output of a page is the output of its keys in order |
| ImageManifest.WriteKey | examples/image_manifest_s3.py:18-27 | the label loop with its `label_found` flag outputs what `KeyOutput` describes |
| ImageManifest.CompletePages | examples/image_manifest_s3.py:16-17 | every page before the returned position has contents, and the page at it does not |
| ImageManifest.EntriesAppend | examples/image_manifest_s3.py:15-27 | entries and warnings of concatenated output are the concatenation of each part's |
| ImageManifest.KeyEntries | examples/image_manifest_s3.py:18-25 | a key's entries are one line per matching label, in label order, with the key's `s3://` URL and the label's index |
| ImageManifest.LabelEntries | examples/image_manifest_s3.py:20-25 | the label loop alone produces those entry lines |
| ImageManifest.LabelEntriesStep | examples/image_manifest_s3.py:20-24 | each further label adds one entry line, with its index, exactly when it occurs in the key |
| ImageManifest.KeyWarnings | examples/image_manifest_s3.py:19-27 | a key matching no label gets one "no label" warning; one matching `m > 0` labels gets `m - 1` "multiple labels" warnings |
| ImageManifest.LabelWarnings | examples/image_manifest_s3.py:20-25 | the label loop alone warns once per match after the first |

## Left out

- numpy's PCG64 generator and its shuffle algorithm are not modelled. The shuffle is an injected function that must return an arrangement of `0..n-1`, so the claim that different seeds give different orders is not modelled.
- JSON is not modelled. `count_classes` gets the parse result of each record from an injected function. `json.dumps`/`json.loads` in `substitute_all` are abstracted: a template is its serialized text, and the result is that text after replacement. Escaping and a replacement that breaks the JSON are not modelled.
- S3 and logging are not modelled. Reads are parameters, writes are returned as a log of `(path, records)` or an `Upload`, and log messages are left out. I/O failures (the storage failure path) are not modelled.
- `S3Paths.UrlSplit`: the check of bracketed IPv6 hosts beyond balanced brackets, the NFKC check of the network location, and the `urlsplit` cache are left out.
- `ClassCounter.CountClasses`: what a record parses to is an input, so which JSON values are unusable is not derived from JSON. A record that is not valid UTF-8 makes `json.loads` raise `UnicodeDecodeError`, which the handler does not catch; the model reports it as the `Unusable` failure, `TypeError`. class values are compared with the model's equality, and Python's `1 == True` hashing is not modelled.
- `DatasetSplitter.LambdaHandler`: an explicit JSON `null` `random_state` makes numpy draw the seed from the operating system; the model's seed is an integer (42 when absent), so that case is not modelled. `int(n_splits)` parsing and the `KeyError`s for missing event keys are left out, because the config is a typed value. The handler's result is the list stored in `event['splits']`; the rest of the event is passed through unchanged and not modelled.
- `SplitPreparer.LambdaHandler`: the missing top-level `training`, `job_config` and `split` keys are left out, since the event's fields always exist. Split fields are strings, so `str(value)` is the identity.
- `SplitPreparer.TrainingJobNameOf` requires a job name without `$`. It is stated for that case only.
- `SplitPreparer.HyperParametersFilled` and `SplitPreparer.SubstitutedFills` are stated for templates whose `$` signs all start placeholders and for values without `$`; a value that itself contains a later key is replaced again by `str.replace`, which these lemmas do not describe.
- `S3Paths.S3Wrapper.constructor` takes the content-type map as a parameter: that every wrapper shares the one class-level `content_type_map` is not enforced by the model.
- `S3Wrapper.get_filename` is not modelled: it refers to the undefined names `url` and `parsed` and raises `NameError` on every call.
- `S3Wrapper.list_recursive` and the `load_*` readers are not modelled: they are storage reads with no logic beyond path concatenation.
- The manifest's `list_objects` paginator is abstracted: the pages are an input sequence, and a page without `Contents` is `None`. The script reads the global `label_list`; the model uses the `labels` parameter, which the script passes the same list. Choosing stdout or a file, `argparse`, and `labels.split(',')` are left out. Warnings go into the output sequence instead of stderr.
- The bootstrapper and the step-function orchestration around the two handlers are not modelled.
