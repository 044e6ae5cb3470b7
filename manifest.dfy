/** The image-manifest example: for every object key under a bucket prefix,
    one manifest line per class name that occurs in the key, classed by the
    name's index in the label list, and a warning when a key matches several
    names or none. Listing pages are given as input; the manifest lines and the
    warnings are logged together, in the order they are produced. */
module ImageManifest {
  import opened Wrappers
  import opened Strings
  import opened S3Paths

  /** The fixed parts of a manifest line. */
  const SourceRefOpen := "{\"source-ref\":\""
  const ClassOpen := ", \"class\":\""
  const EntryClose := "\"}\n"

  /** `write_entry(f, path, label)`: one line of the augmented manifest,
      `{"source-ref":"<path>", "class":"<label>"}`. */
  function EntryLine(path: string, classIndex: nat): (line: string)
    ensures |line| > 0 && line[|line| - 1] == '\n'
    ensures '\n' !in path ==> '\n' !in line[..|line| - 1]
  {
    SourceRefOpen + path + "\"" + ClassOpen + NatToString(classIndex) + EntryClose
  }

  /** A path without `"` and a class index can be read back from their line. */
  lemma EntryLineInjective(p: string, i: nat, q: string, j: nat)
    requires '"' !in p && '"' !in q
    requires EntryLine(p, i) == EntryLine(q, j)
    ensures p == q && i == j
  {
    var si, sj := NatToString(i), NatToString(j);
    Group(SourceRefOpen, p, "\"", ClassOpen, si, EntryClose);
    Group(SourceRefOpen, q, "\"", ClassOpen, sj, EntryClose);
    DropPrefix(SourceRefOpen, p + ['"'] + (ClassOpen + (si + EntryClose)), q + ['"'] + (ClassOpen + (sj + EntryClose)));
    SplitAtSeparator(p, ClassOpen + (si + EntryClose), q, ClassOpen + (sj + EntryClose), '"');
    DropPrefix(ClassOpen, si + EntryClose, sj + EntryClose);
    DropSuffix(si, sj, EntryClose);
    NatToStringInjective(i, j);
  }

  lemma Group(a: string, b: string, c: string, d: string, e: string, f: string)
    ensures a + b + c + d + e + f == a + (b + c + (d + (e + f)))
  {
  }

  lemma DropPrefix(h: string, a: string, b: string)
    requires h + a == h + b
    ensures a == b
  {
    assert a == (h + a)[|h|..];
    assert b == (h + b)[|h|..];
  }

  lemma DropSuffix(a: string, b: string, t: string)
    requires a + t == b + t
    ensures a == b
  {
    assert a == (a + t)[..|a|];
    assert b == (b + t)[..|b|];
  }

  /** What `warning(msg)` reports about a key. */
  datatype Warning = MultipleLabels(key: string) | NoLabel(key: string)

  /** One thing `do_write` produces: a manifest line or a warning. */
  datatype Output = Entry(line: string) | Warn(warning: Warning)

  /** The indices, in increasing order, of the labels that occur in `key`. */
  function MatchingIndices(key: string, labels: seq<string>): (r: seq<nat>)
    ensures |r| <= |labels|
    ensures forall j :: 0 <= j < |r| ==> r[j] < |labels|
    decreases |labels|
  {
    if labels == [] then []
    else
      var n := |labels| - 1;
      MatchingIndices(key, labels[..n]) + if Contains(key, labels[n]) then [n] else []
  }

  /** The matching indices are increasing and every one of them names a
      label that occurs in the key. */
  lemma {:induction false} MatchingIndicesSound(key: string, labels: seq<string>)
    ensures forall j, k :: 0 <= j < k < |MatchingIndices(key, labels)| ==>
              MatchingIndices(key, labels)[j] < MatchingIndices(key, labels)[k]
    ensures forall j :: 0 <= j < |MatchingIndices(key, labels)| ==> Contains(key, labels[MatchingIndices(key, labels)[j]])
    decreases |labels|
  {
    if labels != [] {
      var n := |labels| - 1;
      MatchingIndicesSound(key, labels[..n]);
      var r0 := MatchingIndices(key, labels[..n]);
      var r := MatchingIndices(key, labels);
      assert r == r0 + if Contains(key, labels[n]) then [n] else [];
      forall j | 0 <= j < |r| ensures Contains(key, labels[r[j]]) {
        if j < |r0| {
          assert r[j] == r0[j];
          assert Contains(key, labels[..n][r0[j]]);
          assert labels[..n][r0[j]] == labels[r0[j]];
        } else {
          assert r[j] == n;
        }
      }
      forall j, k | 0 <= j < k < |r| ensures r[j] < r[k] {
        assert r[j] == r0[j];
        if k < |r0| {
          assert r[k] == r0[k];
          assert r0[j] < r0[k];
        } else {
          assert r[k] == n;
          assert r0[j] < |labels[..n]|;
        }
      }
    }
  }

  /** Every label that occurs in the key is among the matching indices. */
  lemma {:induction false} MatchingIndicesComplete(key: string, labels: seq<string>)
    ensures forall i :: 0 <= i < |labels| && Contains(key, labels[i]) ==> i in MatchingIndices(key, labels)
    decreases |labels|
  {
    if labels != [] {
      var n := |labels| - 1;
      MatchingIndicesComplete(key, labels[..n]);
      var r0 := MatchingIndices(key, labels[..n]);
      var r := MatchingIndices(key, labels);
      assert r[..|r0|] == r0;
      forall i | 0 <= i < |labels| && Contains(key, labels[i]) ensures i in r {
        if i < n {
          assert labels[..n][i] == labels[i];
          var j :| 0 <= j < |r0| && r0[j] == i;
          assert r[j] == i;
        } else {
          assert r[|r| - 1] == n;
        }
      }
    }
  }

  /** The label loop for one key, up to the end of `labels`: each label in the
      key writes its entry, preceded by a warning when an earlier label
      already matched. */
  function LabelOutput(bucket: string, key: string, labels: seq<string>): seq<Output>
    decreases |labels|
  {
    if labels == [] then []
    else
      var n := |labels| - 1;
      LabelOutput(bucket, key, labels[..n]) +
      if Contains(key, labels[n]) then
        (if MatchingIndices(key, labels[..n]) != [] then [Warn(MultipleLabels(key))] else []) +
        [Entry(EntryLine(S3Url(bucket, key), n))]
      else []
  }

  /** Everything one key produces: its label loop, then the no-label warning
      if nothing matched. */
  function KeyOutput(bucket: string, key: string, labels: seq<string>): seq<Output> {
    LabelOutput(bucket, key, labels) + if MatchingIndices(key, labels) == [] then [Warn(NoLabel(key))] else []
  }

  /** Everything a run of keys produces, key after key. */
  function KeysOutput(bucket: string, keys: seq<string>, labels: seq<string>): seq<Output>
    decreases |keys|
  {
    if keys == [] then [] else KeysOutput(bucket, keys[..|keys| - 1], labels) + KeyOutput(bucket, keys[|keys| - 1], labels)
  }

  /** Everything a run of listing pages produces, page after page. */
  function PagesOutput(bucket: string, pages: seq<seq<string>>, labels: seq<string>): seq<Output>
    decreases |pages|
  {
    if pages == [] then [] else PagesOutput(bucket, pages[..|pages| - 1], labels) + KeysOutput(bucket, pages[|pages| - 1], labels)
  }

  /** A listing page without a `Contents` list makes `page['Contents']` raise. */
  datatype ListingError = MissingContents

  /** The number of leading pages that carry a `Contents` list. */
  function CompletePages(pages: seq<Option<seq<string>>>): (n: nat)
    ensures n <= |pages|
    ensures forall q :: 0 <= q < n ==> pages[q].Some?
    ensures n < |pages| ==> pages[n].None?
    decreases |pages|
  {
    if pages == [] || pages[0].None? then 0 else 1 + CompletePages(pages[1..])
  }

  /** The key lists of pages that all carry one. */
  function Contents(pages: seq<Option<seq<string>>>): (r: seq<seq<string>>)
    requires forall q :: 0 <= q < |pages| ==> pages[q].Some?
    ensures |r| == |pages| && forall q :: 0 <= q < |pages| ==> r[q] == pages[q].value
  {
    seq(|pages|, q requires 0 <= q < |pages| => pages[q].value)
  }

  /** `do_write`: for each page, for each object key, for each label in
      order, write an entry when the label occurs in the key (warning first if
      an earlier label already matched), then warn when none matched. Labels
      are the `labels` argument. `out` is what was produced, in order; a page
      without `Contents` stops the run with what came before it produced. */
  method DoWrite(bucket: string, labels: seq<string>, pages: seq<Option<seq<string>>>)
    returns (out: seq<Output>, r: Result<(), ListingError>)
    ensures r.Success? <==> CompletePages(pages) == |pages|
    ensures out == PagesOutput(bucket, Contents(pages[..CompletePages(pages)]), labels)
  {
    out := [];
    for p := 0 to |pages|
      invariant p <= CompletePages(pages)
      invariant out == PagesOutput(bucket, Contents(pages[..p]), labels)
    {
      if pages[p].None? {
        return out, Failure(MissingContents);
      }
      var keys := pages[p].value;
      var pageOut := WritePage(bucket, keys, labels);
      NextPage(bucket, labels, pages, p);
      out := out + pageOut;
    }
    return out, Success(());
  }

  /** One more complete page adds what its keys produce. */
  lemma NextPage(bucket: string, labels: seq<string>, pages: seq<Option<seq<string>>>, p: nat)
    requires p < CompletePages(pages)
    ensures PagesOutput(bucket, Contents(pages[..p + 1]), labels)
         == PagesOutput(bucket, Contents(pages[..p]), labels) + KeysOutput(bucket, pages[p].value, labels)
  {
    var before, after := Contents(pages[..p]), Contents(pages[..p + 1]);
    assert after == before + [pages[p].value];
    assert after[..|after| - 1] == before;
  }

  /** The body of `do_write`'s page loop for one page: every object key of
      the page, in order. */
  method WritePage(bucket: string, keys: seq<string>, labels: seq<string>) returns (out: seq<Output>)
    ensures out == KeysOutput(bucket, keys, labels)
  {
    out := [];
    for k := 0 to |keys|
      invariant out == KeysOutput(bucket, keys[..k], labels)
    {
      var keyOut := WriteKey(bucket, keys[k], labels);
      out := out + keyOut;
      assert keys[..k + 1][..k] == keys[..k];
    }
    assert keys[..|keys|] == keys;
  }

  /** The body of `do_write`'s object loop for one key: the label loop with
      its `label_found` flag, then the no-label warning. */
  method WriteKey(bucket: string, key: string, labels: seq<string>) returns (out: seq<Output>)
    ensures out == KeyOutput(bucket, key, labels)
  {
    out := [];
    var labelFound := false;
    for idx := 0 to |labels|
      invariant out == LabelOutput(bucket, key, labels[..idx])
      invariant labelFound <==> MatchingIndices(key, labels[..idx]) != []
    {
      assert labels[..idx + 1][..idx] == labels[..idx];
      if Contains(key, labels[idx]) {
        if labelFound {
          out := out + [Warn(MultipleLabels(key))];
        }
        out := out + [Entry(EntryLine(S3Url(bucket, key), idx))];
        labelFound := true;
      }
    }
    assert labels[..|labels|] == labels;
    if !labelFound {
      out := out + [Warn(NoLabel(key))];
    }
  }

  /** The manifest lines among the outputs, in order. */
  function Entries(out: seq<Output>): seq<string>
    decreases |out|
  {
    if out == [] then []
    else Entries(out[..|out| - 1]) + if out[|out| - 1].Entry? then [out[|out| - 1].line] else []
  }

  /** The warnings among the outputs, in order. */
  function Warnings(out: seq<Output>): seq<Warning>
    decreases |out|
  {
    if out == [] then []
    else Warnings(out[..|out| - 1]) + if out[|out| - 1].Warn? then [out[|out| - 1].warning] else []
  }

  lemma {:induction false} EntriesAppend(a: seq<Output>, b: seq<Output>)
    ensures Entries(a + b) == Entries(a) + Entries(b)
    ensures Warnings(a + b) == Warnings(a) + Warnings(b)
    decreases |b|
  {
    if b != [] {
      var n := |b| - 1;
      assert (a + b)[..|a + b| - 1] == a + b[..n];
      EntriesAppend(a, b[..n]);
    } else {
      assert a + b == a;
    }
  }

  /** One key's manifest lines: one per matching label, in increasing label
      order, each pointing at `s3://bucket/key` and classed by the label's
      index. */
  lemma {:induction false} KeyEntries(bucket: string, key: string, labels: seq<string>)
    ensures var m := MatchingIndices(key, labels);
            Entries(KeyOutput(bucket, key, labels)) == seq(|m|, j requires 0 <= j < |m| => EntryLine(S3Url(bucket, key), m[j]))
  {
    LabelEntries(bucket, key, labels);
    var tail := if MatchingIndices(key, labels) == [] then [Warn(NoLabel(key))] else [];
    EntriesAppend(LabelOutput(bucket, key, labels), tail);
    assert Entries(tail) == [] by {
      if tail != [] {
        assert tail[..0] == [];
      }
    }
  }

  lemma {:induction false} LabelEntries(bucket: string, key: string, labels: seq<string>)
    ensures var m, e := MatchingIndices(key, labels), Entries(LabelOutput(bucket, key, labels));
            |e| == |m| && forall j :: 0 <= j < |m| ==> e[j] == EntryLine(S3Url(bucket, key), m[j])
    decreases |labels|
  {
    if labels != [] {
      LabelEntries(bucket, key, labels[..|labels| - 1]);
      LabelEntriesStep(bucket, key, labels);
    }
  }

  /** The last label adds its entry line exactly when it occurs in the key. */
  lemma LabelEntriesStep(bucket: string, key: string, labels: seq<string>)
    requires labels != []
    ensures var n := |labels| - 1;
            Entries(LabelOutput(bucket, key, labels)) ==
              Entries(LabelOutput(bucket, key, labels[..n])) +
              if Contains(key, labels[n]) then [EntryLine(S3Url(bucket, key), n)] else []
  {
    var n := |labels| - 1;
    var url := S3Url(bucket, key);
    var w := if MatchingIndices(key, labels[..n]) != [] then [Warn(MultipleLabels(key))] else [];
    var step := if Contains(key, labels[n]) then w + [Entry(EntryLine(url, n))] else [];
    EntriesAppend(LabelOutput(bucket, key, labels[..n]), step);
    if Contains(key, labels[n]) {
      EntriesAppend(w, [Entry(EntryLine(url, n))]);
      assert Entries(w) == [] by {
        if w != [] {
          assert w[..0] == [];
        }
      }
      assert Entries([Entry(EntryLine(url, n))]) == [EntryLine(url, n)] by {
        assert [Entry(EntryLine(url, n))][..0] == [];
      }
    }
  }

  /** One key's warnings: one "multiple labels" warning for every matching
      label after the first, or a single "could not find label" warning when
      none matches. */
  lemma {:induction false} KeyWarnings(bucket: string, key: string, labels: seq<string>)
    ensures var m := |MatchingIndices(key, labels)|;
            Warnings(KeyOutput(bucket, key, labels)) ==
              if m == 0 then [NoLabel(key)] else seq(m - 1, _ => MultipleLabels(key))
  {
    LabelWarnings(bucket, key, labels);
    var tail := if MatchingIndices(key, labels) == [] then [Warn(NoLabel(key))] else [];
    EntriesAppend(LabelOutput(bucket, key, labels), tail);
    if tail != [] {
      assert tail[..0] == [];
    }
  }

  lemma {:induction false} LabelWarnings(bucket: string, key: string, labels: seq<string>)
    ensures var m := |MatchingIndices(key, labels)|;
            Warnings(LabelOutput(bucket, key, labels)) == seq(if m == 0 then 0 else m - 1, _ => MultipleLabels(key))
    decreases |labels|
  {
    if labels != [] {
      var n := |labels| - 1;
      var url := S3Url(bucket, key);
      LabelWarnings(bucket, key, labels[..n]);
      var step := if Contains(key, labels[n]) then
                    (if MatchingIndices(key, labels[..n]) != [] then [Warn(MultipleLabels(key))] else []) +
                    [Entry(EntryLine(url, n))]
                  else [];
      assert LabelOutput(bucket, key, labels) == LabelOutput(bucket, key, labels[..n]) + step;
      EntriesAppend(LabelOutput(bucket, key, labels[..n]), step);
      var prev, m := MatchingIndices(key, labels[..n]), MatchingIndices(key, labels);
      if Contains(key, labels[n]) {
        assert m == prev + [n];
        var w := if MatchingIndices(key, labels[..n]) != [] then [Warn(MultipleLabels(key))] else [];
        EntriesAppend(w, [Entry(EntryLine(url, n))]);
        assert Warnings([Entry(EntryLine(url, n))]) == [] by {
          assert [Entry(EntryLine(url, n))][..0] == [];
        }
        if w != [] {
          assert w[..0] == [];
        }
      }
    }
  }
}
