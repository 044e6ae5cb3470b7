/** `count_classes` of the dataset splitter (functions/dataset_splitter/app.py):
    the number of distinct `class` values over all records, or 0 as soon as a
    record is not JSON or has no `class` key, or a `TypeError` as soon as a
    record is JSON that `'class' in data`, `data['class']` or `classes.add`
    cannot handle.

    JSON parsing is injected: `parse(line)` says what `json.loads(line)` gives
    as far as this function cares. */
module ClassCounter {
  import opened Wrappers

  /** The outcome of parsing one record and looking up its class:
      - `Malformed`: not JSON (`JSONDecodeError`, caught);
      - `Unlabeled`: `'class' in data` is false (an object without the key, or
        a string or array not holding `"class"`);
      - `Labeled(c)`: an object whose `class` value `c` is hashable;
      - `Unusable`: a JSON number, boolean or null (`in` raises), a string or
        array holding `"class"` (indexing it by `'class'` raises), or an
        unhashable class value (`add` raises): each a `TypeError`, which
        nothing catches. */
  datatype Parsed<C> = Malformed | Unlabeled | Labeled(classValue: C) | Unusable

  /** The uncaught `TypeError` of an `Unusable` record. */
  datatype CountError = TypeError

  /** The distinct labels of the labelled records among `lines`. */
  function LabelSet<C(==)>(lines: seq<string>, parse: string -> Parsed<C>): (labels: set<C>)
    ensures |labels| <= |lines|
  {
    if lines == [] then {}
    else
      var last := parse(lines[|lines| - 1]);
      LabelSet(lines[..|lines| - 1], parse) + if last.Labeled? then {last.classValue} else {}
  }

  /** A value is among the labels exactly when some record carries it. */
  lemma {:induction false} LabelSetMembers<C(!new)>(lines: seq<string>, parse: string -> Parsed<C>, c: C)
    ensures c in LabelSet(lines, parse) <==> exists i :: 0 <= i < |lines| && parse(lines[i]) == Labeled(c)
  {
    if lines != [] {
      var init := lines[..|lines| - 1];
      LabelSetMembers(init, parse, c);
      assert forall i :: 0 <= i < |init| ==> init[i] == lines[i];
      if parse(lines[|lines| - 1]) == Labeled(c) {
        assert exists i :: 0 <= i < |lines| && parse(lines[i]) == Labeled(c);
      }
      if exists i :: 0 <= i < |lines| && parse(lines[i]) == Labeled(c) {
        var i :| 0 <= i < |lines| && parse(lines[i]) == Labeled(c);
        if i < |init| {
          assert parse(init[i]) == Labeled(c);
        }
      }
    }
  }

  /** Position of the first record that is not labelled, or `|lines|`. */
  function FirstUnlabeled<C(==)>(lines: seq<string>, parse: string -> Parsed<C>): (k: nat)
    ensures k <= |lines|
    ensures forall i :: 0 <= i < k ==> parse(lines[i]).Labeled?
    ensures k < |lines| ==> !parse(lines[k]).Labeled?
    decreases |lines|
  {
    if lines == [] || !parse(lines[0]).Labeled? then 0
    else 1 + FirstUnlabeled(lines[1..], parse)
  }

  /** What `count_classes(lines)` returns, or the error it raises: the first
      record that is not labelled decides, unless there is none. */
  function ClassCount<C(==)>(lines: seq<string>, parse: string -> Parsed<C>): (r: Result<nat, CountError>)
    ensures r.Success? ==> r.value <= |lines|
    ensures lines == [] ==> r == Success(0)
  {
    var k := FirstUnlabeled(lines, parse);
    if k == |lines| then Success(|LabelSet(lines, parse)|)
    else if parse(lines[k]).Unusable? then Failure(TypeError)
    else Success(0)
  }

  /** `count_classes(lines)`: scans the records in order, collecting labels,
      returns 0 at the first record that fails to parse or lacks `class`, and
      raises at the first record it cannot handle. `scanned` is how many
      records were looked at. */
  method CountClasses<C(==)>(lines: seq<string>, parse: string -> Parsed<C>)
    returns (r: Result<nat, CountError>, scanned: nat)
    ensures r == ClassCount(lines, parse)
    ensures scanned == if FirstUnlabeled(lines, parse) < |lines| then FirstUnlabeled(lines, parse) + 1 else |lines|
  {
    var classes: set<C> := {};
    var i := 0;
    while i < |lines|
      invariant 0 <= i <= |lines|
      invariant forall j :: 0 <= j < i ==> parse(lines[j]).Labeled?
      invariant classes == LabelSet(lines[..i], parse)
    {
      var data := parse(lines[i]);
      if data.Unusable? {
        FirstUnlabeledAt(lines, parse, i);
        return Failure(TypeError), i + 1;
      }
      if !data.Labeled? {
        FirstUnlabeledAt(lines, parse, i);
        return Success(0), i + 1;
      }
      LabelSetStep(lines, parse, i);
      classes := classes + {data.classValue};
      i := i + 1;
    }
    FirstUnlabeledAt(lines, parse, i);
    assert lines[..i] == lines;
    return Success(|classes|), i;
  }

  /** The first record that is not labelled is the one after a labelled run. */
  lemma FirstUnlabeledAt<C>(lines: seq<string>, parse: string -> Parsed<C>, i: nat)
    requires i <= |lines| && forall j :: 0 <= j < i ==> parse(lines[j]).Labeled?
    requires i < |lines| ==> !parse(lines[i]).Labeled?
    ensures FirstUnlabeled(lines, parse) == i
  {
  }

  /** One more labelled record adds its label. */
  lemma LabelSetStep<C>(lines: seq<string>, parse: string -> Parsed<C>, i: nat)
    requires i < |lines| && parse(lines[i]).Labeled?
    ensures LabelSet(lines[..i + 1], parse) == LabelSet(lines[..i], parse) + {parse(lines[i]).classValue}
  {
    assert lines[..i + 1][..i] == lines[..i];
  }

  /** The soft-fail rule: with every record labelled the count is the number
      of distinct labels; a malformed or unlabelled record with only labelled
      records before it makes it 0, whatever follows; and the count raises
      exactly when the first record that is not labelled is unusable. */
  lemma SoftFail<C>(lines: seq<string>, parse: string -> Parsed<C>)
    ensures (forall i :: 0 <= i < |lines| ==> parse(lines[i]).Labeled?) ==>
              ClassCount(lines, parse) == Success(|LabelSet(lines, parse)|)
    ensures (exists i :: 0 <= i < |lines| && (parse(lines[i]).Malformed? || parse(lines[i]).Unlabeled?) &&
                         forall j :: 0 <= j < i ==> parse(lines[j]).Labeled?) ==>
              ClassCount(lines, parse) == Success(0)
    ensures ClassCount(lines, parse).Failure? <==>
              exists i :: 0 <= i < |lines| && parse(lines[i]).Unusable? &&
                          forall j :: 0 <= j < i ==> parse(lines[j]).Labeled?
  {
    var k := FirstUnlabeled(lines, parse);
    if exists i :: 0 <= i < |lines| && parse(lines[i]).Unusable? &&
                   forall j :: 0 <= j < i ==> parse(lines[j]).Labeled? {
      var i :| 0 <= i < |lines| && parse(lines[i]).Unusable? &&
               forall j :: 0 <= j < i ==> parse(lines[j]).Labeled?;
      FirstUnlabeledAt(lines, parse, i);
    }
    if exists i :: 0 <= i < |lines| && (parse(lines[i]).Malformed? || parse(lines[i]).Unlabeled?) &&
                   forall j :: 0 <= j < i ==> parse(lines[j]).Labeled? {
      var i :| 0 <= i < |lines| && (parse(lines[i]).Malformed? || parse(lines[i]).Unlabeled?) &&
               forall j :: 0 <= j < i ==> parse(lines[j]).Labeled?;
      FirstUnlabeledAt(lines, parse, i);
    }
  }

  /** Records labelled "a", "b", "a" have two classes. */
  lemma TwoClassesOfThree(l1: string, l2: string, l3: string, parse: string -> Parsed<string>)
    requires parse(l1) == Labeled("a") && parse(l2) == Labeled("b") && parse(l3) == Labeled("a")
    ensures ClassCount([l1, l2, l3], parse) == Success(2)
  {
    var lines := [l1, l2, l3];
    assert FirstUnlabeled(lines, parse) == 3 by {
      assert lines[1..] == [l2, l3];
      assert lines[1..][1..] == [l3];
      assert lines[1..][1..][1..] == [];
    }
    var labels := LabelSet(lines, parse);
    assert labels == {"a", "b"} by {
      forall c
        ensures c in labels <==> c in {"a", "b"}
      {
        LabelSetMembers(lines, parse, c);
        if c in labels {
          var i :| 0 <= i < 3 && parse(lines[i]) == Labeled(c);
        }
        if c == "a" {
          assert parse(lines[0]) == Labeled(c);
        }
        if c == "b" {
          assert parse(lines[1]) == Labeled(c);
        }
      }
    }
    assert "a" != "b";
  }

  /** A labelled record followed by one that is not JSON gives 0. */
  lemma MalformedGivesZero(l1: string, l2: string, parse: string -> Parsed<string>)
    requires parse(l1) == Labeled("a") && parse(l2) == Malformed
    ensures ClassCount([l1, l2], parse) == Success(0)
  {
    assert [l1, l2][1..] == [l2];
  }

  /** A labelled record followed by a JSON number raises. */
  lemma UnusableRaises(l1: string, l2: string, parse: string -> Parsed<string>)
    requires parse(l1) == Labeled("a") && parse(l2) == Unusable
    ensures ClassCount([l1, l2], parse) == Failure(TypeError)
  {
    assert [l1, l2][1..] == [l2];
  }
}
