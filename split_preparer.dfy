/** The split preparer: fills the `${...}` placeholders of the hyperparameter
    and training-job-name templates with one fold's values, consumes both
    templates, and gives the fold its tag list. Templates are handled as their
    serialised JSON text, which is what the substitutions rewrite. */
module SplitPreparer {
  import opened Wrappers
  import opened Strings

  /** Python's `s.replace(key, value)`: every non-overlapping occurrence of
      `key`, scanning left to right, becomes `value`; an empty `key` matches
      before every character and at the end. */
  function ReplaceAll(s: string, key: string, value: string): (r: string)
    ensures value == key ==> r == s
    ensures key != [] && |value| == |key| ==> |r| == |s|
    decreases |s|
  {
    if key == [] then
      if s == [] then value else value + [s[0]] + ReplaceAll(s[1..], key, value)
    else if |s| < |key| then s
    else if s[..|key|] == key then value + ReplaceAll(s[|key|..], key, value)
    else [s[0]] + ReplaceAll(s[1..], key, value)
  }

  /** A key that does not occur leaves the text as it is. */
  lemma {:induction false} ReplaceAllAbsent(s: string, key: string, value: string)
    requires key != [] && !Contains(s, key)
    ensures ReplaceAll(s, key, value) == s
    decreases |s|
  {
    if |s| >= |key| {
      assert !OccursAt(s, key, 0);
      ContainsTail(s, key);
      ReplaceAllAbsent(s[1..], key, value);
    }
  }

  /** Text free of the key's first character is copied through unchanged and
      does not disturb what follows it. */
  lemma {:induction false} ReplaceAllSkip(p: string, s: string, key: string, value: string)
    requires key != [] && key[0] !in p
    ensures ReplaceAll(p + s, key, value) == p + ReplaceAll(s, key, value)
    decreases |p|
  {
    if p == [] {
      assert p + s == s;
    } else {
      var t, r := p + s, ReplaceAll(s, key, value);
      assert t[0] == p[0] && t[1..] == p[1..] + s;
      ReplaceAllSkip(p[1..], s, key, value);
      assert !OccursAt(t, key, 0) by {
        if |key| <= |t| {
          assert t[0..|key|][0] == p[0];
        }
      }
      ReplaceAllFirst(t, key, value);
      HeadTail(p, r);
    }
  }

  lemma HeadTail(p: string, r: string)
    requires p != []
    ensures [p[0]] + (p[1..] + r) == p + r
  {
    assert [p[0]] + p[1..] == p;
  }

  /** Where the key does not start, the first character is copied through. */
  lemma ReplaceAllFirst(t: string, key: string, value: string)
    requires key != [] && t != [] && !OccursAt(t, key, 0)
    ensures ReplaceAll(t, key, value) == [t[0]] + ReplaceAll(t[1..], key, value)
  {
    if |t| >= |key| {
      assert t[..|key|] == t[0..0 + |key|];
    } else {
      assert [t[0]] + t[1..] == t;
    }
  }

  /** Text in which no occurrence of the key starts is copied through
      unchanged and does not disturb what follows it. */
  lemma {:induction false} ReplaceAllNoMatch(p: string, s: string, key: string, value: string)
    requires key != [] && forall i :: 0 <= i < |p| ==> !OccursAt(p + s, key, i)
    ensures ReplaceAll(p + s, key, value) == p + ReplaceAll(s, key, value)
    decreases |p|
  {
    if p == [] {
      assert p + s == s;
    } else {
      var t, r := p + s, ReplaceAll(s, key, value);
      assert t[0] == p[0] && t[1..] == p[1..] + s;
      assert !OccursAt(t, key, 0);
      forall i | 0 <= i < |p| - 1
        ensures !OccursAt(p[1..] + s, key, i)
      {
        assert !OccursAt(t, key, i + 1);
        if i + |key| <= |t[1..]| {
          assert t[1..][i..i + |key|] == t[i + 1..i + 1 + |key|];
        }
      }
      ReplaceAllNoMatch(p[1..], s, key, value);
      ReplaceAllFirst(t, key, value);
      HeadTail(p, r);
    }
  }

  /** An occurrence at the front becomes the value, and the scan goes on
      after it. */
  lemma ReplaceAllAt(key: string, q: string, value: string)
    requires key != []
    ensures ReplaceAll(key + q, key, value) == value + ReplaceAll(q, key, value)
  {
    assert (key + q)[..|key|] == key;
    assert (key + q)[|key|..] == q;
  }

  /** The leftmost occurrence of the key is replaced by the value, the text
      before it is kept, and the scan resumes after it: with `ReplaceAllAbsent`
      this pins down `str.replace` for a non-empty key. */
  lemma ReplaceAllSingle(p: string, key: string, q: string, value: string)
    requires key != [] && forall i :: 0 <= i < |p| ==> !OccursAt(p + key + q, key, i)
    ensures ReplaceAll(p + key + q, key, value) == p + value + ReplaceAll(q, key, value)
  {
    assert p + key + q == p + (key + q);
    ReplaceAllNoMatch(p, key + q, key, value);
    ReplaceAllAt(key, q, value);
    assert p + (value + ReplaceAll(q, key, value)) == p + value + ReplaceAll(q, key, value);
  }

  /** `substitute_all`'s result: the substitutions applied one after another,
      in order, to the serialised template. Substitutions that map each key to
      itself change nothing; ones that keep each key's length keep the text's. */
  function Substituted(text: string, subs: seq<(string, string)>): (r: string)
    ensures (forall i :: 0 <= i < |subs| ==> subs[i].0 == subs[i].1) ==> r == text
    ensures (forall i :: 0 <= i < |subs| ==> subs[i].0 != [] && |subs[i].1| == |subs[i].0|) ==> |r| == |text|
  {
    if subs == [] then text
    else ReplaceAll(Substituted(text, subs[..|subs| - 1]), subs[|subs| - 1].0, subs[|subs| - 1].1)
  }

  /** `substitute_all(template, substitutions)`, on the serialised template:
      each key, in the dictionary's order, replaced throughout the text. */
  method SubstituteAll(template: string, subs: seq<(string, string)>) returns (result: string)
    ensures result == Substituted(template, subs)
  {
    result := template;
    for i := 0 to |subs|
      invariant result == Substituted(template, subs[..i])
    {
      assert subs[..i + 1][..i] == subs[..i];
      result := ReplaceAll(result, subs[i].0, subs[i].1);
    }
    assert subs[..|subs|] == subs;
  }

  /** A template that mentions none of the (non-empty) keys comes back as it
      was. */
  lemma {:induction false} SubstitutedAbsent(text: string, subs: seq<(string, string)>)
    requires forall i :: 0 <= i < |subs| ==> subs[i].0 != [] && !Contains(text, subs[i].0)
    ensures Substituted(text, subs) == text
  {
    if subs != [] {
      SubstitutedAbsent(text, subs[..|subs| - 1]);
      ReplaceAllAbsent(text, subs[|subs| - 1].0, subs[|subs| - 1].1);
    }
  }

  /** A serialised template cut into literal text and placeholders. */
  datatype Piece = Lit(text: string) | Hole(key: string)

  function PieceText(p: Piece): string {
    match p
    case Lit(t) => t
    case Hole(k) => k
  }

  /** The serialised text the pieces spell. */
  function Raw(ps: seq<Piece>): string {
    if ps == [] then [] else PieceText(ps[0]) + Raw(ps[1..])
  }

  /** The position of the first substitution for key `k`, or `|subs|`. */
  function FirstKey(subs: seq<(string, string)>, k: string): (j: nat)
    ensures j <= |subs|
    ensures j < |subs| ==> subs[j].0 == k
    ensures forall i :: 0 <= i < j ==> subs[i].0 != k
  {
    if subs == [] then 0 else if subs[0].0 == k then 0 else 1 + FirstKey(subs[1..], k)
  }

  /** A placeholder that has a substitution becomes the first substitution's
      value; literal text and other placeholders stay. */
  function FillPiece(p: Piece, subs: seq<(string, string)>): Piece {
    match p
    case Lit(_) => p
    case Hole(k) => var j := FirstKey(subs, k); if j < |subs| then Lit(subs[j].1) else p
  }

  function Fill(ps: seq<Piece>, subs: seq<(string, string)>): seq<Piece> {
    seq(|ps|, i requires 0 <= i < |ps| => FillPiece(ps[i], subs))
  }

  /** A `${...}`-style placeholder: a `$` in front and nowhere else. */
  predicate Placeholder(k: string) {
    |k| > 0 && k[0] == '$' && forall i :: 1 <= i < |k| ==> k[i] != '$'
  }

  /** Neither string is a prefix of the other. */
  predicate Apart(a: string, b: string) {
    exists j :: 0 <= j < |a| && j < |b| && a[j] != b[j]
  }

  /** Keys are placeholders and values hold no `$`. */
  predicate SubsReady(subs: seq<(string, string)>) {
    forall i :: 0 <= i < |subs| ==> Placeholder(subs[i].0) && '$' !in subs[i].1
  }

  /** Literal text holds no `$`; a placeholder is each key or apart from it. */
  predicate PieceReady(p: Piece, subs: seq<(string, string)>) {
    match p
    case Lit(t) => '$' !in t
    case Hole(k) => Placeholder(k) && forall j :: 0 <= j < |subs| ==> k == subs[j].0 || Apart(k, subs[j].0)
  }

  predicate TemplateReady(ps: seq<Piece>, subs: seq<(string, string)>) {
    forall i :: 0 <= i < |ps| ==> PieceReady(ps[i], subs)
  }

  /** A piece one `str.replace(key, value)` treats as a unit. */
  predicate StepReady(p: Piece, key: string) {
    key != [] &&
    match p
    case Lit(t) => key[0] !in t
    case Hole(k) => k == key || (k != [] && (forall i :: 1 <= i < |k| ==> k[i] != key[0]) && Apart(k, key))
  }

  /** A placeholder other than the key is copied through whole. */
  lemma ReplaceAllOther(k: string, r: string, key: string, value: string)
    requires key != [] && k != [] && (forall i :: 1 <= i < |k| ==> k[i] != key[0]) && Apart(k, key)
    ensures ReplaceAll(k + r, key, value) == k + ReplaceAll(r, key, value)
  {
    assert key[0] !in k[1..] by {
      forall i | 0 <= i < |k| - 1
        ensures k[1..][i] != key[0]
      {
        assert k[1..][i] == k[i + 1];
      }
    }
    var t := k + r;
    var j :| 0 <= j < |k| && j < |key| && k[j] != key[j];
    assert !OccursAt(t, key, 0) by {
      if |key| <= |t| {
        assert t[0..|key|][j] == k[j];
      }
    }
    assert t[0] == k[0] && t[1..] == k[1..] + r;
    ReplaceAllFirst(t, key, value);
    ReplaceAllSkip(k[1..], r, key, value);
    HeadTail(k, ReplaceAll(r, key, value));
  }

  /** One `str.replace(key, value)` over pieces it treats as units turns
      exactly the placeholders `key` into `value`. */
  lemma {:induction false} ReplaceAllPieces(qs: seq<Piece>, key: string, value: string)
    requires key != [] && forall i :: 0 <= i < |qs| ==> StepReady(qs[i], key)
    ensures ReplaceAll(Raw(qs), key, value) == Raw(Fill(qs, [(key, value)]))
  {
    var sub := [(key, value)];
    if qs != [] {
      var rest := Raw(qs[1..]);
      assert Fill(qs, sub)[1..] == Fill(qs[1..], sub);
      ReplaceAllPieces(qs[1..], key, value);
      match qs[0]
      case Lit(t) =>
        ReplaceAllSkip(t, rest, key, value);
      case Hole(k) =>
        if k == key {
          assert FirstKey(sub, k) == 0;
          ReplaceAllAt(key, rest, value);
        } else {
          assert FirstKey(sub, k) == 1;
          ReplaceAllOther(k, rest, key, value);
        }
    } else {
      assert Fill(qs, sub) == [];
    }
  }

  /** Filling with one more substitution is filling with the earlier ones,
      then with the new one. */
  lemma FillStep(ps: seq<Piece>, subs: seq<(string, string)>)
    requires subs != []
    ensures Fill(ps, subs) == Fill(Fill(ps, subs[..|subs| - 1]), [subs[|subs| - 1]])
  {
    var pre, last := subs[..|subs| - 1], subs[|subs| - 1];
    forall i | 0 <= i < |ps|
      ensures FillPiece(ps[i], subs) == FillPiece(FillPiece(ps[i], pre), [last])
    {
      if ps[i].Hole? {
        FirstKeyPrefix(subs, ps[i].key);
      }
    }
  }

  lemma FirstKeyPrefix(subs: seq<(string, string)>, k: string)
    requires subs != []
    ensures var pre, a, b := subs[..|subs| - 1], FirstKey(subs[..|subs| - 1], k), FirstKey(subs, k);
            && (a < |pre| ==> b == a)
            && (a == |pre| ==> b == if subs[|pre|].0 == k then |pre| else |subs|)
  {
    var pre := subs[..|subs| - 1];
    forall i | 0 <= i < |pre|
      ensures pre[i] == subs[i]
    {
    }
  }

  /** After the earlier substitutions, every piece is one the next
      replacement treats as a unit. */
  lemma FilledStepReady(ps: seq<Piece>, subs: seq<(string, string)>)
    requires subs != [] && SubsReady(subs) && TemplateReady(ps, subs)
    ensures var qs, key := Fill(ps, subs[..|subs| - 1]), subs[|subs| - 1].0;
            forall i :: 0 <= i < |qs| ==> StepReady(qs[i], key)
  {
    var pre, key := subs[..|subs| - 1], subs[|subs| - 1].0;
    var qs := Fill(ps, pre);
    forall i | 0 <= i < |qs|
      ensures StepReady(qs[i], key)
    {
      assert Placeholder(key);
      if ps[i].Hole? {
        var a := FirstKey(pre, ps[i].key);
        if a < |pre| {
          assert pre[a] == subs[a];
          assert '$' !in subs[a].1;
        } else {
          assert PieceReady(ps[i], subs);
        }
      } else {
        assert PieceReady(ps[i], subs);
      }
    }
  }

  /** `substitute_all` on a template cut into pieces: for keys that are
      placeholders, values without `$`, literal text without `$`, and
      placeholders that are each key or apart from it, the result is the
      template with every placeholder that has a substitution replaced by its
      value. */
  lemma {:induction false} SubstitutedFills(ps: seq<Piece>, subs: seq<(string, string)>)
    requires SubsReady(subs) && TemplateReady(ps, subs)
    ensures Substituted(Raw(ps), subs) == Raw(Fill(ps, subs))
  {
    if subs == [] {
      assert Fill(ps, subs) == ps;
    } else {
      var pre, last := subs[..|subs| - 1], subs[|subs| - 1];
      assert SubsReady(pre) && TemplateReady(ps, pre) by {
        forall i | 0 <= i < |ps|
          ensures PieceReady(ps[i], pre)
        {
          assert PieceReady(ps[i], subs);
        }
      }
      SubstitutedFills(ps, pre);
      FilledStepReady(ps, subs);
      ReplaceAllPieces(Fill(ps, pre), last.0, last.1);
      FillStep(ps, subs);
    }
  }

  const TrainingKey := "${num_training_samples}"
  const ValidationKey := "${num_validation_samples}"
  const ClassesKey := "${num_classes}"

  /** The three count placeholders are `${...}` placeholders, none a prefix
      of another. */
  lemma CountKeysApart()
    ensures Placeholder(TrainingKey) && Placeholder(ValidationKey) && Placeholder(ClassesKey)
    ensures Apart(TrainingKey, ValidationKey) && Apart(ValidationKey, TrainingKey)
    ensures Apart(TrainingKey, ClassesKey) && Apart(ClassesKey, TrainingKey)
    ensures Apart(ValidationKey, ClassesKey) && Apart(ClassesKey, ValidationKey)
  {
    KeyIsPlaceholder(TrainingKey);
    KeyIsPlaceholder(ValidationKey);
    KeyIsPlaceholder(ClassesKey);
    assert TrainingKey[6] == 't' && ValidationKey[6] == 'v' && ClassesKey[6] == 'c';
  }

  lemma KeyIsPlaceholder(k: string)
    requires k == TrainingKey || k == ValidationKey || k == ClassesKey
    ensures Placeholder(k)
  {
  }

  /** A piece with each count placeholder replaced by its value. */
  function CountFilled(p: Piece, t: string, v: string, c: string): Piece {
    if p == Hole(TrainingKey) then Lit(t)
    else if p == Hole(ValidationKey) then Lit(v)
    else if p == Hole(ClassesKey) then Lit(c)
    else p
  }

  lemma CountPieceFilled(p: Piece, t: string, v: string, c: string)
    requires '$' !in t && '$' !in v && '$' !in c
    requires if p.Lit? then '$' !in p.text else p.key == TrainingKey || p.key == ValidationKey || p.key == ClassesKey
    ensures PieceReady(p, HyperParameterSubstitutions(t, v, c))
    ensures FillPiece(p, HyperParameterSubstitutions(t, v, c)) == CountFilled(p, t, v, c)
  {
    if p.Hole? {
      CountHoleReady(p.key, t, v, c);
      CountHoleFilled(p.key, t, v, c);
    }
  }

  lemma CountHoleReady(k: string, t: string, v: string, c: string)
    requires k == TrainingKey || k == ValidationKey || k == ClassesKey
    ensures PieceReady(Hole(k), HyperParameterSubstitutions(t, v, c))
  {
    CountKeysApart();
    var subs := HyperParameterSubstitutions(t, v, c);
    assert subs[0].0 == TrainingKey && subs[1].0 == ValidationKey && subs[2].0 == ClassesKey;
    forall j | 0 <= j < |subs|
      ensures k == subs[j].0 || Apart(k, subs[j].0)
    {
      if j == 0 {
        assert k == TrainingKey || Apart(k, TrainingKey);
      } else if j == 1 {
        assert k == ValidationKey || Apart(k, ValidationKey);
      } else {
        assert k == ClassesKey || Apart(k, ClassesKey);
      }
    }
  }

  lemma CountHoleFilled(k: string, t: string, v: string, c: string)
    requires k == TrainingKey || k == ValidationKey || k == ClassesKey
    ensures FillPiece(Hole(k), HyperParameterSubstitutions(t, v, c)) == CountFilled(Hole(k), t, v, c)
  {
    var subs := HyperParameterSubstitutions(t, v, c);
    assert subs[0].0 == TrainingKey && subs[1].0 == ValidationKey && subs[2].0 == ClassesKey;
  }

  /** The hyperparameter step on a template whose only `$` signs start the
      three count placeholders (each any number of times, in any order): the
      serialised result is the template with every `${num_training_samples}`
      replaced by the training count, every `${num_validation_samples}` by the
      validation count and every `${num_classes}` by the class count, given
      values without `$` (the handler receives decimal strings). */
  lemma HyperParametersFilled(ps: seq<Piece>, t: string, v: string, c: string)
    requires '$' !in t && '$' !in v && '$' !in c
    requires forall i :: 0 <= i < |ps| ==>
               if ps[i].Lit? then '$' !in ps[i].text
               else ps[i].key == TrainingKey || ps[i].key == ValidationKey || ps[i].key == ClassesKey
    ensures var subs := HyperParameterSubstitutions(t, v, c);
            Substituted(Raw(ps), subs) == Raw(Fill(ps, subs))
    ensures var filled := Fill(ps, HyperParameterSubstitutions(t, v, c));
            && |filled| == |ps|
            && forall i :: 0 <= i < |ps| ==> filled[i] == CountFilled(ps[i], t, v, c)
  {
    var subs := HyperParameterSubstitutions(t, v, c);
    CountKeysApart();
    assert SubsReady(subs);
    forall i | 0 <= i < |ps|
      ensures PieceReady(ps[i], subs)
      ensures Fill(ps, subs)[i] == CountFilled(ps[i], t, v, c)
    {
      CountPieceFilled(ps[i], t, v, c);
    }
    SubstitutedFills(ps, subs);
  }

  /** The hyperparameter substitutions: the three count placeholders, in this
      order, each replaced by the split's value. */
  function HyperParameterSubstitutions(numTrainingSamples: string, numValidationSamples: string,
                                       numClasses: string): (subs: seq<(string, string)>)
    ensures |subs| == 3
    ensures subs[0] == ("${num_training_samples}", numTrainingSamples)
    ensures subs[1] == ("${num_validation_samples}", numValidationSamples)
    ensures subs[2] == ("${num_classes}", numClasses)
  {
    [(TrainingKey, numTrainingSamples), (ValidationKey, numValidationSamples), (ClassesKey, numClasses)]
  }

  /** The placeholders the hyperparameter template may use are exactly the
      three count keys; `${fold_name}` and `${num_testing_samples}` are not
      among them. */
  lemma HyperParameterKeys(t: string, v: string, c: string)
    ensures var keys := set i | 0 <= i < 3 :: HyperParameterSubstitutions(t, v, c)[i].0;
            keys == {"${num_training_samples}", "${num_validation_samples}", "${num_classes}"}
            && "${fold_name}" !in keys && "${num_testing_samples}" !in keys
  {
    var subs := HyperParameterSubstitutions(t, v, c);
    var keys := set i | 0 <= i < 3 :: subs[i].0;
    assert subs[0].0 in keys && subs[1].0 in keys && subs[2].0 in keys;
    assert "${fold_name}"[2] != "${num_training_samples}"[2];
    assert "${num_testing_samples}"[7] != "${num_training_samples}"[7];
    assert "${num_testing_samples}"[6] != "${num_validation_samples}"[6];
    assert "${num_testing_samples}"[6] != "${num_classes}"[6];
  }

  /** The training-job-name substitution: only `${fold_name}`. */
  function JobNameSubstitutions(foldName: string): (subs: seq<(string, string)>)
    ensures |subs| == 1 && subs[0] == ("${fold_name}", foldName)
  {
    [("${fold_name}", foldName)]
  }

  /** `json.dumps` of a string with nothing to escape. */
  function Quoted(s: string): (r: string)
    ensures |r| == |s| + 2 && r[0] == '"' && r[|r| - 1] == '"' && r[1..|r| - 1] == s
  {
    "\"" + s + "\""
  }

  /** With the job-name template `job_name + "-${fold_name}"`, each fold's
      training job is named `job_name + "-" + fold_name`, provided the job name
      holds no `$`. */
  lemma TrainingJobNameOf(jobName: string, foldName: string)
    requires '$' !in jobName
    ensures Substituted(Quoted(jobName + "-${fold_name}"), JobNameSubstitutions(foldName))
            == Quoted(jobName + "-" + foldName)
  {
    var key := "${fold_name}";
    var p := "\"" + jobName + "-";
    assert Quoted(jobName + "-${fold_name}") == p + key + "\"";
    forall i | 0 <= i < |p|
      ensures !OccursAt(p + key + "\"", key, i)
    {
      assert (p + key + "\"")[i] == p[i] != '$';
      if i + |key| <= |p + key + "\""| {
        assert (p + key + "\"")[i..i + |key|][0] == p[i];
      }
    }
    ReplaceAllSingle(p, key, "\"", foldName);
    assert Substituted(Quoted(jobName + "-${fold_name}"), JobNameSubstitutions(foldName))
        == ReplaceAll(p + key + "\"", key, foldName);
  }

  /** One entry of a tag list: `{'Key': key, 'Value': value}`. */
  datatype Tag = Tag(key: string, value: string)

  /** `split['tags']` after the handler: the job's tags (none when absent),
      then the fold name, the cross-validation job name and the creator. */
  function SplitTags(jobTags: Option<seq<Tag>>, foldName: string, jobName: string): (tags: seq<Tag>)
    ensures |tags| == |jobTags.GetOr([])| + 3
    ensures tags[..|jobTags.GetOr([])|] == jobTags.GetOr([])
    ensures tags[|tags| - 3] == Tag("fold_name", foldName)
    ensures tags[|tags| - 2] == Tag("crossvalidator_job_name", jobName)
    ensures tags[|tags| - 1] == Tag("created_by", "smx-validator")
  {
    jobTags.GetOr([]) + [Tag("fold_name", foldName), Tag("crossvalidator_job_name", jobName),
                         Tag("created_by", "smx-validator")]
  }

  /** A missing dictionary key: the handler's `KeyError`. */
  datatype KeyError = KeyError(key: string)

  /** `event['training']`: the two templates, each removed once used. */
  class TrainingInfo {
    var hyperParametersTemplate: Option<string>
    var trainingJobNameTemplate: Option<string>

    constructor (hyperParametersTemplate: Option<string>, trainingJobNameTemplate: Option<string>)
      ensures this.hyperParametersTemplate == hyperParametersTemplate
      ensures this.trainingJobNameTemplate == trainingJobNameTemplate
    {
      this.hyperParametersTemplate := hyperParametersTemplate;
      this.trainingJobNameTemplate := trainingJobNameTemplate;
    }
  }

  /** `event['job_config']`: the cross-validation job's name and its tags. */
  class JobConfig {
    var jobName: Option<string>
    var tags: Option<seq<Tag>>

    constructor (jobName: Option<string>, tags: Option<seq<Tag>>)
      ensures this.jobName == jobName && this.tags == tags
    {
      this.jobName := jobName;
      this.tags := tags;
    }
  }

  /** `event['split']`: one fold's descriptor, which the handler extends. */
  class Split {
    var numTrainingSamples: Option<string>
    var numValidationSamples: Option<string>
    var numClasses: Option<string>
    var foldName: Option<string>
    var hyperParameters: Option<string>
    var trainingJobName: Option<string>
    var tags: Option<seq<Tag>>

    constructor (numTrainingSamples: Option<string>, numValidationSamples: Option<string>,
                 numClasses: Option<string>, foldName: Option<string>)
      ensures this.numTrainingSamples == numTrainingSamples
      ensures this.numValidationSamples == numValidationSamples
      ensures this.numClasses == numClasses && this.foldName == foldName
      ensures hyperParameters.None? && trainingJobName.None? && tags.None?
    {
      this.numTrainingSamples := numTrainingSamples;
      this.numValidationSamples := numValidationSamples;
      this.numClasses := numClasses;
      this.foldName := foldName;
      hyperParameters, trainingJobName, tags := None, None, None;
    }
  }

  /** The handler's event: its three sections. */
  class Event {
    const training: TrainingInfo
    const jobConfig: JobConfig
    const split: Split

    constructor (training: TrainingInfo, jobConfig: JobConfig, split: Split)
      ensures this.training == training && this.jobConfig == jobConfig && this.split == split
    {
      this.training := training;
      this.jobConfig := jobConfig;
      this.split := split;
    }
  }

  /** The split preparer's `lambda_handler`. In order: the hyperparameters are
      substituted into `split` and their template deleted; the job name is
      substituted and its template deleted; `split['tags']` becomes a copy of
      the job's tags, then gains the three fold tags. Each step reads keys that
      may be missing, and a missing key stops the handler where it stands,
      keeping what earlier steps wrote. The job config is never changed, and on
      success the same event comes back. */
  method LambdaHandler(event: Event) returns (r: Result<Event, KeyError>)
    modifies event.training, event.split
    ensures unchanged(event.jobConfig)
    ensures event.split.numTrainingSamples == old(event.split.numTrainingSamples)
    ensures event.split.numValidationSamples == old(event.split.numValidationSamples)
    ensures event.split.numClasses == old(event.split.numClasses)
    ensures event.split.foldName == old(event.split.foldName)
    // step 1: the hyperparameters
    ensures old(event.training.hyperParametersTemplate).None? ==>
              r == Failure(KeyError("HyperParameters_template")) && unchanged(event.training, event.split)
    ensures old(event.training.hyperParametersTemplate).Some? && old(event.split.numTrainingSamples).None? ==>
              r == Failure(KeyError("num_training_samples")) && unchanged(event.training, event.split)
    ensures old(event.training.hyperParametersTemplate).Some? && old(event.split.numTrainingSamples).Some?
            && old(event.split.numValidationSamples).None? ==>
              r == Failure(KeyError("num_validation_samples")) && unchanged(event.training, event.split)
    ensures old(event.training.hyperParametersTemplate).Some? && old(event.split.numTrainingSamples).Some?
            && old(event.split.numValidationSamples).Some? && old(event.split.numClasses).None? ==>
              r == Failure(KeyError("num_classes")) && unchanged(event.training, event.split)
    ensures HyperParametersReady(old(event.training.hyperParametersTemplate), old(event.split.numTrainingSamples),
                                 old(event.split.numValidationSamples), old(event.split.numClasses)) ==>
              && event.training.hyperParametersTemplate.None?
              && event.split.hyperParameters == Some(Substituted(old(event.training.hyperParametersTemplate).value,
                   HyperParameterSubstitutions(old(event.split.numTrainingSamples).value,
                                               old(event.split.numValidationSamples).value,
                                               old(event.split.numClasses).value)))
    // step 2: the training job name
    ensures HyperParametersReady(old(event.training.hyperParametersTemplate), old(event.split.numTrainingSamples),
                                 old(event.split.numValidationSamples), old(event.split.numClasses)) ==>
              if old(event.training.trainingJobNameTemplate).None? then
                && r == Failure(KeyError("TrainingJobName_template"))
                && event.training.trainingJobNameTemplate.None?
                && event.split.trainingJobName == old(event.split.trainingJobName)
                && event.split.tags == old(event.split.tags)
              else if old(event.split.foldName).None? then
                && r == Failure(KeyError("fold_name"))
                && event.training.trainingJobNameTemplate == old(event.training.trainingJobNameTemplate)
                && event.split.trainingJobName == old(event.split.trainingJobName)
                && event.split.tags == old(event.split.tags)
              else
                && event.training.trainingJobNameTemplate.None?
                && event.split.trainingJobName == Some(Substituted(old(event.training.trainingJobNameTemplate).value,
                                                                   JobNameSubstitutions(old(event.split.foldName).value)))
                // step 3: the tags
                && if event.jobConfig.jobName.None? then
                     && r == Failure(KeyError("job_name"))
                     && event.split.tags == Some(event.jobConfig.tags.GetOr([]))
                   else
                     && r == Success(event)
                     && event.split.tags == Some(SplitTags(event.jobConfig.tags, old(event.split.foldName).value,
                                                           event.jobConfig.jobName.value))
  {
    var training, jobConfig, split := event.training, event.jobConfig, event.split;
    if training.hyperParametersTemplate.None? {
      return Failure(KeyError("HyperParameters_template"));
    }
    if split.numTrainingSamples.None? {
      return Failure(KeyError("num_training_samples"));
    }
    if split.numValidationSamples.None? {
      return Failure(KeyError("num_validation_samples"));
    }
    if split.numClasses.None? {
      return Failure(KeyError("num_classes"));
    }
    var hyperParameters := SubstituteAll(training.hyperParametersTemplate.value,
      HyperParameterSubstitutions(split.numTrainingSamples.value, split.numValidationSamples.value,
                                  split.numClasses.value));
    split.hyperParameters := Some(hyperParameters);
    training.hyperParametersTemplate := None;

    if training.trainingJobNameTemplate.None? {
      return Failure(KeyError("TrainingJobName_template"));
    }
    if split.foldName.None? {
      return Failure(KeyError("fold_name"));
    }
    var jobName := SubstituteAll(training.trainingJobNameTemplate.value, JobNameSubstitutions(split.foldName.value));
    split.trainingJobName := Some(jobName);
    training.trainingJobNameTemplate := None;

    split.tags := Some(jobConfig.tags.GetOr([]));
    if jobConfig.jobName.None? {
      return Failure(KeyError("job_name"));
    }
    split.tags := Some(split.tags.value + [Tag("fold_name", split.foldName.value),
                                           Tag("crossvalidator_job_name", jobConfig.jobName.value),
                                           Tag("created_by", "smx-validator")]);
    return Success(event);
  }

  /** Every input the hyperparameter step reads is present. */
  predicate HyperParametersReady(template: Option<string>, numTrainingSamples: Option<string>,
                                 numValidationSamples: Option<string>, numClasses: Option<string>) {
    template.Some? && numTrainingSamples.Some? && numValidationSamples.Some? && numClasses.Some?
  }
}
