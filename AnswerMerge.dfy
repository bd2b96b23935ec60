/**
 * `add_answers_to_experiments`: copy reference answers into a list of saved
 * experiment records, by position. Record `i` receives the answer stored
 * under `"Q<problem_indexes[i]>"`, in its `answer` field; a missing answer
 * and a position past the end of the list only produce a warning.
 *
 * The two YAML files come in already parsed: the experiments document as a
 * list of records or some other value, the answers as a mapping. What the
 * script prints is returned as a list of messages.
 */
module AnswerMerge {
  import opened Text
  import opened PyValue

  /**
   * One experiment result: a dictionary from field name to value. `yaml.dump`
   * sorts the keys it writes, so the order of a record's fields is never seen
   * and a map is enough.
   */
  type Record = map<string, Value>

  /** The experiments file: a list of records, or anything else. */
  datatype Experiments = Records(records: seq<Record>) | NotAList(value: Value)

  /** What the script prints. */
  datatype Message =
    | MissingAnswer(key: string)
    | BeyondExperiments(position: nat, problemIndex: int)
    | Added(count: nat)

  const AnswerField := "answer"

  /** `f"Q{problem_index}"`. */
  function AnswerKey(problemIndex: int): string {
    "Q" + IntToString(problemIndex)
  }

  /** The key at one position. */
  lemma KeyAt(problemIndexes: seq<int>, k: nat)
    requires k < |problemIndexes|
    ensures Keys(problemIndexes)[k] == AnswerKey(problemIndexes[k])
  {
    KeysAt(problemIndexes);
  }

  /** Different problem numbers look up different answers. */
  lemma AnswerKeyInjective(i: int, j: int)
    ensures AnswerKey(i) == AnswerKey(j) ==> i == j
  {
    if AnswerKey(i) == AnswerKey(j) {
      assert AnswerKey(i)[1..] == IntToString(i);
      assert AnswerKey(j)[1..] == IntToString(j);
      IntToStringRoundTrip(i);
      IntToStringRoundTrip(j);
    }
  }

  /** The answer keys of the problems, in order. */
  function Keys(problemIndexes: seq<int>): (r: seq<string>)
    ensures |r| == |problemIndexes|
  {
    if problemIndexes == [] then [] else [AnswerKey(problemIndexes[0])] + Keys(problemIndexes[1..])
  }

  lemma {:induction false} KeysAt(problemIndexes: seq<int>)
    ensures forall k :: 0 <= k < |problemIndexes| ==> Keys(problemIndexes)[k] == AnswerKey(problemIndexes[k])
    decreases |problemIndexes|
  {
    if problemIndexes != [] {
      KeysAt(problemIndexes[1..]);
      forall k | 1 <= k < |problemIndexes| ensures Keys(problemIndexes)[k] == AnswerKey(problemIndexes[k]) {
        assert Keys(problemIndexes)[k] == Keys(problemIndexes[1..])[k - 1];
        assert problemIndexes[k] == problemIndexes[1..][k - 1];
      }
    }
  }

  /** Record `r` after the step that looks up `key`. */
  function Updated(r: Record, answers: map<string, Value>, key: string): Record {
    if key in answers then r[AnswerField := answers[key]] else r
  }

  /** The records after the merge: the first `|keys|` updated in order, the rest as they were. */
  function Merged(records: seq<Record>, answers: map<string, Value>, keys: seq<string>): (r: seq<Record>)
    ensures |r| == |records|
  {
    if records == [] || keys == [] then records
    else [Updated(records[0], answers, keys[0])] + Merged(records[1..], answers, keys[1..])
  }

  /**
   * Matching is by position only: record `k` gets the answer under key `k`
   * when there is one, and every other record is unchanged.
   */
  lemma {:induction false} MergedAt(records: seq<Record>, answers: map<string, Value>, keys: seq<string>)
    ensures forall k :: 0 <= k < |records| && k < |keys| && keys[k] in answers ==>
      Merged(records, answers, keys)[k] == records[k][AnswerField := answers[keys[k]]]
    ensures forall k :: 0 <= k < |records| && (k >= |keys| || keys[k] !in answers) ==>
      Merged(records, answers, keys)[k] == records[k]
    decreases |records|
  {
    if records != [] && keys != [] {
      var m := Merged(records, answers, keys);
      var tl := Merged(records[1..], answers, keys[1..]);
      MergedAt(records[1..], answers, keys[1..]);
      forall k | 1 <= k < |records| ensures m[k] == tl[k - 1] && records[k] == records[1..][k - 1] {
      }
      forall k | 1 <= k < |records| && k < |keys| ensures keys[k] == keys[1..][k - 1] {
      }
    }
  }

  /** Record `k` of the result in terms of record `k` of the input. */
  lemma MergedIs(records: seq<Record>, answers: map<string, Value>, keys: seq<string>, k: nat)
    requires k < |records|
    ensures Merged(records, answers, keys)[k] == if k < |keys| then Updated(records[k], answers, keys[k]) else records[k]
  {
    MergedAt(records, answers, keys);
  }

  /** Only the `answer` field can change: every other field of every record keeps its presence and value. */
  lemma MergedFrame(records: seq<Record>, answers: map<string, Value>, keys: seq<string>)
    ensures forall k, f :: 0 <= k < |records| && f != AnswerField ==>
      (f in Merged(records, answers, keys)[k] <==> f in records[k]) &&
      (f in records[k] ==> Merged(records, answers, keys)[k][f] == records[k][f])
  {
    MergedAt(records, answers, keys);
  }

  /** Merging twice with the same inputs is merging once: the answers are assigned, not appended. */
  lemma MergedIdempotent(records: seq<Record>, answers: map<string, Value>, keys: seq<string>)
    ensures Merged(Merged(records, answers, keys), answers, keys) == Merged(records, answers, keys)
  {
    var once := Merged(records, answers, keys);
    var twice := Merged(once, answers, keys);
    forall k | 0 <= k < |records| ensures twice[k] == once[k] {
      MergedIs(records, answers, keys, k);
      MergedIs(once, answers, keys, k);
    }
  }

  /** Taking one more key updates one more record, when there is one. */
  lemma MergedExtend(records: seq<Record>, answers: map<string, Value>, keys: seq<string>, i: nat)
    requires i < |keys|
    ensures i < |records| ==>
      Merged(records, answers, keys[..i + 1]) == Merged(records, answers, keys[..i])[i := Updated(records[i], answers, keys[i])]
    ensures i >= |records| ==> Merged(records, answers, keys[..i + 1]) == Merged(records, answers, keys[..i])
  {
    var longer := Merged(records, answers, keys[..i + 1]);
    var shorter := Merged(records, answers, keys[..i]);
    forall k | 0 <= k < |records|
      ensures longer[k] == if k == i then Updated(records[k], answers, keys[k]) else shorter[k]
    {
      MergedIs(records, answers, keys[..i + 1], k);
      MergedIs(records, answers, keys[..i], k);
    }
  }

  /** The record merged at position `k` receives the answer for problem `problemIndexes[k]`. */
  lemma MergedProblem(records: seq<Record>, answers: map<string, Value>, problemIndexes: seq<int>, k: nat)
    requires k < |records| && k < |problemIndexes|
    ensures var key := "Q" + IntToString(problemIndexes[k]);
      Merged(records, answers, Keys(problemIndexes))[k] ==
        if key in answers then records[k][AnswerField := answers[key]] else records[k]
  {
    KeysAt(problemIndexes);
    MergedIs(records, answers, Keys(problemIndexes), k);
  }

  // ---------------------------------------------------------------------------
  // Warnings

  /** The warning for position `i`, problem `problemIndex` with key `key`, against `n` records: none when the answer is copied. */
  function Note(n: nat, answers: map<string, Value>, i: nat, problemIndex: int, key: string): seq<Message> {
    if i < n then
      if key in answers then [] else [MissingAnswer(key)]
    else [BeyondExperiments(i, problemIndex)]
  }

  /** The warnings of the loop over the problems (numbers and their keys) against `n` records, in order. */
  function Warnings(n: nat, answers: map<string, Value>, problemIndexes: seq<int>, keys: seq<string>): seq<Message>
    requires |keys| == |problemIndexes|
    decreases |problemIndexes|
  {
    if problemIndexes == [] then []
    else
      var i := |problemIndexes| - 1;
      Warnings(n, answers, problemIndexes[..i], keys[..i]) + Note(n, answers, i, problemIndexes[i], keys[i])
  }

  /**
   * A missing answer is reported exactly for the positions that have a record
   * and a key absent from the answers; a position past the records is reported
   * exactly when there is a problem number for it.
   */
  lemma {:induction false} WarningsSpec(n: nat, answers: map<string, Value>, problemIndexes: seq<int>, keys: seq<string>)
    requires |keys| == |problemIndexes|
    ensures forall key :: MissingAnswer(key) in Warnings(n, answers, problemIndexes, keys) <==>
      key !in answers && exists i :: 0 <= i < |keys| && i < n && keys[i] == key
    ensures forall p: nat, q :: BeyondExperiments(p, q) in Warnings(n, answers, problemIndexes, keys) <==>
      n <= p < |problemIndexes| && problemIndexes[p] == q
    ensures forall c :: Added(c) !in Warnings(n, answers, problemIndexes, keys)
    decreases |problemIndexes|
  {
    if problemIndexes != [] {
      var i := |problemIndexes| - 1;
      WarningsSpec(n, answers, problemIndexes[..i], keys[..i]);
      assert forall j :: 0 <= j < i ==> keys[..i][j] == keys[j];
      assert forall j :: 0 <= j < i ==> problemIndexes[..i][j] == problemIndexes[j];
    }
  }

  // ---------------------------------------------------------------------------
  // The script

  /** The loop over `problemIndexes`, updating the records of `experiments` in place. */
  method MergeInPlace(experiments: array<Record>, answers: map<string, Value>, problemIndexes: seq<int>) returns (log: seq<Message>)
    modifies experiments
    ensures experiments[..] == Merged(old(experiments[..]), answers, Keys(problemIndexes))
    ensures log == Warnings(experiments.Length, answers, problemIndexes, Keys(problemIndexes))
  {
    ghost var before := experiments[..];
    ghost var keys := Keys(problemIndexes);
    log := [];
    var i := 0;
    assert keys[..0] == [];
    while i < |problemIndexes|
      invariant 0 <= i <= |problemIndexes|
      invariant experiments[..] == Merged(before, answers, keys[..i])
      invariant log == Warnings(experiments.Length, answers, problemIndexes[..i], keys[..i])
    {
      var problemIndex := problemIndexes[i];
      MergedExtend(before, answers, keys, i);
      if i < experiments.Length {
        var answerKey := AnswerKey(problemIndex);
        KeyAt(problemIndexes, i);
        MergedIs(before, answers, keys[..i], i);
        if answerKey in answers {
          experiments[i] := experiments[i][AnswerField := answers[answerKey]];
        } else {
          log := log + [MissingAnswer(answerKey)];
        }
      } else {
        log := log + [BeyondExperiments(i, problemIndex)];
      }
      assert problemIndexes[..i + 1][..i] == problemIndexes[..i];
      assert keys[..i + 1][..i] == keys[..i];
      i := i + 1;
    }
    assert problemIndexes[..i] == problemIndexes && keys[..i] == keys;
  }

  /**
   * `add_answers_to_experiments`: the document that is saved back and the
   * messages printed. A list of records is merged; any other value is saved
   * unchanged; the closing message counts the problem numbers given.
   */
  method AddAnswersToExperiments(experiments: Experiments, answers: map<string, Value>, problemIndexes: seq<int>)
    returns (saved: Experiments, log: seq<Message>)
    ensures experiments.Records? ==> saved == Records(Merged(experiments.records, answers, Keys(problemIndexes)))
    ensures experiments.NotAList? ==> saved == experiments
    ensures log == (if experiments.Records? then Warnings(|experiments.records|, answers, problemIndexes, Keys(problemIndexes)) else [])
      + [Added(|problemIndexes|)]
  {
    if experiments.Records? {
      var records := experiments.records;
      var list := new Record[|records|](k requires 0 <= k < |records| => records[k]);
      assert list[..] == records;
      var warnings := MergeInPlace(list, answers, problemIndexes);
      saved := Records(list[..]);
      log := warnings + [Added(|problemIndexes|)];
    } else {
      saved := experiments;
      log := [Added(|problemIndexes|)];
    }
  }
}
