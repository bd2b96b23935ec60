/**
 * `build_search_space_strings`: the five pieces of prompt text derived from a
 * hyperparameter-optimisation configuration — the search-space rules block,
 * a JSON answer example, the list of values to recommend, the backtick-quoted
 * key list and a JSON field template — together with `_infer_type_from_spec`
 * and `_format_hyperparameter_spec`.
 *
 * The configuration comes in already split into its `search_space` mapping
 * (hyperparameter name to spec, in file order) and its `HPO_keys` list.
 */
module SearchSpace {
  import opened Text
  import opened PyValue

  /** A spec with a `choices` entry holds a list there: it is measured, indexed and iterated. */
  predicate ChoicesAreLists(spec: Value) {
    spec.Dict? && HasKey(spec.entries, "choices") ==> Get(spec.entries, "choices").List?
  }

  ghost predicate WellFormed(ss: Entries) {
    DistinctKeys(ss) && forall k :: ChoicesAreLists(Get(ss, k))
  }

  /** The `search_space` mapping: a Python dictionary whose specs list their choices. */
  type Space = ss: Entries | WellFormed(ss) witness []

  predicate HasChoiceList(spec: Value) {
    spec.Dict? && HasKey(spec.entries, "choices")
  }

  /** `spec["choices"]`. */
  function Choices(spec: Value): seq<Value>
    requires ChoicesAreLists(spec) && HasChoiceList(spec)
  {
    Get(spec.entries, "choices").items
  }

  /** Non-empty choices: the first one decides the type. */
  predicate HasFirstChoice(spec: Value) {
    HasChoiceList(spec) && ChoicesAreLists(spec) && |Choices(spec)| > 0
  }

  /** A `min` or a `max` bound. */
  predicate HasRange(spec: Value) {
    spec.Dict? && (HasKey(spec.entries, "min") || HasKey(spec.entries, "max"))
  }

  // ---------------------------------------------------------------------------
  // _infer_type_from_spec

  /**
   * The type name of a spec: from its first choice (`bool` tested before
   * `int`), else from its bounds (`int` only when both are integers, a missing
   * bound counting as `None`), else `any`.
   */
  function InferType(spec: Value): (r: string)
    requires ChoicesAreLists(spec)
    ensures r == "any" <==> !HasFirstChoice(spec) && !HasRange(spec)
    ensures HasFirstChoice(spec) ==>
      (r == "bool" <==> Choices(spec)[0].Bool?) &&
      (r == "int" <==> Choices(spec)[0].Int?) &&
      (r == "float" <==> Choices(spec)[0].Float?) &&
      (r == "str" <==> !(Choices(spec)[0].Bool? || Choices(spec)[0].Int? || Choices(spec)[0].Float?))
    ensures !HasFirstChoice(spec) && HasRange(spec) ==>
      (r == "int" <==> IsPyInt(Get(spec.entries, "min")) && IsPyInt(Get(spec.entries, "max"))) &&
      (r == "int" || r == "float")
  {
    if !spec.Dict? then "any"
    else if HasKey(spec.entries, "choices") && |Choices(spec)| > 0 then
      var first := Choices(spec)[0];
      if first.Bool? then "bool"
      else if first.Int? then "int"
      else if first.Float? then "float"
      else "str"
    else if HasKey(spec.entries, "min") || HasKey(spec.entries, "max") then
      if IsPyInt(Get(spec.entries, "min")) && IsPyInt(Get(spec.entries, "max")) then "int" else "float"
    else "any"
  }

  // ---------------------------------------------------------------------------
  // _format_hyperparameter_spec

  function Header(key: string): string {
    "  " + key + ":"
  }

  /** One attribute line; only a `condition` value is put in double quotes. */
  function AttrLine(attr: string, value: Value): string {
    if attr == "condition" then "    " + attr + ": \"" + PyStr(value) + "\""
    else "    " + attr + ": " + PyStr(value)
  }

  function EntryLine(e: (string, Value)): string {
    AttrLine(e.0, e.1)
  }

  function AttrLines(entries: Entries): (r: seq<string>)
    ensures |r| == |entries|
  {
    Map(EntryLine, entries)
  }

  lemma AttrLinesSnoc(entries: Entries, i: nat)
    requires i < |entries|
    ensures AttrLines(entries[..i + 1]) == AttrLines(entries[..i]) + [AttrLine(entries[i].0, entries[i].1)]
  {
    MapSnoc(EntryLine, entries, i);
  }

  /** The lines of a formatted spec: the header, then one line per attribute of a dictionary spec. */
  function SpecLines(key: string, spec: Value): seq<string> {
    [Header(key)] + (if spec.Dict? then AttrLines(spec.entries) else [])
  }

  function SpecText(key: string, spec: Value): string {
    Join("\n", SpecLines(key, spec))
  }

  /** The header comes first, then the attributes in dictionary order. */
  lemma SpecLinesAt(key: string, spec: Value)
    ensures |SpecLines(key, spec)| == 1 + (if spec.Dict? then |spec.entries| else 0)
    ensures SpecLines(key, spec)[0] == "  " + key + ":"
    ensures spec.Dict? ==> forall k :: 0 <= k < |spec.entries| ==>
      SpecLines(key, spec)[k + 1] == AttrLine(spec.entries[k].0, spec.entries[k].1)
  {
    if spec.Dict? {
      MapAt(EntryLine, spec.entries);
    }
  }

  /** Single-line names and values: splitting the text at line breaks gives back exactly the header and attribute lines. */
  lemma SpecTextLines(key: string, spec: Value)
    requires '\n' !in key
    requires spec.Dict? ==> forall k :: 0 <= k < |spec.entries| ==>
      '\n' !in spec.entries[k].0 && '\n' !in PyStr(spec.entries[k].1)
    ensures Split(SpecText(key, spec), '\n') == SpecLines(key, spec)
  {
    var lines := SpecLines(key, spec);
    SpecLinesAt(key, spec);
    forall k | 0 <= k < |lines| ensures '\n' !in lines[k] {
      if k > 0 {
        var e := spec.entries[k - 1];
        assert lines[k] == AttrLine(e.0, e.1);
      }
    }
    SplitJoin(lines, '\n');
  }

  /** `_format_hyperparameter_spec(key, spec)`. */
  method FormatHyperparameterSpec(key: string, spec: Value) returns (text: string)
    ensures text == SpecText(key, spec)
  {
    var lines := [Header(key)];
    if spec.Dict? {
      var entries := spec.entries;
      for i := 0 to |entries|
        invariant lines == [Header(key)] + AttrLines(entries[..i])
      {
        var (attr, value) := entries[i];
        var line;
        if attr == "choices" {
          line := "    " + attr + ": " + PyStr(value);
        } else if attr == "condition" {
          line := "    " + attr + ": \"" + PyStr(value) + "\"";
        } else {
          line := "    " + attr + ": " + PyStr(value);
        }
        AttrLinesSnoc(entries, i);
        lines := lines + [line];
      }
      assert entries[..|entries|] == entries;
    }
    text := Join("\n", lines);
  }

  // ---------------------------------------------------------------------------
  // Which keys the rules block shows, and in what order

  function Elems(s: seq<string>): set<string> {
    set x | x in s
  }

  lemma ElemsAppend(a: seq<string>, b: seq<string>)
    ensures Elems(a + b) == Elems(a) + Elems(b)
  {
  }

  predicate NoDup(s: seq<string>) {
    forall i, j :: 0 <= i < j < |s| ==> s[i] != s[j]
  }

  lemma NoDupAppend(a: seq<string>, b: seq<string>)
    requires NoDup(a) && NoDup(b)
    requires forall x :: x in a ==> x !in b
    ensures NoDup(a + b)
  {
    forall i, j | 0 <= i < j < |a + b| ensures (a + b)[i] != (a + b)[j] {
      if j >= |a| {
        assert (a + b)[j] == b[j - |a|];
        if i < |a| {
          assert (a + b)[i] in a;
        }
      }
    }
  }

  /** `[k for k in search_space.keys() if k.startswith(prefix) and k not in processed]`. */
  function Related(ss: Entries, prefix: string, processed: set<string>): seq<string> {
    if ss == [] then []
    else
      (if StartsWith(ss[0].0, prefix) && ss[0].0 !in processed then [ss[0].0] else [])
      + Related(ss[1..], prefix, processed)
  }

  /** The related keys are the unprocessed keys with the prefix, each once. */
  lemma {:induction false} RelatedSpec(ss: Entries, prefix: string, processed: set<string>)
    ensures forall x :: x in Related(ss, prefix, processed) <==>
      HasKey(ss, x) && StartsWith(x, prefix) && x !in processed
    ensures DistinctKeys(ss) ==> NoDup(Related(ss, prefix, processed))
    decreases |ss|
  {
    if ss != [] {
      var rest := Related(ss[1..], prefix, processed);
      RelatedSpec(ss[1..], prefix, processed);
      forall x {
        HasKeyCons(ss, x);
      }
      if DistinctKeys(ss) {
        assert DistinctKeys(ss[1..]) by {
          forall i, j | 0 <= i < j < |ss[1..]| ensures ss[1..][i].0 != ss[1..][j].0 {
            assert ss[1..][i] == ss[i + 1] && ss[1..][j] == ss[j + 1];
          }
        }
        var head := if StartsWith(ss[0].0, prefix) && ss[0].0 !in processed then [ss[0].0] else [];
        NoDupAppend(head, rest);
      }
    }
  }

  /** The key itself, when the search space has it and it was not shown yet. */
  function Direct(ss: Entries, key: string, processed: set<string>): seq<string> {
    if HasKey(ss, key) && key !in processed then [key] else []
  }

  /** What one HPO key adds: itself, then its not-yet-shown `<key>_` keys in search-space order. */
  function Step(ss: Entries, key: string, processed: set<string>): seq<string> {
    var direct := Direct(ss, key, processed);
    direct + Related(ss, key + "_", processed + Elems(direct))
  }

  /** Runs `step` over `keys`, each step seeing what the earlier ones produced as processed. */
  function Fold(step: (string, set<string>) -> seq<string>, keys: seq<string>, processed: set<string>): seq<string>
    decreases |keys|
  {
    if keys == [] then []
    else
      var here := step(keys[0], processed);
      here + Fold(step, keys[1..], processed + Elems(here))
  }

  lemma FoldCons(step: (string, set<string>) -> seq<string>, keys: seq<string>, i: nat, processed: set<string>)
    requires i < |keys|
    ensures Fold(step, keys[i..], processed) ==
      step(keys[i], processed) + Fold(step, keys[i + 1..], processed + Elems(step(keys[i], processed)))
  {
    assert keys[i..][1..] == keys[i + 1..];
  }

  function StepOf(ss: Entries): (string, set<string>) -> seq<string> {
    (key: string, processed: set<string>) => Step(ss, key, processed)
  }

  /** The keys shown for `hpoKeys`, given the keys already `processed`. */
  function Emitted(ss: Entries, hpoKeys: seq<string>, processed: set<string>): seq<string> {
    Fold(StepOf(ss), hpoKeys, processed)
  }

  lemma EmittedUnfold(ss: Entries, hpoKeys: seq<string>, processed: set<string>)
    requires hpoKeys != []
    ensures Emitted(ss, hpoKeys, processed) ==
      Step(ss, hpoKeys[0], processed) + Emitted(ss, hpoKeys[1..], processed + Elems(Step(ss, hpoKeys[0], processed)))
  {
  }

  /** `x` is an HPO key or starts with one followed by `_`. */
  predicate Wanted(hpoKeys: seq<string>, x: string) {
    exists h :: h in hpoKeys && (x == h || StartsWith(x, h + "_"))
  }

  lemma PrefixedIsLonger(x: string, key: string)
    requires StartsWith(x, key + "_")
    ensures x != key
  {
    assert |x| >= |key| + 1;
  }

  lemma StepSpec(ss: Entries, key: string, processed: set<string>)
    ensures forall x :: x in Step(ss, key, processed) <==>
      x !in processed && HasKey(ss, x) && (x == key || StartsWith(x, key + "_"))
    ensures DistinctKeys(ss) ==> NoDup(Step(ss, key, processed))
  {
    var direct := Direct(ss, key, processed);
    var more := processed + Elems(direct);
    RelatedSpec(ss, key + "_", more);
    forall x | StartsWith(x, key + "_") {
      PrefixedIsLonger(x, key);
    }
    if DistinctKeys(ss) {
      NoDupAppend(direct, Related(ss, key + "_", more));
    }
  }

  /** A key is shown exactly when it is in the search space, was not processed, and is an HPO key or prefixed by one. */
  lemma {:induction false} EmittedSpec(ss: Entries, hpoKeys: seq<string>, processed: set<string>)
    ensures forall x :: x in Emitted(ss, hpoKeys, processed) <==>
      x !in processed && HasKey(ss, x) && Wanted(hpoKeys, x)
    decreases |hpoKeys|
  {
    if hpoKeys != [] {
      var key := hpoKeys[0];
      var step := Step(ss, key, processed);
      var more := processed + Elems(step);
      EmittedUnfold(ss, hpoKeys, processed);
      StepSpec(ss, key, processed);
      EmittedSpec(ss, hpoKeys[1..], more);
      forall x ensures x in Emitted(ss, hpoKeys, processed) <==>
        x !in processed && HasKey(ss, x) && Wanted(hpoKeys, x)
      {
        if x in Emitted(ss, hpoKeys[1..], more) {
          var h :| h in hpoKeys[1..] && (x == h || StartsWith(x, h + "_"));
          assert h in hpoKeys;
        }
        if x !in processed && HasKey(ss, x) && Wanted(hpoKeys, x) && x !in step {
          var h :| h in hpoKeys && (x == h || StartsWith(x, h + "_"));
          assert h != key;
          assert h in hpoKeys[1..];
        }
      }
    }
  }

  /** No key is shown twice, and none that was already processed. */
  lemma {:induction false} EmittedNoDup(ss: Entries, hpoKeys: seq<string>, processed: set<string>)
    requires DistinctKeys(ss)
    ensures NoDup(Emitted(ss, hpoKeys, processed))
    ensures forall x :: x in Emitted(ss, hpoKeys, processed) ==> x !in processed
    decreases |hpoKeys|
  {
    EmittedSpec(ss, hpoKeys, processed);
    if hpoKeys != [] {
      var step := Step(ss, hpoKeys[0], processed);
      var more := processed + Elems(step);
      EmittedUnfold(ss, hpoKeys, processed);
      StepSpec(ss, hpoKeys[0], processed);
      EmittedNoDup(ss, hpoKeys[1..], more);
      NoDupAppend(step, Emitted(ss, hpoKeys[1..], more));
    }
  }

  /** One iteration of the outer loop: the step for `hpoKeys[i]`, then the rest with its keys marked processed. */
  lemma EmittedStep(ss: Entries, hpoKeys: seq<string>, i: nat, before: set<string>, processed: set<string>)
    requires i < |hpoKeys|
    requires processed == before + Elems(Step(ss, hpoKeys[i], before))
    ensures Emitted(ss, hpoKeys[i..], before) == Step(ss, hpoKeys[i], before) + Emitted(ss, hpoKeys[i + 1..], processed)
  {
    FoldCons(StepOf(ss), hpoKeys, i, before);
  }

  /** The formatted spec of each key, looked up with `search_space[key]`. */
  function BlockOf(ss: Entries): string -> string {
    (k: string) => SpecText(k, Get(ss, k))
  }

  function Blocks(ss: Entries, keys: seq<string>): (r: seq<string>)
    ensures |r| == |keys|
  {
    Map(BlockOf(ss), keys)
  }

  lemma BlocksConcat(ss: Entries, a: seq<string>, b: seq<string>)
    ensures Blocks(ss, a + b) == Blocks(ss, a) + Blocks(ss, b)
  {
    MapConcat(BlockOf(ss), a, b);
  }

  lemma BlocksOne(ss: Entries, key: string)
    ensures Blocks(ss, [key]) == [SpecText(key, Get(ss, key))]
  {
    assert Blocks(ss, [key]) == Map(BlockOf(ss), [key]);
  }

  lemma BlocksSnoc(ss: Entries, keys: seq<string>, j: nat)
    requires j < |keys|
    ensures Blocks(ss, keys[..j + 1]) == Blocks(ss, keys[..j]) + [SpecText(keys[j], Get(ss, keys[j]))]
  {
    MapSnoc(BlockOf(ss), keys, j);
  }

  /** Format each of `keys` in turn, appending its spec block, and mark it processed. */
  method AppendBlocks(ss: Entries, keys: seq<string>, lines: seq<string>, processed: set<string>)
    returns (lines': seq<string>, processed': set<string>)
    ensures lines' == lines + Blocks(ss, keys)
    ensures processed' == processed + Elems(keys)
  {
    lines', processed' := lines, processed;
    for j := 0 to |keys|
      invariant lines' == lines + Blocks(ss, keys[..j])
      invariant processed' == processed + Elems(keys[..j])
    {
      var key := keys[j];
      var text := FormatHyperparameterSpec(key, Get(ss, key));
      BlocksSnoc(ss, keys, j);
      assert keys[..j + 1] == keys[..j] + [key];
      ElemsAppend(keys[..j], [key]);
      lines' := lines' + [text];
      processed' := processed' + {key};
    }
    assert keys[..|keys|] == keys;
  }

  /** One HPO key of the spec-block loop: the key itself unless already shown, then its related keys. */
  method EmitKey(ss: Entries, key: string, lines: seq<string>, processed: set<string>)
    returns (lines': seq<string>, processed': set<string>)
    ensures lines' == lines + Blocks(ss, Step(ss, key, processed))
    ensures processed' == processed + Elems(Step(ss, key, processed))
  {
    var direct := Direct(ss, key, processed);
    lines', processed' := lines, processed;
    if HasKey(ss, key) && key !in processed {
      var text := FormatHyperparameterSpec(key, Get(ss, key));
      BlocksOne(ss, key);
      lines' := lines' + [text];
      processed' := processed' + {key};
    }
    assert lines' == lines + Blocks(ss, direct);
    assert processed' == processed + Elems(direct);
    var related := Related(ss, key + "_", processed');
    assert Step(ss, key, processed) == direct + related;
    lines', processed' := AppendBlocks(ss, related, lines', processed');
    BlocksConcat(ss, direct, related);
    ElemsAppend(direct, related);
    AppendAssoc(lines, Blocks(ss, direct), Blocks(ss, related));
  }

  /** The spec blocks: format each HPO key, then its related keys, never one twice. */
  method BuildSpecBlocks(ss: Entries, hpoKeys: seq<string>) returns (lines: seq<string>)
    ensures lines == Blocks(ss, Emitted(ss, hpoKeys, {}))
  {
    var processed: set<string> := {};
    lines := [];
    ghost var emitted: seq<string> := [];
    ghost var all := Emitted(ss, hpoKeys, {});
    assert hpoKeys[0..] == hpoKeys;
    for i := 0 to |hpoKeys|
      invariant processed == Elems(emitted)
      invariant emitted + Emitted(ss, hpoKeys[i..], processed) == all
      invariant lines == Blocks(ss, emitted)
    {
      ghost var before := processed;
      ghost var step := Step(ss, hpoKeys[i], before);
      lines, processed := EmitKey(ss, hpoKeys[i], lines, processed);
      EmittedStep(ss, hpoKeys, i, before, processed);
      BlocksConcat(ss, emitted, step);
      ElemsAppend(emitted, step);
      ghost var start := emitted;
      emitted := emitted + step;
      LoopStep(start, step, Emitted(ss, hpoKeys[i + 1..], processed), all, emitted);
    }
    assert hpoKeys[|hpoKeys|..] == [];
    assert Emitted(ss, [], processed) == [];
    assert emitted + [] == emitted;
  }

  // ---------------------------------------------------------------------------
  // The rules block

  const Heading := "### \U{2699}\U{FE0F} **Search Space Rules**\n\n"
  const PrecisionRule := "* `learning_rate` must use **\U{2265}6 digits of precision**"
  const RulesIntro := "* Additional rules:\n\n  "

  /** `any(k.startswith(prefix) for k in search_space.keys())`. */
  function AnyKeyStartsWith(ss: Entries, prefix: string): (r: bool)
    ensures r <==> exists i :: 0 <= i < |ss| && StartsWith(ss[i].0, prefix)
  {
    if ss == [] then false
    else if StartsWith(ss[0].0, prefix) then true
    else
      var r := AnyKeyStartsWith(ss[1..], prefix);
      assert forall i :: 1 <= i < |ss| ==> ss[1..][i - 1] == ss[i];
      r
  }

  /** The precision rule applies when `learning_rate` is truthy or some key starts with `learning_rate_`. */
  predicate NeedsPrecision(ss: Entries) {
    Truthy(Get(ss, "learning_rate")) || AnyKeyStartsWith(ss, "learning_rate_")
  }

  /** The spec blocks, separated and followed by a blank line. */
  function BlocksPart(lines: seq<string>): string {
    Join("\n\n", lines) + "\n\n"
  }

  /** The additional rules, one indented bullet per line. */
  function RulesPart(additional: seq<string>): string {
    RulesIntro + Join("\n  ", additional) + "\n"
  }

  function RenderTextBlock(lines: seq<string>, additional: seq<string>): string {
    Heading
    + (if lines != [] then BlocksPart(lines) else "")
    + (if additional != [] then RulesPart(additional) else "")
  }

  /** `text_block`. */
  function TextBlock(ss: Entries, hpoKeys: seq<string>): string {
    RenderTextBlock(Blocks(ss, Emitted(ss, hpoKeys, {})), if NeedsPrecision(ss) then [PrecisionRule] else [])
  }

  lemma EndsInBlankLine(b: string)
    requires b == "" || EndsWith(b, "\n\n")
    ensures EndsWith(Heading + b, "\n\n")
  {
    var s := Heading + b;
    if b == "" {
      assert s[|s| - 2..] == Heading[|Heading| - 2..];
    } else {
      assert s[|s| - 2..] == b[|b| - 2..];
    }
  }

  /** The block closes with the additional rules holding the precision rule exactly when the rule applies. */
  lemma TextBlockRule(ss: Entries, hpoKeys: seq<string>)
    ensures EndsWith(TextBlock(ss, hpoKeys), RulesIntro + PrecisionRule + "\n") <==> NeedsPrecision(ss)
  {
    var lines := Blocks(ss, Emitted(ss, hpoKeys, {}));
    var text := TextBlock(ss, hpoKeys);
    var tail := RulesIntro + PrecisionRule + "\n";
    var body := if lines != [] then BlocksPart(lines) else "";
    if NeedsPrecision(ss) {
      assert RulesPart([PrecisionRule]) == tail;
      assert text == Heading + body + tail;
      assert text[|text| - |tail|..] == tail;
    } else {
      assert text == Heading + body;
      if body != "" {
        assert body[|body| - 2..] == "\n\n";
      }
      EndsInBlankLine(body);
      assert tail[|tail| - 2] == '*';
    }
  }

  // ---------------------------------------------------------------------------
  // The JSON example

  /** `search_space.get(key)`, falling back to the first `<key>_` key's spec when that is `None`. */
  function SpecFor(ss: Space, key: string): (r: Value)
    ensures ChoicesAreLists(r)
    ensures Get(ss, key) != Null ==> r == Get(ss, key)
  {
    var spec := Get(ss, key);
    if !spec.Null? then spec
    else
      var related := Related(ss, key + "_", {});
      if related != [] then Get(ss, related[0]) else Null
  }

  /** The optimizer's choices are listed instead of a type. */
  predicate OptimizerChoices(key: string, spec: Value) {
    key == "optimizer" && HasChoiceList(spec)
  }

  function Quoted(c: Value): string {
    "\"" + PyStr(c) + "\""
  }

  /** `f'  "{key}": {value},'`. */
  function JsonField(key: string, value: string): string {
    "  \"" + key + "\": " + value + ","
  }

  function JsonTypeName(typ: string): string {
    if typ == "int" then "int"
    else if typ == "float" then "float"
    else if typ == "bool" then "bool"
    else "\"value\""
  }

  /** One line of the JSON example: the key, then its choices joined by ` | ` or its type. */
  function JsonLine(ss: Space, key: string): string {
    var spec := SpecFor(ss, key);
    if OptimizerChoices(key, spec) then JsonField(key, Join(" | ", Map(Quoted, Choices(spec))))
    else JsonField(key, JsonTypeName(InferType(spec)))
  }

  const StrategyLine := "  \"strategy\": \"your choice\","
  const ThoughtsLine := "  \"thoughts\": \"string explanation of your reasoning.\""

  function JsonLineOf(ss: Space): string -> string {
    (k: string) => JsonLine(ss, k)
  }

  function JsonKeyLines(ss: Space, keys: seq<string>): (r: seq<string>)
    ensures |r| == |keys|
  {
    Map(JsonLineOf(ss), keys)
  }

  function JsonLines(ss: Space, hpoKeys: seq<string>): seq<string> {
    ["{"] + JsonKeyLines(ss, hpoKeys) + [StrategyLine, ThoughtsLine, "}"]
  }

  /** `json_example`. */
  function JsonExample(ss: Space, hpoKeys: seq<string>): string {
    Join("\n", JsonLines(ss, hpoKeys))
  }

  /** An opening brace, one line per HPO key in order, the strategy and thoughts lines, a closing brace. */
  lemma JsonLinesShape(ss: Space, hpoKeys: seq<string>)
    ensures |JsonLines(ss, hpoKeys)| == |hpoKeys| + 4
    ensures JsonLines(ss, hpoKeys)[0] == "{"
    ensures forall k :: 0 <= k < |hpoKeys| ==> JsonLines(ss, hpoKeys)[k + 1] == JsonLine(ss, hpoKeys[k])
    ensures JsonLines(ss, hpoKeys)[|hpoKeys| + 1..] == [StrategyLine, ThoughtsLine, "}"]
  {
    var body := JsonKeyLines(ss, hpoKeys);
    var tail := [StrategyLine, ThoughtsLine, "}"];
    var all := ["{"] + body + tail;
    assert JsonLines(ss, hpoKeys) == all;
    MapAt(JsonLineOf(ss), hpoKeys);
    forall k | 0 <= k < |hpoKeys| ensures all[k + 1] == JsonLine(ss, hpoKeys[k]) {
      assert all[k + 1] == body[k];
    }
    assert all[|hpoKeys| + 1..] == tail;
  }

  /** Every line of the example names its key. */
  lemma JsonLineNamesKey(ss: Space, key: string)
    ensures StartsWith(JsonLine(ss, key), "  \"" + key + "\": ")
  {
    var head := "  \"" + key + "\": ";
    var spec := SpecFor(ss, key);
    if OptimizerChoices(key, spec) {
      var value := Join(" | ", Map(Quoted, Choices(spec)));
      assert JsonLine(ss, key) == head + (value + ",");
    } else {
      var value := JsonTypeName(InferType(spec));
      assert JsonLine(ss, key) == head + (value + ",");
    }
  }

  lemma JsonKeyLinesSnoc(ss: Space, keys: seq<string>, i: nat)
    requires i < |keys|
    ensures JsonKeyLines(ss, keys[..i + 1]) == JsonKeyLines(ss, keys[..i]) + [JsonLine(ss, keys[i])]
  {
    MapSnoc(JsonLineOf(ss), keys, i);
  }

  /** The JSON example: an opening brace, one example line per HPO key, the strategy and thoughts lines, and a closing brace. */
  method BuildJsonLines(ss: Space, hpoKeys: seq<string>) returns (jsonLines: seq<string>)
    ensures jsonLines == JsonLines(ss, hpoKeys)
  {
    jsonLines := ["{"];
    for i := 0 to |hpoKeys|
      invariant jsonLines == ["{"] + JsonKeyLines(ss, hpoKeys[..i])
    {
      var key := hpoKeys[i];
      var spec := Get(ss, key);
      if spec.Null? {
        var related := Related(ss, key + "_", {});
        if related != [] {
          spec := Get(ss, related[0]);
        }
      }
      assert spec == SpecFor(ss, key);
      var typ := InferType(spec);
      var line;
      if key == "optimizer" && spec.Dict? && HasKey(spec.entries, "choices") {
        var choices := Get(spec.entries, "choices").items;
        line := JsonField(key, Join(" | ", Map(Quoted, choices)));
      } else if typ == "int" {
        line := JsonField(key, "int");
      } else if typ == "float" {
        line := JsonField(key, "float");
      } else if typ == "bool" {
        line := JsonField(key, "bool");
      } else {
        line := JsonField(key, "\"value\"");
      }
      assert line == JsonLine(ss, key);
      JsonKeyLinesSnoc(ss, hpoKeys, i);
      jsonLines := jsonLines + [line];
    }
    assert hpoKeys[..|hpoKeys|] == hpoKeys;
    jsonLines := jsonLines + [StrategyLine, ThoughtsLine, "}"];
  }

  // ---------------------------------------------------------------------------
  // What to recommend

  /** A lower-case string choice is shown in upper case; anything else as `str` shows it. */
  function Friendly(c: Value): string {
    if c.Str? then (if IsLower(c.s) then Upper(c.s) else c.s) else PyStr(c)
  }

  /** Upper-casing a lower-case choice loses nothing: lower-casing it again gives it back. */
  lemma FriendlyRoundTrip(c: Value)
    requires c.Str? && IsLower(c.s)
    ensures Lower(Friendly(c)) == c.s
    ensures forall i :: 0 <= i < |Friendly(c)| ==> !('a' <= Friendly(c)[i] <= 'z')
  {
    var s := c.s;
    var u := Upper(s);
    forall i | 0 <= i < |s| ensures Lower(u)[i] == s[i] {
      assert !('A' <= s[i] <= 'Z');
    }
  }

  /** A bullet naming `key` in backticks, followed by `detail`. */
  function Bullet(key: string, detail: string): string {
    "* `" + key + "`" + detail
  }

  /** What follows the key on its recommendation line. */
  function RecommendDetail(key: string, spec: Value): string
    requires ChoicesAreLists(spec)
  {
    if OptimizerChoices(key, spec) then " (" + Join(" or ", Map(Friendly, Choices(spec))) + ")"
    else if HasChoiceList(spec) then " (" + Join(" or ", Map(PyStr, Choices(spec))) + ")"
    else if HasRange(spec) then
      " \U{2208} [" + PyStr(Get(spec.entries, "min")) + ", " + PyStr(Get(spec.entries, "max")) + "]"
    else if key == "epochs" then EpochsHint
    else ""
  }

  const EpochsHint := " (local training epochs per communication round)"

  /** One line of the recommendation list; unlike the JSON lines it looks at `search_space.get(key)` only. */
  function RecommendLine(ss: Space, key: string): string {
    Bullet(key, RecommendDetail(key, Get(ss, key)))
  }

  function RecommendLineOf(ss: Space): string -> string {
    (k: string) => RecommendLine(ss, k)
  }

  function RecommendLines(ss: Space, hpoKeys: seq<string>): (r: seq<string>)
    ensures |r| == |hpoKeys|
  {
    Map(RecommendLineOf(ss), hpoKeys)
  }

  /** `recommend_text`. */
  function RecommendText(ss: Space, hpoKeys: seq<string>): string {
    Join("\n", RecommendLines(ss, hpoKeys))
  }

  /** One line per HPO key, in order, each naming its key in backticks. */
  lemma RecommendLinesShape(ss: Space, hpoKeys: seq<string>)
    ensures forall k :: 0 <= k < |hpoKeys| ==> RecommendLines(ss, hpoKeys)[k] == RecommendLine(ss, hpoKeys[k])
    ensures forall k :: 0 <= k < |hpoKeys| ==> StartsWith(RecommendLines(ss, hpoKeys)[k], "* `" + hpoKeys[k] + "`")
  {
    MapAt(RecommendLineOf(ss), hpoKeys);
    forall k | 0 <= k < |hpoKeys| {
      RecommendLineNamesKey(ss, hpoKeys[k]);
    }
  }

  lemma RecommendLineNamesKey(ss: Space, key: string)
    ensures StartsWith(RecommendLine(ss, key), "* `" + key + "`")
  {
    var head := "* `" + key + "`";
    var detail := RecommendDetail(key, Get(ss, key));
    assert Bullet(key, detail)[..|head|] == head;
  }

  /** A key missing from the search space gets only its name (or the epochs hint): no `<key>_` fallback here. */
  lemma RecommendWithoutSpec(ss: Space, key: string)
    requires !HasKey(ss, key)
    ensures RecommendLine(ss, key) == if key == "epochs" then "* `epochs`" + EpochsHint else "* `" + key + "`"
  {
  }

  lemma RecommendLinesSnoc(ss: Space, keys: seq<string>, i: nat)
    requires i < |keys|
    ensures RecommendLines(ss, keys[..i + 1]) == RecommendLines(ss, keys[..i]) + [RecommendLine(ss, keys[i])]
  {
    MapSnoc(RecommendLineOf(ss), keys, i);
  }

  /** The recommendation bullets, one per HPO key; the optimizer's choices are collected by their own loop. */
  method BuildRecommendLines(ss: Space, hpoKeys: seq<string>) returns (recommendLines: seq<string>)
    ensures recommendLines == RecommendLines(ss, hpoKeys)
  {
    recommendLines := [];
    for i := 0 to |hpoKeys|
      invariant recommendLines == RecommendLines(ss, hpoKeys[..i])
    {
      var key := hpoKeys[i];
      var spec := Get(ss, key);
      var line;
      if key == "optimizer" && spec.Dict? && HasKey(spec.entries, "choices") {
        var choices := Get(spec.entries, "choices").items;
        var choiceStrs := [];
        for j := 0 to |choices|
          invariant choiceStrs == Map(Friendly, choices[..j])
        {
          var c := choices[j];
          MapSnoc(Friendly, choices, j);
          if c.Str? {
            choiceStrs := choiceStrs + [if IsLower(c.s) then Upper(c.s) else c.s];
          } else {
            choiceStrs := choiceStrs + [PyStr(c)];
          }
        }
        assert choices[..|choices|] == choices;
        line := Bullet(key, " (" + Join(" or ", choiceStrs) + ")");
      } else if spec.Dict? && HasKey(spec.entries, "choices") {
        var choiceStrs := Map(PyStr, Get(spec.entries, "choices").items);
        line := Bullet(key, " (" + Join(" or ", choiceStrs) + ")");
      } else if spec.Dict? && (HasKey(spec.entries, "min") || HasKey(spec.entries, "max")) {
        var mn := Get(spec.entries, "min");
        var mx := Get(spec.entries, "max");
        line := Bullet(key, " \U{2208} [" + PyStr(mn) + ", " + PyStr(mx) + "]");
      } else if key == "epochs" {
        line := Bullet(key, EpochsHint);
      } else {
        line := Bullet(key, "");
      }
      RecommendLinesSnoc(ss, hpoKeys, i);
      recommendLines := recommendLines + [line];
    }
    assert hpoKeys[..|hpoKeys|] == hpoKeys;
  }

  // ---------------------------------------------------------------------------
  // The backtick list

  function Backticked(key: string): string {
    "`" + key + "`"
  }

  /** `hpo_keys_backticks`. */
  function Backticks(hpoKeys: seq<string>): string {
    Join(", ", Map(Backticked, hpoKeys))
  }

  /** Every HPO key appears in backticks. */
  lemma BackticksHoldKeys(hpoKeys: seq<string>, k: nat)
    requires k < |hpoKeys|
    ensures exists i: nat :: OccursAt(Backticks(hpoKeys), "`" + hpoKeys[k] + "`", i)
  {
    MapAt(Backticked, hpoKeys);
    assert Map(Backticked, hpoKeys)[k] == "`" + hpoKeys[k] + "`";
    JoinHoldsPart(", ", Map(Backticked, hpoKeys), k);
    var i: nat :| OccursAt(Join(", ", Map(Backticked, hpoKeys)), Map(Backticked, hpoKeys)[k], i);
    assert OccursAt(Backticks(hpoKeys), "`" + hpoKeys[k] + "`", i);
  }

  // ---------------------------------------------------------------------------
  // The JSON field template

  predicate AllBool(choices: seq<Value>) {
    forall i :: 0 <= i < |choices| ==> choices[i].Bool?
  }

  predicate AllPyInt(choices: seq<Value>) {
    forall i :: 0 <= i < |choices| ==> IsPyInt(choices[i])
  }

  /** A string choice in double quotes, anything else as `str` shows it. */
  function FieldChoice(c: Value): string {
    if c.Str? then "\"" + c.s + "\"" else PyStr(c)
  }

  function FieldTypeName(typ: string): string {
    if typ == "int" then "<int>"
    else if typ == "float" then "<float>"
    else if typ == "bool" then "<bool>"
    else "<value>"
  }

  function FieldHead(key: string): string {
    "        \"" + key + "\": "
  }

  /** `f'        "{key}": {value},'`. */
  function TemplateField(key: string, value: string): string {
    FieldHead(key) + value + ","
  }

  /** One line of the field template. */
  function FieldLine(ss: Space, key: string): string {
    var spec := SpecFor(ss, key);
    if OptimizerChoices(key, spec) then TemplateField(key, Join(" | ", Map(Quoted, Choices(spec))))
    else if HasChoiceList(spec) then
      var choices := Choices(spec);
      if AllBool(choices) then TemplateField(key, "<bool>")
      else if AllPyInt(choices) then TemplateField(key, "<int>")
      else TemplateField(key, Join(" | ", Map(FieldChoice, choices)))
    else TemplateField(key, FieldTypeName(InferType(spec)))
  }

  function FieldLineOf(ss: Space): string -> string {
    (k: string) => FieldLine(ss, k)
  }

  function FieldLines(ss: Space, hpoKeys: seq<string>): (r: seq<string>)
    ensures |r| == |hpoKeys|
  {
    Map(FieldLineOf(ss), hpoKeys)
  }

  /** `json_fields_template`. */
  function FieldsTemplate(ss: Space, hpoKeys: seq<string>): string {
    Join("\n", FieldLines(ss, hpoKeys))
  }

  /**
   * For choices other than the optimizer's: booleans only (or no choices at
   * all) make `<bool>`; integers, with booleans counted as integers, make
   * `<int>`.
   */
  lemma FieldChoiceTypes(ss: Space, key: string)
    requires !OptimizerChoices(key, SpecFor(ss, key)) && HasChoiceList(SpecFor(ss, key))
    ensures Choices(SpecFor(ss, key)) == [] ==> FieldLine(ss, key) == TemplateField(key, "<bool>")
    ensures AllBool(Choices(SpecFor(ss, key))) ==> FieldLine(ss, key) == TemplateField(key, "<bool>")
    ensures var choices := Choices(SpecFor(ss, key));
      (exists i :: 0 <= i < |choices| && choices[i].Int?) && AllPyInt(choices) ==>
        FieldLine(ss, key) == TemplateField(key, "<int>")
  {
  }

  /**
   * The example and the template can disagree: choices that start with a
   * boolean and also hold an integer are `bool` in the example and `<int>` in
   * the template.
   */
  lemma MixedChoices(ss: Space, key: string)
    requires key != "optimizer" && HasChoiceList(SpecFor(ss, key))
    requires var choices := Choices(SpecFor(ss, key));
      |choices| > 0 && choices[0].Bool? && AllPyInt(choices) && (exists i :: 0 <= i < |choices| && choices[i].Int?)
    ensures JsonLine(ss, key) == JsonField(key, "bool")
    ensures FieldLine(ss, key) == TemplateField(key, "<int>")
  {
    var spec := SpecFor(ss, key);
    assert HasFirstChoice(spec);
  }

  /** One line per HPO key, in order, each naming its key. */
  lemma FieldLinesShape(ss: Space, hpoKeys: seq<string>)
    ensures forall k :: 0 <= k < |hpoKeys| ==> FieldLines(ss, hpoKeys)[k] == FieldLine(ss, hpoKeys[k])
    ensures forall k :: 0 <= k < |hpoKeys| ==> StartsWith(FieldLines(ss, hpoKeys)[k], FieldHead(hpoKeys[k]))
  {
    MapAt(FieldLineOf(ss), hpoKeys);
    forall k | 0 <= k < |hpoKeys| {
      FieldLineNamesKey(ss, hpoKeys[k]);
    }
  }

  lemma FieldLineNamesKey(ss: Space, key: string)
    ensures StartsWith(FieldLine(ss, key), FieldHead(key))
  {
    var spec := SpecFor(ss, key);
    var line := FieldLine(ss, key);
    var head := FieldHead(key);
    if OptimizerChoices(key, spec) {
      var value := Join(" | ", Map(Quoted, Choices(spec)));
      assert line == head + (value + ",");
    } else if HasChoiceList(spec) {
      var choices := Choices(spec);
      var value := if AllBool(choices) then "<bool>" else if AllPyInt(choices) then "<int>" else Join(" | ", Map(FieldChoice, choices));
      assert line == head + (value + ",");
    } else {
      var value := FieldTypeName(InferType(spec));
      assert line == head + (value + ",");
    }
  }

  lemma FieldLinesSnoc(ss: Space, keys: seq<string>, i: nat)
    requires i < |keys|
    ensures FieldLines(ss, keys[..i + 1]) == FieldLines(ss, keys[..i]) + [FieldLine(ss, keys[i])]
  {
    MapSnoc(FieldLineOf(ss), keys, i);
  }

  /** The JSON fields template: one field line per HPO key, a union of its choices or a type placeholder. */
  method BuildFieldLines(ss: Space, hpoKeys: seq<string>) returns (fieldLines: seq<string>)
    ensures fieldLines == FieldLines(ss, hpoKeys)
  {
    fieldLines := [];
    for i := 0 to |hpoKeys|
      invariant fieldLines == FieldLines(ss, hpoKeys[..i])
    {
      var key := hpoKeys[i];
      var spec := Get(ss, key);
      if spec.Null? {
        var related := Related(ss, key + "_", {});
        if related != [] {
          spec := Get(ss, related[0]);
        }
      }
      assert spec == SpecFor(ss, key);
      var line;
      if key == "optimizer" && spec.Dict? && HasKey(spec.entries, "choices") {
        var choices := Get(spec.entries, "choices").items;
        line := TemplateField(key, Join(" | ", Map(Quoted, choices)));
      } else if spec.Dict? && HasKey(spec.entries, "choices") {
        var choices := Get(spec.entries, "choices").items;
        if AllBool(choices) {
          line := TemplateField(key, "<bool>");
        } else if AllPyInt(choices) {
          line := TemplateField(key, "<int>");
        } else {
          line := TemplateField(key, Join(" | ", Map(FieldChoice, choices)));
        }
      } else {
        var typ := InferType(spec);
        if typ == "int" {
          line := TemplateField(key, "<int>");
        } else if typ == "float" {
          line := TemplateField(key, "<float>");
        } else if typ == "bool" {
          line := TemplateField(key, "<bool>");
        } else {
          line := TemplateField(key, "<value>");
        }
      }
      assert line == FieldLine(ss, key);
      FieldLinesSnoc(ss, hpoKeys, i);
      fieldLines := fieldLines + [line];
    }
    assert hpoKeys[..|hpoKeys|] == hpoKeys;
  }

  // ---------------------------------------------------------------------------
  // build_search_space_strings

  /** The search-space text: the spec blocks, the precision rule when a learning rate is tuned, and the frame around them. */
  method BuildTextBlock(ss: Entries, hpoKeys: seq<string>) returns (textBlock: string)
    ensures textBlock == TextBlock(ss, hpoKeys)
  {
    var lines := BuildSpecBlocks(ss, hpoKeys);
    var additional: seq<string> := [];
    if Truthy(Get(ss, "learning_rate")) || AnyKeyStartsWith(ss, "learning_rate_") {
      additional := [PrecisionRule] + additional;
    }
    assert additional == if NeedsPrecision(ss) then [PrecisionRule] else [];
    textBlock := Heading;
    if lines != [] {
      textBlock := textBlock + BlocksPart(lines);
    }
    if additional != [] {
      textBlock := textBlock + RulesPart(additional);
    }
    assert textBlock == RenderTextBlock(lines, additional);
  }

  /** `build_search_space_strings`: the five texts the system prompt is filled with. */
  method BuildSearchSpaceStrings(ss: Space, hpoKeys: seq<string>)
    returns (textBlock: string, jsonExample: string, recommendText: string, hpoKeysBackticks: string, jsonFieldsTemplate: string)
    ensures textBlock == TextBlock(ss, hpoKeys)
    ensures jsonExample == JsonExample(ss, hpoKeys)
    ensures recommendText == RecommendText(ss, hpoKeys)
    ensures hpoKeysBackticks == Backticks(hpoKeys)
    ensures jsonFieldsTemplate == FieldsTemplate(ss, hpoKeys)
  {
    textBlock := BuildTextBlock(ss, hpoKeys);

    var jsonLines := BuildJsonLines(ss, hpoKeys);
    jsonExample := Join("\n", jsonLines);

    var recommendLines := BuildRecommendLines(ss, hpoKeys);
    recommendText := Join("\n", recommendLines);

    hpoKeysBackticks := Join(", ", Map(Backticked, hpoKeys));

    var fieldLines := BuildFieldLines(ss, hpoKeys);
    jsonFieldsTemplate := Join("\n", fieldLines);
  }
}
