/**
 * The Python values a YAML configuration loads into (`yaml.safe_load`):
 * `None`, booleans, integers, floats, strings, lists and dictionaries, with
 * what the code asks of them — `isinstance` tests, truth value, dictionary
 * lookup, and the text `str()` and `repr()` give.
 *
 * A dictionary is an association list in insertion order, as a Python
 * `dict` iterates. A float is kept as the text Python prints for it.
 *
 * The type admits more than `yaml.safe_load` produces. Only the text of a
 * float's `repr` is meant (`0.0`, never `0.00`), and only dictionaries whose
 * keys are distinct, at every depth (`DistinctKeys`); `SearchSpace.Space` enforces the
 * latter for the search space's top level alone.
 */
module PyValue {
  import opened Text

  /**
   * The characters of a float's `repr`: digits, sign, point, exponent, `inf`
   * and `nan`. Only the text `repr` actually prints is meant; other texts over
   * these characters, such as `0.00`, are admitted but stand for no float.
   */
  predicate FloatLiteral(s: string) {
    forall i :: 0 <= i < |s| ==> s[i] in "0123456789.e+-infa"
  }

  type FloatRepr = s: string | FloatLiteral(s) witness "0.0"

  datatype Value =
    | Null
    | Bool(b: bool)
    | Int(i: int)
    | Float(text: FloatRepr)
    | Str(s: string)
    | List(items: seq<Value>)
    | Dict(entries: Entries)

  /** The key/value pairs of a dictionary, in iteration order; a Python `dict` has each key once (`DistinctKeys`). */
  type Entries = seq<(string, Value)>

  /** `isinstance(v, int)`: `bool` is a subclass of `int`. */
  predicate IsPyInt(v: Value) {
    v.Int? || v.Bool?
  }

  /**
   * `bool(v)`: `None`, `False`, zero and empty containers are false. A float is
   * zero exactly when its `repr` is `0.0` or `-0.0`; for other texts of zero,
   * which `repr` never prints, the result means nothing.
   */
  predicate Truthy(v: Value) {
    match v
    case Null => false
    case Bool(b) => b
    case Int(i) => i != 0
    case Float(text) => text != "0.0" && text != "-0.0"
    case Str(s) => s != ""
    case List(items) => items != []
    case Dict(entries) => entries != []
  }

  /** Every key occurs once, as in a Python `dict`. */
  predicate DistinctKeys(entries: Entries) {
    forall i, j :: 0 <= i < j < |entries| ==> entries[i].0 != entries[j].0
  }

  /** `key in d`. */
  predicate HasKey(entries: Entries, key: string) {
    exists i :: 0 <= i < |entries| && entries[i].0 == key
  }

  /** `d.get(key)`: the value stored under `key`, `None` when there is none. */
  function Get(entries: Entries, key: string): (r: Value)
    ensures !HasKey(entries, key) ==> r == Null
    ensures HasKey(entries, key) ==> exists i :: 0 <= i < |entries| && entries[i] == (key, r)
  {
    if entries == [] then Null
    else if entries[0].0 == key then entries[0].1
    else
      assert forall i :: 1 <= i < |entries| ==> entries[1..][i - 1] == entries[i];
      Get(entries[1..], key)
  }

  /** `d.get(key, default)`: the stored value when the key is present, even `None`; `default` otherwise. */
  function GetOr(entries: Entries, key: string, default: Value): (r: Value)
    ensures HasKey(entries, key) ==> exists i :: 0 <= i < |entries| && entries[i] == (key, r)
    ensures !HasKey(entries, key) ==> r == default
  {
    if HasKey(entries, key) then Get(entries, key) else default
  }

  /** With distinct keys, `d[k]` is the value next to `k`. */
  lemma GetAt(entries: Entries, i: nat)
    requires DistinctKeys(entries) && i < |entries|
    ensures Get(entries, entries[i].0) == entries[i].1
  {
  }

  /** Keys of different lengths are different keys. */
  lemma KeysByLength(entries: Entries)
    requires forall i, j :: 0 <= i < j < |entries| ==> |entries[i].0| != |entries[j].0|
    ensures DistinctKeys(entries)
  {
  }

  lemma HasKeyCons(entries: Entries, key: string)
    requires entries != []
    ensures HasKey(entries, key) <==> entries[0].0 == key || HasKey(entries[1..], key)
  {
    if HasKey(entries[1..], key) {
      var i :| 0 <= i < |entries[1..]| && entries[1..][i].0 == key;
      assert entries[i + 1].0 == key;
    }
    if HasKey(entries, key) && entries[0].0 != key {
      var i :| 0 <= i < |entries| && entries[i].0 == key;
      assert entries[1..][i - 1].0 == key;
    }
  }

  // ---------------------------------------------------------------------------
  // str() and repr()

  function HexDigit(d: nat): char
    requires d < 16
  {
    "0123456789abcdef"[d]
  }

  /**
   * Characters `repr` writes as `\xhh`: the C0 controls, DEL, the C1 controls,
   * the no-break space and the soft hyphen.
   */
  predicate HexEscaped(c: char) {
    c < ' ' || ('\U{7F}' <= c <= '\U{A0}') || c == '\U{AD}'
  }

  /** How `repr` writes one character of a string quoted with `q`. */
  function EscapeChar(c: char, q: char): (r: string)
    requires q == '\'' || q == '"'
    ensures '\n' !in r
  {
    if c == '\\' || c == q then ['\\', c]
    else if c == '\t' then "\\t"
    else if c == '\n' then "\\n"
    else if c == '\r' then "\\r"
    else if HexEscaped(c) then ['\\', 'x', HexDigit(c as int / 16), HexDigit(c as int % 16)]
    else [c]
  }

  function EscapeAll(s: string, q: char): (r: string)
    requires q == '\'' || q == '"'
    ensures '\n' !in r
  {
    if s == [] then "" else EscapeChar(s[0], q) + EscapeAll(s[1..], q)
  }

  /** `repr(s)`: single quotes unless the text holds a single quote and no double quote. */
  function StrRepr(s: string): (r: string)
    ensures '\n' !in r
  {
    var q := if '\'' in s && '"' !in s then '"' else '\'';
    [q] + EscapeAll(s, q) + [q]
  }

  /** `repr(v)`; lists and dictionaries show their elements by `repr`. */
  function Repr(v: Value): string
    decreases v
  {
    match v
    case Null => "None"
    case Bool(b) => if b then "True" else "False"
    case Int(i) => IntToString(i)
    case Float(text) => text
    case Str(s) => StrRepr(s)
    case List(items) =>
      "[" + Join(", ", seq(|items|, k requires 0 <= k < |items| => Repr(items[k]))) + "]"
    case Dict(entries) =>
      "{" + Join(", ", seq(|entries|, k requires 0 <= k < |entries| =>
        StrRepr(entries[k].0) + ": " + Repr(entries[k].1))) + "}"
  }

  /** `str(v)`, which is also what an f-string substitutes: a string shows as itself. */
  function PyStr(v: Value): string {
    if v.Str? then v.s else Repr(v)
  }

  /** `repr` escapes every line break, so it always yields one line. */
  lemma {:induction false} ReprOneLine(v: Value)
    ensures '\n' !in Repr(v)
    decreases v
  {
    match v
    case List(items) =>
      forall k | 0 <= k < |items| ensures '\n' !in Repr(items[k]) {
        ReprOneLine(items[k]);
      }
      ListOneLine(items);
    case Dict(entries) =>
      forall k | 0 <= k < |entries| ensures '\n' !in Repr(entries[k].1) {
        ReprOneLine(entries[k].1);
      }
      DictOneLine(entries);
    case _ =>
      ScalarOneLine(v);
  }

  lemma ScalarOneLine(v: Value)
    requires !v.List? && !v.Dict?
    ensures '\n' !in Repr(v)
  {
    match v
    case Float(text) =>
      FloatOneLine(text);
    case Int(i) =>
      IntOneLine(i);
    case Str(t) =>
      assert Repr(v) == StrRepr(t);
    case Null =>
    case Bool(b) =>
  }

  lemma FloatOneLine(text: FloatRepr)
    ensures '\n' !in text
  {
    assert forall i :: 0 <= i < |text| ==> text[i] in "0123456789.e+-infa";
  }

  lemma IntOneLine(i: int)
    ensures '\n' !in IntToString(i)
  {
    IntToStringRoundTrip(i);
    var r := IntToString(i);
    assert forall k :: 0 <= k < |r| ==> r[k] == '-' || IsDigit(r[k]);
  }

  lemma ListOneLine(items: seq<Value>)
    requires forall k :: 0 <= k < |items| ==> '\n' !in Repr(items[k])
    ensures '\n' !in Repr(List(items))
  {
    var parts := seq(|items|, k requires 0 <= k < |items| => Repr(items[k]));
    JoinAvoids(", ", parts, '\n');
  }

  lemma DictOneLine(entries: Entries)
    requires forall k :: 0 <= k < |entries| ==> '\n' !in Repr(entries[k].1)
    ensures '\n' !in Repr(Dict(entries))
  {
    var parts := seq(|entries|, k requires 0 <= k < |entries| =>
      StrRepr(entries[k].0) + ": " + Repr(entries[k].1));
    forall k | 0 <= k < |entries| ensures '\n' !in parts[k] {
      assert parts[k] == StrRepr(entries[k].0) + ": " + Repr(entries[k].1);
    }
    JoinAvoids(", ", parts, '\n');
  }
}
