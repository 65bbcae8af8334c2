/** The tree a YAML decoder hands to the parser, and the handful of
    JavaScript operations the parser applies to it (`String(v)`,
    `typeof v`, truthiness, own property lookup, `Object.entries`). */
module Values {
  import opened Wrappers
  import opened Text

  /** A decoded document value. `Int` is any number whose value is an
      integer (JavaScript has one number type, so `2.0` decodes to `Int(2)`);
      `Float` is any other number, kept by its `String()` form (`"1.5"`,
      `"NaN"`, `"Infinity"`). A mapping keeps its keys in the object's own
      enumeration order. */
  datatype Value =
    | Null
    | Bool(b: bool)
    | Int(i: int)
    | Float(repr: string)
    | Str(s: string)
    | Map(entries: seq<(string, Value)>)
    | Seq(items: seq<Value>)

  /** `String(v)`. */
  function JsString(v: Value): string {
    match v
    case Null => "null"
    case Bool(b) => if b then "true" else "false"
    case Int(i) => IntToString(i)
    case Float(r) => r
    case Str(s) => s
    case Map(_) => "[object Object]"
    case Seq(items) =>
      // `Array.prototype.join` renders a null element as nothing
      Join(seq(|items|, i requires 0 <= i < |items| => if items[i].Null? then "" else JsString(items[i])), ",")
  }

  /** `String(x)` of a property that may be missing (`undefined`). */
  function JsStringOf(v: Option<Value>): string {
    if v.Some? then JsString(v.value) else "undefined"
  }

  /** `typeof v`. */
  function TypeOf(v: Value): string {
    match v
    case Null => "object"
    case Bool(_) => "boolean"
    case Int(_) => "number"
    case Float(_) => "number"
    case Str(_) => "string"
    case Map(_) => "object"
    case Seq(_) => "object"
  }

  predicate IsObject(v: Value) {
    TypeOf(v) == "object"
  }

  /** JavaScript truthiness. */
  predicate Truthy(v: Value) {
    match v
    case Null => false
    case Bool(b) => b
    case Int(i) => i != 0
    case Float(r) => r != "NaN"
    case Str(s) => s != ""
    case Map(_) => true
    case Seq(_) => true
  }

  /** Truthiness of a property that may be missing. */
  predicate TruthyOpt(v: Option<Value>) {
    v.Some? && Truthy(v.value)
  }

  /** `null` or `undefined` (the `x == null` test). */
  predicate IsNullish(v: Option<Value>) {
    v.None? || v.value.Null?
  }

  function Keys<T>(entries: seq<(string, T)>): seq<string> {
    seq(|entries|, i requires 0 <= i < |entries| => entries[i].0)
  }

  /** The keys of an entry list, first entry split off. */
  lemma KeysCons<T, U>(head: (string, T), rest: seq<(string, T)>, entries: seq<(string, U)>)
    requires |entries| >= 1 && entries[0].0 == head.0 && Keys(entries[1..]) == Keys(rest)
    ensures Keys([head] + rest) == Keys(entries)
  {
    assert Keys([head] + rest) == [head.0] + Keys(rest);
    assert Keys(entries) == [entries[0].0] + Keys(entries[1..]);
  }

  /** The value of the first entry named `k`. */
  function Lookup<T>(entries: seq<(string, T)>, k: string): (r: Option<T>)
    ensures r.Some? <==> k in Keys(entries)
    ensures r.Some? ==> exists i :: 0 <= i < |entries| && entries[i] == (k, r.value)
  {
    if |entries| == 0 then None
    else if entries[0].0 == k then
      assert Keys(entries)[0] == k;
      Some(entries[0].1)
    else
      var r := Lookup(entries[1..], k);
      assert Keys(entries) == [entries[0].0] + Keys(entries[1..]);
      assert r.Some? ==> exists i :: 0 <= i < |entries| && entries[i] == (k, r.value) by {
        if r.Some? {
          var i :| 0 <= i < |entries[1..]| && entries[1..][i] == (k, r.value);
          assert entries[i + 1] == (k, r.value);
        }
      }
      r
  }

  /** `v.k` for the own property `k` of a mapping; `None` is `undefined`. */
  function Prop(v: Value, k: string): Option<Value> {
    if v.Map? then Lookup(v.entries, k) else None
  }

  /** `Object.assign({}, v)` followed by `copy.k = x`: an existing entry
      keeps its place, a new one goes last. */
  function SetProp(v: Value, k: string, x: Value): (r: Value)
    ensures v.Map? ==> Prop(r, k) == Some(x)
  {
    if v.Map? then Map(SetEntry(v.entries, k, x)) else v
  }

  function SetEntry(entries: seq<(string, Value)>, k: string, x: Value): (r: seq<(string, Value)>)
    ensures Lookup(r, k) == Some(x)
    ensures forall j :: j != k ==> Lookup(r, j) == Lookup(entries, j)
  {
    if |entries| == 0 then [(k, x)]
    else if entries[0].0 == k then [(k, x)] + entries[1..]
    else [entries[0]] + SetEntry(entries[1..], k, x)
  }

  /** `Object.entries(v)`, which lodash's `mapValues` and `Object.keys`
      walk in the same order. `None` means a `TypeError` (`null`). */
  function OwnEntries(v: Value): Option<seq<(string, Value)>> {
    match v
    case Null => None
    case Map(entries) => Some(entries)
    case Seq(items) => Some(seq(|items|, i requires 0 <= i < |items| => (NatToString(i), items[i])))
    case Str(s) => Some(seq(|s|, i requires 0 <= i < |s| => (NatToString(i), Str([s[i]]))))
    case _ => Some([])
  }

  /** The keys `mapValues` enumerates on a mapping or list: the states a
      table declares. */
  function DeclaredKeys(v: Value): seq<string> {
    var e := OwnEntries(v);
    if e.Some? then Keys(e.value) else []
  }
}
