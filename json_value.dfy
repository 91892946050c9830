/**
 * JSON values as the scripts see them after `json.load`: Python `None`, `bool`, `int`,
 * `str`, `list` and `dict`. A dict is an ordered list of (key, value) entries because
 * Python dicts keep insertion order, which the tree files and the API records expose.
 */
module JsonValue {
  import opened Wrappers
  import opened PyText

  datatype Json =
    | Null
    | Bool(b: bool)
    | Int(i: int)
    | Str(s: string)
    | Arr(items: seq<Json>)
    | Obj(fields: seq<(string, Json)>)

  /** `bool(v)` */
  predicate Truthy(v: Json) {
    match v
    case Null => false
    case Bool(b) => b
    case Int(i) => i != 0
    case Str(s) => s != ""
    case Arr(items) => items != []
    case Obj(fields) => fields != []
  }

  /** Values Python can use as dict keys and format with `str()` without recursion. */
  predicate IsScalar(v: Json) {
    v.Null? || v.Bool? || v.Int? || v.Str?
  }

  /** `list(d)`: the keys of a dict in insertion order. */
  function Keys(fields: seq<(string, Json)>): (r: seq<string>)
    ensures |r| == |fields|
  {
    if fields == [] then [] else [fields[0].0] + Keys(fields[1..])
  }

  /** `d[k]` when present: the value of the first entry with key `k`. */
  function Lookup(fields: seq<(string, Json)>, k: string): (r: Option<Json>)
    ensures r.Some? <==> k in Keys(fields)
  {
    if fields == [] then None
    else if fields[0].0 == k then Some(fields[0].1)
    else Lookup(fields[1..], k)
  }

  /** The position of the entry `d[k]` reads. */
  function IndexOf(fields: seq<(string, Json)>, k: string): (i: nat)
    requires k in Keys(fields)
    ensures i < |fields| && fields[i].0 == k && Lookup(fields, k) == Some(fields[i].1)
  {
    if fields[0].0 == k then 0 else 1 + IndexOf(fields[1..], k)
  }

  /** A dict literal `{keys[0]: values[0], ...}`. */
  function Record(keys: seq<string>, values: seq<Json>): (r: seq<(string, Json)>)
    requires |keys| == |values|
    ensures Keys(r) == keys
  {
    if keys == [] then [] else [(keys[0], values[0])] + Record(keys[1..], values[1..])
  }

  /** In a dict literal, a key not written before position `i` reads the value written there. */
  lemma {:induction false} LookupRecord(keys: seq<string>, values: seq<Json>, i: nat)
    requires |keys| == |values| && i < |keys|
    requires forall j | 0 <= j < i :: keys[j] != keys[i]
    ensures Lookup(Record(keys, values), keys[i]) == Some(values[i])
  {
    if i > 0 {
      LookupRecord(keys[1..], values[1..], i - 1);
    }
  }

  /** The entry at position `i`, when no earlier entry has its key, is what `d[k]` reads. */
  lemma {:induction false} LookupAt(fields: seq<(string, Json)>, i: nat)
    requires i < |fields|
    requires forall j | 0 <= j < i :: fields[j].0 != fields[i].0
    ensures Lookup(fields, fields[i].0) == Some(fields[i].1)
  {
    if i > 0 {
      LookupAt(fields[1..], i - 1);
    }
  }

  /** The keys are the entries' first components, position by position. */
  lemma {:induction false} KeysAt(fields: seq<(string, Json)>)
    ensures forall i | 0 <= i < |fields| :: Keys(fields)[i] == fields[i].0
  {
    if fields != [] {
      KeysAt(fields[1..]);
    }
  }

  /** `d.get(k, default)` */
  function Get(fields: seq<(string, Json)>, k: string, default: Json): Json {
    Lookup(fields, k).GetOr(default)
  }

  /** `d[k] = v`: overwrites the value in place when `k` is present, appends otherwise. */
  function Put(fields: seq<(string, Json)>, k: string, v: Json): (r: seq<(string, Json)>)
    ensures Keys(r) == if k in Keys(fields) then Keys(fields) else Keys(fields) + [k]
    ensures Lookup(r, k) == Some(v)
    ensures forall k' :: k' != k ==> Lookup(r, k') == Lookup(fields, k')
  {
    if fields == [] then [(k, v)]
    else if fields[0].0 == k then [(k, v)] + fields[1..]
    else [fields[0]] + Put(fields[1..], k, v)
  }

  /** Writing the value a key already holds leaves the dict as it was. */
  lemma {:induction false} PutSame(fields: seq<(string, Json)>, k: string)
    requires Lookup(fields, k).Some?
    ensures Put(fields, k, Lookup(fields, k).value) == fields
  {
    if fields[0].0 != k {
      PutSame(fields[1..], k);
    }
  }

  /**
   * What a Python `for` loop over `v` visits: the items of a list, the one-character
   * strings of a string, the keys of a dict; `None` where Python raises TypeError.
   */
  function Iterate(v: Json): (r: Option<seq<Json>>)
    ensures r.Some? <==> (v.Arr? || v.Str? || v.Obj?)
    ensures r.Some? ==> (Truthy(v) <==> r.value != [])
  {
    match v
    case Arr(items) => Some(items)
    case Str(s) => Some(seq(|s|, i requires 0 <= i < |s| => Str([s[i]])))
    case Obj(fields) => Some(seq(|fields|, i requires 0 <= i < |fields| => Str(fields[i].0)))
    case _ => None
  }

  /** `str(v)` (and f-string formatting) for the scalar values. */
  function Show(v: Json): string
    requires IsScalar(v)
  {
    match v
    case Null => "None"
    case Bool(b) => if b then "True" else "False"
    case Int(i) => IntToString(i)
    case Str(s) => s
  }
}
