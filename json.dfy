/**
 * The values `json.loads` produces and `request.get_json` hands to the handler, with
 * the few Python operations main.py applies to them: `dict.get`, truthiness and the
 * type name that appears in an `AttributeError`.
 */
module Json {

  /** A decoded JSON value. An object keeps its members in document order; `Int` and
      `Float` are Python's two number types. */
  datatype Value =
    | Str(s: string)
    | Int(i: int)
    | Float(f: real)
    | Bool(b: bool)
    | Null
    | List(items: seq<Value>)
    | Dict(entries: seq<(string, Value)>)

  /** `list` and `dict`: the values a row cell cannot hold as they are. */
  predicate IsStructured(v: Value)
  {
    v.List? || v.Dict?
  }

  /** No member after position `i` has the key `key`. */
  predicate NoKeyAfter(entries: seq<(string, Value)>, key: string, i: int)
  {
    forall j :: 0 <= j < |entries| && i < j ==> entries[j].0 != key
  }

  /** The position of the last member below position `n` with key `key`, or -1. */
  function LastKeyBelow(entries: seq<(string, Value)>, key: string, n: nat): (r: int)
    requires n <= |entries|
    ensures -1 <= r < n
    ensures r >= 0 ==> entries[r].0 == key
    ensures forall j :: r < j < n ==> entries[j].0 != key
  {
    if n == 0 then -1
    else if entries[n - 1].0 == key then n - 1
    else LastKeyBelow(entries, key, n - 1)
  }

  /** `d.get(key, default)` on the dict built from `entries`: like `json.loads`, a key
      that occurs more than once keeps its last value. */
  function Get(entries: seq<(string, Value)>, key: string, default: Value): Value
  {
    var r := LastKeyBelow(entries, key, |entries|);
    if r < 0 then default else entries[r].1
  }

  /** `get` returns the default when the key is absent and otherwise the value of the
      key's last occurrence. */
  lemma GetFindsLast(entries: seq<(string, Value)>, key: string, default: Value)
    ensures NoKeyAfter(entries, key, -1) ==> Get(entries, key, default) == default
    ensures forall i :: (0 <= i < |entries| && entries[i].0 == key && NoKeyAfter(entries, key, i)
      ==> Get(entries, key, default) == entries[i].1)
  {
  }

  /** Members without the key between `lo` and `n` do not change the search. */
  lemma {:induction false} LastKeyBelowSkips(entries: seq<(string, Value)>, key: string, lo: nat, n: nat)
    requires lo <= n <= |entries|
    requires forall j :: lo <= j < n ==> entries[j].0 != key
    ensures LastKeyBelow(entries, key, n) == LastKeyBelow(entries, key, lo)
    decreases n
  {
    if lo < n {
      LastKeyBelowSkips(entries, key, lo, n - 1);
    }
  }

  /** The search below `n` looks only at the keys below `n`. */
  lemma {:induction false} LastKeyBelowAgrees(a: seq<(string, Value)>, b: seq<(string, Value)>, key: string, n: nat)
    requires n <= |a| && n <= |b|
    requires forall j :: 0 <= j < n ==> a[j].0 == b[j].0
    ensures LastKeyBelow(a, key, n) == LastKeyBelow(b, key, n)
    decreases n
  {
    if n > 0 {
      LastKeyBelowAgrees(a, b, key, n - 1);
    }
  }

  /** Members added after `entries` under other keys do not change what `get` finds. */
  lemma GetIgnoresOtherKeys(entries: seq<(string, Value)>, extra: seq<(string, Value)>,
                            key: string, default: Value)
    requires forall j :: 0 <= j < |extra| ==> extra[j].0 != key
    ensures Get(entries + extra, key, default) == Get(entries, key, default)
  {
    var all := entries + extra;
    assert forall j :: |entries| <= j < |all| ==> all[j] == extra[j - |entries|];
    LastKeyBelowSkips(all, key, |entries|, |all|);
    assert forall j :: 0 <= j < |entries| ==> all[j] == entries[j];
    LastKeyBelowAgrees(all, entries, key, |entries|);
  }

  /** Python's truth value: empty strings and containers, zero, `False` and `None` are falsy. */
  predicate Truthy(v: Value)
  {
    match v
    case Str(s) => s != ""
    case Int(i) => i != 0
    case Float(f) => f != 0.0
    case Bool(b) => b
    case Null => false
    case List(items) => items != []
    case Dict(entries) => entries != []
  }

  /** `type(v).__name__`. */
  function TypeName(v: Value): string
  {
    match v
    case Str(_) => "str"
    case Int(_) => "int"
    case Float(_) => "float"
    case Bool(_) => "bool"
    case Null => "NoneType"
    case List(_) => "list"
    case Dict(_) => "dict"
  }

  /** `str(e)` of the `AttributeError` raised by calling `.get` on a value that is not a dict. */
  function NoGetMessage(v: Value): string
  {
    "'" + TypeName(v) + "' object has no attribute 'get'"
  }
}
