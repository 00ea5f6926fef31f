/**
 * The Python values that flow through the agents, the JSON columns and the
 * event payloads: `None`, booleans, integers, floats, strings, lists and
 * dicts with string keys. A dict remembers the order in which its keys were
 * first inserted, as Python's does, because several operations of the
 * system list keys "in dict order".
 */
module PyValues {

  /** A JSON-like Python value. A float is its exact real value. */
  datatype Value =
    | PyNone
    | PyBool(b: bool)
    | PyInt(i: int)
    | PyFloat(f: real)
    | PyStr(s: string)
    | PyList(items: seq<Value>)
    | PyDict(d: Dict)

  /** A dict with string keys: `keys` in insertion order, `vals` the mapping. */
  datatype Dict = Dict(keys: seq<string>, vals: map<string, Value>)

  /** No element occurs twice. */
  ghost predicate Distinct<T>(s: seq<T>) {
    forall i, j :: 0 <= i < j < |s| ==> s[i] != s[j]
  }

  /** Each key is absent from the keys listed before it. */
  ghost predicate ListedOnce(keys: seq<string>)
    decreases |keys|, 1
  {
    keys == [] || LastListedOnce(keys)
  }

  /** The last key is not listed before it, and neither is any earlier key. */
  ghost predicate LastListedOnce(keys: seq<string>)
    requires keys != []
    decreases |keys|, 0
  {
    keys[|keys| - 1] !in keys[..|keys| - 1] && ListedOnce(keys[..|keys| - 1])
  }

  /** Every key is listed once, and exactly the keys of the mapping are listed. */
  ghost predicate WellFormed(d: Dict) {
    && ListedOnce(d.keys)
    && (forall k :: k in d.vals <==> k in d.keys)
  }

  /** A well-formed dict: what a Python `dict` with string keys always is. */
  type Obj = d: Dict | WellFormed(d) witness Dict([], map[])

  /** `{}` */
  const Empty: Obj := Dict([], map[])

  /** The exceptions the modelled code can raise. `NonStringKey` marks a
      dict key that is hashable but not a string: Python accepts it, the
      model's dicts cannot hold it. */
  datatype Exc = TypeError | AttributeError | ValueError | NonStringKey

  /** The result of Python code that either returns a value or raises. */
  datatype Outcome<+T> = Ok(value: T) | Raised(exc: Exc)

  /** `d.get(k)`: the value under `k`, or `None`. */
  function Get(d: Dict, k: string): (v: Value)
    ensures k !in d.vals ==> v == PyNone
    ensures k in d.vals ==> v == d.vals[k]
  {
    if k in d.vals then d.vals[k] else PyNone
  }

  /** `d.get(k, default)` */
  function GetOr(d: Dict, k: string, default: Value): (v: Value)
    ensures k !in d.vals ==> v == default
    ensures k in d.vals ==> v == d.vals[k]
  {
    if k in d.vals then d.vals[k] else default
  }

  /** `d[k] = v`: an existing key keeps its place, a new key goes last. */
  function Set(d: Obj, k: string, v: Value): (r: Obj)
    ensures r.vals == d.vals[k := v]
    ensures k in d.vals ==> r.keys == d.keys
    ensures k !in d.vals ==> r.keys == d.keys + [k]
  {
    if k in d.vals then Dict(d.keys, d.vals[k := v])
    else
      var r := Dict(d.keys + [k], d.vals[k := v]);
      assert r.keys[..|r.keys| - 1] == d.keys;
      assert LastListedOnce(r.keys);
      r
  }

  /** `d[k] = v` for a value that is present, nothing for one that is not. */
  function SetIfSome(d: Obj, k: string, v: Option<Value>): (r: Obj)
    ensures forall k' :: k' in r.vals <==> k' in d.vals || (k' == k && v.Some?)
    ensures v.Some? ==> r.vals[k] == v.value
  {
    if v.Some? then Set(d, k, v.value) else d
  }

  /** Python truthiness: `None`, `False`, zero, and empty strings, lists and dicts are falsy. */
  predicate Truthy(v: Value) {
    match v
    case PyNone => false
    case PyBool(b) => b
    case PyInt(i) => i != 0
    case PyFloat(f) => f != 0.0
    case PyStr(s) => s != ""
    case PyList(items) => items != []
    case PyDict(d) => d.vals != map[]
  }

  /** `isinstance(v, (int, float))`; `bool` is a subclass of `int`. */
  predicate IsNumber(v: Value) {
    v.PyBool? || v.PyInt? || v.PyFloat?
  }

  /** The numeric value of a number (`True` is 1). */
  function Num(v: Value): real
    requires IsNumber(v)
  {
    match v
    case PyBool(b) => if b then 1.0 else 0.0
    case PyInt(i) => i as real
    case PyFloat(f) => f
  }

  /** Only lists and dicts are unhashable among these values. */
  predicate Hashable(v: Value) {
    !v.PyList? && !v.PyDict?
  }

  /** `key in d` for a dict with string keys: an unhashable key raises,
      any other non-string key is absent. */
  function Contains(d: Dict, key: Value): (r: Outcome<bool>)
    ensures r.Raised? <==> !Hashable(key)
    ensures r == Ok(true) <==> key.PyStr? && key.s in d.vals
  {
    if !Hashable(key) then Raised(TypeError)
    else if key.PyStr? then Ok(key.s in d.vals)
    else Ok(false)
  }

  /** `d[key] = v` with a key that is a Python value. */
  function SetKey(d: Obj, key: Value, v: Value): (r: Outcome<Obj>)
    ensures r.Ok? <==> key.PyStr?
    ensures r.Ok? ==> r.value == Set(d, key.s, v)
    ensures !Hashable(key) ==> r == Raised(TypeError)
  {
    if !Hashable(key) then Raised(TypeError)
    else if key.PyStr? then Ok(Set(d, key.s, v))
    else Raised(NonStringKey)
  }

  /** `x.get(k)` on a value that must be a dict (anything else has no `get`). */
  function RuleGet(x: Value, k: string): (r: Outcome<Value>)
    ensures r.Ok? <==> x.PyDict?
  {
    if x.PyDict? then Ok(Get(x.d, k)) else Raised(AttributeError)
  }

  /** What `for x in v` visits: the items of a list, the one-character
      strings of a string, the keys of a dict; anything else is not
      iterable. */
  function Iterate(v: Value): (r: Option<seq<Value>>)
    ensures r.None? <==> !(v.PyList? || v.PyStr? || v.PyDict?)
    ensures v.PyList? ==> r == Some(v.items)
    ensures v.PyStr? ==> r.Some? && |r.value| == |v.s|
    ensures v.PyDict? ==> r.Some? && |r.value| == |v.d.keys|
  {
    match v
    case PyList(items) => Some(items)
    case PyStr(s) => Some(seq(|s|, i requires 0 <= i < |s| => PyStr([s[i]])))
    case PyDict(d) => Some(seq(|d.keys|, i requires 0 <= i < |d.keys| => PyStr(d.keys[i])))
    case _ => None
  }

  datatype Option<+T> = None | Some(value: T)

  /** The keys of `d` (in order) whose value satisfies `p`: a dict comprehension's key list. */
  function KeysWhere(keys: seq<string>, vals: map<string, Value>, p: Value -> bool): (r: seq<string>)
    requires forall k :: k in keys ==> k in vals
    ensures forall k :: k in r <==> k in keys && p(vals[k])
    ensures Distinct(keys) ==> Distinct(r)
    ensures |r| <= |keys|
  {
    if keys == [] then []
    else
      var rest := KeysWhere(keys[..|keys| - 1], vals, p);
      var k := keys[|keys| - 1];
      if p(vals[k]) then rest + [k] else rest
  }

  /** `x` occurs in `keys` at a place before one where `y` occurs. */
  ghost predicate Before(keys: seq<string>, x: string, y: string) {
    exists a, b :: 0 <= a < b < |keys| && keys[a] == x && keys[b] == y
  }

  /** Every two entries of `r` appear in `keys` in the same order. */
  ghost predicate InOrderOf(r: seq<string>, keys: seq<string>) {
    forall i, j :: 0 <= i < j < |r| ==> Before(keys, r[i], r[j])
  }

  /** The comprehension lists its keys in the order of `keys`. */
  lemma {:induction false} KeysWhereInOrder(keys: seq<string>, vals: map<string, Value>, p: Value -> bool)
    requires forall k :: k in keys ==> k in vals
    ensures InOrderOf(KeysWhere(keys, vals, p), keys)
  {
    if keys != [] {
      var init := keys[..|keys| - 1];
      KeysWhereInOrder(init, vals, p);
      var rest := KeysWhere(init, vals, p);
      var r := KeysWhere(keys, vals, p);
      forall i, j | 0 <= i < j < |r|
        ensures Before(keys, r[i], r[j])
      {
        assert r[i] == rest[i];
        if j < |rest| {
          assert r[j] == rest[j];
          assert Before(init, rest[i], rest[j]);
          var a, b :| 0 <= a < b < |init| && init[a] == rest[i] && init[b] == rest[j];
          assert keys[a] == init[a] && keys[b] == init[b];
        } else {
          assert rest[i] in rest;
          var a :| 0 <= a < |init| && init[a] == rest[i];
          assert keys[a] == r[i] && keys[|keys| - 1] == r[j];
        }
      }
    }
  }

  /** The comprehension is non-empty exactly when some value satisfies `p`. */
  lemma KeysWhereNonEmpty(d: Obj, p: Value -> bool)
    ensures KeysWhere(d.keys, d.vals, p) != [] <==> exists k :: k in d.vals && p(d.vals[k])
  {
    var r := KeysWhere(d.keys, d.vals, p);
    if r != [] {
      assert r[0] in r;
    }
  }

  /** `value or {}` for an optional dict: a missing dict becomes `{}`, an
      empty one already is. */
  function OrEmpty(d: Option<Obj>): (r: Obj)
    ensures d.Some? ==> r == d.value
    ensures d.None? ==> r == Empty
  {
    if d.Some? then d.value else Empty
  }

  /** The key order of a dict after `d[name] = ...`: an existing key keeps
      its place, a new one goes last. */
  function InsertKey(names: seq<string>, name: string): (r: seq<string>)
    ensures forall n :: n in r <==> n in names || n == name
    ensures Distinct(names) ==> Distinct(r)
    ensures |names| <= |r| <= |names| + 1
    ensures r[..|names|] == names
  {
    if name in names then names else names + [name]
  }

  /** `s` without the occurrences of `x`, the others in their order: what
      `del d[x]` leaves of a dict's key order. */
  function Without(s: seq<string>, x: string): (r: seq<string>)
    ensures forall y :: y in r <==> y in s && y != x
    ensures Distinct(s) ==> Distinct(r)
    ensures x !in s ==> r == s
  {
    if s == [] then []
    else
      var rest := Without(s[..|s| - 1], x);
      var last := s[|s| - 1];
      if last == x then rest
      else
        assert x !in s ==> rest == s[..|s| - 1];
        assert Distinct(s) ==> last !in s[..|s| - 1];
        rest + [last]
  }

  /** `for x in s: a = f(a, x)`: the value after the whole sequence. */
  function FoldLeft<A, B>(f: (A, B) -> A, a: A, s: seq<B>): A {
    if s == [] then a else f(FoldLeft(f, a, s[..|s| - 1]), s[|s| - 1])
  }

  /** Folding over `s + t` folds over `s`, then over `t`. */
  lemma {:induction false} FoldLeftAppend<A, B>(f: (A, B) -> A, a: A, s: seq<B>, t: seq<B>)
    ensures FoldLeft(f, a, s + t) == FoldLeft(f, FoldLeft(f, a, s), t)
  {
    if t == [] {
      assert s + t == s;
    } else {
      assert (s + t)[..|s + t| - 1] == s + t[..|t| - 1];
      FoldLeftAppend(f, a, s, t[..|t| - 1]);
    }
  }

  /** Folding over `s` then at most one more element. */
  lemma FoldLeftOpt<A, B>(f: (A, B) -> A, a: A, s: seq<B>, t: seq<B>)
    requires |t| <= 1
    ensures FoldLeft(f, a, s + t) == if t == [] then FoldLeft(f, a, s) else f(FoldLeft(f, a, s), t[0])
  {
    if t == [] {
      assert s + t == s;
    } else {
      assert (s + t)[..|s + t| - 1] == s;
    }
  }

  /** A sequence without repetitions has as many distinct elements as positions. */
  lemma {:induction false} DistinctSize<T>(s: seq<T>)
    requires Distinct(s)
    ensures |(set x | x in s)| == |s|
  {
    if s != [] {
      var p := s[..|s| - 1];
      DistinctSize(p);
      assert (set x | x in s) == (set x | x in p) + {s[|s| - 1]};
    }
  }

  /** Listing each key after none of its equals is listing no key twice. */
  lemma {:induction false} ListedOnceDistinct(s: seq<string>)
    ensures ListedOnce(s) <==> Distinct(s)
  {
    if s != [] {
      var p, c := s[..|s| - 1], s[|s| - 1];
      ListedOnceDistinct(p);
      assert ListedOnce(s) <==> LastListedOnce(s);
      if ListedOnce(s) {
        forall i, j | 0 <= i < j < |s|
          ensures s[i] != s[j]
        {
          assert s[i] == p[i];
          if j < |s| - 1 {
            assert s[j] == p[j];
          }
        }
      }
      if Distinct(s) {
        assert Distinct(p) by {
          forall i, j | 0 <= i < j < |p|
            ensures p[i] != p[j]
          {
            assert p[i] == s[i] && p[j] == s[j];
          }
        }
      }
    }
  }

  /** The keys of a dict are listed once each. */
  lemma ObjKeysDistinct(d: Obj)
    ensures Distinct(d.keys)
  {
    ListedOnceDistinct(d.keys);
  }

  /** `len(d)` counts the keys of a dict once each. */
  lemma ObjSize(d: Obj)
    ensures |d.vals| == |d.keys|
  {
    ObjKeysDistinct(d);
    DistinctSize(d.keys);
    assert d.vals.Keys == set k | k in d.keys;
  }
}
