// JavaScript values as the data layer handles them: parsed JSON, `||`
// defaulting, property reads, and object spread (`{...a, ...b}`).
module Json {
  import opened Text
  import Seqs

  /**
   * A JavaScript value. An object is the list of its own enumerable
   * properties in enumeration order; numbers are integers.
   */
  datatype Json =
    | JUndefined
    | JNull
    | JBool(b: bool)
    | JNum(n: int)
    | JStr(s: string)
    | JArr(items: seq<Json>)
    | JObj(fields: seq<(string, Json)>)

  /** JavaScript truthiness. */
  predicate Truthy(j: Json)
  {
    match j
    case JUndefined => false
    case JNull => false
    case JBool(b) => b
    case JNum(n) => n != 0
    case JStr(s) => s != ""
    case _ => true
  }

  /** `a || b`. */
  function Or(a: Json, b: Json): (r: Json)
    ensures Truthy(r) <==> Truthy(a) || Truthy(b)
    ensures r == a || r == b
  {
    if Truthy(a) then a else b
  }

  /** `typeof v === 'object' && v !== null`: values that have properties of their own. */
  predicate IsObjectLike(j: Json)
  {
    j.JArr? || j.JObj?
  }

  function Keys(fields: seq<(string, Json)>): (ks: seq<string>)
    ensures |ks| == |fields|
    ensures forall i :: 0 <= i < |fields| ==> ks[i] == fields[i].0
  {
    if fields == [] then [] else [fields[0].0] + Keys(fields[1..])
  }

  predicate HasKey(fields: seq<(string, Json)>, key: string)
  {
    key in Keys(fields)
  }

  /** The value stored under `key`, or undefined when there is none. */
  function Lookup(fields: seq<(string, Json)>, key: string): (v: Json)
    ensures !HasKey(fields, key) ==> v == JUndefined
    ensures HasKey(fields, key) ==> exists i :: 0 <= i < |fields| && fields[i] == (key, v)
  {
    if fields == [] then JUndefined
    else if fields[0].0 == key then fields[0].1
    else Lookup(fields[1..], key)
  }

  /** The properties every plain object inherits from Object.prototype; each holds a function, or an object for `__proto__`. */
  const ObjectPrototypeKeys: seq<string> := [
    "constructor", "__defineGetter__", "__defineSetter__", "hasOwnProperty", "__lookupGetter__",
    "__lookupSetter__", "isPrototypeOf", "propertyIsEnumerable", "toString", "valueOf", "__proto__",
    "toLocaleString"
  ]

  /** `record[key]` on a plain object without that own property is truthy exactly for these names. */
  predicate Inherited(key: string)
  {
    key in ObjectPrototypeKeys
  }

  /** The property read `j[key]`; only arrays and objects are given properties here. */
  function Get(j: Json, key: string): Json
  {
    match j
    case JObj(fields) => Lookup(fields, key)
    case JArr(items) =>
      if key == "length" then JNum(|items|)
      else (match ParseIndex(key)
            case Some(i) => if i < |items| then items[i] else JUndefined
            case None => JUndefined)
    case _ => JUndefined
  }

  lemma GetArrayIndex(items: seq<Json>, i: nat)
    requires i < |items|
    ensures Get(JArr(items), NatToString(i)) == items[i]
  {
    NatToStringRoundTrip(i);
    assert NatToString(i) != "length" by {
      assert IsDigit(NatToString(i)[0]);
    }
  }

  // ---------------------------------------------------------------------
  // Object spread
  // ---------------------------------------------------------------------

  /** Writing `key` into an object: an existing property keeps its position, a new one goes last. */
  function SetField(fields: seq<(string, Json)>, key: string, v: Json): (r: seq<(string, Json)>)
    ensures Keys(r) == Seqs.SetInsert(Keys(fields), key)
    ensures Lookup(r, key) == v
    ensures forall k :: k != key ==> Lookup(r, k) == Lookup(fields, k)
  {
    if fields == [] then [(key, v)]
    else if fields[0].0 == key then
      OverwriteFirst(fields, v);
      [(key, v)] + fields[1..]
    else
      var rest := SetField(fields[1..], key, v);
      SetFieldBehind(fields, key, v, rest);
      [fields[0]] + rest
  }

  /** SetField's contract when the first field already has the key. */
  lemma OverwriteFirst(fields: seq<(string, Json)>, v: Json)
    requires fields != []
    ensures var key, r := fields[0].0, [(fields[0].0, v)] + fields[1..];
      Keys(r) == Seqs.SetInsert(Keys(fields), key)
      && Lookup(r, key) == v
      && forall k :: k != key ==> Lookup(r, k) == Lookup(fields, k)
  {
    var key, r := fields[0].0, [(fields[0].0, v)] + fields[1..];
    assert r[1..] == fields[1..];
    assert Keys(r) == [key] + Keys(fields[1..]);
    assert Keys(fields) == [key] + Keys(fields[1..]);
  }

  /** SetField's contract when the key is written behind a first field with another key. */
  lemma SetFieldBehind(fields: seq<(string, Json)>, key: string, v: Json, rest: seq<(string, Json)>)
    requires fields != [] && fields[0].0 != key
    requires Keys(rest) == Seqs.SetInsert(Keys(fields[1..]), key)
    requires Lookup(rest, key) == v
    requires forall k :: k != key ==> Lookup(rest, k) == Lookup(fields[1..], k)
    ensures var r := [fields[0]] + rest;
      Keys(r) == Seqs.SetInsert(Keys(fields), key)
      && Lookup(r, key) == v
      && forall k :: k != key ==> Lookup(r, k) == Lookup(fields, k)
  {
    KeysBehind(fields, key, rest);
    LookupBehind(fields, key, rest);
  }

  lemma KeysBehind(fields: seq<(string, Json)>, key: string, rest: seq<(string, Json)>)
    requires fields != [] && fields[0].0 != key
    requires Keys(rest) == Seqs.SetInsert(Keys(fields[1..]), key)
    ensures Keys([fields[0]] + rest) == Seqs.SetInsert(Keys(fields), key)
  {
    var r := [fields[0]] + rest;
    var tail := Keys(fields[1..]);
    assert r[1..] == rest;
    assert Keys(fields) == [fields[0].0] + tail;
    assert Keys(r) == [fields[0].0] + Keys(rest);
    if key in tail {
      assert key in Keys(fields);
    } else {
      assert key !in Keys(fields);
      assert [fields[0].0] + (tail + [key]) == ([fields[0].0] + tail) + [key];
    }
  }

  lemma LookupBehind(fields: seq<(string, Json)>, key: string, rest: seq<(string, Json)>)
    requires fields != [] && fields[0].0 != key
    requires forall k :: k != key ==> Lookup(rest, k) == Lookup(fields[1..], k)
    ensures Lookup([fields[0]] + rest, key) == Lookup(rest, key)
    ensures forall k :: k != key ==> Lookup([fields[0]] + rest, k) == Lookup(fields, k)
  {
    var r := [fields[0]] + rest;
    assert r[1..] == rest;
    forall k | k != key
      ensures Lookup(r, k) == Lookup(fields, k)
    {
      if k != fields[0].0 {
        assert Lookup(r, k) == Lookup(rest, k);
      }
    }
  }

  /** The own enumerable properties `...j` copies: an object's fields, an array's or a string's indexed elements. */
  function SpreadEntries(j: Json): seq<(string, Json)>
  {
    match j
    case JObj(fields) => fields
    case JArr(items) => seq(|items|, i requires 0 <= i < |items| => (NatToString(i), items[i]))
    case JStr(s) => seq(|s|, i requires 0 <= i < |s| => (NatToString(i), JStr([s[i]])))
    case _ => []
  }

  /** `{...target, ...source}` as entry lists: the source's entries written into the target in order. */
  function Assign(target: seq<(string, Json)>, source: seq<(string, Json)>): seq<(string, Json)>
  {
    if source == [] then target
    else
      var last := source[|source| - 1];
      SetField(Assign(target, source[..|source| - 1]), last.0, last.1)
  }

  /** `{...a, ...b}`. */
  function Spread(a: Json, b: Json): Json
  {
    JObj(Assign(SpreadEntries(a), SpreadEntries(b)))
  }

  /**
   * The keys of a merged object are the target's, in order, followed by the
   * source's new keys in the order they first appear.
   */
  lemma {:induction false} AssignKeys(target: seq<(string, Json)>, source: seq<(string, Json)>)
    ensures Keys(Assign(target, source)) == Seqs.InsertAll(Keys(target), Keys(source))
  {
    if source != [] {
      var init := source[..|source| - 1];
      AssignKeys(target, init);
      assert Keys(source)[..|source| - 1] == Keys(init);
    }
  }

  /** A property of the merge comes from the last source entry that has it, and otherwise from the target. */
  lemma {:induction false} AssignLookup(target: seq<(string, Json)>, source: seq<(string, Json)>, key: string)
    ensures Lookup(Assign(target, source), key) == LastValue(target, source, key)
  {
    if source != [] {
      AssignLookup(target, source[..|source| - 1], key);
    }
  }

  /** The value the last entry for `key` in `source` carries, or the target's value when `source` has none. */
  function LastValue(target: seq<(string, Json)>, source: seq<(string, Json)>, key: string): Json
  {
    if source == [] then Lookup(target, key)
    else if source[|source| - 1].0 == key then source[|source| - 1].1
    else LastValue(target, source[..|source| - 1], key)
  }

  lemma {:induction false} LastValueDistinct(target: seq<(string, Json)>, source: seq<(string, Json)>, key: string)
    requires Seqs.NoDuplicates(Keys(source))
    ensures LastValue(target, source, key) == if HasKey(source, key) then Lookup(source, key) else Lookup(target, key)
  {
    if source != [] {
      var init := source[..|source| - 1];
      var last := source[|source| - 1];
      assert source == init + [last];
      var ks := Keys(source);
      assert Keys(init) == ks[..|source| - 1];
      assert Seqs.NoDuplicates(Keys(init));
      LastValueDistinct(target, init, key);
      LookupSnoc(init, last, key);
      if last.0 == key {
        assert ks[|source| - 1] == key;
        assert key !in Keys(init);
      }
    }
  }

  /** The value under `key` is the one of its first field. */
  lemma {:induction false} LookupAt(fields: seq<(string, Json)>, i: nat, key: string)
    requires i < |fields| && fields[i].0 == key
    requires forall j :: 0 <= j < i ==> fields[j].0 != key
    ensures Lookup(fields, key) == fields[i].1
  {
    if i > 0 {
      LookupAt(fields[1..], i - 1, key);
    }
  }

  /** In an object whose keys are distinct, each field is what its key reads. */
  lemma {:induction false} LookupDistinct(fields: seq<(string, Json)>, i: nat)
    requires Seqs.NoDuplicates(Keys(fields)) && i < |fields|
    ensures Lookup(fields, fields[i].0) == fields[i].1
  {
    if i > 0 {
      var ks, rest := Keys(fields), Keys(fields[1..]);
      assert ks[0] != ks[i];
      assert forall a :: 0 <= a < |rest| ==> rest[a] == ks[a + 1];
      LookupDistinct(fields[1..], i - 1);
    }
  }

  lemma {:induction false} LookupSnoc(fields: seq<(string, Json)>, last: (string, Json), key: string)
    ensures Lookup(fields + [last], key)
         == if HasKey(fields, key) then Lookup(fields, key) else if last.0 == key then last.1 else JUndefined
    ensures HasKey(fields + [last], key) <==> HasKey(fields, key) || last.0 == key
  {
    if fields == [] {
      assert fields + [last] == [last];
    } else {
      assert (fields + [last])[1..] == fields[1..] + [last];
      LookupSnoc(fields[1..], last, key);
    }
  }

  /**
   * In `{...defaults, ...data}` where `data` is an object (its keys are
   * distinct), each property is data's when data has it and the default's
   * otherwise, and every default property is still there.
   */
  lemma SpreadObjectOverDefaults(defaults: seq<(string, Json)>, data: seq<(string, Json)>, key: string)
    requires Seqs.NoDuplicates(Keys(data))
    ensures Lookup(Assign(defaults, data), key) == if HasKey(data, key) then Lookup(data, key) else Lookup(defaults, key)
    ensures HasKey(Assign(defaults, data), key) <==> HasKey(defaults, key) || HasKey(data, key)
  {
    AssignLookup(defaults, data, key);
    LastValueDistinct(defaults, data, key);
    AssignKeys(defaults, data);
    var ks := Keys(Assign(defaults, data));
    if key in Keys(data) {
      var i :| 0 <= i < |Keys(data)| && Keys(data)[i] == key;
      assert key in ks;
    }
    if key in ks && key !in Keys(defaults) {
      assert key in Keys(data);
    }
  }

  /** `{...a, ...b}` starts with a's keys, in a's order, whatever b is. */
  lemma SpreadKeepsTargetKeys(a: seq<(string, Json)>, b: Json)
    ensures |a| <= |Assign(a, SpreadEntries(b))| && Keys(Assign(a, SpreadEntries(b)))[..|a|] == Keys(a)
  {
    AssignKeys(a, SpreadEntries(b));
  }
}
