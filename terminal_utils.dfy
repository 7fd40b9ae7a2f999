// The terminal template's text helpers: cutting long lines and reading a
// value at a dotted path inside loosely shaped data.
module TerminalUtils {
  import opened Text
  import opened Json

  /** The length truncateWithEllipsis uses when the caller gives none. */
  const DefaultMaxLength: int := 80

  function Max0(n: int): nat
  {
    if n < 0 then 0 else n
  }

  /**
   * truncateWithEllipsis: text that fits is returned as it is; longer text
   * keeps its first maxLength characters (none when maxLength is negative,
   * as String.prototype.substring clamps) followed by "...".
   */
  function TruncateWithEllipsis(s: string, maxLength: int): (r: string)
    ensures s == [] || |s| <= maxLength ==> r == s
    ensures s != [] && |s| > maxLength ==>
      |r| == Max0(maxLength) + 3 && r[..Max0(maxLength)] == s[..Max0(maxLength)] && r[Max0(maxLength)..] == "..."
  {
    if s == [] then ""
    else if |s| <= maxLength then s
    else s[..Max0(maxLength)] + "..."
  }

  /** A truncated line is never longer than maxLength plus the three dots. */
  lemma TruncateBound(s: string, maxLength: int)
    ensures |TruncateWithEllipsis(s, maxLength)| <= if |s| <= maxLength then |s| else Max0(maxLength) + 3
  {
  }

  /** Truncating twice with the same limit changes nothing more, for a limit of zero or more. */
  lemma TruncateIdempotent(s: string, maxLength: int)
    requires maxLength >= 0
    ensures TruncateWithEllipsis(TruncateWithEllipsis(s, maxLength), maxLength) == TruncateWithEllipsis(s, maxLength)
  {
    var r := TruncateWithEllipsis(s, maxLength);
    if s != [] && |s| > maxLength {
      assert r[..maxLength] == s[..maxLength];
      assert r[..maxLength] + "..." == r;
    }
  }

  // ---------------------------------------------------------------------
  // getNestedValue
  // ---------------------------------------------------------------------

  /**
   * Following `keys` from `value`: each step reads one property of an array
   * or object; reaching undefined, null or a primitive with keys left gives
   * undefined.
   */
  function Walk(value: Json, keys: seq<string>): Json
    decreases keys
  {
    if keys == [] then value
    else if !IsObjectLike(value) then JUndefined
    else Walk(Get(value, keys[0]), keys[1..])
  }

  /** What getNestedValue(obj, path, defaultValue) returns. */
  function NestedValue(obj: Json, path: string, defaultValue: Json): Json
  {
    if !Truthy(obj) || path == "" then defaultValue
    else
      var found := Walk(obj, Split(path, '.'));
      if found != JUndefined then found else defaultValue
  }

  /** getNestedValue: walks the dot-separated keys one at a time, giving up at the first non-object. */
  method GetNestedValue(obj: Json, path: string, defaultValue: Json) returns (r: Json)
    ensures r == NestedValue(obj, path, defaultValue)
  {
    if !Truthy(obj) || path == "" {
      return defaultValue;
    }
    var keys := Split(path, '.');
    var value := obj;
    for i := 0 to |keys|
      invariant Walk(value, keys[i..]) == Walk(obj, keys)
    {
      assert keys[i..][1..] == keys[i + 1..];
      if value == JUndefined || value == JNull || !IsObjectLike(value) {
        return defaultValue;
      }
      value := Get(value, keys[i]);
    }
    assert keys[|keys|..] == [];
    return if value != JUndefined then value else defaultValue;
  }

  lemma {:induction false} WalkAppend(value: Json, k1: seq<string>, k2: seq<string>)
    decreases k1
    ensures Walk(value, k1 + k2) == Walk(Walk(value, k1), k2)
  {
    if k1 == [] {
      assert k1 + k2 == k2;
    } else if !IsObjectLike(value) {
      if k2 != [] {
      }
    } else {
      assert (k1 + k2)[1..] == k1[1..] + k2;
      WalkAppend(Get(value, k1[0]), k1[1..], k2);
    }
  }

  /**
   * Reading "a.b" at once is reading "a" and then "b" from what was found,
   * when the default is null as it is for the source's callers.
   */
  lemma NestedValueComposes(obj: Json, p: string, q: string)
    requires p != "" && q != ""
    ensures NestedValue(obj, p + "." + q, JNull) == NestedValue(NestedValue(obj, p, JNull), q, JNull)
  {
    SplitConcat(p, q, '.');
    var found := Walk(obj, Split(p, '.'));
    WalkAppend(obj, Split(p, '.'), Split(q, '.'));
    assert Split(q, '.') != [];
  }

  /** A property that holds null is returned as null; only a missing one falls back to the default. */
  lemma NestedValueKeepsNull(fields: seq<(string, Json)>, key: string, defaultValue: Json)
    requires key != "" && '.' !in key
    ensures Lookup(fields, key) == JNull ==> NestedValue(JObj(fields), key, defaultValue) == JNull
    ensures !HasKey(fields, key) ==> NestedValue(JObj(fields), key, defaultValue) == defaultValue
  {
    SplitWithoutSeparator(key, '.');
    assert Walk(JObj(fields), [key]) == Walk(Lookup(fields, key), []);
  }

  /** Keys cannot reach into a string, a number or a boolean. */
  lemma NestedValueStopsAtPrimitives(obj: Json, path: string, defaultValue: Json)
    requires !IsObjectLike(obj)
    ensures NestedValue(obj, path, defaultValue) == defaultValue
  {
  }
}
