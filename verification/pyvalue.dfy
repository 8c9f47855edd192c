/** Decoded JSON values and the few Python operations the core applies to them. */
module PyValue {
  import opened Wrappers
  import opened Errors

  /** A JSON document as Python holds it after decoding (floats are not modelled). */
  datatype Json =
    | JNull
    | JBool(b: bool)
    | JInt(i: int)
    | JStr(s: string)
    | JList(items: seq<Json>)
    | JDict(fields: map<string, Json>)

  /** Python truthiness: None, False, 0 and empty containers are false. */
  predicate Truthy(j: Json) {
    match j
    case JNull => false
    case JBool(b) => b
    case JInt(i) => i != 0
    case JStr(s) => |s| > 0
    case JList(xs) => |xs| > 0
    case JDict(m) => |m| > 0
  }

  function TypeName(j: Json): string {
    match j
    case JNull => "NoneType"
    case JBool(_) => "bool"
    case JInt(_) => "int"
    case JStr(_) => "str"
    case JList(_) => "list"
    case JDict(_) => "dict"
  }

  predicate StartsWith(s: string, prefix: string) {
    |prefix| <= |s| && s[..|prefix|] == prefix
  }

  predicate IsSubstring(needle: string, hay: string) {
    exists i | 0 <= i <= |hay| :: StartsWith(hay[i..], needle)
  }

  lemma StartsWithConcat(p: string, q: string)
    ensures StartsWith(p + q, p)
  {
    assert (p + q)[..|p|] == p;
  }

  lemma SubstringAt(needle: string, hay: string, i: nat)
    requires i + |needle| <= |hay| && hay[i..i + |needle|] == needle
    ensures IsSubstring(needle, hay)
  {
    assert hay[i..][..|needle|] == hay[i..i + |needle|];
    assert StartsWith(hay[i..], needle);
  }

  /** Python's `key in container` for a string key. */
  function Contains(container: Json, key: string): Result<bool, Error> {
    match container
    case JDict(m) => Ok(key in m)
    case JList(xs) => Ok(JStr(key) in xs)
    case JStr(s) => Ok(IsSubstring(key, s))
    case _ => Err(Error(TypeError, "argument of type '" + TypeName(container) + "' is not iterable"))
  }

  /** Python's `container[key]` for a string key. */
  function GetItem(container: Json, key: string): Result<Json, Error> {
    match container
    case JDict(m) => if key in m then Ok(m[key]) else Err(Error(KeyError, key))
    case JList(_) => Err(Error(TypeError, "list indices must be integers or slices, not str"))
    case JStr(_) => Err(Error(TypeError, "string indices must be integers"))
    case _ => Err(Error(TypeError, "'" + TypeName(container) + "' object is not subscriptable"))
  }

  function NatToString(n: nat): (s: string)
    ensures |s| > 0
    ensures forall k :: 0 <= k < |s| ==> '0' <= s[k] <= '9'
  {
    if n < 10 then ["0123456789"[n]] else NatToString(n / 10) + ["0123456789"[n % 10]]
  }

  function IntToString(i: int): string {
    if i < 0 then "-" + NatToString(-i) else NatToString(i)
  }

  /** Python's `str(j)`; lists and dicts are rendered as placeholders. */
  function Str(j: Json): string {
    match j
    case JNull => "None"
    case JBool(b) => if b then "True" else "False"
    case JInt(i) => IntToString(i)
    case JStr(s) => s
    case JList(_) => "[...]"
    case JDict(_) => "{...}"
  }
}
