/**
  The parsed response document, and the pieces of Python value semantics the
  client relies on: numeric equality across bool/int/float, and the size
  measure that bounds the walk over a document.
 */
module Json {
  import opened Dicts

  /** A decoded JSON document; objects keep their key order, like Python dicts. */
  datatype Json =
    | JNull
    | JBool(b: bool)
    | JInt(i: int)
    | JFloat(r: real)
    | JStr(s: string)
    | JList(items: seq<Json>)
    | JObj(fields: Dict<Json>)

  /** Python's numbers: `bool` is a subclass of `int`, and ints compare equal to floats. */
  predicate IsNumber(j: Json) {
    j.JBool? || j.JInt? || j.JFloat?
  }

  function NumValue(j: Json): real
    requires IsNumber(j)
  {
    match j
    case JBool(b) => if b then 1.0 else 0.0
    case JInt(i) => i as real
    case JFloat(r) => r
  }

  /**
    Python `==` between a scalar and any value: numbers compare by value
    (so `1 == 1.0 == True`), strings by content, and `None` only equals
    `None`. A list or dict never equals a scalar.
   */
  predicate SameValue(a: Json, b: Json) {
    || (IsNumber(a) && IsNumber(b) && NumValue(a) == NumValue(b))
    || (a.JStr? && b.JStr? && a.s == b.s)
    || (a.JNull? && b.JNull?)
  }

  /** `key.replace("@", "_")`. */
  function ReplaceAt(s: string): (r: string)
    ensures |r| == |s|
    ensures forall i :: 0 <= i < |s| ==> r[i] == if s[i] == '@' then '_' else s[i]
  {
    if s == [] then [] else [if s[0] == '@' then '_' else s[0]] + ReplaceAt(s[1..])
  }

  /** A replaced key has no "@" left, so a second replacement changes nothing. */
  lemma ReplaceAtIdempotent(s: string)
    ensures '@' !in ReplaceAt(s)
    ensures ReplaceAt(ReplaceAt(s)) == ReplaceAt(s)
    ensures '@' !in s ==> ReplaceAt(s) == s
  {
  }

  /** Number of nodes in a document; every nested value is strictly smaller than its container. */
  function Size(j: Json): nat
  {
    match j
    case JList(items) => 1 + SizeList(items)
    case JObj(fields) => 1 + SizeFields(fields)
    case _ => 1
  }

  function SizeList(s: seq<Json>): nat
  {
    if s == [] then 0 else Size(s[0]) + SizeList(s[1..])
  }

  function SizeFields(d: Dict<Json>): nat
  {
    if d == [] then 0 else SizeEntry(d[0]) + SizeFields(d[1..])
  }

  function SizeEntry(e: (string, Json)): nat
  {
    Size(e.1)
  }

  lemma {:induction false} ItemSmaller(s: seq<Json>, i: nat)
    requires i < |s|
    ensures Size(s[i]) < Size(JList(s))
  {
    if i > 0 {
      ItemSmaller(s[1..], i - 1);
    }
  }

  lemma {:induction false} FieldSmaller(d: Dict<Json>, i: nat)
    requires i < |d|
    ensures Size(d[i].1) < Size(JObj(d))
  {
    assert SizeFields(d) == Size(d[0].1) + SizeFields(d[1..]);
    if i > 0 {
      FieldSmaller(d[1..], i - 1);
      assert d[1..][i - 1] == d[i];
    }
  }
}
