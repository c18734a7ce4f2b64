/**
  What flattening query parameters guarantees: every key of the result is
  decided by the last parameter that writes or removes it, plain parameters
  are formatted in place, lists and cursors are spread out under their
  bracketed names, and an enum sent by value parses back to the same member.
 */
module FormatProps {
  import opened Wrappers
  import opened Dicts
  import opened Json
  import opened Types
  import opened Format
  import Enums

  /** The value the last entry of `w` with key `q` carries. */
  function Final(w: Dict<Value>, q: string): (r: Option<Value>)
    ensures r.Some? <==> HasKey(w, q)
  {
    if w == [] then None
    else if w[|w| - 1].0 == q then Some(w[|w| - 1].1)
    else
      assert forall i :: 0 <= i < |w| - 1 ==> w[..|w| - 1][i] == w[i];
      Final(w[..|w| - 1], q)
  }

  /** Writing a list of entries one by one: the last write of a key wins, other keys are untouched. */
  lemma {:induction false} PutAllGet(d: Dict<Value>, w: Dict<Value>, q: string)
    ensures Get(PutAll(d, w), q) == if Final(w, q).Some? then Final(w, q) else Get(d, q)
    decreases |w|
  {
    if w != [] {
      var n := |w| - 1;
      PutAllGet(d, w[..n], q);
      GetPut(PutAll(d, w[..n]), w[n].0, w[n].1, q);
    }
  }

  /** What one parameter does to key `q`: `None` when it leaves `q` alone. */
  function Effect(decompose: Json -> seq<Json>, key: string, v: Value, q: string): Option<Option<Value>> {
    var inner := if IsCursor(v) then FormatParams(decompose, v.attrs) else [];
    if Removes(v) && q == key then Some(None)
    else if HasKey(Writes(decompose, key, v, inner), q) then Some(Final(Writes(decompose, key, v, inner), q))
    else None
  }

  /** Position of the last parameter that writes or removes `q`. */
  function LastTouch(decompose: Json -> seq<Json>, snap: Dict<Value>, q: string): (r: Option<nat>)
    ensures r.Some? ==> r.value < |snap| && Effect(decompose, snap[r.value].0, snap[r.value].1, q).Some?
    ensures r.Some? ==> forall j :: r.value < j < |snap| ==> Effect(decompose, snap[j].0, snap[j].1, q).None?
    ensures r.None? ==> forall j :: 0 <= j < |snap| ==> Effect(decompose, snap[j].0, snap[j].1, q).None?
  {
    if snap == [] then None
    else if Effect(decompose, snap[|snap| - 1].0, snap[|snap| - 1].1, q).Some? then Some(|snap| - 1)
    else
      var r := LastTouch(decompose, snap[..|snap| - 1], q);
      assert forall i :: 0 <= i < |snap| - 1 ==> snap[..|snap| - 1][i] == snap[i];
      r
  }

  /** One iteration: `q` takes the parameter's effect on it, if any, and keeps its value otherwise. */
  lemma StepGet(decompose: Json -> seq<Json>, acc: Dict<Value>, key: string, v: Value, q: string)
    ensures var inner := if IsCursor(v) then FormatParams(decompose, v.attrs) else [];
      var e := Effect(decompose, key, v, q);
      Get(Step(decompose, acc, key, v, inner), q) == if e.Some? then e.value else Get(acc, q)
  {
    var inner := if IsCursor(v) then FormatParams(decompose, v.attrs) else [];
    var w := Writes(decompose, key, v, inner);
    PutAllGet(acc, w, q);
    if Removes(v) {
      GetDelete(PutAll(acc, w), key, q);
    }
  }

  /**
    The whole loop, key by key: the last parameter that writes or removes a
    key decides it, and a key no parameter touches keeps its starting value.
   */
  lemma {:induction false} FormatEachGet(decompose: Json -> seq<Json>, snap: Dict<Value>, acc: Dict<Value>, q: string)
    ensures var t := LastTouch(decompose, snap, q);
      Get(FormatEach(decompose, snap, acc), q) ==
        if t.Some? then Effect(decompose, snap[t.value].0, snap[t.value].1, q).value else Get(acc, q)
    decreases |snap|
  {
    if snap != [] {
      var n := |snap| - 1;
      var prefix := snap[..n];
      var before := FormatEach(decompose, prefix, acc);
      var e := Effect(decompose, snap[n].0, snap[n].1, q);
      assert Get(FormatEach(decompose, snap, acc), q) == if e.Some? then e.value else Get(before, q) by {
        FormatEachLast(decompose, snap, acc);
        StepGet(decompose, before, snap[n].0, snap[n].1, q);
      }
      if e.Some? {
        assert LastTouch(decompose, snap, q) == Some(n);
      } else {
        FormatEachGet(decompose, prefix, acc, q);
        var t := LastTouch(decompose, prefix, q);
        assert LastTouch(decompose, snap, q) == t;
        if t.Some? {
          assert prefix[t.value] == snap[t.value];
        }
      }
    }
  }

  /** The parameters are all plain: nothing is a list, a cursor or a `Mod`. */
  predicate AllPlain(p: Dict<Value>) {
    forall i :: 0 <= i < |p| ==> !Removes(p[i].1)
  }

  /** Every value formatted, every key where it was. */
  function FormatValues(p: Dict<Value>): (r: Dict<Value>)
    ensures |r| == |p|
    ensures forall i :: 0 <= i < |p| ==> r[i] == (p[i].0, FormatValue(p[i].1))
  {
    seq(|p|, i requires 0 <= i < |p| => (p[i].0, FormatValue(p[i].1)))
  }

  /** The loop's last iteration, spelled out. */
  lemma FormatEachLast(decompose: Json -> seq<Json>, snap: Dict<Value>, acc: Dict<Value>)
    requires snap != []
    ensures var n := |snap| - 1;
      var inner := if IsCursor(snap[n].1) then FormatParams(decompose, snap[n].1.attrs) else [];
      FormatEach(decompose, snap, acc) == Step(decompose, FormatEach(decompose, snap[..n], acc), snap[n].0, snap[n].1, inner)
  {
  }

  /** A plain parameter is one assignment of its formatted value. */
  lemma StepPlain(decompose: Json -> seq<Json>, acc: Dict<Value>, key: string, v: Value, inner: Dict<Value>)
    requires !Removes(v)
    ensures Step(decompose, acc, key, v, inner) == Put(acc, key, FormatValue(v))
  {
    var w := Writes(decompose, key, v, inner);
    assert AsList(v).None? && !IsCursor(v) && !v.ModValue?;
    assert w == [(key, FormatValue(v))];
    assert PutAll(acc, w) == Put(PutAll(acc, w[..0]), key, FormatValue(v));
    assert w[..0] == [];
  }

  /** Formatting the next plain parameter in place extends the formatted prefix by one. */
  lemma PutInPlace(p: Dict<Value>, n: nat)
    requires UniqueKeys(p) && n < |p|
    ensures Put(FormatValues(p[..n]) + p[n..], p[n].0, FormatValue(p[n].1)) == FormatValues(p[..n + 1]) + p[n + 1..]
  {
    var acc := FormatValues(p[..n]) + p[n..];
    var k := p[n].0;
    assert |acc| == |p|;
    assert forall j :: 0 <= j < |acc| ==> acc[j].0 == p[j].0;
    assert Keys(acc) == Keys(p);
    assert HasKey(p, k) by { assert Keys(p)[n] == k; }
    IndexOfSameKeys(p, acc, k);
    assert IndexOf(p, k) == Some(n);
    UpdateAt(FormatValues(p[..n]), p[n..], (k, FormatValue(p[n].1)));
    FormatValuesSnoc(p, n);
    assert p[n..][1..] == p[n + 1..];
  }

  /** Overwriting the first entry after a prefix. */
  lemma UpdateAt(a: Dict<Value>, b: Dict<Value>, x: (string, Value))
    requires b != []
    ensures (a + b)[|a| := x] == a + [x] + b[1..]
  {
  }

  lemma FormatValuesSnoc(p: Dict<Value>, n: nat)
    requires n < |p|
    ensures FormatValues(p[..n + 1]) == FormatValues(p[..n]) + [(p[n].0, FormatValue(p[n].1))]
  {
  }

  lemma {:induction false} PlainPrefix(decompose: Json -> seq<Json>, p: Dict<Value>, i: nat)
    requires UniqueKeys(p) && AllPlain(p) && i <= |p|
    ensures FormatEach(decompose, p[..i], p) == FormatValues(p[..i]) + p[i..]
    decreases i
  {
    if i > 0 {
      var n := i - 1;
      var snap := p[..i];
      assert snap[..n] == p[..n];
      assert snap[n] == p[n];
      PlainPrefix(decompose, p, n);
      var acc := FormatValues(p[..n]) + p[n..];
      assert !Removes(p[n].1);
      assert !IsCursor(snap[n].1);
      FormatEachLast(decompose, snap, p);
      StepPlain(decompose, acc, p[n].0, p[n].1, []);
      PutInPlace(p, n);
    }
  }

  /** Plain parameters with distinct keys are formatted in place: same keys, same order. */
  lemma PlainParamsInPlace(decompose: Json -> seq<Json>, p: Dict<Value>)
    requires UniqueKeys(p) && AllPlain(p)
    ensures FormatParams(decompose, p) == FormatValues(p)
  {
    PlainPrefix(decompose, p, |p|);
    assert p[..|p|] == p;
  }

  /** Writing entries none of which is already a key appends them, in order. */
  lemma {:induction false} PutAllFresh(d: Dict<Value>, w: Dict<Value>)
    requires UniqueKeys(w)
    requires forall i :: 0 <= i < |w| ==> !HasKey(d, w[i].0)
    ensures PutAll(d, w) == d + w
    decreases |w|
  {
    if w != [] {
      var n := |w| - 1;
      PutAllFresh(d, w[..n]);
      assert !HasKey(d + w[..n], w[n].0) by {
        assert forall j :: 0 <= j < |d + w[..n]| ==> (d + w[..n])[j].0 != w[n].0 by {
          forall j | 0 <= j < |d + w[..n]| ensures (d + w[..n])[j].0 != w[n].0 {
            if j < |d| {
              assert d[j].0 == Keys(d)[j];
            }
          }
        }
      }
      assert d + w[..n] + [w[n]] == d + w;
    }
  }

  /** Writing fresh entries after a lone key and then deleting that key leaves just the entries. */
  lemma ReplaceKey(key: string, v: Value, w: Dict<Value>)
    requires UniqueKeys(w) && !HasKey(w, key)
    ensures Delete(PutAll([(key, v)], w), key) == w
  {
    var p := [(key, v)];
    assert Keys(p) == [key];
    forall i | 0 <= i < |w| ensures !HasKey(p, w[i].0) {
      assert w[i].0 == Keys(w)[i];
    }
    PutAllFresh(p, w);
    assert (p + w)[1..] == w;
  }

  /** A single parameter is one iteration of the loop, on the dict holding just that parameter. */
  lemma SingleParam(decompose: Json -> seq<Json>, key: string, v: Value)
    ensures var inner := if IsCursor(v) then FormatParams(decompose, v.attrs) else [];
      var w := PutAll([(key, v)], Writes(decompose, key, v, inner));
      FormatParams(decompose, [(key, v)]) == if Removes(v) then Delete(w, key) else w
  {
    var p := [(key, v)];
    FormatEachLast(decompose, p, p);
    assert p[..0] == [];
  }

  /** A list parameter becomes `key[]` holding its formatted elements, and `key` itself goes. */
  lemma ListParam(decompose: Json -> seq<Json>, key: string, items: seq<Value>)
    ensures FormatParams(decompose, [(key, ListValue(items))]) == [(key + "[]", ListValue(FormatAll(items)))]
  {
    var p := [(key, ListValue(items))];
    var w := Writes(decompose, key, ListValue(items), []);
    SingleParam(decompose, key, ListValue(items));
    assert |key + "[]"| != |key|;
    assert Keys(w) == [key + "[]"];
    ReplaceKey(key, ListValue(items), w);
  }

  /** A `Mod` becomes `key[]` holding its decomposition, and `key` itself goes. */
  lemma ModParam(decompose: Json -> seq<Json>, key: string, code: Json)
    ensures var parts := decompose(code);
      var r := FormatParams(decompose, [(key, ModValue(code))]);
      |r| == 1 && r[0].0 == key + "[]" && r[0].1.ListValue? && |r[0].1.items| == |parts| &&
      forall i :: 0 <= i < |parts| ==> r[0].1.items[i] == ModValue(parts[i])
  {
    var p := [(key, ModValue(code))];
    var w := Writes(decompose, key, ModValue(code), []);
    SingleParam(decompose, key, ModValue(code));
    assert |key + "[]"| != |key|;
    assert Keys(w) == [key + "[]"];
    ReplaceKey(key, ModValue(code), w);
  }

  /** Distinct cursor attributes are sent under distinct names: the attribute can be read back from the name. */
  lemma CursorKeyInjective(a: string, b: string)
    ensures CursorKey(a) == CursorKey(b) <==> a == b
  {
    if CursorKey(a) == CursorKey(b) {
      assert |a| == |b|;
      assert forall i :: 0 <= i < |a| ==> a[i] == CursorKey(a)[7 + i] && b[i] == CursorKey(b)[7 + i];
    }
  }

  /** The entries a cursor with distinct attributes writes: one per attribute, all distinct, none named `key`. */
  lemma CursorWrites(decompose: Json -> seq<Json>, key: string, attrs: Dict<Value>, typeArg: Option<TypeDesc>)
    requires UniqueKeys(attrs)
    requires forall i :: 0 <= i < |attrs| ==> CursorKey(attrs[i].0) != key
    ensures var w := Writes(decompose, key, Instance("Cursor", attrs, typeArg), FormatValues(attrs));
      && |w| == |attrs| && UniqueKeys(w) && !HasKey(w, key)
      && forall i :: 0 <= i < |attrs| ==> w[i] == (CursorKey(attrs[i].0), FormatValue(attrs[i].1))
  {
    var w := Writes(decompose, key, Instance("Cursor", attrs, typeArg), FormatValues(attrs));
    forall i, j | 0 <= i < j < |w| ensures w[i].0 != w[j].0 {
      CursorKeyInjective(attrs[i].0, attrs[j].0);
    }
    assert forall j :: 0 <= j < |w| ==> Keys(w)[j] != key;
  }

  /**
    A cursor with distinct plain attributes is spread out: one `cursor[name]`
    entry per attribute, in attribute order, holding the formatted value,
    and the cursor's own key goes.
   */
  lemma CursorParam(decompose: Json -> seq<Json>, key: string, attrs: Dict<Value>, typeArg: Option<TypeDesc>)
    requires UniqueKeys(attrs) && AllPlain(attrs)
    requires forall i :: 0 <= i < |attrs| ==> CursorKey(attrs[i].0) != key
    ensures var r := FormatParams(decompose, [(key, Instance("Cursor", attrs, typeArg))]);
      |r| == |attrs| && forall i :: 0 <= i < |attrs| ==> r[i] == (CursorKey(attrs[i].0), FormatValue(attrs[i].1))
  {
    var c := Instance("Cursor", attrs, typeArg);
    var w := Writes(decompose, key, c, FormatValues(attrs));
    PlainParamsInPlace(decompose, attrs);
    SingleParam(decompose, key, c);
    CursorWrites(decompose, key, attrs, typeArg);
    ReplaceKey(key, c, w);
  }

  /** `Cursor(page=199)` goes out as the single parameter `cursor[page]=199`. */
  lemma CursorExample(decompose: Json -> seq<Json>)
    ensures FormatParams(decompose, [("cursor", Instance("Cursor", [("page", Raw(JInt(199)))], None))])
      == [("cursor[page]", Raw(JInt(199)))]
  {
    var attrs: Dict<Value> := [("page", Raw(JInt(199)))];
    assert CursorKey("page") == "cursor[page]";
    CursorParam(decompose, "cursor", attrs, None);
  }

  /** Values that `==` never confuses: scalars, no two members equal. */
  predicate DistinctMembers(e: Enums.EnumDecl) {
    && (forall i :: 0 <= i < |e.members| ==> !e.members[i].1.JList? && !e.members[i].1.JObj?)
    && (forall i, j :: 0 <= i < j < |e.members| ==> !SameValue(e.members[i].1, e.members[j].1))
  }

  /**
    An enum member goes out as its value, and that value parses back to the
    same member: formatting is the inverse of the lookup.
   */
  lemma EnumRoundTrip(e: Enums.EnumDecl, name: string, v: Json, m: Json, flag: bool)
    requires DistinctMembers(e)
    requires Enums.Lookup(e, v) == Ok(m)
    ensures FormatValue(EnumMember(name, m, flag)) == Raw(m)
    ensures Enums.Lookup(e, FormatValue(EnumMember(name, m, flag)).j) == Ok(m)
  {
    if exists i :: 0 <= i < |e.members| && e.members[i].1 == m {
      var i :| 0 <= i < |e.members| && e.members[i].1 == m;
      assert SameValue(m, m);
      var f := Enums.FindValue(e.members, m);
      assert f == Some(i);
    }
  }

  /** Formatting a formatted value changes nothing. */
  lemma FormatValueIdempotent(v: Value)
    ensures FormatValue(FormatValue(v)) == FormatValue(v)
  {
  }
}
