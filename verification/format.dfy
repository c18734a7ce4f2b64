/**
  The v2 client's outgoing direction (ossapi/ossapiv2.py: `_format_params`
  and `_format_value`): query parameters given as Python values are
  flattened into what the HTTP layer sends. A list becomes `key[]`, a cursor
  becomes one `cursor[name]` entry per attribute, a `Mod` becomes `key[]` of
  its decomposition, a datetime becomes milliseconds and an enum its value.
 */
module Format {
  import opened Wrappers
  import opened Dicts
  import opened Json
  import opened Types
  import Enums

  /** `_format_value`: a datetime becomes 1000 × its whole seconds, an enum member its value. */
  function FormatValue(v: Value): (r: Value)
    ensures !r.DateTime? && !r.EnumMember?
    ensures v.DateTime? ==> r.Raw? && r.j.JInt? && r.j.i / 1000 == v.seconds && r.j.i % 1000 == 0
    ensures v.EnumMember? ==> r == Raw(v.value)
    ensures !v.DateTime? && !v.EnumMember? ==> r == v
  {
    match v
    case DateTime(s) => Raw(JInt(1000 * s))
    case EnumMember(_, x, _) => Raw(x)
    case _ => v
  }

  /** Each element formatted, in order. */
  function FormatAll(vs: seq<Value>): (r: seq<Value>)
    ensures |r| == |vs|
    ensures forall i :: 0 <= i < |vs| ==> r[i] == FormatValue(vs[i])
  {
    seq(|vs|, i requires 0 <= i < |vs| => FormatValue(vs[i]))
  }

  /** `isinstance(value, list)`: a list built by the caller, or one taken from a payload. */
  function AsList(v: Value): (r: Option<seq<Value>>)
    ensures r.Some? <==> v.ListValue? || (v.Raw? && v.j.JList?)
    ensures v.ListValue? ==> r == Some(v.items)
    ensures v.Raw? && v.j.JList? ==>
      (r.Some? && |r.value| == |v.j.items| && forall i :: 0 <= i < |r.value| ==> r.value[i] == Raw(v.j.items[i]))
  {
    match v
    case ListValue(items) => Some(items)
    case Raw(JList(items)) => Some(seq(|items|, i requires 0 <= i < |items| => Raw(items[i])))
    case _ => None
  }

  predicate IsCursor(v: Value) {
    v.Instance? && v.cls == "Cursor"
  }

  /** The query name a cursor attribute is sent under. */
  function CursorKey(attr: string): string {
    "cursor[" + attr + "]"
  }

  /** `q` is a name the loop can send for one of `names`: the name itself, `name[]`, or a `cursor[...]` name. */
  predicate SentFor(q: string, names: seq<string>) {
    || q in names
    || (|q| >= 2 && q[|q| - 2..] == "[]" && q[..|q| - 2] in names)
    || (|q| >= 7 && q[..7] == "cursor[")
  }

  /** The entries the loop writes for one parameter; `inner` is the cursor's own formatted attributes. */
  function Writes(decompose: Json -> seq<Json>, key: string, v: Value, inner: Dict<Value>): (w: Dict<Value>)
    ensures AsList(v).Some? ==> w == [(key + "[]", ListValue(FormatAll(AsList(v).value)))]
    ensures AsList(v).None? && IsCursor(v) ==>
      (|w| == |inner| && forall i :: 0 <= i < |inner| ==> w[i] == (CursorKey(inner[i].0), inner[i].1))
    ensures AsList(v).None? && !IsCursor(v) && v.ModValue? ==> |w| == 1 && w[0].0 == key + "[]"
    ensures AsList(v).None? && !IsCursor(v) && !v.ModValue? ==> w == [(key, FormatValue(v))]
    ensures forall e :: e in w ==> SentFor(e.0, [key])
  {
    assert (key + "[]")[..|key|] == key && (key + "[]")[|key|..] == "[]";
    assert forall a :: CursorKey(a)[..7] == "cursor[";
    if AsList(v).Some? then [(key + "[]", ListValue(FormatAll(AsList(v).value)))]
    else if IsCursor(v) then seq(|inner|, i requires 0 <= i < |inner| => (CursorKey(inner[i].0), inner[i].1))
    else if v.ModValue? then
      var parts := decompose(v.code);
      [(key + "[]", ListValue(seq(|parts|, i requires 0 <= i < |parts| => ModValue(parts[i]))))]
    else [(key, FormatValue(v))]
  }

  /** Whether the loop deletes the parameter's own key after writing: every case but the plain one. */
  predicate Removes(v: Value) {
    AsList(v).Some? || IsCursor(v) || v.ModValue?
  }

  /** `d[k] = v` for each entry of `w` in order. */
  function PutAll(d: Dict<Value>, w: Dict<Value>): (r: Dict<Value>)
    ensures forall e :: e in r ==> e in d || e in w
    decreases |w|
  {
    if w == [] then d
    else
      var n := |w| - 1;
      PutEntries(PutAll(d, w[..n]), w[n].0, w[n].1);
      Put(PutAll(d, w[..n]), w[n].0, w[n].1)
  }

  /** One iteration of the loop of `_format_params`. */
  function Step(decompose: Json -> seq<Json>, acc: Dict<Value>, key: string, v: Value, inner: Dict<Value>): (r: Dict<Value>)
    ensures forall e :: e in r ==> e in acc || SentFor(e.0, [key])
  {
    var written := PutAll(acc, Writes(decompose, key, v, inner));
    DeleteEntries(written, key);
    if Removes(v) then Delete(written, key) else written
  }

  /** Measure for the recursion into a cursor's attributes. */
  function VSize(v: Value): nat {
    match v
    case Instance(_, attrs, _) => 1 + VSizeDict(attrs)
    case _ => 1
  }

  function VSizeDict(d: Dict<Value>): nat {
    if d == [] then 0 else VSizeDict(d[..|d| - 1]) + VSizeEntry(d[|d| - 1])
  }

  function VSizeEntry(e: (string, Value)): nat {
    VSize(e.1)
  }

  /** `_format_params(params)`: the loop over a snapshot of the parameters, updating the dict itself. */
  function FormatParams(decompose: Json -> seq<Json>, params: Dict<Value>): (r: Dict<Value>)
    ensures forall e :: e in r ==> SentFor(e.0, Keys(params))
    decreases VSizeDict(params), 1
  {
    var r := FormatEach(decompose, params, params);
    assert forall e :: e in params ==> e.0 in Keys(params) by {
      forall e | e in params ensures e.0 in Keys(params) {
        var i :| 0 <= i < |params| && params[i] == e;
        assert Keys(params)[i] == e.0;
      }
    }
    r
  }

  /** The dict after the loop has processed every entry of `snap`, starting from `acc`. */
  function FormatEach(decompose: Json -> seq<Json>, snap: Dict<Value>, acc: Dict<Value>): (r: Dict<Value>)
    ensures forall e :: e in r ==> e in acc || SentFor(e.0, Keys(snap))
    decreases VSizeDict(snap), 0
  {
    if snap == [] then acc
    else
      var n := |snap| - 1;
      assert VSizeDict(snap) == VSizeDict(snap[..n]) + VSize(snap[n].1);
      assert VSize(snap[n].1) >= 1;
      var before := FormatEach(decompose, snap[..n], acc);
      var inner := if IsCursor(snap[n].1) then FormatParams(decompose, snap[n].1.attrs) else [];
      assert Keys(snap)[n] == snap[n].0;
      assert forall x :: x in Keys(snap[..n]) ==> x in Keys(snap) by {
        forall x | x in Keys(snap[..n]) ensures x in Keys(snap) {
          var i :| 0 <= i < n && Keys(snap[..n])[i] == x;
          assert Keys(snap)[i] == x;
        }
      }
      assert forall q :: SentFor(q, Keys(snap[..n])) ==> SentFor(q, Keys(snap));
      assert forall q :: SentFor(q, [snap[n].0]) ==> SentFor(q, Keys(snap));
      Step(decompose, before, snap[n].0, snap[n].1, inner)
  }
}
