/**
  What the v2 conversion guarantees, stated against the functions of
  `Materialize` for every schema and payload.
 */
module MaterializeProps {
  import opened Wrappers
  import opened Dicts
  import opened Json
  import opened Types
  import opened Materialize

  // ---------------------------------------------------------------------
  // The error check in `_get`
  // ---------------------------------------------------------------------

  /** Python's `len(j)`; numbers, bools and null have none. */
  function PyLen(j: Json): Option<nat> {
    match j
    case JObj(fields) => Some(|fields|)
    case JList(items) => Some(|items|)
    case JStr(s) => Some(|s|)
    case _ => None
  }

  /** Python's `"error" in j` for a value that has a length. */
  predicate PyContains(j: Json, w: string) {
    match j
    case JObj(fields) => HasKey(fields, w)
    case JList(items) => JStr(w) in items
    case JStr(s) => IsSubstring(w, s)
    case _ => false
  }

  predicate IsSubstring(w: string, s: string) {
    |w| <= |s| && (s[..|w|] == w || IsSubstring(w, s[1..]))
  }

  /**
    A response is rejected exactly when `len(json)` fails or
    `len(json) == 1 and "error" in json`; an accepted response is passed on
    unchanged, and an object whose only key is "error" reports that key's value.
   */
  lemma CheckResponseSpec(json: Json)
    ensures CheckResponse(json).Err? <==>
      PyLen(json).None? || (PyLen(json) == Some(1) && PyContains(json, "error"))
    ensures CheckResponse(json).Ok? ==> CheckResponse(json).value == json
    ensures json.JObj? && |json.fields| == 1 && HasKey(json.fields, "error") ==>
      CheckResponse(json) == Err(ApiError(json.fields[0].1))
  {
    match json
    case JObj(fields) =>
      if |fields| == 1 {
        assert Keys(fields) == [fields[0].0];
      }
    case JList(items) =>
    case _ =>
  }

  // ---------------------------------------------------------------------
  // Optional unwrapping and primitive checks
  // ---------------------------------------------------------------------

  /**
    `Optional[X]` is converted exactly like `X`. (A one-armed `Union[X]` is
    `X` itself in `typing`, so no annotation is such a union.)
   */
  lemma OptionalUnwrappedOnce(env: Env, t: TypeDesc, v: Json, a: Option<TypeDesc>)
    requires !IsOptional(t)
    requires t.Union? ==> |t.arms| != 1
    ensures InstantiateType(env, Optional(t), v, a) == InstantiateType(env, t, v, a)
  {
  }

  /** `typing` flattens nested optionals: `Optional[Optional[X]]` is the annotation `Optional[X]`. */
  lemma NestedOptionalFlattened(t: TypeDesc)
    ensures Optional(Optional(t)) == Optional(t)
  {
  }

  /**
    A union of three distinct arms with `None` second passes `_is_optional`
    and then fails the assertion that an optional has two arguments.
   */
  lemma WideOptionalRejected(env: Env, t: TypeDesc, u: TypeDesc, v: Json, a: Option<TypeDesc>)
    requires t != NoneT && u != NoneT && t != u && !t.Union? && !u.Union?
    ensures IsOptional(Union([t, NoneT, u]))
    ensures InstantiateType(env, Union([t, NoneT, u]), v, a) == Err(UnionArity)
  {
  }

  /**
    A primitive field accepts a value exactly when it is compatible, and then
    nothing is converted; any other value is a type error.
   */
  lemma PrimitiveField(env: Env, p: Prim, v: Json, a: Option<TypeDesc>)
    ensures InstantiateType(env, PrimT(p), v, a) == if IsCompatible(v, p) then Ok(None) else Err(TypeMismatch(p, v))
    ensures InstantiateType(env, Optional(PrimT(p)), v, a) == InstantiateType(env, PrimT(p), v, a)
  {
  }

  /** `Any`, a bare type variable and `None` are never converted. */
  lemma UnconvertedKinds(env: Env, n: string, v: Json, a: Option<TypeDesc>)
    ensures InstantiateType(env, AnyT, v, a) == Ok(None)
    ensures InstantiateType(env, TypeVar(n), v, a) == Ok(None)
    ensures InstantiateType(env, NoneT, v, a) == Ok(None)
  {
  }

  /** Enum, datetime and `Mod` fields are built in one step from the raw value, with no recursion. */
  lemma BaseBuiltOnce(env: Env, t: TypeDesc, v: Json, a: Option<TypeDesc>)
    requires IsBaseType(env.schema, t)
    ensures InstantiateType(env, t, v, a) ==
      match BuildBase(env, t, v)
      case Ok(b) => Ok(Some(b))
      case Err(e) => Err(e)
  {
  }

  /**
    The standard `datetime` passes `_is_base_type`, but calling it with the
    one value the client passes always raises, so no value converts under
    that annotation, optional or not.
   */
  lemma StdDatetimeRefused(env: Env, v: Json, a: Option<TypeDesc>)
    ensures InstantiateType(env, StdDatetimeT, v, a) == Err(DatetimeArguments(v))
    ensures InstantiateType(env, Optional(StdDatetimeT), v, a) == Err(DatetimeArguments(v))
  {
  }

  /** An enum field holds the member the enum's lookup finds, or fails when the lookup fails. */
  lemma EnumField(env: Env, n: string, v: Json, a: Option<TypeDesc>)
    requires env.schema(n).Some? && env.schema(n).value.EnumClass?
    ensures InstantiateType(env, Class(n), v, a).Ok? <==> Enums.Parse(env.schema(n).value.decl, v).Ok?
    ensures Enums.Parse(env.schema(n).value.decl, v).Ok? ==>
      InstantiateType(env, Class(n), v, a) == Ok(Some(EnumMember(n, Enums.Parse(env.schema(n).value.decl, v).value, env.schema(n).value.decl.flag)))
  {
    BaseBuiltOnce(env, Class(n), v, a);
  }

  /**
    A flag field holding 0 or `false` converts to the empty combination,
    which is falsy (`Flag.__bool__`), so the attribute keeps the raw value
    instead of a member.
   */
  lemma ZeroFlagKeptRaw(env: Env, k: string, hints: Dict<TypeDesc>, n: string, a: Option<TypeDesc>, bound: nat)
    requires k != "__orig_class__" && Size(JInt(0)) < bound
    requires env.schema(n).Some? && env.schema(n).value.EnumClass? && env.schema(n).value.decl.flag
    requires Get(hints, k) == Some(Class(n)) || Get(hints, k) == Some(Optional(Class(n)))
    ensures InstantiateType(env, Class(n), JInt(0), a).Ok?
    ensures ResolveAttr(env, k, JInt(0), hints, a, bound) == Ok(Raw(JInt(0)))
    ensures InstantiateType(env, Class(n), JBool(false), a).Ok?
    ensures ResolveAttr(env, k, JBool(false), hints, a, bound) == Ok(Raw(JBool(false)))
  {
    var decl := env.schema(n).value.decl;
    Enums.FlagZero(decl);
    EnumField(env, n, JInt(0), a);
    OptionalUnwrappedOnce(env, Class(n), JInt(0), a);
    EnumField(env, n, JBool(false), a);
    OptionalUnwrappedOnce(env, Class(n), JBool(false), a);
  }

  // ---------------------------------------------------------------------
  // Lists
  // ---------------------------------------------------------------------

  /** Results collected left to right, stopping at the first error: the shape of the entry loop. */
  function Collect<T>(rs: seq<Result<T, Error>>): Result<seq<T>, Error>
    decreases |rs|
  {
    if rs == [] then Ok([])
    else
      var h :- rs[0];
      var t :- Collect(rs[1..]);
      Ok([h] + t)
  }

  /** Collecting succeeds exactly when every result is a success, and then keeps each value in place. */
  lemma {:induction false} CollectPointwise<T>(rs: seq<Result<T, Error>>)
    ensures Collect(rs).Ok? <==> forall i :: 0 <= i < |rs| ==> rs[i].Ok?
    ensures Collect(rs).Ok? ==>
      |Collect(rs).value| == |rs| && forall i :: 0 <= i < |rs| ==> rs[i] == Ok(Collect(rs).value[i])
    decreases |rs|
  {
    if rs != [] {
      CollectPointwise(rs[1..]);
      assert forall i :: 0 < i < |rs| ==> rs[i] == rs[1..][i - 1];
    }
  }

  /** The result of converting each entry on its own. */
  function EntryResults(env: Env, et: TypeDesc, items: seq<Json>, bound: nat): (rs: seq<Result<Value, Error>>)
    requires forall i :: 0 <= i < |items| ==> Size(items[i]) < bound
    ensures |rs| == |items|
    ensures forall i :: 0 <= i < |items| ==> rs[i] == InstantiateEntry(env, et, items[i], bound)
  {
    seq(|items|, i requires 0 <= i < |items| => InstantiateEntry(env, et, items[i], bound))
  }

  /** The entry loop is the collection of the entries converted one by one. */
  lemma {:induction false} EntriesCollect(env: Env, et: TypeDesc, items: seq<Json>, bound: nat)
    requires forall i :: 0 <= i < |items| ==> Size(items[i]) < bound
    ensures InstantiateEntries(env, et, items, bound) == Collect(EntryResults(env, et, items, bound))
    decreases |items|
  {
    if items != [] {
      var rs := EntryResults(env, et, items, bound);
      EntriesCollect(env, et, items[1..], bound);
      assert rs[1..] == EntryResults(env, et, items[1..], bound);
    }
  }

  /**
    The list of entries succeeds exactly when every entry does, and is then
    as long as the input with the i-th result built from the i-th entry.
   */
  lemma EntriesPointwise(env: Env, et: TypeDesc, items: seq<Json>, bound: nat)
    requires forall i :: 0 <= i < |items| ==> Size(items[i]) < bound
    ensures InstantiateEntries(env, et, items, bound).Ok? <==>
      forall i :: 0 <= i < |items| ==> InstantiateEntry(env, et, items[i], bound).Ok?
    ensures InstantiateEntries(env, et, items, bound).Ok? ==>
      var vs := InstantiateEntries(env, et, items, bound).value;
      |vs| == |items| && forall i :: 0 <= i < |items| ==> InstantiateEntry(env, et, items[i], bound) == Ok(vs[i])
  {
    EntriesCollect(env, et, items, bound);
    CollectPointwise(EntryResults(env, et, items, bound));
  }

  /**
    A list of models becomes a new list of the same length and order, each
    element the instantiated and resolved entry at that position.
   */
  lemma ModelListPreservesOrder(env: Env, e: TypeDesc, items: seq<Json>, a: Option<TypeDesc>)
    requires IsModelType(env.schema, e)
    requires InstantiateType(env, ListOf(e), JList(items), a).Ok?
    ensures InstantiateType(env, ListOf(e), JList(items), a).value.Some?
    ensures forall i :: 0 <= i < |items| ==> Size(items[i]) < Size(JList(items))
    ensures var r := InstantiateType(env, ListOf(e), JList(items), a).value.value;
      r.ListValue? && |r.items| == |items| &&
      forall i :: 0 <= i < |items| ==> InstantiateEntry(env, e, items[i], Size(JList(items))) == Ok(r.items[i])
  {
    EntriesBelow(JList(items), items);
    EntriesPointwise(env, e, items, Size(JList(items)));
  }

  /** A list of anything but models and type variables, primitives included, is never looked into. */
  lemma PlainListUntouched(env: Env, e: TypeDesc, v: Json, a: Option<TypeDesc>)
    requires !IsModelType(env.schema, e) && !e.TypeVar?
    requires UndeclaredName(env.schema, ListOf(e)).None?
    ensures InstantiateType(env, ListOf(e), v, a) == Ok(None)
  {
  }

  /**
    A list of a type variable takes its element type from the enclosing
    instance's generic argument, and fails when there is none.
   */
  lemma TypeVarListBinding(env: Env, n: string, e: TypeDesc, v: Json)
    requires IsModelType(env.schema, e)
    ensures InstantiateType(env, ListOf(TypeVar(n)), v, None) == Err(NoTypeArgument)
    ensures InstantiateType(env, ListOf(TypeVar(n)), v, Some(e)) == InstantiateType(env, ListOf(e), v, None)
  {
  }

  // ---------------------------------------------------------------------
  // `_instantiate`
  // ---------------------------------------------------------------------

  /** The keys every "@" of which is replaced, values unchanged, order kept. */
  function RenamedEntries(d: Dict<Json>): (r: Dict<Json>)
    ensures |r| == |d|
  {
    seq(|d|, i requires 0 <= i < |d| => (ReplaceAt(d[i].0), d[i].1))
  }

  /** No two payload keys become the same key. */
  ghost predicate RenameInjective(d: Dict<Json>) {
    forall i, j :: 0 <= i < j < |d| ==> ReplaceAt(d[i].0) != ReplaceAt(d[j].0)
  }

  lemma NotAKey(d: Dict<Json>, k: string)
    requires forall i :: 0 <= i < |d| ==> d[i].0 != k
    ensures !HasKey(d, k)
  {
  }

  /** The entries after position `i`, and those already renamed, carry neither `d0[i]`'s key nor its renamed form. */
  lemma RestAvoids(d0: Dict<Json>, i: nat)
    requires RenameInjective(d0)
    requires i < |d0|
    ensures var rest := d0[i + 1..] + RenamedEntries(d0[..i]);
      forall j :: 0 <= j < |rest| ==> rest[j].0 != d0[i].0 && rest[j].0 != ReplaceAt(d0[i].0)
  {
    var k := d0[i].0;
    var rest := d0[i + 1..] + RenamedEntries(d0[..i]);
    forall j | 0 <= j < |rest| ensures rest[j].0 != k && rest[j].0 != ReplaceAt(k) {
      if j < |d0| - i - 1 {
        assert rest[j] == d0[i + 1 + j];
        ReplaceAtIdempotent(k);
      } else {
        var m := j - (|d0| - i - 1);
        assert rest[j].0 == ReplaceAt(d0[m].0);
        ReplaceAtIdempotent(d0[m].0);
      }
    }
  }

  lemma RenamedSnoc(d0: Dict<Json>, i: nat)
    requires i < |d0|
    ensures RenamedEntries(d0[..i + 1]) == RenamedEntries(d0[..i]) + [(ReplaceAt(d0[i].0), d0[i].1)]
  {
  }

  /** Renaming the next key of the payload moves its entry, renamed, to the end. */
  lemma RenameOne(d0: Dict<Json>, i: nat)
    requires RenameInjective(d0)
    requires i < |d0|
    ensures var cur := d0[i..] + RenamedEntries(d0[..i]);
      var k := d0[i].0;
      Get(cur, k) == Some(d0[i].1) &&
      Put(Delete(cur, k), ReplaceAt(k), d0[i].1) == d0[i + 1..] + RenamedEntries(d0[..i + 1])
  {
    var cur := d0[i..] + RenamedEntries(d0[..i]);
    var (k, v) := d0[i];
    var rest := d0[i + 1..] + RenamedEntries(d0[..i]);
    assert cur == [(k, v)] + rest;
    RestAvoids(d0, i);
    NotAKey(rest, k);
    NotAKey(rest, ReplaceAt(k));
    assert Delete(cur, k) == rest;
    RenamedSnoc(d0, i);
    assert rest + [(ReplaceAt(k), v)] == d0[i + 1..] + RenamedEntries(d0[..i + 1]);
  }

  lemma {:induction false} RenameStep(d0: Dict<Json>, i: nat)
    requires RenameInjective(d0)
    requires i <= |d0|
    ensures RenameEach(d0[i..] + RenamedEntries(d0[..i]), Keys(d0)[i..]) == RenamedEntries(d0)
    decreases |d0| - i
  {
    var cur := d0[i..] + RenamedEntries(d0[..i]);
    if i == |d0| {
      assert d0[..i] == d0;
      assert cur == RenamedEntries(d0);
    } else {
      var ks := Keys(d0)[i..];
      assert ks[0] == d0[i].0;
      assert ks[1..] == Keys(d0)[i + 1..];
      RenameOne(d0, i);
      assert RenameEach(cur, ks) == RenameEach(d0[i + 1..] + RenamedEntries(d0[..i + 1]), ks[1..]);
      RenameStep(d0, i + 1);
    }
  }

  /**
    When no two keys collide after replacing "@" with "_", renaming replaces
    every key in place and keeps every value and the order, so no "@" is
    left in a key.
   */
  lemma RenameExact(d: Dict<Json>)
    requires RenameInjective(d)
    ensures RenameKeys(d) == RenamedEntries(d)
    ensures forall i :: 0 <= i < |d| ==> '@' !in RenameKeys(d)[i].0
  {
    assert d[0..] + RenamedEntries(d[..0]) == d by {
      assert d[..0] == [];
      assert RenamedEntries(d[..0]) == [];
    }
    assert Keys(d)[0..] == Keys(d);
    RenameStep(d, 0);
    assert RenameKeys(d) == RenameEach(d, Keys(d));
    forall i | 0 <= i < |d| ensures '@' !in RenamedEntries(d)[i].0 {
      ReplaceAtIdempotent(d[i].0);
    }
  }

  /** A payload with unique keys and no "@" in them is left exactly as it is. */
  lemma RenameIdentity(d: Dict<Json>)
    requires UniqueKeys(d)
    requires forall i :: 0 <= i < |d| ==> '@' !in d[i].0
    ensures RenameKeys(d) == d
  {
    forall i | 0 <= i < |d| ensures RenamedEntries(d)[i] == d[i] {
      ReplaceAtIdempotent(d[i].0);
    }
    assert RenamedEntries(d) == d;
    RenameExact(d);
  }

  /** The hints declare `a` optional. */
  ghost predicate OptionalHint(hints: Dict<TypeDesc>, a: string) {
    exists j :: 0 <= j < |hints| && hints[j].0 == a && IsOptional(hints[j].1)
  }

  lemma KeyOfPrefix(d: Dict<Json>, r: Dict<Json>, k: string)
    requires |d| <= |r| && r[..|d|] == d
    requires HasKey(d, k)
    ensures HasKey(r, k)
  {
    var i :| 0 <= i < |d| && Keys(d)[i] == k;
    assert r[i] == d[i];
    assert Keys(r)[i] == k;
  }

  /**
    Filling keeps every keyword as it was and only appends: each appended
    entry is a null for an attribute that was absent and is declared
    optional, and afterwards every optional attribute is present.
   */
  lemma {:induction false} FillSpec(hints: Dict<TypeDesc>, kw: Dict<Json>)
    ensures var r := FillOptional(hints, kw);
      && |kw| <= |r| && r[..|kw|] == kw
      && (forall i :: |kw| <= i < |r| ==> r[i].1 == JNull && !HasKey(kw, r[i].0) && OptionalHint(hints, r[i].0))
      && (forall j :: 0 <= j < |hints| && IsOptional(hints[j].1) ==> HasKey(r, hints[j].0))
    decreases |hints|
  {
    if hints != [] {
      var (a, ann) := hints[0];
      var next := if IsOptional(ann) && !HasKey(kw, a) then Put(kw, a, JNull) else kw;
      FillSpec(hints[1..], next);
      var r := FillOptional(hints, kw);
      assert r == FillOptional(hints[1..], next);
      assert |kw| <= |next| && next[..|kw|] == kw;
      assert r[..|kw|] == kw by {
        assert r[..|next|] == next;
        assert r[..|kw|] == r[..|next|][..|kw|];
      }
      forall i | |kw| <= i < |r| ensures r[i].1 == JNull && !HasKey(kw, r[i].0) && OptionalHint(hints, r[i].0) {
        if i < |next| {
          assert next == kw + [(a, JNull)];
          assert r[i] == next[i] == (a, JNull);
        } else {
          assert !HasKey(next, r[i].0) && OptionalHint(hints[1..], r[i].0);
          if HasKey(kw, r[i].0) {
            KeyOfPrefix(kw, next, r[i].0);
          }
          var j :| 0 <= j < |hints[1..]| && hints[1..][j].0 == r[i].0 && IsOptional(hints[1..][j].1);
          assert hints[j + 1] == hints[1..][j];
        }
      }
      forall j | 0 <= j < |hints| && IsOptional(hints[j].1) ensures HasKey(r, hints[j].0) {
        if j == 0 {
          if HasKey(kw, a) {
            KeyOfPrefix(kw, r, a);
          } else {
            assert next == kw + [(a, JNull)];
            assert Keys(next)[|kw|] == a;
            KeyOfPrefix(next, r, a);
          }
        } else {
          assert hints[1..][j - 1] == hints[j];
        }
      }
    }
  }

  /**
    A dataclass accepts the keywords exactly when every keyword is a field
    and every field is supplied; it then holds one attribute per field, in
    declaration order, with the supplied value. An unexpected keyword is
    reported before a missing field.
   */
  lemma ConstructDataclass(cls: string, fields: Dict<TypeDesc>, kw: Dict<Json>, a: Option<TypeDesc>)
    ensures Construct(cls, Dataclass(fields), kw, a).Ok? <==>
      (forall i :: 0 <= i < |kw| ==> HasKey(fields, kw[i].0)) &&
      (forall j :: 0 <= j < |fields| ==> HasKey(kw, fields[j].0))
    ensures Construct(cls, Dataclass(fields), kw, a).Ok? ==>
      var s := Construct(cls, Dataclass(fields), kw, a).value;
      Keys(s.attrs) == Keys(fields) && s.typeArg == a &&
      forall j :: 0 <= j < |fields| ==> Get(kw, fields[j].0) == Some(s.attrs[j].1)
    ensures (exists i :: 0 <= i < |kw| && !HasKey(fields, kw[i].0)) ==>
      Construct(cls, Dataclass(fields), kw, a).Err? && Construct(cls, Dataclass(fields), kw, a).error.UnexpectedField?
  {
  }

  /**
    A model class instantiates its payload renamed and filled: the earliest
    payload key "self" or "type_" collides with `_instantiate`'s own
    parameters, and a namespace class (`Cursor`) accepts every other payload.
   */
  lemma InstantiateClass(env: Env, n: string, payload: Dict<Json>)
    requires IsModelType(env.schema, Class(n))
    ensures forall i :: 0 <= i < |payload| && Reserved(payload[i].0) && (forall j :: 0 <= j < i ==> !Reserved(payload[j].0)) ==>
      Instantiate(env, Class(n), payload) == Err(DuplicateArgument(payload[i].0))
    ensures env.schema(n).value.Namespace? ==>
      (Instantiate(env, Class(n), payload).Ok? <==> !HasKey(payload, "self") && !HasKey(payload, "type_"))
    ensures Instantiate(env, Class(n), payload).Ok? ==>
      Instantiate(env, Class(n), payload).value.typeArg.None? &&
      Instantiate(env, Class(n), payload).value.hints == Hints(env.schema(n).value)
  {
    var r := FirstReserved(payload);
    forall i | 0 <= i < |payload| && Reserved(payload[i].0) && (forall j :: 0 <= j < i ==> !Reserved(payload[j].0))
      ensures r == Some(i)
    {
    }
    if HasKey(payload, "self") || HasKey(payload, "type_") {
      var k := if HasKey(payload, "self") then "self" else "type_";
      var i := IndexOf(payload, k).value;
      assert payload[i].0 == k;
    }
  }

  /**
    A generic alias is instantiated from the raw keys, without renaming or
    filling, and the instance records the alias argument.
   */
  lemma InstantiateAlias(env: Env, n: string, arg: TypeDesc, payload: Dict<Json>)
    requires IsModelType(env.schema, Class(n))
    requires !HasKey(payload, "self") && !HasKey(payload, "type_")
    ensures Instantiate(env, Generic(n, arg), payload) == Construct(n, env.schema(n).value, payload, Some(arg))
    ensures Instantiate(env, Generic(n, arg), payload).Ok? ==>
      Instantiate(env, Generic(n, arg), payload).value.typeArg == Some(arg)
  {
  }

  // ---------------------------------------------------------------------
  // `_resolve_annotations`
  // ---------------------------------------------------------------------

  /** The size bound on a dict's values carries over to its tail. */
  lemma ValuesBelowTail(attrs: Dict<Json>, bound: nat)
    requires attrs != [] && ValuesBelow(attrs, bound)
    ensures ValuesBelow(attrs[1..], bound)
    ensures attrs[0].1 == JNull || Size(attrs[0].1) < bound
  {
    assert attrs[0] in attrs;
    forall e | e in attrs[1..] ensures e.1 == JNull || Size(e.1) < bound {
      assert e in attrs;
    }
  }

  /** Resolution succeeds exactly when every attribute does. */
  lemma {:induction false} ResolveOkPointwise(env: Env, attrs: Dict<Json>, hints: Dict<TypeDesc>, a: Option<TypeDesc>, bound: nat)
    requires ValuesBelow(attrs, bound)
    ensures forall i :: 0 <= i < |attrs| ==> attrs[i].1 == JNull || Size(attrs[i].1) < bound
    ensures ResolveAttrs(env, attrs, hints, a, bound).Ok? <==>
      forall i :: 0 <= i < |attrs| ==> ResolveAttr(env, attrs[i].0, attrs[i].1, hints, a, bound).Ok?
    decreases |attrs|
  {
    forall i | 0 <= i < |attrs| ensures attrs[i].1 == JNull || Size(attrs[i].1) < bound {
      assert attrs[i] in attrs;
    }
    if attrs != [] {
      var t := attrs[1..];
      ValuesBelowTail(attrs, bound);
      ResolveOkPointwise(env, t, hints, a, bound);
      var head := ResolveAttr(env, attrs[0].0, attrs[0].1, hints, a, bound);
      if head.Ok? && !ResolveAttrs(env, t, hints, a, bound).Ok? {
        var i :| 0 <= i < |t| && !ResolveAttr(env, t[i].0, t[i].1, hints, a, bound).Ok?;
        assert t[i] == attrs[i + 1];
      }
      if head.Ok? && ResolveAttrs(env, t, hints, a, bound).Ok? {
        forall i | 0 <= i < |attrs| ensures ResolveAttr(env, attrs[i].0, attrs[i].1, hints, a, bound).Ok? {
          if i > 0 {
            assert t[i - 1] == attrs[i];
          }
        }
      }
    }
  }

  /** A successful resolution keeps the attribute names and their order. */
  lemma {:induction false} ResolveKeysKept(env: Env, attrs: Dict<Json>, hints: Dict<TypeDesc>, a: Option<TypeDesc>, bound: nat)
    requires ValuesBelow(attrs, bound)
    requires ResolveAttrs(env, attrs, hints, a, bound).Ok?
    ensures Keys(ResolveAttrs(env, attrs, hints, a, bound).value) == Keys(attrs)
    decreases |attrs|
  {
    if attrs != [] {
      var t := attrs[1..];
      ValuesBelowTail(attrs, bound);
      var rest := ResolveAttrs(env, t, hints, a, bound);
      var r := ResolveAttrs(env, attrs, hints, a, bound).value;
      assert rest.Ok? && r[1..] == rest.value && r[0].0 == attrs[0].0;
      ResolveKeysKept(env, t, hints, a, bound);
      forall i | 0 <= i < |r| ensures Keys(r)[i] == Keys(attrs)[i] {
        if i > 0 {
          assert Keys(rest.value)[i - 1] == Keys(t)[i - 1];
        }
      }
    }
  }

  /** After a successful resolution each position holds what that attribute resolved to. */
  lemma {:induction false} ResolveValuesPointwise(env: Env, attrs: Dict<Json>, hints: Dict<TypeDesc>, a: Option<TypeDesc>, bound: nat)
    requires ValuesBelow(attrs, bound)
    requires ResolveAttrs(env, attrs, hints, a, bound).Ok?
    ensures forall i :: 0 <= i < |attrs| ==> attrs[i].1 == JNull || Size(attrs[i].1) < bound
    ensures var r := ResolveAttrs(env, attrs, hints, a, bound).value;
      |r| == |attrs| &&
      forall i :: 0 <= i < |attrs| ==> ResolveAttr(env, attrs[i].0, attrs[i].1, hints, a, bound) == Ok(r[i].1)
    decreases |attrs|
  {
    forall i | 0 <= i < |attrs| ensures attrs[i].1 == JNull || Size(attrs[i].1) < bound {
      assert attrs[i] in attrs;
    }
    if attrs != [] {
      var t := attrs[1..];
      ValuesBelowTail(attrs, bound);
      var head := ResolveAttr(env, attrs[0].0, attrs[0].1, hints, a, bound);
      var rest := ResolveAttrs(env, t, hints, a, bound);
      var r := ResolveAttrs(env, attrs, hints, a, bound).value;
      assert head.Ok? && rest.Ok? && r == [(attrs[0].0, head.value)] + rest.value;
      var rv := rest.value;
      assert |rv| == |t| && forall i :: 0 <= i < |t| ==> ResolveAttr(env, t[i].0, t[i].1, hints, a, bound) == Ok(rv[i].1) by {
        ResolveValuesPointwise(env, t, hints, a, bound);
      }
      forall i | 0 <= i < |attrs| ensures ResolveAttr(env, attrs[i].0, attrs[i].1, hints, a, bound) == Ok(r[i].1) {
        if i > 0 {
          assert t[i - 1] == attrs[i] && r[i] == rv[i - 1];
        }
      }
    }
  }


  /**
    Resolution succeeds exactly when every attribute does, keeps the
    attribute names and their order, and holds at each position what that
    attribute resolved to.
   */
  lemma ResolvePointwise(env: Env, attrs: Dict<Json>, hints: Dict<TypeDesc>, a: Option<TypeDesc>, bound: nat)
    requires ValuesBelow(attrs, bound)
    ensures forall i :: 0 <= i < |attrs| ==> attrs[i].1 == JNull || Size(attrs[i].1) < bound
    ensures ResolveAttrs(env, attrs, hints, a, bound).Ok? <==>
      forall i :: 0 <= i < |attrs| ==> ResolveAttr(env, attrs[i].0, attrs[i].1, hints, a, bound).Ok?
    ensures ResolveAttrs(env, attrs, hints, a, bound).Ok? ==>
      var r := ResolveAttrs(env, attrs, hints, a, bound).value;
      Keys(r) == Keys(attrs) &&
      forall i :: 0 <= i < |attrs| ==> ResolveAttr(env, attrs[i].0, attrs[i].1, hints, a, bound) == Ok(r[i].1)
  {
    ResolveOkPointwise(env, attrs, hints, a, bound);
    if ResolveAttrs(env, attrs, hints, a, bound).Ok? {
      ResolveKeysKept(env, attrs, hints, a, bound);
      ResolveValuesPointwise(env, attrs, hints, a, bound);
    }
  }

  /**
    What an attribute ends up holding: its raw value, or a conversion that
    is truthy, so a falsy conversion never reaches the instance.
    `__orig_class__` and null attributes are never converted; any other
    attribute fails exactly when it has no hint or its conversion fails.
   */
  lemma ResolveAttrOutcome(env: Env, k: string, j: Json, hints: Dict<TypeDesc>, a: Option<TypeDesc>, bound: nat)
    requires j == JNull || Size(j) < bound
    ensures ResolveAttr(env, k, j, hints, a, bound).Ok? ==>
      var w := ResolveAttr(env, k, j, hints, a, bound).value;
      w == Raw(j) || (!w.Raw? && Truthy(w))
    ensures k == "__orig_class__" || j == JNull ==> ResolveAttr(env, k, j, hints, a, bound) == Ok(Raw(j))
    ensures k != "__orig_class__" && j != JNull ==>
      (ResolveAttr(env, k, j, hints, a, bound).Err? <==>
        !HasKey(hints, k) || InstantiateType(env, Get(hints, k).value, j, a).Err?)
    ensures k != "__orig_class__" && j != JNull && !HasKey(hints, k) ==>
      ResolveAttr(env, k, j, hints, a, bound) == Err(NoAnnotation(k))
  {
  }

  /**
    A model annotation, optional or not, turns an object attribute into an
    instance of that class (instances are truthy), and the attribute fails
    exactly when that instantiation fails.
   */
  lemma ResolveModelAttr(env: Env, k: string, m: Dict<Json>, hints: Dict<TypeDesc>, n: string, a: Option<TypeDesc>, bound: nat)
    requires k != "__orig_class__" && Size(JObj(m)) < bound
    requires IsModelType(env.schema, Class(n))
    requires Get(hints, k) == Some(Class(n)) || Get(hints, k) == Some(Optional(Class(n)))
    ensures ResolveAttr(env, k, JObj(m), hints, a, bound).Ok? <==> InstantiateType(env, Class(n), JObj(m), a).Ok?
    ensures ResolveAttr(env, k, JObj(m), hints, a, bound).Ok? ==>
      var w := ResolveAttr(env, k, JObj(m), hints, a, bound).value;
      w.Instance? && w.cls == n && w.typeArg.None?
  {
    OptionalUnwrappedOnce(env, Class(n), JObj(m), a);
    ModelInstance(env, n, m, a);
  }

  /**
    A primitive attribute keeps its raw value when it is compatible (an int
    in a float field included) and fails otherwise.
   */
  lemma ResolvePrimitiveKept(env: Env, k: string, j: Json, hints: Dict<TypeDesc>, p: Prim, a: Option<TypeDesc>, bound: nat)
    requires j != JNull && Size(j) < bound && k != "__orig_class__"
    requires Get(hints, k) == Some(PrimT(p)) || Get(hints, k) == Some(Optional(PrimT(p)))
    ensures ResolveAttr(env, k, j, hints, a, bound) ==
      if IsCompatible(j, p) then Ok(Raw(j)) else Err(TypeMismatch(p, j))
  {
    PrimitiveField(env, p, j, a);
  }

  /** An empty list of models resolves to an empty list, which is falsy, so the raw empty list stays. */
  lemma EmptyModelListKeptRaw(env: Env, k: string, hints: Dict<TypeDesc>, e: TypeDesc, a: Option<TypeDesc>, bound: nat)
    requires IsModelType(env.schema, e) && k != "__orig_class__" && 1 < bound
    requires Get(hints, k) == Some(ListOf(e))
    ensures ResolveAttr(env, k, JList([]), hints, a, bound) == Ok(Raw(JList([])))
  {
  }

  // ---------------------------------------------------------------------
  // Model objects
  // ---------------------------------------------------------------------

  /** `_instantiate_type` on an object under a model class: instantiate, then resolve the attributes. */
  lemma ModelStep(env: Env, n: string, m: Dict<Json>, a: Option<TypeDesc>)
    requires IsModelType(env.schema, Class(n))
    ensures Instantiate(env, Class(n), m).Ok? ==> ValuesBelow(Instantiate(env, Class(n), m).value.attrs, Size(JObj(m)))
    ensures InstantiateType(env, Class(n), JObj(m), a) ==
      match Instantiate(env, Class(n), m)
      case Err(e) => Err(e)
      case Ok(sh) =>
        match ResolveAttrs(env, sh.attrs, sh.hints, sh.typeArg, Size(JObj(m)))
        case Err(e) => Err(e)
        case Ok(attrs) => Ok(Some(Instance(sh.cls, attrs, sh.typeArg)))
  {
    FieldsBelow(m);
    InstantiateValuesBelow(env, Class(n), m, Size(JObj(m)));
  }

  /**
    A model class builds an instance of itself, with no generic argument;
    for a dataclass the instance has one attribute per field, in field
    order. Anything but an object, null included, is refused.
   */
  lemma ModelInstance(env: Env, n: string, m: Dict<Json>, a: Option<TypeDesc>)
    requires IsModelType(env.schema, Class(n))
    ensures var r := InstantiateType(env, Class(n), JObj(m), a);
      r.Ok? ==> r.value.Some? && r.value.value.Instance? && r.value.value.cls == n && r.value.value.typeArg.None?
    ensures var r := InstantiateType(env, Class(n), JObj(m), a);
      r.Ok? && env.schema(n).value.Dataclass? ==> Keys(r.value.value.attrs) == Keys(env.schema(n).value.fields)
    ensures forall v: Json :: !v.JObj? ==> InstantiateType(env, Class(n), v, a) == Err(NotAMapping(v))
  {
    ModelStep(env, n, m, a);
    InstantiateClass(env, n, m);
    var sh := Instantiate(env, Class(n), m);
    if sh.Ok? {
      var res := ResolveAttrs(env, sh.value.attrs, sh.value.hints, sh.value.typeArg, Size(JObj(m)));
      if res.Ok? {
        ResolveKeysKept(env, sh.value.attrs, sh.value.hints, sh.value.typeArg, Size(JObj(m)));
        if env.schema(n).value.Dataclass? {
          var decl := env.schema(n).value;
          ConstructDataclass(n, decl.fields, FillOptional(decl.fields, RenameKeys(m)), None);
        }
      }
    }
  }

  /**
    Filling keeps every key a field when the keywords are fields, and leaves
    absent exactly the required fields the keywords do not supply.
   */
  lemma FillFirstMissing(fields: Dict<TypeDesc>, kw: Dict<Json>, i: nat)
    requires UniqueKeys(fields)
    requires forall p :: 0 <= p < |kw| ==> HasKey(fields, kw[p].0)
    requires i < |fields| && !IsOptional(fields[i].1) && !HasKey(kw, fields[i].0)
    requires forall j :: 0 <= j < i ==> IsOptional(fields[j].1) || HasKey(kw, fields[j].0)
    ensures FirstKeyNotIn(FillOptional(fields, kw), fields).None?
    ensures FirstKeyNotIn(fields, FillOptional(fields, kw)) == Some(i)
  {
    var filled := FillOptional(fields, kw);
    FillSpec(fields, kw);
    forall p | 0 <= p < |filled| ensures HasKey(fields, filled[p].0) {
      if p < |kw| {
        assert filled[p] == kw[p];
      } else {
        var j :| 0 <= j < |fields| && fields[j].0 == filled[p].0 && IsOptional(fields[j].1);
        assert Keys(fields)[j] == filled[p].0;
      }
    }
    forall p | 0 <= p < |filled| ensures Keys(filled)[p] != fields[i].0 {
      if p < |kw| {
        assert filled[p] == kw[p];
        assert Keys(kw)[p] == kw[p].0;
      } else {
        var j :| 0 <= j < |fields| && fields[j].0 == filled[p].0 && IsOptional(fields[j].1);
        assert j != i;
      }
    }
    assert !HasKey(filled, fields[i].0);
    forall j | 0 <= j < i ensures HasKey(filled, fields[j].0) {
      if !IsOptional(fields[j].1) {
        KeyOfPrefix(kw, filled, fields[j].0);
      }
    }
  }

  /**
    A required field the renamed payload does not supply, with no unexpected
    key and every earlier field supplied or optional, is reported missing.
   */
  lemma ModelObjectMissing(env: Env, n: string, fields: Dict<TypeDesc>, m: Dict<Json>, a: Option<TypeDesc>, i: nat)
    requires env.schema(n) == Some(Dataclass(fields)) && UniqueKeys(fields)
    requires FirstReserved(m).None?
    requires forall p :: 0 <= p < |RenameKeys(m)| ==> HasKey(fields, RenameKeys(m)[p].0)
    requires i < |fields| && !IsOptional(fields[i].1) && !HasKey(RenameKeys(m), fields[i].0)
    requires forall j :: 0 <= j < i ==> IsOptional(fields[j].1) || HasKey(RenameKeys(m), fields[j].0)
    ensures InstantiateType(env, Class(n), JObj(m), a) == Err(MissingField(n, fields[i].0))
  {
    ModelStep(env, n, m, a);
    FillFirstMissing(fields, RenameKeys(m), i);
  }

  /** After filling, a field given as null, or optional and not given, is null. */
  lemma FillNullField(fields: Dict<TypeDesc>, kw: Dict<Json>, i: nat)
    requires i < |fields|
    requires (IsOptional(fields[i].1) && !HasKey(kw, fields[i].0)) || Get(kw, fields[i].0) == Some(JNull)
    ensures Get(FillOptional(fields, kw), fields[i].0) == Some(JNull)
  {
    var filled := FillOptional(fields, kw);
    FillSpec(fields, kw);
    var key := fields[i].0;
    var p := IndexOf(filled, key).value;
    if HasKey(kw, key) {
      var q := IndexOf(kw, key).value;
      assert filled[q] == kw[q];
      forall r | 0 <= r < q ensures filled[r].0 != key {
        assert filled[r] == kw[r];
      }
      assert p == q;
    } else {
      forall q | 0 <= q < |kw| ensures filled[q].0 != key {
        assert filled[q] == kw[q];
        assert Keys(kw)[q] == kw[q].0;
      }
      assert p >= |kw|;
    }
  }

  /**
    A field the renamed payload gives as null, or an optional field it does
    not supply, ends up null in a successfully built instance.
   */
  lemma ModelObjectNullField(env: Env, n: string, fields: Dict<TypeDesc>, m: Dict<Json>, a: Option<TypeDesc>, i: nat)
    requires env.schema(n) == Some(Dataclass(fields))
    requires i < |fields|
    requires (IsOptional(fields[i].1) && !HasKey(RenameKeys(m), fields[i].0)) || Get(RenameKeys(m), fields[i].0) == Some(JNull)
    requires InstantiateType(env, Class(n), JObj(m), a).Ok?
    ensures var w := InstantiateType(env, Class(n), JObj(m), a).value;
      w.Some? && w.value.Instance? && i < |w.value.attrs| && w.value.attrs[i] == (fields[i].0, Raw(JNull))
  {
    ModelStep(env, n, m, a);
    ModelInstance(env, n, m, a);
    var filled := FillOptional(fields, RenameKeys(m));
    var sh := Instantiate(env, Class(n), m).value;
    ConstructDataclass(n, fields, filled, None);
    FillNullField(fields, RenameKeys(m), i);
    assert sh.attrs[i].1 == JNull;
    ResolvePointwise(env, sh.attrs, sh.hints, sh.typeArg, Size(JObj(m)));
    assert Keys(sh.attrs)[i] == fields[i].0;
  }
}
