/**
  The v2 client's type-directed conversion of a decoded response into model
  instances (ossapi/ossapiv2.py: `_get`, `_instantiate_type`, `_instantiate`
  and `_resolve_annotations`). Python's exceptions become `Err` values; a
  conversion that Python answers with `None` ("nothing to convert here, keep
  the raw value") is `Ok(None)`.
 */
module Materialize {
  import opened Wrappers
  import opened Dicts
  import opened Json
  import opened Types
  import Enums

  datatype Error =
      /** `_get`: the response is an object whose only key is "error". */
    | ApiError(message: Json)
      /** `_get`: the response `["error"]` passes the check and then cannot be indexed by "error". */
    | NotSubscriptable
      /** `_get`: `len()` of a number, bool or null. */
    | NoLength(value: Json)
      /** `assert len(args) == 2` on an optional union of more than two arms. */
    | UnionArity
    | TypeMismatch(expected: Prim, got: Json)
    | BadEnum(enum: string, value: Json)
    | BadDatetime(value: Json)
      /** `datetime(value)`: the standard constructor needs a year, a month and a day, so one argument is refused. */
    | DatetimeArguments(value: Json)
    | BadMod(value: Json)
      /** `for entry in value` over a value that is not iterable. */
    | NotIterable(value: Json)
      /** `**entry` with an entry that is not a mapping. */
    | NotAMapping(value: Json)
      /** A list of a type variable, in an instance that was not instantiated generically. */
    | NoTypeArgument
      /** A payload key that collides with a parameter of `_instantiate`. */
    | DuplicateArgument(key: string)
    | UnexpectedField(cls: string, key: string)
    | MissingField(cls: string, field: string)
      /** `annotations[attr]` for an attribute the class has no hint for. */
    | NoAnnotation(attr: string)
      /** A class the annotation names that this model does not declare. */
    | UnknownClass(name: string)
      /** Keyword construction of something that is not a model. */
    | NotAModel(t: TypeDesc)

  /**
    The classes, and the two constructors the client calls but whose code is
    not part of this model: `Datetime(value)` (whole seconds since the epoch)
    and `Mod(value)`. `None` stands for the constructor raising.
   */
  datatype Env = Env(schema: Schema, mkDatetime: Json -> Option<int>, mkMod: Json -> Option<Json>)

  /** An instance as `type_(**kwargs)` leaves it: attributes still raw, plus the hints that resolve them. */
  datatype Shallow = Shallow(cls: string, attrs: Dict<Json>, hints: Dict<TypeDesc>, typeArg: Option<TypeDesc>)

  /** Every value of `d` is null or strictly smaller than `n`: what keeps the walk finite. */
  ghost predicate ValuesBelow(d: Dict<Json>, n: nat) {
    forall e :: e in d ==> e.1 == JNull || Size(e.1) < n
  }

  // ---------------------------------------------------------------------
  // The error check in `_get`
  // ---------------------------------------------------------------------

  /** `if len(json) == 1 and "error" in json: raise ...`. */
  function CheckResponse(json: Json): (r: Result<Json, Error>)
    ensures r.Ok? ==> r.value == json
    ensures json.JStr? ==> r.Ok?
  {
    match json
    case JObj(fields) =>
      if |fields| == 1 && fields[0].0 == "error" then Err(ApiError(fields[0].1)) else Ok(json)
    case JList(items) =>
      if |items| == 1 && items[0] == JStr("error") then Err(NotSubscriptable) else Ok(json)
    case JStr(_) => Ok(json)
    case _ => Err(NoLength(json))
  }

  // ---------------------------------------------------------------------
  // `_instantiate`: renaming, filling and keyword construction
  // ---------------------------------------------------------------------

  /** `for key in list(kwargs): kwargs[key.replace("@", "_")] = kwargs.pop(key)`. */
  function RenameKeys(d: Dict<Json>): (r: Dict<Json>)
    ensures |r| <= |d|
  {
    RenameEach(d, Keys(d))
  }

  /** Renaming never adds an entry: keys that collide once renamed share one. */
  function RenameEach(d: Dict<Json>, keys: seq<string>): (r: Dict<Json>)
    ensures |r| <= |d|
    decreases |keys|
  {
    if keys == [] then d
    else
      var next := match Get(d, keys[0])
        case Some(v) => Put(Delete(d, keys[0]), ReplaceAt(keys[0]), v)
        case None => d;
      RenameEach(next, keys[1..])
  }

  /** Each hint that is optional and whose attribute is absent is set to null. */
  function FillOptional(hints: Dict<TypeDesc>, kwargs: Dict<Json>): (r: Dict<Json>)
    ensures |kwargs| <= |r| && r[..|kwargs|] == kwargs
    ensures forall i :: |kwargs| <= i < |r| ==> r[i].1 == JNull
    decreases |hints|
  {
    if hints == [] then kwargs
    else
      var next := if IsOptional(hints[0].1) && !HasKey(kwargs, hints[0].0)
        then Put(kwargs, hints[0].0, JNull) else kwargs;
      FillOptional(hints[1..], next)
  }

  /**
    The first entry of `xs` whose key `ys` lacks: the keyword a dataclass
    `__init__` rejects (`xs` the keywords, `ys` the fields), or the field it
    reports missing (`xs` the fields, `ys` the keywords).
   */
  function FirstKeyNotIn<A, B>(xs: Dict<A>, ys: Dict<B>): (r: Option<nat>)
    ensures r.Some? ==> r.value < |xs| && !HasKey(ys, xs[r.value].0)
    ensures r.Some? ==> forall j :: 0 <= j < r.value ==> HasKey(ys, xs[j].0)
    ensures r.None? <==> forall j :: 0 <= j < |xs| ==> HasKey(ys, xs[j].0)
  {
    if xs == [] then None
    else if !HasKey(ys, xs[0].0) then Some(0)
    else
      match FirstKeyNotIn(xs[1..], ys)
      case None => None
      case Some(i) => Some(i + 1)
  }

  /** `self` and `type_`: the parameters of `_instantiate` a payload key can collide with. */
  predicate Reserved(key: string) {
    key == "self" || key == "type_"
  }

  /** Position of the first payload key that collides with a parameter of `_instantiate`. */
  function FirstReserved(payload: Dict<Json>): (r: Option<nat>)
    ensures r.Some? ==> r.value < |payload| && Reserved(payload[r.value].0)
    ensures r.Some? ==> forall j :: 0 <= j < r.value ==> !Reserved(payload[j].0)
    ensures r.None? <==> forall j :: 0 <= j < |payload| ==> !Reserved(payload[j].0)
  {
    if payload == [] then None
    else if Reserved(payload[0].0) then Some(0)
    else
      match FirstReserved(payload[1..])
      case None => None
      case Some(i) => Some(i + 1)
  }

  /** The attributes a dataclass `__init__` sets, in field order. */
  function FieldValues(fields: Dict<TypeDesc>, kwargs: Dict<Json>): (r: Dict<Json>)
    requires forall j :: 0 <= j < |fields| ==> HasKey(kwargs, fields[j].0)
    ensures Keys(r) == Keys(fields)
    ensures forall j :: 0 <= j < |fields| ==> Get(kwargs, fields[j].0) == Some(r[j].1)
  {
    seq(|fields|, j requires 0 <= j < |fields| => (fields[j].0, Get(kwargs, fields[j].0).value))
  }

  /** `type_(**kwargs)` for a model class or a generic alias of one. */
  function Construct(cls: string, decl: ClassDecl, kwargs: Dict<Json>, typeArg: Option<TypeDesc>): (r: Result<Shallow, Error>)
    ensures r.Ok? ==> r.value.cls == cls && r.value.typeArg == typeArg && r.value.hints == Hints(decl)
    ensures decl.Namespace? ==> r.Ok? && r.value.attrs == kwargs
    ensures decl.EnumClass? ==> r.Err?
  {
    match decl
    case Dataclass(fields) =>
      if FirstKeyNotIn(kwargs, fields).Some? then
        Err(UnexpectedField(cls, kwargs[FirstKeyNotIn(kwargs, fields).value].0))
      else if FirstKeyNotIn(fields, kwargs).Some? then
        Err(MissingField(cls, fields[FirstKeyNotIn(fields, kwargs).value].0))
      else Ok(Shallow(cls, FieldValues(fields, kwargs), fields, typeArg))
    case Namespace(hints) => Ok(Shallow(cls, kwargs, hints, typeArg))
    case EnumClass(_) => Err(NotAModel(Class(cls)))
  }

  /**
    `_instantiate(type_, **payload)`. A class has hints, so keys are renamed
    and absent optionals filled first; a generic alias has none
    (`get_type_hints` raises), so the raw keys go to the constructor, which
    records the alias argument. Binding the keywords of the call fails at
    the first key, in payload order, that names a parameter already bound.
   */
  function Instantiate(env: Env, t: TypeDesc, payload: Dict<Json>): (r: Result<Shallow, Error>)
    ensures r.Ok? ==> FirstReserved(payload).None?
    ensures r.Ok? ==>
      || (IsModelType(env.schema, t) && r.value.cls == t.name && r.value.typeArg.None?)
      || (IsModelAlias(env.schema, t) && r.value.cls == t.name && r.value.typeArg == Some(t.arg))
  {
    if FirstReserved(payload).Some? then Err(DuplicateArgument(payload[FirstReserved(payload).value].0))
    else if IsModelType(env.schema, t) then
      var decl := env.schema(t.name).value;
      Construct(t.name, decl, FillOptional(Hints(decl), RenameKeys(payload)), None)
    else if IsModelAlias(env.schema, t) then
      Construct(t.name, env.schema(t.name).value, payload, Some(t.arg))
    else Err(NotAModel(t))
  }

  // ---------------------------------------------------------------------
  // `_instantiate_type` and `_resolve_annotations`
  // ---------------------------------------------------------------------

  /** Remove one level of `Optional`. */
  function Unwrap(t: TypeDesc): Result<TypeDesc, Error> {
    if !IsOptional(t) then Ok(t)
    else if |t.arms| != 2 then Err(UnionArity)
    else Ok(t.arms[0])
  }

  /** `type_(value)` for an enum, datetime or `Mod` class. */
  function BuildBase(env: Env, t: TypeDesc, v: Json): Result<Value, Error>
    requires IsBaseType(env.schema, t)
  {
    match t
    case DatetimeT =>
      (match env.mkDatetime(v) case Some(s) => Ok(DateTime(s)) case None => Err(BadDatetime(v)))
    case StdDatetimeT => Err(DatetimeArguments(v))
    case ModT =>
      (match env.mkMod(v) case Some(c) => Ok(ModValue(c)) case None => Err(BadMod(v)))
    case Class(n) =>
      var decl := env.schema(n).value.decl;
      match Enums.Parse(decl, v)
      case Ok(m) => Ok(EnumMember(n, m, decl.flag))
      case Err(_) => Err(BadEnum(n, v))
  }

  /** The element type of a list of models or of a type variable. */
  function ElementType(elem: TypeDesc, typeArg: Option<TypeDesc>): Result<TypeDesc, Error> {
    if !elem.TypeVar? then Ok(elem)
    else match typeArg
      case None => Err(NoTypeArgument)
      case Some(a) => Ok(a)
  }

  /** What `for entry in value` yields before `**entry` is attempted on the first one. */
  function Entries(v: Json): (r: Result<seq<Json>, Error>)
    ensures r.Ok? ==> v == JList(r.value) || r.value == []
  {
    match v
    case JList(items) => Ok(items)
    case JStr(s) => if s == [] then Ok([]) else Err(NotAMapping(JStr(s[..1])))
    case JObj(fields) => if fields == [] then Ok([]) else Err(NotAMapping(JStr(fields[0].0)))
    case _ => Err(NotIterable(v))
  }

  /** The keyword arguments `**value` unpacks. */
  function AsMapping(v: Json): (r: Result<Dict<Json>, Error>)
    ensures r.Ok? <==> v.JObj?
    ensures r.Ok? ==> v == JObj(r.value)
  {
    if v.JObj? then Ok(v.fields) else Err(NotAMapping(v))
  }

  /** Raw attributes of an instance that is not resolved further. */
  function RawAttrs(d: Dict<Json>): (r: Dict<Value>)
    ensures Keys(r) == Keys(d)
    ensures forall i :: 0 <= i < |d| ==> r[i].1 == Raw(d[i].1)
  {
    seq(|d|, i requires 0 <= i < |d| => (d[i].0, Raw(d[i].1)))
  }

  /**
    `_instantiate_type(type_, value, obj)`, where `typeArg` is the argument
    of `obj.__orig_class__` when `obj` was instantiated generically.
   */
  function InstantiateType(env: Env, t0: TypeDesc, v: Json, typeArg: Option<TypeDesc>): (r: Result<Option<Value>, Error>)
    ensures r.Ok? && r.value.Some? ==> !r.value.value.Raw?
    decreases Size(v), 2, 0
  {
    var t :- Unwrap(t0);
    match UndeclaredName(env.schema, t)
    case Some(n) => Err(UnknownClass(n))
    case None =>
      if IsPrimitiveType(t) && !IsCompatible(v, t.p) then Err(TypeMismatch(t.p, v))
      else if IsBaseType(env.schema, t) then
        var b :- BuildBase(env, t, v);
        Ok(Some(b))
      else if t.ListOf? && (IsModelType(env.schema, t.elem) || t.elem.TypeVar?) then
        var et :- ElementType(t.elem, typeArg);
        var items :- Entries(v);
        EntriesBelow(v, items);
        var vs :- InstantiateEntries(env, et, items, Size(v));
        Ok(Some(ListValue(vs)))
      else if !IsModelType(env.schema, t) && !IsModelAlias(env.schema, t) then Ok(None)
      else
        var m :- AsMapping(v);
        FieldsBelow(m);
        var sh :- Instantiate(env, t, m);
        InstantiateValuesBelow(env, t, m, Size(v));
        var attrs :- ResolveAttrs(env, sh.attrs, sh.hints, sh.typeArg, Size(v));
        Ok(Some(Instance(sh.cls, attrs, sh.typeArg)))
  }

  /** The new list built for a list of models: each entry instantiated in order. */
  function InstantiateEntries(env: Env, et: TypeDesc, items: seq<Json>, bound: nat): Result<seq<Value>, Error>
    requires forall i :: 0 <= i < |items| ==> Size(items[i]) < bound
    decreases bound, 1, |items|
  {
    if items == [] then Ok([])
    else
      var e :- InstantiateEntry(env, et, items[0], bound);
      var rest :- InstantiateEntries(env, et, items[1..], bound);
      Ok([e] + rest)
  }

  /** `entry = self._instantiate(type_, **entry)`, resolved further when `type_` is a model. */
  function InstantiateEntry(env: Env, et: TypeDesc, item: Json, bound: nat): Result<Value, Error>
    requires Size(item) < bound
    decreases bound, 1, 0
  {
    var m :- AsMapping(item);
    FieldsBelow(m);
    var sh :- Instantiate(env, et, m);
    if IsModelType(env.schema, et) then
      InstantiateValuesBelow(env, et, m, Size(item));
      var attrs :- ResolveAttrs(env, sh.attrs, sh.hints, sh.typeArg, Size(item));
      Ok(Instance(sh.cls, attrs, sh.typeArg))
    else Ok(Instance(sh.cls, RawAttrs(sh.attrs), sh.typeArg))
  }

  /** `_resolve_annotations(obj)`: every attribute of `obj.__dict__`, in order. */
  function ResolveAttrs(env: Env, attrs: Dict<Json>, hints: Dict<TypeDesc>, typeArg: Option<TypeDesc>, bound: nat)
    : (r: Result<Dict<Value>, Error>)
    requires ValuesBelow(attrs, bound)
    ensures r.Ok? ==> |r.value| == |attrs|
    decreases bound, 0, |attrs|
  {
    if attrs == [] then Ok([])
    else
      assert attrs[0] in attrs;
      var head :- ResolveAttr(env, attrs[0].0, attrs[0].1, hints, typeArg, bound);
      var rest :- ResolveAttrs(env, attrs[1..], hints, typeArg, bound);
      Ok([(attrs[0].0, head)] + rest)
  }

  /** One attribute: skipped, converted, or kept raw when the conversion is falsy. */
  function ResolveAttr(env: Env, attr: string, j: Json, hints: Dict<TypeDesc>, typeArg: Option<TypeDesc>, bound: nat)
    : (r: Result<Value, Error>)
    requires j == JNull || Size(j) < bound
    ensures r.Ok? ==> r.value == Raw(j) || (!r.value.Raw? && Truthy(r.value))
    decreases bound, 0, 0
  {
    if attr == "__orig_class__" || j == JNull then Ok(Raw(j))
    else match Get(hints, attr)
      case None => Err(NoAnnotation(attr))
      case Some(h) =>
        var c :- InstantiateType(env, h, j, typeArg);
        Ok(if c.Some? && Truthy(c.value) then c.value else Raw(j))
  }

  /** `_get` after the request: reject an error response, then convert it to the declared type. */
  function Materialize(env: Env, t: TypeDesc, response: Json): (r: Result<Option<Value>, Error>)
    ensures CheckResponse(response).Err? ==> r.Err?
    ensures CheckResponse(response).Ok? ==> r == InstantiateType(env, t, response, None)
  {
    var json :- CheckResponse(response);
    InstantiateType(env, t, json, None)
  }

  // ---------------------------------------------------------------------
  // Why the walk terminates
  // ---------------------------------------------------------------------

  lemma EntriesBelow(v: Json, items: seq<Json>)
    requires Entries(v) == Ok(items)
    ensures forall i :: 0 <= i < |items| ==> Size(items[i]) < Size(v)
  {
    forall i | 0 <= i < |items| ensures Size(items[i]) < Size(v) {
      ItemSmaller(items, i);
    }
  }

  lemma FieldsBelow(m: Dict<Json>)
    ensures ValuesBelow(m, Size(JObj(m)))
  {
    forall e | e in m ensures e.1 == JNull || Size(e.1) < Size(JObj(m)) {
      var i :| 0 <= i < |m| && m[i] == e;
      FieldSmaller(m, i);
    }
  }

  lemma DeleteBelow(d: Dict<Json>, k: string, n: nat)
    requires ValuesBelow(d, n)
    ensures ValuesBelow(Delete(d, k), n)
  {
    DeleteEntries(d, k);
  }

  lemma PutBelow(d: Dict<Json>, k: string, v: Json, n: nat)
    requires ValuesBelow(d, n)
    requires v == JNull || Size(v) < n
    ensures ValuesBelow(Put(d, k, v), n)
  {
    PutEntries(d, k, v);
  }

  lemma {:induction false} RenameBelow(d: Dict<Json>, keys: seq<string>, n: nat)
    requires ValuesBelow(d, n)
    ensures ValuesBelow(RenameEach(d, keys), n)
    decreases |keys|
  {
    if keys != [] {
      match Get(d, keys[0])
      case Some(v) =>
        GetEntry(d, keys[0]);
        DeleteBelow(d, keys[0], n);
        PutBelow(Delete(d, keys[0]), ReplaceAt(keys[0]), v, n);
        RenameBelow(Put(Delete(d, keys[0]), ReplaceAt(keys[0]), v), keys[1..], n);
      case None =>
        RenameBelow(d, keys[1..], n);
    }
  }

  lemma {:induction false} FillBelow(hints: Dict<TypeDesc>, kwargs: Dict<Json>, n: nat)
    requires ValuesBelow(kwargs, n)
    ensures ValuesBelow(FillOptional(hints, kwargs), n)
    decreases |hints|
  {
    if hints != [] {
      if IsOptional(hints[0].1) && !HasKey(kwargs, hints[0].0) {
        PutBelow(kwargs, hints[0].0, JNull, n);
        FillBelow(hints[1..], Put(kwargs, hints[0].0, JNull), n);
      } else {
        FillBelow(hints[1..], kwargs, n);
      }
    }
  }

  lemma ConstructBelow(cls: string, decl: ClassDecl, kwargs: Dict<Json>, typeArg: Option<TypeDesc>, n: nat)
    requires ValuesBelow(kwargs, n)
    ensures Construct(cls, decl, kwargs, typeArg).Ok? ==> ValuesBelow(Construct(cls, decl, kwargs, typeArg).value.attrs, n)
  {
    if decl.Dataclass? && Construct(cls, decl, kwargs, typeArg).Ok? {
      var r := FieldValues(decl.fields, kwargs);
      forall e | e in r ensures e.1 == JNull || Size(e.1) < n {
        var j :| 0 <= j < |r| && r[j] == e;
        GetEntry(kwargs, decl.fields[j].0);
      }
    }
  }

  /** Renaming and filling only move payload values around and add nulls. */
  lemma InstantiateValuesBelow(env: Env, t: TypeDesc, payload: Dict<Json>, n: nat)
    requires ValuesBelow(payload, n)
    ensures Instantiate(env, t, payload).Ok? ==> ValuesBelow(Instantiate(env, t, payload).value.attrs, n)
  {
    if IsModelType(env.schema, t) {
      var decl := env.schema(t.name).value;
      RenameBelow(payload, Keys(payload), n);
      FillBelow(Hints(decl), RenameKeys(payload), n);
      ConstructBelow(t.name, decl, FillOptional(Hints(decl), RenameKeys(payload)), None, n);
    } else if IsModelAlias(env.schema, t) {
      ConstructBelow(t.name, env.schema(t.name).value, payload, Some(t.arg), n);
    }
  }
}
