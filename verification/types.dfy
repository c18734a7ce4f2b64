/**
  The declared types that the v2 client reads from its model annotations
  (what `typing.get_type_hints` returns in ossapi/ossapiv2.py), the class
  declarations they name, the values materialisation produces, and the
  `_is_*` predicates that classify a declared type.
 */
module Types {
  import opened Wrappers
  import opened Dicts
  import opened Json
  import Enums

  /** The four builtins `_is_primitive_type` recognises. */
  datatype Prim = IntP | FloatP | StrP | BoolP

  /** A type annotation, as far as the client inspects it. */
  datatype TypeDesc =
    | PrimT(p: Prim)
      /** `Union[a, b, ...]`; `Optional[X]` is `Union[X, None]`. */
    | Union(arms: seq<TypeDesc>)
    | ListOf(elem: TypeDesc)
      /**
        The `Datetime` class the models in ossapi/models.py import from
        `ossapi.utils`, whose constructor parses the payload's value.
       */
    | DatetimeT
      /**
        The standard library's `datetime`, which the records in ossapi/enums.py
        annotate with. It is a `datetime` subclass, so it is a base type, but
        its constructor needs at least a year, a month and a day.
       */
    | StdDatetimeT
    | ModT
      /** A class named by the annotation: a model, `Cursor` or an enum. */
    | Class(name: string)
      /** A generic model applied to an argument, such as `SearchResult[UserCompact]`. */
    | Generic(name: string, arg: TypeDesc)
    | TypeVar(name: string)
    | AnyT
      /** `None` as an annotation, which `get_type_hints` turns into `NoneType`. */
    | NoneT

  /**
    `Optional[t]`, that is `Union[t, None]`. `typing` flattens a union
    argument into the new union and drops repeated arms, and `Union[None]`
    is `None` itself.
   */
  function Optional(t: TypeDesc): TypeDesc {
    if t == NoneT then NoneT
    else if t.Union? then (if NoneT in t.arms then t else Union(t.arms + [NoneT]))
    else Union([t, NoneT])
  }

  /**
    What a class name stands for: a dataclass with its fields in declaration
    order (inherited first, overrides in place), the attribute-agnostic
    `Cursor` namespace with its name-to-type table, or an enumeration.
   */
  datatype ClassDecl =
    | Dataclass(fields: Dict<TypeDesc>)
    | Namespace(hints: Dict<TypeDesc>)
    | EnumClass(decl: Enums.EnumDecl)

  /** The classes a name can refer to; `None` for a name with no declaration here. */
  type Schema = string -> Option<ClassDecl>

  /** `get_type_hints(cls)`. */
  function Hints(c: ClassDecl): (h: Dict<TypeDesc>)
    ensures c.Dataclass? ==> h == c.fields
    ensures c.Namespace? ==> h == c.hints
    ensures c.EnumClass? ==> h == []
  {
    match c
    case Dataclass(fields) => fields
    case Namespace(hints) => hints
    case EnumClass(_) => []
  }

  /**
    A materialised value. `Raw` is a payload value kept as parsed; the
    other constructors are what a conversion builds.
   */
  datatype Value =
    | Raw(j: Json)
      /** A member of enumeration `enum`; `flag` is set when the enumeration is a `Flag`. */
    | EnumMember(enum: string, value: Json, flag: bool)
      /** A datetime, as whole seconds since the epoch. */
    | DateTime(seconds: int)
      /** A `Mod` built from the raw value it was given. */
    | ModValue(code: Json)
    | ListValue(items: seq<Value>)
      /** A model instance; `typeArg` is the argument of a generic instantiation (`__orig_class__`). */
    | Instance(cls: string, attrs: Dict<Value>, typeArg: Option<TypeDesc>)

  predicate JsonTruthy(j: Json) {
    match j
    case JNull => false
    case JBool(b) => b
    case JInt(i) => i != 0
    case JFloat(r) => r != 0.0
    case JStr(s) => s != []
    case JList(items) => items != []
    case JObj(fields) => fields != []
  }

  /**
    Python truthiness of a value: empty containers and zero are false, a
    `Flag` member is false exactly when its value is zero (`Flag.__bool__`),
    and every other object is true.
   */
  predicate Truthy(v: Value) {
    match v
    case Raw(j) => JsonTruthy(j)
    case ListValue(items) => items != []
    case EnumMember(_, x, flag) => !flag || JsonTruthy(x)
    case _ => true
  }

  /** `_is_optional`: a union whose second argument is `NoneType`. */
  predicate IsOptional(t: TypeDesc) {
    t.Union? && |t.arms| >= 2 && t.arms[1] == NoneT
  }

  /** `_is_model_type`: `Cursor` or a dataclass. A generic alias is not itself a class. */
  predicate IsModelType(s: Schema, t: TypeDesc) {
    t.Class? && s(t.name).Some? && !s(t.name).value.EnumClass?
  }

  /** `get_origin(t)` is a model: `t` is a generic model applied to an argument. */
  predicate IsModelAlias(s: Schema, t: TypeDesc) {
    t.Generic? && IsModelType(s, Class(t.name))
  }

  /** `_is_base_type`: an enum, datetime or `Mod` class. */
  predicate IsBaseType(s: Schema, t: TypeDesc) {
    || t.DatetimeT?
    || t.StdDatetimeT?
    || t.ModT?
    || (t.Class? && s(t.name).Some? && s(t.name).value.EnumClass?)
  }

  /** `_is_primitive_type`. */
  predicate IsPrimitiveType(t: TypeDesc) {
    t.PrimT?
  }

  /** `isinstance(v, p)`, where Python's `bool` is a subclass of `int`. */
  predicate IsInstance(v: Json, p: Prim) {
    match p
    case IntP => v.JInt? || v.JBool?
    case FloatP => v.JFloat?
    case StrP => v.JStr?
    case BoolP => v.JBool?
  }

  /** `_is_compatible_type`: `isinstance`, except that an int is also accepted for a float. */
  predicate IsCompatible(v: Json, p: Prim) {
    (p == FloatP && IsInstance(v, IntP)) || IsInstance(v, p)
  }

  /** A class name the annotation relies on that the schema does not declare. */
  function UndeclaredName(s: Schema, t: TypeDesc): (r: Option<string>)
    ensures r.Some? ==> s(r.value).None?
    ensures r.None? && t.Class? ==> s(t.name).Some?
  {
    match t
    case Class(n) => if s(n).None? then Some(n) else None
    case Generic(n, _) => if s(n).None? then Some(n) else None
    case ListOf(Class(n)) => if s(n).None? then Some(n) else None
    case _ => None
  }

  /**
    Classification is a partition: no declared type is more than one of
    primitive, base, model and model alias, and an optional annotation is
    none of them, so it has to be unwrapped before the value is checked.
   */
  lemma ClassesDisjoint(s: Schema, t: TypeDesc)
    ensures IsPrimitiveType(t) ==> !IsBaseType(s, t) && !IsModelType(s, t) && !IsModelAlias(s, t)
    ensures IsBaseType(s, t) ==> !IsModelType(s, t) && !IsModelAlias(s, t)
    ensures IsModelType(s, t) ==> !IsModelAlias(s, t)
    ensures IsOptional(t) ==>
      !IsPrimitiveType(t) && !IsBaseType(s, t) && !IsModelType(s, t) && !IsModelAlias(s, t)
  {
  }

  /**
    The compatibility table: each kind accepts itself, bool is accepted for
    int and float (it is an int), int is accepted for float, and no other
    pair is compatible.
   */
  lemma CompatibleTable(v: Json, p: Prim)
    ensures IsCompatible(v, p) <==>
      || (v.JInt? && (p == IntP || p == FloatP))
      || (v.JBool? && (p == IntP || p == FloatP || p == BoolP))
      || (v.JFloat? && p == FloatP)
      || (v.JStr? && p == StrP)
  {
  }
}
