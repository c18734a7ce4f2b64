/**
  Enumeration lookup as the client uses it: `SomeEnum(raw)` finds the member
  whose value equals `raw` (Python equality), falls back to a per-enumeration
  table of alternate spellings (`RankStatus._missing_`), and, for enumerations
  built with `ListEnumMeta`, folds a list of raw values with bitwise OR.

  A member is represented by its declared value, so `Ok(JInt(1))` is
  `RankStatus.RANKED`; a combination of flags is represented by the OR of the
  values.
 */
module Enums {
  import opened Wrappers
  import opened Dicts
  import opened Json
  import opened Bits

  /**
    `members` are (NAME, value) in declaration order; `alternates` maps an
    alternate spelling to the value of the member it stands for; `listable`
    is set for enumerations whose metaclass is `ListEnumMeta`; `flag` for
    those whose members support `|`.
   */
  datatype EnumDecl = EnumDecl(members: Dict<Json>, alternates: Dict<Json>, listable: bool, flag: bool)

  datatype EnumError =
    | NotAMember(value: Json)   // ValueError: value is not a valid member
    | EmptyList                 // StopIteration from `next` on an empty list
    | NotCombinable             // TypeError: unsupported operand for `|`

  /** Position of the first member whose value equals `v`. */
  function FindValue(ms: Dict<Json>, v: Json): (r: Option<nat>)
    ensures r.Some? ==> r.value < |ms| && SameValue(ms[r.value].1, v)
    ensures r.Some? ==> forall j :: 0 <= j < r.value ==> !SameValue(ms[j].1, v)
    ensures r.None? ==> forall j :: 0 <= j < |ms| ==> !SameValue(ms[j].1, v)
  {
    if ms == [] then None
    else if SameValue(ms[0].1, v) then Some(0)
    else
      match FindValue(ms[1..], v)
      case None => None
      case Some(i) => Some(i + 1)
  }

  /**
    The bits of `v` that `Flag._decompose` covers: the OR of the positive
    integer members all of whose bits lie within `v`.
   */
  function Covered(ms: Dict<Json>, v: nat): (r: nat)
    ensures forall k: nat :: Bit(r, k) ==> Bit(v, k)
  {
    if ms == [] then
      ZeroHasNone();
      0
    else
      var rest := Covered(ms[1..], v);
      var m := ms[0].1;
      if m.JInt? && m.i > 0 && Or(m.i, v) == v then
        OrBits(m.i, rest);
        OrBits(m.i, v);
        Or(m.i, rest)
      else rest
  }

  /**
    `Flag._missing_` for a non-negative integer that is no member's value
    (a bool included, as Python's `bool` is an `int`): it builds a
    pseudo-member when the members within `v` cover all of its bits, and
    raises otherwise.
   */
  predicate Composite(e: EnumDecl, v: Json) {
    e.flag && (v.JInt? || v.JBool?) && FlagInt(v) >= 0 && Covered(e.members, FlagInt(v)) == FlagInt(v)
  }

  /** The integer an int or bool stands for. */
  function FlagInt(v: Json): (n: int)
    requires v.JInt? || v.JBool?
    ensures NumValue(v) == n as real
  {
    if v.JBool? then (if v.b then 1 else 0) else v.i
  }

  /**
    `cls(value)` for one raw value: direct lookup, then the alternate
    spellings, then, for a flag enumeration, a combination of members.
   */
  function Lookup(e: EnumDecl, v: Json): (r: Result<Json, EnumError>)
    ensures r.Ok? ==> (exists i :: 0 <= i < |e.members| && e.members[i].1 == r.value) || (Composite(e, v) && r.value == JInt(FlagInt(v)))
    ensures (exists i :: 0 <= i < |e.members| && SameValue(e.members[i].1, v)) ==> r.Ok? && SameValue(r.value, v)
    ensures Composite(e, v) ==> r.Ok? && SameValue(r.value, v)
    ensures r.Err? ==> r.error.NotAMember?
  {
    match FindValue(e.members, v)
    case Some(i) => Ok(e.members[i].1)
    case None =>
      var spelled := if v.JStr? then Get(e.alternates, v.s) else None;
      match spelled
      case None => if Composite(e, v) then Ok(JInt(FlagInt(v))) else Err(NotAMember(v))
      case Some(code) =>
        match FindValue(e.members, code)
        case Some(i) => Ok(e.members[i].1)
        case None => Err(NotAMember(code))
  }

  /** Member `i` is a positive integer all of whose bits lie within `v`. */
  predicate WithinAt(ms: Dict<Json>, i: nat, v: nat)
    requires i < |ms|
  {
    ms[i].1.JInt? && ms[i].1.i > 0 && Or(ms[i].1.i, v) == v
  }

  /** Some member whose bits all lie within `v` has bit `k`. */
  ghost predicate MemberHasBit(ms: Dict<Json>, v: nat, k: nat) {
    exists i :: 0 <= i < |ms| && WithinAt(ms, i, v) && Bit(ms[i].1.i, k)
  }

  /** A bit is covered exactly when some member within `v` has it. */
  lemma {:induction false} CoveredBit(ms: Dict<Json>, v: nat, k: nat)
    ensures Bit(Covered(ms, v), k) <==> MemberHasBit(ms, v, k)
  {
    if ms == [] {
      ZeroHasNoBits(k);
    } else {
      CoveredBit(ms[1..], v, k);
      var m := ms[0].1;
      if m.JInt? && m.i > 0 && Or(m.i, v) == v {
        OrBit(m.i, Covered(ms[1..], v), k);
        assert WithinAt(ms, 0, v);
      }
      if MemberHasBit(ms, v, k) {
        var i :| 0 <= i < |ms| && WithinAt(ms, i, v) && Bit(ms[i].1.i, k);
        if i > 0 {
          assert ms[1..][i - 1] == ms[i];
          assert WithinAt(ms[1..], i - 1, v);
        }
      }
      if MemberHasBit(ms[1..], v, k) {
        var i :| 0 <= i < |ms[1..]| && WithinAt(ms[1..], i, v) && Bit(ms[1..][i].1.i, k);
        assert ms[1..][i] == ms[i + 1];
        assert WithinAt(ms, i + 1, v);
      }
    }
  }

  /**
    A non-negative integer is a composite of a flag enumeration exactly when
    each of its bits belongs to some member whose bits all lie within it.
   */
  lemma CompositeExactly(e: EnumDecl, v: nat)
    ensures Composite(e, JInt(v)) <==> (e.flag && forall k: nat :: Bit(v, k) ==> MemberHasBit(e.members, v, k))
  {
    var c := Covered(e.members, v);
    forall k: nat ensures Bit(c, k) <==> MemberHasBit(e.members, v, k) {
      CoveredBit(e.members, v, k);
    }
    if e.flag && forall k: nat :: Bit(v, k) ==> MemberHasBit(e.members, v, k) {
      BitsDetermine(c, v);
    }
  }

  /** `Flag(0)`, and `Flag(False)`, is the empty combination, whichever members the enumeration has. */
  lemma FlagZero(e: EnumDecl)
    requires e.flag
    ensures Lookup(e, JInt(0)).Ok? && SameValue(Lookup(e, JInt(0)).value, JInt(0))
    ensures Lookup(e, JBool(false)).Ok? && SameValue(Lookup(e, JBool(false)).value, JBool(false))
  {
    ZeroHasNone();
    BitsDetermine(Covered(e.members, 0), 0);
  }

  /** An enumeration that is not a flag accepts only its members' values and alternate spellings. */
  lemma NonFlagNoComposite(e: EnumDecl, v: Json)
    requires !e.flag
    ensures Lookup(e, v).Ok? ==> exists i :: 0 <= i < |e.members| && e.members[i].1 == Lookup(e, v).value
  {
  }

  /** A value that matches no member but is an alternate spelling resolves to the spelled member. */
  lemma LookupAlternate(e: EnumDecl, w: string, code: Json)
    requires FindValue(e.members, JStr(w)).None?
    requires Get(e.alternates, w) == Some(code)
    requires FindValue(e.members, code).Some?
    ensures Lookup(e, JStr(w)) == Lookup(e, code)
  {
  }

  /** `a | b` on two members. */
  function Combine(e: EnumDecl, a: Json, b: Json): (r: Result<Json, EnumError>)
    ensures r.Ok? <==> e.flag && a.JInt? && a.i >= 0 && b.JInt? && b.i >= 0
    ensures r.Ok? ==> r.value.JInt? && r.value.i >= 0
    ensures r.Ok? ==> forall k: nat :: Bit(r.value.i, k) <==> Bit(a.i, k) || Bit(b.i, k)
    ensures r.Err? ==> r.error == NotCombinable
  {
    if e.flag && a.JInt? && a.i >= 0 && b.JInt? && b.i >= 0 then
      OrBits(a.i, b.i);
      Ok(JInt(Or(a.i, b.i)))
    else Err(NotCombinable)
  }

  /** The loop of `ListEnumMeta.__call__`: resolve each element, then OR it in. */
  function FoldOr(e: EnumDecl, acc: Json, rest: seq<Json>): (r: Result<Json, EnumError>)
    ensures r.Err? ==> r.error != EmptyList
    ensures r.Ok? && rest != [] ==> e.flag && r.value.JInt? && r.value.i >= 0
    decreases |rest|
  {
    if rest == [] then Ok(acc)
    else
      var m :- Lookup(e, rest[0]);
      var acc' :- Combine(e, acc, m);
      FoldOr(e, acc', rest[1..])
  }

  /** `ListEnumMeta.__call__` on a list: the first element seeds the fold. */
  function ParseList(e: EnumDecl, xs: seq<Json>): (r: Result<Json, EnumError>)
    ensures r == Err(EmptyList) <==> xs == []
    ensures r.Ok? && |xs| > 1 ==> e.flag && r.value.JInt? && r.value.i >= 0
  {
    if xs == [] then Err(EmptyList)
    else
      var first :- Lookup(e, xs[0]);
      FoldOr(e, first, xs[1..])
  }

  /** `cls(value)`: lists go through the OR fold only for `ListEnumMeta` enumerations. */
  function Parse(e: EnumDecl, v: Json): (r: Result<Json, EnumError>)
    ensures r == Err(EmptyList) <==> e.listable && v == JList([])
    ensures r.Ok? && e.listable && v.JList? && |v.items| > 1 ==> e.flag && r.value.JInt? && r.value.i >= 0
  {
    if e.listable && v.JList? then ParseList(e, v.items) else Lookup(e, v)
  }

  /** A flag enumeration: `ListEnumMeta`, `|` supported, non-negative integer values. */
  ghost predicate FlagEnum(e: EnumDecl) {
    && e.listable && e.flag
    && forall i :: 0 <= i < |e.members| ==> e.members[i].1.JInt? && e.members[i].1.i >= 0
  }

  /** A plain enumeration over strings, with no alternate spellings. */
  ghost predicate PlainStringEnum(e: EnumDecl) {
    && !e.listable && !e.flag && e.alternates == []
    && forall i :: 0 <= i < |e.members| ==> e.members[i].1.JStr?
  }

  /** `r` resolved to an integer member with bit `k` set. */
  predicate BitOf(r: Result<Json, EnumError>, k: nat) {
    r.Ok? && r.value.JInt? && r.value.i >= 0 && Bit(r.value.i, k)
  }

  ghost predicate AllMembers(e: EnumDecl, xs: seq<Json>) {
    forall j :: 0 <= j < |xs| ==> Lookup(e, xs[j]).Ok?
  }

  ghost predicate SomeHasBit(e: EnumDecl, xs: seq<Json>, k: nat) {
    exists j :: 0 <= j < |xs| && BitOf(Lookup(e, xs[j]), k)
  }

  lemma SplitFirst(e: EnumDecl, xs: seq<Json>, k: nat)
    requires xs != []
    ensures AllMembers(e, xs) <==> Lookup(e, xs[0]).Ok? && AllMembers(e, xs[1..])
    ensures SomeHasBit(e, xs, k) <==> BitOf(Lookup(e, xs[0]), k) || SomeHasBit(e, xs[1..], k)
  {
    if SomeHasBit(e, xs, k) && !BitOf(Lookup(e, xs[0]), k) {
      var j :| 0 <= j < |xs| && BitOf(Lookup(e, xs[j]), k);
      assert xs[1..][j - 1] == xs[j];
    }
    if AllMembers(e, xs) {
      forall j | 0 <= j < |xs| - 1 ensures Lookup(e, xs[1..][j]).Ok? {
        assert xs[1..][j] == xs[j + 1];
      }
    }
  }

  /** The OR fold succeeds iff every element is a member, and sets exactly the bits they set. */
  lemma {:induction false} FoldOrBits(e: EnumDecl, a: nat, rest: seq<Json>)
    requires FlagEnum(e)
    ensures FoldOr(e, JInt(a), rest).Ok? <==> AllMembers(e, rest)
    ensures FoldOr(e, JInt(a), rest).Ok? ==>
      var r := FoldOr(e, JInt(a), rest).value;
      && r.JInt? && r.i >= 0
      && forall k: nat :: Bit(r.i, k) <==> Bit(a, k) || SomeHasBit(e, rest, k)
    decreases |rest|
  {
    if rest != [] {
      var m := Lookup(e, rest[0]);
      forall k: nat ensures SomeHasBit(e, rest, k) <==> BitOf(m, k) || SomeHasBit(e, rest[1..], k) {
        SplitFirst(e, rest, k);
      }
      SplitFirst(e, rest, 0);
      if m.Ok? {
        var b := m.value.i;
        FoldOrBits(e, Or(a, b), rest[1..]);
        forall k: nat ensures Bit(Or(a, b), k) <==> Bit(a, k) || Bit(b, k) {
          OrBit(a, b, k);
        }
      }
    }
  }

  /**
    `ListEnumMeta` on a list of a flag enumeration: it fails on the empty
    list and on any non-member element; otherwise the result has exactly the
    bits of the elements' members.
   */
  lemma ParseListBits(e: EnumDecl, xs: seq<Json>)
    requires FlagEnum(e)
    ensures ParseList(e, xs).Ok? <==> xs != [] && AllMembers(e, xs)
    ensures ParseList(e, xs).Ok? ==>
      var r := ParseList(e, xs).value;
      && r.JInt? && r.i >= 0
      && forall k: nat :: Bit(r.i, k) <==> SomeHasBit(e, xs, k)
  {
    if xs != [] {
      SplitFirst(e, xs, 0);
      var m := Lookup(e, xs[0]);
      if m.Ok? {
        FoldOrBits(e, m.value.i, xs[1..]);
        forall k: nat ensures SomeHasBit(e, xs, k) <==> BitOf(m, k) || SomeHasBit(e, xs[1..], k) {
          SplitFirst(e, xs, k);
        }
      }
    }
  }

  lemma SameElementsAllMembers(e: EnumDecl, xs: seq<Json>, ys: seq<Json>)
    requires forall x :: x in xs <==> x in ys
    ensures AllMembers(e, xs) ==> AllMembers(e, ys)
  {
    if AllMembers(e, xs) {
      forall j | 0 <= j < |ys| ensures Lookup(e, ys[j]).Ok? {
        assert ys[j] in xs;
        var i :| 0 <= i < |xs| && xs[i] == ys[j];
      }
    }
  }

  lemma SameElementsSomeHasBit(e: EnumDecl, xs: seq<Json>, ys: seq<Json>, k: nat)
    requires forall x :: x in xs <==> x in ys
    ensures SomeHasBit(e, xs, k) ==> SomeHasBit(e, ys, k)
  {
    if SomeHasBit(e, xs, k) {
      var j :| 0 <= j < |xs| && BitOf(Lookup(e, xs[j]), k);
      assert xs[j] in ys;
      var i :| 0 <= i < |ys| && ys[i] == xs[j];
    }
  }

  /**
    OR is commutative and idempotent, so permuting or repeating the elements
    of the list changes neither whether it resolves nor what it resolves to.
   */
  lemma ParseListOrderIrrelevant(e: EnumDecl, xs: seq<Json>, ys: seq<Json>)
    requires FlagEnum(e)
    requires forall x :: x in xs <==> x in ys
    ensures ParseList(e, xs).Ok? <==> ParseList(e, ys).Ok?
    ensures ParseList(e, xs).Ok? ==> ParseList(e, xs) == ParseList(e, ys)
  {
    ParseListBits(e, xs);
    ParseListBits(e, ys);
    assert xs == [] <==> ys == [] by {
      if xs != [] { assert xs[0] in ys; }
      if ys != [] { assert ys[0] in xs; }
    }
    SameElementsAllMembers(e, xs, ys);
    SameElementsAllMembers(e, ys, xs);
    if ParseList(e, xs).Ok? {
      var a := ParseList(e, xs).value.i;
      var b := ParseList(e, ys).value.i;
      forall k: nat ensures Bit(a, k) <==> Bit(b, k) {
        SameElementsSomeHasBit(e, xs, ys, k);
        SameElementsSomeHasBit(e, ys, xs, k);
      }
      BitsDetermine(a, b);
    }
  }

  /** A value that is not a list is resolved by the ordinary member lookup. */
  lemma ParseNonList(e: EnumDecl, v: Json)
    requires !v.JList?
    ensures Parse(e, v) == Lookup(e, v)
  {
  }

  /** For `ListEnumMeta` enumerations `[v]` resolves to what `v` does, and `[]` fails. */
  lemma ParseSingletonAndEmpty(e: EnumDecl, v: Json)
    requires e.listable
    ensures Parse(e, JList([v])) == Lookup(e, v)
    ensures Parse(e, JList([])) == Err(EmptyList)
  {
  }

  /** The documented example `PlayStyles([1, 8]) == MOUSE | TOUCH`, for any flag enumeration with those values. */
  lemma ParseFlagsExample(e: EnumDecl, mouse: nat, touch: nat)
    requires FlagEnum(e)
    requires mouse < |e.members| && e.members[mouse].1 == JInt(1)
    requires touch < |e.members| && e.members[touch].1 == JInt(8)
    ensures Parse(e, JList([JInt(1), JInt(8)])) == Ok(JInt(9))
  {
    assert SameValue(e.members[mouse].1, JInt(1));
    assert SameValue(e.members[touch].1, JInt(8));
    var one := Lookup(e, JInt(1));
    var eight := Lookup(e, JInt(8));
    assert one == Ok(JInt(1)) by {
      assert one.Ok? && SameValue(one.value, JInt(1));
    }
    assert eight == Ok(JInt(8)) by {
      assert eight.Ok? && SameValue(eight.value, JInt(8));
    }
    assert [JInt(1), JInt(8)][1..] == [JInt(8)];
    assert Or(1, 8) == 9;
    assert Combine(e, JInt(1), JInt(8)) == Ok(JInt(9));
    assert FoldOr(e, JInt(8), []) == Ok(JInt(8));
    assert FoldOr(e, JInt(1), [JInt(8)]) == Ok(JInt(9)) by {
      assert FoldOr(e, JInt(9), []) == Ok(JInt(9));
    }
  }
}
