/**
  The enumerations declared in ossapi/enums.py, and what looking them up
  accepts.
 */
module OsuEnums {
  import opened Wrappers
  import opened Json
  import opened Enums

  const ProfilePage := EnumDecl(
    [("ME", JStr("me")), ("RECENT_ACTIVITY", JStr("recent_activity")), ("BEATMAPS", JStr("beatmaps")),
     ("HISTORICAL", JStr("historical")), ("KUDOSU", JStr("kudosu")), ("TOP_RANKS", JStr("top_ranks")),
     ("MEDALS", JStr("medals"))],
    [], false, false)

  const GameMode := EnumDecl(
    [("STD", JStr("osu")), ("TAIKO", JStr("taiko")), ("CTB", JStr("fruits")), ("MANIA", JStr("mania"))],
    [], false, false)

  /** The lowercase words `RankStatus._missing_` accepts, in code order -2..4. */
  const RankStatusWords: seq<string> := ["graveyard", "wip", "pending", "ranked", "approved", "qualified", "loved"]

  const RankStatus := EnumDecl(
    [("GRAVEYARD", JInt(-2)), ("WIP", JInt(-1)), ("PENDING", JInt(0)), ("RANKED", JInt(1)),
     ("APPROVED", JInt(2)), ("QUALIFIED", JInt(3)), ("LOVED", JInt(4))],
    [("graveyard", JInt(-2)), ("wip", JInt(-1)), ("pending", JInt(0)), ("ranked", JInt(1)),
     ("approved", JInt(2)), ("qualified", JInt(3)), ("loved", JInt(4))],
    false, false)

  const UserAccountHistoryType := EnumDecl(
    [("NOTE", JStr("note")), ("RESTRICTION", JStr("restriction")), ("SILENCE", JStr("silence"))],
    [], false, false)

  /** The members' values, in declaration order. */
  function Values(e: EnumDecl): (vs: seq<Json>)
    ensures |vs| == |e.members|
    ensures forall i :: 0 <= i < |e.members| ==> vs[i] == e.members[i].1
  {
    seq(|e.members|, i requires 0 <= i < |e.members| => e.members[i].1)
  }

  /** A plain string enumeration accepts exactly its members' values, and returns the value it was given. */
  lemma PlainStringLookup(e: EnumDecl, v: Json)
    requires PlainStringEnum(e)
    ensures Parse(e, v).Ok? <==> v in Values(e)
    ensures Parse(e, v).Ok? ==> Parse(e, v).value == v
  {
    var vs := Values(e);
    match FindValue(e.members, v)
    case Some(i) =>
      assert e.members[i].1 == v;
      assert vs[i] == v;
    case None =>
      forall i | 0 <= i < |vs| ensures vs[i] != v {
        assert !SameValue(e.members[i].1, v) && e.members[i].1.JStr?;
      }
  }

  /** `GameMode` accepts exactly "osu", "taiko", "fruits" and "mania", each resolving to itself. */
  lemma GameModeLookup(v: Json)
    ensures Parse(GameMode, v).Ok? <==> v in [JStr("osu"), JStr("taiko"), JStr("fruits"), JStr("mania")]
    ensures Parse(GameMode, v).Ok? ==> Parse(GameMode, v).value == v
  {
    assert PlainStringEnum(GameMode);
    PlainStringLookup(GameMode, v);
    assert Values(GameMode) == [JStr("osu"), JStr("taiko"), JStr("fruits"), JStr("mania")];
  }

  /** Distinct raw values never resolve to the same `GameMode` member. */
  lemma GameModeInjective(a: Json, b: Json)
    requires Parse(GameMode, a).Ok?
    requires Parse(GameMode, a) == Parse(GameMode, b)
    ensures a == b
  {
    GameModeLookup(a);
    GameModeLookup(b);
  }

  /** `ProfilePage` is a plain lookup of its seven values. */
  lemma ProfilePageLookup(v: Json)
    ensures Parse(ProfilePage, v).Ok? <==>
      v in [JStr("me"), JStr("recent_activity"), JStr("beatmaps"), JStr("historical"),
            JStr("kudosu"), JStr("top_ranks"), JStr("medals")]
    ensures Parse(ProfilePage, v).Ok? ==> Parse(ProfilePage, v).value == v
  {
    assert PlainStringEnum(ProfilePage);
    PlainStringLookup(ProfilePage, v);
    assert Values(ProfilePage) == [JStr("me"), JStr("recent_activity"), JStr("beatmaps"), JStr("historical"),
                                   JStr("kudosu"), JStr("top_ranks"), JStr("medals")];
  }

  /** `UserAccountHistoryType` is a plain lookup of "note", "restriction" and "silence". */
  lemma UserAccountHistoryTypeLookup(v: Json)
    ensures Parse(UserAccountHistoryType, v).Ok? <==> v in [JStr("note"), JStr("restriction"), JStr("silence")]
    ensures Parse(UserAccountHistoryType, v).Ok? ==> Parse(UserAccountHistoryType, v).value == v
  {
    assert PlainStringEnum(UserAccountHistoryType);
    PlainStringLookup(UserAccountHistoryType, v);
    assert Values(UserAccountHistoryType) == [JStr("note"), JStr("restriction"), JStr("silence")];
  }

  /** Every integer code -2..4 resolves directly to the member with that value. */
  lemma RankStatusCodes(c: int)
    requires -2 <= c <= 4
    ensures Parse(RankStatus, JInt(c)) == Ok(JInt(c))
  {
    var ms := RankStatus.members;
    ParseNonList(RankStatus, JInt(c));
    assert SameValue(ms[c + 2].1, JInt(c));
    var r := Lookup(RankStatus, JInt(c));
    assert r.Ok? && SameValue(r.value, JInt(c));
    var i :| 0 <= i < |ms| && ms[i].1 == r.value;
    assert ms[i].1.JInt?;
  }

  lemma RankStatusAlternateAt(i: nat)
    requires i < |RankStatusWords|
    ensures Dicts.Get(RankStatus.alternates, RankStatusWords[i]) == Some(JInt(i - 2))
  {
    assert RankStatus.alternates[i] == (RankStatusWords[i], JInt(i - 2));
    assert Dicts.UniqueKeys(RankStatus.alternates);
    Dicts.GetAt(RankStatus.alternates, i);
  }

  lemma RankStatusStringsAreNoValue(w: string)
    ensures FindValue(RankStatus.members, JStr(w)).None?
  {
    var ms := RankStatus.members;
    forall j | 0 <= j < |ms| ensures !SameValue(ms[j].1, JStr(w)) {
      assert ms[j].1.JInt?;
    }
  }

  /** A lowercase word is looked up through the alternate spellings, as its code. */
  lemma RankStatusWordLookup(i: nat)
    requires i < |RankStatusWords|
    ensures Lookup(RankStatus, JStr(RankStatusWords[i])) == Lookup(RankStatus, JInt(i - 2))
  {
    var w := RankStatusWords[i];
    var code := JInt(i - 2);
    assert FindValue(RankStatus.members, code).Some? by {
      assert SameValue(RankStatus.members[i].1, code);
    }
    RankStatusStringsAreNoValue(w);
    RankStatusAlternateAt(i);
    LookupAlternate(RankStatus, w, code);
  }

  /** Each lowercase word resolves to the same member as its code, the word's position minus 2. */
  lemma RankStatusWord(i: nat)
    requires i < |RankStatusWords|
    ensures Parse(RankStatus, JStr(RankStatusWords[i])) == Ok(JInt(i - 2))
    ensures Parse(RankStatus, JStr(RankStatusWords[i])) == Parse(RankStatus, JInt(i - 2))
  {
    var w := RankStatusWords[i];
    var code := JInt(i - 2);
    RankStatusCodes(i - 2);
    ParseNonList(RankStatus, code);
    ParseNonList(RankStatus, JStr(w));
    RankStatusWordLookup(i);
  }

  lemma RankStatusNumbers(v: Json)
    requires IsNumber(v)
    ensures Parse(RankStatus, v).Ok? <==> NumValue(v) in {-2.0, -1.0, 0.0, 1.0, 2.0, 3.0, 4.0}
  {
    var ms := RankStatus.members;
    if NumValue(v) in {-2.0, -1.0, 0.0, 1.0, 2.0, 3.0, 4.0} {
      var c := NumValue(v).Floor;
      assert c as real == NumValue(v);
      assert SameValue(ms[c + 2].1, v);
    } else {
      assert FindValue(ms, v).None? by {
        forall j | 0 <= j < |ms| ensures !SameValue(ms[j].1, v) {
          assert NumValue(ms[j].1) in {-2.0, -1.0, 0.0, 1.0, 2.0, 3.0, 4.0};
        }
      }
    }
  }

  lemma RankStatusOthers(v: Json)
    requires !IsNumber(v)
    ensures Parse(RankStatus, v).Ok? <==> v.JStr? && v.s in RankStatusWords
  {
    var ms := RankStatus.members;
    if v.JStr? && v.s in RankStatusWords {
      var i :| 0 <= i < |RankStatusWords| && RankStatusWords[i] == v.s;
      RankStatusWord(i);
    } else {
      if v.JStr? {
        RankStatusStringsAreNoValue(v.s);
        assert Dicts.Keys(RankStatus.alternates) == RankStatusWords;
      }
    }
  }

  /**
    `RankStatus` accepts a number equal to one of -2..4 (Python compares
    `True == 1` and `1.0 == 1`) or one of the seven lowercase words, and
    rejects everything else, including differently-cased words.
   */
  lemma RankStatusAccepts(v: Json)
    ensures Parse(RankStatus, v).Ok? <==>
      || (IsNumber(v) && NumValue(v) in {-2.0, -1.0, 0.0, 1.0, 2.0, 3.0, 4.0})
      || (v.JStr? && v.s in RankStatusWords)
  {
    if IsNumber(v) {
      RankStatusNumbers(v);
    } else {
      RankStatusOthers(v);
    }
  }
}
