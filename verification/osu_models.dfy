/**
  Facts about the concrete osu! schema, and conversions of small payloads
  through it.
 */
module OsuModels {
  import opened Wrappers
  import opened Dicts
  import opened Json
  import opened Types
  import opened Materialize
  import opened OsuSchema
  import MaterializeProps

  /** The client with the osu! classes; the datetime and `Mod` constructors stay parameters. */
  function OsuEnv(mkDatetime: Json -> Option<int>, mkMod: Json -> Option<Json>): Env {
    Env(Classes, mkDatetime, mkMod)
  }

  /** The user records of ossapi/enums.py are dataclasses: the client walks them as models, not as base types. */
  lemma UserRecordsAreModels(n: string)
    requires n in ["Country", "Cover", "ProfileBanner", "UserAccountHistory", "UserBadge", "UserGroup"]
    ensures IsModelType(Classes, Class(n)) && !IsBaseType(Classes, Class(n))
  {
  }

  /** So are the records describing beatmaps, beatmapsets and scores. */
  lemma BeatmapRecordsAreModels(n: string)
    requires n in ["Failtimes", "Covers", "Statistics", "Availability", "Hype", "Nominations"]
    ensures IsModelType(Classes, Class(n)) && !IsBaseType(Classes, Class(n))
  {
  }

  /** The four enumerations of ossapi/enums.py are base types. */
  lemma EnumsAreBase(n: string)
    requires n in ["ProfilePage", "GameMode", "RankStatus", "UserAccountHistoryType"]
    ensures IsBaseType(Classes, Class(n)) && !IsModelType(Classes, Class(n))
  {
  }

  /**
    `UserAccountHistory.timestamp` and `UserBadge.awarded_at` are annotated
    with the standard `datetime`, so a record carrying a value there fails
    to resolve instead of holding a datetime.
   */
  lemma RecordDatetimesRefused(env: Env, j: Json, a: Option<TypeDesc>, bound: nat)
    requires j != JNull && Size(j) < bound
    ensures UserAccountHistory[2] == ("timestamp", StdDatetimeT) && UserBadge[0] == ("awarded_at", StdDatetimeT)
    ensures ResolveAttr(env, "timestamp", j, UserAccountHistory, a, bound) == Err(DatetimeArguments(j))
    ensures ResolveAttr(env, "awarded_at", j, UserBadge, a, bound) == Err(DatetimeArguments(j))
  {
    GetFirst(UserAccountHistory, 2, "timestamp");
    GetFirst(UserBadge, 0, "awarded_at");
    MaterializeProps.StdDatetimeRefused(env, j, a);
  }

  /** Filling against hints none of which is optional adds nothing. */
  lemma {:induction false} FillNothingOptional(hints: Dict<TypeDesc>, kw: Dict<Json>)
    requires forall i :: 0 <= i < |hints| ==> !IsOptional(hints[i].1)
    ensures FillOptional(hints, kw) == kw
    decreases |hints|
  {
    if hints != [] {
      assert !IsOptional(hints[0].1);
      FillNothingOptional(hints[1..], kw);
    }
  }

  /** `Failtimes.exit` and `.fail` are optional, so an empty payload is filled with both as null. */
  lemma FailtimesFilled()
    ensures forall i :: 0 <= i < |Failtimes| ==> IsOptional(Failtimes[i].1)
    ensures FillOptional(Failtimes, []) == [("exit", JNull), ("fail", JNull)]
  {
    var k1: Dict<Json> := [("exit", JNull)];
    var k2: Dict<Json> := [("exit", JNull), ("fail", JNull)];
    assert Put([], "exit", JNull) == k1;
    assert !HasKey(k1, "fail") by { assert Keys(k1) == ["exit"]; }
    assert Put(k1, "fail", JNull) == k2;
    assert FillOptional(Failtimes[2..], k2) == k2;
    assert FillOptional(Failtimes[1..], k1) == k2;
  }

  /** ... and the filled payload constructs a `Failtimes` with both attributes null. */
  lemma FailtimesConstructed()
    ensures Construct("Failtimes", Dataclass(Failtimes), FillOptional(Failtimes, []), None) ==
      Ok(Shallow("Failtimes", [("exit", JNull), ("fail", JNull)], Failtimes, None))
  {
    FailtimesFilled();
    var k2: Dict<Json> := [("exit", JNull), ("fail", JNull)];
    assert Keys(k2) == ["exit", "fail"];
    assert Keys(Failtimes) == ["exit", "fail"];
    assert FirstKeyNotIn(k2, Failtimes).None?;
    assert FirstKeyNotIn(Failtimes, k2).None?;
    assert FieldValues(Failtimes, k2) == k2;
  }

  /**
    `Availability.more_information` is optional and is filled, but
    `download_disabled` is not, so an empty payload is missing it.
   */
  lemma AvailabilityMissing()
    ensures IsOptional(Availability[1].1) && !IsOptional(Availability[0].1)
    ensures FillOptional(Availability, []) == [("more_information", JNull)]
    ensures Construct("Availability", Dataclass(Availability), FillOptional(Availability, []), None) ==
      Err(MissingField("Availability", "download_disabled"))
  {
    var m: Dict<Json> := [("more_information", JNull)];
    assert Put([], "more_information", JNull) == m;
    assert FillOptional(Availability[2..], m) == m;
    assert FillOptional(Availability[1..], []) == m;
    assert Keys(m) == ["more_information"];
    assert FirstKeyNotIn(m, Availability).None?;
    assert FirstKeyNotIn(Availability, m) == Some(0);
  }

  /**
    The comment variants differ in the ids they declare: both ids as ints,
    a discussion id with a null post id, both null, or neither (only the
    modes of a nomination).
   */
  lemma CommentVariantIds()
    ensures BeatmapsetEventComment == [("beatmap_discussion_id", Int), ("beatmap_discussion_post_id", Int)]
    ensures BeatmapsetEventCommentNoPost == [("beatmap_discussion_id", Int), ("beatmap_discussion_post_id", NoneT)]
    ensures BeatmapsetEventCommentNone == [("beatmap_discussion_id", NoneT), ("beatmap_discussion_post_id", NoneT)]
    ensures !HasKey(BeatmapsetEventCommentNominate, "beatmap_discussion_id")
    ensures !HasKey(BeatmapsetEventCommentNominate, "beatmap_discussion_post_id")
    ensures Keys(BeatmapsetEventCommentChange) == ["beatmap_discussion_id", "beatmap_discussion_post_id", "old", "new"]
  {
    assert Keys(BeatmapsetEventCommentNominate) == ["modes"];
  }

  /**
    The field lists of the models that page with a cursor, and the position
    of their `cursor` field; `Classes` declares each model under its name.
   */
  const CursorModels: seq<(Dict<TypeDesc>, nat)> := [
    (CommentBundle, 12), (ForumTopicAndPosts, 0), (Rankings, 1),
    (BeatmapSearchResult, 1), (BeatmapsetDiscussionPostResult, 2)]

  /** Every model with a cursor declares it `Optional["Cursor"]`, so a null cursor is accepted. */
  lemma CursorFieldsNullable()
    ensures IsOptional(CursorT) && CursorT.arms[0] == Class("Cursor")
    ensures forall p :: p in CursorModels ==> p.1 < |p.0| && p.0[p.1] == ("cursor", CursorT)
  {
    assert CommentBundle[12] == ("cursor", CursorT);
    assert ForumTopicAndPosts[0] == ("cursor", CursorT);
    assert Rankings[1] == ("cursor", CursorT);
    assert BeatmapSearchResult[1] == ("cursor", CursorT);
    assert BeatmapsetDiscussionPostResult[2] == ("cursor", CursorT);
  }

  /**
    When a response ends the paging, with a null cursor or none at all, the
    instance's `cursor` attribute is null: the optional field is filled with
    null, and a null attribute is never converted.
   */
  lemma CursorNullOrAbsent(env: Env, n: string, fields: Dict<TypeDesc>, i: nat, m: Dict<Json>, a: Option<TypeDesc>)
    requires env.schema(n) == Some(Dataclass(fields))
    requires i < |fields| && fields[i] == ("cursor", CursorT)
    requires Get(RenameKeys(m), "cursor").None? || Get(RenameKeys(m), "cursor") == Some(JNull)
    requires InstantiateType(env, Class(n), JObj(m), a).Ok?
    ensures var w := InstantiateType(env, Class(n), JObj(m), a).value;
      w.Some? && w.value.Instance? && i < |w.value.attrs| && w.value.attrs[i] == ("cursor", Raw(JNull))
  {
    CursorFieldsNullable();
    MaterializeProps.ModelObjectNullField(env, n, fields, m, a, i);
  }
}
