/**
  The model declarations of ossapi/models.py and the record dataclasses and
  enumerations of ossapi/enums.py, as field lists. A subclass's fields are
  its base's fields followed by its own, a redeclared field keeping its
  base position, as `dataclasses` orders them.

  Classes the models import but whose declarations are not part of this
  model (`Kudosu`, `Grade`, `EventUser`, ...) are named and left undeclared.
 */
module OsuSchema {
  import opened Wrappers
  import opened Dicts
  import opened Types
  import OsuEnums

  const Int := PrimT(IntP)
  const Float := PrimT(FloatP)
  const Str := PrimT(StrP)
  const Bool := PrimT(BoolP)

  function Opt(t: TypeDesc): TypeDesc { Optional(t) }
  function C(name: string): TypeDesc { Class(name) }
  function L(t: TypeDesc): TypeDesc { ListOf(t) }

  /** `CursorT = Optional["Cursor"]`: a null cursor marks the last page. */
  const CursorT := Optional(Class("Cursor"))

  /** The fields of a subclass: the base's, with redeclared ones replaced in place, then the new ones. */
  function Extend(base: Dict<TypeDesc>, more: Dict<TypeDesc>): Dict<TypeDesc>
    decreases |more|
  {
    if more == [] then base else Extend(Put(base, more[0].0, more[0].1), more[1..])
  }

  // ------------------------------------------------------------------
  // Records of ossapi/enums.py
  // ------------------------------------------------------------------

  const Failtimes: Dict<TypeDesc> := [("exit", Opt(L(Int))), ("fail", Opt(L(Int)))]
  const Country: Dict<TypeDesc> := [("code", Str), ("name", Str)]
  const Cover: Dict<TypeDesc> := [("custom_url", Str), ("url", Str), ("id", Int)]
  const ProfileBanner: Dict<TypeDesc> := [("id", Int), ("tournament_id", Int), ("image", Str)]
  const UserAccountHistory: Dict<TypeDesc> :=
    [("id", Int), ("type", C("UserAccountHistoryType")), ("timestamp", StdDatetimeT), ("length", Int)]
  const UserBadge: Dict<TypeDesc> :=
    [("awarded_at", StdDatetimeT), ("description", Str), ("image_url", Str), ("url", Str)]
  const UserGroup: Dict<TypeDesc> :=
    [("id", Int), ("identifier", Str), ("is_probationary", Bool), ("name", Str), ("short_name", Str),
     ("description", Str), ("colour", Str), ("playmodes", Opt(L(C("GameMode"))))]
  const Covers: Dict<TypeDesc> :=
    [("cover", Str), ("cover_2x", Str), ("card", Str), ("card_2x", Str), ("list", Str), ("list_2x", Str),
     ("slimcover", Str), ("slimcover_2x", Str)]
  const Statistics: Dict<TypeDesc> :=
    [("count_50", Int), ("count_100", Int), ("count_300", Int), ("count_geki", Int), ("count_katu", Int),
     ("count_miss", Int)]
  const Availability: Dict<TypeDesc> := [("download_disabled", Bool), ("more_information", Opt(Str))]
  const Hype: Dict<TypeDesc> := [("current", Int), ("required", Int)]
  const Nominations: Dict<TypeDesc> := [("current", Int), ("required", Int)]

  // ------------------------------------------------------------------
  // Models of ossapi/models.py
  // ------------------------------------------------------------------

  const UserCompact: Dict<TypeDesc> := [
    ("avatar_url", Str), ("country_code", Str), ("default_group", Str), ("id", Int), ("is_active", Bool),
    ("is_bot", Bool), ("is_deleted", Bool), ("is_online", Bool), ("is_supporter", Bool),
    ("last_visit", Opt(DatetimeT)), ("pm_friends_only", Bool), ("profile_colour", Opt(Str)), ("username", Str),
    ("account_history", Opt(L(C("UserAccountHistory")))), ("active_tournament_banner", Opt(C("ProfileBanner"))),
    ("badges", Opt(L(C("UserBadge")))), ("beatmap_playcounts_count", Opt(Int)), ("blocks", Opt(C("UserRelation"))),
    ("country", Opt(C("Country"))), ("cover", Opt(C("Cover"))), ("favourite_beatmapset_count", Opt(Int)),
    ("follow_user_mapping", Opt(L(Int))), ("follower_count", Opt(Int)), ("friends", Opt(L(C("UserRelation")))),
    ("graveyard_beatmapset_count", Opt(Int)), ("groups", Opt(L(C("UserGroup")))), ("is_admin", Opt(Bool)),
    ("is_bng", Opt(Bool)), ("is_full_bn", Opt(Bool)), ("is_gmt", Opt(Bool)), ("is_limited_bn", Opt(Bool)),
    ("is_moderator", Opt(Bool)), ("is_nat", Opt(Bool)), ("is_restricted", Opt(Bool)), ("is_silenced", Opt(Bool)),
    ("loved_beatmapset_count", Opt(Int)), ("mapping_follower_count", Opt(Int)),
    ("monthly_playcounts", Opt(L(C("UserMonthlyPlaycount")))), ("page", Opt(C("UserPage"))),
    ("previous_usernames", Opt(L(Str))), ("ranked_and_approved_beatmapset_count", Opt(Int)),
    ("ranked_beatmapset_count", Opt(Int)), ("replays_watched_counts", Opt(L(C("UserReplaysWatchedCount")))),
    ("scores_best_count", Opt(Int)), ("scores_first_count", Opt(Int)), ("scores_recent_count", Opt(Int)),
    ("statistics", Opt(C("UserStatistics"))), ("statistics_rulesets", Opt(C("UserStatisticsRulesets"))),
    ("support_level", Opt(Int)), ("unranked_beatmapset_count", Opt(Int)), ("pending_beatmapset_count", Opt(Int)),
    ("unread_pm_count", Opt(Int)), ("user_achievements", Opt(L(C("UserAchievement")))),
    ("user_preferences", Opt(C("UserProfileCustomization"))), ("rank_history", Opt(C("RankHistory"))),
    ("rankHistory", Opt(C("RankHistory")))]

  const User: Dict<TypeDesc> := Extend(UserCompact, [
    ("comments_count", Int), ("cover_url", Str), ("discord", Opt(Str)), ("has_supported", Bool),
    ("interests", Opt(Str)), ("join_date", DatetimeT), ("kudosu", C("Kudosu")), ("location", Opt(Str)),
    ("max_blocks", Int), ("max_friends", Int), ("occupation", Opt(Str)), ("playmode", Str),
    ("playstyle", Opt(C("PlayStyles"))), ("post_count", Int), ("profile_order", L(C("ProfilePage"))),
    ("title", Opt(Str)), ("title_url", Opt(Str)), ("twitter", Opt(Str)), ("website", Opt(Str))])

  const BeatmapCompact: Dict<TypeDesc> := [
    ("difficulty_rating", Float), ("id", Int), ("mode", C("GameMode")), ("status", C("RankStatus")),
    ("total_length", Int), ("version", Str), ("user_id", Int), ("beatmapset", Opt(C("BeatmapsetCompact"))),
    ("checksum", Opt(Str)), ("failtimes", Opt(C("Failtimes"))), ("max_combo", Opt(Int))]

  const Beatmap: Dict<TypeDesc> := Extend(BeatmapCompact, [
    ("total_length", Int), ("version", Str), ("accuracy", Float), ("ar", Float), ("beatmapset_id", Int),
    ("bpm", Float), ("convert", Bool), ("count_circles", Int), ("count_sliders", Int), ("count_spinners", Int),
    ("cs", Float), ("deleted_at", Opt(DatetimeT)), ("drain", Float), ("hit_length", Int), ("is_scoreable", Bool),
    ("last_updated", DatetimeT), ("mode_int", Int), ("passcount", Int), ("playcount", Int),
    ("ranked", C("RankStatus")), ("url", Str), ("beatmapset", Opt(C("Beatmapset")))])

  const BeatmapsetCompact: Dict<TypeDesc> := [
    ("artist", Str), ("artist_unicode", Str), ("covers", C("Covers")), ("creator", Str), ("favourite_count", Int),
    ("id", Int), ("play_count", Int), ("preview_url", Str), ("source", Str), ("status", C("RankStatus")),
    ("title", Str), ("title_unicode", Str), ("user_id", Int), ("video", Bool), ("nsfw", Bool),
    ("hype", Opt(C("Hype"))), ("beatmaps", Opt(L(C("Beatmap")))), ("converts", Opt(AnyT)),
    ("current_user_attributes", Opt(AnyT)), ("description", Opt(AnyT)), ("discussions", Opt(AnyT)),
    ("events", Opt(AnyT)), ("genre", Opt(AnyT)), ("has_favourited", Opt(Bool)), ("language", Opt(AnyT)),
    ("nominations", Opt(AnyT)), ("ratings", Opt(AnyT)), ("recent_favourites", Opt(AnyT)),
    ("related_users", Opt(AnyT)), ("user", Opt(C("UserCompact")))]

  const Beatmapset: Dict<TypeDesc> := Extend(BeatmapsetCompact, [
    ("availability", C("Availability")), ("bpm", Float), ("can_be_hyped", Bool), ("discussion_enabled", Bool),
    ("discussion_locked", Bool), ("is_scoreable", Bool), ("last_updated", DatetimeT),
    ("legacy_thread_url", Opt(Str)), ("nominations_summary", C("Nominations")), ("ranked", C("RankStatus")),
    ("ranked_date", Opt(DatetimeT)), ("storyboard", Bool), ("submitted_date", Opt(DatetimeT)), ("tags", Str)])

  const Score: Dict<TypeDesc> := [
    ("id", Int), ("best_id", Opt(Int)), ("user_id", Int), ("accuracy", Float), ("mods", ModT), ("score", Int),
    ("max_combo", Int), ("perfect", Bool), ("statistics", C("Statistics")), ("pp", Opt(Float)),
    ("rank", C("Grade")), ("created_at", DatetimeT), ("mode", C("GameMode")), ("mode_int", Int),
    ("replay", Bool), ("passed", Bool), ("beatmap", Opt(C("Beatmap"))), ("beatmapset", Opt(C("BeatmapsetCompact"))),
    ("rank_country", Opt(Int)), ("rank_global", Opt(Int)), ("weight", Opt(C("Weight"))),
    ("user", Opt(C("UserCompact"))), ("match", Opt(C("Match")))]

  const BeatmapUserScore: Dict<TypeDesc> := [("position", Int), ("score", C("Score"))]
  const BeatmapScores: Dict<TypeDesc> := [("scores", L(C("Score"))), ("userScore", Opt(C("BeatmapUserScore")))]

  const CommentableMeta: Dict<TypeDesc> := [
    ("id", Opt(Int)), ("title", Str), ("type", Opt(Str)), ("url", Opt(Str)), ("owner_id", Opt(Int)),
    ("owner_title", Opt(Str))]

  const Comment: Dict<TypeDesc> := [
    ("commentable_id", Int), ("commentable_type", Str), ("created_at", DatetimeT), ("deleted_at", Opt(DatetimeT)),
    ("edited_at", Opt(DatetimeT)), ("edited_by_id", Opt(Int)), ("id", Int), ("legacy_name", Opt(Str)),
    ("message", Opt(Str)), ("message_html", Opt(Str)), ("parent_id", Opt(Int)), ("pinned", Bool),
    ("replies_count", Int), ("updated_at", DatetimeT), ("user_id", Int), ("votes_count", Int)]

  /** The `Cursor` name-to-type table: any attribute is accepted, only these can be resolved. */
  const CursorHints: Dict<TypeDesc> := [
    ("created_at", DatetimeT), ("id", Int), ("_id", Str), ("queued_at", Str), ("approved_date", DatetimeT),
    ("last_update", Str), ("votes_count", Int), ("page", Int), ("limit", Int), ("_score", Float)]

  const CommentBundle: Dict<TypeDesc> := [
    ("commentable_meta", L(C("CommentableMeta"))), ("comments", L(C("Comment"))), ("has_more", Bool),
    ("has_more_id", Opt(Int)), ("included_comments", L(C("Comment"))), ("pinned_comments", Opt(L(C("Comment")))),
    ("sort", Str), ("top_level_count", Opt(Int)), ("total", Opt(Int)), ("user_follow", Bool),
    ("user_votes", L(Int)), ("users", L(C("UserCompact"))), ("cursor", CursorT)]

  const ForumTopicAndPosts: Dict<TypeDesc> := [
    ("cursor", CursorT), ("search", Str), ("posts", L(C("ForumPost"))), ("topic", C("ForumTopic"))]

  const SearchResult: Dict<TypeDesc> := [("data", L(TypeVar("T"))), ("total", Int)]

  const WikiPage: Dict<TypeDesc> := [
    ("layout", Str), ("locale", Str), ("markdown", Str), ("path", Str), ("subtitle", Opt(Str)), ("tags", L(Str)),
    ("title", Str), ("available_locales", L(Str))]

  const Search: Dict<TypeDesc> := [
    ("user", Opt(Generic("SearchResult", C("UserCompact")))), ("wiki_page", Opt(Generic("SearchResult", C("WikiPage"))))]

  const Spotlight: Dict<TypeDesc> := [
    ("end_date", DatetimeT), ("id", Int), ("mode_specific", Bool), ("participant_count", Opt(Int)), ("name", Str),
    ("start_date", DatetimeT), ("type", Str)]

  const Spotlights: Dict<TypeDesc> := [("spotlights", L(C("Spotlight")))]

  const Rankings: Dict<TypeDesc> := [
    ("beatmapsets", Opt(L(C("Beatmapset")))), ("cursor", CursorT), ("ranking", L(C("UserStatistics"))),
    ("spotlight", Opt(C("Spotlight"))), ("total", Int)]

  const BeatmapsetDiscussionPost: Dict<TypeDesc> := [
    ("id", Int), ("beatmapset_discussion_id", Int), ("user_id", Int), ("last_editor_id", Opt(Int)),
    ("deleted_by_id", Opt(Int)), ("system", Bool), ("message", Str), ("created_at", DatetimeT),
    ("updated_at", DatetimeT), ("deleted_at", Opt(DatetimeT))]

  const BeatmapsetDiscussion: Dict<TypeDesc> := [
    ("id", Int), ("beatmapset_id", Int), ("beatmap_id", Opt(Int)), ("user_id", Int), ("deleted_by_id", Opt(Int)),
    ("message_type", C("MessageType")), ("parent_id", Opt(Int)), ("timestamp", Opt(Int)), ("resolved", Bool),
    ("can_be_resolved", Bool), ("can_grant_kudosu", Bool), ("created_at", DatetimeT), ("updated_at", DatetimeT),
    ("deleted_at", Opt(DatetimeT)), ("last_post_at", Opt(DatetimeT)), ("kudosu_denied", Bool),
    ("starting_post", Opt(C("BeatmapsetDiscussionPost"))), ("posts", Opt(L(C("BeatmapsetDiscussionPost")))),
    ("beatmap", Opt(C("BeatmapCompact"))), ("beatmapset", Opt(C("BeatmapsetCompact")))]

  const BeatmapsetDiscussionVote: Dict<TypeDesc> := [("score", Int), ("user_id", Int)]

  const KudosuHistory: Dict<TypeDesc> := [
    ("id", Int), ("action", C("KudosuAction")), ("amount", Int), ("model", Str), ("created_at", DatetimeT),
    ("giver", Opt(C("KudosuGiver"))), ("post", C("KudosuPost")), ("details", AnyT)]

  const BeatmapPlaycount: Dict<TypeDesc> := [
    ("beatmap_id", Int), ("beatmap", Opt(C("BeatmapCompact"))), ("beatmapset", Opt(C("BeatmapsetCompact"))),
    ("count", Int)]

  const Event: Dict<TypeDesc> := [
    ("created_at", DatetimeT), ("createdAt", DatetimeT), ("id", Int), ("type", C("EventType"))]

  const AchievementEvent: Dict<TypeDesc> := Event + [("achievement", C("EventAchivement")), ("user", C("EventUser"))]
  const BeatmapPlaycountEvent: Dict<TypeDesc> := Event + [("beatmap", C("EventBeatmap")), ("count", Int)]
  const BeatmapsetApproveEvent: Dict<TypeDesc> :=
    Event + [("approval", C("BeatmapsetApproval")), ("beatmapset", C("EventBeatmapset")), ("user", C("EventUser"))]
  const BeatmapsetDeleteEvent: Dict<TypeDesc> := Event + [("beatmapset", C("EventBeatmapset"))]
  const BeatmapsetReviveEvent: Dict<TypeDesc> := Event + [("beatmapset", C("EventBeatmapset")), ("user", C("EventUser"))]
  const BeatmapsetUpdateEvent: Dict<TypeDesc> := Event + [("beatmapset", C("EventBeatmapset")), ("user", C("EventUser"))]
  const BeatmapsetUploadEvent: Dict<TypeDesc> := Event + [("beatmapset", C("EventBeatmapset")), ("user", C("EventUser"))]
  const RankEvent: Dict<TypeDesc> := Event + [
    ("scoreRank", Str), ("rank", Int), ("mode", C("GameMode")), ("beatmap", C("EventBeatmap")), ("user", C("EventUser"))]
  const RankLostEvent: Dict<TypeDesc> :=
    Event + [("mode", C("GameMode")), ("beatmap", C("EventBeatmap")), ("user", C("EventUser"))]
  const UserSupportFirstEvent: Dict<TypeDesc> := Event + [("user", C("EventUser"))]
  const UserSupportAgainEvent: Dict<TypeDesc> := Event + [("user", C("EventUser"))]
  const UserSupportGiftEvent: Dict<TypeDesc> := Event + [("beatmap", C("EventBeatmap"))]
  const UsernameChangeEvent: Dict<TypeDesc> := Event + [("user", C("EventUser"))]

  const Build: Dict<TypeDesc> := [
    ("created_at", DatetimeT), ("display_version", Str), ("id", Int), ("update_stream", Opt(C("UpdateStream"))),
    ("users", Int), ("version", Opt(Str)), ("changelog_entries", Opt(L(C("ChangelogEntry")))),
    ("versions", Opt(C("Versions")))]

  const Versions: Dict<TypeDesc> := [("next", Opt(C("Build"))), ("previous", Opt(C("Build")))]

  const UpdateStream: Dict<TypeDesc> := [
    ("display_name", Opt(Str)), ("id", Int), ("is_featured", Bool), ("name", Str), ("latest_build", Opt(C("Build"))),
    ("user_count", Opt(Int))]

  const ChangelogEntry: Dict<TypeDesc> := [
    ("category", Str), ("created_at", Opt(DatetimeT)), ("github_pull_request_id", Opt(Int)), ("github_url", Opt(Str)),
    ("id", Opt(Int)), ("major", Bool), ("message_html", Opt(Str)), ("repository", Opt(Str)), ("title", Opt(Str)),
    ("type", Str), ("url", Opt(Str)), ("github_user", C("GithubUser"))]

  const ChangelogListing: Dict<TypeDesc> := [
    ("builds", L(C("Build"))), ("search", C("ChangelogSearch")), ("streams", L(C("UpdateStream")))]

  const BeatmapSearchResult: Dict<TypeDesc> := [
    ("beatmapsets", L(C("Beatmapset"))), ("cursor", CursorT), ("recommended_difficulty", Float),
    ("error", Opt(Str)), ("total", Int), ("search", AnyT)]

  const BeatmapsetDiscussionReview: Dict<TypeDesc> := [("max_blocks", Int)]

  const BeatmapsetDiscussionPostResult: Dict<TypeDesc> := [
    ("beatmapsets", L(C("BeatmapsetCompact"))), ("discussions", L(C("BeatmapsetDiscussion"))), ("cursor", CursorT),
    ("posts", L(C("BeatmapsetDiscussionPost"))), ("users", L(C("UserCompact")))]

  const BeatmapsetEventComment: Dict<TypeDesc> := [("beatmap_discussion_id", Int), ("beatmap_discussion_post_id", Int)]
  const BeatmapsetEventCommentNoPost: Dict<TypeDesc> :=
    [("beatmap_discussion_id", Int), ("beatmap_discussion_post_id", NoneT)]
  const BeatmapsetEventCommentNone: Dict<TypeDesc> :=
    [("beatmap_discussion_id", NoneT), ("beatmap_discussion_post_id", NoneT)]
  const BeatmapsetEventCommentChange: Dict<TypeDesc> :=
    BeatmapsetEventCommentNone + [("old", TypeVar("S")), ("new", TypeVar("S"))]
  const BeatmapsetEventCommentLovedRemoval: Dict<TypeDesc> := BeatmapsetEventCommentNone + [("reason", Str)]
  const BeatmapsetEventCommentKudosuChange: Dict<TypeDesc> :=
    BeatmapsetEventCommentNoPost + [("new_vote", C("KudosuVote")), ("votes", L(C("KudosuVote")))]
  const BeatmapsetEventCommentKudosuRecalculate: Dict<TypeDesc> :=
    BeatmapsetEventCommentNoPost + [("new_vote", Opt(C("KudosuVote")))]
  const BeatmapsetEventCommentOwnerChange: Dict<TypeDesc> := BeatmapsetEventCommentNone + [
    ("beatmap_id", Int), ("beatmap_version", Str), ("new_user_id", Int), ("new_user_username", Str)]
  const BeatmapsetEventCommentNominate: Dict<TypeDesc> := [("modes", L(C("GameMode")))]

  const BeatmapsetEvent: Dict<TypeDesc> := [
    ("id", Int), ("type", C("BeatmapsetEventType")), ("comment", Str), ("created_at", DatetimeT),
    ("user_id", Opt(Int)), ("beatmapset", Opt(C("BeatmapsetCompact"))), ("discussion", Opt(C("BeatmapsetDiscussion")))]

  const ModdingHistoryEventsBundle: Dict<TypeDesc> := [
    ("events", L(C("BeatmapsetEvent"))), ("reviewsConfig", C("BeatmapsetDiscussionReview")),
    ("users", L(C("UserCompact")))]

  const UserRelation: Dict<TypeDesc> := [
    ("target_id", Int), ("relation_type", C("UserRelationType")), ("mutual", Bool), ("target", Opt(C("UserCompact")))]

  const UserStatistics: Dict<TypeDesc> := [
    ("level", C("UserLevel")), ("pp", Float), ("ranked_score", Int), ("hit_accuracy", Float), ("play_count", Int),
    ("play_time", Int), ("total_score", Int), ("total_hits", Int), ("maximum_combo", Int),
    ("replays_watched_by_others", Int), ("is_ranked", Bool), ("grade_counts", C("UserGradeCounts")),
    ("country_rank", Opt(Int)), ("global_rank", Opt(Int)), ("rank", Opt(AnyT)), ("user", Opt(C("UserCompact"))),
    ("variants", Opt(AnyT))]

  const UserStatisticsRulesets: Dict<TypeDesc> := [
    ("osu", Opt(C("UserStatistics"))), ("taiko", Opt(C("UserStatistics"))), ("fruits", Opt(C("UserStatistics"))),
    ("mania", Opt(C("UserStatistics")))]

  /**
    Every class this model declares, by the name annotations use for it.
    What it declares is stated in OsuModels: `UserRecordsAreModels`,
    `BeatmapRecordsAreModels`, `EnumsAreBase`, `CursorFieldsNullable`,
    `RecordDatetimesRefused`, `FailtimesFilled`, `AvailabilityMissing`.
   */
  function Classes(name: string): Option<ClassDecl> {
    match name
    // ossapi/enums.py
    case "ProfilePage" => Some(EnumClass(OsuEnums.ProfilePage))
    case "GameMode" => Some(EnumClass(OsuEnums.GameMode))
    case "RankStatus" => Some(EnumClass(OsuEnums.RankStatus))
    case "UserAccountHistoryType" => Some(EnumClass(OsuEnums.UserAccountHistoryType))
    case "Failtimes" => Some(Dataclass(Failtimes))
    case "Country" => Some(Dataclass(Country))
    case "Cover" => Some(Dataclass(Cover))
    case "ProfileBanner" => Some(Dataclass(ProfileBanner))
    case "UserAccountHistory" => Some(Dataclass(UserAccountHistory))
    case "UserBadge" => Some(Dataclass(UserBadge))
    case "UserGroup" => Some(Dataclass(UserGroup))
    case "Covers" => Some(Dataclass(Covers))
    case "Statistics" => Some(Dataclass(Statistics))
    case "Availability" => Some(Dataclass(Availability))
    case "Hype" => Some(Dataclass(Hype))
    case "Nominations" => Some(Dataclass(Nominations))
    // ossapi/models.py
    case "UserCompact" => Some(Dataclass(UserCompact))
    case "User" => Some(Dataclass(User))
    case "BeatmapCompact" => Some(Dataclass(BeatmapCompact))
    case "Beatmap" => Some(Dataclass(Beatmap))
    case "BeatmapsetCompact" => Some(Dataclass(BeatmapsetCompact))
    case "Beatmapset" => Some(Dataclass(Beatmapset))
    case "Match" => Some(Dataclass([]))
    case "Score" => Some(Dataclass(Score))
    case "BeatmapUserScore" => Some(Dataclass(BeatmapUserScore))
    case "BeatmapScores" => Some(Dataclass(BeatmapScores))
    case "CommentableMeta" => Some(Dataclass(CommentableMeta))
    case "Comment" => Some(Dataclass(Comment))
    case "Cursor" => Some(Namespace(CursorHints))
    case "CommentBundle" => Some(Dataclass(CommentBundle))
    case "ForumPost" => Some(Dataclass([]))
    case "ForumTopic" => Some(Dataclass([]))
    case "ForumTopicAndPosts" => Some(Dataclass(ForumTopicAndPosts))
    case "SearchResult" => Some(Dataclass(SearchResult))
    case "WikiPage" => Some(Dataclass(WikiPage))
    case "Search" => Some(Dataclass(Search))
    case "Spotlight" => Some(Dataclass(Spotlight))
    case "Spotlights" => Some(Dataclass(Spotlights))
    case "Rankings" => Some(Dataclass(Rankings))
    case "BeatmapsetDiscussionPost" => Some(Dataclass(BeatmapsetDiscussionPost))
    case "BeatmapsetDiscussion" => Some(Dataclass(BeatmapsetDiscussion))
    case "BeatmapsetDiscussionVote" => Some(Dataclass(BeatmapsetDiscussionVote))
    case "KudosuHistory" => Some(Dataclass(KudosuHistory))
    case "BeatmapPlaycount" => Some(Dataclass(BeatmapPlaycount))
    case "Event" => Some(Dataclass(Event))
    case "AchievementEvent" => Some(Dataclass(AchievementEvent))
    case "BeatmapPlaycountEvent" => Some(Dataclass(BeatmapPlaycountEvent))
    case "BeatmapsetApproveEvent" => Some(Dataclass(BeatmapsetApproveEvent))
    case "BeatmapsetDeleteEvent" => Some(Dataclass(BeatmapsetDeleteEvent))
    case "BeatmapsetReviveEvent" => Some(Dataclass(BeatmapsetReviveEvent))
    case "BeatmapsetUpdateEvent" => Some(Dataclass(BeatmapsetUpdateEvent))
    case "BeatmapsetUploadEvent" => Some(Dataclass(BeatmapsetUploadEvent))
    case "RankEvent" => Some(Dataclass(RankEvent))
    case "RankLostEvent" => Some(Dataclass(RankLostEvent))
    case "UserSupportFirstEvent" => Some(Dataclass(UserSupportFirstEvent))
    case "UserSupportAgainEvent" => Some(Dataclass(UserSupportAgainEvent))
    case "UserSupportGiftEvent" => Some(Dataclass(UserSupportGiftEvent))
    case "UsernameChangeEvent" => Some(Dataclass(UsernameChangeEvent))
    case "Build" => Some(Dataclass(Build))
    case "Versions" => Some(Dataclass(Versions))
    case "UpdateStream" => Some(Dataclass(UpdateStream))
    case "ChangelogEntry" => Some(Dataclass(ChangelogEntry))
    case "ChangelogListing" => Some(Dataclass(ChangelogListing))
    case "BeatmapSearchResult" => Some(Dataclass(BeatmapSearchResult))
    case "BeatmapsetDiscussionReview" => Some(Dataclass(BeatmapsetDiscussionReview))
    case "BeatmapsetDiscussionPostResult" => Some(Dataclass(BeatmapsetDiscussionPostResult))
    case "BeatmapsetEventComment" => Some(Dataclass(BeatmapsetEventComment))
    case "BeatmapsetEventCommentNoPost" => Some(Dataclass(BeatmapsetEventCommentNoPost))
    case "BeatmapsetEventCommentNone" => Some(Dataclass(BeatmapsetEventCommentNone))
    case "BeatmapsetEventCommentChange" => Some(Dataclass(BeatmapsetEventCommentChange))
    case "BeatmapsetEventCommentLovedRemoval" => Some(Dataclass(BeatmapsetEventCommentLovedRemoval))
    case "BeatmapsetEventCommentKudosuChange" => Some(Dataclass(BeatmapsetEventCommentKudosuChange))
    case "BeatmapsetEventCommentKudosuRecalculate" => Some(Dataclass(BeatmapsetEventCommentKudosuRecalculate))
    case "BeatmapsetEventCommentOwnerChange" => Some(Dataclass(BeatmapsetEventCommentOwnerChange))
    case "BeatmapsetEventCommentNominate" => Some(Dataclass(BeatmapsetEventCommentNominate))
    case "BeatmapsetEvent" => Some(Dataclass(BeatmapsetEvent))
    case "ModdingHistoryEventsBundle" => Some(Dataclass(ModdingHistoryEventsBundle))
    case "UserRelation" => Some(Dataclass(UserRelation))
    case "UserStatistics" => Some(Dataclass(UserStatistics))
    case "UserStatisticsRulesets" => Some(Dataclass(UserStatisticsRulesets))
    case _ => None
  }
}
