/**
  The two discriminator tables of ossapi/models.py: `_Event.override_class`,
  which picks the concrete event class from the payload's `type`, and
  `BeatmapsetEvent.override_types`, which picks the declared type of an
  event's `comment` from the event's own type. The enumerations are defined
  outside this model; their members here are the ones the tables name, and
  turning a raw `type` value into a member is a parameter.
 */
module Dispatch {
  import opened Wrappers
  import opened Dicts
  import opened Json
  import opened Types
  import OsuSchema

  datatype EventType =
    | Achievement | BeatmapPlaycount | BeatmapsetApprove | BeatmapsetDelete | BeatmapsetRevive
    | BeatmapsetUpdate | BeatmapsetUpload | Rank | RankLost | UserSupportFirst | UserSupportAgain
    | UserSupportGift | UsernameChange

  datatype DispatchError =
      /** `data["type"]` on a payload without that key. */
    | MissingType
      /** `EventType(value)` / `BeatmapsetEventType(value)` on a value that is no member. */
    | NotAMember(value: Json)
      /** `mapping[type_]` for a member the table has no entry for. */
    | NoEntry

  /** The table of `override_class`. */
  function EventClass(t: EventType): string {
    match t
    case Achievement => "AchievementEvent"
    case BeatmapPlaycount => "BeatmapPlaycountEvent"
    case BeatmapsetApprove => "BeatmapsetApproveEvent"
    case BeatmapsetDelete => "BeatmapsetDeleteEvent"
    case BeatmapsetRevive => "BeatmapsetReviveEvent"
    case BeatmapsetUpdate => "BeatmapsetUpdateEvent"
    case BeatmapsetUpload => "BeatmapsetUploadEvent"
    case Rank => "RankEvent"
    case RankLost => "RankLostEvent"
    case UserSupportFirst => "UserSupportFirstEvent"
    case UserSupportAgain => "UserSupportAgainEvent"
    case UserSupportGift => "UserSupportGiftEvent"
    case UsernameChange => "UsernameChangeEvent"
  }

  /** Reading the event type back from a class name; the reference the table is checked against. */
  function ClassEvent(c: string): Option<EventType> {
    match c
    case "AchievementEvent" => Some(Achievement)
    case "BeatmapPlaycountEvent" => Some(BeatmapPlaycount)
    case "BeatmapsetApproveEvent" => Some(BeatmapsetApprove)
    case "BeatmapsetDeleteEvent" => Some(BeatmapsetDelete)
    case "BeatmapsetReviveEvent" => Some(BeatmapsetRevive)
    case "BeatmapsetUpdateEvent" => Some(BeatmapsetUpdate)
    case "BeatmapsetUploadEvent" => Some(BeatmapsetUpload)
    case "RankEvent" => Some(Rank)
    case "RankLostEvent" => Some(RankLost)
    case "UserSupportFirstEvent" => Some(UserSupportFirst)
    case "UserSupportAgainEvent" => Some(UserSupportAgain)
    case "UserSupportGiftEvent" => Some(UserSupportGift)
    case "UsernameChangeEvent" => Some(UsernameChange)
    case _ => None
  }

  /**
    `_Event.override_class(data)`: look up `data["type"]`, make it an
    `EventType` with `parse` (None when the value is no member), and take the
    table's class. There is no fallback class.
   */
  function OverrideClass(data: Dict<Json>, parse: Json -> Option<EventType>): (r: Result<string, DispatchError>)
    ensures !HasKey(data, "type") ==> r == Err(MissingType)
    ensures HasKey(data, "type") && parse(Get(data, "type").value).None? ==> r == Err(NotAMember(Get(data, "type").value))
    ensures r.Ok? <==> HasKey(data, "type") && parse(Get(data, "type").value).Some?
    ensures r.Ok? ==> ClassEvent(r.value) == parse(Get(data, "type").value)
  {
    match Get(data, "type")
    case None => Err(MissingType)
    case Some(v) =>
      match parse(v)
      case None => Err(NotAMember(v))
      case Some(t) =>
        EventClassRoundTrip(t);
        Ok(EventClass(t))
  }

  /** The class name determines the event type: the table is injective. */
  lemma EventClassRoundTrip(t: EventType)
    ensures ClassEvent(EventClass(t)) == Some(t)
  {
  }

  lemma EventClassInjective(a: EventType, b: EventType)
    ensures EventClass(a) == EventClass(b) <==> a == b
  {
    EventClassRoundTrip(a);
    EventClassRoundTrip(b);
  }

  datatype BeatmapsetEventType =
    | BeatmapOwnerChange | DiscussionDelete | DiscussionLock | DiscussionPostDelete | DiscussionPostRestore
    | DiscussionRestore | DiscussionUnlock | Disqualify | DisqualifyLegacy | GenreEdit | IssueReopen
    | IssueResolve | KudosuAllow | KudosuDeny | KudosuGain | KudosuLost | KudosuRecalculate | LanguageEdit
    | Love | Nominate | NominateModes | NominationReset | Qualify
      /** `RANK`, named apart from `EventType.Rank`. */
    | RankSet | RemoveFromLoved | NsfwToggle

  /** The table of `override_types`; `None` for the four members whose entries are commented out. */
  function CommentType(t: BeatmapsetEventType): Option<TypeDesc> {
    match t
    case BeatmapOwnerChange => Some(Class("BeatmapsetEventCommentOwnerChange"))
    case DiscussionDelete => Some(Class("BeatmapsetEventCommentNoPost"))
    case DiscussionLock => None
    case DiscussionPostDelete => Some(Class("BeatmapsetEventComment"))
    case DiscussionPostRestore => Some(Class("BeatmapsetEventComment"))
    case DiscussionRestore => Some(Class("BeatmapsetEventCommentNoPost"))
    case DiscussionUnlock => None
    case Disqualify => Some(Class("BeatmapsetEventComment"))
    case DisqualifyLegacy => None
    case GenreEdit => Some(Generic("BeatmapsetEventCommentChange", PrimT(StrP)))
    case IssueReopen => Some(Class("BeatmapsetEventComment"))
    case IssueResolve => Some(Class("BeatmapsetEventComment"))
    case KudosuAllow => Some(Class("BeatmapsetEventCommentNoPost"))
    case KudosuDeny => Some(Class("BeatmapsetEventCommentNoPost"))
    case KudosuGain => Some(Class("BeatmapsetEventCommentKudosuChange"))
    case KudosuLost => Some(Class("BeatmapsetEventCommentKudosuChange"))
    case KudosuRecalculate => Some(Class("BeatmapsetEventCommentKudosuRecalculate"))
    case LanguageEdit => Some(Generic("BeatmapsetEventCommentChange", PrimT(StrP)))
    case Love => Some(NoneT)
    case Nominate => Some(Class("BeatmapsetEventCommentNominate"))
    case NominateModes => None
    case NominationReset => Some(Class("BeatmapsetEventComment"))
    case Qualify => Some(NoneT)
    case RankSet => Some(NoneT)
    case RemoveFromLoved => Some(Class("BeatmapsetEventCommentLovedRemoval"))
    case NsfwToggle => Some(Generic("BeatmapsetEventCommentChange", PrimT(BoolP)))
  }

  /**
    `BeatmapsetEvent.override_types()`: the event's `type` made a member with
    `parse`, then the field-name to type map for `comment`.
   */
  function OverrideTypes(eventType: Json, parse: Json -> Option<BeatmapsetEventType>): (r: Result<Dict<TypeDesc>, DispatchError>)
    ensures r.Ok? ==> Keys(r.value) == ["comment"]
    ensures parse(eventType).None? ==> r == Err(NotAMember(eventType))
    ensures parse(eventType).Some? ==> (r.Ok? <==> CommentType(parse(eventType).value).Some?)
    ensures r.Err? && parse(eventType).Some? ==> r.error == NoEntry
  {
    match parse(eventType)
    case None => Err(NotAMember(eventType))
    case Some(t) =>
      match CommentType(t)
      case None => Err(NoEntry)
      case Some(c) => Ok([("comment", c)])
  }

  /** The members with no entry are exactly the four whose entries are commented out. */
  lemma NoEntryMembers(t: BeatmapsetEventType)
    ensures CommentType(t).None? <==> t in {DiscussionLock, DiscussionUnlock, DisqualifyLegacy, NominateModes}
  {
  }

  /** Exactly the love, qualify and rank events declare their comment as `None`. */
  lemma NullComments(t: BeatmapsetEventType)
    ensures CommentType(t) == Some(NoneT) <==> t in {Love, Qualify, RankSet}
  {
  }

  /**
    Exactly the genre and language edits carry a change of strings, and
    only the NSFW toggle a change of bools.
   */
  lemma ChangeComments(t: BeatmapsetEventType)
    ensures CommentType(t) == Some(Generic("BeatmapsetEventCommentChange", PrimT(StrP))) <==> t in {GenreEdit, LanguageEdit}
    ensures CommentType(t) == Some(Generic("BeatmapsetEventCommentChange", PrimT(BoolP))) <==> t == NsfwToggle
  {
  }

  /** The comment types the table names are all comment dataclasses (or `None`), never the event class itself. */
  lemma CommentTypesAreComments(t: BeatmapsetEventType)
    requires CommentType(t).Some? && CommentType(t).value != NoneT
    ensures var c := CommentType(t).value;
      (c.Class? || c.Generic?) && |"BeatmapsetEventComment"| <= |c.name| &&
      c.name[..|"BeatmapsetEventComment"|] == "BeatmapsetEventComment"
  {
  }
}
