# ossapi, modelled in Dafny

This project models the core of ossapi, a Python wrapper for the osu! web
API, in two parts.

**The v2 client (`ossapi/ossapiv2.py`).** It turns a decoded JSON response
into model instances, guided only by the type annotations of the model
classes. The conversion goes through these steps:

- `_get` rejects a response that is a single-key `{"error": ...}` object.
- `_instantiate_type` unwraps an `Optional`, checks primitive values,
  builds base types (enums, datetimes, mods), and walks lists of models.
- `_instantiate` renames `@` keys, fills missing optional attributes with
  `None` and calls the constructor.
- `_resolve_annotations` converts each attribute in turn.

In the other direction, `_format_params` and `_format_value` flatten query
parameters before they are sent.

**The v1 client (`ossapi/ossapi.py`, `ossapi/endpoints.py`).** It checks
parameters against the endpoint table and composes the request URL.

**Around these:**

- the enumerations of `ossapi/enums.py`, including the alternate spellings
  of `RankStatus._missing_`
- the list-to-flag fold of `ListEnumMeta` (`ossapi/utils.py`)
- the concrete model declarations of `ossapi/models.py` and the records
  of `ossapi/enums.py`
- the two discriminator tables `_Event.override_class` and
  `BeatmapsetEvent.override_types`

**How the model represents Python.**

- A JSON value is `Json`.
- A Python dict is an association list (`Dicts`) with dict semantics:
  assignment updates in place or appends, and `del` removes.
- Exceptions become `Err` values of `Result`.
- A conversion that Python answers with `None` ("keep the raw value") is
  `Ok(None)`.
- Termination of the recursive walk is proved with a size measure on the
  JSON value.

Modules:

| module | file | what it holds |
|---|---|---|
| `Wrappers` | wrappers.dfy | `Option`, `Result` |
| `Dicts` | dicts.dfy | ordered dicts with Python semantics |
| `Json` | json.dfy | JSON values, Python numeric equality, the `@` to `_` rename |
| `Bits` | bits.dfy | bitwise OR on naturals, bit by bit |
| `Enums` | enums.dfy | `Enum(value)` lookup, `_missing_` alternates, the `ListEnumMeta` fold |
| `OsuEnums` | osu_enums.dfy | the four enumerations of enums.py |
| `Types` | types.dfy | annotations, class declarations, the `_is_*` predicates |
| `OsuSchema` | osu_schema.dfy | the model classes of models.py and the records of enums.py |
| `Materialize` | materialize.dfy | `_get`'s check, `_instantiate_type`, `_instantiate`, `_resolve_annotations` |
| `MaterializeProps` | materialize_props.dfy | what the materialiser guarantees |
| `OsuModels` | osu_models.dfy | facts about the concrete schema |
| `Format` | format.dfy | `_format_params`, `_format_value` |
| `FormatProps` | format_props.dfy | what parameter formatting guarantees |
| `Dispatch` | dispatch.dfy | `override_class`, `override_types` |
| `Endpoints` | endpoints.dfy | the v1 endpoint table |
| `V1` | v1.dfy | `_check_parameters`, `_extend_url`, the `get_*` URL |

## Model

| member | source | states |
|---|---|---|
| MaterializeProps.CheckResponseSpec | ossapi/ossapiv2.py:137-144 | A response is rejected exactly when it has no length, or has length 1 and contains "error". An accepted response goes on unchanged. A one-key `{"error": x}` object yields the API error carrying `x`. |
| Materialize.CheckResponse | ossapi/ossapiv2.py:141-144 | An accepted response is passed on unchanged. A string response is always accepted, since `"error" in s` is a substring test and only a one-character string has length 1. |
| Materialize.Materialize | ossapi/ossapiv2.py:133-144 | A response `_get` rejects never materialises. An accepted one is converted against the declared type with no instance context. |
| Materialize.InstantiateType | ossapi/ossapiv2.py:240-303 | A successful conversion either asks to keep the raw value or yields a value built from it, never the raw value itself. |
| Materialize.Instantiate | ossapi/ossapiv2.py:305-333 | A success means no payload key collides with `self` or `type_`. It is an instance of the requested class: of a model class with no generic argument, or of a generic alias with its argument recorded. |
| Materialize.FirstReserved | ossapi/ossapiv2.py:305 | Finds the first payload key, in payload order, that is `self` or `type_`, and none exactly when no key is. |
| Materialize.Construct | ossapi/ossapiv2.py:333 | A constructed instance is of the given class and carries the class's hints and the given generic argument. `Cursor` accepts any keywords and keeps them all. An enumeration cannot be constructed from keywords. |
| Materialize.RenameKeys | ossapi/ossapiv2.py:320-321 | Renaming never adds an entry: a clash after renaming merges two entries into one. The exact result is stated by `MaterializeProps.RenameExact`. |
| Materialize.FillOptional | ossapi/ossapiv2.py:329-332 | Filling keeps the keywords as a prefix and appends only null values. |
| Materialize.ResolveAttrs | ossapi/ossapiv2.py:218-236 | A successful resolution has exactly one entry per attribute. |
| Materialize.ResolveAttr | ossapi/ossapiv2.py:222-236 | A resolved attribute holds its raw value or a converted value that is truthy. |
| MaterializeProps.OptionalUnwrappedOnce | ossapi/ossapiv2.py:248-254 | Converting against `Optional[T]` is the same as converting against `T`, for any `T` that is not itself optional (nor a one-armed union, which `typing` never builds). |
| MaterializeProps.NestedOptionalFlattened | ossapi/ossapiv2.py:248-254 | `Optional[Optional[T]]` is the annotation `Optional[T]`, as `typing` flattens unions, so it converts like `T`. |
| MaterializeProps.WideOptionalRejected | ossapi/ossapiv2.py:248-251 | A union of three distinct arms with `None` second passes `_is_optional` and then fails the two-argument assertion, for every value. |
| MaterializeProps.PrimitiveField | ossapi/ossapiv2.py:258-261 | A value declared int, float, str or bool is never converted. It is accepted exactly when it is compatible, and otherwise raises a type mismatch, with or without `Optional`. |
| Types.CompatibleTable | ossapi/ossapiv2.py:367-374 | The full compatibility table: an int is accepted for int and float, a bool for int, float and bool (bool is an int subtype), a float only for float, a str only for str. |
| Types.ClassesDisjoint | ossapi/ossapiv2.py:335-365 | The classifications never overlap. A primitive is neither base nor model, a base type is not a model, and an optional union is none of the others. |
| MaterializeProps.UnconvertedKinds | ossapi/ossapiv2.py:292-297 | `Any`, a bare type variable and `None` as annotations are left unconverted for any value. |
| MaterializeProps.BaseBuiltOnce | ossapi/ossapiv2.py:263-265 | For an enum, `Datetime`, standard `datetime` or Mod annotation the result is exactly the base constructor applied to the value, or its failure, with no further walk. |
| MaterializeProps.StdDatetimeRefused | ossapi/ossapiv2.py:263-265 | The standard `datetime` is a base type, yet calling it with a single JSON value raises, so every value fails under it, optional or not. |
| MaterializeProps.EnumField | ossapi/ossapiv2.py:263-265 | An enum-annotated value converts exactly when the enumeration accepts it, and becomes the member the enumeration finds. |
| MaterializeProps.ZeroFlagKeptRaw | ossapi/ossapiv2.py:232-235 | A flag attribute holding 0 or `false` converts to the empty combination, which is falsy, so the attribute keeps its raw value. |
| MaterializeProps.CollectPointwise | ossapi/ossapiv2.py:281-290 | Collecting results in order succeeds exactly when every element succeeds. The collected list has one value per element, in the same order. |
| MaterializeProps.EntriesCollect | ossapi/ossapiv2.py:281-290 | The list walk is the in-order collection of the per-entry conversions. |
| MaterializeProps.EntriesPointwise | ossapi/ossapiv2.py:281-290 | A list of entries converts exactly when each entry does. Element i of the result is the conversion of entry i. |
| MaterializeProps.ModelListPreservesOrder | ossapi/ossapiv2.py:267-290 | A successfully converted list of models has one instance per payload entry, in payload order, each the conversion of its entry. |
| MaterializeProps.PlainListUntouched | ossapi/ossapiv2.py:267-268 | A list whose element type is neither a model nor a type variable is left unconverted. |
| MaterializeProps.TypeVarListBinding | ossapi/ossapiv2.py:272-280 | A list of a type variable takes its element type from the instance's generic argument. Without one, conversion fails. With one, it is the same as a list of that argument. |
| MaterializeProps.RenameStep | ossapi/ossapiv2.py:320-321 | Each pass of the pop-and-reinsert loop moves one key to the end under its renamed name. When no two keys clash after renaming, the loop ends with every key renamed, in original order. |
| MaterializeProps.RenameExact | ossapi/ossapiv2.py:320-321 | When renaming cannot make keys clash, the loop yields every entry with `@` replaced by `_` in its key, in the original order, and no key keeps an `@`. |
| MaterializeProps.RenameIdentity | ossapi/ossapiv2.py:320-321 | A payload without `@` in any key, and without duplicate keys, is left exactly as it was. |
| Json.ReplaceAtIdempotent | ossapi/ossapiv2.py:321 | `str.replace("@", "_")` leaves no `@`, is idempotent, and is the identity on strings without `@`. |
| MaterializeProps.FillSpec | ossapi/ossapiv2.py:329-332 | Filling optionals keeps the payload as a prefix. It appends only null values, each for a missing attribute whose annotation is optional. Afterwards every optional attribute is present. |
| OsuModels.FillNothingOptional | ossapi/ossapiv2.py:329-332 | A class with no optional annotation gets no filled-in attributes. |
| MaterializeProps.ConstructDataclass | ossapi/ossapiv2.py:333 | Constructing a dataclass succeeds exactly when every keyword is a field and every field is given. The attributes then follow field order with the given values. An unknown keyword is an unexpected-argument error. |
| Materialize.FieldValues | ossapi/ossapiv2.py:333 | The constructed instance has the fields in declaration order, each holding the keyword value given for it. |
| MaterializeProps.InstantiateClass | ossapi/ossapiv2.py:305-333 | Payload keys `self` and `type_` collide with the method's own parameters, and the first of them in payload order is the one reported. For the attribute-agnostic `Cursor`, instantiation succeeds exactly when neither is present. A success carries the class's type hints and no generic argument. |
| MaterializeProps.InstantiateAlias | ossapi/ossapiv2.py:310-313 | A generic alias, for which the hint lookup raises `TypeError`, is constructed from the payload as is: no renaming, no filling, generic argument recorded. |
| MaterializeProps.ResolvePointwise | ossapi/ossapiv2.py:218-236 | Resolving an instance succeeds exactly when each attribute resolves. The keys and their order are kept, and each value is that attribute's own resolution. |
| MaterializeProps.ResolveOkPointwise | ossapi/ossapiv2.py:218-236 | The attribute loop completes exactly when no attribute's resolution raises. |
| MaterializeProps.ResolveKeysKept | ossapi/ossapiv2.py:218-236 | Resolution changes attribute values only, never the attribute names or their order. |
| MaterializeProps.ResolveValuesPointwise | ossapi/ossapiv2.py:218-236 | After a successful resolution, each attribute holds the result of resolving that attribute alone. |
| MaterializeProps.ResolveAttrOutcome | ossapi/ossapiv2.py:222-236 | An attribute ends up holding either its raw value or a converted value that is truthy, never a falsy conversion. `__orig_class__` and null attributes stay raw. Any other attribute fails exactly when it has no hint or its conversion fails, and a missing hint is a key error. |
| MaterializeProps.ResolveModelAttr | ossapi/ossapiv2.py:232-236 | An object attribute annotated with a model class, optional or not, fails exactly when instantiating that class fails, and otherwise becomes an instance of that class with no generic argument. |
| MaterializeProps.ResolvePrimitiveKept | ossapi/ossapiv2.py:232-235 | An attribute annotated with a primitive (optional or not) keeps its raw value when compatible and raises otherwise. |
| MaterializeProps.EmptyModelListKeptRaw | ossapi/ossapiv2.py:234-235 | An empty list of models converts to an empty, falsy list, so the raw empty list stays in place. |
| MaterializeProps.ModelInstance | ossapi/ossapiv2.py:296-303 | An object converted against a model class becomes an instance of that class with no generic argument. For a dataclass its attributes are the fields, in declaration order. Any value that is not an object fails the `**` unpacking. |
| MaterializeProps.ModelStep | ossapi/ossapiv2.py:296-303 | Converting an object against a model class is instantiating it, then resolving the attributes of the result against its hints. |
| MaterializeProps.ModelObjectMissing | ossapi/ossapiv2.py:305-333 | When the renamed payload has only field names and omits a required field, with every earlier field given or optional, conversion fails reporting that field as missing. |
| MaterializeProps.FillFirstMissing | ossapi/ossapiv2.py:329-333 | After filling, no key is unexpected, and the first absent field is the first required field the keywords do not give. |
| MaterializeProps.ModelObjectNullField | ossapi/ossapiv2.py:329-333 | In a successfully built instance, a field given as null, or optional and not given, is null. |
| MaterializeProps.FillNullField | ossapi/ossapiv2.py:329-332 | After filling, a field given as null, or optional and not given, holds null. |
| OsuModels.CursorNullOrAbsent | ossapi/models.py:22-26 | When a paginated response carries a null cursor, or none at all, the built instance's `cursor` attribute is null. |
| OsuModels.RecordDatetimesRefused | ossapi/enums.py:83-93 | `UserAccountHistory.timestamp` and `UserBadge.awarded_at` are annotated with the standard `datetime`, so any non-null value there fails to resolve. |
| Types.UndeclaredName | ossapi/models.py:9-18 | A name the walk reports as undeclared really has no declaration. A class annotation that passes has one. |
| Materialize.AsMapping | ossapi/ossapiv2.py:298 | `**value` succeeds exactly on a JSON object, and unpacks its own fields. |
| Materialize.Entries | ossapi/ossapiv2.py:282-283 | Iteration succeeds only on a list, or on an empty string or object, which yields nothing. |
| Materialize.RawAttrs | ossapi/ossapiv2.py:287-289 | An instance of a non-model entry keeps every attribute raw under its own name. |
| Materialize.FirstKeyNotIn | ossapi/ossapiv2.py:333 | Finds the first keyword that is not a field (or the first field no keyword supplies), and none exactly when every key is covered. |
| Format.FormatValue | ossapi/ossapiv2.py:167-172 | A datetime becomes a whole multiple of 1000 whose quotient is its whole seconds. An enum member becomes its value. Anything else passes through, and no datetime or enum is left. |
| FormatProps.EnumRoundTrip | ossapi/ossapiv2.py:170-171 | The value sent for an enum member looks up to the same member again. |
| FormatProps.FormatValueIdempotent | ossapi/ossapiv2.py:167-172 | Formatting an already formatted value changes nothing. |
| Format.FormatAll | ossapi/ossapiv2.py:151-153 | A list parameter's elements are each formatted, in order, with none dropped. |
| Format.AsList | ossapi/ossapiv2.py:148 | A value counts as a list exactly when it is a list, and yields its elements in order. |
| Format.Writes | ossapi/ossapiv2.py:147-162 | A list parameter writes `key[]` with its formatted elements. A cursor writes one `cursor[name]` entry per formatted attribute. A Mod writes one `key[]` entry. Anything else writes its formatted value under its own key. Every name written is the key, `key[]` or a `cursor[...]` name. |
| Format.PutAll | ossapi/ossapiv2.py:151-158 | Assigning entries one by one leaves only old entries and assigned ones. |
| Format.Step | ossapi/ossapiv2.py:147-164 | One iteration leaves only old entries and entries named after the parameter (`key`, `key[]` or `cursor[...]`). |
| Format.FormatEach | ossapi/ossapiv2.py:147-164 | After the loop over a snapshot, every entry is an old one or named after one of the snapshot's parameters. |
| Format.FormatParams | ossapi/ossapiv2.py:146-165 | Formatting invents no names: every key of the result is a parameter's own name, that name with `[]`, or a `cursor[...]` name. |
| FormatProps.PutAllGet | ossapi/ossapiv2.py:151-158 | After writing entries into a dict, a key holds its last written value, or its old value if none was written. |
| FormatProps.StepGet | ossapi/ossapiv2.py:147-164 | After one iteration, a key holds that iteration's effect on it (written, or deleted), or its old value. |
| FormatProps.FormatEachGet | ossapi/ossapiv2.py:146-165 | After the whole loop, each key holds the effect of the last iteration that touched it, or its original value. |
| FormatProps.LastTouch | ossapi/ossapiv2.py:147 | Finds the last parameter whose iteration affects a key, and none exactly when no iteration does. |
| FormatProps.PlainParamsInPlace | ossapi/ossapiv2.py:163-165 | Parameters with no list, cursor or Mod are formatted in place: same keys, same order, each value formatted. |
| FormatProps.PutAllFresh | ossapi/ossapiv2.py:157-158 | Writing entries under new keys appends them in order. |
| FormatProps.ReplaceKey | ossapi/ossapiv2.py:151-162 | Writing new entries and then deleting the parameter's own key leaves exactly the new entries. |
| FormatProps.SingleParam | ossapi/ossapiv2.py:146-165 | A single parameter is written and then, unless it is plain, deleted under its own key. |
| FormatProps.ListParam | ossapi/ossapiv2.py:148-154 | A list parameter is replaced by `key[]` holding its formatted elements. |
| FormatProps.ModParam | ossapi/ossapiv2.py:160-162 | A Mod parameter is replaced by `key[]` holding its decomposition, in order. |
| FormatProps.CursorKeyInjective | ossapi/ossapiv2.py:158 | Distinct cursor attributes are sent under distinct names. |
| FormatProps.CursorWrites | ossapi/ossapiv2.py:155-158 | A cursor with distinct attributes writes one `cursor[name]` entry per attribute, in order, all distinct and none under the cursor's own key. |
| FormatProps.CursorParam | ossapi/ossapiv2.py:155-159 | A cursor parameter is replaced by one `cursor[name]` entry per attribute, in attribute order, each formatted. |
| FormatProps.CursorExample | ossapi/ossapiv2.py:155-159 | A cursor on page 199 is sent as `cursor[page]=199`. |
| Enums.FindValue | ossapi/enums.py:21-51 | Finds the first member whose value equals the given one under Python equality, and none exactly when no member's does. |
| Enums.Lookup | ossapi/utils.py:15-16 | A lookup returns a member's value or, for a flag enumeration, the composite's integer value (a bool counts as 0 or 1, since Python's `bool` is an `int`). A value equal to a member's is always accepted as that member, and so is every composite of a flag enumeration. Failure is a not-a-member error. |
| Enums.LookupAlternate | ossapi/enums.py:37-50 | An alternate spelling that matches no member is looked up as the member it stands for. |
| Enums.Covered | ossapi/utils.py:15-16 | The bits the members within a value cover are bits of that value. |
| Enums.CoveredBit | ossapi/utils.py:15-16 | A bit is covered exactly when some positive member whose bits all lie within the value has it. |
| Enums.CompositeExactly | ossapi/utils.py:15-16 | A non-negative integer is a composite of a flag enumeration exactly when each of its bits belongs to a member whose bits all lie within it. |
| Enums.FlagZero | ossapi/utils.py:15-16 | 0 and `false` are accepted by every flag enumeration, as the empty combination. |
| Enums.NonFlagNoComposite | ossapi/utils.py:15-16 | An enumeration that is not a flag accepts only values that are its members' values. |
| Enums.Combine | ossapi/utils.py:25 | `a \| b` succeeds exactly on two non-negative integers of a flag enumeration, and its bits are exactly those of `a` and of `b`. Otherwise it is not combinable. |
| Enums.FoldOr | ossapi/utils.py:23-26 | The fold never reports an empty list. When at least one element was ORed in, the enumeration is a flag and the result a non-negative integer. |
| Enums.ParseList | ossapi/utils.py:20-26 | An empty list is exactly the case that fails at `next`. A list of two or more elements only succeeds for a flag enumeration, giving a non-negative integer. |
| Enums.Parse | ossapi/utils.py:18-26 | Only the empty list given to a list-enabled enumeration fails at `next`. A longer list succeeds only for a flag enumeration. |
| OsuEnums.RankStatusWord | ossapi/enums.py:37-50 | Each of the seven lowercase words gives the same member as its numeric code. |
| OsuEnums.RankStatusCodes | ossapi/enums.py:21-28 | Each code from -2 to 4 is a rank status. |
| OsuEnums.RankStatusNumbers | ossapi/enums.py:21-28 | A number (int, float or bool) is a rank status exactly when it equals one of -2 to 4. |
| OsuEnums.RankStatusOthers | ossapi/enums.py:30-51 | A value that is not a number is a rank status exactly when it is one of the seven lowercase words. |
| OsuEnums.RankStatusAccepts | ossapi/enums.py:21-51 | Both directions of what `RankStatus(value)` accepts: the numeric codes and the seven words, nothing else. |
| OsuEnums.RankStatusStringsAreNoValue | ossapi/enums.py:21-28 | No string equals a rank status value, so every string goes through the alternate table. |
| OsuEnums.PlainStringLookup | ossapi/enums.py:6-19 | For an enumeration of string values without alternates, a value is accepted exactly when it is one of the member values, and becomes itself. |
| OsuEnums.GameModeLookup | ossapi/enums.py:15-19 | `GameMode` accepts exactly "osu", "taiko", "fruits" and "mania". |
| OsuEnums.GameModeInjective | ossapi/enums.py:15-19 | Two raw values that give the same game mode are equal. |
| OsuEnums.ProfilePageLookup | ossapi/enums.py:6-13 | `ProfilePage` accepts exactly its seven page names. |
| OsuEnums.UserAccountHistoryTypeLookup | ossapi/enums.py:53-56 | `UserAccountHistoryType` accepts exactly "note", "restriction" and "silence". |
| Enums.FoldOrBits | ossapi/utils.py:20-26 | The OR fold succeeds exactly when every remaining element is accepted by the lookup (a member or a flag composite). A bit is set in the result exactly when it is set in the start or in some element's value. |
| Enums.ParseListBits | ossapi/utils.py:18-26 | A list is accepted exactly when it is non-empty and the lookup accepts every element (members and flag composites alike). The result's bits are exactly the union of the elements' bits. |
| Enums.ParseListOrderIrrelevant | ossapi/utils.py:18-26 | Two lists with the same elements, in any order and with any repetition, give the same flag value. |
| Enums.ParseNonList | ossapi/utils.py:18-19 | A value that is not a list is an ordinary lookup. |
| Enums.ParseSingletonAndEmpty | ossapi/utils.py:20-22 | A one-element list is the lookup of its element. An empty list fails at `next`. |
| Enums.ParseFlagsExample | ossapi/utils.py:4-7 | `[1, 8]` gives the combination of the flags 1 and 8, namely 9. |
| Bits.OrBit | ossapi/utils.py:25 | A bit of `a \| b` is set exactly when it is set in `a` or in `b`. |
| Bits.BitsDetermine | ossapi/utils.py:25 | Two naturals with the same bits are equal. |
| Bits.OrCommutative | ossapi/utils.py:25 | `\|` is commutative. |
| Bits.OrAssociative | ossapi/utils.py:25 | `\|` is associative. |
| Bits.OrIdempotent | ossapi/utils.py:25 | `a \| a` is `a`. |
| OsuModels.UserRecordsAreModels | ossapi/enums.py:64-106 | The user records (Country, Cover, ProfileBanner, UserAccountHistory, UserBadge, UserGroup) are walked as models, not built as base types. |
| OsuModels.BeatmapRecordsAreModels | ossapi/enums.py:59-62 | Failtimes and the beatmap records (Covers, Statistics, Availability, Hype, Nominations) are walked as models. |
| OsuModels.EnumsAreBase | ossapi/enums.py:6-56 | The four enumerations are base types and never models. |
| OsuModels.FailtimesFilled | ossapi/enums.py:59-62 | Both Failtimes fields are optional, so an empty payload is filled with two nulls. |
| OsuModels.FailtimesConstructed | ossapi/enums.py:59-62 | An empty Failtimes payload therefore constructs, with both fields null. |
| OsuModels.AvailabilityMissing | ossapi/enums.py:131-134 | An empty Availability payload is filled only with `more_information`, so construction fails on the missing `download_disabled`. |
| OsuModels.CommentVariantIds | ossapi/models.py:676-695 | The comment variants differ in which discussion ids are ints, `None`, or missing altogether. The change variant adds `old` and `new` after the inherited ids. |
| OsuModels.CursorFieldsNullable | ossapi/models.py:22-26 | `CursorT` is `Optional[Cursor]`, and each of the five paginated results (models.py lines 363, 377, 421, 653, 672) declares its `cursor` field with it, at the position the model records. |
| Dispatch.OverrideClass | ossapi/models.py:507-526 | A payload without `type` raises, and so does an unknown type. Otherwise the class chosen is the one whose event type is the payload's. |
| Dispatch.EventClassRoundTrip | ossapi/models.py:510-524 | Every event type has a class, and reading the event type back from that class gives it again. |
| Dispatch.EventClassInjective | ossapi/models.py:510-524 | Distinct event types get distinct classes. |
| Dispatch.OverrideTypes | ossapi/models.py:737-773 | The override maps only `comment`. An unknown type raises, and a member the table omits raises a key error. |
| Dispatch.NoEntryMembers | ossapi/models.py:741-765 | The members without an entry are exactly the four whose entries are commented out. |
| Dispatch.NullComments | ossapi/models.py:762-768 | Exactly love, qualify and rank events declare their comment as `None`. |
| Dispatch.ChangeComments | ossapi/models.py:753-770 | Exactly the genre and language edits carry a change of strings, and exactly the NSFW toggle a change of bools. |
| Dispatch.CommentTypesAreComments | ossapi/models.py:739-770 | Every non-`None` comment type is one of the comment dataclasses. |
| Endpoints.TableConsistent | ossapi/endpoints.py:2-36 | Every endpoint has a required group, and every required parameter is also a possible one. |
| Endpoints.ExtensionsDistinct | ossapi/endpoints.py:2-36 | No two endpoints share a URL extension. |
| Endpoints.BestAndRecentAlike | ossapi/endpoints.py:28-36 | User-best and user-recent accept the same parameters and differ only in extension. |
| V1.AnyGroupGiven | ossapi/ossapi.py:29-32 | Some group is satisfied exactly when every parameter of at least one group is given. |
| V1.FirstUnexpected | ossapi/ossapi.py:37-39 | Finds the first parameter the endpoint does not accept, and none exactly when all are accepted. |
| V1.CheckParameters | ossapi/ossapi.py:25-39 | Parameters pass exactly when some required group is given in full and every parameter is possible. The group check comes first, and a rejected key is really given and not possible. |
| V1.SingleGiven | ossapi/ossapi.py:31 | A one-parameter group is satisfied exactly when that parameter is given. |
| V1.PairGiven | ossapi/ossapi.py:31 | A two-parameter group is satisfied exactly when both are given. |
| V1.ReplayRequirement | ossapi/endpoints.py:18-21 | A replay request with acceptable keys passes exactly when it has both `b` and `u`, or `s`. |
| V1.BeatmapsRequirement | ossapi/endpoints.py:3-6 | A beatmaps request with acceptable keys passes exactly when it has any of `since`, `s`, `b`, `u`, `h`. |
| V1.MatchRequirement | ossapi/endpoints.py:8-11 | A match request passes exactly when it has `mp` and nothing else. |
| V1.UnknownKeyRejected | ossapi/ossapi.py:37-39 | Any parameter outside the endpoint's possible list makes the check fail. |
| V1.BestAndRecentChecked | ossapi/endpoints.py:28-36 | User-best and user-recent requests are validated identically. |
| V1.ExtendUrlAppends | ossapi/ossapi.py:41-47 | Extending a URL only appends to it: the result is the URL followed by the query of the non-`None` parameters. |
| V1.ExtendUrl | ossapi/ossapi.py:41-47 | The given URL is a prefix of the result, which is longer by exactly the length of the query of the non-`None` parameters. |
| V1.Present | ossapi/ossapi.py:44 | The `None` filter never adds parameters. |
| V1.QueryRoundTrip | ossapi/ossapi.py:41-47 | When no key contains `&` or `=` and no value contains `&`, splitting the appended query at `&` and `=` gives back exactly the non-`None` parameters, in order. |
| V1.QueryStartsWithSeparator | ossapi/ossapi.py:46 | The appended query is empty or starts with `&`, so it never runs into the key. |
| V1.RequestUrl | ossapi/ossapi.py:62-116 | A request URL is produced exactly when the parameters pass the check, and it starts with the base URL, the endpoint's extension and the key. |
| V1.NoneSatisfiesButIsDropped | ossapi/ossapi.py:29-46 | A `None` value satisfies a required group yet is left out of the URL. |
| V1.UserRequestExample | ossapi/ossapi.py:94-100 | `get_user` with `u=tybug2, m=0` requests `.../get_user?k=KEY&u=tybug2&m=0`. |
| Dicts.GetPut | ossapi/ossapiv2.py:151 | After `d[k] = v`, `k` holds `v` and every other key is unchanged. |
| Dicts.GetDelete | ossapi/ossapiv2.py:154 | After `del d[k]`, `k` is absent and every other key is unchanged. |

## Left out

- HTTP, OAuth, token storage, the requests session, and `_process_url`: these are I/O. The model starts from the decoded JSON response and stops at the URL or parameter dict sent.
- The v2 endpoint methods (`user`, `beatmap`, `search`, ...): each only chooses a URL and a declared type and then calls `_get`, which is modelled as `Materialize.Materialize`.
- Logging: it has no effect on results.
- `Datetime(value)` and `Mod(value)`: `ossapi.utils.Datetime` and `ossapi.mod` are not part of this model. They are the `mkDatetime` and `mkMod` parameters of `Env`. A datetime is represented by its whole seconds since the epoch. The standard `datetime`, by contrast, is modelled: called with one value it always raises.
- `Mod.decompose()` is a parameter (`decompose`) for the same reason.
- `EventType` and `BeatmapsetEventType`: their declarations are not part of this model. The tables are modelled over their members, and turning a raw `type` value into a member is a parameter.
- The dispatch tables are modelled on their own. The materialiser modelled here (`_instantiate_type`, `_instantiate`, `_resolve_annotations`) does not call `override_class` or `override_types`, so it does not consult them.
- Classes that models.py imports but whose declarations are not part of this model (`Kudosu`, `Grade`, `EventUser`, `PlayStyles`, ...) are named and undeclared. Converting a value against one of them is an `UnknownClass` error rather than whatever the real class would do.
- The side effect of `_format_params` on a cursor's own `__dict__` (the recursive call formats the cursor's attributes in place) is not modelled: the model is pure and returns only the outer dict.
- `Format.FormatValue`: models `int(value.timestamp())` on a datetime already held as whole seconds, so sub-second truncation toward zero is outside the model.
- Floating-point values are kept as `real`, only so that `1 == 1.0 == True` in enum lookup and the int-for-float rule can be modelled. There is no float arithmetic.
- `V1.RequestUrl`: builds the base as a plain concatenation of prefix, extension, `?k=` and key. The source applies `str.format` to a template that already contains the key, which agrees only when the key has no `{` or `}`.
- V1 parameter values are given as the strings `str()` would produce. Duplicate keys in a v1 parameter dict are allowed by the model, although a Python dict cannot have them; no lemma depends on their absence.
- `NoneT`: a non-null value for an attribute annotated `None` is not rejected, matching the source, which never checks it.
- A list of a type variable bound to a non-model class is instantiated like a model list but its entries are not resolved further, as in the source. `Instantiate` reports `NotAModel` where Python would call an arbitrary constructor.
- Enum members are represented by their values, so two members with equal values (Python aliases) are indistinguishable, as they are in Python.
- A decoded JSON object is an association list, which could hold a key twice. `Get` reads the first occurrence, whereas `json.loads` keeps the last. Lemmas that depend on it require `UniqueKeys`; the materialiser itself does not exclude duplicate keys.
- Enums.Lookup: follows the `Flag._missing_` of Python 3.8 to 3.10, which accepts a non-negative integer exactly when the positive members within it cover all its bits. A JSON bool is accepted like the integer 0 or 1, and the pseudo-member it gives is represented by that integer, whereas Python keeps the bool as its value. Negative flag values, `IntFlag` (which accepts any integer), and the pseudo-member's name are not modelled.
