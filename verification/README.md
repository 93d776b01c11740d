# Jonline core, modelled in Dafny

Jonline is a federated social network with a Rust backend and a TypeScript (Tamagui/Redux) frontend. This project models the parts of it that decide things, as pure functions with proved contracts:

- **Backend.**
  - The opaque ID codec turns an internal `i64` key into the public Base58 identifier and back (`IdMarshaling`). It rests on a model of Base58 with the Bitcoin alphabet (`Base58`, `Radix`).
  - The permission checks guard the RPCs (`Permissions`, `PermissionValidation`).
  - The username, password, e-mail and phone validators (`FieldValidation`).
- **Generated API bindings.** These are the enum JSON mappers, the `createBase…` defaults, `fromPartial` and part of `toJSON` for `server_configuration.proto`, `users.proto` and `posts.proto` (`EnumJson`, `ServerConfigurationProto`, `UsersProto`, `PostsProto`).
- **Frontend store.**
  - Pagination selectors over the posts, events and groups slices (`Pagination`).
  - The servers slice and the accounts slice (`Servers`, `Accounts`), on top of a model of Redux Toolkit's entity adapter and its splice-based reordering (`EntityAdapter`).
- **Calendar.** The `mode` helper of the events calendar (`CalendarMode`).

Modelling choices:

- **Integers.** `i64` is an integer subtype. Rust's `+`/`-` wrap around, as in a release build.
- **Byte order.** `to_ne_bytes` is pinned to little-endian.
- **String lengths.** These are UTF-8 byte counts, as Rust's `str::len` gives them.
- **TypeScript values.** `undefined` is `Option.None`. Enum-typed fields hold numbers, as they do in TypeScript.
- **Store state.** Every store reducer is a function from the old state to the new one. The Redux state invariant is the predicate `Keyed`: each entity is stored under its own `serverID`/`accountID` key and the id list has no duplicates. The initial state establishes `Keyed`, and every reducer that changes the entity store requires it and preserves it. The reducers that only set the current server or account, or the pinned servers, leave the store untouched.

Status codes of the permission checks: the insufficient-permission failures of `validate_permission`, `validate_any_permission` and their group variants carry `InvalidArgument` (permission_validation.rs:48-51 and 72-75). Only the two membership-required failures carry `PermissionDenied` (permission_validation.rs:14 and 27).

## Model

| member | source | states |
|---|---|---|
| IdMarshaling.Wrap | backend/src/marshaling/id_marshaling.rs:8 | Two's-complement truncation to 64 bits: the identity inside the `i64` range, minus or plus 2^64 one range beyond it |
| IdMarshaling.SubAddOffset | backend/src/marshaling/id_marshaling.rs:8 | Subtracting `OFFSET` with wrap-around undoes adding it, for every key including those that overflow |
| IdMarshaling.AddSubOffset | backend/src/marshaling/id_marshaling.rs:27 | Adding `OFFSET` with wrap-around undoes subtracting it, for every raw value |
| IdMarshaling.LeBytesRoundTrip | backend/src/marshaling/id_marshaling.rs:8 | The 8-byte layout of an `i64` and its reading back are mutually inverse |
| IdMarshaling.ToDbId | backend/src/marshaling/id_marshaling.rs:18-28 | A successfully decoded key is never `-OFFSET`: a raw value of 0 is refused |
| IdMarshaling.ToDbIdOrErr | backend/src/marshaling/id_marshaling.rs:30-35 | Passes a decoded key through; turns every decoding failure into `InvalidArgument` with message `invalid_id_<field>` |
| IdMarshaling.RoundTrip | backend/src/marshaling/id_marshaling.rs:7-28 | `to_db_id(to_proto_id(k)) == k` holds exactly when `k != -OFFSET`; for `-OFFSET` decoding fails |
| IdMarshaling.DecodedIdIsCanonical | backend/src/marshaling/id_marshaling.rs:18-28 | Any string accepted as key `k` is exactly the encoding of `k`: there are no alternative spellings of an id |
| IdMarshaling.ToProtoId | backend/src/marshaling/id_marshaling.rs:7-10 | The identifier uses only Base58 characters and decodes back to the 8-byte layout of the shifted key |
| IdMarshaling.ToProtoIdInjective | backend/src/marshaling/id_marshaling.rs:7-10 | Distinct keys get distinct public identifiers |
| IdMarshaling.ZeroRawValueRejected | backend/src/marshaling/id_marshaling.rs:20-26 | An 8-byte decoding whose value is 0 fails with `InvalidCharacter('0', 0)` |
| IdMarshaling.WrongLengthRejected | backend/src/marshaling/id_marshaling.rs:20-26 | A decoding of any length other than 8 is replaced by zero bytes and so fails with `InvalidCharacter('0', 0)` |
| IdMarshaling.InvalidCharacterRejected | backend/src/marshaling/id_marshaling.rs:19 | A string with a non-Base58 character fails with the Base58 decoder's own error |
| IdMarshaling.DecodedValueIsRawMinusOffset | backend/src/marshaling/id_marshaling.rs:19-27 | An accepted id decodes to 8 bytes whose nonzero value, minus `OFFSET` with wrap-around, is the key |
| IdMarshaling.EncodeWithoutOverflow | backend/src/marshaling/id_marshaling.rs:8-9 | Below the overflow boundary the identifier is Base58 of the little-endian bytes of `k + 7`, with no wrap-around |
| IdMarshaling.ToDbIdOrErrRoundTrip | backend/src/marshaling/id_marshaling.rs:30-35 | `to_db_id_or_err` returns the key for every encoded key except `-OFFSET`, and the field error for that one |
| Base58.Encode | backend/src/marshaling/id_marshaling.rs:9 | Encoding produces only characters of the Bitcoin alphabet |
| Base58.Decode | backend/src/marshaling/id_marshaling.rs:19 | Decoding fails exactly when some character lies outside the alphabet |
| Base58.AlphabetAgrees | backend/src/marshaling/id_marshaling.rs:9 | The digit table is the 58-character Bitcoin alphabet, in order |
| Base58.DecodeEncode | backend/src/marshaling/id_marshaling.rs:9-19 | Decoding an encoding gives the bytes back, leading zero bytes included |
| Base58.EncodeDecode | backend/src/marshaling/id_marshaling.rs:9-19 | Every string that decodes is the encoding of its decoding: the alphabet and the leading-'1' rule leave no second spelling |
| Base58.EncodeInjective | backend/src/marshaling/id_marshaling.rs:9 | Distinct byte strings have distinct encodings |
| Base58.DecodeShape | backend/src/marshaling/id_marshaling.rs:19 | A decoding of a valid string starts with one zero byte per leading '1', followed by a byte string without a leading zero |
| Radix.ToDigits | backend/src/marshaling/id_marshaling.rs:9 | The digits produced are in range, have no leading zero, and denote the number converted |
| Radix.ToDigitsFromDigits | backend/src/marshaling/id_marshaling.rs:19 | Converting minimal digits to a number and back gives the same digits |
| Permissions.NameInjective | backend/src/rpcs/validations/permission_validation.rs:50 | Distinct permissions have distinct `as_str_name` names |
| Permissions.FromName | backend/src/rpcs/validations/permission_validation.rs:43 | A stored name maps to the permission with that name, or to nothing when no permission has it |
| Permissions.FromNameOfName | backend/src/rpcs/validations/permission_validation.rs:43 | Looking up a permission's own name gives the permission back |
| Permissions.ToProtoPermissions | backend/src/rpcs/validations/permission_validation.rs:43 | A permission is in the converted list exactly when its name is stored; unknown names are dropped |
| PermissionValidation.ValidateAnyPermission | backend/src/rpcs/validations/permission_validation.rs:39-54 | Passes exactly when some requested permission is held; otherwise `InvalidArgument` naming the first requested permission |
| PermissionValidation.ValidatePermission | backend/src/rpcs/validations/permission_validation.rs:32-37 | Passes exactly when the permission or `ADMIN` is held; otherwise `permission_<name>_required` |
| PermissionValidation.ValidateAnyGroupPermission | backend/src/rpcs/validations/permission_validation.rs:63-78 | The membership-scoped check: passes exactly when the membership holds one requested permission; otherwise `group_permission_<first>_required` |
| PermissionValidation.ValidateGroupPermission | backend/src/rpcs/validations/permission_validation.rs:56-61 | Passes exactly when the membership holds the permission or `ADMIN` |
| PermissionValidation.ValidateGroupAdmin | backend/src/rpcs/validations/permission_validation.rs:6-17 | A global admin passes. Otherwise the membership's `ADMIN` is checked, and without a membership the result is `PermissionDenied("admin_group_membership_required")` |
| PermissionValidation.ValidateGroupUserModerator | backend/src/rpcs/validations/permission_validation.rs:19-30 | Passes whenever the group-admin check does. Otherwise the membership must hold `MODERATE_USERS` or `ADMIN`, and without a membership the result is `moderator_group_membership_required` |
| PermissionValidation.AdminSupremacy | backend/src/rpcs/validations/permission_validation.rs:6-37 | A global admin passes every permission check and both group checks, whatever the membership |
| PermissionValidation.GroupUserModeratorPasses | backend/src/rpcs/validations/permission_validation.rs:19-30 | The moderator check passes if and only if the user is a global admin or the membership holds `ADMIN` or `MODERATE_USERS` |
| PermissionValidation.GlobalCheckFirst | backend/src/rpcs/validations/permission_validation.rs:10-11 | When the global admin check passes, the membership is never consulted |
| PermissionValidation.MembershipErrorsDistinct | backend/src/rpcs/validations/permission_validation.rs:14-27 | The two membership-required failures are `PermissionDenied` and differ from each other; a failing admin check with a membership is `InvalidArgument` |
| PermissionValidation.PermissionErrorsDistinct | backend/src/rpcs/validations/permission_validation.rs:48-51 | A global and a group insufficient-permission failure for the same permission carry different messages |
| PermissionValidation.Monotonic | backend/src/rpcs/validations/permission_validation.rs:39-78 | Granting more stored permissions never turns a passing check into a failing one |
| PermissionValidation.GroupChecksMonotonic | backend/src/rpcs/validations/permission_validation.rs:6-30 | The same monotonicity for the group-admin and moderator checks, in user and membership permissions together |
| FieldValidation.ValidateLength | backend/src/rpcs/validations/field_validation.rs:7 | Passes exactly when the UTF-8 length lies within the bounds; otherwise a length failure naming the field and the bounds |
| FieldValidation.ValidateAllWordChars | backend/src/rpcs/validations/field_validation.rs:8 | Passes exactly when every character is a word character |
| FieldValidation.ValidateReservedValues | backend/src/rpcs/validations/field_validation.rs:11 | Passes exactly when the value is not in the reserved list |
| FieldValidation.ValidateUsername | backend/src/rpcs/validations/field_validation.rs:6-12 | Passes exactly when the name is 1 to 47 bytes long, all word characters, and not one of the eleven reserved route names |
| FieldValidation.UsernameFirstFailure | backend/src/rpcs/validations/field_validation.rs:6-12 | The checks run in order and the first failure is reported: length, then characters, then reserved names |
| FieldValidation.EventsIsReserved | backend/src/rpcs/validations/field_validation.rs:11 | "events" is refused as a reserved value |
| FieldValidation.AliceIsAccepted | backend/src/rpcs/validations/field_validation.rs:6-12 | A short word-character name outside the reserved list is accepted |
| FieldValidation.ValidatePassword | backend/src/rpcs/validations/field_validation.rs:14-16 | Passes exactly when the password is 8 to 128 bytes long |
| FieldValidation.ValidateEmail | backend/src/rpcs/validations/field_validation.rs:18-23 | An absent e-mail passes; a present one must be 1 to 255 bytes long |
| FieldValidation.ValidatePhone | backend/src/rpcs/validations/field_validation.rs:24-29 | An absent phone passes; a present one must be 1 to 128 bytes long |
| FieldValidation.EmptyIsNotAbsent | backend/src/rpcs/validations/field_validation.rs:18-29 | An empty e-mail or phone fails, while an absent one passes |
| FieldValidation.Utf8Len | backend/src/rpcs/validations/field_validation.rs:7 | The byte length is between one and four bytes per character, and equals the character count exactly for ASCII text |
| FieldValidation.Utf8LenAppend | backend/src/rpcs/validations/field_validation.rs:7 | Byte length is additive over concatenation |
| EnumJson.FromJson | frontends/tamagui/packages/api/generated/server_configuration.ts:24-40 | The value of the first entry whose number or name matches the input, and `UNRECOGNIZED` (-1) when none does |
| EnumJson.ToJson | frontends/tamagui/packages/api/generated/server_configuration.ts:42-54 | The name of the declared value, and "UNRECOGNIZED" for any undeclared number |
| EnumJson.FromJsonToJson | frontends/tamagui/packages/api/generated/server_configuration.ts:24-54 | Every declared value survives `fromJSON(toJSON(v))` and is accepted as a number |
| EnumJson.ToJsonFromJson | frontends/tamagui/packages/api/generated/server_configuration.ts:24-54 | A recognized name read back and written again is the same name |
| EnumJson.FromJsonOfEntry | frontends/tamagui/packages/api/generated/server_configuration.ts:24-40 | In a table with distinct numbers and names, each entry's number and name both map to that entry |
| EnumJson.NoMatchIsUnrecognized | frontends/tamagui/packages/api/generated/server_configuration.ts:36-38 | The default branch: input matching no entry gives `UNRECOGNIZED` |
| EnumJson.NumberNotDeclared | frontends/tamagui/packages/api/generated/posts.ts:43-93 | A number outside the table is read as `UNRECOGNIZED` and written as "UNRECOGNIZED" |
| EnumJson.UnknownIsUnrecognized | frontends/tamagui/packages/api/generated/server_configuration.ts:24-54 | Other JSON kinds, undeclared numbers, unknown names and the catch-all -1/"UNRECOGNIZED" all read and write as `UNRECOGNIZED` |
| ServerConfigurationProto.AuthenticationFeatureRoundTrip | frontends/tamagui/packages/api/generated/server_configuration.ts:24-54 | The three authentication features round-trip through their names; anything else is `UNRECOGNIZED` |
| ServerConfigurationProto.PrivateUserStrategyRoundTrip | frontends/tamagui/packages/api/generated/server_configuration.ts:75-105 | The three private-user strategies round-trip through their names; anything else is `UNRECOGNIZED` |
| ServerConfigurationProto.WebUserInterfaceRoundTrip | frontends/tamagui/packages/api/generated/server_configuration.ts:122-152 | The three web interfaces round-trip through their names; anything else is `UNRECOGNIZED` |
| ServerConfigurationProto.CreateBaseServerConfiguration | frontends/tamagui/packages/api/generated/server_configuration.ts:380-395 | The default configuration: empty permission and feature lists, absent nested messages, strategy 0 |
| ServerConfigurationProto.ServerConfigurationFromPartial | frontends/tamagui/packages/api/generated/server_configuration.ts:659-688 | Present fields are kept, absent lists become empty, an absent strategy becomes 0, a present CDN config goes through its own `fromPartial` |
| ServerConfigurationProto.FromPartialRoundTrip | frontends/tamagui/packages/api/generated/server_configuration.ts:659-688 | `fromPartial` returns a complete configuration unchanged and turns `{}` into the default |
| ServerConfigurationProto.CreateBaseExternalCdnConfig | frontends/tamagui/packages/api/generated/server_configuration.ts:691-700 | The default CDN config: empty hosts, both flags false, no allowlists |
| ServerConfigurationProto.ExternalCdnConfigFromPartial | frontends/tamagui/packages/api/generated/server_configuration.ts:820-829 | Present CDN fields are kept, absent ones take the defaults |
| ServerConfigurationProto.ExternalCdnConfigFromPartialRoundTrip | frontends/tamagui/packages/api/generated/server_configuration.ts:820-829 | A complete CDN config is unchanged by `fromPartial`; `{}` becomes the default |
| ServerConfigurationProto.ServerConfigurationToJson | frontends/tamagui/packages/api/generated/server_configuration.ts:615-654 | Empty lists and strategy 0 are omitted from the JSON; the strategy and features that are written are their names; a written permission list is the message's list; the five settings messages, server info and CDN config are written exactly when defined, unchanged |
| ServerConfigurationProto.ToJsonEmptyIffDefault | frontends/tamagui/packages/api/generated/server_configuration.ts:615-654 | `toJSON` yields the empty object exactly for the default configuration |
| ServerConfigurationProto.AuthenticationFeaturesJsonRoundTrip | frontends/tamagui/packages/api/generated/server_configuration.ts:650-652 | Each declared feature written by `toJSON` reads back with `fromJSON` as the same feature, position by position |
| UsersProto.UserListingTypeRoundTrip | frontends/tamagui/packages/api/generated/users.ts:33-73 | The five listing types round-trip through their names; unknown input and the catch-all give `UNRECOGNIZED` |
| UsersProto.CreateBaseUser | frontends/tamagui/packages/api/generated/users.ts:283-309 | The default user: empty strings and lists, zero enums, `hasAdvancedData` false, every optional field absent |
| UsersProto.UserFromPartial | frontends/tamagui/packages/api/generated/users.ts:689-729 | Each present field is kept and each absent one takes the default of `createBaseUser` |
| UsersProto.UserFromPartialRoundTrip | frontends/tamagui/packages/api/generated/users.ts:689-729 | A complete user is unchanged by `fromPartial`; `{}` becomes `createBaseUser()` |
| UsersProto.CreateBaseMembership | frontends/tamagui/packages/api/generated/users.ts:942-952 | The default membership: empty ids and permissions, zero moderations, no timestamps |
| UsersProto.MembershipFromPartial | frontends/tamagui/packages/api/generated/users.ts:1100-1110 | Absent ids become "", absent permissions become [], absent moderations become 0 |
| UsersProto.MembershipFromPartialRoundTrip | frontends/tamagui/packages/api/generated/users.ts:1100-1110 | `fromPartial` keeps a complete membership, is idempotent, and turns `{}` into the default |
| PostsProto.PostListingTypeRoundTrip | frontends/tamagui/packages/api/generated/posts.ts:43-93 | The seven listing types round-trip through their names; unmatched input gives `UNRECOGNIZED` |
| PostsProto.PostContextRoundTrip | frontends/tamagui/packages/api/generated/posts.ts:128-173 | The six contexts round-trip through their names; unmatched input gives `UNRECOGNIZED` |
| PostsProto.PostListingTypeGap | frontends/tamagui/packages/api/generated/posts.ts:43-93 | The number 5, in the gap of the declared values, is no listing type |
| PostsProto.PostContextGap | frontends/tamagui/packages/api/generated/posts.ts:128-173 | The number 12, in the gap of the declared values, is no context |
| PostsProto.CreateBaseGetPostsRequest | frontends/tamagui/packages/api/generated/posts.ts:367-378 | The default request: every optional filter absent, listing type and page 0 |
| PostsProto.GetPostsRequestFromPartial | frontends/tamagui/packages/api/generated/posts.ts:526-537 | Optional filters are copied; listing type and page default to 0 |
| PostsProto.GetPostsRequestFromPartialRoundTrip | frontends/tamagui/packages/api/generated/posts.ts:526-537 | A complete request is unchanged by `fromPartial`; `{}` becomes the default |
| Pagination.PageIds | frontends/tamagui/packages/app/store/pagination.ts:6 | The ids of a stored page; [] when the listing or the page is missing |
| Pagination.KnownIds | frontends/tamagui/packages/app/store/pagination.ts:7 | Keeps exactly the ids that name a loaded entity, never more than were given |
| Pagination.ResolveIds | frontends/tamagui/packages/app/store/pagination.ts:7 | Looks up the known ids in order and drops unknown ones; the result lines up with `KnownIds` |
| Pagination.ResolveIdsAppend | frontends/tamagui/packages/app/store/pagination.ts:7 | Resolving a concatenation is the concatenation of the resolutions |
| Pagination.ResolveAllKnown | frontends/tamagui/packages/app/store/pagination.ts:7 | When every id is loaded, nothing is dropped and position i holds entity i |
| Pagination.GetPostsPage | frontends/tamagui/packages/app/store/pagination.ts:5-9 | The page's loaded posts in page order; [] for a missing page |
| Pagination.GetGroupPostsPage | frontends/tamagui/packages/app/store/pagination.ts:55-60 | The group page's loaded posts in page order; [] for a missing page |
| Pagination.ResolveInstances | frontends/tamagui/packages/app/store/pagination.ts:29-33 | Each resolvable instance id becomes its event narrowed to that single instance; others are dropped |
| Pagination.ResolveInstancesAppend | frontends/tamagui/packages/app/store/pagination.ts:29-33 | Resolving instances distributes over concatenation |
| Pagination.GetEventsPage | frontends/tamagui/packages/app/store/pagination.ts:27-35 | Exactly one event per resolvable instance id of the page, in page order, each its event narrowed to that instance; [] for a missing page |
| Pagination.GetGroupEventsPage | frontends/tamagui/packages/app/store/pagination.ts:80-89 | The group page's resolvable instances as single-instance events, in page order |
| Pagination.UnresolvableInstanceDropped | frontends/tamagui/packages/app/store/pagination.ts:29-33 | An instance id missing from the store, or whose event is missing, yields nothing |
| Pagination.GetPostPages | frontends/tamagui/packages/app/store/pagination.ts:11-18 | The loop yields pages 0 to `throughPage` concatenated in order |
| Pagination.GetEventPages | frontends/tamagui/packages/app/store/pagination.ts:37-44 | The loop yields event pages 0 to `throughPage` concatenated in order |
| Pagination.GetGroupEventPages | frontends/tamagui/packages/app/store/pagination.ts:91-98 | The loop yields group event pages 0 to `throughPage` concatenated in order |
| Pagination.GetGroupPostPagesAsWritten | frontends/tamagui/packages/app/store/pagination.ts:62-69 | The loop as written: page `throughPage` repeated `throughPage + 1` times |
| Pagination.GetGroupPostPages | frontends/tamagui/packages/app/store/pagination.ts:62-69 | The corrected loop: group pages 0 to `throughPage` concatenated in order |
| Pagination.GroupPostPagesCounterexample | frontends/tamagui/packages/app/store/pagination.ts:62-69 | A two-page group where the loop as written returns ["b", "b"] and the intended result is ["a", "b"] |
| Pagination.EventPagesLength | frontends/tamagui/packages/app/store/pagination.ts:37-44 | The accumulated event list is as long as the sum of the resolved page lengths |
| Pagination.PostPagesPrefix | frontends/tamagui/packages/app/store/pagination.ts:11-18 | Loading through more pages only extends the list: the shorter result is a prefix |
| Pagination.HasPage | frontends/tamagui/packages/app/store/pagination.ts:20-22 | True exactly when the page entry is stored, even if it lists no ids; a page reported absent reads as no ids |
| Pagination.HasMorePages | frontends/tamagui/packages/app/store/pagination.ts:23-25 | True exactly when the page is stored and non-empty |
| Pagination.HasMoreImpliesHas | frontends/tamagui/packages/app/store/pagination.ts:20-25 | "Has more" implies "has page", and a stored empty page counts as a page but not as more |
| EntityAdapter.UpsertOne | frontends/tamagui/packages/app/store/modules/servers.ts:129 | Stores the value under its id, appending the id only when it is new; no id is duplicated |
| EntityAdapter.RemoveOne | frontends/tamagui/packages/app/store/modules/servers.ts:137 | Removes the id from both the map and the id list; nothing else changes |
| EntityAdapter.SelectAll | frontends/tamagui/packages/app/store/modules/servers.ts:132 | The entities in id-list order |
| EntityAdapter.SwapIsPermutation | frontends/tamagui/packages/app/store/modules/servers.ts:152-165 | Exchanging two positions permutes the id list |
| EntityAdapter.MoveUpSwaps | frontends/tamagui/packages/app/store/modules/servers.ts:152-158 | Moving up swaps the id with its predecessor, leaves the first or an absent id in place, and always permutes |
| EntityAdapter.MoveDownSwaps | frontends/tamagui/packages/app/store/modules/servers.ts:159-165 | Moving down swaps with the successor, leaves the last in place, and on an absent id rotates the last id to the front |
| EntityAdapter.MoveDownAbsent | frontends/tamagui/packages/app/store/modules/servers.ts:159-165 | With `indexOf` = -1 the two splices move the last id to the front |
| EntityAdapter.MoveUpThenDown | frontends/tamagui/packages/app/store/modules/servers.ts:152-165 | Moving a non-first id up and then down restores the order |
| EntityAdapter.MoveDownThenUp | frontends/tamagui/packages/app/store/modules/servers.ts:152-165 | In a duplicate-free list, moving a non-last id down and then up restores the order |
| EntityAdapter.MoveIdUp | frontends/tamagui/packages/app/store/modules/servers.ts:152-158 | Reordering keeps the entities and the adapter invariant |
| EntityAdapter.MoveIdDown | frontends/tamagui/packages/app/store/modules/servers.ts:159-165 | Reordering keeps the entities and the adapter invariant |
| Servers.ServerIdParts | frontends/tamagui/packages/app/store/modules/servers.ts:14-16 | The server id is "http", then "s" exactly for secure servers, then ":" and the host |
| Servers.ServerIdInjective | frontends/tamagui/packages/app/store/modules/servers.ts:14-16 | Two servers share an id exactly when host and security agree |
| Servers.ServerUrl | frontends/tamagui/packages/app/store/modules/servers.ts:18-20 | The URL starts with "http", has "s" exactly for secure servers, and ends with the host |
| Servers.ServerUrlOfId | frontends/tamagui/packages/app/store/modules/servers.ts:14-20 | The URL is the id with "//" inserted after the colon |
| Servers.FrontendServerUrl | frontends/tamagui/packages/app/store/modules/servers.ts:22-25 | Uses the CDN frontend host when a CDN config is present, else the server's own URL |
| Servers.BackendServerUrl | frontends/tamagui/packages/app/store/modules/servers.ts:27-30 | Uses the CDN backend host when a CDN config is present, else the server's own URL |
| Servers.CdnUrlsAgreeWithoutCdn | frontends/tamagui/packages/app/store/modules/servers.ts:18-30 | Without a CDN config all three URLs coincide, and all three keep the server's scheme |
| Servers.InitialState | frontends/tamagui/packages/app/store/modules/servers.ts:118-123 | Unloaded, no current server, no servers, and the store invariant holds |
| Servers.RemoveServer | frontends/tamagui/packages/app/store/modules/servers.ts:130-138 | Removes the server's key. A removed current server is replaced by the first remaining server, or none; any other current server stays |
| Servers.SelectServer | frontends/tamagui/packages/app/store/modules/servers.ts:145-151 | Sets the current server and requests a credential reset exactly when the id changes; `undefined` throws |
| Servers.SelectServerIdempotent | frontends/tamagui/packages/app/store/modules/servers.ts:145-151 | Selecting the same server twice changes nothing the second time and requests no reset |
| Servers.MoveServerUp | frontends/tamagui/packages/app/store/modules/servers.ts:152-158 | Only the id order changes, as `MovedUp` describes |
| Servers.MoveServerDown | frontends/tamagui/packages/app/store/modules/servers.ts:159-165 | Only the id order changes, as `MovedDown` describes |
| Servers.UpsertServerEntity | frontends/tamagui/packages/app/store/modules/servers.ts:129 | A new server is added as given. An existing one is shallow-merged with the payload's defined fields. Other servers are untouched |
| Servers.UpsertServerFulfilled | frontends/tamagui/packages/app/store/modules/servers.ts:172-181 | Loaded with "Server added."; the payload becomes current when there was none or it has the current id |
| Servers.UpsertServerStoresPayload | frontends/tamagui/packages/app/store/modules/servers.ts:172-181 | After the upsert the entry under the payload's id has the payload's host and security, and some server is current |
| Accounts.AccountKeyParts | frontends/tamagui/packages/app/store/modules/accounts_state.ts:30-34 | The account id is the server id, a dash, and the user id |
| Accounts.AccountId | frontends/tamagui/packages/app/store/modules/accounts_state.ts:30-34 | `undefined` for no account, the account key otherwise |
| Accounts.AccountKeyInjective | frontends/tamagui/packages/app/store/modules/accounts_state.ts:30-34 | For user ids without a dash, two accounts share a key exactly when server and user id agree |
| Accounts.ProtoIdsHaveNoDash | backend/src/marshaling/id_marshaling.rs:7-10 | Public ids never contain a dash, so real account keys are injective |
| Accounts.AccountKeyCollision | frontends/tamagui/packages/app/store/modules/accounts_state.ts:33 | Without that premise the key collides: host "a" with user "b-c" and host "a-b" with user "c" |
| Accounts.InitialState | frontends/tamagui/packages/app/store/modules/accounts_state.ts:39-44 | Unloaded, no current account, no pins, no accounts |
| Accounts.UpsertAccountEntity | frontends/tamagui/packages/app/store/modules/accounts_state.ts:51 | Adds or shallow-merges the account under its key; other accounts and the rest of the state are untouched |
| Accounts.UpsertAccount | frontends/tamagui/packages/app/store/modules/accounts_state.ts:50-55 | Upserts and replaces the current account only when it has the same key |
| Accounts.RemoveAccount | frontends/tamagui/packages/app/store/modules/accounts_state.ts:56-61 | Removes the key and clears the current account exactly when it has that key |
| Accounts.SelectAccount | frontends/tamagui/packages/app/store/modules/accounts_state.ts:63-68 | Sets the current account and requests a credential reset exactly when its key changes |
| Accounts.SelectAccountIdempotent | frontends/tamagui/packages/app/store/modules/accounts_state.ts:63-68 | Selecting the same account twice changes nothing the second time |
| Accounts.UpsertUserData | frontends/tamagui/packages/app/store/modules/accounts_state.ts:93-103 | Replaces the user of exactly the accounts with the same server id and user id; keys and order unchanged |
| Accounts.NotifyUserDeleted | frontends/tamagui/packages/app/store/modules/accounts_state.ts:104-117 | Flags exactly the matching accounts for re-authentication and sync failure, and clears a matching current account |
| Accounts.NotifyUserDeletedClearsOnlyThatKey | frontends/tamagui/packages/app/store/modules/accounts_state.ts:104-117 | The current account is cleared exactly when it is stored under the key built from the payload's server id and user id and that entry belongs to the deleted user |
| Accounts.MoveAccountUp | frontends/tamagui/packages/app/store/modules/accounts_state.ts:118-124 | Only the id order changes, as `MovedUp` describes; every other field of the state is unchanged |
| Accounts.MoveAccountDown | frontends/tamagui/packages/app/store/modules/accounts_state.ts:125-131 | Only the id order changes, as `MovedDown` describes; every other field of the state is unchanged |
| Accounts.PinServer | frontends/tamagui/packages/app/store/modules/accounts_state.ts:132-140 | Updates the first pin of that server (keeping its account when none is given) or appends a new pin; keeps pins unique |
| Accounts.PinAccount | frontends/tamagui/packages/app/store/modules/accounts_state.ts:141-153 | Points the server's pin at the account, or appends an unpinned pin; keeps pins unique |
| Accounts.PinAccountPinsOnce | frontends/tamagui/packages/app/store/modules/accounts_state.ts:141-153 | After pinning, exactly one pin names the server and it records this account |
| Accounts.LoginFulfilled | frontends/tamagui/packages/app/store/modules/accounts_state.ts:177-183 | Loaded and current, with "Logged in as <username>"; the store is exactly `upsertOne` of the account with both failure flags false (id appended when new, order kept otherwise) |
| Accounts.CreateAccountFulfilled | frontends/tamagui/packages/app/store/modules/accounts_state.ts:160-166 | Loaded and current, upserted, with "Created account <username>" |
| Accounts.UpsertServerFulfilled | frontends/tamagui/packages/app/store/modules/accounts_state.ts:190-197 | Exactly the accounts on a server with the same id get the new server record; keys and order unchanged |
| CalendarMode.Mode | frontends/tamagui/packages/app/features/home/events_full_calendar.tsx:464-477 | `undefined` exactly for an empty list. Otherwise a most frequent value, and of those the first to reach the top count |
| CalendarMode.ModeIsDetermined | frontends/tamagui/packages/app/features/home/events_full_calendar.tsx:464-477 | The tie rule picks exactly one value |
| CalendarMode.TieGoesToFirstToReach | frontends/tamagui/packages/app/features/home/events_full_calendar.tsx:471 | With a strict `<`, a value that only ties the leader later does not replace it |

## Left out

- **Protobuf wire format.** `encode`/`decode` of messages, `longToNumber`, and the timestamp conversions are binary I/O that nothing here depends on.
- **Nested messages in the bindings.**
  - `fromJSON`/`toJSON` of messages other than the `ServerConfiguration` fields listed above, and `fromPartial` of nested settings messages. Nested messages are carried as complete values.
  - `permissionToJSON`/`permissionFromJSON`: permission lists are kept as numbers in the bindings.
- **Media and federation types.** `media.proto` and `federation.proto` are not part of this model; `MediaReference` and `FederatedAccount` keep only an id.
- **Permission names.** The `conversions` module behind `to_proto_permissions` is not part of this model. Stored permissions are matched against the proto `as_str_name` names of the 29 permissions that the backend and frontends name (`Permissions.Permission`); the validators themselves name only `ADMIN` and `MODERATE_USERS`.
- **Byte order.** `to_ne_bytes`/`from_ne_bytes` are modelled as little-endian, the byte order of the platforms the backend is built for.
- **Overflow.** The `i64` additions wrap as in a release build. A debug build would panic instead.
- **Length unit.** `validate_length` and `validate_all_word_chars` live in modules that are not part of this model. Lengths are counted in UTF-8 bytes, and word characters are ASCII letters, digits and `_`.
- **Async and network code.**
  - The bodies of the `upsertServer`, `createAccount` and `login` thunks.
  - `initializeWithServer`, including the assignment written `=` where a comparison was meant.
  - The client cache in `clients.ts`.
  - The `setTimeout` re-verification in `selectAccount`.
- **Side effects.** `resetCredentialedData`, `resetAccessTokens` and `deleteClient` are not modelled. `SelectServer` and `SelectAccount` return whether a credential reset is requested.
- **Error objects and rejected thunks.** Error objects, the `pending`/`rejected` cases of the thunks, `clearServerAlerts`/`clearAccountAlerts` and `resetServers`/`resetAccounts` only copy constants or errors into the state.
- **Explicitly `undefined` properties.** `Object.assign` in the adapter's merge copies them. The model treats an absent optional field and an explicitly `undefined` one alike.
- **Server and account records.** `JonlineServer` keeps host, security, service version and configuration. `JonlineAccount` keeps server, user and the two sync flags. The credential fields (access and refresh tokens) are left out because only the thunks and the client cache read them.
- **Calendar helpers.** `mode` keys a plain object, so a value named like an `Object.prototype` member ("constructor") would start from a non-numeric count. The model counts values exactly. The rest of `events_full_calendar.tsx` is rendering.
- **Rust server plumbing.** Database access and the RPC handlers that call the validators are not modelled.
- PermissionValidation.ValidateAnyPermission: requires a non-empty list, and so does ValidateAnyGroupPermission. With an empty list the source finds no match and then indexes `permissions[0]`, which panics; every caller passes two permissions.
- Servers.SelectServer: the `TypeError` thrown for an `undefined` payload is modelled as an error result, not as an exception that aborts the reducer.

## Findings

| source | as written | input that shows it | evidently intended | confidence | as-written member | corrected member |
|---|---|---|---|---|---|---|
| frontends/tamagui/packages/app/store/pagination.ts:65 | the loop over `page` calls `getGroupPostsPage(state, groupId, throughPage)`, so it returns page `throughPage` repeated `throughPage + 1` times | group with post "a" on page 0 and "b" on page 1, `throughPage` = 1: returns ["b", "b"] | `getGroupPostsPage(state, groupId, page)`, returning ["a", "b"] like `getPostPages` | not executed | Pagination.GetGroupPostPagesAsWritten (with Pagination.GroupPostPagesCounterexample) | Pagination.GetGroupPostPages |
