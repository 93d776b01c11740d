/**
 * The generated TypeScript bindings for `users.proto`: the `UserListingType`
 * mapper, the default `User` and `Membership` messages and their
 * `fromPartial`.
 *
 * Enum- and permission-typed fields hold numbers, as in TypeScript;
 * timestamps are the strings the bindings carry. Nested messages are carried
 * as complete values.
 */
module UsersProto {
  import opened Wrappers
  import opened EnumJson

  const UserListingTypeTable: seq<Entry> := [
    Entry(0, "EVERYONE"), Entry(1, "FOLLOWING"), Entry(2, "FRIENDS"), Entry(3, "FOLLOWERS"),
    Entry(4, "FOLLOW_REQUESTS")]

  /** `userListingTypeFromJSON`. */
  function UserListingTypeFromJson(j: Json): (v: int)
    ensures v in {Unrecognized, 0, 1, 2, 3, 4}
  {
    FromJsonRange(UserListingTypeTable, j);
    FromJson(UserListingTypeTable, j)
  }

  /** `userListingTypeToJSON`. */
  function UserListingTypeToJson(v: int): (name: string)
    ensures v !in {0, 1, 2, 3, 4} ==> name == UnrecognizedName
  {
    ToJson(UserListingTypeTable, v)
  }

  lemma UserListingTypeTableWellFormed()
    ensures WellFormed(UserListingTypeTable)
  {
  }

  /**
   * Each declared listing type is accepted as a number and as its name, and
   * `fromJSON(toJSON(v)) == v`; unknown input, `-1` and "UNRECOGNIZED" give
   * `UNRECOGNIZED`.
   */
  lemma UserListingTypeRoundTrip(v: int, j: Json)
    ensures v in {0, 1, 2, 3, 4} ==>
      UserListingTypeFromJson(Str(UserListingTypeToJson(v))) == v &&
      UserListingTypeFromJson(Num(v)) == v
    ensures (forall e :: e in UserListingTypeTable ==> !Matches(e, j)) ==>
      UserListingTypeFromJson(j) == Unrecognized
    ensures UserListingTypeFromJson(Num(Unrecognized)) == Unrecognized
    ensures UserListingTypeFromJson(Str(UnrecognizedName)) == Unrecognized
  {
    var t := UserListingTypeTable;
    UserListingTypeTableWellFormed();
    if v in {0, 1, 2, 3, 4} {
      assert t[v].number == v;
      FromJsonToJson(t, v);
    }
    if forall e :: e in t ==> !Matches(e, j) {
      NoMatchIsUnrecognized(t, j);
    }
    CatchAllIsUnrecognized(t);
  }

  /** A reference to a media item; `media.proto` is not part of this model, so only its id is kept. */
  datatype MediaReference = MediaReference(id: string)

  /** A profile on another server; `federation.proto` is not part of this model, so only its id is kept. */
  datatype FederatedAccount = FederatedAccount(id: string)

  datatype ContactMethod = ContactMethod(
    value: Option<string>, visibility: int, supportedByServer: bool, verified: bool)

  datatype Follow = Follow(
    userId: string, targetUserId: string, targetUserModeration: int,
    createdAt: Option<string>, updatedAt: Option<string>)

  datatype Membership = Membership(
    userId: string,
    groupId: string,
    permissions: seq<int>,
    groupModeration: int,
    userModeration: int,
    createdAt: Option<string>,
    updatedAt: Option<string>)

  datatype User = User(
    id: string,
    username: string,
    realName: string,
    email: Option<ContactMethod>,
    phone: Option<ContactMethod>,
    permissions: seq<int>,
    avatar: Option<MediaReference>,
    bio: string,
    visibility: int,
    moderation: int,
    defaultFollowModeration: int,
    followerCount: Option<int>,
    followingCount: Option<int>,
    groupCount: Option<int>,
    postCount: Option<int>,
    responseCount: Option<int>,
    currentUserFollow: Option<Follow>,
    targetCurrentUserFollow: Option<Follow>,
    currentGroupMembership: Option<Membership>,
    hasAdvancedData: bool,
    federatedProfiles: seq<FederatedAccount>,
    createdAt: Option<string>,
    updatedAt: Option<string>)

  /** `DeepPartial<Membership>`: every field may be absent. */
  datatype PartialMembership = PartialMembership(
    userId: Option<string>,
    groupId: Option<string>,
    permissions: Option<seq<int>>,
    groupModeration: Option<int>,
    userModeration: Option<int>,
    createdAt: Option<string>,
    updatedAt: Option<string>)

  /** `DeepPartial<User>`. */
  datatype PartialUser = PartialUser(
    id: Option<string>,
    username: Option<string>,
    realName: Option<string>,
    email: Option<ContactMethod>,
    phone: Option<ContactMethod>,
    permissions: Option<seq<int>>,
    avatar: Option<MediaReference>,
    bio: Option<string>,
    visibility: Option<int>,
    moderation: Option<int>,
    defaultFollowModeration: Option<int>,
    followerCount: Option<int>,
    followingCount: Option<int>,
    groupCount: Option<int>,
    postCount: Option<int>,
    responseCount: Option<int>,
    currentUserFollow: Option<Follow>,
    targetCurrentUserFollow: Option<Follow>,
    currentGroupMembership: Option<Membership>,
    hasAdvancedData: Option<bool>,
    federatedProfiles: Option<seq<FederatedAccount>>,
    createdAt: Option<string>,
    updatedAt: Option<string>)

  /** `createBaseUser`: proto3 zero values, every optional field absent. */
  function CreateBaseUser(): (u: User)
    ensures u.id == "" && u.username == "" && u.realName == "" && u.bio == ""
    ensures u.permissions == [] && u.federatedProfiles == []
    ensures u.visibility == 0 && u.moderation == 0 && u.defaultFollowModeration == 0
    ensures !u.hasAdvancedData
    ensures u.email.None? && u.phone.None? && u.avatar.None?
    ensures u.followerCount.None? && u.followingCount.None? && u.groupCount.None?
    ensures u.postCount.None? && u.responseCount.None?
    ensures u.currentUserFollow.None? && u.targetCurrentUserFollow.None? && u.currentGroupMembership.None?
    ensures u.createdAt.None? && u.updatedAt.None?
  {
    User("", "", "", None, None, [], None, "", 0, 0, 0, None, None, None, None, None, None, None, None,
      false, [], None, None)
  }

  /** `User.fromPartial`: present fields are kept, absent ones take the base default. */
  function UserFromPartial(p: PartialUser): (u: User)
    ensures u.id == p.id.GetOr(CreateBaseUser().id)
    ensures u.username == p.username.GetOr(CreateBaseUser().username)
    ensures u.realName == p.realName.GetOr(CreateBaseUser().realName)
    ensures u.bio == p.bio.GetOr(CreateBaseUser().bio)
    ensures u.permissions == p.permissions.GetOr([])
    ensures u.federatedProfiles == p.federatedProfiles.GetOr([])
    ensures u.visibility == p.visibility.GetOr(0) && u.moderation == p.moderation.GetOr(0)
    ensures u.defaultFollowModeration == p.defaultFollowModeration.GetOr(0)
    ensures u.hasAdvancedData == p.hasAdvancedData.GetOr(false)
    ensures u.email == p.email && u.phone == p.phone && u.avatar == p.avatar
    ensures u.followerCount == p.followerCount && u.followingCount == p.followingCount
    ensures u.groupCount == p.groupCount && u.postCount == p.postCount && u.responseCount == p.responseCount
    ensures u.currentUserFollow == p.currentUserFollow && u.targetCurrentUserFollow == p.targetCurrentUserFollow
    ensures u.currentGroupMembership == p.currentGroupMembership
    ensures u.createdAt == p.createdAt && u.updatedAt == p.updatedAt
  {
    CreateBaseUser().(
      id := p.id.GetOr(""),
      username := p.username.GetOr(""),
      realName := p.realName.GetOr(""),
      email := p.email,
      phone := p.phone,
      permissions := p.permissions.GetOr([]),
      avatar := p.avatar,
      bio := p.bio.GetOr(""),
      visibility := p.visibility.GetOr(0),
      moderation := p.moderation.GetOr(0),
      defaultFollowModeration := p.defaultFollowModeration.GetOr(0),
      followerCount := p.followerCount,
      followingCount := p.followingCount,
      groupCount := p.groupCount,
      postCount := p.postCount,
      responseCount := p.responseCount,
      currentUserFollow := p.currentUserFollow,
      targetCurrentUserFollow := p.targetCurrentUserFollow,
      currentGroupMembership := p.currentGroupMembership,
      hasAdvancedData := p.hasAdvancedData.GetOr(false),
      federatedProfiles := p.federatedProfiles.GetOr([]),
      createdAt := p.createdAt,
      updatedAt := p.updatedAt)
  }

  /** A complete user seen as a partial one with every field present. */
  function UserAsPartial(u: User): PartialUser {
    PartialUser(
      Some(u.id), Some(u.username), Some(u.realName), u.email, u.phone, Some(u.permissions), u.avatar,
      Some(u.bio), Some(u.visibility), Some(u.moderation), Some(u.defaultFollowModeration),
      u.followerCount, u.followingCount, u.groupCount, u.postCount, u.responseCount,
      u.currentUserFollow, u.targetCurrentUserFollow, u.currentGroupMembership,
      Some(u.hasAdvancedData), Some(u.federatedProfiles), u.createdAt, u.updatedAt)
  }

  /** `User.fromPartial` returns a complete user unchanged, and `fromPartial({})` is `createBaseUser()`. */
  lemma UserFromPartialRoundTrip(u: User)
    ensures UserFromPartial(UserAsPartial(u)) == u
    ensures UserFromPartial(PartialUser(None, None, None, None, None, None, None, None, None, None, None, None,
      None, None, None, None, None, None, None, None, None, None, None)) == CreateBaseUser()
  {
  }

  /** `createBaseMembership`. */
  function CreateBaseMembership(): (m: Membership)
    ensures m.userId == "" && m.groupId == "" && m.permissions == []
    ensures m.groupModeration == 0 && m.userModeration == 0
    ensures m.createdAt.None? && m.updatedAt.None?
  {
    Membership("", "", [], 0, 0, None, None)
  }

  /** `Membership.fromPartial`: absent ids become `""`, absent permissions `[]`, absent moderations 0. */
  function MembershipFromPartial(p: PartialMembership): (m: Membership)
    ensures m.userId == p.userId.GetOr("") && m.groupId == p.groupId.GetOr("")
    ensures m.permissions == p.permissions.GetOr([])
    ensures m.groupModeration == p.groupModeration.GetOr(0) && m.userModeration == p.userModeration.GetOr(0)
    ensures m.createdAt == p.createdAt && m.updatedAt == p.updatedAt
  {
    CreateBaseMembership().(
      userId := p.userId.GetOr(""),
      groupId := p.groupId.GetOr(""),
      permissions := p.permissions.GetOr([]),
      groupModeration := p.groupModeration.GetOr(0),
      userModeration := p.userModeration.GetOr(0),
      createdAt := p.createdAt,
      updatedAt := p.updatedAt)
  }

  /** A complete membership seen as a partial one with every field present. */
  function MembershipAsPartial(m: Membership): PartialMembership {
    PartialMembership(
      Some(m.userId), Some(m.groupId), Some(m.permissions), Some(m.groupModeration), Some(m.userModeration),
      m.createdAt, m.updatedAt)
  }

  /**
   * `Membership.fromPartial` returns a complete membership unchanged, is
   * idempotent, and maps `{}` to `createBaseMembership()`.
   */
  lemma MembershipFromPartialRoundTrip(m: Membership, p: PartialMembership)
    ensures MembershipFromPartial(MembershipAsPartial(m)) == m
    ensures MembershipFromPartial(MembershipAsPartial(MembershipFromPartial(p))) == MembershipFromPartial(p)
    ensures MembershipFromPartial(PartialMembership(None, None, None, None, None, None, None)) == CreateBaseMembership()
  {
  }
}
