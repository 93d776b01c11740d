/**
 * The closed permission enumeration and its stored symbolic names. The
 * enumeration lists the permissions that the backend and frontends name; the
 * names are the protobuf value names that `as_str_name` returns.
 */
module Permissions {
  import opened Wrappers

  datatype Permission =
    | ViewUsers | PublishUsersLocally | PublishUsersGlobally | ModerateUsers | FollowUsers
    | GrantBasicPermissions
    | ViewGroups | CreateGroups | PublishGroupsLocally | PublishGroupsGlobally | JoinGroups
    | ViewPosts | CreatePosts | PublishPostsLocally | PublishPostsGlobally | ModeratePosts | ReplyToPosts
    | ViewEvents | CreateEvents | PublishEventsLocally | PublishEventsGlobally | ModerateEvents | RsvpToEvents
    | ViewMedia | CreateMedia | PublishMediaLocally | PublishMediaGlobally
    | RunBots | Admin

  /** `Permission::as_str_name`. */
  function Name(p: Permission): string {
    match p
    case ViewUsers => "VIEW_USERS"
    case PublishUsersLocally => "PUBLISH_USERS_LOCALLY"
    case PublishUsersGlobally => "PUBLISH_USERS_GLOBALLY"
    case ModerateUsers => "MODERATE_USERS"
    case FollowUsers => "FOLLOW_USERS"
    case GrantBasicPermissions => "GRANT_BASIC_PERMISSIONS"
    case ViewGroups => "VIEW_GROUPS"
    case CreateGroups => "CREATE_GROUPS"
    case PublishGroupsLocally => "PUBLISH_GROUPS_LOCALLY"
    case PublishGroupsGlobally => "PUBLISH_GROUPS_GLOBALLY"
    case JoinGroups => "JOIN_GROUPS"
    case ViewPosts => "VIEW_POSTS"
    case CreatePosts => "CREATE_POSTS"
    case PublishPostsLocally => "PUBLISH_POSTS_LOCALLY"
    case PublishPostsGlobally => "PUBLISH_POSTS_GLOBALLY"
    case ModeratePosts => "MODERATE_POSTS"
    case ReplyToPosts => "REPLY_TO_POSTS"
    case ViewEvents => "VIEW_EVENTS"
    case CreateEvents => "CREATE_EVENTS"
    case PublishEventsLocally => "PUBLISH_EVENTS_LOCALLY"
    case PublishEventsGlobally => "PUBLISH_EVENTS_GLOBALLY"
    case ModerateEvents => "MODERATE_EVENTS"
    case RsvpToEvents => "RSVP_TO_EVENTS"
    case ViewMedia => "VIEW_MEDIA"
    case CreateMedia => "CREATE_MEDIA"
    case PublishMediaLocally => "PUBLISH_MEDIA_LOCALLY"
    case PublishMediaGlobally => "PUBLISH_MEDIA_GLOBALLY"
    case RunBots => "RUN_BOTS"
    case Admin => "ADMIN"
  }

  /** Every permission, each once. */
  const All: seq<Permission> := [
    ViewUsers, PublishUsersLocally, PublishUsersGlobally, ModerateUsers, FollowUsers,
    GrantBasicPermissions,
    ViewGroups, CreateGroups, PublishGroupsLocally, PublishGroupsGlobally, JoinGroups,
    ViewPosts, CreatePosts, PublishPostsLocally, PublishPostsGlobally, ModeratePosts, ReplyToPosts,
    ViewEvents, CreateEvents, PublishEventsLocally, PublishEventsGlobally, ModerateEvents, RsvpToEvents,
    ViewMedia, CreateMedia, PublishMediaLocally, PublishMediaGlobally,
    RunBots, Admin]

  lemma AllContains(p: Permission)
    ensures p in All
  {
  }

  lemma AllIsComplete()
    ensures forall p :: p in All
  {
    forall p ensures p in All {
      AllContains(p);
    }
  }

  /**
   * Tells the stored names apart by their length and at most two of their
   * letters. It is a proof device only: it says nothing about other strings.
   */
  function Distinguish(s: string): Option<Permission> {
    var n := |s|;
    if n == 5 then Some(Admin)
    else if n == 8 then Some(RunBots)
    else if n == 15 then Some(ModerateEvents)
    else if n == 10 then
      if s[5] == 'U' then Some(ViewUsers) else if s[5] == 'P' then Some(ViewPosts) else Some(ViewMedia)
    else if n == 11 then
      if s[0] == 'J' then Some(JoinGroups) else if s[5] == 'G' then Some(ViewGroups) else Some(ViewEvents)
    else if n == 12 then
      if s[7] == 'U' then Some(FollowUsers) else if s[7] == 'P' then Some(CreatePosts) else Some(CreateMedia)
    else if n == 13 then
      if s[7] == 'G' then Some(CreateGroups) else Some(CreateEvents)
    else if n == 14 then
      if s[1] == 'S' then Some(RsvpToEvents) else if s[1] == 'E' then Some(ReplyToPosts)
      else if s[9] == 'U' then Some(ModerateUsers) else Some(ModeratePosts)
    else if n == 21 then
      if s[8] == 'U' then Some(PublishUsersLocally) else if s[8] == 'P' then Some(PublishPostsLocally)
      else Some(PublishMediaLocally)
    else if n == 22 then
      if s[8] == 'U' then Some(PublishUsersGlobally) else if s[8] == 'G' then Some(PublishGroupsLocally)
      else if s[8] == 'P' then Some(PublishPostsGlobally) else if s[8] == 'E' then Some(PublishEventsLocally)
      else Some(PublishMediaGlobally)
    else if n == 23 then
      if s[8] == 'G' then Some(PublishGroupsGlobally) else if s[8] == 'E' then Some(PublishEventsGlobally)
      else Some(GrantBasicPermissions)
    else None
  }

  lemma DistinguishName(p: Permission)
    ensures Distinguish(Name(p)) == Some(p)
  {
    match p
    case ViewUsers =>
    case PublishUsersLocally =>
    case PublishUsersGlobally =>
    case ModerateUsers =>
    case FollowUsers =>
    case GrantBasicPermissions =>
    case ViewGroups =>
    case CreateGroups =>
    case PublishGroupsLocally =>
    case PublishGroupsGlobally =>
    case JoinGroups =>
    case ViewPosts =>
    case CreatePosts =>
    case PublishPostsLocally =>
    case PublishPostsGlobally =>
    case ModeratePosts =>
    case ReplyToPosts =>
    case ViewEvents =>
    case CreateEvents =>
    case PublishEventsLocally =>
    case PublishEventsGlobally =>
    case ModerateEvents =>
    case RsvpToEvents =>
    case ViewMedia =>
    case CreateMedia =>
    case PublishMediaLocally =>
    case PublishMediaGlobally =>
    case RunBots =>
    case Admin =>
  }

  /** Distinct permissions have distinct names. */
  lemma NameInjective(p: Permission, q: Permission)
    requires Name(p) == Name(q)
    ensures p == q
  {
    DistinguishName(p);
    DistinguishName(q);
  }

  /** The permission a stored name denotes, if any: the first one in `ps` with that name. */
  function LookUp(name: string, ps: seq<Permission>): (r: Option<Permission>)
    ensures r.Some? ==> r.value in ps && Name(r.value) == name
    ensures r.None? ==> forall p :: p in ps ==> Name(p) != name
  {
    if |ps| == 0 then None
    else if Name(ps[0]) == name then Some(ps[0])
    else LookUp(name, ps[1..])
  }

  /** Parses one stored name; unknown names are absent. */
  function FromName(name: string): (r: Option<Permission>)
    ensures r.Some? ==> Name(r.value) == name
    ensures r.None? ==> forall p :: Name(p) != name
  {
    AllIsComplete();
    LookUp(name, All)
  }

  /** Parsing a permission's own name gives it back. */
  lemma FromNameOfName(p: Permission)
    ensures FromName(Name(p)) == Some(p)
  {
    var r := FromName(Name(p));
    NameInjective(r.value, p);
  }

  /**
   * `to_proto_permissions`: the permissions a stored list of names grants, in
   * stored order. Unknown names are dropped, never granted.
   */
  function ToProtoPermissions(stored: seq<string>): (ps: seq<Permission>)
    ensures |ps| <= |stored|
    ensures forall p :: p in ps <==> Name(p) in stored
  {
    if |stored| == 0 then []
    else
      var rest := ToProtoPermissions(stored[1..]);
      assert forall n :: n in stored <==> n == stored[0] || n in stored[1..];
      match FromName(stored[0])
      case Some(p0) =>
        assert forall p :: p in [p0] + rest <==> Name(p) in stored by {
          forall p ensures p in [p0] + rest <==> Name(p) in stored {
            if Name(p) == stored[0] {
              NameInjective(p, p0);
            }
          }
        }
        [p0] + rest
      case None => rest
  }
}
