/**
 * The backend's permission checks. A user (and a group membership) stores a
 * list of permission names; a check asks whether any of a requested list of
 * permissions is among the permissions that list grants. `Admin` is always
 * requested alongside, so it passes every single-permission check.
 */
module PermissionValidation {
  import opened Wrappers
  import opened RpcStatus
  import opened Permissions

  /** The part of a stored user that the checks read. */
  datatype User = User(permissions: seq<string>)

  /** The part of a stored group membership that the checks read. */
  datatype Membership = Membership(permissions: seq<string>)

  /** `requested.iter().any(|p| granted.contains(p))`. */
  function AnyIn(requested: seq<Permission>, granted: seq<Permission>): (b: bool)
    ensures b <==> exists i :: 0 <= i < |requested| && requested[i] in granted
  {
    if |requested| == 0 then false
    else if requested[0] in granted then true
    else
      var b := AnyIn(requested[1..], granted);
      assert forall i :: 1 <= i < |requested| ==> requested[i] == requested[1..][i - 1];
      b
  }

  /** Whether a stored list of names grants at least one requested permission. */
  predicate Grants(stored: seq<string>, requested: seq<Permission>) {
    exists i :: 0 <= i < |requested| && Name(requested[i]) in stored
  }

  /**
   * The rule both `validate_any_permission` and `validate_any_group_permission`
   * follow: pass when some requested permission is granted, otherwise fail with
   * `InvalidArgument` naming the first requested permission after `prefix`.
   */
  function CheckAny(stored: seq<string>, requested: seq<Permission>, prefix: string): (r: Outcome<Status>)
    requires |requested| > 0
    ensures r.Pass? <==> Grants(stored, requested)
    ensures r.Fail? ==> r.error == Status(InvalidArgument, prefix + Name(requested[0]) + "_required")
  {
    if AnyIn(requested, ToProtoPermissions(stored)) then Pass
    else Fail(Status(InvalidArgument, prefix + Name(requested[0]) + "_required"))
  }

  /** `validate_any_permission`: the list must be non-empty, or the source indexes past its end. */
  function ValidateAnyPermission(user: User, permissions: seq<Permission>): (r: Outcome<Status>)
    requires |permissions| > 0
    ensures r.Pass? <==> exists i :: 0 <= i < |permissions| && Name(permissions[i]) in user.permissions
    ensures r.Fail? ==> r.error == Status(InvalidArgument, "permission_" + Name(permissions[0]) + "_required")
  {
    CheckAny(user.permissions, permissions, "permission_")
  }

  /** `validate_permission`: the permission itself or `Admin`. */
  function ValidatePermission(user: User, permission: Permission): (r: Outcome<Status>)
    ensures r.Pass? <==> Name(permission) in user.permissions || Name(Admin) in user.permissions
    ensures r.Fail? ==> r.error == Status(InvalidArgument, "permission_" + Name(permission) + "_required")
  {
    var r := ValidateAnyPermission(user, [permission, Admin]);
    assert r.Pass? ==> Name(permission) in user.permissions || Name(Admin) in user.permissions;
    assert Name(permission) in user.permissions ==> Name([permission, Admin][0]) in user.permissions;
    assert Name(Admin) in user.permissions ==> Name([permission, Admin][1]) in user.permissions;
    r
  }

  /** `validate_any_group_permission`: the same rule over the membership's names. */
  function ValidateAnyGroupPermission(membership: Membership, permissions: seq<Permission>): (r: Outcome<Status>)
    requires |permissions| > 0
    ensures r.Pass? <==> exists i :: 0 <= i < |permissions| && Name(permissions[i]) in membership.permissions
    ensures r.Fail? ==> r.error == Status(InvalidArgument, "group_permission_" + Name(permissions[0]) + "_required")
  {
    CheckAny(membership.permissions, permissions, "group_permission_")
  }

  /** `validate_group_permission`: the permission itself or `Admin`, in the group. */
  function ValidateGroupPermission(membership: Membership, permission: Permission): (r: Outcome<Status>)
    ensures r.Pass? <==> Name(permission) in membership.permissions || Name(Admin) in membership.permissions
    ensures r.Fail? ==> r.error == Status(InvalidArgument, "group_permission_" + Name(permission) + "_required")
  {
    var r := ValidateAnyGroupPermission(membership, [permission, Admin]);
    assert r.Pass? ==> Name(permission) in membership.permissions || Name(Admin) in membership.permissions;
    assert Name(permission) in membership.permissions ==> Name([permission, Admin][0]) in membership.permissions;
    assert Name(Admin) in membership.permissions ==> Name([permission, Admin][1]) in membership.permissions;
    r
  }

  /**
   * `validate_group_admin`: a global admin passes; otherwise the membership
   * must grant `Admin`, and a missing membership is its own failure.
   */
  function ValidateGroupAdmin(user: User, membership: Option<Membership>): (r: Outcome<Status>)
    ensures Name(Admin) in user.permissions ==> r.Pass?
    ensures Name(Admin) !in user.permissions && membership.Some? ==>
      r == ValidateGroupPermission(membership.value, Admin)
    ensures Name(Admin) !in user.permissions && membership.None? ==>
      r == Fail(Status(PermissionDenied, "admin_group_membership_required"))
  {
    match ValidatePermission(user, Admin)
    case Pass => Pass
    case Fail(_) =>
      match membership
      case Some(m) => ValidateGroupPermission(m, Admin)
      case None => Fail(Status(PermissionDenied, "admin_group_membership_required"))
  }

  /**
   * `validate_group_user_moderator`: whatever passes the group-admin check
   * passes; otherwise the membership must grant `ModerateUsers` (or `Admin`).
   */
  function ValidateGroupUserModerator(user: User, membership: Option<Membership>): (r: Outcome<Status>)
    ensures ValidateGroupAdmin(user, membership).Pass? ==> r.Pass?
    ensures ValidateGroupAdmin(user, membership).Fail? && membership.Some? ==>
      (r.Pass? <==> Name(ModerateUsers) in membership.value.permissions || Name(Admin) in membership.value.permissions)
    ensures ValidateGroupAdmin(user, membership).Fail? && membership.Some? && r.Fail? ==>
      r.error == Status(InvalidArgument, "group_permission_" + Name(ModerateUsers) + "_required")
    ensures ValidateGroupAdmin(user, membership).Fail? && membership.None? ==>
      r == Fail(Status(PermissionDenied, "moderator_group_membership_required"))
  {
    match ValidateGroupAdmin(user, membership)
    case Pass => Pass
    case Fail(_) =>
      match membership
      case Some(m) => ValidateGroupPermission(m, ModerateUsers)
      case None => Fail(Status(PermissionDenied, "moderator_group_membership_required"))
  }

  /** Admin supremacy: a global admin passes every single-permission check. */
  lemma AdminSupremacy(user: User, permission: Permission, membership: Option<Membership>)
    requires Name(Admin) in user.permissions
    ensures ValidatePermission(user, permission).Pass?
    ensures ValidateGroupAdmin(user, membership).Pass?
    ensures ValidateGroupUserModerator(user, membership).Pass?
  {
  }

  /**
   * The group moderator check in closed form: it passes exactly when the user
   * is a global admin or the membership grants `Admin` or `ModerateUsers`.
   */
  lemma GroupUserModeratorPasses(user: User, membership: Option<Membership>)
    ensures ValidateGroupUserModerator(user, membership).Pass? <==>
      Name(Admin) in user.permissions ||
      (membership.Some? &&
        (Name(Admin) in membership.value.permissions || Name(ModerateUsers) in membership.value.permissions))
  {
  }

  /**
   * The membership is consulted only after the global check fails: when the
   * user's own names decide, the membership makes no difference.
   */
  lemma GlobalCheckFirst(user: User, m1: Option<Membership>, m2: Option<Membership>)
    requires ValidatePermission(user, Admin).Pass?
    ensures ValidateGroupAdmin(user, m1) == ValidateGroupAdmin(user, m2) == Pass
    ensures ValidateGroupUserModerator(user, m1) == ValidateGroupUserModerator(user, m2) == Pass
  {
  }

  /**
   * A missing membership is `PermissionDenied`, an insufficient one is
   * `InvalidArgument`, and the two missing-membership failures differ.
   */
  lemma MembershipErrorsDistinct(user: User, m: Membership)
    requires Name(Admin) !in user.permissions
    ensures ValidateGroupAdmin(user, None).error.code == PermissionDenied
    ensures ValidateGroupUserModerator(user, None).error.code == PermissionDenied
    ensures ValidateGroupAdmin(user, None) != ValidateGroupUserModerator(user, None)
    ensures ValidateGroupAdmin(user, Some(m)).Fail? ==> ValidateGroupAdmin(user, Some(m)).error.code == InvalidArgument
  {
    var a := "admin_group_membership_required";
    var b := "moderator_group_membership_required";
    assert a[0] != b[0];
  }

  /** A user-level and a group-level refusal of the same permission carry different messages. */
  lemma PermissionErrorsDistinct(user: User, m: Membership, permission: Permission)
    requires ValidatePermission(user, permission).Fail? && ValidateGroupPermission(m, permission).Fail?
    ensures ValidatePermission(user, permission).error != ValidateGroupPermission(m, permission).error
  {
    var u := "permission_" + Name(permission) + "_required";
    var g := "group_permission_" + Name(permission) + "_required";
    assert u[0] != g[0];
  }

  /** Names granted by `small` are also granted by `large`. */
  predicate Covers(large: seq<string>, small: seq<string>) {
    forall n :: n in small ==> n in large
  }

  /**
   * Monotonicity: granting more names never turns a passing check into a
   * failing one.
   */
  lemma Monotonic(small: seq<string>, large: seq<string>, requested: seq<Permission>)
    requires |requested| > 0
    requires Covers(large, small)
    ensures ValidateAnyPermission(User(small), requested).Pass? ==> ValidateAnyPermission(User(large), requested).Pass?
    ensures ValidateAnyGroupPermission(Membership(small), requested).Pass? ==>
      ValidateAnyGroupPermission(Membership(large), requested).Pass?
  {
  }

  /** Monotonicity of the two group checks in both the user's and the membership's names. */
  lemma GroupChecksMonotonic(u1: User, u2: User, m1: Option<Membership>, m2: Option<Membership>)
    requires Covers(u2.permissions, u1.permissions)
    requires m1.Some? ==> m2.Some? && Covers(m2.value.permissions, m1.value.permissions)
    ensures ValidateGroupAdmin(u1, m1).Pass? ==> ValidateGroupAdmin(u2, m2).Pass?
    ensures ValidateGroupUserModerator(u1, m1).Pass? ==> ValidateGroupUserModerator(u2, m2).Pass?
  {
    GroupUserModeratorPasses(u1, m1);
    GroupUserModeratorPasses(u2, m2);
  }
}
