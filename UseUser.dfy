/** The `useUser` hook (src/hooks/useUser.ts): the user context passed
    through, plus role and permission membership tests. */
module UseUser {
  import opened Js

  /** `UserInfo`; optional fields are `None` when absent. */
  datatype UserInfo = UserInfo(
    id: int, username: string, name: string,
    avatar: Option<string>, email: Option<string>, phone: Option<string>,
    roles: Option<seq<string>>, permissions: Option<seq<string>>)

  /** The context value the hook reads; `error` is the message of the error
      object, if any. */
  datatype UserContext = UserContext(userInfo: Option<UserInfo>, loading: bool, error: Option<string>)

  /** What the hook returns besides the two tests. */
  datatype UserHook = UserHook(userInfo: Option<UserInfo>, loading: bool, error: Option<string>)

  /** `!!list?.includes(x)` on a list that may be undefined. */
  function Listed(list: Option<seq<string>>, x: string): (r: bool)
    ensures r <==> list.Some? && x in list.value
  {
    list.Some? && Includes(list.value, x)
  }

  /** `hasRole`. */
  function HasRole(userInfo: Option<UserInfo>, role: string): (r: bool)
    ensures r <==> userInfo.Some? && userInfo.value.roles.Some? && role in userInfo.value.roles.value
  {
    userInfo.Some? && Listed(userInfo.value.roles, role)
  }

  /** `hasPermission`. */
  function HasPermission(userInfo: Option<UserInfo>, permission: string): (r: bool)
    ensures r <==> userInfo.Some? && userInfo.value.permissions.Some? && permission in userInfo.value.permissions.value
  {
    userInfo.Some? && Listed(userInfo.value.permissions, permission)
  }

  /** Without a user, or with a user lacking the list, every test fails. */
  lemma NoUserNoRights(userInfo: Option<UserInfo>, role: string, permission: string)
    ensures userInfo.None? ==> !HasRole(userInfo, role) && !HasPermission(userInfo, permission)
    ensures userInfo.Some? && userInfo.value.roles.None? ==> !HasRole(userInfo, role)
    ensures userInfo.Some? && userInfo.value.permissions.None? ==> !HasPermission(userInfo, permission)
  {
  }

  /** Roles and permissions are separate lists: whatever roles a user holds,
      its permissions decide `hasPermission` alone, and whatever permissions it
      holds, its roles decide `hasRole` alone. So granting a role grants no
      permission of the same name. */
  lemma RolesAreNotPermissions(info: UserInfo, roles: Option<seq<string>>, permissions: Option<seq<string>>, name: string)
    ensures HasPermission(Some(info.(roles := roles)), name) == HasPermission(Some(info), name)
    ensures HasRole(Some(info.(permissions := permissions)), name) == HasRole(Some(info), name)
    ensures info.roles == Some([name]) && info.permissions == Some([]) ==>
      HasRole(Some(info), name) && !HasPermission(Some(info), name)
  {
  }

  /** `useUser`: the context's user, loading flag and error, unchanged. */
  function UseUserHook(ctx: UserContext): (r: UserHook)
    ensures r.userInfo == ctx.userInfo && r.loading == ctx.loading && r.error == ctx.error
  {
    UserHook(ctx.userInfo, ctx.loading, ctx.error)
  }
}
