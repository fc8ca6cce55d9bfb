/**
 * The user store (frontend/src/stores/user.js): the signed-in user's info,
 * the login and logout actions that also touch the session storage, a
 * merging update, and the permission and role queries.
 */
module UserStore {
  import opened Wrappers
  import opened UserJson
  import Auth

  /** The value `userInfo` starts with and is reset to by `logout`. */
  const InitialUserInfo := UserInfo("", "", "", [], [])

  /** `xs.includes(x)`, scanning from the front. */
  function Includes(xs: seq<string>, x: string): (r: bool)
    ensures r <==> x in xs
    decreases |xs|
  {
    if xs == [] then false else xs[0] == x || Includes(xs[1..], x)
  }

  /**
   * The object passed to `updateUserInfo`: each field is either absent
   * (None) or carries the new value.
   */
  datatype UserInfoPatch = UserInfoPatch(
    id: Option<string>, name: Option<string>, avatar: Option<string>,
    roles: Option<seq<string>>, permissions: Option<seq<string>>)

  const EmptyPatch := UserInfoPatch(None, None, None, None, None)

  function Pick<T>(field: Option<T>, current: T): T {
    if field.Some? then field.value else current
  }

  /** `{ ...info, ...patch }`: fields present in the patch win, every other field is kept. */
  function Merge(info: UserInfo, patch: UserInfoPatch): (r: UserInfo)
    ensures patch.id.Some? ==> r.id == patch.id.value
    ensures patch.id.None? ==> r.id == info.id
    ensures patch.name.Some? ==> r.name == patch.name.value
    ensures patch.name.None? ==> r.name == info.name
    ensures patch.avatar.Some? ==> r.avatar == patch.avatar.value
    ensures patch.avatar.None? ==> r.avatar == info.avatar
    ensures patch.roles.Some? ==> r.roles == patch.roles.value
    ensures patch.roles.None? ==> r.roles == info.roles
    ensures patch.permissions.Some? ==> r.permissions == patch.permissions.value
    ensures patch.permissions.None? ==> r.permissions == info.permissions
  {
    UserInfo(
      Pick(patch.id, info.id), Pick(patch.name, info.name), Pick(patch.avatar, info.avatar),
      Pick(patch.roles, info.roles), Pick(patch.permissions, info.permissions))
  }

  /** The patch that has the effect of applying `first` and then `second`. */
  function Then(first: UserInfoPatch, second: UserInfoPatch): UserInfoPatch {
    UserInfoPatch(
      if second.id.Some? then second.id else first.id,
      if second.name.Some? then second.name else first.name,
      if second.avatar.Some? then second.avatar else first.avatar,
      if second.roles.Some? then second.roles else first.roles,
      if second.permissions.Some? then second.permissions else first.permissions)
  }

  /** An empty update changes nothing. */
  lemma MergeEmpty(info: UserInfo)
    ensures Merge(info, EmptyPatch) == info
  {
  }

  /** Repeating an update changes nothing more. */
  lemma MergeIdempotent(info: UserInfo, patch: UserInfoPatch)
    ensures Merge(Merge(info, patch), patch) == Merge(info, patch)
  {
  }

  /** Two updates in a row are one update in which the later values win. */
  lemma MergeThen(info: UserInfo, first: UserInfoPatch, second: UserInfoPatch)
    ensures Merge(Merge(info, first), second) == Merge(info, Then(first, second))
  {
  }

  /** What the login endpoint resolves with. */
  datatype LoginResponse = LoginResponse(token: string, user: UserInfo)

  class Store {
    var userInfo: UserInfo
    const storage: Auth.AuthStorage

    constructor (storage: Auth.AuthStorage)
      ensures userInfo == InitialUserInfo && this.storage == storage
    {
      userInfo := InitialUserInfo;
      this.storage := storage;
    }

    /**
     * `login(form)`, given what the login API call settled with: on success
     * the token is stored, `userInfo` becomes the returned user and the
     * result is true; on failure nothing changes and the result is false.
     */
    method Login(api: Result<LoginResponse, string>) returns (ok: bool)
      modifies this, storage
      ensures ok <==> api.Ok?
      ensures api.Ok? ==> userInfo == api.value.user
      ensures api.Ok? ==> storage.items == old(storage.items)[Auth.TokenKey := api.value.token]
      ensures api.Err? ==> userInfo == old(userInfo) && storage.items == old(storage.items)
    {
      if api.Err? {
        return false;
      }
      storage.SetToken(api.value.token);
      userInfo := api.value.user;
      return true;
    }

    /** `logout()`: the session storage is cleared and `userInfo` is reset. */
    method Logout()
      modifies this, storage
      ensures userInfo == InitialUserInfo
      ensures storage.items == old(storage.items) - {Auth.TokenKey, Auth.UserInfoKey}
    {
      storage.ClearAuth();
      userInfo := InitialUserInfo;
    }

    /** `updateUserInfo(info)`. */
    method UpdateUserInfo(patch: UserInfoPatch)
      modifies this
      ensures userInfo == Merge(old(userInfo), patch)
    {
      userInfo := UserInfo(
        if patch.id.Some? then patch.id.value else userInfo.id,
        if patch.name.Some? then patch.name.value else userInfo.name,
        if patch.avatar.Some? then patch.avatar.value else userInfo.avatar,
        if patch.roles.Some? then patch.roles.value else userInfo.roles,
        if patch.permissions.Some? then patch.permissions.value else userInfo.permissions);
    }

    /** `hasPermission(permission)`. */
    function HasPermission(permission: string): (r: bool)
      reads this
      ensures r <==> permission in userInfo.permissions
    {
      Includes(userInfo.permissions, permission)
    }

    /** `hasRole(role)`. */
    function HasRole(role: string): (r: bool)
      reads this
      ensures r <==> role in userInfo.roles
    {
      Includes(userInfo.roles, role)
    }
  }
}
