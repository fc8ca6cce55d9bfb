/**
 * The permission composable (frontend/src/composables/usePermission.js):
 * a reactive flag, true at first, that an effect recomputes from the
 * permission argument and two fields of the user store.
 */
module Permission {
  import opened Wrappers
  import opened UserJson
  import UserStore

  /** A property read from the store object: `undefined` when the store has no such member. */
  datatype Field<T> = Undefined | Defined(value: T)

  /** JavaScript truthiness of the permission argument: null/undefined (None) and "" are falsy. */
  predicate Truthy(permission: Option<string>) {
    permission.Some? && permission.value != ""
  }

  /** What one run of the effect does: store a value in the flag, or throw. */
  datatype EffectRun = Assign(value: bool) | Threw

  /**
   * The effect as written: falsy argument gives true, a truthy
   * `isSuperAdmin` gives true, otherwise `permissions.includes(permission)`,
   * which throws a TypeError when `permissions` is undefined.
   */
  function Effect(permission: Option<string>, isSuperAdmin: Field<bool>, permissions: Field<seq<string>>): (run: EffectRun)
    ensures run == Threw <==> Truthy(permission) && !(isSuperAdmin == Defined(true)) && permissions.Undefined?
    ensures run.Assign? ==>
      (run.value <==> !Truthy(permission) || isSuperAdmin == Defined(true) || permission.value in permissions.value)
  {
    if !Truthy(permission) then Assign(true)
    else if isSuperAdmin.Defined? && isSuperAdmin.value then Assign(true)
    else if permissions.Undefined? then Threw
    else Assign(UserStore.Includes(permissions.value, permission.value))
  }

  /** The flag after one run: an error thrown inside the effect leaves the flag as it was. */
  function FlagAfter(previous: bool, run: EffectRun): bool {
    if run.Threw? then previous else run.value
  }

  /**
   * `usePermission(permission).hasPermission` as written: the store object
   * exposes `userInfo`, `login`, `logout`, `updateUserInfo`, `hasPermission`
   * and `hasRole`, so both `isSuperAdmin` and `permissions` read undefined.
   * The flag starts at true.
   */
  function UsePermissionAsWritten(permission: Option<string>, info: UserInfo): (granted: bool)
    ensures granted
  {
    FlagAfter(true, Effect(permission, Undefined, Undefined))
  }

  /**
   * The intended decision, with `isSuperAdmin` and the user's permission
   * list as inputs: a falsy argument or a super admin gives true, otherwise
   * the argument must be in the list.
   */
  function UsePermission(permission: Option<string>, isSuperAdmin: bool, permissions: seq<string>): (r: bool)
    ensures r <==> !Truthy(permission) || isSuperAdmin || permission.value in permissions
  {
    FlagAfter(true, Effect(permission, Defined(isSuperAdmin), Defined(permissions)))
  }

  /** The intended decision agrees with the store's own `hasPermission` for an ordinary user. */
  lemma UsePermissionMatchesStore(permission: string, info: UserInfo)
    requires permission != ""
    ensures UsePermission(Some(permission), false, info.permissions) == UserStore.Includes(info.permissions, permission)
  {
  }

  /** Granting more permissions never takes one away. */
  lemma UsePermissionMonotone(permission: Option<string>, isSuperAdmin: bool, fewer: seq<string>, more: seq<string>)
    requires forall p :: p in fewer ==> p in more
    ensures UsePermission(permission, isSuperAdmin, fewer) ==> UsePermission(permission, isSuperAdmin, more)
  {
  }

  /**
   * The two differ: an ordinary user without any permission is refused
   * `voucher:create` by the intended decision but granted it as written.
   */
  lemma AsWrittenDiffersFromIntended()
    ensures exists permission: Option<string>, info: UserInfo ::
      UsePermissionAsWritten(permission, info) && !UsePermission(permission, false, info.permissions)
  {
    var info := UserStore.InitialUserInfo;
    assert UsePermissionAsWritten(Some("voucher:create"), info) && !UsePermission(Some("voucher:create"), false, info.permissions);
  }
}
