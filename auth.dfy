/**
 * The session helpers of frontend/src/utils/auth.js: a token and a
 * serialized user info kept under two fixed keys of the browser's
 * `localStorage`, which is modelled as a map from keys to strings.
 */
module Auth {
  import opened Wrappers
  import opened UserJson

  const TokenKey := "zyt_token"
  const UserInfoKey := "zyt_user_info"

  /** JavaScript truthiness of what `getItem` returns: not null and not "". */
  predicate Truthy(v: Option<string>) {
    v.Some? && v.value != ""
  }

  /** `localStorage.getItem(key)`: null (None) when the key is absent. */
  function Lookup(items: map<string, string>, key: string): (r: Option<string>)
    ensures r.Some? <==> key in items
    ensures r.Some? ==> r.value == items[key]
  {
    if key in items then Some(items[key]) else None
  }

  /** What `getToken()` returns for a given storage content. */
  function TokenOf(items: map<string, string>): Option<string> {
    Lookup(items, TokenKey)
  }

  /**
   * What `getUserInfo()` returns for a given storage content: null (Ok(None))
   * when the entry is missing or empty, otherwise the parsed record.  Text
   * that is not a stringified user info is Err(text).
   */
  function UserInfoOf(items: map<string, string>): (r: Result<Option<UserInfo>, string>)
    ensures r == Ok(None) <==> !Truthy(Lookup(items, UserInfoKey))
    ensures r.Err? ==> UserInfoKey in items && r.error == items[UserInfoKey]
    ensures r.Ok? && r.value.Some? ==> Parse(items[UserInfoKey]) == r.value
    ensures r.Err? ==> Parse(items[UserInfoKey]).None?
  {
    var text := Lookup(items, UserInfoKey);
    if !Truthy(text) then Ok(None)
    else
      var u := Parse(text.value);
      if u.None? then Err(text.value) else Ok(u)
  }

  /** `isAuthenticated()` for a given storage content. */
  predicate Authenticated(items: map<string, string>) {
    Truthy(TokenOf(items))
  }

  class AuthStorage {
    var items: map<string, string>

    constructor (items: map<string, string>)
      ensures this.items == items
    {
      this.items := items;
    }

    /** `getToken()`. */
    method GetToken() returns (token: Option<string>)
      ensures token.Some? <==> TokenKey in items
      ensures token.Some? ==> token.value == items[TokenKey]
    {
      if TokenKey in items {
        token := Some(items[TokenKey]);
      } else {
        token := None;
      }
    }

    /** `setToken(token)`: only the token entry changes. */
    method SetToken(token: string)
      modifies this
      ensures items == old(items)[TokenKey := token]
    {
      items := items[TokenKey := token];
    }

    /** `removeToken()`. */
    method RemoveToken()
      modifies this
      ensures items == old(items) - {TokenKey}
    {
      items := items - {TokenKey};
    }

    /** `getUserInfo()`. */
    method GetUserInfo() returns (info: Result<Option<UserInfo>, string>)
      ensures info == Ok(None) <==> UserInfoKey !in items || items[UserInfoKey] == ""
      ensures info.Ok? && info.value.Some? ==> Parse(items[UserInfoKey]) == info.value
      ensures info.Err? ==> UserInfoKey in items && Parse(items[UserInfoKey]).None?
    {
      var text := GetItem(UserInfoKey);
      if text.None? || text.value == "" {
        info := Ok(None);
      } else {
        var parsed := Parse(text.value);
        if parsed.None? {
          info := Err(text.value);
        } else {
          info := Ok(parsed);
        }
      }
    }

    /** `setUserInfo(userInfo)`: stores `JSON.stringify(userInfo)`, only that entry changes. */
    method SetUserInfo(userInfo: UserInfo)
      modifies this
      ensures items == old(items)[UserInfoKey := Stringify(userInfo)]
    {
      items := items[UserInfoKey := Stringify(userInfo)];
    }

    /** `removeUserInfo()`. */
    method RemoveUserInfo()
      modifies this
      ensures items == old(items) - {UserInfoKey}
    {
      items := items - {UserInfoKey};
    }

    /** `clearAuth()`: both entries go, every other key stays. */
    method ClearAuth()
      modifies this
      ensures items == old(items) - {TokenKey, UserInfoKey}
      ensures TokenKey !in items && UserInfoKey !in items
      ensures forall k :: k != TokenKey && k != UserInfoKey ==>
        (k in items <==> k in old(items)) && (k in items ==> items[k] == old(items)[k])
    {
      RemoveToken();
      RemoveUserInfo();
    }

    /** `isAuthenticated()`: `!!getToken()`. */
    method IsAuthenticated() returns (b: bool)
      ensures b <==> TokenKey in items && items[TokenKey] != ""
    {
      var token := GetToken();
      b := token.Some? && token.value != "";
    }

    method GetItem(key: string) returns (v: Option<string>)
      ensures v == Lookup(items, key)
    {
      v := if key in items then Some(items[key]) else None;
    }
  }

  /** `getToken()` after `setToken(t)` returns `t`, and the user info is untouched. */
  lemma SetTokenThenGet(items: map<string, string>, t: string)
    ensures TokenOf(items[TokenKey := t]) == Some(t)
    ensures UserInfoOf(items[TokenKey := t]) == UserInfoOf(items)
    ensures Authenticated(items[TokenKey := t]) <==> t != ""
  {
    assert Lookup(items[TokenKey := t], UserInfoKey) == Lookup(items, UserInfoKey);
  }

  /** `getUserInfo()` after `setUserInfo(u)` returns `u`, and the token is untouched. */
  lemma SetUserInfoThenGet(items: map<string, string>, u: UserInfo)
    ensures UserInfoOf(items[UserInfoKey := Stringify(u)]) == Ok(Some(u))
    ensures TokenOf(items[UserInfoKey := Stringify(u)]) == TokenOf(items)
  {
    var text := Stringify(u);
    ParseStringify(u);
    assert Lookup(items[UserInfoKey := text], UserInfoKey) == Some(text);
    assert |TokenKey| != |UserInfoKey|;
  }

  /** `removeToken()` forgets the token and keeps the user info. */
  lemma RemoveTokenKeepsUserInfo(items: map<string, string>)
    ensures TokenOf(items - {TokenKey}) == None
    ensures !Authenticated(items - {TokenKey})
    ensures UserInfoOf(items - {TokenKey}) == UserInfoOf(items)
  {
    assert Lookup(items - {TokenKey}, UserInfoKey) == Lookup(items, UserInfoKey);
  }

  /** `removeUserInfo()` forgets the user info and keeps the token. */
  lemma RemoveUserInfoKeepsToken(items: map<string, string>)
    ensures UserInfoOf(items - {UserInfoKey}) == Ok(None)
    ensures TokenOf(items - {UserInfoKey}) == TokenOf(items)
  {
    assert Lookup(items - {UserInfoKey}, TokenKey) == Lookup(items, TokenKey);
  }

  /** After `clearAuth()` both getters return null and the session is not authenticated. */
  lemma ClearAuthForgetsSession(items: map<string, string>)
    ensures TokenOf(items - {TokenKey, UserInfoKey}) == None
    ensures UserInfoOf(items - {TokenKey, UserInfoKey}) == Ok(None)
    ensures !Authenticated(items - {TokenKey, UserInfoKey})
  {
  }
}
