/**
 * The signed-in user's profile as the layout reads it from storage: loaded once, cleared
 * on logout, and the basis of `isAuthenticated`.
 */
module UserData {
  import opened Wrappers
  import opened Js
  import Http

  const UserDataKey: string := "user_data"

  /** The hook's state; `JNull` is `null`. */
  datatype UserState = UserState(userData: Json, isLoading: bool)

  /** The state before loading: no profile, loading. */
  const Start: UserState := UserState(JNull, true)

  /** What `JSON.parse` makes of a stored text: a value, or `Threw` for malformed text. */
  type Parser = string -> Outcome<Json>

  /**
   * `loadUserData`: a stored, non-empty profile that parses replaces `userData` with the
   * parsed value; a missing or empty entry, or one that does not parse, leaves it as it
   * was. Loading ends in every case.
   */
  function Load(s: UserState, store: Http.Store, parse: Parser): (r: UserState)
    ensures !r.isLoading
    ensures UserDataKey in store && store[UserDataKey] != "" && parse(store[UserDataKey]).Returned? ==>
      r.userData == parse(store[UserDataKey]).value
    ensures !(UserDataKey in store && store[UserDataKey] != "" && parse(store[UserDataKey]).Returned?) ==>
      r.userData == s.userData
  {
    if UserDataKey in store && store[UserDataKey] != "" then
      match parse(store[UserDataKey])
      case Returned(parsed) => UserState(parsed, false)
      case Threw => s.(isLoading := false)
    else s.(isLoading := false)
  }

  /** `isAuthenticated`: `!!userData`. */
  predicate IsAuthenticated(s: UserState) {
    Truthy(s.userData)
  }

  /**
   * From the start state, the user counts as authenticated after loading exactly when a
   * stored profile parsed to a truthy value; for an object or array (empty ones included) that is whenever it parsed.
   */
  lemma LoadAuthenticates(store: Http.Store, parse: Parser)
    ensures IsAuthenticated(Load(Start, store, parse)) <==>
      UserDataKey in store && store[UserDataKey] != "" && parse(store[UserDataKey]).Returned? &&
      Truthy(parse(store[UserDataKey]).value)
    ensures UserDataKey in store && store[UserDataKey] != "" && parse(store[UserDataKey]).Returned? &&
            (parse(store[UserDataKey]).value.JObj? || parse(store[UserDataKey]).value.JArr?) ==>
      IsAuthenticated(Load(Start, store, parse))
  {
  }

  /** For a profile that is an object or `null`, being authenticated is being non-null. */
  lemma AuthenticatedIsNonNull(s: UserState)
    requires s.userData.JObj? || s.userData.JNull?
    ensures IsAuthenticated(s) <==> s.userData != JNull
  {
  }

  /** A stored profile that parses to a falsy value such as `0` is kept, yet does not authenticate. */
  lemma FalsyProfileNotAuthenticated(store: Http.Store, parse: Parser)
    requires UserDataKey in store && store[UserDataKey] != "" && parse(store[UserDataKey]) == Returned(JNum(0))
    ensures Load(Start, store, parse).userData != JNull
    ensures !IsAuthenticated(Load(Start, store, parse))
  {
  }

  /** `logout`: the profile and both tokens leave storage, other keys stay, and `userData` becomes `null`. */
  function Logout(s: UserState, store: Http.Store): (r: (UserState, Http.Store))
    ensures r.0 == s.(userData := JNull) && !IsAuthenticated(r.0)
    ensures UserDataKey !in r.1 && Http.AccessKey !in r.1 && Http.RefreshKey !in r.1
    ensures forall k :: k != UserDataKey && k != Http.AccessKey && k != Http.RefreshKey ==>
      (k in r.1 <==> k in store) && (k in store ==> r.1[k] == store[k])
  {
    (s.(userData := JNull), store - {UserDataKey, Http.AccessKey, Http.RefreshKey})
  }

  /** Loading after logout finds no profile, so the user stays signed out. */
  lemma LogoutThenLoad(s: UserState, store: Http.Store, parse: Parser)
    ensures !IsAuthenticated(Load(Logout(s, store).0, Logout(s, store).1, parse))
  {
  }
}
