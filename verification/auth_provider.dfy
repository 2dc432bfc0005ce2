/**
 * The authentication context: the access and refresh tokens held in memory, read from
 * storage at start, kept in step with storage events from other tabs, and changed by
 * login, logout and register.
 */
module AuthProvider {
  import opened Wrappers
  import opened Js
  import Http

  /** The in-memory tokens; `None` is `null`. */
  datatype Session = Session(access: Option<string>, refresh: Option<string>)

  /** `localStorage.getItem(key)`: the stored value, or `null` when the key is absent. */
  function GetItem(store: Http.Store, key: string): (v: Option<string>)
    ensures v.Some? <==> key in store
    ensures v.Some? ==> v.value == store[key]
  {
    if key in store then Some(store[key]) else None
  }

  /** The state the provider starts in: both tokens as storage holds them. */
  function Init(store: Http.Store): (s: Session)
    ensures s.access == GetItem(store, Http.AccessKey) && s.refresh == GetItem(store, Http.RefreshKey)
  {
    Session(GetItem(store, Http.AccessKey), GetItem(store, Http.RefreshKey))
  }

  /**
   * The storage-event handler: an event for one of the two token keys sets that token to
   * the event's new value; events for any other key, or with no key, change nothing.
   */
  function OnStorage(s: Session, key: Option<string>, newValue: Option<string>): (r: Session)
    ensures key == Some(Http.AccessKey) ==> r.access == newValue && r.refresh == s.refresh
    ensures key == Some(Http.RefreshKey) ==> r.refresh == newValue && r.access == s.access
    ensures key != Some(Http.AccessKey) && key != Some(Http.RefreshKey) ==> r == s
  {
    if key == Some(Http.AccessKey) then s.(access := newValue)
    else if key == Some(Http.RefreshKey) then s.(refresh := newValue)
    else s
  }

  /** Storage after another tab wrote (`Some`) or removed (`None`) one key. */
  function Written(store: Http.Store, key: string, newValue: Option<string>): Http.Store {
    if newValue.Some? then store[key := newValue.value] else store - {key}
  }

  /**
   * The handler keeps the in-memory tokens equal to storage: if they mirrored storage
   * before another tab wrote or removed a key, they mirror it afterwards.
   */
  lemma StorageKeepsMirror(store: Http.Store, key: string, newValue: Option<string>)
    ensures OnStorage(Init(store), Some(key), newValue) == Init(Written(store, key, newValue))
  {
  }

  /** What a login call leaves: whether it succeeded, the tokens in memory, and storage. */
  datatype LoginResult = LoginResult(ok: bool, session: Session, store: Http.Store)

  /**
   * `login`: the service call's parsed answer, or `Threw` when it failed (the rejection
   * reaches the caller). An answer with an `access_token` stores it, stores the refresh
   * token only when one came back, sets both in-memory tokens and succeeds; any other
   * answer fails and changes nothing.
   */
  function Login(s: Session, store: Http.Store, answer: Outcome<Json>): (r: Outcome<LoginResult>)
    ensures r.Threw? <==> answer.Threw?
    ensures r.Returned? ==> (r.value.ok <==> Http.TokenField(answer.value, Http.AccessKey).Some?)
    ensures r.Returned? && !r.value.ok ==> r.value.session == s && r.value.store == store
    ensures r.Returned? && r.value.ok ==>
      var access := Http.TokenField(answer.value, Http.AccessKey).value;
      var refresh := Http.TokenField(answer.value, Http.RefreshKey);
      && r.value.session == Session(Some(access), refresh)
      && Http.AccessKey in r.value.store && r.value.store[Http.AccessKey] == access
      && (refresh.Some? ==> Http.RefreshKey in r.value.store && r.value.store[Http.RefreshKey] == refresh.value)
      && (refresh.None? ==> GetItem(r.value.store, Http.RefreshKey) == GetItem(store, Http.RefreshKey))
      && forall k :: k != Http.AccessKey && k != Http.RefreshKey ==> GetItem(r.value.store, k) == GetItem(store, k)
  {
    match answer
    case Threw => Threw
    case Returned(data) =>
      match Http.TokenField(data, Http.AccessKey)
      case None => Returned(LoginResult(false, s, store))
      case Some(access) =>
        var refresh := Http.TokenField(data, Http.RefreshKey);
        var stored := store[Http.AccessKey := access];
        var stored' := if refresh.Some? then stored[Http.RefreshKey := refresh.value] else stored;
        Returned(LoginResult(true, Session(Some(access), refresh), stored'))
  }

  /**
   * After a successful login the in-memory tokens mirror storage, unless the answer had no
   * refresh token while an older one was stored: that one stays in storage although the
   * in-memory refresh token is `null`.
   */
  lemma LoginMirror(s: Session, store: Http.Store, answer: Outcome<Json>)
    requires Login(s, store, answer).Returned? && Login(s, store, answer).value.ok
    ensures var r := Login(s, store, answer).value;
      r.session == Init(r.store) <==>
        Http.TokenField(answer.value, Http.RefreshKey).Some? || Http.RefreshKey !in store
  {
    var r := Login(s, store, answer).value;
    if Http.TokenField(answer.value, Http.RefreshKey).None? && Http.RefreshKey in store {
      assert GetItem(r.store, Http.RefreshKey) == Some(store[Http.RefreshKey]);
    }
  }

  /** `logout`: both tokens leave storage and memory. */
  function Logout(store: Http.Store): (r: (Session, Http.Store))
    ensures r.0 == Session(None, None)
    ensures Http.AccessKey !in r.1 && Http.RefreshKey !in r.1
    ensures forall k :: k != Http.AccessKey && k != Http.RefreshKey ==> GetItem(r.1, k) == GetItem(store, k)
  {
    (Session(None, None), Http.ClearTokens(store))
  }

  /** After logout the in-memory tokens mirror storage again. */
  lemma LogoutMirror(store: Http.Store)
    ensures Logout(store).0 == Init(Logout(store).1)
  {
  }

  /** `register`: true exactly when the service answered an object whose `isSuccess` is truthy. */
  function Register(answer: Outcome<Json>): (r: Outcome<bool>)
    ensures r.Threw? <==> answer.Threw?
    ensures r.Returned? ==>
      (r.value <==> answer.value.JObj? && Lookup(answer.value.fields, "isSuccess").Some? &&
                    Truthy(Lookup(answer.value.fields, "isSuccess").value))
  {
    match answer
    case Threw => Threw
    case Returned(data) =>
      Returned(Truthy(data) && data.JObj? &&
               (match Lookup(data.fields, "isSuccess")
                case Some(v) => Truthy(v)
                case None => false))
  }
}
