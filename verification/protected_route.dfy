/**
 * The guard around every authenticated page: it shows the page while a token is held,
 * expires the session after a period of inactivity, and sends the user back to the login
 * screen once the expiry notice is accepted.
 */
module ProtectedRoute {
  import opened Wrappers
  import Http
  import AuthProvider
  import UserData

  /** The inactivity period after which the session expires: twenty minutes, in milliseconds. */
  const IdleTimeoutMs: nat := 20 * 60 * 1000

  /** The guard's own flags: whether the expiry notice is shown, and whether inactivity ended the session. */
  datatype Flags = Flags(showExpired: bool, expiredByIdle: bool)

  const Fresh: Flags := Flags(false, false)

  /** What the guard renders. */
  datatype View =
    | Page(noticeOpen: bool)     // the protected page, with the expiry notice (normally closed)
    | ExpiryNotice(open: bool)   // only the expiry notice
    | NoSession                   // the "no active session" screen with its way back to login

  /** `if (accessToken)`: a token that is present and non-empty. */
  predicate HasToken(access: Option<string>) {
    access.Some? && access.value != ""
  }

  /**
   * The view decision: the page while a token is held and inactivity has not ended the
   * session; after an idle expiry only the notice, token or not; otherwise the no-session screen.
   */
  function ViewOf(access: Option<string>, f: Flags): (v: View)
    ensures v.Page? <==> HasToken(access) && !f.expiredByIdle
    ensures v.ExpiryNotice? <==> f.expiredByIdle
    ensures v.NoSession? <==> !HasToken(access) && !f.expiredByIdle
    ensures v.Page? ==> v.noticeOpen == f.showExpired
    ensures v.ExpiryNotice? ==> v.open == f.showExpired
  {
    if HasToken(access) && !f.expiredByIdle then Page(f.showExpired)
    else if f.expiredByIdle then ExpiryNotice(f.showExpired)
    else NoSession
  }

  /** The guard's flags, the in-memory tokens and storage together. */
  datatype Guard = Guard(flags: Flags, session: AuthProvider.Session, store: Http.Store)

  /**
   * The shared logout step: the central logout when the context provides one, otherwise the
   * fallback that removes the profile and both tokens from storage.
   */
  function SignOut(g: Guard, central: bool): (r: Guard)
    ensures r.flags == g.flags
    ensures Http.AccessKey !in r.store && Http.RefreshKey !in r.store
    ensures central ==> r.session == AuthProvider.Session(None, None)
    ensures !central ==> r.session == g.session && UserData.UserDataKey !in r.store
    ensures forall k :: k != UserData.UserDataKey && k != Http.AccessKey && k != Http.RefreshKey ==>
      (k in r.store <==> k in g.store) && (k in g.store ==> r.store[k] == g.store[k])
  {
    if central then
      var (session, store) := AuthProvider.Logout(g.store);
      Guard(g.flags, session, store)
    else
      Guard(g.flags, g.session, UserData.Logout(UserData.Start, g.store).1)
  }

  /**
   * The idle-timer callback: sign out, then show the notice and mark the session as expired by
   * inactivity. A call stands for the timer firing after `IdleTimeoutMs` without user activity.
   */
  function OnIdle(g: Guard, central: bool): (r: Guard)
    ensures r.flags == Flags(true, true)
    ensures Http.AccessKey !in r.store && Http.RefreshKey !in r.store
  {
    SignOut(g, central).(flags := Flags(true, true))
  }

  /** `handleAcceptLogout`: sign out, clear both flags, and go to `/`. */
  function OnAccept(g: Guard, central: bool): (r: (Guard, string))
    ensures r.0.flags == Fresh && r.1 == "/"
    ensures Http.AccessKey !in r.0.store && Http.RefreshKey !in r.0.store
  {
    (SignOut(g, central).(flags := Fresh), "/")
  }

  /**
   * After an idle expiry the open notice is all that is rendered, whatever token the
   * context still holds; with the central logout the page is not reachable either.
   */
  lemma IdleShowsNotice(g: Guard, central: bool)
    ensures ViewOf(OnIdle(g, central).session.access, OnIdle(g, central).flags) == ExpiryNotice(true)
    ensures central ==> !HasToken(OnIdle(g, central).session.access)
  {
  }

  /**
   * Accepting the notice after the central logout leads to the no-session screen; the
   * fallback logout keeps the in-memory token, so a token still held shows the page again.
   */
  lemma AcceptAfterIdle(g: Guard, central: bool)
    ensures var r := OnAccept(OnIdle(g, central), central).0;
      && (central ==> ViewOf(r.session.access, r.flags) == NoSession)
      && (!central ==> ViewOf(r.session.access, r.flags) == ViewOf(g.session.access, Fresh))
  {
  }

  /** Without an idle expiry, the view depends only on the token. */
  lemma FreshView(access: Option<string>)
    ensures ViewOf(access, Fresh) == (if HasToken(access) then Page(false) else NoSession)
  {
  }
}
