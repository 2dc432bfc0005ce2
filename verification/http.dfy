/**
 * The authenticated request client: every request carries the stored bearer token,
 * and a 401 answer triggers one token refresh and one retry of the request.
 *
 * The browser's key-value storage is a map, and the server is a scripted sequence
 * of answers consumed one per request (an exhausted script answers by throwing, like
 * an unreachable server). Every request made is appended to a trace.
 */
module Http {
  import opened Wrappers
  import opened Js

  /** A response as the client code inspects it; `body` is `None` when it is not JSON. */
  datatype Response = Response(status: int, statusText: string, allow: Option<string>, body: Option<Json>) {
    /** `res.ok`. */
    predicate Ok() {
      200 <= status <= 299
    }
  }

  /** Header names are lower case: `Headers` treats them case-insensitively. */
  type Headers = map<string, string>

  const Authorization: string := "authorization"
  const Accept: string := "accept"
  const ContentType: string := "content-type"
  const JsonMime: string := "application/json"

  /** The options a caller passes to `fetch`. */
  datatype Init = Init(verb: string, headers: Headers, body: Option<Json>)

  /** One request as it reaches the network. */
  datatype Request = Request(url: string, verb: string, headers: Headers, body: Option<Json>)

  /** The browser's persistent key-value storage. */
  type Store = map<string, string>

  const AccessKey: string := "access_token"
  const RefreshKey: string := "refresh_token"

  /** Storage, the answers the server has yet to give, and the requests made so far. */
  datatype World = World(store: Store, script: seq<Outcome<Response>>, trace: seq<Request>)

  /** The answer the server gives to the next request. */
  function NextAnswer(w: World): Outcome<Response> {
    if |w.script| > 0 then w.script[0] else Threw
  }

  /** The answer the server gives to the `i`-th request from now. */
  function ScriptAt(w: World, i: nat): (o: Outcome<Response>)
    ensures i == 0 ==> o == NextAnswer(w)
  {
    if i < |w.script| then w.script[i] else Threw
  }

  /** Issues one request: it joins the trace and consumes one scripted answer. */
  function Send(w: World, req: Request): (r: (Outcome<Response>, World))
    ensures r.0 == NextAnswer(w)
    ensures r.1 == World(w.store, if |w.script| > 0 then w.script[1..] else [], w.trace + [req])
  {
    if |w.script| > 0 then (w.script[0], World(w.store, w.script[1..], w.trace + [req]))
    else (Threw, World(w.store, [], w.trace + [req]))
  }

  /** A stored token that `if (token)` accepts: present and non-empty. */
  function UsableToken(store: Store, key: string): (t: Option<string>)
    ensures t.Some? <==> key in store && store[key] != ""
    ensures t.Some? ==> t.value == store[key]
  {
    if key in store && store[key] != "" then Some(store[key]) else None
  }

  /**
   * The caller's headers with `Authorization: Bearer <token>` when a token is given and
   * `Accept: application/json` always.
   */
  function BuildHeaders(caller: Headers, token: Option<string>): (h: Headers)
    ensures Accept in h && h[Accept] == JsonMime
    ensures token.Some? ==> Authorization in h && h[Authorization] == "Bearer " + token.value
    ensures token.None? ==> (Authorization in h <==> Authorization in caller)
    ensures token.None? && Authorization in caller ==> h[Authorization] == caller[Authorization]
    ensures forall k :: k != Accept && k != Authorization ==>
      (k in h <==> k in caller) && (k in caller ==> h[k] == caller[k])
  {
    var withAuth := if token.Some? then caller[Authorization := "Bearer " + token.value] else caller;
    withAuth[Accept := JsonMime]
  }

  /** The refresh call: a JSON POST of the refresh token to the refresh endpoint. */
  function RefreshRequest(base: string, token: string): Request {
    Request(base + "Auth/refresh", "POST", map[ContentType := JsonMime], Some(JObj([("token", JStr(token))])))
  }

  /**
   * A token field of a parsed body that `if (data.field)` accepts, as `String` renders it.
   * `JSON.parse` keeps the last of repeated names, so the last property of that name is read.
   */
  function TokenField(body: Json, name: string): (t: Option<string>)
    ensures t.Some? <==> body.JObj? && LastValue(body.fields, name).Some? && Truthy(LastValue(body.fields, name).value)
    ensures t.Some? ==> t.value == ToJsString(LastValue(body.fields, name).value)
  {
    match body
    case JObj(fields) =>
      (match LastValue(fields, name)
       case Some(v) => if Truthy(v) then Some(ToJsString(v)) else None
       case None => None)
    case _ => None
  }

  /** What the refresh call yields: the parsed body, or `Threw` when the call or the parse failed. */
  function RefreshBody(answer: Outcome<Response>): Outcome<Json> {
    match answer
    case Threw => Threw
    case Returned(res) => if res.body.Some? then Returned(res.body.value) else Threw
  }

  /** The new access token a refresh answer carries, if any. */
  function NewAccess(answer: Outcome<Response>): Option<string> {
    match RefreshBody(answer)
    case Threw => None
    case Returned(j) => TokenField(j, AccessKey)
  }

  /** The storage after a refresh that returned a new access token. */
  function StoreRefreshed(store: Store, access: string, body: Json): (s: Store)
    ensures AccessKey in s && s[AccessKey] == access
    ensures TokenField(body, RefreshKey).Some? ==> RefreshKey in s && s[RefreshKey] == TokenField(body, RefreshKey).value
    ensures TokenField(body, RefreshKey).None? ==>
      (RefreshKey in s <==> RefreshKey in store) && (RefreshKey in store ==> s[RefreshKey] == store[RefreshKey])
    ensures forall k :: k != AccessKey && k != RefreshKey ==> (k in s <==> k in store) && (k in store ==> s[k] == store[k])
  {
    var s := store[AccessKey := access];
    match TokenField(body, RefreshKey)
    case Some(t) => s[RefreshKey := t]
    case None => s
  }

  datatype FetchResult = FetchResult(outcome: Outcome<Response>, world: World)

  /**
   * `fetchWithAuth(url, init)`: the request with the stored bearer token; on a 401, one
   * refresh with the stored refresh token and, when it yields a new access token, the
   * new tokens stored and the request re-issued once. A failed refresh or retry gives
   * back the first 401; only a failure of the first request propagates.
   */
  function FetchWithAuth(base: string, url: string, init: Init, w: World): (r: FetchResult)
    // The trace only grows, by one to three requests.
    ensures |w.trace| < |r.world.trace| <= |w.trace| + 3 && r.world.trace[..|w.trace|] == w.trace
    // Anything but a 401 is returned unchanged after one request, storage untouched.
    ensures !(NextAnswer(w).Returned? && NextAnswer(w).value.status == 401) ==>
      r.outcome == NextAnswer(w) && |r.world.trace| == |w.trace| + 1 && r.world.store == w.store
    // Only the first request can make the call throw.
    ensures r.outcome.Threw? ==> NextAnswer(w).Threw?
    // Each request consumes one scripted answer.
    ensures |r.world.trace| - |w.trace| <= |w.script| ==> r.world.script == w.script[|r.world.trace| - |w.trace|..]
    // A 401, a usable refresh token and a refresh answer with a new access token: the new
    // tokens are stored, the request is re-sent with the new token, and the retry's answer
    // is returned unless the retry throws.
    ensures NextAnswer(w).Returned? && NextAnswer(w).value.status == 401 &&
            UsableToken(w.store, RefreshKey).Some? && NewAccess(ScriptAt(w, 1)).Some? ==>
      && |r.world.trace| == |w.trace| + 3
      && r.world.store == StoreRefreshed(w.store, NewAccess(ScriptAt(w, 1)).value, RefreshBody(ScriptAt(w, 1)).value)
      && r.world.trace[|w.trace| + 2] == Request(url, init.verb, BuildHeaders(init.headers, NewAccess(ScriptAt(w, 1))), init.body)
      && r.outcome == (if ScriptAt(w, 2).Returned? then ScriptAt(w, 2) else NextAnswer(w))
    // A refresh that throws or carries no access token gives back the first 401, storage untouched.
    ensures NextAnswer(w).Returned? && NextAnswer(w).value.status == 401 &&
            UsableToken(w.store, RefreshKey).Some? && NewAccess(ScriptAt(w, 1)).None? ==>
      r.outcome == NextAnswer(w) && |r.world.trace| == |w.trace| + 2 && r.world.store == w.store
  {
    var (first, w1) := Send(w, Request(url, init.verb, BuildHeaders(init.headers, UsableToken(w.store, AccessKey)), init.body));
    match first
    case Threw => FetchResult(Threw, w1)
    case Returned(res) =>
      if res.status != 401 then FetchResult(first, w1)
      else
        match UsableToken(w1.store, RefreshKey)
        case None => FetchResult(first, w1)
        case Some(refresh) =>
          var (answer, w2) := Send(w1, RefreshRequest(base, refresh));
          match RefreshBody(answer)
          case Threw => FetchResult(first, w2)
          case Returned(body) =>
            match TokenField(body, AccessKey)
            case None => FetchResult(first, w2)
            case Some(access) =>
              var w3 := w2.(store := StoreRefreshed(w2.store, access, body));
              var (retried, w4) := Send(w3, Request(url, init.verb, BuildHeaders(init.headers, Some(access)), init.body));
              match retried
              case Threw => FetchResult(first, w4)
              case Returned(_) => FetchResult(retried, w4)
  }

  /**
   * The requests `fetchWithAuth` issues and what it does to storage: the first request
   * carries the stored token; a 401 without a usable refresh token is final; the second
   * request, if any, is the refresh call with the stored refresh token.
   */
  lemma FetchWithAuthRequests(base: string, url: string, init: Init, w: World)
    ensures var r := FetchWithAuth(base, url, init, w);
      r.world.trace[|w.trace|] == Request(url, init.verb, BuildHeaders(init.headers, UsableToken(w.store, AccessKey)), init.body)
    ensures var r := FetchWithAuth(base, url, init, w);
      NextAnswer(w).Returned? && UsableToken(w.store, RefreshKey).None? ==>
        r.outcome == NextAnswer(w) && |r.world.trace| == |w.trace| + 1 && r.world.store == w.store
    ensures var r := FetchWithAuth(base, url, init, w);
      |r.world.trace| >= |w.trace| + 2 ==>
        UsableToken(w.store, RefreshKey).Some? &&
        r.world.trace[|w.trace| + 1] == RefreshRequest(base, UsableToken(w.store, RefreshKey).value)
  {
  }

  /**
   * The retry: after a 401, a refresh with the stored refresh token `t` whose parsed answer
   * `b` carries the access token `a` stores the new tokens, re-sends the original request
   * with `Bearer a`, and returns the retry's answer (or the first 401 when the retry throws).
   */
  lemma FetchWithAuthRetry(base: string, url: string, init: Init, w: World, t: string, b: Json, a: string)
    requires NextAnswer(w).Returned? && NextAnswer(w).value.status == 401
    requires UsableToken(w.store, RefreshKey) == Some(t)
    requires RefreshBody(ScriptAt(w, 1)) == Returned(b) && TokenField(b, AccessKey) == Some(a)
    ensures var r := FetchWithAuth(base, url, init, w);
      && |r.world.trace| == |w.trace| + 3
      && r.world.trace[|w.trace| + 1] == RefreshRequest(base, t)
      && r.world.trace[|w.trace| + 2] == Request(url, init.verb, BuildHeaders(init.headers, Some(a)), init.body)
      && r.world.store == StoreRefreshed(w.store, a, b)
      && r.outcome == (if ScriptAt(w, 2).Returned? then ScriptAt(w, 2) else NextAnswer(w))
  {
    FetchWithAuthRequests(base, url, init, w);
  }

  /** Without a new access token from the refresh there is no retry: two requests, the first 401, storage untouched. */
  lemma FetchWithAuthNoRetry(base: string, url: string, init: Init, w: World)
    requires NextAnswer(w).Returned? && NextAnswer(w).value.status == 401
    requires UsableToken(w.store, RefreshKey).Some?
    requires ScriptAt(w, 1).Threw? || RefreshBody(ScriptAt(w, 1)).Threw? ||
             TokenField(RefreshBody(ScriptAt(w, 1)).value, AccessKey).None?
    ensures var r := FetchWithAuth(base, url, init, w);
      r.outcome == NextAnswer(w) && |r.world.trace| == |w.trace| + 2 && r.world.store == w.store
  {
  }

  /**
   * Storage changes only on the path that reaches the retry, and there it becomes the
   * refreshed storage; no key but the two tokens ever changes.
   */
  lemma FetchWithAuthStore(base: string, url: string, init: Init, w: World)
    ensures var r := FetchWithAuth(base, url, init, w);
      r.world.store != w.store ==> |r.world.trace| == |w.trace| + 3
    ensures var r := FetchWithAuth(base, url, init, w);
      |r.world.trace| == |w.trace| + 3 ==>
        NewAccess(ScriptAt(w, 1)).Some? &&
        r.world.store == StoreRefreshed(w.store, NewAccess(ScriptAt(w, 1)).value, RefreshBody(ScriptAt(w, 1)).value)
    ensures var r := FetchWithAuth(base, url, init, w);
      forall k :: k != AccessKey && k != RefreshKey ==>
        (k in r.world.store <==> k in w.store) && (k in w.store ==> r.world.store[k] == w.store[k])
  {
  }

  /** `clearTokens()`: removes the two token keys from storage and nothing else. */
  function ClearTokens(store: Store): (s: Store)
    ensures AccessKey !in s && RefreshKey !in s
    ensures forall k :: k != AccessKey && k != RefreshKey ==> (k in s <==> k in store) && (k in store ==> s[k] == store[k])
  {
    store - {AccessKey, RefreshKey}
  }
}
