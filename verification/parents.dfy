/**
 * The parents page: saving a parent (update when the form values carry an `Id`,
 * create otherwise), logical deletion behind a confirmation, and reactivation through
 * its own copy of the candidate-probing loop, which also reloads the list.
 */
module Parents {
  import opened Wrappers
  import opened Text
  import opened Js
  import opened Http
  import ConfigApi
  import RestoreHelper
  import NormalizeResponse

  /** A notification shown to the user. `Thrown` carries the message of a caught error, which the model does not know. */
  datatype Toast = Success(text: string) | Failure(text: string) | Thrown

  /** The six text fields of a parent, in the order the page sends them. */
  const TextFields: seq<string> := ["FirstName", "LastName", "Identification", "Phone", "Address", "Occupation"]

  /** The parent operations below the base: create, list, by id, update, delete. */
  function Routes(base: string): (es: seq<(string, string)>)
    ensures |es| == 5
  {
    ConfigApi.Endpoints(base)[1].entries
  }

  /** `String(x ?? '')` for the property `f` of `o`. */
  function FieldText(o: Obj<Json>, f: string): (t: string)
    ensures Lookup(o, f).None? || Lookup(o, f) == Some(JNull) ==> t == ""
    ensures Lookup(o, f).Some? && Lookup(o, f).value.JStr? ==> t == Lookup(o, f).value.s
  {
    match Lookup(o, f)
    case None => ""
    case Some(v) => if v.JNull? then "" else ToJsString(v)
  }

  /** The six text fields of `o`, each rendered as a string. */
  function TextBody(o: Obj<Json>): (b: Obj<Json>)
    ensures |b| == |TextFields| && DistinctKeys(b)
    ensures forall i :: 0 <= i < |b| ==> b[i] == (TextFields[i], JStr(FieldText(o, TextFields[i])))
  {
    seq(|TextFields|, i requires 0 <= i < |TextFields| => (TextFields[i], JStr(FieldText(o, TextFields[i]))))
  }

  /** The reactivation payload: the six text fields and `active: true`. */
  function ActivatePayload(item: Obj<Json>): Json {
    JObj(TextBody(item) + [("active", JBool(true))])
  }

  /** The page's four reactivation candidates for parent `id`, in the order they are tried. */
  function ActivationCandidates(base: string, id: int, item: Obj<Json>): (cs: seq<RestoreHelper.Candidate>)
    ensures |cs| == 4
  {
    [ RestoreHelper.Candidate(ConfigApi.ResolveId(Routes(base)[3].1, id), "PATCH", Some(ActivatePayload(item))),
      RestoreHelper.Candidate(ConfigApi.ResolveId(Routes(base)[4].1, id), "PATCH", Some(RestoreHelper.ActiveTrue)),
      RestoreHelper.Candidate(base + "Parent/" + IntToString(id) + "/restore/", "POST", None),
      RestoreHelper.Candidate(base + "Parent/" + IntToString(id) + "/activate/", "POST", Some(RestoreHelper.ActiveTrue)) ]
  }

  /** The parent operations' names, in declaration order. */
  lemma RouteNames(base: string)
    ensures ConfigApi.GroupOf(ConfigApi.Endpoints(base), "Parent") == Some(ConfigApi.Endpoints(base)[1])
    ensures Routes(base)[0].0 == "createParent" && Routes(base)[1].0 == "getAllParents"
    ensures Routes(base)[2].0 == "getParentById" && Routes(base)[3].0 == "updateParent"
    ensures Routes(base)[4].0 == "deleteParent"
    ensures Routes(base)[1].1 == base + "Parent/"
  {
    var t := ConfigApi.Endpoints(base);
    assert t[0].name == "Auth" && t[1].name == "Parent";
  }

  /**
   * The page's candidates are exactly those the generic helper builds for the `Parent`
   * group with the same payload: `updateParent` and `deleteParent` are the first
   * operations whose names contain `update` and `delete`.
   */
  lemma CandidatesMatchHelper(base: string, id: int, item: Obj<Json>)
    ensures ActivationCandidates(base, id, item)
         == RestoreHelper.Candidates(base, Routes(base), "Parent", id, Some(ActivatePayload(item)))
  {
    ParentKeys(base);
    CandidatesOfKeys(base, Routes(base), "Parent", id, Some(ActivatePayload(item)));
    ConventionalUrls(base, id);
  }

  /** The helper's candidates for five operations whose fourth is the `update` one and fifth the `delete` one. */
  lemma CandidatesOfKeys(base: string, es: seq<(string, string)>, key: string, id: int, payload: Option<Json>)
    requires |es| == 5
    requires RestoreHelper.FindKey(es, "update") == Some(3) && RestoreHelper.FindKey(es, "delete") == Some(4)
    ensures RestoreHelper.Candidates(base, es, key, id, payload)
         == [ RestoreHelper.Candidate(ConfigApi.ResolveId(es[3].1, id), "PATCH", payload),
              RestoreHelper.Candidate(ConfigApi.ResolveId(es[4].1, id), "PATCH", Some(RestoreHelper.ActiveTrue)),
              RestoreHelper.Candidate(RestoreHelper.ActionUrl(base, key, id, "restore"), "POST", None),
              RestoreHelper.Candidate(RestoreHelper.ActionUrl(base, key, id, "activate"), "POST", Some(RestoreHelper.ActiveTrue)) ]
  {
    var gs := RestoreHelper.Candidates(base, es, key, id, payload);
    assert |gs| == 4;
    assert gs[0] == RestoreHelper.Candidate(ConfigApi.ResolveId(es[3].1, id), "PATCH", payload);
    assert gs[1] == RestoreHelper.Candidate(ConfigApi.ResolveId(es[4].1, id), "PATCH", Some(RestoreHelper.ActiveTrue));
  }

  /** The page spells the restore and activate routes of a parent as the helper does. */
  lemma ConventionalUrls(base: string, id: int)
    ensures RestoreHelper.ActionUrl(base, "Parent", id, "restore") == base + "Parent/" + IntToString(id) + "/restore/"
    ensures RestoreHelper.ActionUrl(base, "Parent", id, "activate") == base + "Parent/" + IntToString(id) + "/activate/"
  {
    ActionUrlSpelled(base, "Parent", id, "restore", "Parent/", "/restore/");
    ActionUrlSpelled(base, "Parent", id, "activate", "Parent/", "/activate/");
  }

  /** A conventional route with the entity key and the action glued to their slashes. */
  lemma ActionUrlSpelled(base: string, key: string, id: int, action: string, keySlash: string, tail: string)
    requires keySlash == key + "/" && tail == "/" + action + "/"
    ensures RestoreHelper.ActionUrl(base, key, id, action) == base + keySlash + IntToString(id) + tail
  {
    var x := IntToString(id);
    calc {
      RestoreHelper.ActionUrl(base, key, id, action);
      base + key + "/" + x + "/" + action + "/";
      { assert base + key + "/" + x + "/" + action + "/" == base + (key + "/") + x + ("/" + action + "/"); }
      base + keySlash + x + tail;
    }
  }

  /** In the `Parent` group the first `update` operation is `updateParent` and the first `delete` one is `deleteParent`. */
  lemma ParentKeys(base: string)
    ensures RestoreHelper.FindKey(Routes(base), "update") == Some(3)
    ensures RestoreHelper.FindKey(Routes(base), "delete") == Some(4)
  {
    var es := Routes(base);
    RouteNames(base);
    UpdateLetters(es[0].0, es[1].0, es[2].0, es[3].0, "update");
    DeleteLetters(es[0].0, es[1].0, es[2].0, es[3].0, es[4].0, "delete");
    KeysOfMatches(es, "update", "delete");
  }

  /** Five operations of which only the fourth matches `up` and the fifth is the first matching `del`. */
  lemma KeysOfMatches(es: seq<(string, string)>, up: string, del: string)
    requires |es| == 5
    requires !ContainsIgnoreCase(es[0].0, up) && !ContainsIgnoreCase(es[1].0, up) && !ContainsIgnoreCase(es[2].0, up)
    requires ContainsIgnoreCase(es[3].0, up)
    requires !ContainsIgnoreCase(es[0].0, del) && !ContainsIgnoreCase(es[1].0, del) && !ContainsIgnoreCase(es[2].0, del)
    requires !ContainsIgnoreCase(es[3].0, del) && ContainsIgnoreCase(es[4].0, del)
    ensures RestoreHelper.FindKey(es, up) == Some(3)
    ensures RestoreHelper.FindKey(es, del) == Some(4)
  {
    RestoreHelper.FindKeyAt(es, up, 3);
    RestoreHelper.FindKeyAt(es, del, 4);
  }

  /** Which operation names of the group contain `update`, ignoring case. */
  lemma UpdateLetters(n0: string, n1: string, n2: string, n3: string, up: string)
    requires n0 == "createParent" && n1 == "getAllParents" && n2 == "getParentById"
    requires n3 == "updateParent" && up == "update"
    ensures !ContainsIgnoreCase(n0, up) && !ContainsIgnoreCase(n1, up) && !ContainsIgnoreCase(n2, up)
    ensures ContainsIgnoreCase(n3, up)
  {
    MissingLetter(n0, up, 0);
    MissingLetter(n1, up, 0);
    MissingLetter(n2, up, 0);
    PrefixIgnoringCase(n3, up);
  }

  /** Which operation names of the group contain `delete`, ignoring case. */
  lemma DeleteLetters(n0: string, n1: string, n2: string, n3: string, n4: string, del: string)
    requires n0 == "createParent" && n1 == "getAllParents" && n2 == "getParentById"
    requires n3 == "updateParent" && n4 == "deleteParent" && del == "delete"
    ensures !ContainsIgnoreCase(n0, del) && !ContainsIgnoreCase(n1, del) && !ContainsIgnoreCase(n2, del)
    ensures !ContainsIgnoreCase(n3, del) && ContainsIgnoreCase(n4, del)
  {
    NoDeleteLetters(n0, n1, del);
    NoLetterL(n2, n3, del);
    PrefixIgnoringCase(n4, del);
  }

  lemma NoDeleteLetters(n0: string, n1: string, del: string)
    requires n0 == "createParent" && n1 == "getAllParents" && del == "delete"
    ensures !ContainsIgnoreCase(n0, del) && !ContainsIgnoreCase(n1, del)
  {
    MissingLetter(n0, del, 0);
    MissingLetter(n1, del, 0);
  }

  lemma NoLetterL(n2: string, n3: string, del: string)
    requires n2 == "getParentById" && n3 == "updateParent" && del == "delete"
    ensures !ContainsIgnoreCase(n2, del) && !ContainsIgnoreCase(n3, del)
  {
    MissingLetter(n2, del, 2);
    MissingLetter(n3, del, 2);
  }

  /** The list request `load` sends: a plain GET of the `getAllParents` URL, without the authenticated client. */
  function ListRequest(base: string): Request {
    Request(base + "Parent/", "GET", map[], None)
  }

  /** The list request goes to the group's `getAllParents` operation. */
  lemma ListRequestRoute(base: string)
    ensures ListRequest(base).url == Routes(base)[1].1 && Routes(base)[1].0 == "getAllParents"
  {
    RouteNames(base);
  }

  /** `load()`: the list fetched and normalised, or `Threw` when the request, the parse or the normalisation fails. */
  function Load(base: string, w: World): (r: (Outcome<seq<Obj<Json>>>, World))
    ensures r.1.trace == w.trace + [ListRequest(base)]
    ensures r.1.store == w.store
    ensures r.0.Returned? <==>
      NextAnswer(w).Returned? && NextAnswer(w).value.body.Some? && NormalizeResponse.NormalizeArray(NextAnswer(w).value.body.value).Returned?
    ensures r.0.Returned? ==> r.0 == NormalizeResponse.NormalizeArray(NextAnswer(w).value.body.value)
  {
    var (answer, w1) := Send(w, ListRequest(base));
    match answer
    case Threw => (Threw, w1)
    case Returned(res) =>
      match res.body
      case None => (Threw, w1)
      case Some(b) => (NormalizeResponse.NormalizeArray(b), w1)
  }

  /** The error text of a refused candidate: the body's `message` property when there is one, else the status text. */
  function ErrorText(res: Response): string {
    match res.body
    case Some(JObj(fs)) => if HasKey(fs, "message") then ToJsString(Lookup(fs, "message").value) else res.statusText
    case _ => res.statusText
  }

  /** The `Allow` header, or `none` when it is missing or empty. */
  function AllowText(res: Response): (t: string)
    ensures t != ""
  {
    match res.allow
    case Some(a) => if a != "" then a else "none"
    case None => "none"
  }

  /** The message after every candidate failed, naming the last response's `Allow` header when there was one. */
  function ExhaustedText(lastRes: Option<Response>): string {
    match lastRes
    case Some(res) => "No se pudo activar (server allow: " + AllowText(res) + ")"
    case None => "No se pudo activar el registro (no response)"
  }

  const Activated: string := "Registro activado"

  /**
   * A run of the page's reactivation: the notifications shown, each tried candidate's
   * outcome, how many reloads failed after an accepted candidate, the reloaded list (if a
   * reload succeeded) and the final world.
   */
  datatype Activation = Activation(toasts: seq<Toast>, outcomes: seq<Outcome<Response>>, reloadFailures: nat,
                                   items: Option<seq<Obj<Json>>>, world: World)

  /**
   * The loop of `handleActivate`. An accepted candidate shows a success and reloads the
   * list; because the reload sits inside the per-candidate `try`, a failing reload moves
   * on to the next candidate like a network error would.
   */
  function ActivateLoop(base: string, cs: seq<RestoreHelper.Candidate>, w: World, lastRes: Option<Response>, toasts: seq<Toast>)
    : (r: Activation)
    ensures |r.outcomes| <= |cs|
    decreases |cs|, 1
  {
    if |cs| == 0 then Activation(toasts + [Failure(ExhaustedText(lastRes))], [], 0, None, w)
    else ActivateStep(base, cs, FetchWithAuth(base, cs[0].url, RestoreHelper.CandidateInit(cs[0]), w), lastRes, toasts)
  }

  /** One iteration of the loop, given what the authenticated client did with the first candidate. */
  function ActivateStep(base: string, cs: seq<RestoreHelper.Candidate>, f: FetchResult, lastRes: Option<Response>, toasts: seq<Toast>)
    : (r: Activation)
    requires |cs| > 0
    ensures 0 < |r.outcomes| <= |cs| && r.outcomes[0] == f.outcome
    decreases |cs|, 0
  {
    match f.outcome
    case Threw =>
      var rest := ActivateLoop(base, cs[1..], f.world, lastRes, toasts);
      Activation(rest.toasts, [f.outcome] + rest.outcomes, rest.reloadFailures, rest.items, rest.world)
    case Returned(res) =>
      if res.Ok() then
        var shown := toasts + [Success(Activated)];
        var (loaded, w2) := Load(base, f.world);
        match loaded
        case Returned(items) => Activation(shown, [f.outcome], 0, Some(items), w2)
        case Threw =>
          var rest := ActivateLoop(base, cs[1..], w2, Some(res), shown);
          Activation(rest.toasts, [f.outcome] + rest.outcomes, rest.reloadFailures + 1, rest.items, rest.world)
      else if res.status == 405 then
        var rest := ActivateLoop(base, cs[1..], f.world, Some(res), toasts);
        Activation(rest.toasts, [f.outcome] + rest.outcomes, rest.reloadFailures, rest.items, rest.world)
      else
        Activation(toasts + [Failure(ErrorText(res))], [f.outcome], 0, None, f.world)
  }

  /** The shape of an activation run: the notifications a run adds to those shown before. */
  predicate Shaped(r: Activation, toasts: seq<Toast>) {
    && |r.toasts| == |toasts| + 1 + r.reloadFailures && r.toasts[..|toasts|] == toasts
    && (r.items.Some? ==> r.toasts[|r.toasts| - 1] == Success(Activated))
  }

  /**
   * Every run tries at least one candidate when there is one, keeps the notifications shown
   * before, and adds one per failed reload plus a final one; a reloaded list comes with a
   * success as the last notification.
   */
  lemma {:induction false} ActivateLoopShape(base: string, cs: seq<RestoreHelper.Candidate>, w: World,
                                             lastRes: Option<Response>, toasts: seq<Toast>)
    ensures var r := ActivateLoop(base, cs, w, lastRes, toasts);
      (|cs| > 0 ==> |r.outcomes| > 0) && Shaped(r, toasts)
    decreases |cs|, 2
  {
    if |cs| > 0 {
      ActivateStepShape(base, cs, FetchWithAuth(base, cs[0].url, RestoreHelper.CandidateInit(cs[0]), w), lastRes, toasts);
    }
  }

  lemma {:induction false} ActivateStepShape(base: string, cs: seq<RestoreHelper.Candidate>, f: FetchResult,
                                             lastRes: Option<Response>, toasts: seq<Toast>)
    requires |cs| > 0
    ensures Shaped(ActivateStep(base, cs, f, lastRes, toasts), toasts)
    decreases |cs|, 1
  {
    if RestoreHelper.Classify(f.outcome) == RestoreHelper.Advance {
      AdvanceShape(base, cs, f, lastRes, toasts);
    } else if f.outcome.value.Ok() {
      AcceptedShape(base, cs, f, lastRes, toasts);
    }
  }

  /** A candidate that moves the loop on leaves the shape to the rest of the run. */
  lemma {:induction false} AdvanceShape(base: string, cs: seq<RestoreHelper.Candidate>, f: FetchResult,
                                        lastRes: Option<Response>, toasts: seq<Toast>)
    requires |cs| > 0 && RestoreHelper.Classify(f.outcome) == RestoreHelper.Advance
    ensures Shaped(ActivateStep(base, cs, f, lastRes, toasts), toasts)
    decreases |cs|, 0
  {
    var seen := if f.outcome.Returned? then Some(f.outcome.value) else lastRes;
    var rest := ActivateLoop(base, cs[1..], f.world, seen, toasts);
    assert ActivateStep(base, cs, f, lastRes, toasts)
        == Activation(rest.toasts, [f.outcome] + rest.outcomes, rest.reloadFailures, rest.items, rest.world);
    ActivateLoopShape(base, cs[1..], f.world, seen, toasts);
  }

  /** After an accepted candidate the success stays in place, whatever the reload does. */
  lemma {:induction false} AcceptedShape(base: string, cs: seq<RestoreHelper.Candidate>, f: FetchResult,
                                         lastRes: Option<Response>, toasts: seq<Toast>)
    requires |cs| > 0 && f.outcome.Returned? && f.outcome.value.Ok()
    ensures Shaped(ActivateStep(base, cs, f, lastRes, toasts), toasts)
    decreases |cs|, 0
  {
    var shown := toasts + [Success(Activated)];
    var (loaded, w2) := Load(base, f.world);
    if loaded.Threw? {
      ActivateLoopShape(base, cs[1..], w2, Some(f.outcome.value), shown);
      var rest := ActivateLoop(base, cs[1..], w2, Some(f.outcome.value), shown);
      assert rest.toasts[..|toasts|] == rest.toasts[..|shown|][..|toasts|];
    }
  }

  /** The first parent in the list whose `Id` is the number `id` (`===`, so a string id never matches). */
  function FindById(items: seq<Obj<Json>>, id: int): (r: Option<nat>)
    ensures r.Some? ==> r.value < |items| && Lookup(items[r.value], "Id") == Some(JNum(id))
    ensures r.Some? ==> forall j :: 0 <= j < r.value ==> Lookup(items[j], "Id") != Some(JNum(id))
    ensures r.None? ==> forall j :: 0 <= j < |items| ==> Lookup(items[j], "Id") != Some(JNum(id))
  {
    if |items| == 0 then None
    else if Lookup(items[0], "Id") == Some(JNum(id)) then Some(0)
    else
      match FindById(items[1..], id)
      case None => None
      case Some(i) => Some(i + 1)
  }

  /**
   * `handleActivate(id)`: nothing happens for an id not in the list. For a listed parent
   * the first candidate is sent through the authenticated client; while no reload fails,
   * the candidates tried and their outcomes are those of the generic probe on the
   * candidates the helper builds for the `Parent` group, and the notification is the one
   * that probe's verdict calls for.
   */
  function Activate(base: string, items: seq<Obj<Json>>, id: int, w: World): (r: Activation)
    ensures FindById(items, id).None? ==> r == Activation([], [], 0, None, w)
    ensures FindById(items, id).Some? ==>
      var item := items[FindById(items, id).value];
      var cs := RestoreHelper.Candidates(base, Routes(base), "Parent", id, Some(ActivatePayload(item)));
      && 0 < |r.outcomes| && r.outcomes[0] == FetchWithAuth(base, cs[0].url, RestoreHelper.CandidateInit(cs[0]), w).outcome
      && Shaped(r, [])
      && (r.reloadFailures == 0 ==>
            r.outcomes == RestoreHelper.ProbeLoop(base, cs, w, None).outcomes && Agrees(r, |cs|, None, []))
      // The first candidate is sent first, earlier requests are kept, and while no reload fails the
      // world is the generic loop's, followed by the list reload exactly when a list is shown.
      && |w.trace| < |r.world.trace| && r.world.trace[..|w.trace|] == w.trace
      && r.world.trace[|w.trace|] == Request(cs[0].url, cs[0].verb,
           BuildHeaders(RestoreHelper.CandidateInit(cs[0]).headers, UsableToken(w.store, AccessKey)), cs[0].body)
      && (r.reloadFailures == 0 ==>
            var p := RestoreHelper.ProbeLoop(base, cs, w, None);
            if r.items.Some? then Load(base, p.world).0 == Returned(r.items.value) && r.world == Load(base, p.world).1
            else r.world == p.world)
  {
    match FindById(items, id)
    case None => Activation([], [], 0, None, w)
    case Some(i) =>
      var cs := ActivationCandidates(base, id, items[i]);
      CandidatesMatchHelper(base, id, items[i]);
      ActivateLoopShape(base, cs, w, None, []);
      ActivateLoopAgrees(base, cs, w, None, []);
      ActivateLoopProbes(base, cs, w, None, []);
      ActivateLoopKeepsTrace(base, cs, w, None, []);
      ActivateLoopFirstRequest(base, cs, w, None, []);
      ActivateLoop(base, cs, w, None, [])
  }

  /** The notification matching a verdict of the generic loop: `stopped` says whether a candidate ended it. */
  function Notice(v: RestoreHelper.ActivateResult, stopped: bool): Toast {
    if v.ok then Success(Activated)
    else if stopped && v.res.Some? then Failure(ErrorText(v.res.value))
    else Failure(ExhaustedText(v.res))
  }

  /**
   * What the page shows agrees with the generic loop's verdict on the same outcomes: the
   * loop stops where the verdict says, shows the notification that verdict calls for, and
   * holds a reloaded list exactly when the verdict is a success.
   */
  predicate Agrees(r: Activation, candidates: nat, lastRes: Option<Response>, toasts: seq<Toast>) {
    var v := RestoreHelper.Verdict(r.outcomes, lastRes);
    && RestoreHelper.WellStopped(r.outcomes, candidates)
    && r.toasts == toasts + [Notice(v, RestoreHelper.FirstStop(r.outcomes) < |r.outcomes|)]
    && (r.items.Some? <==> v.ok)
  }

  /** While no reload fails, what the page shows agrees with the generic loop's verdict on the outcomes it observed. */
  lemma {:induction false} ActivateLoopAgrees(base: string, cs: seq<RestoreHelper.Candidate>, w: World,
                                              lastRes: Option<Response>, toasts: seq<Toast>)
    ensures var r := ActivateLoop(base, cs, w, lastRes, toasts);
      r.reloadFailures == 0 ==> Agrees(r, |cs|, lastRes, toasts)
    decreases |cs|, 2
  {
    if |cs| > 0 {
      var f := FetchWithAuth(base, cs[0].url, RestoreHelper.CandidateInit(cs[0]), w);
      if RestoreHelper.Classify(f.outcome) == RestoreHelper.Advance {
        AdvanceAgrees(base, cs, f, lastRes, toasts);
      } else {
        assert RestoreHelper.FirstStop([f.outcome]) == 0;
      }
    }
  }

  /**
   * While no reload fails, the page's loop is the generic probing loop: it sends the same
   * candidates in the same order and observes the same outcomes.
   */
  lemma {:induction false} ActivateLoopProbes(base: string, cs: seq<RestoreHelper.Candidate>, w: World,
                                              lastRes: Option<Response>, toasts: seq<Toast>)
    ensures var r := ActivateLoop(base, cs, w, lastRes, toasts);
      r.reloadFailures == 0 ==> r.outcomes == RestoreHelper.ProbeLoop(base, cs, w, lastRes).outcomes
    // The world is the generic loop's, followed by the list reload exactly when one was shown.
    ensures var r := ActivateLoop(base, cs, w, lastRes, toasts);
      var p := RestoreHelper.ProbeLoop(base, cs, w, lastRes);
      r.reloadFailures == 0 ==>
        if r.items.Some? then Load(base, p.world).0 == Returned(r.items.value) && r.world == Load(base, p.world).1
        else r.world == p.world
    decreases |cs|
  {
    if |cs| > 0 {
      var f := FetchWithAuth(base, cs[0].url, RestoreHelper.CandidateInit(cs[0]), w);
      assert ActivateLoop(base, cs, w, lastRes, toasts) == ActivateStep(base, cs, f, lastRes, toasts);
      match f.outcome
      case Threw =>
        ActivateLoopProbes(base, cs[1..], f.world, lastRes, toasts);
      case Returned(res) =>
        if !res.Ok() && res.status == 405 {
          ActivateLoopProbes(base, cs[1..], f.world, Some(res), toasts);
        }
    }
  }

  /** Every run of the loop only appends to the trace: the requests sent before it are kept. */
  lemma {:induction false} ActivateLoopKeepsTrace(base: string, cs: seq<RestoreHelper.Candidate>, w: World,
                                                  lastRes: Option<Response>, toasts: seq<Toast>)
    ensures var r := ActivateLoop(base, cs, w, lastRes, toasts);
      |w.trace| <= |r.world.trace| && r.world.trace[..|w.trace|] == w.trace
    ensures var r := ActivateLoop(base, cs, w, lastRes, toasts);
      0 < |cs| ==> |w.trace| < |r.world.trace|
    decreases |cs|
  {
    if |cs| > 0 {
      var f := FetchWithAuth(base, cs[0].url, RestoreHelper.CandidateInit(cs[0]), w);
      assert ActivateLoop(base, cs, w, lastRes, toasts) == ActivateStep(base, cs, f, lastRes, toasts);
      var r := ActivateStep(base, cs, f, lastRes, toasts);
      var w2 := Load(base, f.world).1;
      match f.outcome
      case Threw =>
        ActivateLoopKeepsTrace(base, cs[1..], f.world, lastRes, toasts);
        RestoreHelper.PrefixOfPrefix(w.trace, f.world.trace, r.world.trace);
      case Returned(res) =>
        if res.Ok() {
          var shown := toasts + [Success(Activated)];
          ActivateLoopKeepsTrace(base, cs[1..], w2, Some(res), shown);
          RestoreHelper.PrefixOfPrefix(w.trace, f.world.trace, w2.trace);
          RestoreHelper.PrefixOfPrefix(w.trace, w2.trace, ActivateLoop(base, cs[1..], w2, Some(res), shown).world.trace);
        } else if res.status == 405 {
          ActivateLoopKeepsTrace(base, cs[1..], f.world, Some(res), toasts);
          RestoreHelper.PrefixOfPrefix(w.trace, f.world.trace, r.world.trace);
        }
    }
  }

  /** The first request of a run is the first candidate, sent with the stored access token. */
  lemma ActivateLoopFirstRequest(base: string, cs: seq<RestoreHelper.Candidate>, w: World,
                                 lastRes: Option<Response>, toasts: seq<Toast>)
    requires 0 < |cs|
    ensures var r := ActivateLoop(base, cs, w, lastRes, toasts);
      |w.trace| < |r.world.trace| &&
      r.world.trace[|w.trace|] == Request(cs[0].url, cs[0].verb,
        BuildHeaders(RestoreHelper.CandidateInit(cs[0]).headers, UsableToken(w.store, AccessKey)), cs[0].body)
  {
    var f := FetchWithAuth(base, cs[0].url, RestoreHelper.CandidateInit(cs[0]), w);
    var r := ActivateLoop(base, cs, w, lastRes, toasts);
    FetchWithAuthRequests(base, cs[0].url, RestoreHelper.CandidateInit(cs[0]), w);
    ActivateLoopKeepsTrace(base, cs, w, lastRes, toasts);
    StepKeepsTrace(base, cs, f, lastRes, toasts);
    assert ActivateLoop(base, cs, w, lastRes, toasts) == ActivateStep(base, cs, f, lastRes, toasts);
    assert r.world.trace[|w.trace|] == r.world.trace[..|f.world.trace|][|w.trace|];
  }

  /** One iteration keeps the requests the client sent for its candidate. */
  lemma StepKeepsTrace(base: string, cs: seq<RestoreHelper.Candidate>, f: FetchResult,
                       lastRes: Option<Response>, toasts: seq<Toast>)
    requires 0 < |cs|
    ensures var r := ActivateStep(base, cs, f, lastRes, toasts);
      |f.world.trace| <= |r.world.trace| && r.world.trace[..|f.world.trace|] == f.world.trace
  {
    match f.outcome
    case Threw =>
      ActivateLoopKeepsTrace(base, cs[1..], f.world, lastRes, toasts);
    case Returned(res) =>
      if res.Ok() {
        var shown := toasts + [Success(Activated)];
        var w2 := Load(base, f.world).1;
        ActivateLoopKeepsTrace(base, cs[1..], w2, Some(res), shown);
        RestoreHelper.PrefixOfPrefix(f.world.trace, w2.trace, ActivateLoop(base, cs[1..], w2, Some(res), shown).world.trace);
      } else if res.status == 405 {
        ActivateLoopKeepsTrace(base, cs[1..], f.world, Some(res), toasts);
      }
  }

  /** A candidate that moves the loop on leaves the agreement to the rest of the run. */
  lemma {:induction false} AdvanceAgrees(base: string, cs: seq<RestoreHelper.Candidate>, f: FetchResult,
                                         lastRes: Option<Response>, toasts: seq<Toast>)
    requires |cs| > 0 && RestoreHelper.Classify(f.outcome) == RestoreHelper.Advance
    ensures var r := ActivateStep(base, cs, f, lastRes, toasts);
      r.reloadFailures == 0 ==> Agrees(r, |cs|, lastRes, toasts)
    decreases |cs|, 1
  {
    var seen := if f.outcome.Returned? then Some(f.outcome.value) else lastRes;
    var rest := ActivateLoop(base, cs[1..], f.world, seen, toasts);
    assert ActivateStep(base, cs, f, lastRes, toasts)
        == Activation(rest.toasts, [f.outcome] + rest.outcomes, rest.reloadFailures, rest.items, rest.world);
    ActivateLoopAgrees(base, cs[1..], f.world, seen, toasts);
    RestoreHelper.AdvanceStep(f.outcome, rest.outcomes, lastRes);
  }

  /**
   * Unlike the generic helper, the page tries further candidates after an accepted one
   * when the reload fails: an ok answer followed by a failing reload leads to a second
   * request round, and a success is shown before it.
   */
  lemma ReloadFailureContinues(base: string, cs: seq<RestoreHelper.Candidate>, w: World)
    requires |cs| >= 2
    requires var f := FetchWithAuth(base, cs[0].url, RestoreHelper.CandidateInit(cs[0]), w);
      f.outcome.Returned? && f.outcome.value.Ok() && Load(base, f.world).0.Threw?
    ensures var r := ActivateLoop(base, cs, w, None, []);
      r.reloadFailures >= 1 && |r.outcomes| >= 2 && |r.toasts| >= 2 && r.toasts[0] == Success(Activated)
    ensures |RestoreHelper.ProbeLoop(base, cs, w, None).outcomes| == 1
  {
    var f := FetchWithAuth(base, cs[0].url, RestoreHelper.CandidateInit(cs[0]), w);
    assert RestoreHelper.Classify(f.outcome) == RestoreHelper.Succeed;
    assert RestoreHelper.ProbeLoop(base, cs, w, None).outcomes == [f.outcome];
    ReloadFailureStep(base, cs, f);
  }

  lemma ReloadFailureStep(base: string, cs: seq<RestoreHelper.Candidate>, f: FetchResult)
    requires |cs| >= 2
    requires f.outcome.Returned? && f.outcome.value.Ok() && Load(base, f.world).0.Threw?
    ensures var r := ActivateStep(base, cs, f, None, []);
      r.reloadFailures >= 1 && |r.outcomes| >= 2 && |r.toasts| >= 2 && r.toasts[0] == Success(Activated)
  {
    var w2 := Load(base, f.world).1;
    var none: seq<Toast> := [];
    assert none + [Success(Activated)] == [Success(Activated)];
    ActivateLoopShape(base, cs[1..], w2, Some(f.outcome.value), [Success(Activated)]);
    var rest := ActivateLoop(base, cs[1..], w2, Some(f.outcome.value), [Success(Activated)]);
    assert ActivateStep(base, cs, f, None, [])
        == Activation(rest.toasts, [f.outcome] + rest.outcomes, rest.reloadFailures + 1, rest.items, rest.world);
    assert rest.toasts[..1] == [Success(Activated)];
  }

  /** The page's view state touched by its handlers. */
  datatype Page = Page(items: seq<Obj<Json>>, showForm: bool, editing: Option<Obj<Json>>,
                       confirmOpen: bool, confirmId: Option<int>, toasts: seq<Toast>)

  /** The update request of `handleSubmit`: PUT of the six text fields to the parent's URL. */
  function UpdateRequest(base: string, values: Obj<Json>): Request
    requires HasKey(values, "Id")
  {
    var id := ToJsString(Lookup(values, "Id").value);
    Request(ReplaceFirst(Routes(base)[3].1, ConfigApi.IdPlaceholder, id), "PUT",
            map[ContentType := JsonMime], Some(JObj(TextBody(values))))
  }

  /** The create request of `handleSubmit`: POST of the form values with `active` set to true. */
  function CreateRequest(base: string, values: Obj<Json>): Request {
    Request(Routes(base)[0].1, "POST", map[ContentType := JsonMime], Some(JObj(Put(values, "active", JBool(true)))))
  }

  /** The outcome of a handler: whether it rethrew, the page afterwards, and the world. */
  datatype Handled = Handled(threw: bool, page: Page, world: World)

  /**
   * `handleSubmit(values)`: the save request (update when the values carry `Id`), then a
   * success notice, the form closed, and the list reloaded. Any failure (the request,
   * parsing its answer, or the reload) shows the error and is rethrown to the form.
   */
  function Submit(base: string, values: Obj<Json>, page: Page, w: World): (r: Handled)
    // Exactly one save request, the right one, sent first.
    ensures |r.world.trace| > |w.trace| && r.world.trace[|w.trace|]
         == (if HasKey(values, "Id") then UpdateRequest(base, values) else CreateRequest(base, values))
    // The form closes and the list reloads only after a save whose answer parsed.
    ensures SaveAccepted(NextAnswer(w)) ==>
      && |r.world.trace| == |w.trace| + 2 && !r.page.showForm && r.page.editing.None?
      && |r.page.toasts| > |page.toasts| && r.page.toasts[|page.toasts|] == Success("Guardado correctamente")
    ensures !SaveAccepted(NextAnswer(w)) ==> r.threw && r.page == page.(toasts := page.toasts + [Thrown]) &&
                                             |r.world.trace| == |w.trace| + 1
    // A handler that does not rethrow has reloaded the list.
    ensures !r.threw ==> |r.page.toasts| == |page.toasts| + 1 && r.world.trace[|w.trace| + 1] == ListRequest(base)
    ensures r.page.confirmOpen == page.confirmOpen && r.page.confirmId == page.confirmId
    // After an accepted save the list request follows; a failed reload is shown and rethrown,
    // and a successful one replaces the items with the loaded list.
    ensures SaveAccepted(NextAnswer(w)) ==>
      var l := Load(base, Send(w, SaveRequest(base, values)).1);
      && r.world == l.1 && r.world.trace[|w.trace| + 1] == ListRequest(base)
      && (r.threw <==> l.0.Threw?)
      && r.page.items == (if l.0.Returned? then l.0.value else page.items)
      && r.page.toasts == page.toasts + [Success("Guardado correctamente")] + (if l.0.Threw? then [Thrown] else [])
  {
    var req := SaveRequest(base, values);
    var (answer, w1) := Send(w, req);
    if !SaveAccepted(answer) then Handled(true, page.(toasts := page.toasts + [Thrown]), w1)
    else
      var saved := page.(toasts := page.toasts + [Success("Guardado correctamente")], showForm := false, editing := None);
      var (loaded, w2) := Load(base, w1);
      match loaded
      case Threw => Handled(true, saved.(toasts := saved.toasts + [Thrown]), w2)
      case Returned(items) => Handled(false, saved.(items := items), w2)
  }

  /** The save request of `handleSubmit`: the update when the values carry `Id`, else the create. */
  function SaveRequest(base: string, values: Obj<Json>): Request {
    if HasKey(values, "Id") then UpdateRequest(base, values) else CreateRequest(base, values)
  }

  /** A raw request's answer that `res.json()` accepts. */
  predicate SaveAccepted(answer: Outcome<Response>) {
    answer.Returned? && answer.value.body.Some?
  }

  /** The logical-delete request: PATCH of `{active: false}` to the parent's `deleteLogical` URL. */
  function DeleteRequest(base: string, id: int): Request {
    Request(ConfigApi.ResolveId(Routes(base)[4].1, id), "PATCH", map[ContentType := JsonMime],
            Some(JObj([("active", JBool(false))])))
  }

  /** `handleDelete(id)`: opens the confirmation for `id`. */
  function AskDelete(page: Page, id: int): (p: Page)
    ensures p.confirmOpen && p.confirmId == Some(id)
    ensures p.items == page.items && p.toasts == page.toasts && p.showForm == page.showForm && p.editing == page.editing
  {
    page.(confirmOpen := true, confirmId := Some(id))
  }

  /**
   * `handleDeleteConfirmed(id)`: without an id (or with id 0) nothing is sent; otherwise
   * the logical delete, a notice and a reload. Errors are shown, never rethrown, and the
   * confirmation always closes.
   */
  function DeleteConfirmed(base: string, id: Option<int>, page: Page, w: World): (r: Handled)
    ensures !r.threw && !r.page.confirmOpen && r.page.confirmId.None?
    ensures id.None? || id == Some(0) ==> r.world == w && r.page == page.(confirmOpen := false, confirmId := None)
    ensures id.Some? && id != Some(0) ==>
      |r.world.trace| > |w.trace| && r.world.trace[|w.trace|] == DeleteRequest(base, id.value)
    ensures id.Some? && id != Some(0) && SaveAccepted(NextAnswer(w)) ==>
      |r.world.trace| == |w.trace| + 2 && |r.page.toasts| > |page.toasts| && r.page.toasts[|page.toasts|] == Success("Padre eliminado")
    ensures id.Some? && id != Some(0) && !SaveAccepted(NextAnswer(w)) ==>
      |r.world.trace| == |w.trace| + 1 && r.page.toasts == page.toasts + [Thrown] && r.page.items == page.items
    ensures r.page.showForm == page.showForm && r.page.editing == page.editing
    // After an accepted delete the list request follows; a failed reload is shown, and a
    // successful one replaces the items with the loaded list.
    ensures id.Some? && id != Some(0) && SaveAccepted(NextAnswer(w)) ==>
      var l := Load(base, Send(w, DeleteRequest(base, id.value)).1);
      && r.world == l.1 && r.world.trace[|w.trace| + 1] == ListRequest(base)
      && r.page.items == (if l.0.Returned? then l.0.value else page.items)
      && r.page.toasts == page.toasts + [Success("Padre eliminado")] + (if l.0.Threw? then [Thrown] else [])
  {
    var closed := page.(confirmOpen := false, confirmId := None);
    match id
    case None => Handled(false, closed, w)
    case Some(n) =>
      if n == 0 then Handled(false, closed, w)
      else
        var (answer, w1) := Send(w, DeleteRequest(base, n));
        if !SaveAccepted(answer) then Handled(false, closed.(toasts := page.toasts + [Thrown]), w1)
        else
          var shown := closed.(toasts := page.toasts + [Success("Padre eliminado")]);
          var (loaded, w2) := Load(base, w1);
          match loaded
          case Threw => Handled(false, shown.(toasts := shown.toasts + [Thrown]), w2)
          case Returned(items) => Handled(false, shown.(items := items), w2)
  }

  /** The reload after a save reads the second scripted answer: whether it parses and normalises decides everything. */
  lemma SubmitReloads(base: string, values: Obj<Json>, page: Page, w: World)
    requires SaveAccepted(NextAnswer(w))
    ensures var r := Submit(base, values, page, w);
      var a := ScriptAt(w, 1);
      && |r.world.trace| == |w.trace| + 2
      && (!r.threw <==> a.Returned? && a.value.body.Some? && NormalizeResponse.NormalizeArray(a.value.body.value).Returned?)
      && (!r.threw ==> r.page.items == NormalizeResponse.NormalizeArray(a.value.body.value).value)
      && (r.threw ==> r.page.items == page.items && r.page.toasts[|page.toasts| + 1] == Thrown)
  {
    var w1 := Send(w, SaveRequest(base, values)).1;
    assert NextAnswer(w1) == ScriptAt(w, 1);
  }

  /** The reload after an accepted delete reads the second scripted answer, and its failure is only shown. */
  lemma DeleteReloads(base: string, id: int, page: Page, w: World)
    requires id != 0 && SaveAccepted(NextAnswer(w))
    ensures var r := DeleteConfirmed(base, Some(id), page, w);
      var a := ScriptAt(w, 1);
      var ok := a.Returned? && a.value.body.Some? && NormalizeResponse.NormalizeArray(a.value.body.value).Returned?;
      && !r.threw && |r.world.trace| == |w.trace| + 2
      && r.page.items == (if ok then NormalizeResponse.NormalizeArray(a.value.body.value).value else page.items)
      && |r.page.toasts| == |page.toasts| + (if ok then 1 else 2)
  {
    var w1 := Send(w, DeleteRequest(base, id)).1;
    assert NextAnswer(w1) == ScriptAt(w, 1);
  }

  /** With a brace-free base, the page's update and delete URLs carry the decimal id in place of the placeholder. */
  lemma ParentUrls(base: string, id: int)
    requires ConfigApi.NoBrace(base)
    ensures ConfigApi.ResolveId(Routes(base)[3].1, id) == base + "Parent" + "/" + IntToString(id) + "/"
    ensures DeleteRequest(base, id).url == base + "Parent" + "/" + IntToString(id) + "/deleteLogical/"
  {
    var rs := ConfigApi.CrudRoutes("Parent", "createParent", "getAllParents", "getParentById", "updateParent", "deleteParent");
    ParentRoutesCrud(base);
    assert Routes(base)[3].1 == base + rs[3].1 && Routes(base)[4].1 == base + rs[4].1;
    ConfigApi.CrudResolution(base, "Parent", "createParent", "getAllParents", "getParentById", "updateParent", "deleteParent", id);
  }

  /** The parent operations are the conventional CRUD routes of `Parent`, below the base. */
  lemma ParentRoutesCrud(base: string)
    ensures var rs := ConfigApi.CrudRoutes("Parent", "createParent", "getAllParents", "getParentById", "updateParent", "deleteParent");
      forall j :: 0 <= j < 5 ==> Routes(base)[j] == (rs[j].0, base + rs[j].1)
  {
    assert ConfigApi.Routes()[1].entries
        == ConfigApi.CrudRoutes("Parent", "createParent", "getAllParents", "getParentById", "updateParent", "deleteParent");
  }
}
