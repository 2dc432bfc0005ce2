/**
 * Reactivating a soft-deleted record whose server-side activation route is not known:
 * an ordered list of candidate requests is tried until one is accepted.
 */
module RestoreHelper {
  import opened Wrappers
  import opened Js
  import opened Text
  import opened Http
  import ConfigApi

  /** One speculative activation request; `body` is `None` when nothing is sent. */
  datatype Candidate = Candidate(url: string, verb: string, body: Option<Json>)

  /** The body `{ active: true }`. */
  const ActiveTrue: Json := JObj([("active", JBool(true))])

  /** The index of the first operation whose name contains `pat`, ignoring case. */
  function FindKey(entries: seq<(string, string)>, pat: string): (r: Option<nat>)
    ensures r.Some? ==> r.value < |entries| && ContainsIgnoreCase(entries[r.value].0, pat)
    ensures r.Some? ==> forall i :: 0 <= i < r.value ==> !ContainsIgnoreCase(entries[i].0, pat)
    ensures r.None? ==> forall i :: 0 <= i < |entries| ==> !ContainsIgnoreCase(entries[i].0, pat)
  {
    if |entries| == 0 then None
    else if ContainsIgnoreCase(entries[0].0, pat) then Some(0)
    else
      match FindKey(entries[1..], pat)
      case None => None
      case Some(i) => Some(i + 1)
  }

  /** An operation matching `pat` with no match before it is the one found. */
  lemma FindKeyAt(entries: seq<(string, string)>, pat: string, i: nat)
    requires i < |entries| && ContainsIgnoreCase(entries[i].0, pat)
    requires forall j :: 0 <= j < i ==> !ContainsIgnoreCase(entries[j].0, pat)
    ensures FindKey(entries, pat) == Some(i)
  {
  }

  /** `<base><entity>/<id>/<action>/`, the conventional restore and activate routes. */
  function ActionUrl(base: string, entityKey: string, id: int, action: string): string {
    base + entityKey + "/" + IntToString(id) + "/" + action + "/"
  }

  /**
   * The candidates, in order: PATCH with the payload to the first `update` operation,
   * PATCH with `{active: true}` to the first `delete` operation, POST without body to
   * `restore/`, POST with `{active: true}` to `activate/`.
   */
  function Candidates(base: string, entries: seq<(string, string)>, entityKey: string, id: int, payload: Option<Json>)
    : (cs: seq<Candidate>)
    ensures |cs| == 2 + (if FindKey(entries, "update").Some? then 1 else 0) + (if FindKey(entries, "delete").Some? then 1 else 0)
    ensures 2 <= |cs| <= 4
    ensures cs[|cs| - 2] == Candidate(ActionUrl(base, entityKey, id, "restore"), "POST", None)
    ensures cs[|cs| - 1] == Candidate(ActionUrl(base, entityKey, id, "activate"), "POST", Some(ActiveTrue))
    ensures FindKey(entries, "update").Some? ==>
      cs[0] == Candidate(ConfigApi.ResolveId(entries[FindKey(entries, "update").value].1, id), "PATCH", payload)
    ensures FindKey(entries, "delete").Some? ==>
      cs[|cs| - 3] == Candidate(ConfigApi.ResolveId(entries[FindKey(entries, "delete").value].1, id), "PATCH", Some(ActiveTrue))
  {
    var update := match FindKey(entries, "update")
      case Some(i) => [Candidate(ConfigApi.ResolveId(entries[i].1, id), "PATCH", payload)]
      case None => [];
    var delete := match FindKey(entries, "delete")
      case Some(i) => [Candidate(ConfigApi.ResolveId(entries[i].1, id), "PATCH", Some(ActiveTrue))]
      case None => [];
    update + delete
      + [Candidate(ActionUrl(base, entityKey, id, "restore"), "POST", None),
         Candidate(ActionUrl(base, entityKey, id, "activate"), "POST", Some(ActiveTrue))]
  }

  /** The fetch options of a candidate: JSON accepted always, JSON content only with a body. */
  function CandidateInit(c: Candidate): (init: Init)
    ensures init.verb == c.verb && init.body == c.body
    ensures Accept in init.headers && init.headers[Accept] == JsonMime
    ensures ContentType in init.headers <==> c.body.Some?
    ensures ContentType in init.headers ==> init.headers[ContentType] == JsonMime
    ensures init.headers.Keys <= {Accept, ContentType}
  {
    var headers := map[Accept := JsonMime];
    Init(c.verb, if c.body.Some? then headers[ContentType := JsonMime] else headers, c.body)
  }

  /** What one candidate's outcome means for the loop. */
  datatype Step = Succeed | Advance | Abort

  /** Ok stops with success; 405 or a thrown error moves on; any other status stops with failure. */
  function Classify(o: Outcome<Response>): Step {
    match o
    case Threw => Advance
    case Returned(res) => if res.Ok() then Succeed else if res.status == 405 then Advance else Abort
  }

  /** The result reported to the caller: `{ ok, res }`, with `None` for a `null` response. */
  datatype ActivateResult = ActivateResult(ok: bool, res: Option<Response>)

  /** The position of the first outcome that ends the loop, or the length when none does. */
  function FirstStop(os: seq<Outcome<Response>>): (k: nat)
    ensures k <= |os|
    ensures forall i :: 0 <= i < k ==> Classify(os[i]) == Advance
    ensures k < |os| ==> Classify(os[k]) != Advance
  {
    if |os| == 0 then 0
    else if Classify(os[0]) != Advance then 0
    else 1 + FirstStop(os[1..])
  }

  /** The last response received among `os`, or `before` when every outcome threw. */
  function LastResponse(os: seq<Outcome<Response>>, before: Option<Response>): (r: Option<Response>)
    ensures (exists i :: 0 <= i < |os| && os[i].Returned?) ==>
      r.Some? && exists i :: 0 <= i < |os| && os[i] == Returned(r.value) && forall j :: i < j < |os| ==> os[j].Threw?
    ensures (forall i :: 0 <= i < |os| ==> os[i].Threw?) ==> r == before
  {
    if |os| == 0 then before
    else
      var last := os[|os| - 1];
      var init := os[..|os| - 1];
      assert forall i :: 0 <= i < |init| ==> init[i] == os[i];
      if last.Returned? then Some(last.value) else LastResponse(init, before)
  }

  /**
   * The reference semantics of the probe: given the outcomes of the candidates that were
   * tried, the first stopping outcome decides, and without one the last response received
   * (or `before`, the last one received earlier) is reported as a failure.
   */
  function Verdict(os: seq<Outcome<Response>>, before: Option<Response>): ActivateResult {
    var k := FirstStop(os);
    if k < |os| then ActivateResult(Classify(os[k]) == Succeed, Some(os[k].value))
    else ActivateResult(false, LastResponse(os, before))
  }

  /** The first `n` candidates, each sent through the authenticated client from the world the previous one left. */
  function Rounds(base: string, cs: seq<Candidate>, w: World, n: nat): (fs: seq<FetchResult>)
    requires n <= |cs|
    ensures |fs| == n
  {
    if n == 0 then []
    else
      var f := FetchWithAuth(base, cs[0].url, CandidateInit(cs[0]), w);
      [f] + Rounds(base, cs[1..], f.world, n - 1)
  }

  /** The world in which round `i` starts: `w` for the first, otherwise the world the previous round left. */
  function Before(w: World, fs: seq<FetchResult>, i: nat): World
    requires i <= |fs|
  {
    if i == 0 then w else fs[i - 1].world
  }

  /** `os` are the outcomes of the first `|os|` rounds, in order, and `after` is the world they leave. */
  predicate Probed(base: string, cs: seq<Candidate>, w: World, os: seq<Outcome<Response>>, after: World) {
    && |os| <= |cs|
    && after == Before(w, Rounds(base, cs, w, |os|), |os|)
    && forall i :: 0 <= i < |os| ==> os[i] == Rounds(base, cs, w, |os|)[i].outcome
  }

  /** Round `i` sends candidate `i` from the world round `i - 1` left. */
  lemma {:induction false} RoundsAt(base: string, cs: seq<Candidate>, w: World, n: nat, i: nat)
    requires i < n <= |cs|
    ensures var fs := Rounds(base, cs, w, n);
      fs[i] == FetchWithAuth(base, cs[i].url, CandidateInit(cs[i]), Before(w, fs, i))
  {
    if i > 0 {
      var f := FetchWithAuth(base, cs[0].url, CandidateInit(cs[0]), w);
      var rest := Rounds(base, cs[1..], f.world, n - 1);
      RoundsAt(base, cs[1..], f.world, n - 1, i - 1);
      assert Rounds(base, cs, w, n) == [f] + rest;
      assert cs[1..][i - 1] == cs[i];
      assert Before(w, [f] + rest, i) == Before(f.world, rest, i - 1);
    }
  }

  lemma PrefixOfPrefix<T>(a: seq<T>, b: seq<T>, c: seq<T>)
    requires |a| <= |b| <= |c| && b[..|a|] == a && c[..|b|] == b
    ensures c[..|a|] == a
  {
    assert c[..|a|] == c[..|b|][..|a|];
  }

  /** `b` is `a` with at least one more request after it. */
  predicate Extends(a: seq<Request>, b: seq<Request>) {
    |a| < |b| && b[..|a|] == a
  }

  /** Every round appends its requests to the trace of the world it started in. */
  predicate Chained(w: World, fs: seq<FetchResult>) {
    forall k :: 0 <= k < |fs| ==> Extends(Before(w, fs, k).trace, fs[k].world.trace)
  }

  lemma RoundsChained(base: string, cs: seq<Candidate>, w: World, n: nat)
    requires n <= |cs|
    ensures Chained(w, Rounds(base, cs, w, n))
  {
    forall k | 0 <= k < n
      ensures Extends(Before(w, Rounds(base, cs, w, n), k).trace, Rounds(base, cs, w, n)[k].world.trace)
    {
      RoundsAt(base, cs, w, n, k);
    }
  }

  /** Along a chain of rounds the trace grows by at least one request per round and keeps what came before. */
  lemma {:induction false} ChainedPrefix(w: World, fs: seq<FetchResult>, i: nat, j: nat)
    requires Chained(w, fs) && i <= j <= |fs|
    ensures |Before(w, fs, i).trace| + (j - i) <= |Before(w, fs, j).trace|
    ensures Before(w, fs, j).trace[..|Before(w, fs, i).trace|] == Before(w, fs, i).trace
    decreases j
  {
    if i < j {
      ChainedPrefix(w, fs, i, j - 1);
      assert Before(w, fs, j) == fs[j - 1].world;
      assert Extends(Before(w, fs, j - 1).trace, fs[j - 1].world.trace);
      PrefixOfPrefix(Before(w, fs, i).trace, Before(w, fs, j - 1).trace, Before(w, fs, j).trace);
    }
  }

  /** Prepending an outcome that advances shifts the stop by one and keeps the verdict, seen from the later start. */
  lemma AdvanceStep(o: Outcome<Response>, os: seq<Outcome<Response>>, lastRes: Option<Response>)
    requires Classify(o) == Advance
    ensures var all := [o] + os;
      var seen := if o.Returned? then Some(o.value) else lastRes;
      && FirstStop(all) == 1 + FirstStop(os)
      && Verdict(all, lastRes) == Verdict(os, seen)
      && forall n: nat :: WellStopped(os, n) ==> WellStopped(all, n + 1)
  {
    var all := [o] + os;
    assert all[1..] == os;
    assert forall i :: 1 <= i < |all| ==> all[i] == os[i - 1];
    var k := FirstStop(os);
    if k < |os| {
      assert all[1 + k] == os[k];
    } else {
      LastResponseCons(o, os, lastRes);
    }
  }
  /** A run of the probe loop: the result, each tried candidate's outcome, and the final world. */
  datatype ProbeRun = ProbeRun(result: ActivateResult, outcomes: seq<Outcome<Response>>, world: World)

  /** The loop stops early only on a stopping outcome, and all earlier outcomes advanced. */
  predicate WellStopped(os: seq<Outcome<Response>>, candidates: nat) {
    && |os| <= candidates
    && (candidates > 0 ==> |os| > 0)
    && (forall i :: 0 <= i < |os| - 1 ==> Classify(os[i]) == Advance)
    && (|os| < candidates ==> Classify(os[|os| - 1]) != Advance)
  }

  /**
   * The loop over candidates, each sent through the authenticated client; `lastRes` is the
   * last response received so far.
   */
  function ProbeLoop(base: string, cs: seq<Candidate>, w: World, lastRes: Option<Response>): (r: ProbeRun)
    ensures WellStopped(r.outcomes, |cs|)
    decreases |cs|
  {
    if |cs| == 0 then ProbeRun(ActivateResult(false, lastRes), [], w)
    else
      var f := FetchWithAuth(base, cs[0].url, CandidateInit(cs[0]), w);
      var step := Classify(f.outcome);
      if step == Advance then
        var seen := if f.outcome.Returned? then Some(f.outcome.value) else lastRes;
        var rest := ProbeLoop(base, cs[1..], f.world, seen);
        var os := [f.outcome] + rest.outcomes;
        assert forall i :: 1 <= i < |os| ==> os[i] == rest.outcomes[i - 1];
        ProbeRun(rest.result, os, rest.world)
      else
        ProbeRun(ActivateResult(step == Succeed, Some(f.outcome.value)), [f.outcome], f.world)
  }

  /**
   * The loop agrees with the reference semantics: its result is the verdict on the
   * outcomes it observed (with `lastRes` standing for responses seen before it started).
   */
  lemma {:induction false} ProbeLoopVerdict(base: string, cs: seq<Candidate>, w: World, lastRes: Option<Response>)
    ensures var r := ProbeLoop(base, cs, w, lastRes); r.result == Verdict(r.outcomes, lastRes)
    decreases |cs|
  {
    if |cs| > 0 {
      var f := FetchWithAuth(base, cs[0].url, CandidateInit(cs[0]), w);
      if Classify(f.outcome) == Advance {
        var seen := if f.outcome.Returned? then Some(f.outcome.value) else lastRes;
        ProbeLoopVerdict(base, cs[1..], f.world, seen);
        var rest := ProbeLoop(base, cs[1..], f.world, seen);
        AdvanceStep(f.outcome, rest.outcomes, lastRes);
      } else {
        assert FirstStop([f.outcome]) == 0;
      }
    }
  }

  /** The first round followed by the rounds of the remaining candidates are the rounds of all of them. */
  lemma ProbedCons(base: string, cs: seq<Candidate>, w: World, os: seq<Outcome<Response>>, after: World)
    requires 0 < |cs|
    requires var f := FetchWithAuth(base, cs[0].url, CandidateInit(cs[0]), w);
      Probed(base, cs[1..], f.world, os, after)
    ensures var f := FetchWithAuth(base, cs[0].url, CandidateInit(cs[0]), w);
      Probed(base, cs, w, [f.outcome] + os, after)
  {
    var f := FetchWithAuth(base, cs[0].url, CandidateInit(cs[0]), w);
    var n := |os|;
    var fs := Rounds(base, cs, w, n + 1);
    var tail := Rounds(base, cs[1..], f.world, n);
    assert fs == [f] + tail;
    assert Before(w, fs, n + 1) == Before(f.world, tail, n);
    var all := [f.outcome] + os;
    forall i | 0 <= i < |all|
      ensures all[i] == fs[i].outcome
    {
      if i > 0 {
        assert all[i] == os[i - 1];
      }
    }
  }

  /**
   * The loop sends the candidates in order, each through the authenticated client from
   * the world the previous one left: its outcomes are the first rounds' outcomes and its
   * final world is the world those rounds leave.
   */
  lemma {:induction false} ProbeLoopRounds(base: string, cs: seq<Candidate>, w: World, lastRes: Option<Response>)
    ensures var r := ProbeLoop(base, cs, w, lastRes); Probed(base, cs, w, r.outcomes, r.world)
    decreases |cs|
  {
    if |cs| > 0 {
      var f := FetchWithAuth(base, cs[0].url, CandidateInit(cs[0]), w);
      if Classify(f.outcome) == Advance {
        var seen := if f.outcome.Returned? then Some(f.outcome.value) else lastRes;
        ProbeLoopRounds(base, cs[1..], f.world, seen);
        var rest := ProbeLoop(base, cs[1..], f.world, seen);
        ProbedCons(base, cs, w, rest.outcomes, rest.world);
      } else {
        assert Rounds(base, cs, w, 1) == [f];
      }
    }
  }

  /** Every tried candidate costs one to three requests, and earlier requests stay in the trace. */
  lemma {:induction false} ProbeLoopTrace(base: string, cs: seq<Candidate>, w: World, lastRes: Option<Response>)
    ensures var r := ProbeLoop(base, cs, w, lastRes);
      && |w.trace| + |r.outcomes| <= |r.world.trace| <= |w.trace| + 3 * |r.outcomes|
      && r.world.trace[..|w.trace|] == w.trace
    decreases |cs|
  {
    if |cs| > 0 {
      var f := FetchWithAuth(base, cs[0].url, CandidateInit(cs[0]), w);
      if Classify(f.outcome) == Advance {
        var seen := if f.outcome.Returned? then Some(f.outcome.value) else lastRes;
        ProbeLoopTrace(base, cs[1..], f.world, seen);
        var rest := ProbeLoop(base, cs[1..], f.world, seen);
        assert rest.world.trace[..|w.trace|] == rest.world.trace[..|f.world.trace|][..|w.trace|];
      }
    }
  }

  /** Round `i` begins with the request of candidate `i`, carrying the token stored when it starts. */
  lemma RoundSends(base: string, cs: seq<Candidate>, w: World, n: nat, i: nat)
    requires i < n <= |cs|
    ensures var fs := Rounds(base, cs, w, n);
      var before := Before(w, fs, i);
      var mid := Before(w, fs, i + 1).trace;
      |before.trace| < |mid| &&
      mid[|before.trace|] == Request(cs[i].url, cs[i].verb,
        BuildHeaders(CandidateInit(cs[i]).headers, UsableToken(before.store, AccessKey)), cs[i].body)
  {
    var fs := Rounds(base, cs, w, n);
    RoundsAt(base, cs, w, n, i);
    FetchWithAuthRequests(base, cs[i].url, CandidateInit(cs[i]), Before(w, fs, i));
  }

  /**
   * The request of candidate `i` is in the final trace, at a position after the earlier
   * candidates' requests: its url, verb and body, with the fetch options the loop builds
   * and the token stored at that point.
   */
  lemma ProbeLoopSends(base: string, cs: seq<Candidate>, w: World, lastRes: Option<Response>, i: nat)
    requires i < |ProbeLoop(base, cs, w, lastRes).outcomes|
    ensures var r := ProbeLoop(base, cs, w, lastRes);
      var fs := Rounds(base, cs, w, |r.outcomes|);
      var p := |Before(w, fs, i).trace|;
      && |w.trace| <= p < |Before(w, fs, i + 1).trace| <= |r.world.trace|
      && r.world.trace[p] == Request(cs[i].url, cs[i].verb,
           BuildHeaders(CandidateInit(cs[i]).headers, UsableToken(Before(w, fs, i).store, AccessKey)), cs[i].body)
  {
    var r := ProbeLoop(base, cs, w, lastRes);
    var n := |r.outcomes|;
    var fs := Rounds(base, cs, w, n);
    var before := Before(w, fs, i);
    var req := Request(cs[i].url, cs[i].verb,
      BuildHeaders(CandidateInit(cs[i]).headers, UsableToken(before.store, AccessKey)), cs[i].body);
    assert r.world == Before(w, fs, n) by {
      ProbeLoopRounds(base, cs, w, lastRes);
    }
    var mid := Before(w, fs, i + 1).trace;
    RoundSends(base, cs, w, n, i);
    assert Chained(w, fs) by {
      RoundsChained(base, cs, w, n);
    }
    ChainedPrefix(w, fs, 0, i);
    ChainedPrefix(w, fs, i + 1, n);
    assert r.world.trace[|before.trace|] == r.world.trace[..|mid|][|before.trace|];
  }

  /** The last response of `[o] + os` is the last of `os`, counting `o` as already seen. */
  lemma {:induction false} LastResponseCons(o: Outcome<Response>, os: seq<Outcome<Response>>, before: Option<Response>)
    ensures LastResponse([o] + os, before) == LastResponse(os, if o.Returned? then Some(o.value) else before)
    decreases |os|
  {
    var all := [o] + os;
    if |os| > 0 {
      assert all[|all| - 1] == os[|os| - 1];
      assert all[..|all| - 1] == [o] + os[..|os| - 1];
      LastResponseCons(o, os[..|os| - 1], before);
    } else {
      assert all[..|all| - 1] == [];
    }
  }

  /** What `tryActivateEntity` yields: its result (or a throw), the candidates' outcomes, the world. */
  datatype TryRun = TryRun(outcome: Outcome<ActivateResult>, outcomes: seq<Outcome<Response>>, world: World)

  /**
   * `tryActivateEntity(entityKey, id, payload)`: the candidates built from the entity's
   * endpoint group, probed in order. An entity key with no group throws before any request.
   */
  function TryActivateEntity(base: string, entityKey: string, id: int, payload: Option<Json>, w: World): (r: TryRun)
    ensures ConfigApi.GroupOf(ConfigApi.Endpoints(base), entityKey).None? <==> r.outcome.Threw?
    ensures r.outcome.Threw? ==> r.world == w && r.outcomes == []
    ensures r.outcome.Returned? ==> r.outcome.value == Verdict(r.outcomes, None)
    ensures r.outcome.Returned? ==> Probed(base, Candidates(base,
      ConfigApi.GroupOf(ConfigApi.Endpoints(base), entityKey).value.entries, entityKey, id, payload), w, r.outcomes, r.world)
    ensures r.outcome.Returned? ==> 1 <= |r.outcomes| <= 4
    ensures r.outcome.Returned? ==> WellStopped(r.outcomes, |Candidates(base,
      ConfigApi.GroupOf(ConfigApi.Endpoints(base), entityKey).value.entries, entityKey, id, payload)|)
    ensures |w.trace| + |r.outcomes| <= |r.world.trace| <= |w.trace| + 3 * |r.outcomes|
    ensures r.world.trace[..|w.trace|] == w.trace
  {
    match ConfigApi.GroupOf(ConfigApi.Endpoints(base), entityKey)
    case None => TryRun(Threw, [], w)
    case Some(g) =>
      var cs := Candidates(base, g.entries, entityKey, id, payload);
      var run := ProbeLoop(base, cs, w, None);
      ProbeLoopVerdict(base, cs, w, None);
      ProbeLoopTrace(base, cs, w, None);
      ProbeLoopRounds(base, cs, w, None);
      TryRun(Returned(run.result), run.outcomes, run.world)
  }

  /** An ok answer on the first try ends the probe after that one request. */
  lemma FirstOkStops(base: string, cs: seq<Candidate>, w: World, res: Response)
    requires |cs| > 0 && NextAnswer(w) == Returned(res) && res.Ok()
    ensures var r := ProbeLoop(base, cs, w, None);
      r.result == ActivateResult(true, Some(res)) && r.outcomes == [Returned(res)] && |r.world.trace| == |w.trace| + 1
  {
  }

  /**
   * Two 405 answers followed by an ok one: three candidates are tried, one request each,
   * and the third response is reported as the success.
   */
  lemma TwoRefusalsThenOk(base: string, cs: seq<Candidate>, w: World, a: Response, b: Response, c: Response)
    requires |cs| >= 3 && a.status == 405 && b.status == 405 && c.Ok()
    requires |w.script| >= 3 && w.script[..3] == [Returned(a), Returned(b), Returned(c)]
    ensures var r := ProbeLoop(base, cs, w, None);
      r.result == ActivateResult(true, Some(c)) && |r.outcomes| == 3 && |r.world.trace| == |w.trace| + 3
  {
    var f1 := FetchWithAuth(base, cs[0].url, CandidateInit(cs[0]), w);
    assert NextAnswer(w) == Returned(a);
    assert f1.world.script == w.script[1..];
    var f2 := FetchWithAuth(base, cs[1].url, CandidateInit(cs[1]), f1.world);
    assert NextAnswer(f1.world) == Returned(b);
    assert f2.world.script == w.script[2..];
    assert NextAnswer(f2.world) == Returned(c);
    assert cs[1..][1..] == cs[2..];
    var r3 := ProbeLoop(base, cs[2..], f2.world, Some(b));
    assert r3.result == ActivateResult(true, Some(c)) && r3.outcomes == [Returned(c)];
    var r2 := ProbeLoop(base, cs[1..], f1.world, Some(a));
    assert r2 == ProbeRun(r3.result, [Returned(b)] + r3.outcomes, r3.world);
    assert ProbeLoop(base, cs, w, None) == ProbeRun(r2.result, [Returned(a)] + r2.outcomes, r2.world);
  }

  /** An entity with no `update` or `delete` operation is probed with the two conventional routes only. */
  lemma ConventionalRoutesOnly(base: string, entries: seq<(string, string)>, entityKey: string, id: int, payload: Option<Json>)
    requires forall i :: 0 <= i < |entries| ==> !ContainsIgnoreCase(entries[i].0, "update") && !ContainsIgnoreCase(entries[i].0, "delete")
    ensures Candidates(base, entries, entityKey, id, payload)
         == [Candidate(ActionUrl(base, entityKey, id, "restore"), "POST", None),
             Candidate(ActionUrl(base, entityKey, id, "activate"), "POST", Some(ActiveTrue))]
  {
  }
}
