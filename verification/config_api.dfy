/**
 * The API base URL and the endpoint template table built from it.
 * The base comes from a build-time setting; the table maps each entity to its
 * operation names and URL templates, in declaration order.
 */
module ConfigApi {
  import opened Wrappers
  import opened Text

  /** The base used when the setting is missing. */
  const DefaultBase: string := "http://localhost:5147/api/"

  predicate AllDots(s: string) {
    forall i :: 0 <= i < |s| ==> s[i] == '.'
  }

  /** The number of `.` characters `s` starts with. */
  function LeadingDots(s: string): (n: nat)
    ensures n <= |s| && AllDots(s[..n])
    ensures n < |s| ==> s[n] != '.'
  {
    if |s| > 0 && s[0] == '.' then
      var n := LeadingDots(s[1..]);
      assert s[..n + 1] == [s[0]] + s[1..][..n];
      n + 1
    else 0
  }

  /** Removes every leading `.` (the regular expression `^\.+`). */
  function StripLeadingDots(s: string): (r: string)
    ensures exists i :: 0 <= i <= |s| && r == s[i..] && AllDots(s[..i])
    ensures r == [] || r[0] != '.'
  {
    s[LeadingDots(s)..]
  }

  /** The test `/^https?:\/\//i`. */
  predicate HasScheme(s: string) {
    StartsWithIgnoreCase(s, "http://") || StartsWithIgnoreCase(s, "https://")
  }

  /** A string with a scheme starts with `h` or `H`, so it has no leading space or dot. */
  lemma SchemeStart(s: string)
    requires HasScheme(s)
    ensures |s| >= 7 && (s[0] == 'h' || s[0] == 'H')
  {
    var p := if StartsWithIgnoreCase(s, "http://") then "http://" else "https://";
    assert LowerStr(s[..|p|])[0] == LowerStr(p)[0] == 'h';
    assert s[..|p|][0] == s[0];
  }

  lemma SlashEnd(s: string)
    requires EndsWith(s, "/")
    ensures |s| > 0 && s[|s| - 1] == '/'
  {
    assert s[|s| - 1..][0] == s[|s| - 1];
  }

  lemma SlashKeepsScheme(a: string)
    requires HasScheme(a)
    ensures HasScheme(EnsureTrailingSlash(a))
  {
    var r := EnsureTrailingSlash(a);
    var p := if StartsWithIgnoreCase(a, "http://") then "http://" else "https://";
    assert StartsWithIgnoreCase(a, p);
    assert r[..|p|] == a[..|p|];
    assert StartsWithIgnoreCase(r, p);
  }

  /** A string starting with a digit has no scheme. */
  lemma NoSchemeWhenDigitFirst(s: string)
    requires |s| > 0 && IsDigit(s[0])
    ensures !HasScheme(s)
  {
    if HasScheme(s) {
      SchemeStart(s);
    }
  }

  function AddScheme(s: string): (r: string)
    ensures HasScheme(r)
    ensures HasScheme(s) ==> r == s
    ensures !HasScheme(s) ==> r == "http://" + s
  {
    if HasScheme(s) then s
    else
      assert ("http://" + s)[..7] == "http://";
      "http://" + s
  }

  function EnsureTrailingSlash(s: string): (r: string)
    ensures EndsWith(r, "/")
    ensures EndsWith(s, "/") ==> r == s
    ensures !EndsWith(s, "/") ==> r == s + "/"
  {
    if EndsWith(s, "/") then s else s + "/"
  }

  /**
   * The normalised base URL: the setting (or the default) trimmed, leading dots
   * removed, `http://` added when no http/https scheme is present, and a trailing
   * `/` added when missing.
   */
  function NormalizeBase(setting: Option<string>): (r: string)
    ensures HasScheme(r) && EndsWith(r, "/")
    ensures |r| >= 7 && (r[0] == 'h' || r[0] == 'H') && r[|r| - 1] == '/'
  {
    var s := StripLeadingDots(Trim(setting.GetOr(DefaultBase)));
    var r := EnsureTrailingSlash(AddScheme(s));
    SlashKeepsScheme(AddScheme(s));
    SchemeStart(r);
    SlashEnd(r);
    r
  }

  /** A normalised base is left unchanged by normalising it again. */
  lemma NormalizeIdempotent(setting: Option<string>)
    ensures NormalizeBase(Some(NormalizeBase(setting))) == NormalizeBase(setting)
  {
    var r := NormalizeBase(setting);
    SchemeStart(r);
    SlashEnd(r);
    VisibleNotSpace(r[0]);
    VisibleNotSpace(r[|r| - 1]);
    TrimUnchanged(r);
    assert StripLeadingDots(r) == r;
  }

  /** A setting with neither scheme nor trailing slash gains both, and nothing else. */
  lemma NormalizeBare(setting: string, bare: string)
    requires StripLeadingDots(Trim(setting)) == bare && !HasScheme(bare)
    requires |bare| > 0 && bare[|bare| - 1] != '/'
    ensures NormalizeBase(Some(setting)) == "http://" + bare + "/"
  {
    var h := "http://" + bare;
    assert h[|h| - 1] == bare[|bare| - 1];
  }

  /** Trimming a dot-prefixed host and stripping the dots leaves the host, whatever it is. */
  lemma DottedHostSteps(h: string)
    requires |h| > 0 && h[0] != '.' && !IsSpace(h[|h| - 1])
    ensures StripLeadingDots(Trim("." + h)) == h
  {
    var t := "." + h;
    VisibleNotSpace(t[0]);
    assert t[|t| - 1] == h[|h| - 1];
    TrimUnchanged(t);
    assert t[1..] == h;
    assert LeadingDots(h) == 0;
    assert LeadingDots(t) == 1;
  }

  /**
   * A dotted host without scheme or trailing slash loses its dot and gains `http://`
   * and one `/`; no other path segment (such as `api/`) is added.
   */
  lemma NormalizeDottedHost(h: string)
    requires |h| > 0 && h[0] != '.' && !IsSpace(h[|h| - 1])
    requires !HasScheme(h) && h[|h| - 1] != '/'
    ensures NormalizeBase(Some("." + h)) == "http://" + h + "/"
  {
    DottedHostSteps(h);
    NormalizeBare("." + h, h);
  }

  /** The loopback example: `.127.0.0.1:5147` becomes `http://127.0.0.1:5147/`. */
  lemma DottedLoopback()
    ensures NormalizeBase(Some(".127.0.0.1:5147")) == "http://127.0.0.1:5147/"
  {
    DottedLoopbackAt(".127.0.0.1:5147", "127.0.0.1:5147", "http://127.0.0.1:5147/");
  }

  lemma DottedLoopbackAt(setting: string, h: string, expected: string)
    requires setting == ".127.0.0.1:5147" && h == "127.0.0.1:5147" && expected == "http://127.0.0.1:5147/"
    ensures NormalizeBase(Some(setting)) == expected
  {
    assert setting == "." + h by { assert setting[1..] == h; }
    NoSchemeWhenDigitFirst(h);
    assert h[|h| - 1] == '7';
    NormalizeDottedHost(h);
    LoopbackExpected(h, expected);
  }

  lemma LoopbackExpected(h: string, expected: string)
    requires h == "127.0.0.1:5147" && expected == "http://127.0.0.1:5147/"
    ensures expected == "http://" + h + "/"
  {
  }

  /** A missing setting falls back to the default base unchanged. */
  lemma NormalizeMissing()
    ensures NormalizeBase(None) == DefaultBase
  {
    var d := DefaultBase;
    VisibleNotSpace(d[0]);
    VisibleNotSpace(d[|d| - 1]);
    TrimUnchanged(d);
    assert StripLeadingDots(d) == d;
    assert d[..7] == "http://";
    assert HasScheme(d);
    assert EndsWith(d, "/");
  }

  /** One entity's operations: each operation name with its URL template. */
  datatype Group = Group(name: string, entries: seq<(string, string)>)

  /** The five operations every CRUD entity declares, as paths below the base. */
  function CrudRoutes(path: string, create: string, all: string, byId: string, update: string, delete: string)
    : seq<(string, string)>
  {
    var item := path + "/" + IdPlaceholder;
    [ (create, path + "/"), (all, path + "/"), (byId, item + "/"), (update, item + "/"),
      (delete, item + "/deleteLogical/") ]
  }

  /** The endpoint table below the base, in declaration order. */
  function Routes(): seq<Group> {
    [ Group("Auth", [("register", "Auth/register"), ("login", "Auth/login"),
                     ("refreshToken", "Auth/refresh"), ("revokeToken", "Auth/revoke")]),
      Group("Parent", CrudRoutes("Parent", "createParent", "getAllParents", "getParentById",
                                 "updateParent", "deleteParent")),
      Group("AdoptionDetail", CrudRoutes("AdoptionDetail", "createAdoptionDetail", "getAllAdoptionDetails",
                                         "getAdoptionDetailById", "updateAdoptionDetail", "deleteAdoptionDetail")),
      Group("Child", CrudRoutes("Child", "createChild", "getAllChildren", "getChildById",
                                "updateChild", "deleteChild")),
      Group("ChildOrphanage", CrudRoutes("ChildOrphanage", "createChildOrphanage", "getAllChildren",
                                         "getChildById", "updateChild", "deleteChild")),
      Group("Orphanage", CrudRoutes("Orphanage", "createOrphanage", "getAllOrphanages", "getOrphanageById",
                                    "updateOrphanage", "deleteOrphanage")),
      Group("SocialWorker", CrudRoutes("SocialWorker", "createSocialWorker", "getAllSocialWorkers",
                                       "getSocialWorkerById", "updateSocialWorker", "deleteSocialWorker")),
      Group("Adoption", CrudRoutes("Adoption", "createAdoption", "getAllAdoptions", "getAdoptionById",
                                   "updateAdoption", "deleteAdoption")),
      Group("menu", [("getMenuItems", "RolFormPermission/menu/{userId}")]) ]
  }

  /** The endpoint table: every route prefixed with the base. */
  function Endpoints(base: string): (t: seq<Group>)
    ensures |t| == |Routes()|
    ensures forall i :: 0 <= i < |t| ==> t[i].name == Routes()[i].name && |t[i].entries| == |Routes()[i].entries|
    ensures forall i, j :: 0 <= i < |t| && 0 <= j < |t[i].entries| ==>
      t[i].entries[j] == (Routes()[i].entries[j].0, base + Routes()[i].entries[j].1)
  {
    seq(|Routes()|, i requires 0 <= i < |Routes()| =>
      Group(Routes()[i].name, seq(|Routes()[i].entries|, j requires 0 <= j < |Routes()[i].entries| =>
        (Routes()[i].entries[j].0, base + Routes()[i].entries[j].1))))
  }

  /** The group an entity key selects (`ENDPOINTS[entityKey]`); absent keys give no group. */
  function GroupOf(table: seq<Group>, name: string): Option<Group> {
    if |table| == 0 then None
    else if table[0].name == name then Some(table[0])
    else GroupOf(table[1..], name)
  }

  const IdPlaceholder: string := "{id}"
  const UserIdPlaceholder: string := "{userId}"

  /** `template.replace('{id}', String(id))`. */
  function ResolveId(template: string, id: int): string {
    ReplaceFirst(template, IdPlaceholder, IntToString(id))
  }

  predicate NoBrace(s: string) {
    forall i :: 0 <= i < |s| ==> s[i] != '{'
  }

  /**
   * A placeholder preceded by no `{` is the occurrence replaced: the value lands
   * exactly where the placeholder was and the rest of the template is kept.
   */
  lemma ResolveAt(prefix: string, ph: string, suffix: string, value: string)
    requires NoBrace(prefix) && |ph| > 0 && ph[0] == '{'
    ensures ReplaceFirst(prefix + ph + suffix, ph, value) == prefix + value + suffix
  {
    var s := prefix + ph + suffix;
    var k := |prefix|;
    assert s[k..k + |ph|] == ph;
    forall j | 0 <= j < k ensures !OccursAt(s, ph, j) {
      assert s[j] == prefix[j];
    }
    IndexOfIsFirst(s, ph, k);
    assert s[..k] == prefix && s[k + |ph|..] == suffix;
  }

  /** Only the first placeholder is substituted; a second one stays in the URL. */
  lemma ResolveOnlyFirst(prefix: string, middle: string, suffix: string, id: int)
    requires NoBrace(prefix)
    ensures ResolveId(prefix + IdPlaceholder + middle + IdPlaceholder + suffix, id)
         == prefix + IntToString(id) + middle + IdPlaceholder + suffix
  {
    var rest := middle + IdPlaceholder + suffix;
    assert prefix + IdPlaceholder + middle + IdPlaceholder + suffix == prefix + IdPlaceholder + rest;
    ResolveAt(prefix, IdPlaceholder, rest, IntToString(id));
  }

  lemma NoBraceAppend(a: string, b: string)
    requires NoBrace(a) && NoBrace(b)
    ensures NoBrace(a + b)
  {
    assert forall i :: |a| <= i < |a + b| ==> (a + b)[i] == b[i - |a|];
  }

  lemma DecimalNoBrace(i: int)
    ensures NoBrace(IntToString(i))
  {
  }

  /** Resolving a template with one placeholder between brace-free parts leaves no brace. */
  lemma ResolveUnder(pre: string, tail: string, id: int)
    requires NoBrace(pre) && NoBrace(tail)
    ensures ResolveId(pre + IdPlaceholder + tail, id) == pre + IntToString(id) + tail
    ensures NoBrace(ResolveId(pre + IdPlaceholder + tail, id))
  {
    ResolveAt(pre, IdPlaceholder, tail, IntToString(id));
    DecimalNoBrace(id);
    NoBraceAppend(pre, IntToString(id));
    NoBraceAppend(pre + IntToString(id), tail);
  }

  /**
   * Every by-id operation of a CRUD entity resolves to the base, the entity path and the
   * decimal id, with nothing left to substitute; the collection routes carry no placeholder.
   */
  lemma CrudResolution(base: string, path: string, c: string, a: string, b: string, u: string, d: string, id: int)
    requires NoBrace(base) && NoBrace(path)
    ensures var rs := CrudRoutes(path, c, a, b, u, d);
      && NoBrace(base + rs[0].1) && NoBrace(base + rs[1].1)
      && ResolveId(base + rs[2].1, id) == base + path + "/" + IntToString(id) + "/"
      && ResolveId(base + rs[3].1, id) == base + path + "/" + IntToString(id) + "/"
      && ResolveId(base + rs[4].1, id) == base + path + "/" + IntToString(id) + "/deleteLogical/"
      && NoBrace(ResolveId(base + rs[2].1, id)) && NoBrace(ResolveId(base + rs[4].1, id))
  {
    var rs := CrudRoutes(path, c, a, b, u, d);
    var pre := base + path + "/";
    NoBraceAppend(base, path);
    NoBraceAppend(base + path, "/");
    assert base + rs[0].1 == pre && base + rs[1].1 == pre;
    assert base + rs[2].1 == pre + IdPlaceholder + "/";
    ResolveUnder(pre, "/", id);
    assert base + rs[4].1 == pre + IdPlaceholder + "/deleteLogical/";
    ResolveUnder(pre, "/deleteLogical/", id);
  }
}
