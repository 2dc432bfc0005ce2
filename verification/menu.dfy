/**
 * The side menu: the role/module/form tree the server sends for a user is flattened into
 * numbered items, the items are grouped by module, the groups are ordered with the
 * `Inicio` module first, and one module at a time can be open.
 */
module Menu {
  import opened Wrappers
  import opened Text
  import opened Js
  import ConfigApi

  /** `FormItemDto`: a form's display name and route. */
  datatype FormItem = FormItem(name: string, path: string)

  /** `MenuFormDto`: a module and its forms; the server may omit either. */
  datatype MenuForm = MenuForm(name: Option<string>, forms: Option<seq<FormItem>>)

  /** `MenuDto`: the modules one role grants; the server may omit the list. */
  datatype RoleMenu = RoleMenu(role: string, modules: Option<seq<MenuForm>>)

  /** One entry of the flattened menu. */
  datatype MenuItem = MenuItem(id: int, name: string, path: string, moduleName: string)

  /** `mf.Name || ''`. */
  function ModuleName(mf: MenuForm): string {
    mf.name.GetOr("")
  }

  /** `mf.Form || []`. */
  function FormsOf(mf: MenuForm): seq<FormItem> {
    mf.forms.GetOr([])
  }

  /** `m.ModuleForm || []`. */
  function ModulesOf(m: RoleMenu): seq<MenuForm> {
    m.modules.GetOr([])
  }

  /** The forms of one module, each paired with the module's name. */
  function FormEntries(mf: MenuForm): (r: seq<(string, FormItem)>)
    ensures |r| == |FormsOf(mf)|
    ensures forall i :: 0 <= i < |r| ==> r[i] == (ModuleName(mf), FormsOf(mf)[i])
  {
    seq(|FormsOf(mf)|, i requires 0 <= i < |FormsOf(mf)| => (ModuleName(mf), FormsOf(mf)[i]))
  }

  /** The (module name, form) pairs of a list of modules, module after module. */
  function ModuleEntries(mfs: seq<MenuForm>): seq<(string, FormItem)>
    decreases |mfs|
  {
    if |mfs| == 0 then [] else ModuleEntries(mfs[..|mfs| - 1]) + FormEntries(mfs[|mfs| - 1])
  }

  /** The (module name, form) pairs of the whole tree in traversal order: roles, their modules, their forms. */
  function Entries(data: seq<RoleMenu>): seq<(string, FormItem)>
    decreases |data|
  {
    if |data| == 0 then [] else Entries(data[..|data| - 1]) + ModuleEntries(ModulesOf(data[|data| - 1]))
  }

  /** Menu items for the given pairs, numbered from 1 in order. */
  function Numbered(es: seq<(string, FormItem)>): (r: seq<MenuItem>)
    ensures |r| == |es|
    ensures forall i :: 0 <= i < |es| ==> r[i] == MenuItem(i + 1, es[i].1.name, es[i].1.path, es[i].0)
  {
    seq(|es|, i requires 0 <= i < |es| => MenuItem(i + 1, es[i].1.name, es[i].1.path, es[i].0))
  }

  /** Traversal distributes over concatenation of the role list. */
  lemma {:induction false} EntriesAppend(a: seq<RoleMenu>, b: seq<RoleMenu>)
    ensures Entries(a + b) == Entries(a) + Entries(b)
    decreases |b|
  {
    if |b| > 0 {
      var b' := b[..|b| - 1];
      assert (a + b)[..|a + b| - 1] == a + b';
      assert (a + b)[|a + b| - 1] == b[|b| - 1];
      EntriesAppend(a, b');
      assert Entries(a + b) == Entries(a + b') + ModuleEntries(ModulesOf(b[|b| - 1]));
      assert Entries(b) == Entries(b') + ModuleEntries(ModulesOf(b[|b| - 1]));
    } else {
      assert a + b == a;
    }
  }

  /** A role without a module list, or whose modules carry no forms, adds no items. */
  lemma EmptyRoleAddsNothing(a: seq<RoleMenu>, m: RoleMenu, b: seq<RoleMenu>)
    requires forall j :: 0 <= j < |ModulesOf(m)| ==> |FormsOf(ModulesOf(m)[j])| == 0
    ensures Entries(a + [m] + b) == Entries(a + b)
  {
    EntriesAppend(a + [m], b);
    EntriesAppend(a, b);
    assert (a + [m])[..|a + [m]| - 1] == a;
    NoFormsNoEntries(ModulesOf(m));
  }

  lemma {:induction false} NoFormsNoEntries(mfs: seq<MenuForm>)
    requires forall j :: 0 <= j < |mfs| ==> |FormsOf(mfs[j])| == 0
    ensures ModuleEntries(mfs) == []
    decreases |mfs|
  {
    if |mfs| > 0 {
      NoFormsNoEntries(mfs[..|mfs| - 1]);
    }
  }

  /** The number of forms a list of modules carries: one item per form. */
  lemma {:induction false} ModuleEntriesCount(mfs: seq<MenuForm>)
    ensures |ModuleEntries(mfs)| == FormCount(mfs)
    decreases |mfs|
  {
    if |mfs| > 0 {
      ModuleEntriesCount(mfs[..|mfs| - 1]);
    }
  }

  function FormCount(mfs: seq<MenuForm>): nat
    decreases |mfs|
  {
    if |mfs| == 0 then 0 else FormCount(mfs[..|mfs| - 1]) + |FormsOf(mfs[|mfs| - 1])|
  }

  /** The inner loop of `fetchMenu`: one item per form of `mf`, each taking the next id. */
  method PushForms(items: seq<MenuItem>, next: int, mf: MenuForm, ghost done: seq<(string, FormItem)>)
    returns (out: seq<MenuItem>, next': int)
    requires items == Numbered(done) && next == |done| + 1
    ensures out == Numbered(done + FormEntries(mf)) && next' == |out| + 1
  {
    var moduleName := ModuleName(mf);
    var forms := FormsOf(mf);
    ghost var fe := FormEntries(mf);
    out, next' := items, next;
    var f := 0;
    while f < |forms|
      invariant 0 <= f <= |forms|
      invariant out == Numbered(done + fe[..f]) && next' == |out| + 1
    {
      assert done + fe[..f + 1] == (done + fe[..f]) + [(moduleName, forms[f])];
      out := out + [MenuItem(next', forms[f].name, forms[f].path, moduleName)];
      next' := next' + 1;
      f := f + 1;
    }
    assert fe[..f] == fe;
  }

  /** The middle loop of `fetchMenu`: the forms of every module of one role, module after module. */
  method PushModules(items: seq<MenuItem>, next: int, mfs: seq<MenuForm>, ghost done: seq<(string, FormItem)>)
    returns (out: seq<MenuItem>, next': int)
    requires items == Numbered(done) && next == |done| + 1
    ensures out == Numbered(done + ModuleEntries(mfs)) && next' == |out| + 1
  {
    out, next' := items, next;
    var j := 0;
    while j < |mfs|
      invariant 0 <= j <= |mfs|
      invariant out == Numbered(done + ModuleEntries(mfs[..j])) && next' == |out| + 1
    {
      assert mfs[..j + 1][..j] == mfs[..j];
      assert done + ModuleEntries(mfs[..j + 1]) == (done + ModuleEntries(mfs[..j])) + FormEntries(mfs[j]);
      out, next' := PushForms(out, next', mfs[j], done + ModuleEntries(mfs[..j]));
      j := j + 1;
    }
    assert mfs[..j] == mfs;
  }

  /**
   * The flattening in `fetchMenu`: data that is not an array gives no items; otherwise
   * every form of every module of every role becomes one item, in traversal order, the
   * module name defaulting to `''`, and the ids run 1, 2, 3, … with no gap.
   */
  method FlattenMenu(data: Option<seq<RoleMenu>>) returns (items: seq<MenuItem>)
    ensures data.None? ==> items == []
    ensures data.Some? ==> items == Numbered(Entries(data.value))
    ensures forall i :: 0 <= i < |items| ==> items[i].id == i + 1
  {
    items := [];
    var idCounter := 1;
    if data.Some? {
      var roles := data.value;
      var k := 0;
      while k < |roles|
        invariant 0 <= k <= |roles|
        invariant items == Numbered(Entries(roles[..k])) && idCounter == |items| + 1
      {
        assert roles[..k + 1][..k] == roles[..k];
        items, idCounter := PushModules(items, idCounter, ModulesOf(roles[k]), Entries(roles[..k]));
        k := k + 1;
      }
      assert roles[..k] == roles;
    }
  }

  /** What the menu request returns: a thrown error, or the parsed body (`None` when it is not an array). */
  type MenuAnswer = Outcome<Option<seq<RoleMenu>>>

  /** The outcome of `fetchMenu`: the request made, if any, and the items shown afterwards. */
  datatype MenuLoad = MenuLoad(request: Option<string>, items: seq<MenuItem>)

  /** The menu endpoint for a user: the `{userId}` placeholder of the menu template replaced by the id. */
  function MenuUrl(base: string, uid: int): string {
    ReplaceFirst(base + MenuTemplate, ConfigApi.UserIdPlaceholder, IntToString(uid))
  }

  const MenuTemplate: string := "RolFormPermission/menu/{userId}"

  /** The menu template is the one the endpoint table declares for `menu.getMenuItems`. */
  lemma MenuTemplateDeclared()
    ensures ConfigApi.Routes()[8] == ConfigApi.Group("menu", [("getMenuItems", MenuTemplate)])
  {
  }

  /** Under a brace-free base, the user id lands where the placeholder was and nothing else changes. */
  lemma MenuUrlResolved(base: string, uid: int)
    requires ConfigApi.NoBrace(base)
    ensures MenuUrl(base, uid) == base + "RolFormPermission/menu/" + IntToString(uid)
  {
    var pre := "RolFormPermission/menu/";
    assert ConfigApi.NoBrace(pre);
    ConfigApi.NoBraceAppend(base, pre);
    assert base + MenuTemplate == (base + pre) + ConfigApi.UserIdPlaceholder + "";
    ConfigApi.ResolveAt(base + pre, ConfigApi.UserIdPlaceholder, "", IntToString(uid));
  }

  /**
   * `fetchMenu`: with no user id (missing, or 0) nothing is requested and the items stay;
   * otherwise the menu endpoint for the id is requested, a thrown error keeps the items,
   * and an answer replaces them with the flattened tree.
   */
  method FetchMenu(base: string, uid: Option<int>, answer: MenuAnswer, current: seq<MenuItem>)
    returns (r: MenuLoad)
    ensures r.request.None? <==> uid.None? || uid == Some(0)
    ensures r.request.Some? ==> r.request.value == MenuUrl(base, uid.value)
    ensures r.request.None? || answer.Threw? ==> r.items == current
    ensures r.request.Some? && answer.Returned? && answer.value.None? ==> r.items == []
    ensures r.request.Some? && answer.Returned? && answer.value.Some? ==>
      r.items == Numbered(Entries(answer.value.value))
  {
    if uid.None? || uid.value == 0 {
      return MenuLoad(None, current);
    }
    var url := MenuUrl(base, uid.value);
    match answer
    case Threw =>
      r := MenuLoad(Some(url), current);
    case Returned(data) =>
      var items := FlattenMenu(data);
      r := MenuLoad(Some(url), items);
  }

  /** The items of module `m`, in their original order. */
  function InModule(items: seq<MenuItem>, m: string): (r: seq<MenuItem>)
    ensures forall x :: x in r <==> x in items && x.moduleName == m
    ensures |r| == 0 <==> forall i :: 0 <= i < |items| ==> items[i].moduleName != m
    decreases |items|
  {
    if |items| == 0 then []
    else
      var init := items[..|items| - 1];
      var last := items[|items| - 1];
      assert items == init + [last];
      InModule(init, m) + (if last.moduleName == m then [last] else [])
  }

  /**
   * The grouping object: a module becomes a key when its first item is seen, and its
   * group collects the module's items in order.
   */
  function GroupItems(items: seq<MenuItem>): (g: Obj<seq<MenuItem>>)
    ensures DistinctKeys(g)
    decreases |items|
  {
    if |items| == 0 then []
    else
      var g0 := GroupItems(items[..|items| - 1]);
      var last := items[|items| - 1];
      Put(g0, last.moduleName, Lookup(g0, last.moduleName).GetOr([]) + [last])
  }

  /**
   * Exactly the modules that have items are keys of the grouping, and each key holds
   * precisely its module's items, in their original order.
   */
  lemma {:induction false} GroupMeaning(items: seq<MenuItem>, m: string)
    ensures HasKey(GroupItems(items), m) <==> exists i :: 0 <= i < |items| && items[i].moduleName == m
    ensures HasKey(GroupItems(items), m) ==> Lookup(GroupItems(items), m) == Some(InModule(items, m))
    decreases |items|
  {
    if |items| > 0 {
      var init := items[..|items| - 1];
      var last := items[|items| - 1];
      GroupMeaning(init, m);
      if last.moduleName == m {
        GroupLast(items, init, last);
      } else {
        GroupOther(items, init, last, m);
      }
    }
  }

  lemma GroupLast(items: seq<MenuItem>, init: seq<MenuItem>, last: MenuItem)
    requires |items| > 0 && init == items[..|items| - 1] && last == items[|items| - 1]
    requires HasKey(GroupItems(init), last.moduleName) ==>
      Lookup(GroupItems(init), last.moduleName) == Some(InModule(init, last.moduleName))
    requires HasKey(GroupItems(init), last.moduleName) <==>
      exists i :: 0 <= i < |init| && init[i].moduleName == last.moduleName
    ensures HasKey(GroupItems(items), last.moduleName)
    ensures Lookup(GroupItems(items), last.moduleName) == Some(InModule(items, last.moduleName))
  {
    var m := last.moduleName;
    var g0 := GroupItems(init);
    assert GroupItems(items) == Put(g0, m, Lookup(g0, m).GetOr([]) + [last]);
    assert InModule(items, m) == InModule(init, m) + [last];
    if !HasKey(g0, m) {
      assert |InModule(init, m)| == 0;
    }
  }

  lemma GroupOther(items: seq<MenuItem>, init: seq<MenuItem>, last: MenuItem, m: string)
    requires |items| > 0 && init == items[..|items| - 1] && last == items[|items| - 1] && last.moduleName != m
    requires HasKey(GroupItems(init), m) ==> Lookup(GroupItems(init), m) == Some(InModule(init, m))
    requires HasKey(GroupItems(init), m) <==> exists i :: 0 <= i < |init| && init[i].moduleName == m
    ensures HasKey(GroupItems(items), m) <==> exists i :: 0 <= i < |items| && items[i].moduleName == m
    ensures HasKey(GroupItems(items), m) ==> Lookup(GroupItems(items), m) == Some(InModule(items, m))
  {
    var g0 := GroupItems(init);
    assert GroupItems(items) == Put(g0, last.moduleName, Lookup(g0, last.moduleName).GetOr([]) + [last]);
    assert InModule(items, m) == InModule(init, m);
    HasModuleInit(items, init, m);
  }

  /** Some item other than the last belongs to `m` exactly when some item does and the last one does not. */
  lemma HasModuleInit(items: seq<MenuItem>, init: seq<MenuItem>, m: string)
    requires |items| > 0 && init == items[..|items| - 1] && items[|items| - 1].moduleName != m
    ensures (exists i :: 0 <= i < |items| && items[i].moduleName == m) <==>
            (exists i :: 0 <= i < |init| && init[i].moduleName == m)
  {
    if exists i :: 0 <= i < |items| && items[i].moduleName == m {
      var i :| 0 <= i < |items| && items[i].moduleName == m;
      assert init[i] == items[i];
    }
  }

  /** Each item sits in its module's group, and no group holds an item of another module. */
  lemma GroupPlacesEveryItem(items: seq<MenuItem>, i: nat, m: string)
    requires i < |items|
    ensures items[i].moduleName == m ==> HasKey(GroupItems(items), m)
    ensures HasKey(GroupItems(items), m) ==>
      (items[i] in Lookup(GroupItems(items), m).value <==> items[i].moduleName == m)
  {
    GroupMeaning(items, m);
  }

  /** `toLowerCase() === 'inicio'`. */
  predicate IsInicio(name: string) {
    LowerStr(name) == "inicio"
  }

  /** Code-unit lexicographic order, standing in for `localeCompare`. */
  predicate StrLe(a: string, b: string)
    decreases |a|
  {
    |a| == 0 || (|b| > 0 && (a[0] < b[0] || (a[0] == b[0] && StrLe(a[1..], b[1..]))))
  }

  lemma {:induction false} StrLeTotal(a: string, b: string)
    ensures StrLe(a, b) || StrLe(b, a)
    decreases |a|
  {
    if |a| > 0 && |b| > 0 && a[0] == b[0] {
      StrLeTotal(a[1..], b[1..]);
    }
  }

  lemma {:induction false} StrLeTrans(a: string, b: string, c: string)
    requires StrLe(a, b) && StrLe(b, c)
    ensures StrLe(a, c)
    decreases |a|
  {
    if |a| > 0 && a[0] == b[0] && b[0] == c[0] {
      StrLeTrans(a[1..], b[1..], c[1..]);
    }
  }

  lemma {:induction false} StrLeAntisym(a: string, b: string)
    requires StrLe(a, b) && StrLe(b, a)
    ensures a == b
    decreases |a|
  {
    if |a| > 0 {
      StrLeAntisym(a[1..], b[1..]);
      assert a == [a[0]] + a[1..] && b == [b[0]] + b[1..];
    }
  }

  predicate SortedByName<V>(o: Obj<V>) {
    forall i, j :: 0 <= i < j < |o| ==> StrLe(o[i].0, o[j].0)
  }

  /** Inserts one entry into a list sorted by name, keeping it sorted. */
  function Insert<V>(x: (string, V), s: Obj<V>): (r: Obj<V>)
    requires SortedByName(s)
    ensures multiset(r) == multiset(s) + multiset{x}
    ensures SortedByName(r)
    decreases |s|
  {
    if |s| == 0 then [x]
    else if StrLe(x.0, s[0].0) then
      InsertFront(x, s);
      [x] + s
    else
      var t := Insert(x, s[1..]);
      StrLeTotal(x.0, s[0].0);
      assert s == [s[0]] + s[1..];
      InsertBehind(x, s, t);
      [s[0]] + t
  }

  lemma InsertFront<V>(x: (string, V), s: Obj<V>)
    requires SortedByName(s) && |s| > 0 && StrLe(x.0, s[0].0)
    ensures SortedByName([x] + s)
  {
    forall j | 0 < j < |s| ensures StrLe(x.0, s[j].0) {
      StrLeTrans(x.0, s[0].0, s[j].0);
    }
  }

  lemma InsertBehind<V>(x: (string, V), s: Obj<V>, t: Obj<V>)
    requires SortedByName(s) && |s| > 0 && StrLe(s[0].0, x.0)
    requires SortedByName(t) && multiset(t) == multiset(s[1..]) + multiset{x}
    ensures SortedByName([s[0]] + t)
  {
    forall j | 0 <= j < |t| ensures StrLe(s[0].0, t[j].0) {
      assert t[j] in multiset(t);
      if t[j] != x {
        assert t[j] in s[1..];
        var k :| 0 <= k < |s[1..]| && s[1..][k] == t[j];
        assert s[k + 1] == t[j];
      }
    }
  }

  /** Insertion sort by name. */
  function SortByName<V>(o: Obj<V>): (r: Obj<V>)
    ensures multiset(r) == multiset(o)
    ensures SortedByName(r)
    decreases |o|
  {
    if |o| == 0 then []
    else
      assert o == [o[0]] + o[1..];
      Insert(o[0], SortByName(o[1..]))
  }

  /** Splits the groups into the `Inicio` ones and the others, each in their original order. */
  function PartitionInicio<V>(o: Obj<V>): (r: (Obj<V>, Obj<V>))
    ensures forall i :: 0 <= i < |r.0| ==> IsInicio(r.0[i].0)
    ensures forall i :: 0 <= i < |r.1| ==> !IsInicio(r.1[i].0)
    ensures multiset(r.0) + multiset(r.1) == multiset(o)
    decreases |o|
  {
    if |o| == 0 then ([], [])
    else
      var p := PartitionInicio(o[1..]);
      assert o == [o[0]] + o[1..];
      if IsInicio(o[0].0) then ([o[0]] + p.0, p.1) else (p.0, [o[0]] + p.1)
  }

  /**
   * The module order of the sidebar: the same groups, every `Inicio` group (in any letter
   * case) before every other, and the other groups in increasing name order.
   */
  function OrderModules<V>(g: Obj<V>): (r: Obj<V>)
    ensures multiset(r) == multiset(g)
    ensures forall i, j :: 0 <= i < |r| && 0 <= j < |r| && IsInicio(r[i].0) && !IsInicio(r[j].0) ==> i < j
    ensures forall i, j :: 0 <= i < j < |r| && !IsInicio(r[i].0) && !IsInicio(r[j].0) ==> StrLe(r[i].0, r[j].0)
  {
    var p := PartitionInicio(g);
    var s := SortByName(p.1);
    assert forall x :: x in s ==> x in multiset(p.1);
    assert forall k :: 0 <= k < |s| ==> !IsInicio(s[k].0) by {
      forall k | 0 <= k < |s| ensures !IsInicio(s[k].0) {
        assert s[k] in multiset(p.1);
      }
    }
    p.0 + s
  }

  /**
   * With distinct module names, the order of the non-`Inicio` groups is fully determined:
   * two sorted lists holding the same groups are the same list.
   */
  lemma {:induction false} SortedUnique<V>(a: Obj<V>, b: Obj<V>)
    requires SortedByName(a) && SortedByName(b) && DistinctKeys(a)
    requires multiset(a) == multiset(b)
    ensures a == b
    decreases |a|
  {
    assert |a| == |multiset(a)| == |b|;
    if |a| > 0 {
      SortedHeads(a, b);
      var a', b' := a[1..], b[1..];
      MultisetTail(a, b);
      assert SortedByName(a') && SortedByName(b') && DistinctKeys(a');
      SortedUnique(a', b');
    }
  }

  lemma MultisetTail<T>(a: seq<T>, b: seq<T>)
    requires |a| > 0 && |b| > 0 && a[0] == b[0] && multiset(a) == multiset(b)
    ensures multiset(a[1..]) == multiset(b[1..])
  {
    assert a == [a[0]] + a[1..] && b == [b[0]] + b[1..];
    assert multiset(a) == multiset{a[0]} + multiset(a[1..]);
    assert multiset(b) == multiset{a[0]} + multiset(b[1..]);
    assert multiset(a[1..]) == multiset(a) - multiset{a[0]};
    assert multiset(b[1..]) == multiset(b) - multiset{a[0]};
  }

  /** Two sorted lists holding the same groups, under distinct names, start alike. */
  lemma SortedHeads<V>(a: Obj<V>, b: Obj<V>)
    requires SortedByName(a) && SortedByName(b) && DistinctKeys(a)
    requires multiset(a) == multiset(b) && |a| > 0 && |b| > 0
    ensures a[0] == b[0]
  {
    assert a[0] in multiset(b) && b[0] in multiset(a);
    var i :| 0 <= i < |b| && b[i] == a[0];
    var j :| 0 <= j < |a| && a[j] == b[0];
    if j != 0 {
      assert StrLe(a[0].0, a[j].0);
      assert i != 0 && StrLe(b[0].0, b[i].0);
      StrLeAntisym(a[0].0, a[j].0);
      assert false;
    }
  }

  /**
   * Clicking the Inicio module: its first form's path when there is a first form with a
   * non-empty path, and `/home` otherwise. The target is never empty.
   */
  function InicioTarget(forms: seq<MenuItem>): (target: string)
    ensures target != ""
    ensures |forms| > 0 && forms[0].path != "" ==> target == forms[0].path
    ensures (|forms| == 0 || forms[0].path == "") ==> target == "/home"
  {
    if |forms| > 0 && forms[0].path != "" then forms[0].path else "/home"
  }

  /** The Inicio click goes to the path of the first item of the Inicio module in the flattened order. */
  lemma InicioGoesToFirstForm(items: seq<MenuItem>, m: string, i: nat)
    requires i < |items| && items[i].moduleName == m && items[i].path != ""
    requires forall j :: 0 <= j < i ==> items[j].moduleName != m
    ensures Lookup(GroupItems(items), m) == Some(InModule(items, m))
    ensures InicioTarget(InModule(items, m)) == items[i].path
  {
    GroupMeaning(items, m);
    FirstInModule(items, m, i);
  }

  lemma {:induction false} FirstInModule(items: seq<MenuItem>, m: string, i: nat)
    requires i < |items| && items[i].moduleName == m
    requires forall j :: 0 <= j < i ==> items[j].moduleName != m
    ensures |InModule(items, m)| > 0 && InModule(items, m)[0] == items[i]
    decreases |items|
  {
    var init := items[..|items| - 1];
    if i < |items| - 1 {
      assert init[i] == items[i];
      FirstInModule(init, m, i);
    } else {
      assert forall j :: 0 <= j < |init| ==> init[j].moduleName != m;
    }
  }

  /** The open-module toggle: clicking the open module closes it, clicking another opens that one. */
  function Toggle(open: Option<string>, m: string): (r: Option<string>)
    ensures r.None? <==> open == Some(m)
    ensures r.Some? ==> r.value == m
  {
    if open == Some(m) then None else Some(m)
  }

  /** Two clicks on the same module leave every module closed; from closed, one click opens it. */
  lemma ToggleTwice(open: Option<string>, m: string)
    ensures Toggle(Toggle(open, m), m) == (if open == Some(m) then Some(m) else None)
    ensures Toggle(None, m) == Some(m)
  {
  }
}
