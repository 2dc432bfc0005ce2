/**
 * The filter bar above the list pages: a search text, one value per configured select,
 * and a program choice. Every change emits the current filter parameters as one object.
 */
module FilterBar {
  import opened Wrappers
  import opened Js

  /** One `{ value, label }` option of a select. */
  datatype SelectOption = SelectOption(value: string, caption: string)

  /** One select of the bar: its name, configured value, options and placeholder. */
  datatype SelectConfig = SelectConfig(name: string, value: Option<string>, options: seq<SelectOption>,
                                       placeholder: Option<string>)

  /** The bar's state: the search text, the select values by name, and the chosen program. */
  datatype FilterState = FilterState(search: string, selects: Obj<string>, program: Option<SelectOption>)

  /** A transition's result: the next state and the parameters passed to `onFilter`, if any. */
  datatype Emit = Emit(state: FilterState, params: Obj<string>)

  /** One value per configured name, written in configuration order; a repeated name keeps its first position and its last value. */
  function Fill(configs: seq<SelectConfig>, f: SelectConfig -> string): (r: Obj<string>)
    ensures DistinctKeys(r)
    decreases |configs|
  {
    if |configs| == 0 then []
    else
      var last := configs[|configs| - 1];
      Put(Fill(configs[..|configs| - 1], f), last.name, f(last))
  }

  /** Exactly the configured names are keys. */
  lemma {:induction false} FillHas(configs: seq<SelectConfig>, f: SelectConfig -> string, k: string)
    ensures HasKey(Fill(configs, f), k) <==> exists i :: 0 <= i < |configs| && configs[i].name == k
    decreases |configs|
  {
    if |configs| > 0 {
      var init := configs[..|configs| - 1];
      var last := configs[|configs| - 1];
      FillHas(init, f, k);
      assert Fill(configs, f) == Put(Fill(init, f), last.name, f(last));
      NamedInit(configs, init, k);
    }
  }

  lemma NamedInit(configs: seq<SelectConfig>, init: seq<SelectConfig>, k: string)
    requires |configs| > 0 && init == configs[..|configs| - 1]
    ensures (exists i :: 0 <= i < |configs| && configs[i].name == k) <==>
            (exists i :: 0 <= i < |init| && init[i].name == k) || configs[|configs| - 1].name == k
  {
    if exists i :: 0 <= i < |configs| && configs[i].name == k {
      var i :| 0 <= i < |configs| && configs[i].name == k;
      if i < |init| {
        assert init[i] == configs[i];
      }
    }
    if exists i :: 0 <= i < |init| && init[i].name == k {
      var i :| 0 <= i < |init| && init[i].name == k;
      assert configs[i] == init[i];
    }
  }

  /** A name holds what `f` gives for the last configuration of that name. */
  lemma {:induction false} FillValue(configs: seq<SelectConfig>, f: SelectConfig -> string, i: nat)
    requires i < |configs|
    requires forall j :: i < j < |configs| ==> configs[j].name != configs[i].name
    ensures Lookup(Fill(configs, f), configs[i].name) == Some(f(configs[i]))
    decreases |configs|
  {
    var init := configs[..|configs| - 1];
    if i < |init| {
      assert init[i] == configs[i];
      forall j | i < j < |init| ensures init[j].name != init[i].name {
        assert init[j] == configs[j];
      }
      FillValue(init, f, i);
    }
  }

  /** `sel.value || ''`. */
  function ConfiguredValue(c: SelectConfig): string {
    c.value.GetOr("")
  }

  /** The initial select state: each configured name with its configured value, or `''`. */
  function InitialSelects(configs: seq<SelectConfig>): (r: Obj<string>)
    ensures DistinctKeys(r)
  {
    Fill(configs, ConfiguredValue)
  }

  /** The value `handleClear` writes for every configured select. */
  function Cleared(c: SelectConfig): string {
    ""
  }

  /** The select state after clearing: each configured name with `''`. */
  function ClearedSelects(configs: seq<SelectConfig>): (r: Obj<string>)
    ensures DistinctKeys(r)
  {
    Fill(configs, Cleared)
  }

  /** The initial state reads each select's configured value, and `''` when there is none. */
  lemma InitialMeaning(configs: seq<SelectConfig>, i: nat)
    requires i < |configs|
    requires forall j :: i < j < |configs| ==> configs[j].name != configs[i].name
    ensures Lookup(InitialSelects(configs), configs[i].name) ==
            Some(if configs[i].value.Some? then configs[i].value.value else "")
  {
    FillValue(configs, ConfiguredValue, i);
  }

  /** After clearing, every configured select is `''` and no other name is present. */
  lemma ClearedMeaning(configs: seq<SelectConfig>, k: string)
    ensures HasKey(ClearedSelects(configs), k) <==> exists i :: 0 <= i < |configs| && configs[i].name == k
    ensures HasKey(ClearedSelects(configs), k) ==> Lookup(ClearedSelects(configs), k) == Some("")
  {
    FillHas(configs, Cleared, k);
    if HasKey(ClearedSelects(configs), k) {
      var i := LastNamed(configs, k);
      FillValue(configs, Cleared, i);
    }
  }

  /** The position of the last configuration named `k`, when there is one. */
  lemma LastNamed(configs: seq<SelectConfig>, k: string) returns (i: nat)
    requires exists i :: 0 <= i < |configs| && configs[i].name == k
    ensures i < |configs| && configs[i].name == k
    ensures forall j :: i < j < |configs| ==> configs[j].name != k
    decreases |configs|
  {
    var last := |configs| - 1;
    if configs[last].name == k {
      i := last;
    } else {
      var init := configs[..last];
      var w :| 0 <= w < |configs| && configs[w].name == k;
      assert init[w] == configs[w];
      i := LastNamed(init, k);
      assert configs[i] == init[i];
    }
  }

  /** The state the bar starts in. */
  function Init(configs: seq<SelectConfig>): (s: FilterState)
    ensures s.search == "" && s.program.None?
    ensures forall k :: HasKey(s.selects, k) <==> exists i :: 0 <= i < |configs| && configs[i].name == k
  {
    FillKeys(configs, ConfiguredValue);
    FilterState("", InitialSelects(configs), None)
  }

  lemma FillKeys(configs: seq<SelectConfig>, f: SelectConfig -> string)
    ensures forall k :: HasKey(Fill(configs, f), k) <==> exists i :: 0 <= i < |configs| && configs[i].name == k
  {
    forall k ensures HasKey(Fill(configs, f), k) <==> exists i :: 0 <= i < |configs| && configs[i].name == k {
      FillHas(configs, f, k);
    }
  }

  /** `option?.value || ''`. */
  function ProgramValue(o: Option<SelectOption>): string {
    if o.Some? then o.value.value else ""
  }

  /**
   * `{ search, ...selects, programa }` (the last part only when given): later writes win,
   * so a select named `search` overrides the search text and the `programa` part overrides
   * a select of that name.
   */
  function Params(search: string, selects: Obj<string>, programa: Option<string>): Obj<string> {
    var p := Assign([("search", search)], selects);
    if programa.Some? then Put(p, "programa", programa.value) else p
  }

  /** What the emitted parameters hold under any one name. */
  lemma ParamsAt(search: string, selects: Obj<string>, programa: Option<string>, k: string)
    requires DistinctKeys(selects)
    ensures HasKey(Params(search, selects, programa), k) <==>
            k == "search" || HasKey(selects, k) || (k == "programa" && programa.Some?)
    ensures Lookup(Params(search, selects, programa), k) ==
            if k == "programa" && programa.Some? then programa
            else if HasKey(selects, k) then Lookup(selects, k)
            else if k == "search" then Some(search)
            else None
  {
    LastValueDistinct(selects, k);
  }

  /** `handleSearchChange`: records the text and emits it with the select values, without `programa`. */
  function SearchChange(s: FilterState, text: string): (r: Emit)
    ensures r.state == s.(search := text)
  {
    Emit(s.(search := text), Params(text, s.selects, None))
  }

  /**
   * The parameters a search change emits: the new text under `search` (unless a select is
   * named so), every select value, and no `programa` unless a select is named so.
   */
  lemma SearchChangeParams(s: FilterState, text: string, k: string)
    requires DistinctKeys(s.selects)
    ensures HasKey(SearchChange(s, text).params, k) <==> k == "search" || HasKey(s.selects, k)
    ensures Lookup(SearchChange(s, text).params, k) ==
            if HasKey(s.selects, k) then Lookup(s.selects, k) else if k == "search" then Some(text) else None
  {
    ParamsAt(text, s.selects, None, k);
  }

  /** `{ ...selectValues, [name]: value }`: a copy of the select values with one name set. */
  function SetSelect(selects: Obj<string>, name: string, value: string): (r: Obj<string>)
    requires DistinctKeys(selects)
    ensures DistinctKeys(r)
    ensures Lookup(r, name) == Some(value)
    ensures forall k :: k != name ==> Lookup(r, k) == Lookup(selects, k)
    ensures forall k :: HasKey(r, k) <==> HasKey(selects, k) || k == name
  {
    AssignIntoEmpty(selects);
    Put(Assign([], selects), name, value)
  }

  /** `handleSelectChange`: only the named select changes. */
  function SelectChange(s: FilterState, name: string, value: string): (r: Emit)
    requires DistinctKeys(s.selects)
    ensures r.state.search == s.search && r.state.program == s.program
    ensures DistinctKeys(r.state.selects)
    ensures Lookup(r.state.selects, name) == Some(value)
    ensures forall k :: k != name ==> Lookup(r.state.selects, k) == Lookup(s.selects, k)
  {
    var selects := SetSelect(s.selects, name, value);
    Emit(s.(selects := selects), Params(s.search, selects, Some(ProgramValue(s.program))))
  }

  /**
   * The parameters a select change emits: `programa` from the chosen program (or `''`),
   * every select value after the change, and the search text under `search` unless a
   * select is named so.
   */
  lemma SelectChangeParams(s: FilterState, name: string, value: string, k: string)
    requires DistinctKeys(s.selects)
    ensures var r := SelectChange(s, name, value);
      && HasKey(r.params, "programa") && HasKey(r.params, "search")
      && Lookup(r.params, k) ==
         if k == "programa" then Some(if s.program.Some? then s.program.value.value else "")
         else if HasKey(r.state.selects, k) then Lookup(r.state.selects, k)
         else if k == "search" then Some(s.search)
         else None
  {
    var r := SelectChange(s, name, value);
    ParamsAt(s.search, r.state.selects, Some(ProgramValue(s.program)), k);
    ParamsAt(s.search, r.state.selects, Some(ProgramValue(s.program)), "programa");
    ParamsAt(s.search, r.state.selects, Some(ProgramValue(s.program)), "search");
  }

  /** `handleProgramChange`: records the option. */
  function ProgramChange(s: FilterState, option: Option<SelectOption>): (r: Emit)
    ensures r.state == s.(program := option)
  {
    Emit(s.(program := option), Params(s.search, s.selects, Some(ProgramValue(option))))
  }

  /**
   * The parameters a program change emits: `programa` as the option's value, or `''`
   * when the choice is cleared, with the search text and every select value.
   */
  lemma ProgramChangeParams(s: FilterState, option: Option<SelectOption>, k: string)
    requires DistinctKeys(s.selects)
    ensures Lookup(ProgramChange(s, option).params, k) ==
            if k == "programa" then Some(if option.Some? then option.value.value else "")
            else if HasKey(s.selects, k) then Lookup(s.selects, k)
            else if k == "search" then Some(s.search)
            else None
  {
    ParamsAt(s.search, s.selects, Some(ProgramValue(option)), k);
  }

  /** `handleClear`: empty search, every configured select `''`, no program. */
  function Clear(configs: seq<SelectConfig>): (r: Emit)
    ensures r.state.search == "" && r.state.program.None?
    ensures DistinctKeys(r.state.selects)
  {
    var cleared := ClearedSelects(configs);
    Emit(FilterState("", cleared, None), Params("", cleared, Some("")))
  }

  /**
   * What clearing emits: `search`, `programa` and every configured name, nothing else,
   * all of them `''`; the state's selects are the configured names, all `''`.
   */
  lemma ClearParams(configs: seq<SelectConfig>, k: string)
    ensures var r := Clear(configs);
      && (HasKey(r.params, k) <==> k == "search" || k == "programa" ||
                                   exists i :: 0 <= i < |configs| && configs[i].name == k)
      && (HasKey(r.params, k) ==> Lookup(r.params, k) == Some(""))
      && (HasKey(r.state.selects, k) ==> Lookup(r.state.selects, k) == Some(""))
  {
    ClearedMeaning(configs, k);
    ParamsAt("", ClearedSelects(configs), Some(""), k);
  }

  /** The value a select shows for a stored value: `''` is shown as the `all` option. */
  function Shown(stored: string): (v: string)
    ensures v == "all" <==> stored == "" || stored == "all"
    ensures stored != "" ==> v == stored
  {
    if stored == "" then "all" else stored
  }

  /** The value stored when an option is chosen: choosing `all` stores `''`. */
  function Chosen(picked: string): (v: string)
    ensures v == "" <==> picked == "all" || picked == ""
    ensures picked != "all" ==> v == picked
  {
    if picked == "all" then "" else picked
  }

  /**
   * The `''`/`all` mapping is a round trip for every stored value except `all` itself,
   * which reads back as `''`; showing a choice gives the choice back, `''` showing as `all`.
   */
  lemma SentinelRoundTrip(stored: string, picked: string)
    ensures Chosen(Shown(stored)) == stored <==> stored != "all"
    ensures Shown(Chosen(picked)) == (if picked == "" then "all" else picked)
  {
  }

  /** The configured options whose value is not empty, in their original order. */
  function NonEmpty(opts: seq<SelectOption>): (r: seq<SelectOption>)
    ensures forall o :: o in r <==> o in opts && o.value != ""
    ensures |r| <= |opts|
    decreases |opts|
  {
    if |opts| == 0 then []
    else (if opts[0].value != "" then [opts[0]] else []) + NonEmpty(opts[1..])
  }

  /** A list with no empty value is kept whole. */
  lemma {:induction false} NonEmptyKeepsAll(opts: seq<SelectOption>)
    requires forall i :: 0 <= i < |opts| ==> opts[i].value != ""
    ensures NonEmpty(opts) == opts
    decreases |opts|
  {
    if |opts| > 0 {
      NonEmptyKeepsAll(opts[1..]);
      assert opts == [opts[0]] + opts[1..];
    }
  }

  /** One option is kept exactly when its value is not empty. */
  lemma NonEmptyOne(o: SelectOption)
    ensures NonEmpty([o]) == (if o.value != "" then [o] else [])
  {
    assert [o][1..] == [];
  }

  /** Filtering distributes over concatenation: order and repeats are kept. */
  lemma {:induction false} NonEmptyAppend(a: seq<SelectOption>, b: seq<SelectOption>)
    ensures NonEmpty(a + b) == NonEmpty(a) + NonEmpty(b)
    decreases |a|
  {
    if |a| == 0 {
      assert a + b == b;
    } else {
      assert (a + b)[1..] == a[1..] + b;
      NonEmptyAppend(a[1..], b);
    }
  }

  /**
   * The options a select offers: `all`, labelled with the placeholder or `Todos`, then the
   * configured options with a non-empty value, in their order.
   */
  function Options(c: SelectConfig): (r: seq<SelectOption>)
    ensures |r| >= 1 && r[0].value == "all"
    ensures r[0].caption == (if c.placeholder.Some? && c.placeholder.value != "" then c.placeholder.value else "Todos")
    ensures forall o :: o in r[1..] <==> o in c.options && o.value != ""
    ensures r[1..] == NonEmpty(c.options)
  {
    var caption := if c.placeholder.Some? && c.placeholder.value != "" then c.placeholder.value else "Todos";
    [SelectOption("all", caption)] + NonEmpty(c.options)
  }
}
