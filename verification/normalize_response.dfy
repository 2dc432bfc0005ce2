/**
 * Key normalisation of server objects: camelCase property names become PascalCase,
 * names containing `_` and names already starting with an upper-case character are
 * kept, and any spelling of `active` becomes `active`.
 */
module NormalizeResponse {
  import opened Wrappers
  import opened Text
  import opened Js

  /** The name a property of a server object is stored under after normalisation. */
  function NormalizeKey(k: string): string {
    if LowerStr(k) == "active" then "active"
    else if '_' in k then k
    else if |k| > 0 && k[0] == Upper(k[0]) then k
    else if |k| == 0 then ""
    else [Upper(k[0])] + k[1..]
  }

  /**
   * What normalisation does to a name: only letter case ever changes; any spelling of
   * `active` becomes `active`; otherwise the first character is upper-cased, unless the
   * name holds an underscore.
   */
  lemma NormalizeKeyMeaning(k: string)
    ensures LowerStr(NormalizeKey(k)) == LowerStr(k)
    ensures LowerStr(k) == "active" ==> NormalizeKey(k) == "active"
    ensures LowerStr(k) != "active" && '_' in k ==> NormalizeKey(k) == k
    ensures LowerStr(k) != "active" && '_' !in k && |k| > 0 ==>
      var r := NormalizeKey(k);
      |r| == |k| && r[0] == Upper(k[0]) && r[1..] == k[1..]
  {
    var r := NormalizeKey(k);
    if LowerStr(k) != "active" && '_' !in k && |k| > 0 {
      UpperIdempotent(k[0]);
    }
  }

  lemma UpperIdempotent(c: char)
    ensures Upper(Upper(c)) == Upper(c) && Lower(Upper(c)) == Lower(c)
  {
  }

  /** A normalised name is normalised already. */
  lemma NormalizeKeyIdempotent(k: string)
    ensures NormalizeKey(NormalizeKey(k)) == NormalizeKey(k)
  {
    var r := NormalizeKey(k);
    NormalizeKeyMeaning(k);
    if LowerStr(k) != "active" && '_' !in k && |k| > 0 {
      UpperIdempotent(k[0]);
      assert r[0] == Upper(k[0]);
      assert '_' !in r by {
        assert r == [r[0]] + k[1..];
      }
    }
  }

  /** The object's properties under their normalised names, in the original order. */
  function Rename<V>(o: Obj<V>): (r: Obj<V>)
    ensures |r| == |o|
    ensures forall i :: 0 <= i < |o| ==> r[i] == (NormalizeKey(o[i].0), o[i].1)
  {
    seq(|o|, i requires 0 <= i < |o| => (NormalizeKey(o[i].0), o[i].1))
  }

  /**
   * `normalizeItem(o)`: a fresh object receiving each property of `o`, in order, under
   * its normalised name. Two names that normalise alike collapse into one property
   * holding the later value.
   */
  function NormalizeItem<V>(o: Obj<V>): (r: Obj<V>)
    ensures DistinctKeys(r)
    ensures forall k :: HasKey(r, k) <==> HasKey(Rename(o), k)
    ensures forall k :: Lookup(r, k) == LastValue(Rename(o), k)
    ensures KeysNormal(r)
  {
    var r := Assign([], Rename(o));
    RenamedKeysNormal(o, r);
    r
  }

  /** Every property name of `o` is already normalised. */
  predicate KeysNormal<V>(o: Obj<V>) {
    forall i :: 0 <= i < |o| ==> NormalizeKey(o[i].0) == o[i].0
  }

  /** An object carrying only renamed names carries only normalised names. */
  lemma RenamedKeysNormal<V>(o: Obj<V>, r: Obj<V>)
    requires forall k :: HasKey(r, k) ==> HasKey(Rename(o), k)
    ensures KeysNormal(r)
  {
    forall i | 0 <= i < |r| ensures NormalizeKey(r[i].0) == r[i].0 {
      assert HasKey(r, r[i].0);
      var j :| 0 <= j < |Rename(o)| && Rename(o)[j].0 == r[i].0;
      NormalizeKeyIdempotent(o[j].0);
    }
  }

  /** An object whose names are distinct and already normalised comes back unchanged. */
  lemma NormalizeItemFixed<V>(o: Obj<V>)
    requires DistinctKeys(o)
    requires KeysNormal(o)
    ensures NormalizeItem(o) == o
  {
    assert Rename(o) == o;
    AssignIntoEmpty(o);
  }

  /** Normalising twice is normalising once. */
  lemma NormalizeItemIdempotent<V>(o: Obj<V>)
    ensures NormalizeItem(NormalizeItem(o)) == NormalizeItem(o)
  {
    NormalizeItemFixed(NormalizeItem(o));
  }

  /** A property whose name is already normalised keeps its name and (last) value. */
  lemma NormalizedNameKept<V>(o: Obj<V>, k: string)
    requires DistinctKeys(o) && HasKey(o, k) && NormalizeKey(k) == k
    requires forall i :: 0 <= i < |o| && o[i].0 != k ==> NormalizeKey(o[i].0) != k
    ensures Lookup(NormalizeItem(o), k) == Lookup(o, k)
  {
    var i :| 0 <= i < |o| && o[i].0 == k;
    var ro := Rename(o);
    assert ro[i] == (k, o[i].1);
    forall j | i < j < |ro| ensures ro[j].0 != k {
      assert o[j].0 != k;
    }
    LastValueAt(ro, i);
    LastValueDistinct(o, k);
    LastValueAt(o, i);
  }

  /** The last property named like `o[i]` is `o[i]` itself when no later one shares its name. */
  lemma {:induction false} LastValueAt<V>(o: Obj<V>, i: nat)
    requires i < |o|
    requires forall j :: i < j < |o| ==> o[j].0 != o[i].0
    ensures LastValue(o, o[i].0) == Some(o[i].1)
    decreases |o|
  {
    if i < |o| - 1 {
      var init := o[..|o| - 1];
      assert init[i] == o[i];
      forall j | i < j < |init| ensures init[j].0 != init[i].0 {
        assert init[j] == o[j];
      }
      LastValueAt(init, i);
    }
  }

  /**
   * The own enumerable properties of an array element, as `Object.keys` and indexing see
   * them: an object's fields, a string's characters or an array's elements under their
   * indices, nothing for a number or a boolean; `null` makes `Object.keys` throw.
   */
  function OwnEntries(e: Json): (r: Outcome<Obj<Json>>)
    ensures r.Threw? <==> e.JNull?
    ensures e.JObj? ==> r == Returned(e.fields)
    ensures (e.JBool? || e.JNum?) ==> r == Returned([])
    ensures e.JStr? ==> r.Returned? && |r.value| == |e.s| &&
                        forall i :: 0 <= i < |e.s| ==> r.value[i] == (NatToString(i), JStr([e.s[i]]))
    ensures e.JArr? ==> r.Returned? && |r.value| == |e.elems| &&
                        forall i :: 0 <= i < |e.elems| ==> r.value[i] == (NatToString(i), e.elems[i])
  {
    match e
    case JNull => Threw
    case JBool(_) => Returned([])
    case JNum(_) => Returned([])
    case JStr(s) => Returned(seq(|s|, i requires 0 <= i < |s| => (NatToString(i), JStr([s[i]]))))
    case JArr(es) => Returned(seq(|es|, i requires 0 <= i < |es| => (NatToString(i), es[i])))
    case JObj(fs) => Returned(fs)
  }

  /**
   * `normalizeArray(v)`: anything but an array gives the empty list; an array gives its
   * elements normalised one by one, in order, and throws if one of them is `null`.
   */
  function NormalizeArray(v: Json): (r: Outcome<seq<Obj<Json>>>)
    ensures !v.JArr? ==> r == Returned([])
    ensures v.JArr? ==> (r.Threw? <==> exists i :: 0 <= i < |v.elems| && v.elems[i].JNull?)
    ensures r.Returned? && v.JArr? ==>
      && |r.value| == |v.elems|
      && forall i :: 0 <= i < |v.elems| ==>
           OwnEntries(v.elems[i]).Returned? && r.value[i] == NormalizeItem(OwnEntries(v.elems[i]).value)
  {
    if !v.JArr? then Returned([]) else NormalizeElems(v.elems)
  }

  function NormalizeElems(es: seq<Json>): (r: Outcome<seq<Obj<Json>>>)
    ensures r.Threw? <==> exists i :: 0 <= i < |es| && es[i].JNull?
    ensures r.Returned? ==>
      && |r.value| == |es|
      && forall i :: 0 <= i < |es| ==>
           OwnEntries(es[i]).Returned? && r.value[i] == NormalizeItem(OwnEntries(es[i]).value)
  {
    if |es| == 0 then Returned([])
    else
      match OwnEntries(es[0])
      case Threw => Threw
      case Returned(o) =>
        var rest := NormalizeElems(es[1..]);
        assert forall i :: 1 <= i < |es| ==> es[i] == es[1..][i - 1];
        if rest.Threw? then Threw else Returned([NormalizeItem(o)] + rest.value)
  }
}
