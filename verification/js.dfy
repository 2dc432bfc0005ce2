/**
 * JavaScript values as the client code sees them after `JSON.parse`, and plain objects
 * as ordered key/value lists (property insertion order, which `Object.keys` and the
 * object spread `{...a, ...b}` follow).
 */
module Js {
  import opened Wrappers
  import Text

  /** A parsed JSON value. Fractional numbers are not needed by the model. */
  datatype Json = JNull | JBool(b: bool) | JNum(n: int) | JStr(s: string) | JArr(elems: seq<Json>) | JObj(fields: seq<(string, Json)>)

  /** JavaScript truthiness (`if (v)`, `!!v`, `v || d`). */
  predicate Truthy(v: Json) {
    match v
    case JNull => false
    case JBool(b) => b
    case JNum(n) => n != 0
    case JStr(s) => s != ""
    case JArr(_) => true
    case JObj(_) => true
  }

  /**
   * `String(v)`. An array renders as its elements joined with commas, `null` elements as
   * the empty string, so the empty array renders as "" although it is truthy.
   */
  function ToJsString(v: Json): (r: string)
    ensures Truthy(v) && !v.JArr? ==> r != ""
    ensures v.JStr? ==> r == v.s
    ensures v.JArr? && |v.elems| == 0 ==> r == ""
    decreases v, 1, 0
  {
    match v
    case JNull => "null"
    case JBool(b) => if b then "true" else "false"
    case JNum(n) => Text.IntToString(n)
    case JStr(s) => s
    case JArr(es) => ElemsString(v, 0)
    case JObj(_) => "[object Object]"
  }

  /** The elements of the array `v` from index `k` on, rendered and joined as `Array.prototype.join` does. */
  function ElemsString(v: Json, k: nat): string
    requires v.JArr? && k <= |v.elems|
    decreases v, 0, |v.elems| - k
  {
    if k == |v.elems| then ""
    else
      var e := v.elems[k];
      var head := if e.JNull? then "" else ToJsString(e);
      if k + 1 == |v.elems| then head else head + "," + ElemsString(v, k + 1)
  }

  /** A plain object: properties in insertion order. */
  type Obj<V> = seq<(string, V)>

  function Keys<V>(o: Obj<V>): (ks: seq<string>)
    ensures |ks| == |o| && forall i :: 0 <= i < |o| ==> ks[i] == o[i].0
  {
    seq(|o|, i requires 0 <= i < |o| => o[i].0)
  }

  predicate HasKey<V>(o: Obj<V>, k: string) {
    exists i :: 0 <= i < |o| && o[i].0 == k
  }

  predicate DistinctKeys<V>(o: Obj<V>) {
    forall i, j :: 0 <= i < j < |o| ==> o[i].0 != o[j].0
  }

  /** The position of the first property named `k`. */
  function KeyIndex<V>(o: Obj<V>, k: string): (r: Option<nat>)
    ensures r.Some? ==> r.value < |o| && o[r.value].0 == k && forall j :: 0 <= j < r.value ==> o[j].0 != k
    ensures r.None? ==> forall j :: 0 <= j < |o| ==> o[j].0 != k
  {
    if |o| == 0 then None
    else if o[0].0 == k then Some(0)
    else
      match KeyIndex(o[1..], k)
      case None => None
      case Some(i) => Some(i + 1)
  }

  /** Two lists that carry the name `k` at the same positions find it at the same place. */
  lemma SameKeyIndex<V>(o: Obj<V>, p: Obj<V>, k: string)
    requires forall j :: 0 <= j < |o| && j < |p| ==> (o[j].0 == k <==> p[j].0 == k)
    requires forall j :: |o| <= j < |p| ==> p[j].0 != k
    requires |o| <= |p|
    ensures KeyIndex(o, k) == KeyIndex(p, k)
  {
  }

  /** Property read `o[k]`; `None` is `undefined`. */
  function Lookup<V>(o: Obj<V>, k: string): (r: Option<V>)
    ensures r.None? <==> !HasKey(o, k)
    ensures r.Some? ==> exists i :: 0 <= i < |o| && o[i] == (k, r.value)
  {
    match KeyIndex(o, k)
    case Some(i) => Some(o[i].1)
    case None => None
  }

  /**
   * Property write `o[k] = v`: an existing property keeps its position and takes the
   * new value; a new property is appended.
   */
  function Put<V>(o: Obj<V>, k: string, v: V): (r: Obj<V>)
    ensures Lookup(r, k) == Some(v)
    ensures forall k' :: k' != k ==> Lookup(r, k') == Lookup(o, k')
    ensures forall k' :: HasKey(r, k') <==> HasKey(o, k') || k' == k
    ensures HasKey(o, k) ==> |r| == |o|
    ensures !HasKey(o, k) ==> r == o + [(k, v)]
    ensures DistinctKeys(o) ==> DistinctKeys(r)
  {
    match KeyIndex(o, k)
    case Some(i) =>
      var r := o[i := (k, v)];
      PutFacts(o, r, k, v, i);
      PutDistinct(o, r, k, v, i);
      r
    case None =>
      var r := o + [(k, v)];
      PutFacts(o, r, k, v, |o|);
      PutDistinct(o, r, k, v, |o|);
      r
  }

  /** What a write leaves behind: `r` is `o` with position `n` (the first `k`, or the end) set to `(k, v)`. */
  lemma PutFacts<V>(o: Obj<V>, r: Obj<V>, k: string, v: V, n: nat)
    requires n <= |o| && |r| == (if n < |o| then |o| else |o| + 1) && r[n] == (k, v)
    requires forall j :: 0 <= j < |r| && j != n ==> r[j] == o[j]
    requires n < |o| ==> o[n].0 == k
    requires forall j :: 0 <= j < n ==> o[j].0 != k
    ensures Lookup(r, k) == Some(v)
    ensures forall k' :: k' != k ==> Lookup(r, k') == Lookup(o, k')
    ensures forall k' :: HasKey(r, k') <==> HasKey(o, k') || k' == k
  {
    KeyIndexAt(r, k, n);
    forall k' | k' != k ensures Lookup(r, k') == Lookup(o, k') {
      SameKeyIndex(o, r, k');
      var x := KeyIndex(o, k');
      if x.Some? {
        assert r[x.value] == o[x.value];
      }
    }
    forall k' ensures HasKey(r, k') <==> HasKey(o, k') || k' == k {
      if k' != k {
        assert Lookup(r, k') == Lookup(o, k');
      } else {
        assert r[n].0 == k;
      }
    }
  }

  lemma PutDistinct<V>(o: Obj<V>, r: Obj<V>, k: string, v: V, n: nat)
    requires n <= |o| && |r| == (if n < |o| then |o| else |o| + 1) && r[n] == (k, v)
    requires forall j :: 0 <= j < |r| && j != n ==> r[j] == o[j]
    requires n < |o| ==> o[n].0 == k
    requires n == |o| ==> forall j :: 0 <= j < |o| ==> o[j].0 != k
    ensures DistinctKeys(o) ==> DistinctKeys(r)
  {
    if DistinctKeys(o) {
      forall i, j | 0 <= i < j < |r| ensures r[i].0 != r[j].0 {
        if i != n && j != n {
          assert r[i].0 == o[i].0 && r[j].0 == o[j].0;
        }
      }
    }
  }

  lemma KeyIndexAt<V>(o: Obj<V>, k: string, i: nat)
    requires i < |o| && o[i].0 == k && forall j :: 0 <= j < i ==> o[j].0 != k
    ensures KeyIndex(o, k) == Some(i)
  {
  }

  /** The spread `{...o, ...src}`: every property of `src` written into `o`, in `src`'s order. */
  function Assign<V>(o: Obj<V>, src: Obj<V>): (r: Obj<V>)
    ensures forall k :: HasKey(src, k) ==> Lookup(r, k) == LastValue(src, k)
    ensures forall k :: !HasKey(src, k) ==> Lookup(r, k) == Lookup(o, k)
    ensures forall k :: HasKey(r, k) <==> HasKey(o, k) || HasKey(src, k)
    ensures DistinctKeys(o) ==> DistinctKeys(r)
    decreases |src|
  {
    if |src| == 0 then o
    else
      var init := src[..|src| - 1];
      var last := src[|src| - 1];
      assert forall i :: 0 <= i < |init| ==> init[i] == src[i];
      assert forall k :: HasKey(src, k) <==> HasKey(init, k) || k == last.0;
      Put(Assign(o, init), last.0, last.1)
  }

  /** Spreading an object with distinct names into `{}` copies it, order included. */
  lemma {:induction false} AssignIntoEmpty<V>(o: Obj<V>)
    requires DistinctKeys(o)
    ensures Assign([], o) == o
    decreases |o|
  {
    if |o| > 0 {
      var init := o[..|o| - 1];
      var last := o[|o| - 1];
      assert o == init + [last];
      assert forall i :: 0 <= i < |init| ==> init[i] == o[i];
      AssignIntoEmpty(init);
      assert forall i :: 0 <= i < |init| ==> init[i].0 != last.0;
    }
  }

  /** The value the last property named `k` carries in `o` (the one a later write leaves). */
  function LastValue<V>(o: Obj<V>, k: string): (r: Option<V>)
    ensures r.None? <==> !HasKey(o, k)
    ensures r.Some? ==> exists i :: 0 <= i < |o| && o[i] == (k, r.value) &&
                                    forall j :: i < j < |o| ==> o[j].0 != k
  {
    if |o| == 0 then None
    else if o[|o| - 1].0 == k then Some(o[|o| - 1].1)
    else
      var init := o[..|o| - 1];
      assert forall i :: 0 <= i < |init| ==> init[i] == o[i];
      LastValue(init, k)
  }

  /** With distinct keys, the last property named `k` is the only one, so a read finds it. */
  lemma LastValueDistinct<V>(o: Obj<V>, k: string)
    requires DistinctKeys(o)
    ensures LastValue(o, k) == Lookup(o, k)
  {
  }
}
