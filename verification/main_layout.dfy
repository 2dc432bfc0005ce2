/**
 * The greeting name the layout derives from the stored profile: the part of the e-mail
 * address before the `@`, its dot-separated segments capitalised and joined with spaces.
 */
module MainLayout {
  import opened Wrappers
  import opened Text
  import opened Js

  const Fallback: string := "Usuario"

  /** `part.charAt(0).toUpperCase() + part.slice(1)`. */
  function Capitalize(p: string): (r: string)
    ensures |r| == |p|
    ensures |p| > 0 ==> r[0] == Upper(p[0]) && r[1..] == p[1..]
  {
    if |p| == 0 then "" else [Upper(p[0])] + p[1..]
  }

  function CapitalizeAll(parts: seq<string>): (r: seq<string>)
    ensures |r| == |parts| && forall i :: 0 <= i < |parts| ==> r[i] == Capitalize(parts[i])
  {
    seq(|parts|, i requires 0 <= i < |parts| => Capitalize(parts[i]))
  }

  /** The display name for the part of an address before the `@`. */
  function NameOf(local: string): string {
    Join(CapitalizeAll(Split(local, '.')), " ")
  }

  /**
   * `getUserName`: `Usuario` when the profile has no truthy `email`; otherwise the name
   * built from the text before the first `@`. An `email` that is truthy but not a string
   * has no `split`, so the call throws.
   */
  function UserName(userData: Json): (r: Outcome<string>)
    ensures !(userData.JObj? && Lookup(userData.fields, "email").Some? && Truthy(Lookup(userData.fields, "email").value)) ==>
      r == Returned(Fallback)
    ensures userData.JObj? && Lookup(userData.fields, "email").Some? && Lookup(userData.fields, "email").value.JStr? &&
            Truthy(Lookup(userData.fields, "email").value) ==>
      r == Returned(NameOf(Split(Lookup(userData.fields, "email").value.s, '@')[0]))
    ensures r.Threw? <==>
      userData.JObj? && Lookup(userData.fields, "email").Some? && Truthy(Lookup(userData.fields, "email").value) &&
      !Lookup(userData.fields, "email").value.JStr?
  {
    match userData
    case JObj(fields) =>
      (match Lookup(fields, "email")
       case Some(v) =>
         if !Truthy(v) then Returned(Fallback)
         else if v.JStr? then Returned(NameOf(Split(v.s, '@')[0]))
         else Threw
       case None => Returned(Fallback))
    case _ => Returned(Fallback)
  }

  /** The first piece of `split('@')` is the text before the first `@`. */
  lemma {:induction false} LocalPart(a: string, rest: string)
    requires '@' !in a
    ensures Split(a + "@" + rest, '@')[0] == a
    decreases |a|
  {
    var s := a + "@" + rest;
    if |a| == 0 {
      assert s[0] == '@' && s[1..] == rest;
    } else {
      assert s[0] == a[0] && s[1..] == a[1..] + "@" + rest;
      LocalPart(a[1..], rest);
      assert a == [a[0]] + a[1..];
    }
  }

  /** An address without `@` is used whole. */
  lemma {:induction false} NoAt(a: string)
    requires '@' !in a
    ensures Split(a, '@')[0] == a
    decreases |a|
  {
    if |a| > 0 {
      NoAt(a[1..]);
      assert a == [a[0]] + a[1..];
    }
  }

  /**
   * The name, character by character: each `.` becomes a space, the first character of
   * each segment is upper-cased, and every other character is kept. `start` tells whether
   * the first character opens a segment.
   */
  function Spelled(s: string, start: bool): (r: string)
    ensures |r| == |s|
    decreases |s|
  {
    if |s| == 0 then ""
    else
      var c := if s[0] == '.' then ' ' else if start then Upper(s[0]) else s[0];
      [c] + Spelled(s[1..], s[0] == '.')
  }

  /** The pieces joined with spaces, all capitalised except (when `start` is false) the first. */
  function JoinCapitalized(parts: seq<string>, start: bool): string
    requires |parts| > 0
  {
    if start then Join(CapitalizeAll(parts), " ")
    else Join([parts[0]] + CapitalizeAll(parts[1..]), " ")
  }

  lemma JoinCons(c: char, p: string, q: seq<string>)
    ensures Join([[c] + p] + q, " ") == [c] + Join([p] + q, " ")
  {
    if |q| > 0 {
      assert ([[c] + p] + q)[1..] == q && ([p] + q)[1..] == q;
    }
  }

  /**
   * Splitting at dots, capitalising each segment and joining with spaces is the
   * character-by-character rewrite `Spelled`.
   */
  lemma {:induction false} NameSpelled(s: string, start: bool)
    ensures JoinCapitalized(Split(s, '.'), start) == Spelled(s, start)
    decreases |s|
  {
    if |s| > 0 {
      NameSpelled(s[1..], s[0] == '.');
      if s[0] == '.' {
        DotStep(s, start);
      } else {
        CharStep(s, start);
      }
    }
  }

  /** A leading dot closes an empty segment and becomes a space. */
  lemma DotStep(s: string, start: bool)
    requires |s| > 0 && s[0] == '.'
    requires JoinCapitalized(Split(s[1..], '.'), true) == Spelled(s[1..], true)
    ensures JoinCapitalized(Split(s, '.'), start) == Spelled(s, start)
  {
    var rest := Split(s[1..], '.');
    assert Split(s, '.') == [""] + rest;
    var caps := CapitalizeAll(rest);
    assert CapitalizeAll([""] + rest) == [""] + caps;
    assert ([""] + rest)[1..] == rest;
    assert Join([""] + caps, " ") == " " + Join(caps, " ");
  }

  /** Any other leading character extends the first segment, upper-cased only at a segment start. */
  lemma CharStep(s: string, start: bool)
    requires |s| > 0 && s[0] != '.'
    requires JoinCapitalized(Split(s[1..], '.'), false) == Spelled(s[1..], false)
    ensures JoinCapitalized(Split(s, '.'), start) == Spelled(s, start)
  {
    var rest := Split(s[1..], '.');
    var head := [s[0]] + rest[0];
    assert Split(s, '.') == [head] + rest[1..];
    assert ([head] + rest[1..])[1..] == rest[1..];
    assert rest == [rest[0]] + rest[1..];
    if start {
      assert CapitalizeAll([head] + rest[1..]) == [[Upper(s[0])] + rest[0]] + CapitalizeAll(rest[1..]);
      JoinCons(Upper(s[0]), rest[0], CapitalizeAll(rest[1..]));
    } else {
      JoinCons(s[0], rest[0], CapitalizeAll(rest[1..]));
    }
  }

  /**
   * What the display name is, position by position: as long as the address part, a space
   * for each `.`, the first character of the part and each character after a `.`
   * upper-cased, everything else unchanged.
   */
  lemma NameMeaning(local: string)
    ensures |NameOf(local)| == |local|
    ensures forall i :: 0 <= i < |local| ==>
      NameOf(local)[i] == (if local[i] == '.' then ' '
                           else if i == 0 || local[i - 1] == '.' then Upper(local[i])
                           else local[i])
  {
    NameSpelled(local, true);
    var n := Spelled(local, true);
    assert NameOf(local) == n;
    forall i | 0 <= i < |local|
      ensures n[i] == (if local[i] == '.' then ' ' else if i == 0 || local[i - 1] == '.' then Upper(local[i]) else local[i])
    {
      SpelledAt(local, true, i);
    }
  }

  lemma {:induction false} SpelledAt(s: string, start: bool, i: nat)
    requires i < |s|
    ensures Spelled(s, start)[i] == (if s[i] == '.' then ' '
                                     else if (if i == 0 then start else s[i - 1] == '.') then Upper(s[i])
                                     else s[i])
    decreases i
  {
    var t := s[1..];
    var c := if s[0] == '.' then ' ' else if start then Upper(s[0]) else s[0];
    assert Spelled(s, start) == [c] + Spelled(t, s[0] == '.');
    if i > 0 {
      SpelledAt(t, s[0] == '.', i - 1);
      assert t[i - 1] == s[i];
      assert i - 1 > 0 ==> t[i - 2] == s[i - 1];
    }
  }

  /** One word per dot-separated segment, empty segments included. */
  lemma WordCount(local: string)
    ensures |CapitalizeAll(Split(local, '.'))| == CountChar(local, '.') + 1
  {
    SplitCount(local, '.');
  }

  /** The name of an address whose part before the `@` is `a`. */
  lemma UserNameOfAddress(a: string, rest: string)
    requires '@' !in a
    ensures UserName(JObj([("email", JStr(a + "@" + rest))])) == Returned(NameOf(a))
  {
    LocalPart(a, rest);
  }
}
