/** The two string operations the interpreter relies on: lower-casing
    (Python's `str.lower()`, restricted here to ASCII letters) and
    substring containment (Python's `p in t`). */
module Text {

  /** An upper-case ASCII letter becomes its lower-case form; every other
      character is left alone. */
  function LowerChar(c: char): (d: char)
    ensures 'A' <= c <= 'Z' ==> 'a' <= d <= 'z' && d as int - c as int == 32
    ensures !('A' <= c <= 'Z') ==> d == c
    ensures !('A' <= d <= 'Z')
  {
    if 'A' <= c <= 'Z' then (c as int + 32) as char else c
  }

  /** `s` with every character lower-cased, position by position. */
  function Lower(s: string): (r: string)
    ensures |r| == |s|
    ensures forall i :: 0 <= i < |s| ==> r[i] == LowerChar(s[i])
  {
    seq(|s|, i requires 0 <= i < |s| => LowerChar(s[i]))
  }

  /** Lower-casing twice is lower-casing once. */
  lemma LowerIdempotent(s: string)
    ensures Lower(Lower(s)) == Lower(s)
  {
  }

  /** `p` occurs in `t` as a contiguous substring (the empty string occurs
      in every text). */
  predicate Occurs(p: string, t: string) {
    exists i :: 0 <= i <= |t| && p <= t[i..]
  }

  /** Wherever a string occurs, each of its prefixes occurs too. */
  lemma OccursPrefix(p: string, q: string, t: string)
    requires p <= q && Occurs(q, t)
    ensures Occurs(p, t)
  {
    var i :| 0 <= i <= |t| && q <= t[i..];
    assert p <= t[i..];
  }

  /** `p` occurs at position `i` of `t`. */
  lemma OccursAt(p: string, t: string, i: nat)
    requires i + |p| <= |t| && t[i..i + |p|] == p
    ensures Occurs(p, t)
  {
    assert p <= t[i..];
  }

  /** A non-empty string whose first character never appears in `t` does
      not occur in `t`. */
  lemma AbsentFirstChar(p: string, t: string)
    requires p != []
    requires forall i :: 0 <= i < |t| ==> t[i] != p[0]
    ensures !Occurs(p, t)
  {
    forall i | 0 <= i <= |t| ensures !(p <= t[i..]) {
      if i < |t| { assert t[i..][0] == t[i]; }
    }
  }

  /** A whitespace character in Python's sense (`str.isspace`). */
  predicate IsSpace(c: char) {
    ('\t' <= c <= '\r') || ('\U{1C}' <= c <= ' ') || c == '\U{0085}' || c == '\U{00A0}'
    || c == '\U{1680}' || ('\U{2000}' <= c <= '\U{200A}') || c == '\U{2028}' || c == '\U{2029}'
    || c == '\U{202F}' || c == '\U{205F}' || c == '\U{3000}'
  }

  /** `s` without its leading whitespace. */
  function TrimStart(s: string): (r: string)
    ensures |r| <= |s| && r == s[|s| - |r|..]
    ensures r == [] || !IsSpace(r[0])
    ensures forall i :: 0 <= i < |s| - |r| ==> IsSpace(s[i])
  {
    if s != [] && IsSpace(s[0]) then TrimStart(s[1..]) else s
  }

  /** `s` without its trailing whitespace. */
  function TrimEnd(s: string): (r: string)
    ensures |r| <= |s| && r == s[..|r|]
    ensures r == [] || !IsSpace(r[|r| - 1])
    ensures forall i :: |r| <= i < |s| ==> IsSpace(s[i])
  {
    if s != [] && IsSpace(s[|s| - 1]) then TrimEnd(s[..|s| - 1]) else s
  }

  /** Python's `str.strip()`: `s` without whitespace at either end. The
      result is the run of `s` that follows its leading whitespace, neither
      starting nor ending with whitespace, and only whitespace is cut. */
  function Strip(s: string): (r: string)
    ensures var i := |s| - |TrimStart(s)|;
      && i + |r| <= |s| && r == s[i..i + |r|]
      && (forall k :: 0 <= k < i ==> IsSpace(s[k]))
      && (forall k :: i + |r| <= k < |s| ==> IsSpace(s[k]))
    ensures r == [] || (!IsSpace(r[0]) && !IsSpace(r[|r| - 1]))
  {
    var t := TrimStart(s);
    var r := TrimEnd(t);
    var i := |s| - |t|;
    assert t == s[i..];
    assert r == t[..|r|];
    assert r == s[i..i + |r|];
    forall k | i + |r| <= k < |s| ensures IsSpace(s[k]) {
      assert s[k] == t[k - i];
    }
    r
  }

  /** Stripping twice is stripping once. */
  lemma StripIdempotent(s: string)
    ensures Strip(Strip(s)) == Strip(s)
  {
    var r := Strip(s);
    if r != [] {
      assert TrimStart(r) == r;
      assert TrimEnd(r) == r;
    }
  }

  /** Leading whitespace in front of a text that starts otherwise is cut. */
  lemma {:induction false} TrimStartSpaces(pre: string, rest: string)
    requires forall i :: 0 <= i < |pre| ==> IsSpace(pre[i])
    requires rest == [] || !IsSpace(rest[0])
    ensures TrimStart(pre + rest) == rest
  {
    if pre == [] {
      assert pre + rest == rest;
    } else {
      assert (pre + rest)[0] == pre[0];
      assert (pre + rest)[1..] == pre[1..] + rest;
      TrimStartSpaces(pre[1..], rest);
    }
  }

  /** Trailing whitespace after a text that ends otherwise is cut. */
  lemma {:induction false} TrimEndSpaces(rest: string, post: string)
    requires forall i :: 0 <= i < |post| ==> IsSpace(post[i])
    requires rest == [] || !IsSpace(rest[|rest| - 1])
    ensures TrimEnd(rest + post) == rest
  {
    if post == [] {
      assert rest + post == rest;
    } else {
      var n := rest + post;
      assert n[|n| - 1] == post[|post| - 1];
      assert n[..|n| - 1] == rest + post[..|post| - 1];
      TrimEndSpaces(rest, post[..|post| - 1]);
    }
  }

  /** Whitespace padding around a text that neither starts nor ends with
      whitespace is exactly what stripping removes: `"  fridge "` strips to
      `"fridge"`. */
  lemma StripPadding(pre: string, core: string, post: string)
    requires forall i :: 0 <= i < |pre| ==> IsSpace(pre[i])
    requires forall i :: 0 <= i < |post| ==> IsSpace(post[i])
    requires core != [] && !IsSpace(core[0]) && !IsSpace(core[|core| - 1])
    ensures Strip(pre + core + post) == core
  {
    assert pre + core + post == pre + (core + post);
    TrimStartSpaces(pre, core + post);
    TrimEndSpaces(core, post);
  }
}
