/** The string operations the vendor search uses: `toLowerCase` (on ASCII
    letters), `trim` and `includes`. */
module AsciiText {

  predicate IsUpper(c: char) {
    'A' <= c <= 'Z'
  }

  function LowerChar(c: char): char {
    if IsUpper(c) then (c as int + 32) as char else c
  }

  /** `s.toLowerCase()`, with case mapping restricted to ASCII letters. */
  function Lower(s: string): (r: string)
    ensures |r| == |s|
    ensures forall i :: 0 <= i < |s| ==> r[i] == LowerChar(s[i])
  {
    if s == [] then [] else [LowerChar(s[0])] + Lower(s[1..])
  }

  /** Lower-casing commutes with taking a slice. */
  lemma LowerSlice(s: string, i: int, j: int)
    requires 0 <= i <= j <= |s|
    ensures Lower(s)[i..j] == Lower(s[i..j])
  {
    var a, b := Lower(s)[i..j], Lower(s[i..j]);
    forall k | 0 <= k < j - i
      ensures a[k] == b[k]
    {
      assert a[k] == Lower(s)[i + k] == LowerChar(s[i + k]);
      assert b[k] == LowerChar(s[i..j][k]);
    }
    assert a == b;
  }

  /** Lower-casing twice is lower-casing once, so a stored search key is
      already in the form a term is normalised to. */
  lemma LowerIdempotent(s: string)
    ensures Lower(Lower(s)) == Lower(s)
    ensures forall i :: 0 <= i < |s| ==> !IsUpper(Lower(s)[i])
  {
  }

  /** The characters `String.prototype.trim` removes: the ECMAScript
      WhiteSpace and LineTerminator code points. */
  predicate IsSpace(c: char) {
    c == ' ' || c == '\t' || c == '\n' || c == '\r' || c == '\U{000B}' || c == '\U{000C}'
    || c == '\U{00A0}' || c == '\U{1680}' || ('\U{2000}' <= c <= '\U{200A}')
    || c == '\U{2028}' || c == '\U{2029}' || c == '\U{202F}' || c == '\U{205F}'
    || c == '\U{3000}' || c == '\U{FEFF}'
  }

  predicate AllSpace(s: string) {
    forall i :: 0 <= i < |s| ==> IsSpace(s[i])
  }

  /** Drops leading white space. */
  function TrimStart(s: string): string {
    if s != [] && IsSpace(s[0]) then TrimStart(s[1..]) else s
  }

  /** `TrimStart` keeps the suffix of `s` after a run of spaces, and that
      suffix does not itself start with one. */
  lemma {:induction false} TrimStartSpec(s: string)
    ensures |TrimStart(s)| <= |s| && TrimStart(s) == s[|s| - |TrimStart(s)|..]
    ensures AllSpace(s[..|s| - |TrimStart(s)|])
    ensures TrimStart(s) == [] || !IsSpace(TrimStart(s)[0])
  {
    if s != [] && IsSpace(s[0]) {
      TrimStartSpec(s[1..]);
      var n := |s| - |TrimStart(s)|;
      assert s[..n] == [s[0]] + s[1..][..n - 1];
    }
  }

  /** Drops trailing white space. */
  function TrimEnd(s: string): string {
    if s != [] && IsSpace(s[|s| - 1]) then TrimEnd(s[..|s| - 1]) else s
  }

  /** `TrimEnd` keeps the prefix of `s` before a run of spaces, and that
      prefix does not itself end with one. */
  lemma {:induction false} TrimEndSpec(s: string)
    ensures |TrimEnd(s)| <= |s| && TrimEnd(s) == s[..|TrimEnd(s)|]
    ensures AllSpace(s[|TrimEnd(s)|..])
    ensures TrimEnd(s) == [] || !IsSpace(TrimEnd(s)[|TrimEnd(s)| - 1])
  {
    if s != [] && IsSpace(s[|s| - 1]) {
      var t := s[..|s| - 1];
      TrimEndSpec(t);
      var n := |TrimEnd(s)|;
      assert s[n..] == t[n..] + [s[|s| - 1]];
    }
  }

  /** `s.trim()` */
  function Trim(s: string): string {
    TrimEnd(TrimStart(s))
  }

  /** Trim keeps a contiguous piece of `s`, removes only white space around
      it and leaves none at either end; trimming again changes nothing. */
  lemma TrimSpec(s: string)
    ensures exists i, j :: 0 <= i <= j <= |s| && Trim(s) == s[i..j] && AllSpace(s[..i]) && AllSpace(s[j..])
    ensures Trim(s) == [] || (!IsSpace(Trim(s)[0]) && !IsSpace(Trim(s)[|Trim(s)| - 1]))
    ensures Trim(Trim(s)) == Trim(s)
  {
    var a := TrimStart(s);
    TrimStartSpec(s);
    var i := |s| - |a|;
    var r := TrimEnd(a);
    TrimEndSpec(a);
    assert r == s[i..i + |r|];
    assert AllSpace(s[i + |r|..]) by {
      assert s[i + |r|..] == a[|r|..];
    }
    if r != [] {
      assert r[0] == a[0];
    }
  }

  /** `s.includes(t)`: `t` occurs in `s` starting at the first position or
      somewhere later. */
  predicate Contains(s: string, t: string)
    decreases |s|
  {
    (|t| <= |s| && s[..|t|] == t) || (s != [] && Contains(s[1..], t))
  }

  /** `t` occurs in `s` at offset `k`. */
  predicate OccursAt(s: string, t: string, k: int) {
    0 <= k && k + |t| <= |s| && s[k..k + |t|] == t
  }

  /** An occurrence past the first position is an occurrence in the tail. */
  lemma OccursInTail(s: string, t: string)
    ensures forall k :: 0 < k && OccursAt(s, t, k) ==> OccursAt(s[1..], t, k - 1)
  {
    forall k | 0 < k && OccursAt(s, t, k)
      ensures OccursAt(s[1..], t, k - 1)
    {
      var a, b := s[1..][k - 1..k - 1 + |t|], s[k..k + |t|];
      assert forall j :: 0 <= j < |t| ==> a[j] == b[j];
      assert a == b;
    }
  }

  /** `includes` holds exactly when `t` occurs at some offset of `s`. */
  lemma {:induction false} ContainsIff(s: string, t: string)
    ensures Contains(s, t) <==> exists k :: OccursAt(s, t, k)
    decreases |s|
  {
    if |t| <= |s| && s[..|t|] == t {
      assert s[0..0 + |t|] == s[..|t|];
      assert OccursAt(s, t, 0);
    } else if s != [] {
      ContainsIff(s[1..], t);
      OccursInTail(s, t);
      if Contains(s[1..], t) {
        var k :| OccursAt(s[1..], t, k);
        assert s[k + 1..k + 1 + |t|] == s[1..][k..k + |t|];
        assert OccursAt(s, t, k + 1);
      }
    }
  }

  /** `t` agrees with the slice of `s` at offset `k` up to ASCII case. */
  predicate OccursAtIgnoringCase(s: string, t: string, k: int) {
    0 <= k && k + |t| <= |s| && Lower(s[k..k + |t|]) == Lower(t)
  }

  /** Searching the lower-cased text for the lower-cased term is a
      case-insensitive substring test: it succeeds exactly when some slice of
      `s` agrees with `t` up to ASCII case. */
  lemma LowerContainsIff(s: string, t: string)
    ensures Contains(Lower(s), Lower(t)) <==> exists k :: OccursAtIgnoringCase(s, t, k)
  {
    ContainsIff(Lower(s), Lower(t));
    if Contains(Lower(s), Lower(t)) {
      var k :| OccursAt(Lower(s), Lower(t), k);
      LowerOccurs(s, t, k);
    }
    if exists k :: OccursAtIgnoringCase(s, t, k) {
      var k :| OccursAtIgnoringCase(s, t, k);
      LowerOccurs(s, t, k);
    }
  }

  /** The lower-cased term occurs in the lower-cased text at `k` exactly
      when the term agrees with the text's slice at `k` up to ASCII case. */
  lemma LowerOccurs(s: string, t: string, k: int)
    ensures OccursAt(Lower(s), Lower(t), k) <==> OccursAtIgnoringCase(s, t, k)
  {
    if 0 <= k && k + |t| <= |s| {
      LowerSlice(s, k, k + |t|);
    }
  }
}
