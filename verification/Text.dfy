/** The string normalisation the server applies before comparing emails, names and policy numbers (ASCII). */
module Text {
  predicate IsSpace(c: char) {
    c == ' ' || c == '\t' || c == '\n' || c == '\r' || c == 11 as char || c == 12 as char
  }

  function TrimStart(s: string): string {
    if s != "" && IsSpace(s[0]) then TrimStart(s[1..]) else s
  }

  function TrimEnd(s: string): string {
    if s != "" && IsSpace(s[|s| - 1]) then TrimEnd(s[..|s| - 1]) else s
  }

  function Trim(s: string): string {
    TrimEnd(TrimStart(s))
  }

  function Lower(s: string): string {
    seq(|s|, i requires 0 <= i < |s| => if 'A' <= s[i] <= 'Z' then (s[i] as int + 32) as char else s[i])
  }

  function Upper(s: string): string {
    seq(|s|, i requires 0 <= i < |s| => if 'a' <= s[i] <= 'z' then (s[i] as int - 32) as char else s[i])
  }

  function WithoutSpaces(s: string): string {
    if s == "" then "" else (if IsSpace(s[0]) then "" else [s[0]]) + WithoutSpaces(s[1..])
  }

  // `value.trim().toLowerCase()`
  function Normalize(email: string): string {
    Lower(Trim(email))
  }

  // `mode: 'insensitive'`
  predicate EqualInsensitive(a: string, b: string) {
    Lower(a) == Lower(b)
  }

  // ---------- what they do ----------

  // Equal, or the two cases of one letter.
  predicate SameLetter(c: char, d: char) {
    || c == d
    || ('A' <= c <= 'Z' && d as int == c as int + 32)
    || ('A' <= d <= 'Z' && c as int == d as int + 32)
  }

  predicate SameLetters(a: string, b: string) {
    |a| == |b| && forall i :: 0 <= i < |a| ==> SameLetter(a[i], b[i])
  }

  // Case-insensitive comparison ignores the case of letters and nothing else.
  lemma EqualInsensitiveIff(a: string, b: string)
    ensures EqualInsensitive(a, b) <==> SameLetters(a, b)
  {
    assert |Lower(a)| == |a| && |Lower(b)| == |b|;
    if EqualInsensitive(a, b) {
      forall i | 0 <= i < |a|
        ensures SameLetter(a[i], b[i])
      {
        assert Lower(a)[i] == Lower(b)[i];
      }
    }
  }

  lemma UpperEqualIff(a: string, b: string)
    ensures Upper(a) == Upper(b) <==> SameLetters(a, b)
  {
    assert |Upper(a)| == |a| && |Upper(b)| == |b|;
    if Upper(a) == Upper(b) {
      forall i | 0 <= i < |a|
        ensures SameLetter(a[i], b[i])
      {
        assert Upper(a)[i] == Upper(b)[i];
      }
    }
  }

  // t is what remains of s without the white space around it.
  ghost predicate IsTrimmed(s: string, t: string, l: int, r: int) {
    && 0 <= l <= r <= |s| && t == s[l..r]
    && (forall i :: 0 <= i < |s| && !(l <= i < r) ==> IsSpace(s[i]))
    && (l < r ==> !IsSpace(s[l]) && !IsSpace(s[r - 1]))
  }

  lemma {:induction false} TrimStartIs(s: string) returns (l: int)
    ensures 0 <= l <= |s| && TrimStart(s) == s[l..]
    ensures forall i :: 0 <= i < l ==> IsSpace(s[i])
    ensures l < |s| ==> !IsSpace(s[l])
  {
    l := 0;
    if s != "" && IsSpace(s[0]) {
      l := TrimStartIs(s[1..]);
      assert forall i :: 1 <= i < l + 1 ==> s[i] == s[1..][i - 1];
      l := l + 1;
    }
  }

  lemma {:induction false} TrimEndIs(s: string) returns (r: int)
    ensures 0 <= r <= |s| && TrimEnd(s) == s[..r]
    ensures forall i :: r <= i < |s| ==> IsSpace(s[i])
    ensures r > 0 ==> !IsSpace(s[r - 1])
  {
    r := |s|;
    if s != "" && IsSpace(s[|s| - 1]) {
      r := TrimEndIs(s[..|s| - 1]);
      assert s[..|s| - 1][..r] == s[..r];
    }
  }

  lemma TrimIs(s: string)
    ensures exists l, r :: IsTrimmed(s, Trim(s), l, r)
  {
    var l := TrimStartIs(s);
    var r := TrimEndIs(s[l..]);
    forall i | 0 <= i < |s| && !(l <= i < l + r)
      ensures IsSpace(s[i])
    {
      assert i >= l ==> s[l..][i - l] == s[i];
    }
    assert IsTrimmed(s, Trim(s), l, l + r);
  }

  lemma WithoutSpacesOfOne(c: char)
    ensures WithoutSpaces([c]) == if IsSpace(c) then "" else [c]
  {
    assert [c][1..] == "";
  }

  lemma Assoc(a: string, b: string, c: string)
    ensures a + (b + c) == a + b + c
  {
  }

  lemma FirstOfConcat(a: string, b: string)
    requires a != ""
    ensures (a + b)[0] == a[0] && (a + b)[1..] == a[1..] + b
  {
  }

  // White space inside a text is dropped, everything else kept in order: a text of one
  // character stays or goes, and longer ones are put together from such.
  lemma {:induction false} WithoutSpacesOfConcat(a: string, b: string)
    ensures WithoutSpaces(a + b) == WithoutSpaces(a) + WithoutSpaces(b)
  {
    if a == "" {
      assert a + b == b;
    } else {
      WithoutSpacesOfConcat(a[1..], b);
      FirstOfConcat(a, b);
      Assoc(if IsSpace(a[0]) then "" else [a[0]], WithoutSpaces(a[1..]), WithoutSpaces(b));
    }
  }
}
