/** The string operations of the standard library that routing, splitting and stripping rely on. */
module Text {
  import opened Wrappers

  /** Unicode's White_Space property. */
  predicate IsSpace(c: char) {
    || c == ' ' || '\U{0009}' <= c <= '\U{000D}' || c == '\U{0085}' || c == '\U{00A0}'
    || c == '\U{1680}' || '\U{2000}' <= c <= '\U{200A}' || c == '\U{2028}' || c == '\U{2029}'
    || c == '\U{202F}' || c == '\U{205F}' || c == '\U{3000}'
  }

  predicate AllSpace(s: string) {
    forall i :: 0 <= i < |s| ==> IsSpace(s[i])
  }

  function TrimStart(s: string): string {
    if s != [] && IsSpace(s[0]) then TrimStart(s[1..]) else s
  }

  function TrimEnd(s: string): string {
    if s != [] && IsSpace(s[|s| - 1]) then TrimEnd(s[..|s| - 1]) else s
  }

  function Trim(s: string): string {
    TrimEnd(TrimStart(s))
  }

  function TrimMatches(s: string, c: char): string {
    if s != [] && s[0] == c then TrimMatches(s[1..], c)
    else if s != [] && s[|s| - 1] == c then TrimMatches(s[..|s| - 1], c)
    else s
  }

  predicate OccursAt(s: string, pat: string, i: int) {
    0 <= i && i + |pat| <= |s| && forall j :: 0 <= j < |pat| ==> s[i + j] == pat[j]
  }

  ghost predicate Contains(s: string, pat: string) {
    exists i :: OccursAt(s, pat, i)
  }

  /** The first position of `pat` at or after `from`, or none. */
  function FindFrom(s: string, pat: string, from: nat): (r: Option<nat>)
    ensures r.Some? ==> from <= r.value && OccursAt(s, pat, r.value)
    ensures r.Some? ==> forall j :: from <= j < r.value ==> !OccursAt(s, pat, j)
    ensures r.None? ==> forall j :: from <= j ==> !OccursAt(s, pat, j)
    decreases |s| - from
  {
    if from + |pat| > |s| then None
    else if OccursAt(s, pat, from) then Some(from)
    else FindFrom(s, pat, from + 1)
  }

  ghost predicate FirstAt(s: string, pat: string, i: nat) {
    OccursAt(s, pat, i) && forall j :: 0 <= j < i ==> !OccursAt(s, pat, j)
  }

  /** Cutting a text to a span that still holds the first occurrence keeps it first. */
  lemma FirstInSpan(s: string, lo: nat, hi: nat, pat: string, i: nat)
    requires FirstAt(s, pat, i) && lo <= i && i + |pat| <= hi <= |s|
    ensures FindFrom(s[lo..hi], pat, 0) == Some(i - lo)
  {
    var t := s[lo..hi];
    assert OccursAt(t, pat, i - lo);
    assert forall j :: OccursAt(t, pat, j) ==> OccursAt(s, pat, lo + j);
  }

  lemma OccursInSpan(s: string, lo: nat, hi: nat, pat: string, j: int)
    requires lo <= hi <= |s| && OccursAt(s[lo..hi], pat, j)
    ensures OccursAt(s, pat, lo + j)
  {
  }

  lemma SpanOccurs(s: string, lo: nat, hi: nat, pat: string, i: int)
    requires lo <= i && i + |pat| <= hi <= |s| && OccursAt(s, pat, i)
    ensures OccursAt(s[lo..hi], pat, i - lo)
  {
  }

  /** Splits at the first occurrence of `pat`. */
  function SplitOnce(s: string, pat: string): Option<(string, string)> {
    match FindFrom(s, pat, 0)
    case None => None
    case Some(i) => Some((s[..i], s[i + |pat|..]))
  }

  lemma {:induction false} TrimStartSkipsSpace(a: string, b: string)
    requires AllSpace(a)
    ensures TrimStart(a + b) == TrimStart(b)
  {
    if a == [] {
      assert a + b == b;
    } else {
      assert (a + b)[1..] == a[1..] + b;
      TrimStartSkipsSpace(a[1..], b);
    }
  }

  lemma {:induction false} TrimEndSkipsSpace(a: string, b: string)
    requires AllSpace(b)
    ensures TrimEnd(a + b) == TrimEnd(a)
  {
    if b == [] {
      assert a + b == a;
    } else {
      assert (a + b)[..|a + b| - 1] == a + b[..|b| - 1];
      TrimEndSkipsSpace(a, b[..|b| - 1]);
    }
  }

  lemma {:induction false} TrimStartOfAppend(a: string, b: string)
    requires !AllSpace(a)
    ensures TrimStart(a + b) == TrimStart(a) + b
  {
    if IsSpace(a[0]) {
      assert (a + b)[1..] == a[1..] + b;
      TrimStartOfAppend(a[1..], b);
    }
  }

  /** Whitespace around a text does not survive trimming. */
  lemma TrimIgnoresPadding(a: string, s: string, b: string)
    requires AllSpace(a) && AllSpace(b)
    ensures Trim(a + s + b) == Trim(s)
  {
    assert a + s + b == a + (s + b);
    TrimStartSkipsSpace(a, s + b);
    if AllSpace(s) {
      TrimStartSkipsSpace(s, b);
      TrimStartSkipsSpace(b, []);
      TrimStartSkipsSpace(s, []);
      assert b + [] == b && s + [] == s;
    } else {
      TrimStartOfAppend(s, b);
      TrimEndSkipsSpace(TrimStart(s), b);
    }
  }

  /** Trimming the front drops exactly the longest blank prefix. */
  lemma {:induction false} TrimStartIsSuffix(s: string)
    ensures var n := |s| - |TrimStart(s)|;
            n >= 0 && s[n..] == TrimStart(s) && AllSpace(s[..n]) && (n < |s| ==> !IsSpace(s[n]))
  {
    if s != [] && IsSpace(s[0]) {
      TrimStartIsSuffix(s[1..]);
      var n := |s| - |TrimStart(s)|;
    }
  }

  lemma {:induction false} TrimEndIsPrefix(s: string)
    ensures var r := TrimEnd(s);
            r <= s && AllSpace(s[|r|..]) && (r != [] ==> !IsSpace(r[|r| - 1]))
  {
    if s != [] && IsSpace(s[|s| - 1]) {
      var m := |s| - 1;
      TrimEndIsPrefix(s[..m]);
      var r := TrimEnd(s);
    }
  }

  /** Trimming is the cut of a text to the span between two blank margins. */
  lemma TrimIsSpan(s: string) returns (lo: nat, hi: nat)
    ensures lo <= hi <= |s|
    ensures Trim(s) == s[lo..hi] && AllSpace(s[..lo]) && AllSpace(s[hi..])
  {
    TrimStartIsSuffix(s);
    var t := TrimStart(s);
    TrimEndIsPrefix(t);
    lo := |s| - |t|;
    hi := lo + |TrimEnd(t)|;
  }

  /** A trimmed text neither begins nor ends with a blank. */
  lemma TrimmedEnds(s: string)
    ensures Trim(s) != [] ==> !IsSpace(Trim(s)[0]) && !IsSpace(Trim(s)[|Trim(s)| - 1])
  {
    TrimStartIsSuffix(s);
    TrimEndIsPrefix(TrimStart(s));
  }

  /** A blank margin may be trimmed off a piece of text before or with the rest. */
  lemma TrimInside(s: string, lo: nat, hi: nat, i: nat, j: nat)
    requires lo <= i <= j <= hi <= |s|
    requires AllSpace(s[..lo]) && AllSpace(s[hi..])
    ensures Trim(s[lo..i]) == Trim(s[..i]) && Trim(s[j..hi]) == Trim(s[j..])
  {
    assert s[..i] == s[..lo] + s[lo..i] + [];
    TrimIgnoresPadding(s[..lo], s[lo..i], []);
    assert s[j..] == [] + s[j..hi] + s[hi..];
    TrimIgnoresPadding([], s[j..hi], s[hi..]);
  }
}

