/**
 * The handful of C string primitives the log daemon relies on, stated over
 * `seq<char>`: the NUL terminator, `strspn`, `strcspn`, `strchr` followed by
 * truncation, and a linear `strcmp` search through a name table.
 */
module CStrings {

  /** The C end-of-string character. */
  const EOS: char := '\0'

  /** A C string: the characters before its terminator, so it holds no NUL. */
  type CString = s: string | EOS !in s

  /** `strspn(s, accept)`: the length of the longest prefix of `s` made only of
      characters in `accept`. */
  function Span(s: string, accept: set<char>): (n: nat)
    ensures n <= |s|
    ensures forall i :: 0 <= i < n ==> s[i] in accept
    ensures n < |s| ==> s[n] !in accept
    decreases |s|
  {
    if |s| == 0 || s[0] !in accept then 0 else 1 + Span(s[1..], accept)
  }

  /** `strcspn(s, reject)`: the length of the longest prefix of `s` holding no
      character of `reject`. */
  function CSpan(s: string, reject: set<char>): (n: nat)
    ensures n <= |s|
    ensures forall i :: 0 <= i < n ==> s[i] !in reject
    ensures n < |s| ==> s[n] in reject
    decreases |s|
  {
    if |s| == 0 || s[0] in reject then 0 else 1 + CSpan(s[1..], reject)
  }

  /** Any split of `s` into an accepted prefix followed by a rejected character
      (or nothing) is the one `Span` finds. */
  lemma SpanUnique(s: string, accept: set<char>, k: nat)
    requires k <= |s|
    requires forall i :: 0 <= i < k ==> s[i] in accept
    requires k < |s| ==> s[k] !in accept
    ensures Span(s, accept) == k
  {
  }

  /** Any split of `s` into a reject-free prefix followed by a rejected
      character (or nothing) is the one `CSpan` finds. */
  lemma CSpanUnique(s: string, reject: set<char>, k: nat)
    requires k <= |s|
    requires forall i :: 0 <= i < k ==> s[i] !in reject
    requires k < |s| ==> s[k] in reject
    ensures CSpan(s, reject) == k
  {
  }

  /** `strchr(s, c)` followed by `*cp = EOS`: `s` cut just before the first
      occurrence of `c`, or the whole of `s` when `c` does not occur. */
  function CutAt(s: string, c: char): (r: string)
    ensures c !in r
    ensures |r| <= |s| && r == s[..|r|]
    ensures |r| < |s| ==> s[|r|] == c
  {
    s[..CSpan(s, {c})]
  }

  /** Cutting after a prefix free of `c` is the same as cutting first and
      dropping the prefix afterwards. */
  lemma CutAtSuffix(s: string, c: char, k: nat)
    requires k <= |s|
    requires c !in s[..k]
    ensures k <= |CutAt(s, c)|
    ensures CutAt(s[k..], c) == CutAt(s, c)[k..]
  {
    var n := |CutAt(s, c)|;
    assert forall i :: 0 <= i < k ==> s[i] == s[..k][i];
    CSpanUnique(s[k..], {c}, n - k);
  }

  /** The suffix of a C string from position `n`; still a C string. */
  function Drop(s: CString, n: nat): (r: CString)
    requires n <= |s|
    ensures r == s[n..]
  {
    assert forall k :: 0 <= k < |s| - n ==> s[n..][k] == s[n + k];
    s[n..]
  }

  /** The first `n` characters of a C string; still a C string. */
  function Take(s: CString, n: nat): (r: CString)
    requires n <= |s|
    ensures r == s[..n]
  {
    assert forall k :: 0 <= k < n ==> s[..n][k] == s[k];
    s[..n]
  }

  /** Splitting `x` into an accepted prefix `a` and a rest `b` that does not
      start with an accepted character: `Span` finds exactly `a`. */
  lemma SpanSplit(x: string, a: string, b: string, accept: set<char>)
    requires x == a + b
    requires forall i :: 0 <= i < |a| ==> a[i] in accept
    requires |b| > 0 ==> b[0] !in accept
    ensures Span(x, accept) == |a| && x[|a|..] == b
  {
    assert forall i :: 0 <= i < |a| ==> x[i] == a[i];
    if |b| > 0 {
      assert x[|a|] == b[0];
    }
    SpanUnique(x, accept, |a|);
  }

  /** Splitting `x` into a reject-free prefix `a` and a rest `b` that is empty
      or starts with a rejected character: `CSpan` finds exactly `a`. */
  lemma CSpanSplit(x: string, a: string, b: string, reject: set<char>)
    requires x == a + b
    requires forall i :: 0 <= i < |a| ==> a[i] !in reject
    requires |b| > 0 ==> b[0] in reject
    ensures CSpan(x, reject) == |a| && x[..|a|] == a && x[|a|..] == b
  {
    assert forall i :: 0 <= i < |a| ==> x[i] == a[i];
    if |b| > 0 {
      assert x[|a|] == b[0];
    }
    CSpanUnique(x, reject, |a|);
  }

  /** The two pieces `Span` cuts `x` into, and what each holds. */
  lemma SpanPieces(x: string, accept: set<char>)
    ensures var n := Span(x, accept);
            && x == x[..n] + x[n..]
            && (forall i :: 0 <= i < n ==> x[..n][i] in accept)
            && (|x[n..]| > 0 ==> x[n..][0] !in accept)
  {
  }

  /** The two pieces `CSpan` cuts `x` into, and what each holds. */
  lemma CSpanPieces(x: string, reject: set<char>)
    ensures var n := CSpan(x, reject);
            && x == x[..n] + x[n..]
            && (forall i :: 0 <= i < n ==> x[..n][i] !in reject)
            && (|x[n..]| > 0 ==> x[n..][0] in reject)
  {
  }

  /** The C string held in a buffer: everything before its first NUL. */
  function CStr(buf: string): (r: CString)
    ensures |r| <= |buf| && r == buf[..|r|]
    ensures |r| < |buf| ==> buf[|r|] == EOS
  {
    CutAt(buf, EOS)
  }

  /** The `strcmp` search of a name table from position `from` onwards: the
      first index at or after `from` whose entry equals `key`, or -1. */
  function IndexFrom(table: seq<string>, key: string, from: nat): (r: int)
    requires from <= |table|
    ensures -1 <= r < |table|
    ensures r == -1 <==> forall k :: from <= k < |table| ==> table[k] != key
    ensures r >= 0 ==> from <= r && table[r] == key
    ensures r >= 0 ==> forall k :: from <= k < r ==> table[k] != key
    decreases |table| - from
  {
    if from == |table| then -1
    else if table[from] == key then from
    else IndexFrom(table, key, from + 1)
  }

  /** The first index of `key` in `table`, or -1 when it is absent. */
  function IndexOf(table: seq<string>, key: string): (r: int)
    ensures -1 <= r < |table|
    ensures r == -1 <==> key !in table
    ensures r >= 0 ==> table[r] == key && key !in table[..r]
  {
    IndexFrom(table, key, 0)
  }
}
