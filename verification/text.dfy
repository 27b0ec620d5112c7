/** String primitives shared by the browser script and the Go API.

    Strings are sequences of characters and every length in this model is a
    sequence length. In the browser `.length` counts UTF-16 code units and in
    Go `len` counts UTF-8 bytes; the two agree with the model on ASCII text. */
module Text {

  /** Which runtime's notion of whitespace a trim uses. */
  datatype Runtime = Js | Go

  /** `String.prototype.trim` strips the WhiteSpace and LineTerminator code
      points; Go's `strings.TrimSpace` strips runes for which `unicode.IsSpace`
      holds. The sets agree except that only JavaScript strips U+FEFF (the byte
      order mark) and only Go strips U+0085 (next line). */
  predicate IsSpace(rt: Runtime, c: char) {
    c == ' ' || c == '\t' || c == '\n' || c == '\U{B}' || c == '\U{C}' || c == '\r'
    || c == '\U{A0}' || c == '\U{1680}' || ('\U{2000}' <= c <= '\U{200A}')
    || c == '\U{2028}' || c == '\U{2029}' || c == '\U{202F}' || c == '\U{205F}'
    || c == '\U{3000}'
    || (rt == Js && c == '\U{FEFF}')
    || (rt == Go && c == '\U{85}')
  }

  /** Every character of `s` is whitespace for `rt`. */
  predicate AllSpace(rt: Runtime, s: string) {
    forall i :: 0 <= i < |s| ==> IsSpace(rt, s[i])
  }

  /** Neither end of `s` is whitespace for `rt`. */
  predicate Trimmed(rt: Runtime, s: string) {
    s == [] || (!IsSpace(rt, s[0]) && !IsSpace(rt, s[|s| - 1]))
  }

  /** Drops the leading whitespace: a suffix of `s`, and what is dropped is all whitespace. */
  function TrimStart(rt: Runtime, s: string): (r: string)
    ensures |r| <= |s| && r == s[|s| - |r|..]
    ensures r == [] || !IsSpace(rt, r[0])
    ensures forall i :: 0 <= i < |s| - |r| ==> IsSpace(rt, s[i])
  {
    if s != [] && IsSpace(rt, s[0]) then TrimStart(rt, s[1..]) else s
  }

  /** Drops the trailing whitespace: a prefix of `s`, and what is dropped is all whitespace. */
  function TrimEnd(rt: Runtime, s: string): (r: string)
    ensures |r| <= |s| && r == s[..|r|]
    ensures r == [] || !IsSpace(rt, r[|r| - 1])
    ensures forall i :: |r| <= i < |s| ==> IsSpace(rt, s[i])
  {
    if s != [] && IsSpace(rt, s[|s| - 1]) then TrimEnd(rt, s[..|s| - 1]) else s
  }

  /** How many whitespace characters `s` starts with. */
  function LeadingSpace(rt: Runtime, s: string): (n: nat)
    ensures n <= |s|
    ensures forall i :: 0 <= i < n ==> IsSpace(rt, s[i])
    ensures n == |s| || !IsSpace(rt, s[n])
  {
    |s| - |TrimStart(rt, s)|
  }

  /** `s.trim()` for `Js`, `strings.TrimSpace(s)` for `Go`: no whitespace at
      either end, and empty exactly when `s` is all whitespace. Which infix
      of `s` it is, is stated by TrimInfix. */
  function Trim(rt: Runtime, s: string): (r: string)
    ensures |r| <= |s|
    ensures Trimmed(rt, r)
    ensures r == [] <==> AllSpace(rt, s)
  {
    var t := TrimStart(rt, s);
    var r := TrimEnd(rt, t);
    assert r == [] ==> forall i :: 0 <= i < |s| ==> IsSpace(rt, s[i]) by {
      if r == [] {
        forall i | 0 <= i < |s| ensures IsSpace(rt, s[i]) {
          if i >= |s| - |t| { assert s[i] == t[i - (|s| - |t|)]; }
        }
      }
    }
    r
  }

  /** The trim is the infix of `s` that starts after the leading whitespace
      and is followed only by whitespace: the longest infix with no
      whitespace at either end. */
  lemma TrimInfix(rt: Runtime, s: string)
    ensures LeadingSpace(rt, s) + |Trim(rt, s)| <= |s|
    ensures Trim(rt, s) == s[LeadingSpace(rt, s)..LeadingSpace(rt, s) + |Trim(rt, s)|]
    ensures forall i :: LeadingSpace(rt, s) + |Trim(rt, s)| <= i < |s| ==> IsSpace(rt, s[i])
  {
    TrimPosition(rt, s);
    TrimFollowedBySpace(rt, s);
  }

  lemma TrimPosition(rt: Runtime, s: string)
    ensures LeadingSpace(rt, s) + |Trim(rt, s)| <= |s|
    ensures Trim(rt, s) == s[LeadingSpace(rt, s)..LeadingSpace(rt, s) + |Trim(rt, s)|]
  {
    var t := TrimStart(rt, s);
    var r := TrimEnd(rt, t);
    var k := |s| - |t|;
    assert LeadingSpace(rt, s) == k && Trim(rt, s) == r;
    SliceOfSuffix(s, k, r, t);
  }

  /** A prefix of the suffix `s[k..]` is the infix of `s` at `k`. */
  lemma SliceOfSuffix(s: string, k: nat, r: string, t: string)
    requires k <= |s| && t == s[k..] && |r| <= |t| && r == t[..|r|]
    ensures k + |r| <= |s| && r == s[k..k + |r|]
  {
  }

  lemma TrimFollowedBySpace(rt: Runtime, s: string)
    ensures forall i :: LeadingSpace(rt, s) + |Trim(rt, s)| <= i < |s| ==> IsSpace(rt, s[i])
  {
    var t := TrimStart(rt, s);
    TrailingSpace(rt, s, t, TrimEnd(rt, t));
  }

  /** What TrimEnd drops from the suffix `t` of `s` is whitespace of `s`. */
  lemma TrailingSpace(rt: Runtime, s: string, t: string, r: string)
    requires |t| <= |s| && t == s[|s| - |t|..]
    requires r == TrimEnd(rt, t)
    ensures forall i :: |s| - |t| + |r| <= i < |s| ==> IsSpace(rt, s[i])
  {
    forall i | |s| - |t| + |r| <= i < |s|
      ensures IsSpace(rt, s[i])
    {
      assert s[i] == t[i - (|s| - |t|)];
    }
  }

  /** A string with no whitespace at its ends is its own trim. */
  lemma {:induction false} TrimOfTrimmed(rt: Runtime, s: string)
    requires Trimmed(rt, s)
    ensures Trim(rt, s) == s
  {
    if s != [] {
      assert TrimStart(rt, s) == s;
      assert TrimEnd(rt, s) == s;
    }
  }

  /** Trimming is idempotent. */
  lemma TrimIdempotent(rt: Runtime, s: string)
    ensures Trim(rt, Trim(rt, s)) == Trim(rt, s)
  {
    TrimOfTrimmed(rt, Trim(rt, s));
  }

  /** `p` is a prefix of `s`. */
  predicate StartsWith(s: string, p: string) {
    |p| <= |s| && s[..|p|] == p
  }

  /** A prefix of `x` is still a prefix once something is appended to `x`. */
  lemma StartsWithAppend(x: string, y: string, p: string)
    ensures StartsWith(x, p) ==> StartsWith(x + y, p)
  {
    if |p| <= |x| {
      assert (x + y)[..|p|] == x[..|p|];
    }
  }

  /** `if (s.length > cap) s = s.substring(0, cap)`: a prefix of `s` no longer
      than `cap`, exactly `cap` long when `s` was longer, and `s` itself when
      it already fits. */
  function Truncate<T>(s: seq<T>, cap: nat): (r: seq<T>)
    ensures |r| <= |s| && r == s[..|r|]
    ensures |r| <= cap
    ensures |s| > cap ==> |r| == cap
    ensures |s| <= cap ==> r == s
  {
    if |s| > cap then s[..cap] else s
  }

  function Min(a: int, b: int): int {
    if a <= b then a else b
  }
}
