/** String primitives the Go source takes from package `strings`:
    TrimSpace, HasPrefix, Contains, and a first-match search over sequences. */
module Text {
  import opened Results

  /** Whitespace as `strings.TrimSpace` sees it, restricted to ASCII. */
  predicate IsSpace(c: char) {
    c == ' ' || c == '\t' || c == '\n' || c == '\U{000B}' || c == '\U{000C}' || c == '\r'
  }

  /** Every character of `s` is whitespace (this includes the empty string). */
  predicate AllSpace(s: string) {
    forall i :: 0 <= i < |s| ==> IsSpace(s[i])
  }

  /** Drops leading whitespace: the result is a suffix of `s`, everything
      dropped is whitespace, and the result does not start with whitespace. */
  function TrimLeft(s: string): (r: string)
    ensures |r| <= |s| && r == s[|s| - |r|..]
    ensures AllSpace(s[..|s| - |r|])
    ensures r == [] || !IsSpace(r[0])
    decreases |s|
  {
    if |s| > 0 && IsSpace(s[0]) then
      var r := TrimLeft(s[1..]);
      assert s[..|s| - |r|] == [s[0]] + s[1..][..|s| - 1 - |r|];
      AllSpaceConcat([s[0]], s[1..][..|s| - 1 - |r|]);
      r
    else s
  }

  /** Drops trailing whitespace: the result is a prefix of `s`, everything
      dropped is whitespace, and the result does not end with whitespace. */
  function TrimRight(s: string): (r: string)
    ensures |r| <= |s| && r == s[..|r|]
    ensures AllSpace(s[|r|..])
    ensures r == [] || !IsSpace(r[|r| - 1])
    decreases |s|
  {
    if |s| > 0 && IsSpace(s[|s| - 1]) then TrimRight(s[..|s| - 1]) else s
  }

  /** `strings.TrimSpace`: a contiguous slice of `s` that neither starts nor
      ends with whitespace, obtained by dropping only whitespace on both sides;
      it is empty exactly when `s` is all whitespace. */
  function TrimSpace(s: string): (r: string)
    ensures |r| <= |s|
    ensures r == [] || (!IsSpace(r[0]) && !IsSpace(r[|r| - 1]))
    ensures r == [] <==> AllSpace(s)
  {
    var r := TrimRight(TrimLeft(s));
    KeepsFirst(TrimLeft(s));
    TrimEmptyIff(s);
    r
  }

  /** What `TrimSpace` removes: the leading whitespace and the trailing
      whitespace, and nothing from between them. */
  lemma TrimSpaceIsSlice(s: string)
    ensures LeadingSpace(s) + |TrimSpace(s)| <= |s|
    ensures TrimSpace(s) == s[LeadingSpace(s)..LeadingSpace(s) + |TrimSpace(s)|]
    ensures AllSpace(s[..LeadingSpace(s)])
    ensures AllSpace(s[LeadingSpace(s) + |TrimSpace(s)|..])
  {
    var left := TrimLeft(s);
    var r := TrimSpace(s);
    assert r == TrimRight(left);
    SliceOfSuffix(s, left, LeadingSpace(s), r);
  }

  /** Trimming the right end keeps the first character, if any is kept. */
  lemma KeepsFirst(s: string)
    ensures TrimRight(s) == [] || TrimRight(s)[0] == s[0]
  {
    var r := TrimRight(s);
    if r != [] {
      assert r[0] == s[..|r|][0];
    }
  }

  /** Slices of a suffix `left == s[k..]` are slices of `s`. */
  lemma SliceOfSuffix(s: string, left: string, k: nat, r: string)
    requires k <= |s| && left == s[k..]
    requires |r| <= |left| && r == left[..|r|] && AllSpace(left[|r|..])
    requires left == [] || !IsSpace(left[0])
    ensures k + |r| <= |s|
    ensures r == s[k..k + |r|]
    ensures AllSpace(s[k + |r|..])
    ensures r == [] || !IsSpace(r[0])
  {
    assert left[|r|..] == s[k + |r|..];
  }

  lemma TrimEmptyIff(s: string)
    ensures TrimRight(TrimLeft(s)) == [] <==> AllSpace(s)
  {
    var left := TrimLeft(s);
    var k := |s| - |left|;
    assert s == s[..k] + left;
    if TrimRight(left) == [] {
      assert AllSpace(left[0..]);
      AllSpaceConcat(s[..k], left);
    }
  }

  lemma AllSpaceConcat(a: string, b: string)
    requires AllSpace(a) && AllSpace(b)
    ensures AllSpace(a + b)
  {
    forall i | 0 <= i < |a + b|
      ensures IsSpace((a + b)[i])
    {
      if i < |a| { assert (a + b)[i] == a[i]; } else { assert (a + b)[i] == b[i - |a|]; }
    }
  }

  /** The number of whitespace characters `TrimSpace` drops at the front. */
  function LeadingSpace(s: string): (n: nat)
    ensures n <= |s|
    ensures AllSpace(s[..n])
    ensures n == |s| || !IsSpace(s[n])
  {
    |s| - |TrimLeft(s)|
  }

  /** Trimming twice is trimming once. */
  lemma TrimSpaceIdempotent(s: string)
    ensures TrimSpace(TrimSpace(s)) == TrimSpace(s)
  {
    var t := TrimSpace(s);
    if t != [] {
      assert LeadingSpace(t) == 0;
      assert TrimLeft(t) == t;
      assert TrimRight(t) == t;
    }
  }

  /** `strings.HasPrefix`. */
  predicate HasPrefix(s: string, prefix: string) {
    |prefix| <= |s| && s[..|prefix|] == prefix
  }

  /** A string with a non-empty prefix starts with the prefix's first character. */
  lemma PrefixLead(s: string, prefix: string)
    ensures |prefix| > 0 && HasPrefix(s, prefix) ==> |s| > 0 && s[0] == prefix[0]
  {
    if |prefix| > 0 && HasPrefix(s, prefix) {
      assert s[..|prefix|][0] == s[0];
    }
  }

  /** `strings.Contains`, scanning start positions from the left. */
  predicate Contains(s: string, sub: string)
    decreases |s|
  {
    HasPrefix(s, sub) || (|s| > 0 && Contains(s[1..], sub))
  }

  /** `sub` occurs in `s` exactly when some start position of `s` begins a copy of it. */
  lemma {:induction false} ContainsIff(s: string, sub: string)
    ensures Contains(s, sub) <==> exists i :: 0 <= i <= |s| && HasPrefix(s[i..], sub)
    decreases |s|
  {
    if HasPrefix(s, sub) {
      assert s[0..] == s;
    } else if |s| > 0 {
      ContainsIff(s[1..], sub);
      if Contains(s[1..], sub) {
        var i :| 0 <= i <= |s[1..]| && HasPrefix(s[1..][i..], sub);
        assert s[1..][i..] == s[i + 1..];
      }
      if exists i :: 0 <= i <= |s| && HasPrefix(s[i..], sub) {
        var i :| 0 <= i <= |s| && HasPrefix(s[i..], sub);
        assert i != 0 by { assert s[0..] == s; }
        assert s[1..][i - 1..] == s[i..];
      }
    } else {
      assert forall i :: 0 <= i <= |s| ==> s[i..] == s;
    }
  }

  /** The index of the first element of `s` satisfying `f`, or `None` when
      no element does. */
  function FirstWhere<T>(s: seq<T>, f: T -> bool): (r: Option<nat>)
    ensures r.Some? ==> r.value < |s| && f(s[r.value])
    ensures r.Some? ==> forall k :: 0 <= k < r.value ==> !f(s[k])
    ensures r.None? <==> forall k :: 0 <= k < |s| ==> !f(s[k])
  {
    if |s| == 0 then None
    else if f(s[0]) then Some(0)
    else match FirstWhere(s[1..], f)
      case None => None
      case Some(i) => Some(i + 1)
  }

  /** The first match is determined by its index: an index that satisfies
      `f` with no earlier one satisfying it is the result. */
  lemma FirstWhereIs<T>(s: seq<T>, f: T -> bool, i: nat)
    requires i < |s| && f(s[i])
    requires forall k :: 0 <= k < i ==> !f(s[k])
    ensures FirstWhere(s, f) == Some(i)
  {
  }
}
