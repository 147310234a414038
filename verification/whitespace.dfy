/** `String.prototype.trim`: removal of leading and trailing white space and
    line terminators, as ECMAScript defines them (WhiteSpace, section 12.2, and
    LineTerminator, section 12.3, of ECMA-262). */
module Whitespace {

  /** The code points `trim` removes: TAB, LF, VT, FF, CR, SPACE, NBSP, the
      byte-order mark, LINE and PARAGRAPH SEPARATOR, and the other members of
      the Unicode category Zs. */
  predicate IsWhitespace(ch: char)
  {
    var n := ch as int;
    || (0x09 <= n <= 0x0D)
    || n == 0x20
    || n == 0xA0
    || n == 0x1680
    || (0x2000 <= n <= 0x200A)
    || n == 0x2028
    || n == 0x2029
    || n == 0x202F
    || n == 0x205F
    || n == 0x3000
    || n == 0xFEFF
  }

  predicate AllWhitespace(s: string)
  {
    forall i :: 0 <= i < |s| ==> IsWhitespace(s[i])
  }

  /** Neither end of `s` is white space. */
  predicate IsTrimmed(s: string)
  {
    s == "" || (!IsWhitespace(s[0]) && !IsWhitespace(s[|s| - 1]))
  }

  /** The first index at or after `i` that does not hold white space, or
      `|s|` when there is none. */
  function SkipLeading(s: string, i: nat): (j: nat)
    requires i <= |s|
    ensures i <= j <= |s|
    ensures forall k :: i <= k < j ==> IsWhitespace(s[k])
    ensures j == |s| || !IsWhitespace(s[j])
    decreases |s| - i
  {
    if i < |s| && IsWhitespace(s[i]) then SkipLeading(s, i + 1) else i
  }

  /** The least end index `e`, not below `lo`, such that everything from `e`
      up to `j` is white space: `j` with its trailing white space stripped. */
  function SkipTrailing(s: string, lo: nat, j: nat): (e: nat)
    requires lo <= j <= |s|
    ensures lo <= e <= j
    ensures forall k :: e <= k < j ==> IsWhitespace(s[k])
    ensures e == lo || !IsWhitespace(s[e - 1])
    decreases j
  {
    if lo < j && IsWhitespace(s[j - 1]) then SkipTrailing(s, lo, j - 1) else j
  }

  /** `s.trim()`: the result has no white space at either end, and it is empty
      exactly when `s` is nothing but white space. */
  function Trim(s: string): (r: string)
    ensures IsTrimmed(r)
    ensures r == "" <==> AllWhitespace(s)
  {
    var i := SkipLeading(s, 0);
    var e := SkipTrailing(s, i, |s|);
    s[i..e]
  }

  /** Whatever satisfies `SkipLeading`'s contract is its result. */
  lemma {:induction false} SkipLeadingUnique(s: string, i: nat, j: nat)
    requires i <= j <= |s|
    requires forall k :: i <= k < j ==> IsWhitespace(s[k])
    requires j == |s| || !IsWhitespace(s[j])
    ensures SkipLeading(s, i) == j
    decreases j - i
  {
    if i < j {
      SkipLeadingUnique(s, i + 1, j);
    }
  }

  /** Whatever satisfies `SkipTrailing`'s contract is its result. */
  lemma {:induction false} SkipTrailingUnique(s: string, lo: nat, e: nat, j: nat)
    requires lo <= e <= j <= |s|
    requires forall k :: e <= k < j ==> IsWhitespace(s[k])
    requires e == lo || !IsWhitespace(s[e - 1])
    ensures SkipTrailing(s, lo, j) == e
    decreases j
  {
    if e < j {
      SkipTrailingUnique(s, lo, e, j - 1);
    }
  }

  /** Reference characterisation: surrounding a trimmed string with any white
      space and trimming gives that string back. */
  lemma TrimPadded(a: string, m: string, b: string)
    requires AllWhitespace(a) && AllWhitespace(b)
    requires IsTrimmed(m)
    ensures Trim(a + m + b) == m
  {
    var s := a + m + b;
    if m == "" {
      forall k | 0 <= k < |s|
        ensures IsWhitespace(s[k])
      {
        if k < |a| {
          assert s[k] == a[k];
        } else {
          assert s[k] == b[k - |a|];
        }
      }
    } else {
      var e := |a| + |m|;
      assert forall k :: 0 <= k < |a| ==> s[k] == a[k];
      assert s[|a|] == m[0];
      SkipLeadingUnique(s, 0, |a|);
      assert forall k :: e <= k < |s| ==> s[k] == b[k - e];
      assert s[e - 1] == m[|m| - 1];
      SkipTrailingUnique(s, |a|, e, |s|);
      assert s[|a|..e] == m;
    }
  }

  /** Every string is its trimmed core with white space around it, so by
      `TrimPadded` the trimmed core is unique. */
  lemma TrimDecompose(s: string) returns (a: string, b: string)
    ensures AllWhitespace(a) && AllWhitespace(b)
    ensures s == a + Trim(s) + b
  {
    var i := SkipLeading(s, 0);
    var e := SkipTrailing(s, i, |s|);
    a := s[..i];
    b := s[e..];
    assert s == s[..i] + s[i..e] + s[e..];
  }

  /** A string with no white space at either end is left as it is. */
  lemma TrimmedFixpoint(m: string)
    requires IsTrimmed(m)
    ensures Trim(m) == m
  {
    if m != "" {
      SkipLeadingUnique(m, 0, 0);
      SkipTrailingUnique(m, 0, |m|, |m|);
    }
  }

  /** Trimming twice is trimming once. */
  lemma TrimIdempotent(s: string)
    ensures Trim(Trim(s)) == Trim(s)
  {
    TrimmedFixpoint(Trim(s));
  }
}
