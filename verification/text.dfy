/**
 String primitives the estimator relies on, written over `seq<char>`:
 ASCII lower-casing (`toLowerCase`), substring containment (`includes`),
 JavaScript white space (`\s`) and `trim`.
 */
module Text {

  /** The characters JavaScript's `\s` matches; `trim` removes exactly these. */
  predicate IsSpace(c: char) {
    || c == ' ' || c == '\t' || c == '\n' || c == '\r' || c == '\U{000B}' || c == '\U{000C}'
    || c == '\U{00A0}' || c == '\U{1680}' || ('\U{2000}' <= c <= '\U{200A}')
    || c == '\U{2028}' || c == '\U{2029}' || c == '\U{202F}' || c == '\U{205F}'
    || c == '\U{3000}' || c == '\U{FEFF}'
  }

  predicate IsAsciiLetter(c: char) {
    'a' <= c <= 'z' || 'A' <= c <= 'Z'
  }

  /** Lower-cases an ASCII capital; every other character is left as it is. */
  function LowerChar(c: char): (l: char) {
    if 'A' <= c <= 'Z' then (c as int + 32) as char else c
  }

  /**
   `s.toLowerCase()` on ASCII: same length, no capital left, and each
   character either unchanged or a capital replaced by its small letter.
   */
  function Lower(s: string): (r: string)
    ensures |r| == |s|
    ensures forall i :: 0 <= i < |r| ==> !('A' <= r[i] <= 'Z')
    ensures forall i :: 0 <= i < |r| ==>
      r[i] == s[i] || ('A' <= s[i] <= 'Z' && r[i] as int == s[i] as int + 32)
  {
    seq(|s|, i requires 0 <= i < |s| => LowerChar(s[i]))
  }

  /** Lower-casing twice is lower-casing once. */
  lemma LowerIdempotent(s: string)
    ensures Lower(Lower(s)) == Lower(s)
  {
    var l := Lower(s);
    forall i | 0 <= i < |l| ensures Lower(l)[i] == l[i] {
      assert !('A' <= l[i] <= 'Z');
    }
  }

  /** `sub[k..]` occurs in `s` at offset `at + k`. */
  predicate OccursAt(s: string, sub: string, at: nat, k: nat)
    requires at + |sub| <= |s| && k <= |sub|
    decreases |sub| - k
  {
    k == |sub| || (s[at + k] == sub[k] && OccursAt(s, sub, at, k + 1))
  }

  /** `sub` occurs in `s` at some offset `from` or later. */
  predicate ContainsFrom(s: string, sub: string, from: nat)
    decreases |s| - from
  {
    from + |sub| <= |s| && (OccursAt(s, sub, from, 0) || ContainsFrom(s, sub, from + 1))
  }

  /** `s.includes(sub)`. */
  predicate Contains(s: string, sub: string) {
    ContainsFrom(s, sub, 0)
  }

  /** Reference meaning of containment: `sub` is the slice of `s` starting at `i`. */
  ghost predicate IsSliceAt(s: string, sub: string, i: int) {
    0 <= i && i + |sub| <= |s| && s[i..i + |sub|] == sub
  }

  lemma {:induction false} OccursAtMeansEqual(s: string, sub: string, at: nat, k: nat)
    requires at + |sub| <= |s| && k <= |sub|
    ensures OccursAt(s, sub, at, k) <==> forall j :: k <= j < |sub| ==> s[at + j] == sub[j]
    decreases |sub| - k
  {
    if k < |sub| {
      OccursAtMeansEqual(s, sub, at, k + 1);
    }
  }

  lemma {:induction false} ContainsFromMeansSlice(s: string, sub: string, from: nat)
    ensures ContainsFrom(s, sub, from) <==> exists i :: from <= i && IsSliceAt(s, sub, i)
    decreases |s| - from
  {
    if from + |sub| <= |s| {
      OccursAtMeansEqual(s, sub, from, 0);
      assert OccursAt(s, sub, from, 0) <==> IsSliceAt(s, sub, from) by {
        if OccursAt(s, sub, from, 0) {
          assert s[from..from + |sub|] == sub;
        }
      }
      ContainsFromMeansSlice(s, sub, from + 1);
      if exists i :: from <= i && IsSliceAt(s, sub, i) {
        var i :| from <= i && IsSliceAt(s, sub, i);
        assert i == from || (from + 1 <= i && IsSliceAt(s, sub, i));
      }
    }
  }

  /** `includes` holds exactly when `sub` is a contiguous slice of `s`. */
  lemma ContainsMeansSlice(s: string, sub: string)
    ensures Contains(s, sub) <==> exists i :: IsSliceAt(s, sub, i)
  {
    ContainsFromMeansSlice(s, sub, 0);
  }

  /** A string lacking one of `sub`'s characters does not include `sub`. */
  lemma MissingCharNotContained(s: string, sub: string, c: char)
    requires c in sub && c !in s
    ensures !Contains(s, sub)
  {
    ContainsMeansSlice(s, sub);
    var j :| 0 <= j < |sub| && sub[j] == c;
    forall i | 0 <= i ensures !IsSliceAt(s, sub, i) {
      if i + |sub| <= |s| {
        assert s[i..i + |sub|][j] == s[i + j];
      }
    }
  }

  /** Every string includes the empty string. */
  lemma ContainsEmpty(s: string)
    ensures Contains(s, "")
  {
  }

  predicate IsTrimmed(s: string) {
    |s| == 0 || (!IsSpace(s[0]) && !IsSpace(s[|s| - 1]))
  }

  /** The first index at or after `i` that holds a non-space, or `|s|`. */
  function SpaceRunEnd(s: string, i: nat): (k: nat)
    requires i <= |s|
    decreases |s| - i
    ensures i <= k <= |s|
    ensures forall m :: i <= m < k ==> IsSpace(s[m])
    ensures k < |s| ==> !IsSpace(s[k])
  {
    if i == |s| || !IsSpace(s[i]) then i else SpaceRunEnd(s, i + 1)
  }

  /** The last index at or before `j` that follows a non-space, or `0`. */
  function SpaceRunStart(s: string, j: nat): (k: nat)
    requires j <= |s|
    ensures k <= j
    ensures forall m :: k <= m < j ==> IsSpace(s[m])
    ensures k > 0 ==> !IsSpace(s[k - 1])
  {
    if j == 0 || !IsSpace(s[j - 1]) then j else SpaceRunStart(s, j - 1)
  }

  /** Reference meaning of `trim`: `r` is a slice of `s` with only white space outside it. */
  ghost predicate IsSpaceBoundedSlice(s: string, r: string) {
    exists a, b ::
      && 0 <= a <= b <= |s| && r == s[a..b]
      && (forall k :: 0 <= k < a ==> IsSpace(s[k]))
      && (forall k :: b <= k < |s| ==> IsSpace(s[k]))
  }

  /** A slice with only white space outside it keeps every non-space character and adds none. */
  lemma SpaceBoundedSliceKeeps(s: string, a: nat, b: nat)
    requires a <= b <= |s|
    requires forall k :: 0 <= k < a ==> IsSpace(s[k])
    requires forall k :: b <= k < |s| ==> IsSpace(s[k])
    ensures IsSpaceBoundedSlice(s, s[a..b])
    ensures forall c :: c in s[a..b] ==> c in s
    ensures forall c :: c in s && !IsSpace(c) ==> c in s[a..b]
  {
    forall c | c in s && !IsSpace(c) ensures c in s[a..b] {
      var i :| 0 <= i < |s| && s[i] == c;
      assert s[a..b][i - a] == c;
    }
  }

  /** The ends of a non-empty slice are the characters at its bounds. */
  lemma SliceEnds(s: string, a: nat, b: nat)
    requires a < b <= |s|
    ensures s[a..b][0] == s[a] && s[a..b][b - a - 1] == s[b - 1]
  {
  }

  /**
   `s.trim()`: the slice of `s` left when the leading and trailing white space
   is cut off; it keeps every non-space character of `s` and introduces nothing new.
   */
  function Trim(s: string): (r: string)
    ensures IsTrimmed(r) && IsSpaceBoundedSlice(s, r)
    ensures |r| <= |s|
    ensures forall c :: c in r ==> c in s
    ensures forall c :: c in s && !IsSpace(c) ==> c in r
  {
    var a := SpaceRunEnd(s, 0);
    var b := SpaceRunStart(s, |s|);
    var e := if b <= a then a else b;
    assert IsTrimmed(s[a..e]) by {
      if a < e {
        SliceEnds(s, a, e);
      }
    }
    SpaceBoundedSliceKeeps(s, a, e);
    s[a..e]
  }

  /** Only one trimmed string is a space-bounded slice of `s`, so `Trim` is fully determined. */
  lemma TrimUnique(s: string, t: string)
    requires IsTrimmed(t) && IsSpaceBoundedSlice(s, t)
    ensures t == Trim(s)
  {
    var a := SpaceRunEnd(s, 0);
    var b := SpaceRunStart(s, |s|);
    var c, d :| 0 <= c <= d <= |s| && t == s[c..d]
      && (forall k :: 0 <= k < c ==> IsSpace(s[k])) && (forall k :: d <= k < |s| ==> IsSpace(s[k]));
    if c < d {
      SliceEnds(s, c, d);
      assert c == a;
      assert d == b;
    } else {
      assert forall k :: 0 <= k < |s| ==> IsSpace(s[k]);
    }
  }

  /** `!s.trim()`: nothing is left once the white space is cut off. */
  predicate IsBlank(s: string) {
    |Trim(s)| == 0
  }

  /** A string is blank exactly when every character of it is white space. */
  lemma BlankMeansAllSpace(s: string)
    ensures IsBlank(s) <==> forall k :: 0 <= k < |s| ==> IsSpace(s[k])
  {
    var r := Trim(s);
    if IsBlank(s) {
      forall k | 0 <= k < |s| ensures IsSpace(s[k]) {
        assert s[k] in s;
      }
    } else {
      assert r[0] in r;
    }
  }
}
