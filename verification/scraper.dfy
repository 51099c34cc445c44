/**
 The lenient text scraper used when a dish reply is not a JSON array: three
 global regular expressions tried in order, and the clean-up applied to the
 raw matches of the first one that matches at all.

   Quoted     /["']([^"']+)["']/g     a quote, one or more non-quotes, a quote
   Bracketed  /\[([^\]]+)\]/g         `[`, one or more non-`]`, `]`
   WordRun    /([a-zA-Z\s]+)(?=,|$)/g letters and white space up to a comma or the end
 */
module Scraper {
  import opened Wrappers
  import opened Text

  datatype Pattern = Quoted | Bracketed | WordRun

  predicate IsQuote(c: char) {
    c == '"' || c == '\''
  }

  /** The class `[a-zA-Z\s]`. */
  predicate IsWordChar(c: char) {
    IsAsciiLetter(c) || IsSpace(c)
  }

  /** First character of a delimited match. */
  predicate Opens(p: Pattern, c: char) {
    match p
    case Quoted => IsQuote(c)
    case Bracketed => c == '['
    case WordRun => IsWordChar(c)
  }

  /**
   Characters that end the body of a match: the closing delimiter of the two
   delimited patterns (their bodies are its complement), and anything outside
   the word class for the word run.
   */
  predicate Closes(p: Pattern, c: char) {
    match p
    case Quoted => IsQuote(c)
    case Bracketed => c == ']'
    case WordRun => !IsWordChar(c)
  }

  /** Reference meaning: the pattern, tried at index `i`, matches exactly `t[i..e]`. */
  ghost predicate IsMatch(p: Pattern, t: string, i: int, e: int) {
    && 0 <= i < e <= |t|
    && match p
       case WordRun =>
         (forall k :: i <= k < e ==> IsWordChar(t[k])) && (e == |t| || t[e] == ',')
       case _ =>
         && i + 2 < e
         && Opens(p, t[i]) && Closes(p, t[e - 1])
         && forall k :: i < k < e - 1 ==> !Closes(p, t[k])
  }

  /** The pattern matches somewhere in `t` at index `from` or later. */
  ghost predicate HasMatchFrom(p: Pattern, t: string, from: int) {
    exists i, e :: from <= i && IsMatch(p, t, i, e)
  }

  /** `t.match(p)` is not `null`. */
  ghost predicate HasMatch(p: Pattern, t: string) {
    HasMatchFrom(p, t, 0)
  }

  /** End of the longest stretch from `j` on that holds no `Closes` character. */
  function SpanEnd(p: Pattern, t: string, j: nat): (k: nat)
    requires j <= |t|
    decreases |t| - j
    ensures j <= k <= |t|
    ensures forall m :: j <= m < k ==> !Closes(p, t[m])
    ensures k < |t| ==> Closes(p, t[k])
  {
    if j == |t| || Closes(p, t[j]) then j else SpanEnd(p, t, j + 1)
  }

  /** One attempt of the regular expression at index `i`: the end of the match, if any. */
  function MatchEnd(p: Pattern, t: string, i: nat): (r: Option<nat>)
    requires i < |t|
    ensures r.Some? ==> IsMatch(p, t, i, r.value)
    ensures r.None? ==> forall e :: !IsMatch(p, t, i, e)
  {
    match p
    case WordRun =>
      var e := SpanEnd(p, t, i);
      if i < e && (e == |t| || t[e] == ',') then Some(e)
      else None
    case _ =>
      if !Opens(p, t[i]) then None
      else
        var k := SpanEnd(p, t, i + 1);
        if i + 1 < k < |t| then Some(k + 1)
        else None
  }

  /**
   The global scan from index `from`: the leftmost match, then the scan
   resumed where that match ended; an index with no match is skipped.
   */
  function Scan(p: Pattern, t: string, from: nat): (ms: seq<string>)
    requires from <= |t|
    decreases |t| - from
    ensures forall m :: m in ms ==> exists i, e :: from <= i && IsMatch(p, t, i, e) && m == t[i..e]
    ensures |ms| == 0 <==> !HasMatchFrom(p, t, from)
  {
    if from == |t| then []
    else
      match MatchEnd(p, t, from)
      case Some(e) => [t[from..e]] + Scan(p, t, e)
      case None =>
        var rest := Scan(p, t, from + 1);
        assert HasMatchFrom(p, t, from) ==> HasMatchFrom(p, t, from + 1) by {
          if HasMatchFrom(p, t, from) {
            var i, e :| from <= i && IsMatch(p, t, i, e);
            assert i != from;
          }
        }
        rest
  }

  /** The raw result of `t.match(p)` (an empty sequence standing for `null`). */
  function Matches(p: Pattern, t: string): (ms: seq<string>)
    ensures forall m :: m in ms ==> exists i, e :: IsMatch(p, t, i, e) && m == t[i..e]
    ensures |ms| > 0 <==> HasMatch(p, t)
  {
    Scan(p, t, 0)
  }

  /** A match from `i` that ends at `e1` rules out any longer match from `i`. */
  lemma ShortestMatchOnly(p: Pattern, t: string, i: int, e1: int, e2: int)
    requires IsMatch(p, t, i, e1) && e1 < e2
    ensures !IsMatch(p, t, i, e2)
  {
    match p
    case WordRun =>
      if e2 <= |t| {
        assert t[e1] == ',';
      }
    case _ =>
      assert Closes(p, t[e1 - 1]);
  }

  /** An attempt at a given index can match in one way only. */
  lemma MatchUnique(p: Pattern, t: string, i: int, e1: int, e2: int)
    requires IsMatch(p, t, i, e1) && IsMatch(p, t, i, e2)
    ensures e1 == e2
  {
    if e1 < e2 {
      ShortestMatchOnly(p, t, i, e1, e2);
    } else if e2 < e1 {
      ShortestMatchOnly(p, t, i, e2, e1);
    }
  }

  /** Indexes where no match starts are skipped by the scan. */
  lemma {:induction false} ScanSkips(p: Pattern, t: string, from: nat, i: nat)
    requires from <= i <= |t|
    requires forall j, e :: from <= j < i ==> !IsMatch(p, t, j, e)
    ensures Scan(p, t, from) == Scan(p, t, i)
    decreases i - from
  {
    if from < i {
      assert forall e :: !IsMatch(p, t, from, e);
      assert Scan(p, t, from) == Scan(p, t, from + 1);
      ScanSkips(p, t, from + 1, i);
    }
  }

  /** A scan starting where a match starts takes that match and resumes at its end. */
  lemma ScanAtMatch(p: Pattern, t: string, i: nat, e: int)
    requires IsMatch(p, t, i, e)
    ensures Scan(p, t, i) == [t[i..e]] + Scan(p, t, e)
  {
    var r := MatchEnd(p, t, i);
    assert r.Some?;
    MatchUnique(p, t, i, r.value, e);
  }

  /**
   The global scan returns the leftmost match at or after `from`, then goes on
   from where that match ended; with `Scan`'s empty-iff clause this fixes the
   result to every leftmost, non-overlapping match in order.
   */
  lemma ScanLeftmost(p: Pattern, t: string, from: nat, i: int, e: int)
    requires from <= i && IsMatch(p, t, i, e)
    requires forall j, e' :: from <= j < i ==> !IsMatch(p, t, j, e')
    ensures Scan(p, t, from) == [t[i..e]] + Scan(p, t, e)
  {
    ScanSkips(p, t, from, i);
    ScanAtMatch(p, t, i, e);
  }

  /** The characters `/["'[\]]/g` removes. */
  predicate IsMarkup(c: char) {
    c == '"' || c == '\'' || c == '[' || c == ']'
  }

  /** `s.replace(/["'[\]]/g, '')`: drops every quote and square bracket and keeps the rest. */
  function StripMarkup(s: string): (r: string)
    ensures |r| <= |s|
    ensures forall c :: c in r <==> c in s && !IsMarkup(c)
  {
    StripMarkupFrom(s, 0)
  }

  /** `StripMarkup` of `s[i..]`. */
  function StripMarkupFrom(s: string, i: nat): (r: string)
    requires i <= |s|
    decreases |s| - i
    ensures |r| <= |s| - i
    ensures forall c :: c in r <==> c in s[i..] && !IsMarkup(c)
  {
    if i == |s| then []
    else
      var rest := StripMarkupFrom(s, i + 1);
      assert forall c :: c in s[i..] <==> c == s[i] || c in s[i + 1..] by {
        assert s[i..] == [s[i]] + s[i + 1..];
      }
      if IsMarkup(s[i]) then rest else [s[i]] + rest
  }

  lemma {:induction false} StripMarkupFromUnchanged(s: string, i: nat)
    requires i <= |s|
    requires forall k :: i <= k < |s| ==> !IsMarkup(s[k])
    ensures StripMarkupFrom(s, i) == s[i..]
    decreases |s| - i
  {
    if i < |s| {
      StripMarkupFromUnchanged(s, i + 1);
      assert s[i..] == [s[i]] + s[i + 1..];
    }
  }

  /** Text without quotes or brackets passes the markup removal unchanged. */
  lemma StripMarkupUnchanged(s: string)
    requires forall k :: 0 <= k < |s| ==> !IsMarkup(s[k])
    ensures StripMarkup(s) == s
  {
    StripMarkupFromUnchanged(s, 0);
  }

  /** Scanning `p + s` from offset `|p| + i` is scanning `s` from `i`. */
  lemma {:induction false} StripMarkupFromShift(p: string, s: string, i: nat)
    requires i <= |s|
    ensures StripMarkupFrom(p + s, |p| + i) == StripMarkupFrom(s, i)
    decreases |s| - i
  {
    if i < |s| {
      StripMarkupFromShift(p, s, i + 1);
      assert (p + s)[|p| + i] == s[i];
    }
  }

  /**
   The replace is an order-preserving filter: together with `StripMarkup([]) == []`
   this fixes the result character by character.
   */
  lemma StripMarkupCons(c: char, s: string)
    ensures StripMarkup([c] + s) == (if IsMarkup(c) then [] else [c]) + StripMarkup(s)
  {
    StripMarkupFromShift([c], s, 0);
    assert ([c] + s)[0] == c;
  }

  /**
   The per-match clean-up: the markup-free text with its surrounding white
   space cut off; every other character of the match survives.
   */
  function Tidy(m: string): (r: string)
    ensures IsTrimmed(r) && IsSpaceBoundedSlice(StripMarkup(m), r)
    ensures forall c :: c in r ==> c in m && !IsMarkup(c)
    ensures forall c :: c in m && !IsMarkup(c) && !IsSpace(c) ==> c in r
  {
    Trim(StripMarkup(m))
  }

  /** The filter: non-empty and free of the case-sensitive word "Example". */
  predicate Keep(item: string) {
    |item| > 0 && !Contains(item, "Example")
  }

  /** An item the scraper may hand back. */
  predicate IsCleanItem(item: string) {
    Keep(item) && IsTrimmed(item) && forall c :: c in item ==> !IsMarkup(c)
  }

  /**
   `ms.map(Tidy).filter(Keep)`: an item is in the result exactly when it is
   the tidied form of some raw match and passes the filter; order is kept.
   */
  function Clean(ms: seq<string>): (r: seq<string>)
    ensures |r| <= |ms|
    ensures forall x :: x in r ==> IsCleanItem(x)
    ensures forall x :: x in r <==> Keep(x) && exists m :: m in ms && Tidy(m) == x
  {
    if |ms| == 0 then []
    else
      var x := Tidy(ms[0]);
      var rest := Clean(ms[1..]);
      assert forall m :: m in ms <==> m == ms[0] || m in ms[1..];
      if Keep(x) then [x] + rest else rest
  }
}
