/**
 * The JavaScript string built-ins the application relies on, written out over
 * `seq<char>`: `Array.prototype.join`, `String.prototype.indexOf`,
 * `String.prototype.split` with a non-empty separator (left-to-right,
 * non-overlapping matches) and `String.prototype.trim`.
 */
module JsStrings {
  import opened Wrappers

  /** `parts.join(sep)`: the parts in order, with `sep` between consecutive parts. */
  function Join(parts: seq<string>, sep: string): string
  {
    if |parts| == 0 then ""
    else if |parts| == 1 then parts[0]
    else parts[0] + sep + Join(parts[1..], sep)
  }

  /** Sum of the lengths of the parts. */
  function TotalLength(parts: seq<string>): nat
  {
    if |parts| == 0 then 0 else |parts[0]| + TotalLength(parts[1..])
  }

  /** k parts joined carry exactly k - 1 separators. */
  lemma {:induction false} JoinLength(parts: seq<string>, sep: string)
    requires |parts| > 0
    ensures |Join(parts, sep)| == TotalLength(parts) + (|parts| - 1) * |sep|
  {
    if |parts| > 1 {
      JoinLength(parts[1..], sep);
      calc {
        |Join(parts, sep)|;
        |parts[0]| + |sep| + |Join(parts[1..], sep)|;
        |parts[0]| + |sep| + TotalLength(parts[1..]) + (|parts| - 2) * |sep|;
        TotalLength(parts) + (|parts| - 1) * |sep|;
      }
    }
  }

  /** Appending one more part adds one separator and the part at the end. */
  lemma {:induction false} JoinAppend(parts: seq<string>, p: string, sep: string)
    requires |parts| > 0
    ensures Join(parts + [p], sep) == Join(parts, sep) + sep + p
  {
    if |parts| == 1 {
      assert (parts + [p])[1..] == [p];
    } else {
      assert (parts + [p])[1..] == parts[1..] + [p];
      JoinAppend(parts[1..], p, sep);
    }
  }

  /** Joining two parts puts the separator between them. */
  lemma JoinPair(a: string, b: string, sep: string)
    ensures Join([a, b], sep) == a + sep + b
  {
    assert [a, b][1..] == [b];
  }

  /** Joining a part in front of at least one more part adds one separator. */
  lemma JoinCons(p: string, tail: seq<string>, sep: string)
    requires |tail| > 0
    ensures Join([p] + tail, sep) == p + sep + Join(tail, sep)
  {
    assert ([p] + tail)[1..] == tail;
  }

  /** Part k of a join starts after the k earlier parts and k separators, and a separator follows it unless it is the last. */
  lemma JoinPlacesParts(parts: seq<string>, sep: string, k: nat)
    requires k < |parts|
    ensures var at := TotalLength(parts[..k]) + k * |sep|;
      && at + |parts[k]| <= |Join(parts, sep)|
      && Join(parts, sep)[at..at + |parts[k]|] == parts[k]
      && (k + 1 < |parts| ==>
            && at + |parts[k]| + |sep| <= |Join(parts, sep)|
            && Join(parts, sep)[at + |parts[k]|..at + |parts[k]| + |sep|] == sep)
  {
    if k == 0 {
      JoinHead(parts, sep);
    } else {
      JoinPlacesLaterPart(parts, sep, k);
    }
  }

  /** `JoinPlacesParts` for a part after the first: the join of the earlier parts and a separator come first. */
  lemma JoinPlacesLaterPart(parts: seq<string>, sep: string, k: nat)
    requires 0 < k < |parts|
    ensures var at := TotalLength(parts[..k]) + k * |sep|;
      && at + |parts[k]| <= |Join(parts, sep)|
      && Join(parts, sep)[at..at + |parts[k]|] == parts[k]
      && (k + 1 < |parts| ==>
            && at + |parts[k]| + |sep| <= |Join(parts, sep)|
            && Join(parts, sep)[at + |parts[k]|..at + |parts[k]| + |sep|] == sep)
  {
    var p, earlier, later := parts[k], parts[..k], parts[k..];
    assert parts == earlier + later;
    JoinConcat(earlier, later, sep);
    JoinLength(earlier, sep);
    MulStep(k, |sep|);
    var front, back := Join(earlier, sep) + sep, Join(later, sep);
    assert Join(parts, sep) == front + back;
    assert |front| == TotalLength(earlier) + k * |sep|;
    JoinHead(later, sep);
    SliceAfter(front, back, 0, |p|);
    if k + 1 < |parts| {
      SliceAfter(front, back, |p|, |p| + |sep|);
    }
  }

  /** One more factor of `n`. */
  lemma MulStep(k: nat, n: nat)
    requires k > 0
    ensures k * n == n + (k - 1) * n
  {
  }

  /** The first part opens the join, followed by a separator when more parts follow. */
  lemma JoinHead(parts: seq<string>, sep: string)
    requires |parts| > 0
    ensures |parts[0]| <= |Join(parts, sep)| && Join(parts, sep)[..|parts[0]|] == parts[0]
    ensures |parts| > 1 ==>
      && |parts[0]| + |sep| <= |Join(parts, sep)|
      && Join(parts, sep)[|parts[0]|..|parts[0]| + |sep|] == sep
  {
    if |parts| > 1 {
      var rest := Join(parts[1..], sep);
      assert Join(parts, sep) == parts[0] + (sep + rest);
      SliceAfter(parts[0], sep + rest, 0, |sep|);
    }
  }

  /** Joining two non-empty runs of parts puts one separator between their joins. */
  lemma {:induction false} JoinConcat(a: seq<string>, b: seq<string>, sep: string)
    requires |a| > 0 && |b| > 0
    ensures Join(a + b, sep) == Join(a, sep) + sep + Join(b, sep)
  {
    if |a| == 1 {
      assert a + b == [a[0]] + b;
      JoinCons(a[0], b, sep);
    } else {
      assert a + b == [a[0]] + (a[1..] + b);
      JoinCons(a[0], a[1..] + b, sep);
      JoinConcat(a[1..], b, sep);
    }
  }

  /** A slice of the second half of a concatenation is the same slice of that half. */
  lemma SliceAfter(a: string, b: string, i: nat, j: nat)
    requires i <= j <= |b|
    ensures (a + b)[|a| + i..|a| + j] == b[i..j]
  {
  }

  /** A character absent from every part and from the separator is absent from the join. */
  lemma {:induction false} JoinExcludes(parts: seq<string>, sep: string, c: char)
    requires c !in sep
    requires forall k :: 0 <= k < |parts| ==> c !in parts[k]
    ensures c !in Join(parts, sep)
  {
    if |parts| > 1 {
      JoinExcludes(parts[1..], sep, c);
    }
  }

  /** `pat` occurs in `s` starting at index `j`. */
  predicate OccursAt(s: string, pat: string, j: nat)
  {
    j + |pat| <= |s| && s[j..j + |pat|] == pat
  }

  /** `s.indexOf(pat, k)`: the first index from `k` on at which `pat` occurs, or None (JavaScript -1). */
  function IndexFrom(s: string, pat: string, k: nat): (r: Option<nat>)
    requires |pat| > 0
    ensures r.Some? ==> k <= r.value && r.value + |pat| <= |s|
    decreases |s| - k
  {
    if |s| < k + |pat| then None
    else if OccursAt(s, pat, k) then Some(k)
    else IndexFrom(s, pat, k + 1)
  }

  /** `s.indexOf(pat)`: the search from the start. */
  function IndexOf(s: string, pat: string): (r: Option<nat>)
    requires |pat| > 0
    ensures r.Some? ==> r.value + |pat| <= |s|
  {
    IndexFrom(s, pat, 0)
  }

  /** What `indexOf(pat, k)` finds: an occurrence with none between `k` and it, and None only when there is none from `k` on. */
  lemma {:induction false} IndexFromSpec(s: string, pat: string, k: nat)
    requires |pat| > 0
    ensures IndexFrom(s, pat, k).Some? ==> OccursAt(s, pat, IndexFrom(s, pat, k).value)
    ensures IndexFrom(s, pat, k).Some? ==>
      forall j: nat :: k <= j < IndexFrom(s, pat, k).value ==> !OccursAt(s, pat, j)
    ensures IndexFrom(s, pat, k).None? ==> forall j: nat :: k <= j ==> !OccursAt(s, pat, j)
    decreases |s| - k
  {
    if |s| >= k + |pat| && !OccursAt(s, pat, k) {
      IndexFromSpec(s, pat, k + 1);
    }
  }

  /** What `indexOf` finds: an occurrence with none before it, and None only when there is none at all. */
  lemma IndexOfSpec(s: string, pat: string)
    requires |pat| > 0
    ensures IndexOf(s, pat).Some? ==> OccursAt(s, pat, IndexOf(s, pat).value)
    ensures IndexOf(s, pat).Some? ==> forall j: nat :: j < IndexOf(s, pat).value ==> !OccursAt(s, pat, j)
    ensures IndexOf(s, pat).None? ==> forall j: nat :: !OccursAt(s, pat, j)
  {
    IndexFromSpec(s, pat, 0);
  }

  /** An occurrence with none between `k` and it is the one `indexOf(pat, k)` finds. */
  lemma {:induction false} IndexFromIs(s: string, pat: string, k: nat, i: nat)
    requires |pat| > 0 && k <= i && OccursAt(s, pat, i)
    requires forall j: nat :: k <= j < i ==> !OccursAt(s, pat, j)
    ensures IndexFrom(s, pat, k) == Some(i)
    decreases i - k
  {
    if k < i {
      assert !OccursAt(s, pat, k);
      IndexFromIs(s, pat, k + 1, i);
    }
  }

  /** With no occurrence from `k` on, `indexOf(pat, k)` finds nothing. */
  lemma {:induction false} IndexFromNone(s: string, pat: string, k: nat)
    requires |pat| > 0
    requires forall j: nat :: k <= j ==> !OccursAt(s, pat, j)
    ensures IndexFrom(s, pat, k) == None
    decreases |s| - k
  {
    if |s| >= k + |pat| {
      assert !OccursAt(s, pat, k);
      IndexFromNone(s, pat, k + 1);
    }
  }

  /** An occurrence with none before it is the one `indexOf` finds. */
  lemma IndexOfIs(s: string, pat: string, i: nat)
    requires |pat| > 0 && OccursAt(s, pat, i)
    requires forall j: nat :: j < i ==> !OccursAt(s, pat, j)
    ensures IndexOf(s, pat) == Some(i)
  {
    IndexFromIs(s, pat, 0, i);
  }

  /**
   * `s.split(sep)` for a non-empty separator: the text before the first
   * occurrence, then the split of what follows that occurrence.
   */
  function Split(s: string, sep: string): (parts: seq<string>)
    requires |sep| > 0
    ensures |parts| > 0
    decreases |s|
  {
    match IndexOf(s, sep)
    case None => [s]
    case Some(i) => [s[..i]] + Split(s[i + |sep|..], sep)
  }

  /** Number of non-overlapping occurrences of `pat` from index `k` on, counted by a left-to-right scan. */
  function OccurrencesFrom(s: string, pat: string, k: nat): nat
    requires |pat| > 0
    decreases |s| - k
  {
    if |s| < k + |pat| then 0
    else if OccursAt(s, pat, k) then 1 + OccurrencesFrom(s, pat, k + |pat|)
    else OccurrencesFrom(s, pat, k + 1)
  }

  /** Number of non-overlapping occurrences of `pat` in `s`. */
  function Occurrences(s: string, pat: string): nat
    requires |pat| > 0
  {
    OccurrencesFrom(s, pat, 0)
  }

  /** The scan from `k` counts the first occurrence `indexOf(pat, k)` finds, then goes on right after it. */
  lemma {:induction false} OccurrencesAfterFirst(s: string, pat: string, k: nat)
    requires |pat| > 0
    ensures IndexFrom(s, pat, k).None? ==> OccurrencesFrom(s, pat, k) == 0
    ensures IndexFrom(s, pat, k).Some? ==>
      OccurrencesFrom(s, pat, k) == 1 + OccurrencesFrom(s, pat, IndexFrom(s, pat, k).value + |pat|)
    decreases |s| - k
  {
    if |s| >= k + |pat| && !OccursAt(s, pat, k) {
      OccurrencesAfterFirst(s, pat, k + 1);
    }
  }

  /** Scanning `s` from `m + k` is scanning `s[m..]` from `k`. */
  lemma {:induction false} OccurrencesShift(s: string, pat: string, m: nat, k: nat)
    requires |pat| > 0 && m <= |s|
    ensures OccurrencesFrom(s, pat, m + k) == OccurrencesFrom(s[m..], pat, k)
    decreases |s| - (m + k)
  {
    if |s| >= m + k + |pat| {
      assert s[m..][k..k + |pat|] == s[m + k..m + k + |pat|];
      OccurrencesShift(s, pat, m, k + 1);
      OccurrencesShift(s, pat, m, k + |pat|);
    }
  }

  /** When the first occurrence of `sep` follows `pre`, the split is `pre` and then the split of the rest. */
  lemma SplitAfterFirst(s: string, sep: string, pre: string, post: string)
    requires |sep| > 0 && s == pre + sep + post && IndexOf(s, sep) == Some(|pre|)
    ensures Split(s, sep) == [pre] + Split(post, sep)
  {
    assert s[..|pre|] == pre;
    assert s[|pre| + |sep|..] == post;
  }

  /** `s.split(sep)` has one more part than there are non-overlapping occurrences of `sep`. */
  lemma {:induction false} SplitCount(s: string, sep: string)
    requires |sep| > 0
    ensures |Split(s, sep)| == Occurrences(s, sep) + 1
    decreases |s|
  {
    match IndexOf(s, sep)
    case None =>
      OccurrencesAfterFirst(s, sep, 0);
    case Some(i) =>
      SplitCount(s[i + |sep|..], sep);
      SplitCountStep(s, sep, i);
  }

  /** One step of `SplitCount`: the first occurrence adds one part and one to the count. */
  lemma SplitCountStep(s: string, sep: string, i: nat)
    requires |sep| > 0 && IndexOf(s, sep) == Some(i)
    requires |Split(s[i + |sep|..], sep)| == Occurrences(s[i + |sep|..], sep) + 1
    ensures |Split(s, sep)| == Occurrences(s, sep) + 1
  {
    OccurrencesAfterFirst(s, sep, 0);
    OccurrencesShift(s, sep, i + |sep|, 0);
  }

  /** Joining the parts of a split with the same separator gives back the text. */
  lemma {:induction false} JoinSplit(s: string, sep: string)
    requires |sep| > 0
    ensures Join(Split(s, sep), sep) == s
    decreases |s|
  {
    match IndexOf(s, sep)
    case None =>
    case Some(i) =>
      var rest := s[i + |sep|..];
      JoinSplit(rest, sep);
      var tail := Split(rest, sep);
      assert Split(s, sep) == [s[..i]] + tail;
      JoinCons(s[..i], tail, sep);
      IndexOfSpec(s, sep);
      assert s[i..i + |sep|] == sep;
      assert s == s[..i] + s[i..i + |sep|] + rest;
  }

  /** No part of a split contains the separator. */
  lemma {:induction false} SplitPartsFree(s: string, sep: string)
    requires |sep| > 0
    ensures forall k: nat, j: nat :: k < |Split(s, sep)| ==> !OccursAt(Split(s, sep)[k], sep, j)
    decreases |s|
  {
    IndexOfSpec(s, sep);
    match IndexOf(s, sep)
    case None =>
    case Some(i) =>
      var rest := s[i + |sep|..];
      SplitPartsFree(rest, sep);
      forall j: nat
        ensures !OccursAt(s[..i], sep, j)
      {
        if OccursAt(s[..i], sep, j) {
          assert s[..i][j..j + |sep|] == s[j..j + |sep|];
          assert OccursAt(s, sep, j);
          assert false;
        }
      }
  }

  /** A text free of the separator's first character holds no occurrence of it. */
  lemma IndexOfAbsent(p: string, sep: string)
    requires |sep| > 0 && sep[0] !in p
    ensures IndexOf(p, sep) == None
  {
    forall j: nat
      ensures !OccursAt(p, sep, j)
    {
      if j + |sep| <= |p| {
        assert p[j..j + |sep|][0] == p[j];
      }
    }
    IndexFromNone(p, sep, 0);
  }

  /** In `p + sep + rest`, with `p` free of the separator's first character, the first occurrence is right after `p`. */
  lemma IndexOfAfterPart(p: string, rest: string, sep: string)
    requires |sep| > 0 && sep[0] !in p
    ensures IndexOf(p + sep + rest, sep) == Some(|p|)
  {
    var x := p + sep + rest;
    assert x[|p|..|p| + |sep|] == sep;
    forall j: nat | j < |p|
      ensures !OccursAt(x, sep, j)
    {
      if j + |sep| <= |x| {
        assert x[j..j + |sep|][0] == p[j];
      }
    }
    IndexOfIs(x, sep, |p|);
  }

  /** The first occurrence in `a` stays the first occurrence once text is appended to `a`. */
  lemma IndexOfPrefix(a: string, b: string, pat: string)
    requires |pat| > 0 && IndexOf(a, pat).Some?
    ensures IndexOf(a + b, pat) == IndexOf(a, pat)
  {
    var i := IndexOf(a, pat).value;
    IndexOfSpec(a, pat);
    assert (a + b)[i..i + |pat|] == a[i..i + |pat|];
    forall j: nat | j < i
      ensures !OccursAt(a + b, pat, j)
    {
      assert !OccursAt(a, pat, j);
      assert (a + b)[j..j + |pat|] == a[j..j + |pat|];
    }
    IndexOfIs(a + b, pat, i);
  }

  /** A text with no occurrence of a one-character separator does not contain that character. */
  lemma AbsentChar(x: string, sep: string)
    requires |sep| == 1 && IndexOf(x, sep).None?
    ensures sep[0] !in x
  {
    IndexOfSpec(x, sep);
    forall k | 0 <= k < |x|
      ensures x[k] != sep[0]
    {
      assert !OccursAt(x, sep, k);
      assert x[k..k + 1] == [x[k]];
    }
  }

  /** The split of `x + sep + y` when `x` holds no separator: `x`, then the split of `y`. */
  lemma SplitAtFirstSeparator(x: string, y: string, sep: string)
    requires |sep| == 1 && IndexOf(x, sep).None?
    ensures Split(x + sep + y, sep) == [x] + Split(y, sep)
  {
    AbsentChar(x, sep);
    IndexOfAfterPart(x, y, sep);
    SplitAfterFirst(x + sep + y, sep, x, y);
  }

  /** A split whose first occurrence is at `i`: the text before it, then the split of what follows the occurrence. */
  lemma SplitAtFound(s: string, sep: string, i: nat)
    requires |sep| > 0 && IndexOf(s, sep) == Some(i)
    ensures Split(s, sep) == [s[..i]] + Split(s[i + |sep|..], sep)
  {
  }

  /** When `x` holds a separator, the split of `x + sep + y` starts with the text before it. */
  lemma SplitAtEarlierSeparator(x: string, y: string, sep: string, i: nat)
    requires |sep| == 1 && IndexOf(x, sep) == Some(i)
    ensures Split(x + sep + y, sep) == [x[..i]] + Split(x[i + 1..] + sep + y, sep)
  {
    var pre, rest := x[..i], x[i + 1..];
    IndexOfSpec(x, sep);
    AroundOccurrence(x, sep, i);
    IndexOfPrefix(x, sep + y, sep);
    Regroup(x, pre, rest, sep, y);
    SplitAfterFirst(x + sep + y, sep, pre, rest + sep + y);
  }

  /** Text around an occurrence of `sep` at `i`: what precedes it, `sep`, and what follows it. */
  lemma AroundOccurrence(x: string, sep: string, i: nat)
    requires OccursAt(x, sep, i)
    ensures x == x[..i] + sep + x[i + |sep|..]
  {
  }

  /** Regrouping `x + sep + y` when `x` is `pre + sep + rest`. */
  lemma Regroup(x: string, pre: string, rest: string, sep: string, y: string)
    requires x == pre + sep + rest
    ensures x + (sep + y) == x + sep + y
    ensures x + sep + y == pre + sep + (rest + sep + y)
  {
  }

  /** For a one-character separator, the split of `x + sep + y` is the split of `x` followed by the split of `y`. */
  lemma {:induction false} SplitAtSeparator(x: string, y: string, sep: string)
    requires |sep| == 1
    ensures Split(x + sep + y, sep) == Split(x, sep) + Split(y, sep)
    decreases |x|, 1
  {
    match IndexOf(x, sep)
    case Some(i) =>
      SplitAtSeparatorFrom(x, y, sep, i);
    case None =>
      SplitAtFirstSeparator(x, y, sep);
      assert Split(x, sep) == [x];
  }

  /** The case of `SplitAtSeparator` where `x` itself holds a separator, first at `i`. */
  lemma {:induction false} SplitAtSeparatorFrom(x: string, y: string, sep: string, i: nat)
    requires |sep| == 1 && IndexOf(x, sep) == Some(i)
    ensures Split(x + sep + y, sep) == Split(x, sep) + Split(y, sep)
    decreases |x|, 0
  {
    var pre, rest := x[..i], x[i + 1..];
    var left, right := Split(rest, sep), Split(y, sep);
    assert Split(x + sep + y, sep) == [pre] + (left + right) by {
      SplitAtEarlierSeparator(x, y, sep, i);
      SplitAtSeparator(rest, y, sep);
    }
    SplitAtFound(x, sep, i);
    assert [pre] + (left + right) == ([pre] + left) + right;
  }

  /**
   * Splitting a join gives back the parts when no part contains the
   * separator's first character (so no occurrence can straddle a boundary).
   */
  lemma {:induction false} SplitJoin(parts: seq<string>, sep: string)
    requires |sep| > 0 && |parts| > 0
    requires forall k :: 0 <= k < |parts| ==> sep[0] !in parts[k]
    ensures Split(Join(parts, sep), sep) == parts
  {
    if |parts| == 1 {
      IndexOfAbsent(parts[0], sep);
    } else {
      var rest := Join(parts[1..], sep);
      IndexOfAfterPart(parts[0], rest, sep);
      var x := parts[0] + sep + rest;
      assert Join(parts, sep) == x;
      SplitAfterFirst(x, sep, parts[0], rest);
      SplitJoin(parts[1..], sep);
      assert parts == [parts[0]] + parts[1..];
    }
  }

  /**
   * The characters `String.prototype.trim` removes: the WhiteSpace and
   * LineTerminator code points of section 12.2 and 12.3 of ECMA-262.
   */
  predicate IsWhitespace(c: char)
  {
    || c == '\t' || c == '\n' || c == '\U{B}' || c == '\U{C}' || c == '\r' || c == ' '
    || c == '\U{A0}' || c == '\U{1680}' || ('\U{2000}' <= c <= '\U{200A}')
    || c == '\U{2028}' || c == '\U{2029}' || c == '\U{202F}' || c == '\U{205F}'
    || c == '\U{3000}' || c == '\U{FEFF}'
  }

  /** Drops leading whitespace: the longest suffix of `s` not starting with whitespace. */
  function TrimStart(s: string): (r: string)
    ensures |r| <= |s| && r == s[|s| - |r|..]
    ensures forall k :: 0 <= k < |s| - |r| ==> IsWhitespace(s[k])
    ensures |r| > 0 ==> !IsWhitespace(r[0])
    decreases |s|
  {
    if |s| > 0 && IsWhitespace(s[0]) then TrimStart(s[1..]) else s
  }

  /** Drops trailing whitespace: the longest prefix of `s` not ending with whitespace. */
  function TrimEnd(s: string): (r: string)
    ensures |r| <= |s| && r == s[..|r|]
    ensures forall k :: |r| <= k < |s| ==> IsWhitespace(s[k])
    ensures |r| > 0 ==> !IsWhitespace(r[|r| - 1])
    decreases |s|
  {
    if |s| > 0 && IsWhitespace(s[|s| - 1]) then TrimEnd(s[..|s| - 1]) else s
  }

  /** `s.trim()`: neither end of the result is whitespace, and it is empty exactly when `s` is all whitespace. */
  function Trim(s: string): (r: string)
    ensures |r| > 0 ==> !IsWhitespace(r[0]) && !IsWhitespace(r[|r| - 1])
    ensures r == "" <==> forall k :: 0 <= k < |s| ==> IsWhitespace(s[k])
  {
    TrimEnd(TrimStart(s))
  }

  /** The trimmed text is the slice `s[lo..hi]`, and everything outside that slice is whitespace. */
  lemma TrimIsSlice(s: string) returns (lo: nat, hi: nat)
    ensures lo <= hi <= |s| && Trim(s) == s[lo..hi]
    ensures forall k :: 0 <= k < lo ==> IsWhitespace(s[k])
    ensures forall k :: hi <= k < |s| ==> IsWhitespace(s[k])
  {
    var t := TrimStart(s);
    lo := |s| - |t|;
    hi := lo + |Trim(s)|;
    assert t == s[lo..];
    forall k | hi <= k < |s|
      ensures IsWhitespace(s[k])
    {
      assert s[k] == t[k - lo];
    }
  }

  /** Trimming twice is trimming once. */
  lemma TrimIdempotent(s: string)
    ensures Trim(Trim(s)) == Trim(s)
  {
    var r := Trim(s);
    assert TrimStart(r) == r;
    assert TrimEnd(r) == r;
  }

  /** Whitespace appended to a text with no whitespace at either end is removed again by trimming. */
  lemma TrimPadded(text: string, pad: string)
    requires |text| > 0 && !IsWhitespace(text[0]) && !IsWhitespace(text[|text| - 1])
    requires forall k :: 0 <= k < |pad| ==> IsWhitespace(pad[k])
    ensures Trim(text + pad) == text
  {
    var s := text + pad;
    assert TrimStart(s) == s;
    var r := TrimEnd(s);
    assert !IsWhitespace(s[|text| - 1]);
    assert forall k :: |text| <= k < |s| ==> IsWhitespace(s[k]);
    assert |r| == |text|;
    assert s[..|text|] == text;
  }
}
