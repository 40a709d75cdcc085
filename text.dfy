/** String primitives the Python core relies on: str.strip(), str.split(sep),
    the `in` substring test and the code-point order used by list.sort(). */
module Text {

  /** The characters for which Python's str.isspace() holds; `\s` in a str
      pattern matches the same set. */
  predicate IsSpace(c: char) {
    || ('\t' <= c <= '\r')            // \t \n \v \f \r
    || ('\U{1c}' <= c <= '\U{1f}')    // file, group, record and unit separators
    || c == ' ' || c == '\U{85}' || c == '\U{a0}' || c == '\U{1680}'
    || ('\U{2000}' <= c <= '\U{200a}')
    || c == '\U{2028}' || c == '\U{2029}' || c == '\U{202f}' || c == '\U{205f}'
    || c == '\U{3000}'                // ideographic space
  }

  predicate AllSpace(s: string) {
    forall i :: 0 <= i < |s| ==> IsSpace(s[i])
  }

  /** Every character from index i up to, not including, j is whitespace. */
  predicate SpaceBetween(s: string, i: nat, j: nat) {
    forall k :: i <= k < j ==> k < |s| && IsSpace(s[k])
  }

  /** Scanning forward from i, no further than hi: the first index that does
      not hold whitespace, or hi when there is none. */
  function SkipSpaces(s: string, i: nat, hi: nat): (j: nat)
    requires i <= hi <= |s|
    ensures i <= j <= hi
    ensures SpaceBetween(s, i, j)
    ensures j == hi || !IsSpace(s[j])
    decreases hi - i
  {
    if i < hi && IsSpace(s[i]) then SkipSpaces(s, i + 1, hi) else i
  }

  /** Python's str.strip() with no argument: whitespace is dropped from the
      front, then from the back, one character at a time. */
  function Strip(s: string): (r: string)
    ensures |r| <= |s|
    ensures r == [] || (!IsSpace(r[0]) && !IsSpace(r[|r| - 1]))
    ensures r == [] <==> AllSpace(s)
    decreases |s|
  {
    if s != [] && IsSpace(s[0]) then
      assert AllSpace(s) <==> AllSpace(s[1..]) by {
        assert forall i :: 0 < i < |s| ==> s[i] == s[1..][i - 1];
      }
      Strip(s[1..])
    else if s != [] && IsSpace(s[|s| - 1]) then
      assert AllSpace(s) <==> AllSpace(s[..|s| - 1]) by {
        assert forall i :: 0 <= i < |s| - 1 ==> s[i] == s[..|s| - 1][i];
      }
      Strip(s[..|s| - 1])
    else s
  }

  /** s[lo..hi].strip(), computed on s itself. */
  function StripRange(s: string, lo: nat, hi: nat): string
    requires lo <= hi <= |s|
    decreases hi - lo
  {
    if lo < hi && IsSpace(s[lo]) then StripRange(s, lo + 1, hi)
    else if lo < hi && IsSpace(s[hi - 1]) then StripRange(s, lo, hi - 1)
    else s[lo..hi]
  }

  /** The three ways Strip treats a slice of s, one per branch. */
  lemma StripSliceFront(s: string, lo: nat, hi: nat)
    requires lo < hi <= |s| && IsSpace(s[lo])
    ensures Strip(s[lo..hi]) == Strip(s[lo + 1..hi])
  {
    var t := s[lo..hi];
    assert t[0] == s[lo] && t[1..] == s[lo + 1..hi];
  }

  lemma StripSliceBack(s: string, lo: nat, hi: nat)
    requires lo < hi <= |s| && !IsSpace(s[lo]) && IsSpace(s[hi - 1])
    ensures Strip(s[lo..hi]) == Strip(s[lo..hi - 1])
  {
    var t := s[lo..hi];
    assert t[0] == s[lo] && t[|t| - 1] == s[hi - 1] && t[..|t| - 1] == s[lo..hi - 1];
  }

  lemma StripSliceKept(s: string, lo: nat, hi: nat)
    requires lo <= hi <= |s|
    requires lo == hi || (!IsSpace(s[lo]) && !IsSpace(s[hi - 1]))
    ensures Strip(s[lo..hi]) == s[lo..hi]
  {
    var t := s[lo..hi];
    assert t == [] || (t[0] == s[lo] && t[|t| - 1] == s[hi - 1]);
  }

  /** StripRange strips the slice it is given. */
  lemma {:induction false} StripRangeSlice(s: string, lo: nat, hi: nat)
    requires lo <= hi <= |s|
    ensures StripRange(s, lo, hi) == Strip(s[lo..hi])
    decreases hi - lo
  {
    if lo < hi && IsSpace(s[lo]) {
      StripRangeSlice(s, lo + 1, hi);
      StripSliceFront(s, lo, hi);
    } else if lo < hi && IsSpace(s[hi - 1]) {
      StripRangeSlice(s, lo, hi - 1);
      StripSliceBack(s, lo, hi);
    } else {
      StripSliceKept(s, lo, hi);
    }
  }

  lemma StripRangePrefix(s: string, hi: nat)
    requires hi <= |s|
    ensures StripRange(s, 0, hi) == Strip(s[..hi])
  {
    StripRangeSlice(s, 0, hi);
    assert s[0..hi] == s[..hi];
  }

  lemma StripRangeSuffix(s: string, lo: nat)
    requires lo <= |s|
    ensures StripRange(s, lo, |s|) == Strip(s[lo..])
  {
    StripRangeSlice(s, lo, |s|);
    assert s[lo..|s|] == s[lo..];
  }

  /** What Strip means: a string that neither starts nor ends with whitespace,
      with nothing but whitespace around it, strips to itself. */
  lemma {:induction false} StripUnique(w1: string, r: string, w2: string)
    requires AllSpace(w1) && AllSpace(w2)
    requires r == [] || (!IsSpace(r[0]) && !IsSpace(r[|r| - 1]))
    ensures Strip(w1 + r + w2) == r
    decreases |w1| + |w2|
  {
    var s := w1 + r + w2;
    if w1 != [] {
      assert Strip(s) == Strip(w1[1..] + r + w2) by {
        assert s[0] == w1[0] && s[1..] == w1[1..] + r + w2;
      }
      StripUnique(w1[1..], r, w2);
    } else if r == [] && w2 != [] {
      assert Strip(s) == Strip([] + r + w2[1..]) by {
        assert s == w2 && s[0] == w2[0] && s[1..] == [] + r + w2[1..];
      }
      StripUnique([], r, w2[1..]);
    } else if w2 != [] {
      assert Strip(s) == Strip([] + r + w2[..|w2| - 1]) by {
        assert s[0] == r[0] && s[|s| - 1] == w2[|w2| - 1];
        assert s[..|s| - 1] == [] + r + w2[..|w2| - 1];
      }
      StripUnique([], r, w2[..|w2| - 1]);
    } else {
      assert s == r;
    }
  }

  /** Leading whitespace does not change what Strip keeps. */
  lemma {:induction false} StripLeadingSpaces(w: string, s: string)
    requires AllSpace(w)
    ensures Strip(w + s) == Strip(s)
    decreases |w|
  {
    if w != [] {
      assert (w + s)[0] == w[0] && (w + s)[1..] == w[1..] + s;
      StripLeadingSpaces(w[1..], s);
    } else {
      assert w + s == s;
    }
  }

  /** Python's `s.strip().strip() == s.strip()`. */
  lemma StripIdempotent(s: string)
    ensures Strip(Strip(s)) == Strip(s)
  {
  }

  /** Python's str.split(sep) for a one-character separator: the pieces
      between the occurrences of sep, always at least one. */
  function Split(s: string, sep: char): (parts: seq<string>)
    ensures |parts| >= 1
    ensures forall k :: 0 <= k < |parts| ==> sep !in parts[k]
    decreases |s|
  {
    if s == [] then [[]]
    else
      var rest := Split(s[1..], sep);
      if s[0] == sep then [[]] + rest
      else [[s[0]] + rest[0]] + rest[1..]
  }

  /** There is one more piece than there are separators. */
  lemma {:induction false} SplitCount(s: string, sep: char)
    ensures |Split(s, sep)| == 1 + multiset(s)[sep]
    decreases |s|
  {
    if s != [] {
      SplitCount(s[1..], sep);
      assert s == [s[0]] + s[1..];
    }
  }

  /** Python's sep.join(parts), the inverse of Split. */
  function Join(parts: seq<string>, sep: char): string
    decreases |parts|
  {
    if parts == [] then []
    else if |parts| == 1 then parts[0]
    else parts[0] + [sep] + Join(parts[1..], sep)
  }

  /** Joining the pieces of a split gives the original string back. */
  lemma {:induction false} JoinSplit(s: string, sep: char)
    ensures Join(Split(s, sep), sep) == s
    decreases |s|
  {
    if s != [] {
      JoinSplit(s[1..], sep);
      var rest := Split(s[1..], sep);
      if s[0] != sep {
        if |rest| == 1 {
          assert s == [s[0]] + rest[0];
        } else {
          assert ([[s[0]] + rest[0]] + rest[1..])[1..] == rest[1..];
          assert Join(rest, sep) == rest[0] + [sep] + Join(rest[1..], sep);
          assert s == [s[0]] + s[1..];
        }
      } else {
        assert ([[]] + rest)[1..] == rest;
        assert s == [s[0]] + s[1..];
      }
    }
  }

  lemma {:induction false} SplitWithout(s: string, sep: char)
    requires sep !in s
    ensures Split(s, sep) == [s]
    decreases |s|
  {
    if s != [] {
      SplitWithout(s[1..], sep);
      assert s == [s[0]] + s[1..];
    }
  }

  lemma {:induction false} SplitAtSeparator(a: string, sep: char, b: string)
    requires sep !in a
    ensures Split(a + [sep] + b, sep) == [a] + Split(b, sep)
    decreases |a|
  {
    if a == [] {
      assert ([] + [sep] + b)[1..] == b;
    } else {
      assert (a + [sep] + b)[1..] == a[1..] + [sep] + b;
      SplitAtSeparator(a[1..], sep, b);
      assert a == [a[0]] + a[1..];
    }
  }

  /** Splitting a join of separator-free pieces gives the pieces back. */
  lemma {:induction false} SplitJoin(parts: seq<string>, sep: char)
    requires |parts| >= 1
    requires forall k :: 0 <= k < |parts| ==> sep !in parts[k]
    ensures Split(Join(parts, sep), sep) == parts
    decreases |parts|
  {
    if |parts| == 1 {
      SplitWithout(parts[0], sep);
    } else {
      SplitJoin(parts[1..], sep);
      SplitAtSeparator(parts[0], sep, Join(parts[1..], sep));
      assert parts == [parts[0]] + parts[1..];
    }
  }

  /** Index of the first c in s, or |s| when there is none (str.find
      with |s| standing for "absent"). */
  function IndexOf(s: string, c: char): (i: nat)
    ensures i <= |s| && c !in s[..i]
    ensures i == |s| || s[i] == c
    decreases |s|
  {
    if s == [] then 0
    else if s[0] == c then 0
    else
      var i := IndexOf(s[1..], c);
      assert s[..i + 1] == [s[0]] + s[1..][..i];
      i + 1
  }

  /** posixpath.join(dir, name): a name that starts with "/" replaces dir,
      otherwise a "/" is put between them unless dir is empty or already
      ends with one. */
  function JoinPath(dir: string, name: string): (path: string)
    ensures |path| >= |name| && path[|path| - |name|..] == name
    ensures (name == [] || name[0] != '/') ==> |path| >= |dir| && path[..|dir|] == dir
  {
    if name != [] && name[0] == '/' then name
    else if dir == [] || dir[|dir| - 1] == '/' then dir + name
    else dir + "/" + name
  }

  /** t occurs in s starting at index p. */
  predicate OccursAt(s: string, t: string, p: nat) {
    p + |t| <= |s| && s[p..p + |t|] == t
  }

  /** Python's `t in s`. */
  predicate Contains(s: string, t: string) {
    exists p: nat :: p <= |s| && OccursAt(s, t, p)
  }

  /** Python's str ordering: code point by code point, a proper prefix first. */
  predicate LexLe(a: string, b: string)
    decreases |a|
  {
    a == [] || (b != [] && (a[0] < b[0] || (a[0] == b[0] && LexLe(a[1..], b[1..]))))
  }

  predicate LexLt(a: string, b: string) {
    LexLe(a, b) && a != b
  }

  lemma {:induction false} LexLeTotal(a: string, b: string)
    ensures LexLe(a, b) || LexLe(b, a)
    decreases |a|
  {
    if a != [] && b != [] && a[0] == b[0] {
      LexLeTotal(a[1..], b[1..]);
    }
  }

  lemma {:induction false} LexLeAntisymmetric(a: string, b: string)
    requires LexLe(a, b) && LexLe(b, a)
    ensures a == b
    decreases |a|
  {
    if a != [] {
      LexLeAntisymmetric(a[1..], b[1..]);
      assert a == [a[0]] + a[1..] && b == [b[0]] + b[1..];
    }
  }

  lemma {:induction false} LexLeTransitive(a: string, b: string, c: string)
    requires LexLe(a, b) && LexLe(b, c)
    ensures LexLe(a, c)
    decreases |a|
  {
    if a != [] && a[0] == b[0] && b[0] == c[0] {
      LexLeTransitive(a[1..], b[1..], c[1..]);
    }
  }

  /** Every adjacent pair is in order; with LexLeTransitive this gives every pair. */
  predicate Sorted(s: seq<string>) {
    forall k :: 0 < k < |s| ==> LexLe(s[k - 1], s[k])
  }

  lemma {:induction false} SortedPairs(s: seq<string>, i: nat, j: nat)
    requires Sorted(s) && i <= j < |s|
    ensures LexLe(s[i], s[j])
    decreases j - i
  {
    if i == j {
      LexLeReflexive(s[i]);
    } else {
      SortedPairs(s, i, j - 1);
      LexLeTransitive(s[i], s[j - 1], s[j]);
    }
  }

  lemma {:induction false} LexLeReflexive(a: string)
    ensures LexLe(a, a)
    decreases |a|
  {
    if a != [] {
      LexLeReflexive(a[1..]);
    }
  }

  function Insert(x: string, s: seq<string>): (r: seq<string>)
    requires Sorted(s)
    ensures Sorted(r) && multiset(r) == multiset(s) + multiset{x}
    ensures |r| == |s| + 1
    ensures r[0] == x || (s != [] && r[0] == s[0])
    decreases |s|
  {
    if s == [] || LexLe(x, s[0]) then [x] + s
    else
      LexLeTotal(x, s[0]);
      var rest := Insert(x, s[1..]);
      assert s == [s[0]] + s[1..];
      [s[0]] + rest
  }

  /** Python's list.sort() on strings (an insertion sort: the order of the
      result is all that matters, since equal strings are identical). */
  function Sort(s: seq<string>): (r: seq<string>)
    ensures Sorted(r) && multiset(r) == multiset(s)
    decreases |s|
  {
    if s == [] then []
    else
      assert s == [s[0]] + s[1..];
      Insert(s[0], Sort(s[1..]))
  }

  lemma SortedTail(a: seq<string>)
    requires Sorted(a) && a != []
    ensures Sorted(a[1..])
  {
    forall k | 0 < k < |a| - 1 ensures LexLe(a[1..][k - 1], a[1..][k]) {
      assert a[1..][k - 1] == a[k] && a[1..][k] == a[k + 1];
    }
  }

  lemma MultisetTail(a: seq<string>, b: seq<string>)
    requires a != [] && b != [] && a[0] == b[0] && multiset(a) == multiset(b)
    ensures multiset(a[1..]) == multiset(b[1..])
  {
    assert a == [a[0]] + a[1..] && b == [b[0]] + b[1..];
    assert multiset(a[1..]) == multiset(a) - multiset{a[0]};
    assert multiset(b[1..]) == multiset(b) - multiset{b[0]};
  }

  /** Two sorted lists with the same elements start with the same one. */
  lemma SortedHeads(a: seq<string>, b: seq<string>)
    requires Sorted(a) && Sorted(b) && multiset(a) == multiset(b) && a != []
    ensures b != [] && a[0] == b[0]
  {
    assert a[0] in multiset(b);
    var j :| 0 <= j < |b| && b[j] == a[0];
    assert b[0] in multiset(a);
    var i :| 0 <= i < |a| && a[i] == b[0];
    SortedPairs(a, 0, i);
    SortedPairs(b, 0, j);
    LexLeAntisymmetric(a[0], b[0]);
  }

  /** A sorted list is determined by its elements. */
  lemma {:induction false} SortedUnique(a: seq<string>, b: seq<string>)
    requires Sorted(a) && Sorted(b) && multiset(a) == multiset(b)
    ensures a == b
    decreases |a|
  {
    if a == [] {
      assert |b| == |multiset(b)| == 0;
    } else {
      SortedHeads(a, b);
      SortedTail(a);
      SortedTail(b);
      MultisetTail(a, b);
      SortedUnique(a[1..], b[1..]);
      assert a == [a[0]] + a[1..] && b == [b[0]] + b[1..];
    }
  }

  /** Sorting a list that is already sorted leaves it as it is. */
  lemma SortSorted(s: seq<string>)
    requires Sorted(s)
    ensures Sort(s) == s
  {
    SortedUnique(Sort(s), s);
  }
}
