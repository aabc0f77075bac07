/** The parts of Go's `strings` and `bytes` packages that the three codecs
    call: Index, Split, Replace and TrimSpace. A Go string and a Go byte
    slice are both sequences, so the searching and splitting functions are
    written once over an element type `T` and serve `string` (sequences of
    `char`) and byte sequences alike. */
module GoStrings {

  /** `sep` occurs in `s` starting at position `i`. */
  predicate OccursAt<T(==)>(s: seq<T>, sep: seq<T>, i: nat)
  {
    i + |sep| <= |s| && s[i..i + |sep|] == sep
  }

  /** `sep` occurs somewhere in `s`. */
  ghost predicate Contains<T>(s: seq<T>, sep: seq<T>)
  {
    exists i: nat :: OccursAt(s, sep, i)
  }

  lemma OccursAtTail<T>(s: seq<T>, sep: seq<T>)
    requires |s| > 0
    ensures forall j: nat :: OccursAt(s[1..], sep, j) <==> OccursAt(s, sep, j + 1)
    ensures forall j: nat :: 1 <= j ==> (OccursAt(s, sep, j) <==> OccursAt(s[1..], sep, j - 1))
  {
    forall j: nat
      ensures OccursAt(s[1..], sep, j) <==> OccursAt(s, sep, j + 1)
    {
      if j + 1 + |sep| <= |s| {
        var a, b := s[1..][j..j + |sep|], s[j + 1..j + 1 + |sep|];
        assert |a| == |b|;
        forall t | 0 <= t < |a| ensures a[t] == b[t] {}
      }
    }
  }

  /** strings.Index / bytes.Index: the first position at which `sep` occurs
      in `s`, or -1 when it does not occur (IndexSpec). */
  function Index<T(==)>(s: seq<T>, sep: seq<T>): (r: int)
    ensures -1 <= r
    ensures r >= 0 ==> r + |sep| <= |s|
    decreases |s|
  {
    if |s| < |sep| then -1
    else if s[..|sep|] == sep then 0
    else
      var k := Index(s[1..], sep);
      if k < 0 then -1 else k + 1
  }

  /** Index finds the first occurrence, and finds none exactly when `sep`
      does not occur. */
  lemma {:induction false} IndexSpec<T>(s: seq<T>, sep: seq<T>)
    ensures var r := Index(s, sep);
      && (r >= 0 ==> OccursAt(s, sep, r))
      && (r >= 0 ==> forall j: nat :: j < r ==> !OccursAt(s, sep, j))
      && (r == -1 <==> !Contains(s, sep))
    decreases |s|
  {
    var r := Index(s, sep);
    if |s| < |sep| {
      assert forall j: nat :: !OccursAt(s, sep, j);
    } else if s[..|sep|] == sep {
      assert s[0..|sep|] == s[..|sep|];
      assert OccursAt(s, sep, 0);
    } else {
      assert s[0..|sep|] == s[..|sep|];
      assert !OccursAt(s, sep, 0);
      IndexSpec(s[1..], sep);
      OccursAtTail(s, sep);
      var k := Index(s[1..], sep);
      if k >= 0 {
        assert OccursAt(s, sep, k + 1);
      } else {
        assert forall j: nat :: !OccursAt(s[1..], sep, j);
        forall j: nat ensures !OccursAt(s, sep, j) {
          if j >= 1 { assert !OccursAt(s[1..], sep, j - 1); }
        }
      }
    }
  }

  lemma IndexOccurs<T>(s: seq<T>, sep: seq<T>)
    ensures Index(s, sep) >= 0 ==> OccursAt(s, sep, Index(s, sep))
  {
    IndexSpec(s, sep);
  }

  /** With a one-element separator, Index is the position of the first
      occurrence of that element. */
  lemma {:induction false} IndexSingle<T>(s: seq<T>, c: T)
    ensures var k := Index(s, [c]);
      && (k == -1 <==> c !in s)
      && (k >= 0 ==> s[k] == c && c !in s[..k])
    decreases |s|
  {
    if |s| >= 1 && s[..1] != [c] {
      IndexSingle(s[1..], c);
      assert s[0] != c by { assert s[..1] == [s[0]]; }
      var k := Index(s[1..], [c]);
      if k >= 0 {
        assert s[..k + 1] == [s[0]] + s[1..][..k];
      } else {
        assert s == [s[0]] + s[1..];
      }
    } else if |s| >= 1 {
      assert s[0] == s[..1][0];
    }
  }

  /** The position of the first occurrence of an element is what Index
      returns for it. */
  lemma {:induction false} IndexSingleAt<T>(s: seq<T>, c: T, k: nat)
    requires k < |s| && s[k] == c && c !in s[..k]
    ensures Index(s, [c]) == k
    decreases k
  {
    if k == 0 {
      assert s[..1] == [c];
    } else {
      assert s[0] == s[..k][0];
      assert s[..1] != [c];
      assert s[1..][..k - 1] == s[1..k];
      IndexSingleAt(s[1..], c, k - 1);
    }
  }

  lemma OccursInPrefix<T>(s: seq<T>, sep: seq<T>, k: nat, j: nat)
    requires k <= |s| && OccursAt(s[..k], sep, j)
    ensures OccursAt(s, sep, j) && j + |sep| <= k
  {
    assert s[..k][j..j + |sep|] == s[j..j + |sep|];
  }

  /** strings.Split / bytes.Split for a non-empty separator: the pieces of
      `s` between successive, non-overlapping occurrences of `sep`, found
      from left to right. */
  function Split<T(==)>(s: seq<T>, sep: seq<T>): (parts: seq<seq<T>>)
    requires |sep| > 0
    ensures |parts| >= 1
    decreases |s|
  {
    var k := Index(s, sep);
    if k < 0 then [s] else [s[..k]] + Split(s[k + |sep|..], sep)
  }

  /** No piece of a split holds the separator. */
  lemma {:induction false} SplitPartsFree<T>(s: seq<T>, sep: seq<T>)
    requires |sep| > 0
    ensures forall i :: 0 <= i < |Split(s, sep)| ==> !Contains(Split(s, sep)[i], sep)
    decreases |s|
  {
    IndexSpec(s, sep);
    var k := Index(s, sep);
    if k >= 0 {
      SplitPartsFree(s[k + |sep|..], sep);
      forall j: nat | OccursAt(s[..k], sep, j) ensures false {
        OccursInPrefix(s, sep, k, j);
      }
    }
  }

  /** strings.Join: the pieces with `sep` between neighbours. */
  function Join<T>(parts: seq<seq<T>>, sep: seq<T>): seq<T>
  {
    if |parts| == 0 then []
    else if |parts| == 1 then parts[0]
    else parts[0] + sep + Join(parts[1..], sep)
  }

  /** Joining the pieces of a split with the separator gives back the input. */
  lemma {:induction false} JoinSplit<T>(s: seq<T>, sep: seq<T>)
    requires |sep| > 0
    ensures Join(Split(s, sep), sep) == s
    decreases |s|
  {
    var k := Index(s, sep);
    if k >= 0 {
      var tail := s[k + |sep|..];
      var rest := Split(tail, sep);
      calc {
        Join(Split(s, sep), sep);
      ==
        Join([s[..k]] + rest, sep);
      == { JoinCons(s[..k], rest, sep); }
        s[..k] + sep + Join(rest, sep);
      == { JoinSplit(tail, sep); }
        s[..k] + sep + tail;
      == { IndexOccurs(s, sep); AroundOccurrence(s, sep, k); }
        s;
      }
    }
  }

  lemma JoinCons<T>(p: seq<T>, rest: seq<seq<T>>, sep: seq<T>)
    requires |rest| >= 1
    ensures Join([p] + rest, sep) == p + sep + Join(rest, sep)
  {
    var parts := [p] + rest;
    assert parts[0] == p && parts[1..] == rest;
  }

  lemma AroundOccurrence<T>(s: seq<T>, sep: seq<T>, k: nat)
    requires OccursAt(s, sep, k)
    ensures s[..k] + sep + s[k + |sep|..] == s
  {
    assert s == s[..k] + s[k..k + |sep|] + s[k + |sep|..];
  }

  /** With a one-element separator an occurrence is a single position. */
  lemma OccursAtSingle<T>(s: seq<T>, c: T)
    ensures forall i: nat :: OccursAt(s, [c], i) <==> i < |s| && s[i] == c
    ensures Contains(s, [c]) <==> c in s
  {
    forall i: nat | i < |s| ensures s[i..i + 1] == [s[i]] {}
    if c in s {
      var i :| 0 <= i < |s| && s[i] == c;
      assert OccursAt(s, [c], i);
    }
  }

  /** A one-element separator that does not occur leaves one piece. */
  lemma SplitAbsent<T>(s: seq<T>, c: T)
    requires c !in s
    ensures Split(s, [c]) == [s]
  {
    IndexSingle(s, c);
  }

  /** Splitting on a single element at its first occurrence. */
  lemma SplitAt<T>(s: seq<T>, c: T, k: nat)
    requires k < |s| && s[k] == c && c !in s[..k]
    ensures Split(s, [c]) == [s[..k]] + Split(s[k + 1..], [c])
  {
    IndexSingleAt(s, c, k);
  }

  /** Splitting on a single element distributes over an occurrence of it:
      the text before it and the text after it split independently. */
  lemma {:induction false} SplitConcat<T>(a: seq<T>, c: T, b: seq<T>)
    ensures Split(a + [c] + b, [c]) == Split(a, [c]) + Split(b, [c])
    decreases |a|
  {
    IndexSingle(a, c);
    if c in a {
      var ka := Index(a, [c]);
      var a2 := a[ka + 1..];
      calc {
        Split(a + [c] + b, [c]);
      == { SplitInFront(a, c, b, ka); }
        [a[..ka]] + Split(a2 + [c] + b, [c]);
      == { SplitConcat(a2, c, b); }
        [a[..ka]] + (Split(a2, [c]) + Split(b, [c]));
      ==
        ([a[..ka]] + Split(a2, [c])) + Split(b, [c]);
      == { SplitAt(a, c, ka); }
        Split(a, [c]) + Split(b, [c]);
      }
    } else {
      SplitAfterAbsent(a, c, b);
      SplitAbsent(a, c);
    }
  }

  /** The first occurrence of `c` in `a` is the first in `a + [c] + b`. */
  lemma SplitInFront<T>(a: seq<T>, c: T, b: seq<T>, k: nat)
    requires k < |a| && a[k] == c && c !in a[..k]
    ensures Split(a + [c] + b, [c]) == [a[..k]] + Split(a[k + 1..] + [c] + b, [c])
  {
    var s := a + [c] + b;
    assert s[..k] == a[..k] && s[k] == c;
    SplitAt(s, c, k);
    assert s[k + 1..] == a[k + 1..] + [c] + b;
  }

  /** When `c` is not in `a`, the `c` after `a` ends the first piece. */
  lemma SplitAfterAbsent<T>(a: seq<T>, c: T, b: seq<T>)
    requires c !in a
    ensures Split(a + [c] + b, [c]) == [a] + Split(b, [c])
  {
    var s := a + [c] + b;
    assert s[..|a|] == a;
    SplitAt(s, c, |a|);
    assert s[|a| + 1..] == b;
  }

  /** Splitting the join of pieces that do not hold the separator element
      gives back the pieces. */
  lemma {:induction false} SplitJoin<T>(parts: seq<seq<T>>, c: T)
    requires |parts| >= 1
    requires forall i :: 0 <= i < |parts| ==> c !in parts[i]
    ensures Split(Join(parts, [c]), [c]) == parts
    decreases |parts|
  {
    if |parts| == 1 {
      SplitAbsent(parts[0], c);
    } else {
      var rest := parts[1..];
      forall i | 0 <= i < |rest| ensures c !in rest[i] {
        assert rest[i] == parts[i + 1];
      }
      SplitJoin(rest, c);
      var j := Join(rest, [c]);
      assert Join(parts, [c]) == parts[0] + [c] + j;
      SplitConcat(parts[0], c, j);
      SplitAbsent(parts[0], c);
      assert parts == [parts[0]] + rest;
    }
  }

  /** Splitting on one element yields one more piece than there are
      occurrences of that element. */
  lemma {:induction false} SplitCount<T>(s: seq<T>, c: T)
    ensures |Split(s, [c])| == multiset(s)[c] + 1
    decreases |s|
  {
    IndexSingle(s, c);
    if c in s {
      var k := Index(s, [c]);
      var tail := s[k + 1..];
      SplitCount(tail, c);
      assert s == s[..k] + [c] + tail;
      assert multiset(s)[c] == multiset(s[..k])[c] + 1 + multiset(tail)[c];
    } else {
      assert multiset(s)[c] == 0;
    }
  }

  /** The number of positions at which `sep` occurs (overlaps counted). */
  function Occurrences<T(==)>(s: seq<T>, sep: seq<T>): nat
    decreases |s|
  {
    if s == [] then 0
    else (if OccursAt(s, sep, 0) then 1 else 0) + Occurrences(s[1..], sep)
  }

  /** An occurrence is counted. */
  lemma {:induction false} OccurrencesOne<T>(s: seq<T>, sep: seq<T>, i: nat)
    requires |sep| > 0 && OccursAt(s, sep, i)
    ensures Occurrences(s, sep) >= 1
    decreases i
  {
    if i > 0 {
      OccursAtTail(s, sep);
      OccurrencesOne(s[1..], sep, i - 1);
    }
  }

  /** Two occurrences are counted twice. */
  lemma {:induction false} OccurrencesTwo<T>(s: seq<T>, sep: seq<T>, i: nat, j: nat)
    requires |sep| > 0 && i < j && OccursAt(s, sep, i) && OccursAt(s, sep, j)
    ensures Occurrences(s, sep) >= 2
    decreases i
  {
    OccursAtTail(s, sep);
    if i > 0 {
      OccurrencesTwo(s[1..], sep, i - 1, j - 1);
    } else {
      OccurrencesOne(s[1..], sep, j - 1);
    }
  }

  /** No proper suffix of `sep` is also a prefix of it, so two occurrences
      of `sep` can never overlap. */
  predicate OverlapFree<T(==)>(sep: seq<T>)
  {
    forall k :: 0 < k < |sep| ==> sep[k..] != sep[..|sep| - k]
  }

  lemma {:induction false} OccurrencesAbsent<T>(s: seq<T>, sep: seq<T>)
    requires !Contains(s, sep)
    ensures Occurrences(s, sep) == 0
    decreases |s|
  {
    if s != [] {
      OccursAtTail(s, sep);
      assert !OccursAt(s, sep, 0);
      assert !Contains(s[1..], sep) by {
        forall j: nat ensures !OccursAt(s[1..], sep, j) {
          assert !OccursAt(s, sep, j + 1);
        }
      }
      OccurrencesAbsent(s[1..], sep);
    }
  }

  /** Occurrences of `sep` in `s` counted from position `i` on, when none
      starts before `i`. */
  lemma {:induction false} OccurrencesSkip<T>(s: seq<T>, sep: seq<T>, i: nat)
    requires i <= |s|
    requires forall j: nat :: j < i ==> !OccursAt(s, sep, j)
    ensures Occurrences(s, sep) == Occurrences(s[i..], sep)
    decreases i
  {
    if i > 0 {
      OccursAtTail(s, sep);
      assert !OccursAt(s, sep, 0);
      assert s[1..][i - 1..] == s[i..];
      OccurrencesSkip(s[1..], sep, i - 1);
    }
  }

  /** An occurrence that overlaps one at position 0 would exhibit a proper
      border of `sep`. */
  lemma NoOverlap<T>(s: seq<T>, sep: seq<T>, j: nat)
    requires OverlapFree(sep) && OccursAt(s, sep, 0) && 0 < j < |sep|
    ensures !OccursAt(s, sep, j)
  {
    var n := |sep|;
    if j + n <= |s| {
      assert sep[j..] == s[j..n] by { assert s[..n][j..] == s[j..n]; }
      assert s[j..n] == s[j..j + n][..n - j];
    }
  }

  /** For an overlap-free separator, splitting yields exactly one more
      piece than there are occurrences. */
  lemma {:induction false} SplitOccurrences<T>(s: seq<T>, sep: seq<T>)
    requires |sep| > 0 && OverlapFree(sep)
    ensures |Split(s, sep)| == Occurrences(s, sep) + 1
    decreases |s|
  {
    var k := Index(s, sep);
    IndexSpec(s, sep);
    if k < 0 {
      OccurrencesAbsent(s, sep);
    } else {
      var suffix := s[k..];
      OccurrencesSkip(s, sep, k);
      assert OccursAt(suffix, sep, 0) by { assert suffix[0..|sep|] == s[k..k + |sep|]; }
      assert Occurrences(suffix, sep) == 1 + Occurrences(suffix[1..], sep);
      assert Occurrences(suffix[1..], sep) == Occurrences(suffix[|sep|..], sep) by {
        forall j: nat | j < |sep| - 1 ensures !OccursAt(suffix[1..], sep, j) {
          OccursAtTail(suffix, sep);
          NoOverlap(suffix, sep, j + 1);
        }
        OccurrencesSkip(suffix[1..], sep, |sep| - 1);
        assert suffix[1..][|sep| - 1..] == suffix[|sep|..];
      }
      assert suffix[|sep|..] == s[k + |sep|..];
      SplitOccurrences(s[k + |sep|..], sep);
    }
  }

  /** bytes.Replace / strings.Replace with a non-empty pattern: the first
      `n` non-overlapping occurrences of `target` replaced by
      `replacement`, all of them when `n < 0`, none when `n == 0`. With a
      negative count the text is split at the target and joined back with
      the replacement between the pieces; with a count of 0 it comes back
      unchanged. */
  function Replace<T(==)>(s: seq<T>, target: seq<T>, replacement: seq<T>, n: int): (r: seq<T>)
    requires |target| > 0
    ensures n < 0 ==> r == Join(Split(s, target), replacement)
    ensures n == 0 ==> r == s
    decreases |s|
  {
    if n == 0 then s
    else
      var k := Index(s, target);
      if k < 0 then s
      else
        var rest := s[k + |target|..];
        var r := s[..k] + replacement + Replace(rest, target, replacement, n - 1);
        assert Split(s, target) == [s[..k]] + Split(rest, target);
        JoinCons(s[..k], Split(rest, target), replacement);
        r
  }

  /** unicode.IsSpace: the characters strings.TrimSpace strips. */
  predicate IsSpace(c: char)
  {
    || ('\t' <= c <= '\r')
    || c == ' '
    || c == '\U{0085}'
    || c == '\U{00A0}'
    || c == '\U{1680}'
    || ('\U{2000}' <= c <= '\U{200A}')
    || c == '\U{2028}'
    || c == '\U{2029}'
    || c == '\U{202F}'
    || c == '\U{205F}'
    || c == '\U{3000}'
  }

  predicate AllSpace(s: string)
  {
    forall i :: 0 <= i < |s| ==> IsSpace(s[i])
  }

  /** Drops the leading white space. */
  function TrimLeft(s: string): (r: string)
    ensures |r| <= |s|
  {
    if s != [] && IsSpace(s[0]) then TrimLeft(s[1..]) else s
  }

  /** TrimLeft keeps a suffix of `s`, drops only white space, and stops
      at the first other character. */
  lemma {:induction false} TrimLeftSpec(s: string)
    ensures var r := TrimLeft(s);
      && r == s[|s| - |r|..]
      && AllSpace(s[..|s| - |r|])
      && (r != [] ==> !IsSpace(r[0]))
    decreases |s|
  {
    if s != [] && IsSpace(s[0]) {
      TrimLeftSpec(s[1..]);
      var r := TrimLeft(s);
      assert s[..|s| - |r|] == [s[0]] + s[1..][..|s| - 1 - |r|];
    }
  }

  /** Drops the trailing white space. */
  function TrimRight(s: string): (r: string)
    ensures |r| <= |s|
  {
    if s != [] && IsSpace(s[|s| - 1]) then TrimRight(s[..|s| - 1]) else s
  }

  /** TrimRight keeps a prefix of `s`, drops only white space, and stops
      at the last other character. */
  lemma {:induction false} TrimRightSpec(s: string)
    ensures var r := TrimRight(s);
      && r == s[..|r|]
      && AllSpace(s[|r|..])
      && (r != [] ==> !IsSpace(r[|r| - 1]))
    decreases |s|
  {
    if s != [] && IsSpace(s[|s| - 1]) {
      TrimRightSpec(s[..|s| - 1]);
      var r := TrimRight(s);
      assert s[|r|..] == s[..|s| - 1][|r|..] + [s[|s| - 1]];
    }
  }

  /** strings.TrimSpace: `s` without leading and trailing white space.
      It neither starts nor ends with white space; TrimSpaceSlice places
      it in `s`. */
  function TrimSpace(s: string): (r: string)
    ensures r != [] ==> !IsSpace(r[0]) && !IsSpace(r[|r| - 1])
  {
    var l := TrimLeft(s);
    TrimLeftSpec(s);
    TrimRightSpec(l);
    TrimRight(l)
  }

  /** TrimSpace keeps the slice of `s` that starts after its leading white
      space, and only white space follows that slice in `s`. */
  lemma TrimSpaceSlice(s: string)
    ensures var r, k := TrimSpace(s), |s| - |TrimLeft(s)|;
      && k + |r| <= |s|
      && r == s[k..k + |r|]
      && AllSpace(s[..k]) && AllSpace(s[k + |r|..])
  {
    var l := TrimLeft(s);
    TrimLeftSpec(s);
    TrimRightSpec(l);
    var r := TrimRight(l);
    var k := |s| - |l|;
    assert s[k..k + |r|] == l[..|r|];
    assert s[k + |r|..] == l[|r|..];
  }

  lemma {:induction false} TrimLeftAllSpacePrefix(p: string, s: string)
    requires AllSpace(p)
    ensures TrimLeft(p + s) == TrimLeft(s)
    decreases |p|
  {
    if p != [] {
      var q := p + s;
      assert q[0] == p[0];
      assert q[1..] == p[1..] + s;
      assert TrimLeft(q) == TrimLeft(q[1..]);
      TrimLeftAllSpacePrefix(p[1..], s);
    } else {
      assert p + s == s;
    }
  }

  lemma {:induction false} TrimRightAllSpaceSuffix(s: string, p: string)
    requires AllSpace(p)
    ensures TrimRight(s + p) == TrimRight(s)
    decreases |p|
  {
    if p != [] {
      var q := s + p;
      assert q[|q| - 1] == p[|p| - 1];
      assert q[..|q| - 1] == s + p[..|p| - 1];
      assert TrimRight(q) == TrimRight(q[..|q| - 1]);
      TrimRightAllSpaceSuffix(s, p[..|p| - 1]);
    } else {
      assert s + p == s;
    }
  }

  /** White space in front of or behind `s` does not change what
      TrimSpace keeps. */
  lemma TrimSpacePadded(lead: string, s: string, trail: string)
    requires AllSpace(lead) && AllSpace(trail)
    ensures TrimSpace(lead + s + trail) == TrimSpace(s)
  {
    assert lead + s + trail == lead + (s + trail);
    TrimLeftAllSpacePrefix(lead, s + trail);
    TrimLeftOfSuffixed(s, trail);
    var l := TrimLeft(s);
    if l != [] {
      TrimRightAllSpaceSuffix(l, trail);
    }
  }

  lemma {:induction false} TrimLeftOfSuffixed(s: string, trail: string)
    requires AllSpace(trail)
    ensures TrimLeft(s + trail) == if TrimLeft(s) == [] then [] else TrimLeft(s) + trail
    decreases |s|
  {
    if s == [] {
      assert s + trail == trail;
      AllSpaceTrimLeft(trail);
    } else if IsSpace(s[0]) {
      assert (s + trail)[0] == s[0];
      assert (s + trail)[1..] == s[1..] + trail;
      TrimLeftOfSuffixed(s[1..], trail);
    } else {
      assert (s + trail)[0] == s[0];
    }
  }

  lemma {:induction false} AllSpaceTrimLeft(s: string)
    requires AllSpace(s)
    ensures TrimLeft(s) == []
    decreases |s|
  {
    if s != [] { AllSpaceTrimLeft(s[1..]); }
  }

  /** Text that does not start or end with white space is left alone. */
  lemma TrimSpaceTrimmed(s: string)
    requires s == [] || (!IsSpace(s[0]) && !IsSpace(s[|s| - 1]))
    ensures TrimSpace(s) == s
  {
  }

  /** Trimming twice is trimming once. */
  lemma TrimSpaceIdempotent(s: string)
    ensures TrimSpace(TrimSpace(s)) == TrimSpace(s)
  {
    var l := TrimLeft(s);
    var r := TrimRight(l);
    TrimLeftSpec(s);
    TrimRightSpec(l);
    if r != [] {
      assert r[0] == l[0];
    }
  }
}
