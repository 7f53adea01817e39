/** Python string operations the pipeline relies on, with the semantics of
    CPython's `str`: `split` on a one-character separator, `join`,
    `replace` (all non-overlapping occurrences, scanned left to right),
    the `in` substring test, `startswith`/`endswith` and the ordering `<`
    that `list.sort` uses (code-point lexicographic order). */
module Text {

  /** Number of occurrences of character `c` in `s`. */
  function Count(c: char, s: string): nat
    decreases |s|
  {
    if |s| == 0 then 0 else (if s[0] == c then 1 else 0) + Count(c, s[1..])
  }

  lemma {:induction false} CountAppend(c: char, a: string, b: string)
    ensures Count(c, a + b) == Count(c, a) + Count(c, b)
    decreases |a|
  {
    if |a| > 0 {
      assert (a + b)[1..] == a[1..] + b;
      CountAppend(c, a[1..], b);
    } else {
      assert a + b == b;
    }
  }

  lemma {:induction false} CountAbsent(c: char, s: string)
    requires c !in s
    ensures Count(c, s) == 0
    decreases |s|
  {
    if |s| > 0 {
      CountAbsent(c, s[1..]);
    }
  }

  /** `s.split(d)`: the pieces between occurrences of `d`; never empty and
      one more piece than there are separators. */
  function Split(s: string, d: char): (r: seq<string>)
    ensures |r| == Count(d, s) + 1
    decreases |s|
  {
    if |s| == 0 then [[]]
    else
      var rest := Split(s[1..], d);
      if s[0] == d then [[]] + rest
      else [[s[0]] + rest[0]] + rest[1..]
  }

  /** No piece of a split holds the separator. */
  lemma {:induction false} SplitPieces(s: string, d: char)
    ensures NoSeparator(Split(s, d), d)
    decreases |s|
  {
    if |s| > 0 {
      SplitPieces(s[1..], d);
    }
  }

  /** `d.join(ts)` for a non-empty list of pieces. */
  function Join(ts: seq<string>, d: char): string
    requires |ts| > 0
    decreases |ts|
  {
    if |ts| == 1 then ts[0] else ts[0] + [d] + Join(ts[1..], d)
  }

  lemma JoinCons(t: string, ts: seq<string>, d: char)
    requires |ts| > 0
    ensures Join([t] + ts, d) == t + [d] + Join(ts, d)
  {
    assert ([t] + ts)[1..] == ts;
  }

  predicate NoSeparator(ts: seq<string>, d: char)
  {
    forall k :: 0 <= k < |ts| ==> d !in ts[k]
  }

  /** Joining the pieces of a split gives the string back. */
  lemma {:induction false} JoinSplit(s: string, d: char)
    ensures Join(Split(s, d), d) == s
    decreases |s|
  {
    if |s| > 0 {
      var rest := Split(s[1..], d);
      JoinSplit(s[1..], d);
      if s[0] == d {
        assert ([[]] + rest)[1..] == rest;
        assert s == [d] + s[1..];
      } else {
        var r := [[s[0]] + rest[0]] + rest[1..];
        if |rest| == 1 {
          assert s == [s[0]] + rest[0];
        } else {
          assert r[1..] == rest[1..];
          assert Join(rest, d) == rest[0] + [d] + Join(rest[1..], d);
          assert s == [s[0]] + s[1..];
        }
      }
    }
  }

  /** A piece free of the separator splits to itself. */
  lemma {:induction false} SplitSingle(t: string, d: char)
    requires d !in t
    ensures Split(t, d) == [t]
    decreases |t|
  {
    if |t| > 0 {
      SplitSingle(t[1..], d);
      assert [t[0]] + t[1..] == t;
    }
  }

  /** Splitting `t + d + rest` where `t` is free of `d` peels `t` off. */
  lemma {:induction false} SplitCons(t: string, d: char, rest: string)
    requires d !in t
    ensures Split(t + [d] + rest, d) == [t] + Split(rest, d)
    decreases |t|
  {
    var s := t + [d] + rest;
    if |t| == 0 {
      assert s == [d] + rest;
      assert s[1..] == rest;
    } else {
      assert s[1..] == t[1..] + [d] + rest;
      SplitCons(t[1..], d, rest);
      assert [t[0]] + t[1..] == t;
    }
  }

  /** Splitting a join of separator-free pieces gives the pieces back. */
  lemma {:induction false} SplitJoin(ts: seq<string>, d: char)
    requires |ts| > 0
    requires NoSeparator(ts, d)
    ensures Split(Join(ts, d), d) == ts
    decreases |ts|
  {
    if |ts| == 1 {
      SplitSingle(ts[0], d);
    } else {
      SplitJoin(ts[1..], d);
      SplitCons(ts[0], d, Join(ts[1..], d));
      assert [ts[0]] + ts[1..] == ts;
    }
  }

  /** Appending a separator and a separator-free piece adds one last piece. */
  lemma {:induction false} SplitSnoc(s: string, d: char, t: string)
    requires d !in t
    ensures Split(s + [d] + t, d) == Split(s, d) + [t]
    decreases |s|
  {
    var x := s + [d] + t;
    if |s| == 0 {
      assert x == [d] + t;
      assert x[1..] == t;
      SplitSingle(t, d);
    } else {
      assert x[1..] == s[1..] + [d] + t;
      SplitSnoc(s[1..], d, t);
      var rest := Split(s[1..], d);
      if s[0] != d {
        assert (rest + [t])[1..] == rest[1..] + [t];
      }
    }
  }

  /** A separator-free prefix changes only the first piece of a split. */
  lemma {:induction false} SplitPrefix(p: string, s: string, d: char)
    requires d !in p
    ensures |Split(p + s, d)| == |Split(s, d)|
    ensures Split(p + s, d)[0] == p + Split(s, d)[0]
    ensures Split(p + s, d)[1..] == Split(s, d)[1..]
    decreases |p|
  {
    if |p| > 0 {
      assert (p + s)[1..] == p[1..] + s;
      SplitPrefix(p[1..], s, d);
      assert [p[0]] + (p[1..] + Split(s, d)[0]) == p + Split(s, d)[0];
    } else {
      assert p + s == s;
    }
  }

  predicate StartsWith(s: string, w: string)
  {
    |w| <= |s| && s[..|w|] == w
  }

  predicate EndsWith(s: string, w: string)
  {
    |w| <= |s| && s[|s| - |w|..] == w
  }

  /** `w in s`: `w` occurs in `s` at some position. */
  predicate Contains(s: string, w: string)
    decreases |s|
  {
    StartsWith(s, w) || (|s| > 0 && Contains(s[1..], w))
  }

  /** A word with a character that `s` lacks does not occur in `s`. */
  lemma {:induction false} NotContainsMissingChar(s: string, w: string, j: nat)
    requires j < |w| && w[j] !in s
    ensures !Contains(s, w)
    decreases |s|
  {
    if |s| > 0 {
      NotContainsMissingChar(s[1..], w, j);
    }
  }

  /** A prefix that lacks one of the characters of `w` and ends with a
      character foreign to `w` cannot create or hide an occurrence of `w`. */
  lemma {:induction false} ContainsAfterPrefix(p: string, s: string, w: string, j: nat)
    requires j < |w| && w[j] !in p
    requires |p| > 0 ==> p[|p| - 1] !in w
    ensures Contains(p + s, w) <==> Contains(s, w)
    decreases |p|
  {
    if |p| > 0 {
      NotContainsMissingChar(p, w, j);
      var x := p + s;
      if |w| <= |p| {
        assert x[..|w|] == p[..|w|];
      } else {
        assert x[|p| - 1] == p[|p| - 1];
      }
      assert !StartsWith(x, w);
      assert x[1..] == p[1..] + s;
      assert Contains(x, w) == Contains(p[1..] + s, w);
      if |p| > 1 {
        assert p[1..][|p[1..]| - 1] == p[|p| - 1];
      } else {
        assert p[1..] + s == s;
      }
      ContainsAfterPrefix(p[1..], s, w, j);
    } else {
      assert p + s == s;
    }
  }

  /** A string ending with `w` contains it. */
  lemma {:induction false} ContainsSuffix(p: string, w: string)
    ensures Contains(p + w, w)
    decreases |p|
  {
    if |p| == 0 {
      assert (p + w)[..|w|] == w;
    } else {
      assert (p + w)[1..] == p[1..] + w;
      ContainsSuffix(p[1..], w);
    }
  }

  /** Appending a piece that starts with a character foreign to `w`, and
      does not hold `w` itself, cannot create an occurrence of `w`. */
  lemma {:induction false} NotContainsAppend(a: string, b: string, w: string, j: nat)
    requires !Contains(a, w)
    requires j < |w| && w[j] !in b
    requires |b| > 0 && b[0] !in w
    ensures !Contains(a + b, w)
    decreases |a|
  {
    if |a| == 0 {
      NotContainsMissingChar(b, w, j);
      assert a + b == b;
    } else {
      var x := a + b;
      if |w| <= |a| {
        assert x[..|w|] == a[..|w|];
      } else {
        assert x[|a|] == b[0];
      }
      assert !StartsWith(x, w);
      assert x[1..] == a[1..] + b;
      NotContainsAppend(a[1..], b, w, j);
    }
  }

  /** `s.replace(pat, rep)` for a non-empty pattern. */
  function Replace(s: string, pat: string, rep: string): string
    requires |pat| > 0
    decreases |s|
  {
    if |s| < |pat| then s
    else if s[..|pat|] == pat then rep + Replace(s[|pat|..], pat, rep)
    else [s[0]] + Replace(s[1..], pat, rep)
  }

  /** Without an occurrence of the pattern, `replace` changes nothing. */
  lemma {:induction false} ReplaceAbsent(s: string, pat: string, rep: string)
    requires |pat| > 0 && !Contains(s, pat)
    ensures Replace(s, pat, rep) == s
    decreases |s|
  {
    if |s| >= |pat| {
      ReplaceAbsent(s[1..], pat, rep);
      assert [s[0]] + s[1..] == s;
    }
  }

  /** No occurrence of `pat` in `p + t` starts inside `p`. */
  predicate NoMatchWithin(p: string, t: string, pat: string)
  {
    forall i :: 0 <= i < |p| ==> !StartsWith((p + t)[i..], pat)
  }

  /** A prefix lacking the pattern's first character holds no occurrence. */
  lemma NoMatchMissingHead(p: string, t: string, pat: string)
    requires |pat| > 0 && pat[0] !in p
    ensures NoMatchWithin(p, t, pat)
  {
    forall i | 0 <= i < |p|
      ensures !StartsWith((p + t)[i..], pat)
    {
      assert (p + t)[i..][0] == p[i];
    }
  }

  /** A prefix in which no occurrence of the pattern starts passes through
      `replace` unchanged. */
  lemma {:induction false} ReplaceSkip(p: string, t: string, pat: string, rep: string)
    requires |pat| > 0 && NoMatchWithin(p, t, pat)
    ensures Replace(p + t, pat, rep) == p + Replace(t, pat, rep)
    decreases |p|
  {
    if |p| > 0 {
      var x := p + t;
      assert x[0..] == x;
      assert !StartsWith(x[0..], pat);
      if |x| < |pat| {
        assert Replace(t, pat, rep) == t;
      } else {
        assert x[1..] == p[1..] + t;
        forall i | 0 <= i < |p[1..]|
          ensures !StartsWith((p[1..] + t)[i..], pat)
        {
          assert (p[1..] + t)[i..] == x[i + 1..];
        }
        ReplaceSkip(p[1..], t, pat, rep);
        assert [p[0]] + p[1..] == p;
      }
    } else {
      assert p + t == t;
    }
  }

  /** A string that starts with the pattern has its first occurrence replaced. */
  lemma ReplaceHead(pat: string, t: string, rep: string)
    requires |pat| > 0
    ensures Replace(pat + t, pat, rep) == rep + Replace(t, pat, rep)
  {
    var x := pat + t;
    assert x[..|pat|] == pat;
    assert x[|pat|..] == t;
  }

  /** When the pattern and its replacement hold a character equally often,
      so does the result. */
  lemma {:induction false} ReplaceCount(c: char, s: string, pat: string, rep: string)
    requires |pat| > 0 && Count(c, pat) == Count(c, rep)
    ensures Count(c, Replace(s, pat, rep)) == Count(c, s)
    decreases |s|
  {
    if |s| >= |pat| {
      if s[..|pat|] == pat {
        ReplaceCount(c, s[|pat|..], pat, rep);
        CountAppend(c, rep, Replace(s[|pat|..], pat, rep));
        CountAppend(c, s[..|pat|], s[|pat|..]);
        assert s[..|pat|] + s[|pat|..] == s;
      } else {
        ReplaceCount(c, s[1..], pat, rep);
        CountAppend(c, [s[0]], Replace(s[1..], pat, rep));
        CountAppend(c, [s[0]], s[1..]);
        assert [s[0]] + s[1..] == s;
      }
    }
  }

  /** Python's `<` on strings: code-point lexicographic order, a proper
      prefix sorting first. */
  predicate Less(a: string, b: string)
    decreases |a|
  {
    |b| > 0 && (|a| == 0 || a[0] < b[0] || (a[0] == b[0] && Less(a[1..], b[1..])))
  }

  lemma {:induction false} LessIrreflexive(a: string)
    ensures !Less(a, a)
    decreases |a|
  {
    if |a| > 0 {
      LessIrreflexive(a[1..]);
    }
  }

  lemma {:induction false} LessTransitive(a: string, b: string, c: string)
    requires Less(a, b) && Less(b, c)
    ensures Less(a, c)
    decreases |a|
  {
    if |a| > 0 && a[0] == b[0] == c[0] {
      LessTransitive(a[1..], b[1..], c[1..]);
    }
  }

  lemma {:induction false} LessTotal(a: string, b: string)
    requires a != b
    ensures Less(a, b) || Less(b, a)
    decreases |a|
  {
    if |a| > 0 && |b| > 0 && a[0] == b[0] {
      assert a == [a[0]] + a[1..];
      assert b == [b[0]] + b[1..];
      LessTotal(a[1..], b[1..]);
    }
  }

  /** Strictly ascending under Python's string order, hence duplicate-free. */
  predicate SortedStrictly(s: seq<string>)
  {
    forall i, j :: 0 <= i < j < |s| ==> Less(s[i], s[j])
  }

  /** A strictly ascending list holds each name once. */
  lemma SortedDistinct(s: seq<string>)
    requires SortedStrictly(s)
    ensures forall i, j :: 0 <= i < j < |s| ==> s[i] != s[j]
  {
    forall i, j | 0 <= i < j < |s|
      ensures s[i] != s[j]
    {
      LessIrreflexive(s[i]);
    }
  }

  /** A common prefix does not change the order: sorting `output/<name>`
      paths orders them as their names. */
  lemma {:induction false} LessCommonPrefix(p: string, a: string, b: string)
    ensures Less(p + a, p + b) <==> Less(a, b)
    decreases |p|
  {
    if |p| == 0 {
      assert p + a == a && p + b == b;
    } else {
      assert (p + a)[1..] == p[1..] + a && (p + b)[1..] == p[1..] + b;
      LessCommonPrefix(p[1..], a, b);
    }
  }

  /** Inserts `x` into an ascending list at its place. */
  function Insert(x: string, s: seq<string>): seq<string>
    decreases |s|
  {
    if |s| == 0 || Less(x, s[0]) then [x] + s else [s[0]] + Insert(x, s[1..])
  }

  /** Insertion keeps the list ascending and adds exactly `x`. */
  lemma {:induction false} InsertSorted(x: string, s: seq<string>)
    requires SortedStrictly(s) && x !in s
    ensures SortedStrictly(Insert(x, s))
    ensures multiset(Insert(x, s)) == multiset(s) + multiset{x}
    decreases |s|
  {
    if |s| > 0 {
      if Less(x, s[0]) {
        forall j | 0 < j < |s| ensures Less(x, s[j]) {
          LessTransitive(x, s[0], s[j]);
        }
      } else {
        LessTotal(x, s[0]);
        var t := s[1..];
        InsertSorted(x, t);
        var r := Insert(x, t);
        forall j | 0 <= j < |r| ensures Less(s[0], r[j]) {
          assert r[j] in multiset(r);
          if r[j] != x {
            assert r[j] in t;
          }
        }
        assert s == [s[0]] + t;
      }
    }
  }

  /** `sorted(names)`: the names in ascending order, each exactly once. */
  method SortNames(names: set<string>) returns (r: seq<string>)
    ensures SortedStrictly(r)
    ensures multiset(r) == multiset(names)
  {
    r := [];
    var todo := names;
    while todo != {}
      invariant SortedStrictly(r)
      invariant todo <= names
      invariant multiset(r) + multiset(todo) == multiset(names)
      decreases todo
    {
      var x :| x in todo;
      assert multiset(names)[x] == 1 && multiset(todo)[x] == 1;
      assert x !in multiset(r);
      InsertSorted(x, r);
      r := Insert(x, r);
      todo := todo - {x};
    }
  }
}
