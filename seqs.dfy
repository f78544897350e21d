/**
  Sequence operations behind the fallback-message pipeline: `indexOf`,
  `String.prototype.split` on a one-character separator, `Array.prototype.join`,
  and `Array.from(new Set(xs))`, which keeps the first occurrence of every element.
 */
module Seqs {

  /** Position of the first occurrence of `x` in `s`. */
  function IndexOf<T(==)>(s: seq<T>, x: T): (i: nat)
    requires x in s
    ensures i < |s| && s[i] == x
    ensures forall k :: 0 <= k < i ==> s[k] != x
  {
    if s[0] == x then 0 else 1 + IndexOf(s[1..], x)
  }

  /** The earliest occurrence of an element is found in any prefix that already contains it. */
  lemma {:induction false} IndexOfPrefix<T>(s: seq<T>, m: nat, x: T)
    requires m <= |s| && x in s[..m]
    ensures IndexOf(s, x) == IndexOf(s[..m], x)
  {
    if s[0] != x {
      assert s[1..][..m - 1] == s[..m][1..];
      IndexOfPrefix(s[1..], m - 1, x);
    }
  }

  /** `s.split(sep)`: the maximal separator-free pieces, in order; never empty. */
  function Split<T(==)>(s: seq<T>, sep: T): (parts: seq<seq<T>>)
    ensures |parts| >= 1
    ensures forall k :: 0 <= k < |parts| ==> sep !in parts[k]
    decreases |s|
  {
    if sep in s then
      var i := IndexOf(s, sep);
      [s[..i]] + Split(s[i + 1..], sep)
    else
      [s]
  }

  /** `parts.join(sep)`. */
  function Join<T>(parts: seq<seq<T>>, sep: seq<T>): seq<T>
  {
    if |parts| == 0 then []
    else if |parts| == 1 then parts[0]
    else parts[0] + sep + Join(parts[1..], sep)
  }

  /** An element found neither in the pieces nor in the separator is not in their join. */
  lemma {:induction false} JoinAvoids<T>(parts: seq<seq<T>>, sep: seq<T>, x: T)
    requires forall k :: 0 <= k < |parts| ==> x !in parts[k]
    requires x !in sep
    ensures x !in Join(parts, sep)
  {
    if |parts| > 1 {
      JoinAvoids(parts[1..], sep, x);
    }
  }

  /** Joining the pieces with the separator gives back the split text. */
  lemma {:induction false} JoinSplit<T>(s: seq<T>, sep: T)
    ensures Join(Split(s, sep), [sep]) == s
    decreases |s|
  {
    if sep in s {
      var i := IndexOf(s, sep);
      var rest := Split(s[i + 1..], sep);
      JoinSplit(s[i + 1..], sep);
      assert Split(s, sep) == [s[..i]] + rest;
      assert s == s[..i] + [sep] + s[i + 1..];
    }
  }

  /** The first separator of `p + [sep] + tail` is the one after `p`, when `p` has none. */
  lemma {:induction false} IndexOfAfter<T>(p: seq<T>, sep: T, tail: seq<T>)
    requires sep !in p
    ensures sep in p + [sep] + tail && IndexOf(p + [sep] + tail, sep) == |p|
  {
    var s := p + [sep] + tail;
    assert s[|p|] == sep;
    if p != [] {
      assert s[0] == p[0];
      assert s[1..] == p[1..] + [sep] + tail;
      IndexOfAfter(p[1..], sep, tail);
    }
  }

  /** Splitting a separator-free piece, a separator and a tail yields the piece, then the tail's pieces. */
  lemma SplitHead<T>(p: seq<T>, sep: T, tail: seq<T>)
    requires sep !in p
    ensures Split(p + [sep] + tail, sep) == [p] + Split(tail, sep)
  {
    var s := p + [sep] + tail;
    IndexOfAfter(p, sep, tail);
    assert s[..|p|] == p && s[|p| + 1..] == tail;
  }

  /** Splitting a join of separator-free pieces gives back the pieces. */
  lemma {:induction false} SplitJoin<T>(parts: seq<seq<T>>, sep: T)
    requires |parts| >= 1
    requires forall k :: 0 <= k < |parts| ==> sep !in parts[k]
    ensures Split(Join(parts, [sep]), sep) == parts
  {
    if |parts| > 1 {
      var p, rest := parts[0], parts[1..];
      var tail := Join(rest, [sep]);
      assert Join(parts, [sep]) == p + [sep] + tail;
      SplitHead(p, sep, tail);
      assert forall k :: 0 <= k < |rest| ==> sep !in rest[k] by {
        assert forall k :: 0 <= k < |rest| ==> rest[k] == parts[k + 1];
      }
      SplitJoin(rest, sep);
      assert parts == [p] + rest;
    }
  }

  /** No element occurs twice. */
  predicate Distinct<T(==)>(xs: seq<T>) {
    forall i, j :: 0 <= i < j < |xs| ==> xs[i] != xs[j]
  }

  /** Every element of `r` occurs in `xs`, and `r` lists them in the order of their first occurrence in `xs`. */
  predicate FirstSeenOrder<T(==)>(xs: seq<T>, r: seq<T>) {
    && (forall i :: 0 <= i < |r| ==> r[i] in xs)
    && (forall i, j :: 0 <= i < j < |r| ==> IndexOf(xs, r[i]) < IndexOf(xs, r[j]))
  }

  /** Every element of `xs` occurs in `r`. */
  predicate Covers<T(==)>(r: seq<T>, xs: seq<T>) {
    forall i :: 0 <= i < |xs| ==> xs[i] in r
  }

  /** `Array.from(new Set(xs))`: the elements of `xs` without repeats, in order of first occurrence. */
  function Dedup<T(==)>(xs: seq<T>): seq<T>
  {
    if xs == [] then []
    else
      var d := Dedup(xs[..|xs| - 1]);
      if xs[|xs| - 1] in d then d else d + [xs[|xs| - 1]]
  }

  /**
    What a Set preserves: no repeats, every element, and the order of first
    occurrence. These facts determine the result (see DedupUnique).
   */
  lemma {:induction false} DedupSpec<T>(xs: seq<T>)
    ensures Distinct(Dedup(xs))
    ensures Covers(Dedup(xs), xs)
    ensures FirstSeenOrder(xs, Dedup(xs))
  {
    if xs != [] {
      var n := |xs| - 1;
      DedupSpec(xs[..n]);
      if xs[n] in Dedup(xs[..n]) {
        DedupKeep(xs, Dedup(xs[..n]));
      } else {
        DedupAppend(xs, Dedup(xs[..n]));
      }
    }
  }

  /** A last element already seen leaves a valid de-duplication of the prefix valid for the whole. */
  lemma DedupKeep<T>(xs: seq<T>, d: seq<T>)
    requires xs != [] && xs[|xs| - 1] in d
    requires Distinct(d) && Covers(d, xs[..|xs| - 1]) && FirstSeenOrder(xs[..|xs| - 1], d)
    ensures Covers(d, xs) && FirstSeenOrder(xs, d)
  {
    var n := |xs| - 1;
    assert xs == xs[..n] + [xs[n]];
    forall i | 0 <= i < |d| ensures d[i] in xs && IndexOf(xs, d[i]) == IndexOf(xs[..n], d[i]) {
      IndexOfPrefix(xs, n, d[i]);
    }
  }

  /** A last element not seen before is appended, after everything of the prefix. */
  lemma DedupAppend<T>(xs: seq<T>, d: seq<T>)
    requires xs != [] && xs[|xs| - 1] !in d
    requires Distinct(d) && Covers(d, xs[..|xs| - 1]) && FirstSeenOrder(xs[..|xs| - 1], d)
    ensures Distinct(d + [xs[|xs| - 1]])
    ensures Covers(d + [xs[|xs| - 1]], xs)
    ensures FirstSeenOrder(xs, d + [xs[|xs| - 1]])
  {
    var n := |xs| - 1;
    var init, last := xs[..n], xs[n];
    assert xs == init + [last];
    assert last !in init;
    var r := d + [last];
    forall i | 0 <= i < |r| ensures r[i] in xs {
      if i < |d| { assert r[i] == d[i] && d[i] in init; }
    }
    forall i, j | 0 <= i < j < |r| ensures IndexOf(xs, r[i]) < IndexOf(xs, r[j]) {
      assert r[i] == d[i] && d[i] in init;
      IndexOfPrefix(xs, n, d[i]);
      if j < |d| {
        assert r[j] == d[j] && d[j] in init;
        IndexOfPrefix(xs, n, d[j]);
      } else {
        assert IndexOf(xs, last) == n;
      }
    }
  }

  /** Any repeat-free listing of the elements of `xs` in first-occurrence order is Dedup(xs). */
  lemma DedupUnique<T>(xs: seq<T>, r: seq<T>)
    requires Distinct(r) && Covers(r, xs) && FirstSeenOrder(xs, r)
    ensures r == Dedup(xs)
  {
    DedupSpec(xs);
    var d := Dedup(xs);
    forall i | 0 <= i < |r| ensures r[i] in d {
      var k := IndexOf(xs, r[i]);
    }
    SameOrderedElements(xs, r, d);
  }

  lemma FirstSeenOrderTail<T>(xs: seq<T>, r: seq<T>)
    requires r != [] && FirstSeenOrder(xs, r)
    ensures FirstSeenOrder(xs, r[1..])
  {
    forall i, j | 0 <= i < j < |r| - 1 ensures IndexOf(xs, r[1..][i]) < IndexOf(xs, r[1..][j]) {
      assert r[1..][i] == r[i + 1] && r[1..][j] == r[j + 1];
    }
  }

  /** Two non-empty listings of the same elements in first-occurrence order of `xs` start alike. */
  lemma HeadsAgree<T>(xs: seq<T>, r: seq<T>, d: seq<T>)
    requires r != [] && d != []
    requires r[0] in d && d[0] in r
    requires FirstSeenOrder(xs, r) && FirstSeenOrder(xs, d)
    ensures r[0] == d[0]
  {
    var a := IndexOf(r, d[0]);
    var b := IndexOf(d, r[0]);
    var ir, id := IndexOf(xs, r[0]), IndexOf(xs, d[0]);
    // each head occurs in the other listing, no earlier than that listing's head
    assert ir <= id;
    assert id <= ir;
    assert r[0] == xs[ir] && d[0] == xs[id];
  }

  /** Two repeat-free sequences with the same elements, both in first-occurrence order of `xs`, are equal. */
  lemma {:induction false} SameOrderedElements<T>(xs: seq<T>, r: seq<T>, d: seq<T>)
    requires Distinct(r) && Distinct(d)
    requires Covers(d, r) && Covers(r, d)
    requires FirstSeenOrder(xs, r) && FirstSeenOrder(xs, d)
    ensures r == d
    decreases |r|
  {
    assert r != [] ==> r[0] in d;
    assert d != [] ==> d[0] in r;
    if r != [] {
      HeadsAgree(xs, r, d);
      var r', d' := r[1..], d[1..];
      forall i | 0 <= i < |r'| ensures r'[i] in d' {
        assert r'[i] == r[i + 1] && r[i + 1] != r[0];
        var j := IndexOf(d, r[i + 1]);
        assert d'[j - 1] == r'[i];
      }
      forall i | 0 <= i < |d'| ensures d'[i] in r' {
        assert d'[i] == d[i + 1] && d[i + 1] != d[0];
        var j := IndexOf(r, d[i + 1]);
        assert r'[j - 1] == d'[i];
      }
      FirstSeenOrderTail(xs, r);
      FirstSeenOrderTail(xs, d);
      SameOrderedElements(xs, r', d');
      assert r == [r[0]] + r' && d == [d[0]] + d';
    }
  }
}
