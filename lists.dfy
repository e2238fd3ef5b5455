/** LINQ's FirstOrDefault, Where, Count(predicate) and Select over sequences, with the facts
    the controllers' filters and statistics rely on. */
module Lists {
  import opened Text

  /** FirstOrDefault(p), as the index of that element. */
  function IndexWhere<T>(s: seq<T>, p: T -> bool): (r: Option<nat>)
    ensures r.Some? ==> r.value < |s| && p(s[r.value])
    ensures r.Some? ==> forall j :: 0 <= j < r.value ==> !p(s[j])
    ensures r.None? ==> forall j :: 0 <= j < |s| ==> !p(s[j])
    decreases |s|
  {
    if s == [] then None
    else if p(s[0]) then Some(0)
    else
      match IndexWhere(s[1..], p)
      case None => None
      case Some(i) => Some(i + 1)
  }

  /** Where(p).ToList(): the elements satisfying p, in order. */
  function Filter<T>(s: seq<T>, p: T -> bool): (r: seq<T>)
    ensures |r| <= |s|
    ensures forall k :: 0 <= k < |r| ==> p(r[k]) && r[k] in s
    ensures forall k :: 0 <= k < |s| && p(s[k]) ==> s[k] in r
    decreases |s|
  {
    if s == [] then []
    else
      var init := Filter(s[..|s| - 1], p);
      assert forall k :: 0 <= k < |s| - 1 ==> s[..|s| - 1][k] == s[k];
      if p(s[|s| - 1]) then init + [s[|s| - 1]] else init
  }

  /** Filtering is done element by element: the kept elements of a
      concatenation are the kept elements of each part, so order is preserved. */
  lemma {:induction false} FilterAppend<T>(a: seq<T>, b: seq<T>, p: T -> bool)
    ensures Filter(a + b, p) == Filter(a, p) + Filter(b, p)
    decreases |b|
  {
    if b == [] {
      assert a + b == a;
    } else {
      var bi := b[..|b| - 1];
      FilterAppend(a, bi, p);
      assert (a + b)[..|a + b| - 1] == a + bi;
      assert (a + b)[|a + b| - 1] == b[|b| - 1];
    }
  }

  /** A filter that keeps everything returns the sequence unchanged. */
  lemma {:induction false} FilterAll<T>(s: seq<T>, p: T -> bool)
    requires forall k :: 0 <= k < |s| ==> p(s[k])
    ensures Filter(s, p) == s
    decreases |s|
  {
    if s != [] {
      FilterAll(s[..|s| - 1], p);
    }
  }

  /** Count(p): how many elements satisfy p. */
  function Count<T>(s: seq<T>, p: T -> bool): (n: nat)
    ensures n <= |s|
    decreases |s|
  {
    if s == [] then 0
    else Count(s[..|s| - 1], p) + (if p(s[|s| - 1]) then 1 else 0)
  }

  /** Counting after a filter never counts more than counting the whole sequence. */
  lemma {:induction false} CountFilterBounded<T>(s: seq<T>, keep: T -> bool, p: T -> bool)
    ensures Count(Filter(s, keep), p) <= Count(s, p)
    decreases |s|
  {
    if s != [] {
      var init := s[..|s| - 1];
      var last := s[|s| - 1];
      CountFilterBounded(init, keep, p);
      if keep(last) {
        var fi := Filter(init, keep);
        assert (fi + [last])[..|fi + [last]| - 1] == fi;
      }
    }
  }

  /** Elements satisfying two exclusive predicates are counted at most once between them. */
  lemma {:induction false} CountDisjoint<T>(s: seq<T>, p: T -> bool, q: T -> bool)
    requires forall x :: !(p(x) && q(x))
    ensures Count(s, p) + Count(s, q) <= |s|
    decreases |s|
  {
    if s != [] {
      CountDisjoint(s[..|s| - 1], p, q);
    }
  }

  /** Select(f).ToList(). */
  function Map<T, U>(s: seq<T>, f: T -> U): (r: seq<U>)
    ensures |r| == |s|
    ensures forall k :: 0 <= k < |s| ==> r[k] == f(s[k])
  {
    seq(|s|, k requires 0 <= k < |s| => f(s[k]))
  }

  /** Filtering one more element keeps it at the end exactly when it satisfies p. */
  lemma FilterSnoc<T>(s: seq<T>, x: T, p: T -> bool)
    ensures Filter(s + [x], p) == Filter(s, p) + (if p(x) then [x] else [])
  {
    var t := s + [x];
    assert t[..|t| - 1] == s;
  }

  predicate IsNonEmpty(x: string) { x != "" }

  lemma FilterOne<T>(x: T, p: T -> bool)
    ensures Filter([x], p) == if p(x) then [x] else []
  {
    assert [x][..0] == [];
  }

  /** Dropping the empty pieces is Where(piece != ""): the non-empty pieces,
      each as often as it occurs, in their order. */
  lemma {:induction false} NonEmptyIsFilter(parts: seq<string>)
    ensures NonEmpty(parts) == Filter(parts, IsNonEmpty)
    decreases |parts|
  {
    if parts != [] {
      var head, tail := parts[0], parts[1..];
      var kept: seq<string> := if head != "" then [head] else [];
      assert NonEmpty(parts) == kept + NonEmpty(tail);
      NonEmptyIsFilter(tail);
      FilterOne(head, IsNonEmpty);
      FilterAppend([head], tail, IsNonEmpty);
      assert [head] + tail == parts;
    }
  }

  /** Split with RemoveEmptyEntries returns exactly the non-empty pieces of the
      plain Split, in order. */
  lemma {:induction false} SplitRemoveEmptyIsFilter(s: string, c: char)
    ensures SplitRemoveEmpty(s, c) == Filter(Split(s, c), IsNonEmpty)
  {
    NonEmptyIsFilter(Split(s, c));
  }

  /** Select maps a concatenation part by part. */
  lemma MapAppend<T, U>(a: seq<T>, b: seq<T>, f: T -> U)
    ensures Map(a + b, f) == Map(a, f) + Map(b, f)
  {
    assert forall k :: 0 <= k < |a + b| ==> Map(a + b, f)[k] == (Map(a, f) + Map(b, f))[k];
  }
}
