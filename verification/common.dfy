/** Small shared vocabulary: optional values, JavaScript's `Infinity` next to
    finite reals, and the few sequence relations the rest of the model states
    its contracts with. */
module Common {

  /** A value that may be missing (`undefined` / `null` in the source). */
  datatype Option<+T> = None | Some(value: T) {

    /** The value, or `default` when missing: the source's `x ?? default`. */
    function GetOr(default: T): T {
      match this
      case Some(v) => v
      case None => default
    }
  }

  /** A finite real or `Infinity`, the initial value of the source's running minima. */
  datatype ExtReal = Finite(r: real) | Infinity {

    /** JavaScript's `<` on these values. */
    predicate Less(other: ExtReal) {
      match (this, other)
      case (Finite(a), Finite(b)) => a < b
      case (Finite(_), Infinity) => true
      case (Infinity, _) => false
    }

    /** JavaScript's `this > bound` for a finite bound. */
    predicate Exceeds(bound: real) {
      match this
      case Finite(a) => a > bound
      case Infinity => true
    }
  }

  function Max(a: int, b: int): int {
    if a < b then b else a
  }

  /** The set of elements of a sequence. */
  function Elements<T>(s: seq<T>): set<T> {
    set x | x in s
  }

  /** `p` is an initial segment of `s`. */
  predicate IsPrefix<T(==)>(p: seq<T>, s: seq<T>) {
    |p| <= |s| && s[..|p|] == p
  }

  /** No element occurs twice. */
  predicate NoDup<T(==)>(s: seq<T>) {
    forall i, j :: 0 <= i < j < |s| ==> s[i] != s[j]
  }

  /** `a` can be obtained from `b` by deleting elements: it keeps `b`'s order. */
  predicate IsSubseq<T(==)>(a: seq<T>, b: seq<T>)
    decreases |b|
  {
    if |a| == 0 then true
    else if |b| == 0 then false
    else (a[0] == b[0] && IsSubseq(a[1..], b[1..])) || IsSubseq(a, b[1..])
  }

  lemma {:induction false} SubseqElements<T>(a: seq<T>, b: seq<T>)
    requires IsSubseq(a, b)
    ensures |a| <= |b|
    ensures forall x :: x in a ==> x in b
    decreases |b|
  {
    if |a| == 0 {
    } else if a[0] == b[0] && IsSubseq(a[1..], b[1..]) {
      SubseqElements(a[1..], b[1..]);
      assert forall x :: x in a ==> x == a[0] || x in a[1..];
    } else {
      SubseqElements(a, b[1..]);
    }
  }

  /** Appending the same element to both sides, or to the larger side
      only, keeps a subsequence a subsequence. */
  lemma {:induction false} SubseqSnoc<T>(a: seq<T>, b: seq<T>, x: T)
    requires IsSubseq(a, b)
    ensures IsSubseq(a, b + [x])
    ensures IsSubseq(a + [x], b + [x])
    decreases |b|
  {
    if |b| == 0 {
      assert a == [];
      assert (a + [x])[1..] == [];
      return;
    }
    assert (b + [x])[1..] == b[1..] + [x];
    if |a| == 0 {
      SubseqSnoc(a, b[1..], x);
    } else if a[0] == b[0] && IsSubseq(a[1..], b[1..]) {
      SubseqSnoc(a[1..], b[1..], x);
      assert (a + [x])[1..] == a[1..] + [x];
    } else {
      SubseqSnoc(a, b[1..], x);
    }
  }

  lemma {:induction false} SubseqRefl<T>(a: seq<T>)
    ensures IsSubseq(a, a)
    decreases |a|
  {
    if |a| > 0 {
      SubseqRefl(a[1..]);
    }
  }

  /** The elements of `s` in order of first occurrence, each once: JavaScript's
      `[...new Set(s)]`. */
  function Dedup<T(==)>(s: seq<T>): (r: seq<T>)
    ensures NoDup(r)
    ensures forall x :: x in r ==> x in s
    ensures forall x :: x in s ==> x in r
    ensures |r| <= |s|
    decreases |s|
  {
    if |s| == 0 then []
    else
      var d := Dedup(s[..|s| - 1]);
      var x := s[|s| - 1];
      assert forall y :: y in s ==> y in s[..|s| - 1] || y == x;
      if x in d then d else d + [x]
  }

  /** A sequence without duplicates is its own deduplication. */
  lemma {:induction false} DedupOfNoDup<T>(s: seq<T>)
    requires NoDup(s)
    ensures Dedup(s) == s
    decreases |s|
  {
    if |s| > 0 {
      DedupOfNoDup(s[..|s| - 1]);
    }
  }

  /** Deduplicating `a + b` where `a` has no duplicates keeps `a` in front. */
  lemma {:induction false} DedupKeepsPrefix<T>(a: seq<T>, b: seq<T>)
    requires NoDup(a)
    ensures IsPrefix(a, Dedup(a + b))
    decreases |b|
  {
    if |b| == 0 {
      assert a + b == a;
      DedupOfNoDup(a);
    } else {
      var b' := b[..|b| - 1];
      assert (a + b)[..|a + b| - 1] == a + b';
      DedupKeepsPrefix(a, b');
      var d := Dedup(a + b');
      if b[|b| - 1] !in d {
        assert (d + [b[|b| - 1]])[..|a|] == d[..|a|];
      }
    }
  }

  /** Behind a prefix `a`, a list without duplicates holding exactly the
      elements of `a + b` holds the elements of `b` that are not in `a`. */
  lemma DedupTail<T>(a: seq<T>, b: seq<T>, r: seq<T>)
    requires NoDup(r) && IsPrefix(a, r)
    requires forall x :: x in r <==> x in a + b
    ensures forall x :: x in r[|a|..] ==> x in b && x !in a
    ensures forall x :: x in b && x !in a ==> x in r[|a|..]
  {
    forall x | x in b && x !in a
      ensures x in r[|a|..]
    {
      assert x in a + b;
      var i :| 0 <= i < |r| && r[i] == x;
      assert i >= |a|;
      assert r[|a|..][i - |a|] == x;
    }
    forall x | x in r[|a|..]
      ensures x in b && x !in a
    {
      var k :| 0 <= k < |r| - |a| && r[|a|..][k] == x;
      assert r[|a| + k] == x;
      assert x in r && x in a + b;
      var j :| 0 <= j < |a + b| && (a + b)[j] == x;
      assert j >= |a| && b[j - |a|] == x;
    }
  }

  /** Deduplicating `a + b` where `a` has no duplicates keeps `a` in front and
      appends the new elements of `b`. */
  lemma DedupAppend<T>(a: seq<T>, b: seq<T>)
    requires NoDup(a)
    ensures IsPrefix(a, Dedup(a + b))
    ensures forall x :: x in Dedup(a + b)[|a|..] ==> x in b && x !in a
    ensures forall x :: x in b && x !in a ==> x in Dedup(a + b)[|a|..]
  {
    DedupKeepsPrefix(a, b);
    DedupTail(a, b, Dedup(a + b));
  }
}
