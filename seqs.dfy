/** Sequence vocabulary shared by the two chart components: an optional
    value (a JavaScript `null` / `undefined` or a value) and the
    insertion-ordered set that `Array.from(new Set(xs))` produces. */
module Seqs {

  datatype Option<+T> = None | Some(value: T)

  function Min(a: int, b: int): int {
    if a < b then a else b
  }

  function Max(a: int, b: int): int {
    if a < b then b else a
  }

  /** No element occurs twice. */
  predicate NoDup<T(==)>(s: seq<T>) {
    forall i, j :: 0 <= i < j < |s| ==> s[i] != s[j]
  }

  /** The index of the first occurrence of `x` in `s`. */
  function FirstIndex<T(==)>(s: seq<T>, x: T): (k: nat)
    requires x in s
    ensures k < |s| && s[k] == x
    ensures forall j :: 0 <= j < k ==> s[j] != x
  {
    if s[0] == x then 0 else 1 + FirstIndex(s[1..], x)
  }

  /** An element that already occurs in a prefix keeps its first index when
      the sequence grows. */
  lemma {:induction false} FirstIndexPrefix<T>(s: seq<T>, n: nat, x: T)
    requires n <= |s| && x in s[..n]
    ensures FirstIndex(s, x) == FirstIndex(s[..n], x)
  {
    if s[0] != x {
      assert s[..n][1..] == s[1..][..n - 1];
      FirstIndexPrefix(s[1..], n - 1, x);
    }
  }

  /** `r` lists the elements of `s`, each once, ordered by where they
      first occur in `s`. */
  ghost predicate FirstOccurrences<T>(s: seq<T>, r: seq<T>) {
    && NoDup(r)
    && (forall k :: 0 <= k < |s| ==> s[k] in r)
    && (forall k :: 0 <= k < |r| ==> r[k] in s)
    && (forall i, j :: 0 <= i < j < |r| ==> FirstIndex(s, r[i]) < FirstIndex(s, r[j]))
  }

  /** `Array.from(new Set(s))`: the elements of `s`, each once, in the order
      in which they were first added to the set. Written the way the set is
      filled: one element at a time, from the front. */
  function Dedup<T(==)>(s: seq<T>): seq<T> {
    if s == [] then []
    else
      var n := |s| - 1;
      var d := Dedup(s[..n]);
      if s[n] in d then d else d + [s[n]]
  }

  /** `Dedup` lists the first occurrences. */
  lemma {:induction false} DedupSpec<T>(s: seq<T>)
    ensures FirstOccurrences(s, Dedup(s))
  {
    if s != [] {
      DedupSpec(s[..|s| - 1]);
      FirstOccurrencesGrow(s, Dedup(s[..|s| - 1]));
    }
  }

  /** One `Set.add` step keeps `FirstOccurrences`: a repeated element leaves
      the list as it is, a new one goes to the end. */
  lemma FirstOccurrencesGrow<T>(s: seq<T>, d: seq<T>)
    requires s != [] && FirstOccurrences(s[..|s| - 1], d)
    ensures s[|s| - 1] in d ==> FirstOccurrences(s, d)
    ensures s[|s| - 1] !in d ==> FirstOccurrences(s, d + [s[|s| - 1]])
  {
    var n := |s| - 1;
    assert forall k :: 0 <= k < n ==> s[k] == s[..n][k];
    forall x | x in d ensures FirstIndex(s, x) == FirstIndex(s[..n], x) {
      FirstIndexPrefix(s, n, x);
    }
    if s[n] !in d {
      assert FirstIndex(s, s[n]) == n;
      var r := d + [s[n]];
      assert forall k :: 0 <= k < |r| ==> r[k] in s;
    }
  }

  /** Adding an element that the set already holds leaves it unchanged, and
      adding a new one appends it: the step a `Set.add` loop takes. */
  lemma DedupSnoc<T>(s: seq<T>, x: T)
    ensures Dedup(s + [x]) == if x in Dedup(s) then Dedup(s) else Dedup(s) + [x]
  {
    assert (s + [x])[..|s|] == s;
  }

  /** A duplicate-free sequence is its own deduplication. */
  lemma {:induction false} DedupOfNoDup<T>(s: seq<T>)
    requires NoDup(s)
    ensures Dedup(s) == s
  {
    if s != [] {
      var n := |s| - 1;
      DedupOfNoDup(s[..n]);
      assert s[n] !in s[..n];
    }
  }
}
