/**
 Merging of nested maps, one level at a time.

 `MergeMaps` merges the elements of two maps key by key with an operation `op`. Only
 elements of the second map that `counts` create new keys; a missing key stands for the
 element `unit`, as it does for `std::map::operator[]`.
 */
module NestedMaps {

  function Get<K, V>(m: map<K, V>, k: K, unit: V): (r: V) {
    if k in m then m[k] else unit
  }

  function MergeMaps<K, V>(a: map<K, V>, b: map<K, V>, counts: V -> bool, op: (V, V) -> V, unit: V): (r: map<K, V>) {
    map k | k in a.Keys + b.Keys && (k in a || counts(b[k])) :: op(Get(a, k, unit), Get(b, k, unit))
  }

  /** Elements that do not count, and the `unit`, change nothing when they are merged in. */
  ghost predicate Neutral<V(!new)>(counts: V -> bool, op: (V, V) -> V, unit: V) {
    && (forall v :: op(v, unit) == v)
    && (forall v, w :: !counts(w) ==> op(v, w) == v)
  }

  predicate AssociativeAt<V(==)>(op: (V, V) -> V, u: V, v: V, w: V) {
    op(op(u, v), w) == op(u, op(v, w))
  }

  ghost predicate Associative<V(!new)>(op: (V, V) -> V) {
    forall u, v, w :: AssociativeAt(op, u, v, w)
  }

  /** What counts in a merged element is what counted in one of its parts. */
  ghost predicate CountsAdd<V(!new)>(counts: V -> bool, op: (V, V) -> V) {
    forall v, w :: counts(op(v, w)) <==> counts(v) || counts(w)
  }

  predicate AnyCounts<K, V>(m: map<K, V>, counts: V -> bool) {
    exists k | k in m :: counts(m[k])
  }

  lemma MergeNothing<K, V(!new)>(a: map<K, V>, b: map<K, V>, counts: V -> bool, op: (V, V) -> V, unit: V)
    requires Neutral(counts, op, unit)
    requires !AnyCounts(b, counts)
    ensures MergeMaps(a, b, counts, op, unit) == a
  {
    var r := MergeMaps(a, b, counts, op, unit);
    assert r.Keys == a.Keys;
    forall k | k in a
      ensures r[k] == a[k]
    {
      if k in b {
        assert !counts(b[k]);
      }
    }
  }

  /** One pass of a loop that merges the keys of `src` in any order. */
  lemma MergeStep<K, V(!new)>(a: map<K, V>, src: map<K, V>, todo: set<K>, k: K,
                              counts: V -> bool, op: (V, V) -> V, unit: V)
    requires Neutral(counts, op, unit)
    requires k in todo && todo <= src.Keys
    ensures var before := MergeMaps(a, src - todo, counts, op, unit);
            && Get(before, k, unit) == Get(a, k, unit)
            && MergeMaps(a, src - (todo - {k}), counts, op, unit)
               == if counts(src[k]) then before[k := op(Get(a, k, unit), src[k])] else before
  {
    var before := MergeMaps(a, src - todo, counts, op, unit);
    var l := MergeMaps(a, src - (todo - {k}), counts, op, unit);
    var r := if counts(src[k]) then before[k := op(Get(a, k, unit), src[k])] else before;
    assert l.Keys == r.Keys;
    forall x | x in l
      ensures l[x] == r[x]
    {
      if x != k {
        assert Get(src - (todo - {k}), x, unit) == Get(src - todo, x, unit);
      }
    }
  }

  lemma MergeMapsAssociative<K, V(!new)>(a: map<K, V>, b: map<K, V>, c: map<K, V>,
                                         counts: V -> bool, op: (V, V) -> V, unit: V)
    requires Neutral(counts, op, unit) && Associative(op) && CountsAdd(counts, op)
    ensures MergeMaps(MergeMaps(a, b, counts, op, unit), c, counts, op, unit)
         == MergeMaps(a, MergeMaps(b, c, counts, op, unit), counts, op, unit)
  {
    var l := MergeMaps(MergeMaps(a, b, counts, op, unit), c, counts, op, unit);
    var r := MergeMaps(a, MergeMaps(b, c, counts, op, unit), counts, op, unit);
    forall k
      ensures k in l <==> k in r
      ensures k in l ==> l[k] == r[k]
    {
      AssociativeKey(a, b, c, k, counts, op, unit);
      AssociativeValue(a, b, c, k, counts, op, unit);
    }
  }

  lemma AssociativeKey<K, V(!new)>(a: map<K, V>, b: map<K, V>, c: map<K, V>, k: K,
                                   counts: V -> bool, op: (V, V) -> V, unit: V)
    requires Neutral(counts, op, unit) && CountsAdd(counts, op)
    ensures k in MergeMaps(MergeMaps(a, b, counts, op, unit), c, counts, op, unit) <==>
            k in MergeMaps(a, MergeMaps(b, c, counts, op, unit), counts, op, unit)
  {
    GetMerged(b, c, k, counts, op, unit);
  }

  lemma AssociativeValue<K, V(!new)>(a: map<K, V>, b: map<K, V>, c: map<K, V>, k: K,
                                     counts: V -> bool, op: (V, V) -> V, unit: V)
    requires Neutral(counts, op, unit) && Associative(op)
    ensures Get(MergeMaps(MergeMaps(a, b, counts, op, unit), c, counts, op, unit), k, unit)
         == Get(MergeMaps(a, MergeMaps(b, c, counts, op, unit), counts, op, unit), k, unit)
  {
    GetMerged(a, b, k, counts, op, unit);
    GetMerged(b, c, k, counts, op, unit);
    GetMerged(MergeMaps(a, b, counts, op, unit), c, k, counts, op, unit);
    GetMerged(a, MergeMaps(b, c, counts, op, unit), k, counts, op, unit);
    assert AssociativeAt(op, Get(a, k, unit), Get(b, k, unit), Get(c, k, unit));
  }

  lemma GetMerged<K, V(!new)>(a: map<K, V>, b: map<K, V>, k: K, counts: V -> bool, op: (V, V) -> V, unit: V)
    requires Neutral(counts, op, unit)
    ensures Get(MergeMaps(a, b, counts, op, unit), k, unit) == op(Get(a, k, unit), Get(b, k, unit))
  {
  }

  /** Merging adds up at the next level out. */
  lemma AnyCountsAdd<K, V(!new)>(a: map<K, V>, b: map<K, V>, counts: V -> bool, op: (V, V) -> V, unit: V)
    requires Neutral(counts, op, unit) && CountsAdd(counts, op)
    ensures AnyCounts(MergeMaps(a, b, counts, op, unit), counts) <==> AnyCounts(a, counts) || AnyCounts(b, counts)
  {
    var r := MergeMaps(a, b, counts, op, unit);
    if AnyCounts(a, counts) {
      var k :| k in a && counts(a[k]);
      assert k in r && counts(r[k]);
    }
    if AnyCounts(b, counts) {
      var k :| k in b && counts(b[k]);
      assert k in r && counts(r[k]);
    }
    if AnyCounts(r, counts) {
      var k :| k in r && counts(r[k]);
      assert counts(Get(a, k, unit)) || counts(Get(b, k, unit));
      if !counts(Get(a, k, unit)) && k !in b {
        assert r[k] == op(Get(a, k, unit), unit) == Get(a, k, unit);
      }
    }
  }

  // ---------------------------------------------------------------- erasing while iterating

  /** `miutil::eraseElementIf` seen from the container. */
  function EraseIf<K, V>(m: map<K, V>, k: K, condition: bool): (r: map<K, V>) {
    if condition then m - {k} else m
  }

  /** Every element is cleaned, and dropped when nothing worth keeping is left of it. */
  function Prune<K, V>(m: map<K, V>, clean: V -> V, keep: V -> bool): (r: map<K, V>) {
    map k | k in m && keep(clean(m[k])) :: clean(m[k])
  }

  /** The same with the keys in `todo` still as they were: the state of the erasing loop. */
  function PruneExcept<K, V>(m: map<K, V>, todo: set<K>, clean: V -> V, keep: V -> bool): (r: map<K, V>) {
    map k | k in m && (k in todo || keep(clean(m[k]))) :: if k in todo then m[k] else clean(m[k])
  }

  lemma PruneStep<K, V>(m: map<K, V>, todo: set<K>, k: K, clean: V -> V, keep: V -> bool)
    requires k in todo && todo <= m.Keys
    ensures PruneExcept(m, todo - {k}, clean, keep)
         == EraseIf(PruneExcept(m, todo, clean, keep)[k := clean(m[k])], k, !keep(clean(m[k])))
    ensures PruneExcept(m, m.Keys, clean, keep) == m
    ensures PruneExcept(m, {}, clean, keep) == Prune(m, clean, keep)
  {
  }

  // ---------------------------------------------------------------- maps with one key

  lemma OneKeyUpdate<K, V>(m: map<K, V>, k: K, v: V)
    requires m.Keys == {k}
    ensures m[k := v] == map[k := v]
  {
  }

  lemma OneKeyPrune<K, V>(m: map<K, V>, k: K, clean: V -> V, keep: V -> bool)
    requires m.Keys == {k}
    ensures Prune(m, clean, keep) == if keep(clean(m[k])) then map[k := clean(m[k])] else map[]
  {
  }
}
