/**
  A stable sort of a sequence by a real-valued key, ascending: Kotlin's
  `sortedBy { key }`. `sortedByDescending { conf }` is the same sort on the
  negated key, because negation reverses the order and keeps ties as ties.
 */
module StableSort {

  ghost predicate SortedBy<T>(s: seq<T>, key: T -> real) {
    forall i, j :: 0 <= i < j < |s| ==> key(s[i]) <= key(s[j])
  }

  /** `x` placed in front of the first element whose key is not smaller. */
  function Insert<T>(x: T, s: seq<T>, key: T -> real): (r: seq<T>)
    ensures multiset(r) == multiset(s) + multiset{x}
    ensures |r| == |s| + 1
    ensures forall j :: 0 <= j < |r| ==> r[j] == x || r[j] in s
  {
    if s == [] || key(x) <= key(s[0]) then [x] + s
    else
      var rest := Insert(x, s[1..], key);
      assert s == [s[0]] + s[1..];
      [s[0]] + rest
  }

  lemma {:induction false} InsertSorted<T>(x: T, s: seq<T>, key: T -> real)
    requires SortedBy(s, key)
    ensures SortedBy(Insert(x, s, key), key)
  {
    if s == [] || key(x) <= key(s[0]) {
      var r := [x] + s;
      forall i, j | 0 <= i < j < |r| ensures key(r[i]) <= key(r[j]) {
        assert r[j] == s[j - 1];
        if i > 0 {
          assert r[i] == s[i - 1];
        } else {
          assert key(s[0]) <= key(s[j - 1]);
        }
      }
    } else {
      InsertSorted(x, s[1..], key);
      var rest := Insert(x, s[1..], key);
      var r := [s[0]] + rest;
      forall i, j | 0 <= i < j < |r| ensures key(r[i]) <= key(r[j]) {
        assert r[j] == rest[j - 1];
        if i > 0 {
          assert r[i] == rest[i - 1];
        } else if rest[j - 1] != x {
          var k :| 0 <= k < |s[1..]| && s[1..][k] == rest[j - 1];
          assert s[k + 1] == rest[j - 1];
        }
      }
    }
  }

  /** Insertion sort from the back: stable, since an element is inserted in front of its equals. */
  function SortBy<T>(s: seq<T>, key: T -> real): (r: seq<T>)
    ensures multiset(r) == multiset(s)
    ensures SortedBy(r, key)
  {
    if s == [] then []
    else
      var sortedTail := SortBy(s[1..], key);
      InsertSorted(s[0], sortedTail, key);
      assert s == [s[0]] + s[1..];
      Insert(s[0], sortedTail, key)
  }

  /** Sorting keeps the length and draws every element from the input. */
  lemma SortByMembers<T>(s: seq<T>, key: T -> real)
    ensures |SortBy(s, key)| == |s|
    ensures forall k :: 0 <= k < |s| ==> SortBy(s, key)[k] in s
  {
    var r := SortBy(s, key);
    assert |multiset(r)| == |multiset(s)|;
    forall k | 0 <= k < |s| ensures r[k] in s {
      assert r[k] in multiset(r);
    }
  }

  /** The elements of `s` whose key equals `k`, in their order in `s`. */
  function WithKey<T>(s: seq<T>, key: T -> real, k: real): seq<T> {
    if s == [] then [] else (if key(s[0]) == k then [s[0]] else []) + WithKey(s[1..], key, k)
  }

  lemma {:induction false} InsertWithKey<T>(x: T, s: seq<T>, key: T -> real, k: real)
    ensures WithKey(Insert(x, s, key), key, k)
         == (if key(x) == k then [x] else []) + WithKey(s, key, k)
  {
    if s == [] || key(x) <= key(s[0]) {
      assert ([x] + s)[1..] == s;
    } else {
      InsertWithKey(x, s[1..], key, k);
      var rest := Insert(x, s[1..], key);
      assert ([s[0]] + rest)[1..] == rest;
      assert WithKey([s[0]] + rest, key, k)
          == (if key(s[0]) == k then [s[0]] else []) + WithKey(rest, key, k);
      assert WithKey(s, key, k) == (if key(s[0]) == k then [s[0]] else []) + WithKey(s[1..], key, k);
    }
  }

  /** Stability: among elements with equal keys, the sort keeps their input order. */
  lemma {:induction false} SortByStable<T>(s: seq<T>, key: T -> real, k: real)
    ensures WithKey(SortBy(s, key), key, k) == WithKey(s, key, k)
  {
    if s != [] {
      SortByStable(s[1..], key, k);
      InsertWithKey(s[0], SortBy(s[1..], key), key, k);
    }
  }

  /** `s` with `x` placed at position `pos`. */
  function Splice<T>(s: seq<T>, pos: nat, x: T): (r: seq<T>)
    requires pos <= |s|
    ensures |r| == |s| + 1
    ensures forall p :: 0 <= p < |r| ==> r[p] == if p < pos then s[p] else if p == pos then x else s[p - 1]
  {
    s[..pos] + [x] + s[pos..]
  }

  /** `Insert` splices `x` in at a position before which every key is strictly smaller. */
  lemma {:induction false} InsertAt<T>(x: T, s: seq<T>, key: T -> real) returns (pos: nat)
    ensures pos <= |s| && Insert(x, s, key) == s[..pos] + [x] + s[pos..]
    ensures forall p :: 0 <= p < pos ==> key(s[p]) < key(x)
  {
    if s == [] || key(x) <= key(s[0]) {
      pos := 0;
      assert s[..0] == [] && s[0..] == s;
    } else {
      var tail := s[1..];
      var pos' := InsertAt(x, tail, key);
      pos := pos' + 1;
      assert s[..pos] == [s[0]] + tail[..pos'] && s[pos..] == tail[pos'..];
      assert s[..pos] + [x] + s[pos..] == [s[0]] + (tail[..pos'] + [x] + tail[pos'..]);
      forall p | 0 <= p < pos ensures key(s[p]) < key(x) {
        if p > 0 { assert s[p] == s[1..][p - 1]; }
      }
    }
  }

  /** A permutation of the indices below `n`. */
  ghost predicate IsPermutation(perm: seq<nat>, n: nat) {
    && |perm| == n
    && (forall p :: 0 <= p < n ==> perm[p] < n)
    && (forall p, q :: 0 <= p < q < n ==> perm[p] != perm[q])
    && (forall m :: 0 <= m < n ==> m in perm)
  }

  /** `r` is `s` rearranged by `perm`, with equal keys in increasing input position. */
  ghost predicate StableIndices<T>(s: seq<T>, r: seq<T>, perm: seq<nat>, key: T -> real) {
    && |r| == |s| && IsPermutation(perm, |s|)
    && (forall p :: 0 <= p < |s| ==> r[p] == s[perm[p]])
    && (forall p, q :: 0 <= p < q < |s| && key(r[p]) == key(r[q]) ==> perm[p] < perm[q])
  }

  function Shift(perm: seq<nat>): (r: seq<nat>)
    ensures |r| == |perm| && forall p :: 0 <= p < |r| ==> r[p] == perm[p] + 1
  {
    seq(|perm|, p requires 0 <= p < |perm| => perm[p] + 1)
  }

  /** Where the element at `p` of the spliced sequence came from in the old one. */
  function Source(p: nat, pos: nat): nat
    requires p != pos
  {
    if p < pos then p else p - 1
  }

  lemma SpliceElements<T>(x: T, tail: seq<T>, sortedTail: seq<T>, tailPerm: seq<nat>, pos: nat, key: T -> real)
    requires StableIndices(tail, sortedTail, tailPerm, key) && pos <= |tail|
    ensures var s, r, perm := [x] + tail, Splice(sortedTail, pos, x), Splice(Shift(tailPerm), pos, 0);
      forall p :: 0 <= p < |s| ==> perm[p] < |s| && r[p] == s[perm[p]]
  {
    var s, r, perm := [x] + tail, Splice(sortedTail, pos, x), Splice(Shift(tailPerm), pos, 0);
    forall p | 0 <= p < |s| ensures perm[p] < |s| && r[p] == s[perm[p]] {
      if p != pos {
        var p' := Source(p, pos);
        assert perm[p] == tailPerm[p'] + 1 && r[p] == sortedTail[p'];
        assert s[tailPerm[p'] + 1] == tail[tailPerm[p']];
      }
    }
  }

  lemma SpliceInjective<T>(tail: seq<T>, sortedTail: seq<T>, tailPerm: seq<nat>, pos: nat, key: T -> real)
    requires StableIndices(tail, sortedTail, tailPerm, key) && pos <= |tail|
    ensures var perm := Splice(Shift(tailPerm), pos, 0);
      forall p, q :: 0 <= p < q < |perm| ==> perm[p] != perm[q]
  {
    var perm := Splice(Shift(tailPerm), pos, 0);
    forall p, q | 0 <= p < q < |perm| ensures perm[p] != perm[q] {
      if p != pos && q != pos {
        assert perm[p] == tailPerm[Source(p, pos)] + 1 && perm[q] == tailPerm[Source(q, pos)] + 1;
      }
    }
  }

  lemma SpliceCovers<T>(tail: seq<T>, sortedTail: seq<T>, tailPerm: seq<nat>, pos: nat, key: T -> real)
    requires StableIndices(tail, sortedTail, tailPerm, key) && pos <= |tail|
    ensures var perm := Splice(Shift(tailPerm), pos, 0);
      forall m :: 0 <= m < |perm| ==> m in perm
  {
    var perm := Splice(Shift(tailPerm), pos, 0);
    forall m | 0 <= m < |perm| ensures m in perm {
      if m == 0 {
        assert perm[pos] == 0;
      } else {
        assert m - 1 in tailPerm;
        var p' :| 0 <= p' < |tailPerm| && tailPerm[p'] == m - 1;
        var p := if p' < pos then p' else p' + 1;
        assert perm[p] == m;
      }
    }
  }

  /** Every key spliced in before `x` is strictly smaller than its key. */
  lemma SpliceBelow<T>(x: T, sorted: seq<T>, pos: nat, key: T -> real)
    requires pos <= |sorted|
    requires forall p :: 0 <= p < pos ==> key(sorted[p]) < key(x)
    ensures var r := Splice(sorted, pos, x);
      forall p :: 0 <= p < pos ==> key(r[p]) < key(r[pos])
  {
    var r := Splice(sorted, pos, x);
    forall p | 0 <= p < pos ensures key(r[p]) < key(r[pos]) {
      assert r[p] == sorted[p];
    }
  }

  lemma SpliceStable<T>(x: T, sortedTail: seq<T>, tailPerm: seq<nat>, pos: nat, key: T -> real)
    requires |tailPerm| == |sortedTail| && pos <= |sortedTail|
    requires forall p, q :: 0 <= p < q < |sortedTail| && key(sortedTail[p]) == key(sortedTail[q]) ==>
               tailPerm[p] < tailPerm[q]
    requires forall p :: 0 <= p < pos ==> key(sortedTail[p]) < key(x)
    ensures var r, perm := Splice(sortedTail, pos, x), Splice(Shift(tailPerm), pos, 0);
      forall p, q :: 0 <= p < q < |r| && key(r[p]) == key(r[q]) ==> perm[p] < perm[q]
  {
    var r, perm := Splice(sortedTail, pos, x), Splice(Shift(tailPerm), pos, 0);
    SpliceBelow(x, sortedTail, pos, key);
    forall p, q | 0 <= p < q < |r| && q != pos && key(r[p]) == key(r[q]) ensures perm[p] < perm[q] {
      if p != pos {
        var p', q' := Source(p, pos), Source(q, pos);
        assert r[p] == sortedTail[p'] && r[q] == sortedTail[q'] && p' < q';
        assert perm[p] == tailPerm[p'] + 1 && perm[q] == tailPerm[q'] + 1;
      }
    }
  }

  /** Stability by index: the `p`-th element of the sorted sequence is the `perm[p]`-th of
      the input, `perm` is a permutation, and elements with equal keys appear in the sorted
      sequence in increasing input position. */
  lemma {:induction false} SortByIndices<T>(s: seq<T>, key: T -> real) returns (perm: seq<nat>)
    ensures StableIndices(s, SortBy(s, key), perm, key)
  {
    if s == [] {
      perm := [];
    } else {
      var tail := s[1..];
      var sortedTail := SortBy(tail, key);
      var tailPerm := SortByIndices(tail, key);
      var pos := InsertAt(s[0], sortedTail, key);
      assert SortBy(s, key) == Splice(sortedTail, pos, s[0]);
      assert s == [s[0]] + tail;
      perm := SpliceStep(s[0], tail, sortedTail, tailPerm, pos, key);
    }
  }

  /** One insertion keeps stability by index. */
  lemma SpliceStep<T>(x: T, tail: seq<T>, sortedTail: seq<T>, tailPerm: seq<nat>, pos: nat, key: T -> real)
    returns (perm: seq<nat>)
    requires StableIndices(tail, sortedTail, tailPerm, key) && pos <= |tail|
    requires forall p :: 0 <= p < pos ==> key(sortedTail[p]) < key(x)
    ensures StableIndices([x] + tail, Splice(sortedTail, pos, x), perm, key)
  {
    perm := Splice(Shift(tailPerm), pos, 0);
    SpliceElements(x, tail, sortedTail, tailPerm, pos, key);
    SpliceInjective(tail, sortedTail, tailPerm, pos, key);
    SpliceCovers(tail, sortedTail, tailPerm, pos, key);
    SpliceStable(x, sortedTail, tailPerm, pos, key);
  }

  /** A sequence already in order is returned unchanged. */
  lemma {:induction false} SortByIdentity<T>(s: seq<T>, key: T -> real)
    requires SortedBy(s, key)
    ensures SortBy(s, key) == s
  {
    if s != [] {
      SortByIdentity(s[1..], key);
    }
  }

  /** The head of the sorted sequence is the first element of the input with the least key. */
  lemma SortByHead<T>(s: seq<T>, key: T -> real) returns (i: nat)
    requires s != []
    ensures i < |s| && SortBy(s, key)[0] == s[i]
    ensures forall j :: 0 <= j < |s| ==> key(s[i]) <= key(s[j])
    ensures forall j :: 0 <= j < i ==> key(s[i]) < key(s[j])
  {
    var sorted := SortBy(s, key);
    var perm := SortByIndices(s, key);
    i := perm[0];
    forall j | 0 <= j < |s| ensures key(s[i]) <= key(s[j]) && (j < i ==> key(s[i]) < key(s[j])) {
      assert j in perm;
      var p :| 0 <= p < |perm| && perm[p] == j;
      assert sorted[p] == s[j];
      if p > 0 {
        assert key(sorted[0]) <= key(sorted[p]);
      }
    }
  }
}
