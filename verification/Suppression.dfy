/**
  Greedy, class-agnostic non-maximum suppression (`applyNMS`): the boxes are
  sorted by confidence, highest first and stable on ties; then the best
  remaining box is kept and every remaining box it suppresses is removed,
  until nothing remains.

  The greedy pass is written for any suppression relation `sup`; `ApplyNMS`
  instantiates it with `Suppresses` (IoU at least 0.5). Its proofs only use
  that the relation is symmetric.
 */
module Suppression {
  import opened Boxes
  import opened StableSort

  type Relation = (BoundingBox, BoundingBox) -> bool

  /** Sort key for `sortedByDescending { it.conf }`. */
  function ConfKey(b: BoundingBox): real {
    -b.conf
  }

  /** Non-increasing confidence. */
  ghost predicate ByConfidence(s: seq<BoundingBox>) {
    forall i, j :: 0 <= i < j < |s| ==> s[i].conf >= s[j].conf
  }

  /** No box of `s` suppresses another. */
  ghost predicate NoneSuppressed(s: seq<BoundingBox>, sup: Relation) {
    forall i, j :: 0 <= i < |s| && 0 <= j < |s| && i != j ==> !sup(s[i], s[j])
  }

  ghost predicate Symmetric(sup: Relation) {
    forall a, b :: sup(a, b) == sup(b, a)
  }

  lemma SuppressesSymmetric()
    ensures Symmetric(Suppresses)
  {
    forall a, b ensures Suppresses(a, b) == Suppresses(b, a) {
      IoUSymmetric(a, b);
    }
  }

  lemma SortedByConfKey(s: seq<BoundingBox>)
    ensures SortedBy(s, ConfKey) <==> ByConfidence(s)
  {
    if SortedBy(s, ConfKey) {
      forall i, j | 0 <= i < j < |s| ensures s[i].conf >= s[j].conf {
        assert ConfKey(s[i]) <= ConfKey(s[j]);
      }
    }
    if ByConfidence(s) {
      forall i, j | 0 <= i < j < |s| ensures ConfKey(s[i]) <= ConfKey(s[j]) {
        assert s[i].conf >= s[j].conf;
      }
    }
  }

  /** The boxes of `rest` that `kept` does not suppress, in order: the inner loop of `applyNMS`. */
  function Survivors(kept: BoundingBox, rest: seq<BoundingBox>, sup: Relation): (r: seq<BoundingBox>)
    ensures multiset(r) <= multiset(rest)
    ensures |r| <= |rest|
  {
    if rest == [] then []
    else
      var tail := Survivors(kept, rest[1..], sup);
      assert rest == [rest[0]] + rest[1..];
      if sup(kept, rest[0]) then tail else [rest[0]] + tail
  }

  /** Each box survives with all its copies unless `kept` suppresses it, and then with none. */
  lemma {:induction false} SurvivorsCount(kept: BoundingBox, rest: seq<BoundingBox>, sup: Relation, x: BoundingBox)
    ensures multiset(Survivors(kept, rest, sup))[x] == if sup(kept, x) then 0 else multiset(rest)[x]
  {
    if rest != [] {
      SurvivorsCount(kept, rest[1..], sup, x);
      assert rest == [rest[0]] + rest[1..];
    }
  }

  lemma SurvivorsMembers(kept: BoundingBox, rest: seq<BoundingBox>, sup: Relation)
    ensures forall j :: 0 <= j < |Survivors(kept, rest, sup)| ==>
              Survivors(kept, rest, sup)[j] in rest && !sup(kept, Survivors(kept, rest, sup)[j])
  {
    var r := Survivors(kept, rest, sup);
    forall j | 0 <= j < |r| ensures r[j] in rest && !sup(kept, r[j]) {
      assert r[j] in multiset(r);
      SurvivorsCount(kept, rest, sup, r[j]);
    }
  }

  lemma {:induction false} SurvivorsSorted(kept: BoundingBox, rest: seq<BoundingBox>, sup: Relation)
    requires ByConfidence(rest)
    ensures ByConfidence(Survivors(kept, rest, sup))
  {
    if rest != [] {
      var tail := rest[1..];
      assert ByConfidence(tail);
      SurvivorsSorted(kept, tail, sup);
      if !sup(kept, rest[0]) {
        assert forall j :: 0 <= j < |tail| ==> tail[j].conf <= rest[0].conf by {
          forall j | 0 <= j < |tail| ensures tail[j].conf <= rest[0].conf {
            assert tail[j] == rest[j + 1];
          }
        }
        SubMultisetConfAtMost(Survivors(kept, tail, sup), tail, rest[0].conf);
        ConsByConfidence(rest[0], Survivors(kept, tail, sup));
      }
    }
  }

  /** Nothing is dropped when `kept` suppresses none of `rest`. */
  lemma {:induction false} SurvivorsAll(kept: BoundingBox, rest: seq<BoundingBox>, sup: Relation)
    requires forall j :: 0 <= j < |rest| ==> !sup(kept, rest[j])
    ensures Survivors(kept, rest, sup) == rest
  {
    if rest != [] {
      SurvivorsAll(kept, rest[1..], sup);
    }
  }

  lemma ConsSubMultiset(s: seq<BoundingBox>, rest: seq<BoundingBox>)
    requires s != [] && multiset(rest) <= multiset(s[1..])
    ensures multiset([s[0]] + rest) <= multiset(s)
  {
    assert s == [s[0]] + s[1..];
  }

  /** The outer loop of `applyNMS` on boxes already sorted: keep the first, drop what it
      suppresses, repeat on what is left. */
  function Greedy(sorted: seq<BoundingBox>, sup: Relation): (r: seq<BoundingBox>)
    ensures multiset(r) <= multiset(sorted)
    ensures sorted != [] ==> r != [] && r[0] == sorted[0]
    decreases |sorted|
  {
    if sorted == [] then []
    else
      var survivors := Survivors(sorted[0], sorted[1..], sup);
      var rest := Greedy(survivors, sup);
      ConsSubMultiset(sorted, rest);
      [sorted[0]] + rest
  }

  /** `applyNMS`: some of its input (as a multiset), highest confidence first, and no two
      kept boxes with IoU of 0.5 or more. */
  function ApplyNMS(boxes: seq<BoundingBox>): (r: seq<BoundingBox>)
    ensures multiset(r) <= multiset(boxes)
    ensures ByConfidence(r)
    ensures forall i, j :: 0 <= i < |r| && 0 <= j < |r| && i != j ==> IoU(r[i], r[j]) < IouThreshold
  {
    var sorted := SortBy(boxes, ConfKey);
    SortedByConfKey(sorted);
    GreedySorted(sorted, Suppresses);
    SuppressesSymmetric();
    GreedyNoneSuppressed(sorted, Suppresses);
    Greedy(sorted, Suppresses)
  }

  /** A property of every element of `b` holds of every element of a sub-multiset `a`. */
  lemma SubMultisetConfAtMost(a: seq<BoundingBox>, b: seq<BoundingBox>, c: real)
    requires multiset(a) <= multiset(b)
    requires forall j :: 0 <= j < |b| ==> b[j].conf <= c
    ensures forall j :: 0 <= j < |a| ==> a[j].conf <= c
  {
    forall j | 0 <= j < |a| ensures a[j].conf <= c {
      assert a[j] in multiset(b);
      var k :| 0 <= k < |b| && b[k] == a[j];
    }
  }

  lemma SubMultisetNotSuppressed(a: seq<BoundingBox>, b: seq<BoundingBox>, h: BoundingBox, sup: Relation)
    requires multiset(a) <= multiset(b)
    requires forall j :: 0 <= j < |b| ==> !sup(h, b[j])
    ensures forall j :: 0 <= j < |a| ==> !sup(h, a[j])
  {
    forall j | 0 <= j < |a| ensures !sup(h, a[j]) {
      assert a[j] in multiset(b);
      var k :| 0 <= k < |b| && b[k] == a[j];
    }
  }

  lemma ConsByConfidence(h: BoundingBox, t: seq<BoundingBox>)
    requires ByConfidence(t)
    requires forall j :: 0 <= j < |t| ==> t[j].conf <= h.conf
    ensures ByConfidence([h] + t)
  {
    var r := [h] + t;
    forall i, j | 0 <= i < j < |r| ensures r[i].conf >= r[j].conf {
      assert r[j] == t[j - 1];
      if i > 0 { assert r[i] == t[i - 1]; }
    }
  }

  lemma ConsNoneSuppressed(h: BoundingBox, t: seq<BoundingBox>, sup: Relation)
    requires Symmetric(sup)
    requires NoneSuppressed(t, sup)
    requires forall j :: 0 <= j < |t| ==> !sup(h, t[j])
    ensures NoneSuppressed([h] + t, sup)
  {
    var r := [h] + t;
    forall i, j | 0 <= i < |r| && 0 <= j < |r| && i != j ensures !sup(r[i], r[j]) {
      if i == 0 {
        assert r[j] == t[j - 1];
      } else if j == 0 {
        assert r[i] == t[i - 1];
        assert !sup(h, r[i]);
      } else {
        assert r[i] == t[i - 1] && r[j] == t[j - 1];
      }
    }
  }

  lemma {:induction false} GreedySorted(sorted: seq<BoundingBox>, sup: Relation)
    requires ByConfidence(sorted)
    ensures ByConfidence(Greedy(sorted, sup))
    decreases |sorted|
  {
    if sorted != [] {
      var tail := sorted[1..];
      var s := Survivors(sorted[0], tail, sup);
      assert ByConfidence(tail);
      SurvivorsSorted(sorted[0], tail, sup);
      GreedySorted(s, sup);
      assert forall j :: 0 <= j < |tail| ==> tail[j].conf <= sorted[0].conf by {
        forall j | 0 <= j < |tail| ensures tail[j].conf <= sorted[0].conf {
          assert tail[j] == sorted[j + 1];
        }
      }
      SubMultisetConfAtMost(s, tail, sorted[0].conf);
      SubMultisetConfAtMost(Greedy(s, sup), s, sorted[0].conf);
      ConsByConfidence(sorted[0], Greedy(s, sup));
    }
  }

  /** No two boxes the greedy pass keeps suppress each other, in either order. */
  lemma {:induction false} GreedyNoneSuppressed(sorted: seq<BoundingBox>, sup: Relation)
    requires Symmetric(sup)
    ensures NoneSuppressed(Greedy(sorted, sup), sup)
    decreases |sorted|
  {
    if sorted != [] {
      var s := Survivors(sorted[0], sorted[1..], sup);
      GreedyNoneSuppressed(s, sup);
      SurvivorsMembers(sorted[0], sorted[1..], sup);
      SubMultisetNotSuppressed(Greedy(s, sup), s, sorted[0], sup);
      ConsNoneSuppressed(sorted[0], Greedy(s, sup), sup);
    }
  }

  /** Every copy the greedy pass drops is suppressed by a kept box of at least its confidence. */
  lemma {:induction false} GreedyCoverage(sorted: seq<BoundingBox>, sup: Relation, x: BoundingBox)
    requires ByConfidence(sorted)
    requires multiset(Greedy(sorted, sup))[x] < multiset(sorted)[x]
    ensures exists k :: k in Greedy(sorted, sup) && k.conf >= x.conf && sup(k, x)
    decreases |sorted|
  {
    var head := sorted[0];
    var tail := sorted[1..];
    var s := Survivors(head, tail, sup);
    var g := Greedy(s, sup);
    assert Greedy(sorted, sup) == [head] + g;
    DroppedFromTail(sorted, g, x);
    if sup(head, x) {
      CoveredByHead(sorted, sup, x);
    } else {
      assert ByConfidence(tail);
      SurvivorsSorted(head, tail, sup);
      SurvivorsCount(head, tail, sup, x);
      GreedyCoverage(s, sup, x);
      var k :| k in g && k.conf >= x.conf && sup(k, x);
      assert k in Greedy(sorted, sup);
    }
  }

  /** A copy dropped from `[head] + g` that `sorted` had is dropped from the tail. */
  lemma DroppedFromTail(sorted: seq<BoundingBox>, g: seq<BoundingBox>, x: BoundingBox)
    requires sorted != [] && multiset([sorted[0]] + g)[x] < multiset(sorted)[x]
    ensures multiset(g)[x] < multiset(sorted[1..])[x]
  {
    assert sorted == [sorted[0]] + sorted[1..];
    assert multiset([sorted[0]] + g) == multiset{sorted[0]} + multiset(g);
    assert multiset([sorted[0]] + sorted[1..]) == multiset{sorted[0]} + multiset(sorted[1..]);
  }

  /** A tail box the first box suppresses is covered by that first box, which is kept. */
  lemma CoveredByHead(sorted: seq<BoundingBox>, sup: Relation, x: BoundingBox)
    requires ByConfidence(sorted) && sorted != [] && x in sorted[1..] && sup(sorted[0], x)
    ensures exists k :: k in Greedy(sorted, sup) && k.conf >= x.conf && sup(k, x)
  {
    var m :| 0 <= m < |sorted| - 1 && sorted[1..][m] == x;
    assert sorted[m + 1] == x;
    assert sorted[0] in Greedy(sorted, sup);
  }

  /** A sequence in which no box suppresses another is left as it is. */
  lemma {:induction false} GreedyIdentity(sorted: seq<BoundingBox>, sup: Relation)
    requires NoneSuppressed(sorted, sup)
    ensures Greedy(sorted, sup) == sorted
    decreases |sorted|
  {
    if sorted != [] {
      var tail := sorted[1..];
      forall j | 0 <= j < |tail| ensures !sup(sorted[0], tail[j]) {
        assert tail[j] == sorted[j + 1];
      }
      SurvivorsAll(sorted[0], tail, sup);
      forall i, j | 0 <= i < |tail| && 0 <= j < |tail| && i != j ensures !sup(tail[i], tail[j]) {
        assert tail[i] == sorted[i + 1] && tail[j] == sorted[j + 1];
      }
      GreedyIdentity(tail, sup);
    }
  }

  /** The box with the highest confidence is kept, and it comes first; among several with the
      highest confidence, the earliest in the input wins. */
  lemma ApplyNMSKeepsBest(boxes: seq<BoundingBox>) returns (best: nat)
    requires boxes != []
    ensures best < |boxes| && ApplyNMS(boxes) != [] && ApplyNMS(boxes)[0] == boxes[best]
    ensures forall j :: 0 <= j < |boxes| ==> boxes[j].conf <= boxes[best].conf
    ensures forall j :: 0 <= j < best ==> boxes[j].conf < boxes[best].conf
  {
    best := SortByHead(boxes, ConfKey);
    forall j | 0 <= j < |boxes| ensures boxes[j].conf <= boxes[best].conf {
      assert ConfKey(boxes[best]) <= ConfKey(boxes[j]);
    }
    forall j | 0 <= j < best ensures boxes[j].conf < boxes[best].conf {
      assert ConfKey(boxes[best]) < ConfKey(boxes[j]);
    }
  }

  /** Suppression never empties a non-empty list. */
  lemma ApplyNMSNonEmpty(boxes: seq<BoundingBox>)
    requires boxes != []
    ensures ApplyNMS(boxes) != []
  {
    var _ := ApplyNMSKeepsBest(boxes);
  }

  /** Every dropped box (counted with multiplicity) is suppressed by a kept box whose
      confidence is at least its own. */
  lemma ApplyNMSCoverage(boxes: seq<BoundingBox>, x: BoundingBox)
    requires multiset(ApplyNMS(boxes))[x] < multiset(boxes)[x]
    ensures exists k :: k in ApplyNMS(boxes) && k.conf >= x.conf && IoU(k, x) >= IouThreshold
  {
    var sorted := SortBy(boxes, ConfKey);
    SortedByConfKey(sorted);
    GreedyCoverage(sorted, Suppresses, x);
  }

  /** Suppressing a second time changes nothing. */
  lemma ApplyNMSIdempotent(boxes: seq<BoundingBox>)
    ensures ApplyNMS(ApplyNMS(boxes)) == ApplyNMS(boxes)
  {
    var once := ApplyNMS(boxes);
    var sorted := SortBy(boxes, ConfKey);
    SortedByConfKey(sorted);
    GreedySorted(sorted, Suppresses);
    SuppressesSymmetric();
    GreedyNoneSuppressed(sorted, Suppresses);
    SortedByConfKey(once);
    SortByIdentity(once, ConfKey);
    GreedyIdentity(once, Suppresses);
  }
}
