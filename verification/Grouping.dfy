/**
  From suppressed boxes to a blood-pressure reading (`identifyResult` and
  `getValueFromDigits`): every box labelled "10" is a value marker; it
  collects, in box order, up to three digit boxes lying at least 75% inside
  it; the digits are read left to right as a decimal number; and the markers,
  ordered top to bottom, give systolic, diastolic and pulse.
 */
module Grouping {
  import opened Optional
  import opened KotlinText
  import opened Boxes
  import opened StableSort

  /** The label of the class that marks a whole displayed value. */
  const MarkerLabel: string := "10"
  /** A marker collects at most this many digits. */
  const MaxDigits: nat := 3

  /** `BPValueBoundingBox`: one marker, its digits left to right, their value and the mean
      confidence of the marker and its digits. */
  datatype BPValueBoundingBox = BPValueBoundingBox(
    valueBox: BoundingBox,
    digitBoxes: seq<BoundingBox>,
    value: int,
    avgConf: real)

  /** Kotlin's `Triple(sys, dia, pul)`; zero means "not determined". */
  datatype Reading = Reading(sys: int, dia: int, pul: int)

  const NoReading: Reading := Reading(0, 0, 0)

  predicate IsMarker(b: BoundingBox) {
    b.clsName == MarkerLabel
  }

  /** `boxes.filter { it.clsName == "10" }` */
  function Markers(boxes: seq<BoundingBox>): (r: seq<BoundingBox>)
    ensures forall b :: b in r <==> b in boxes && IsMarker(b)
    ensures forall b {:trigger multiset(r)[b]} :: multiset(r)[b] == if IsMarker(b) then multiset(boxes)[b] else 0
    ensures |r| <= |boxes|
  {
    if boxes == [] then []
    else
      assert boxes == [boxes[0]] + boxes[1..];
      (if IsMarker(boxes[0]) then [boxes[0]] else []) + Markers(boxes[1..])
  }

  /** The filter keeps input order: it distributes over concatenation. */
  lemma {:induction false} MarkersAppend(a: seq<BoundingBox>, b: seq<BoundingBox>)
    ensures Markers(a + b) == Markers(a) + Markers(b)
  {
    if a != [] {
      assert (a + b)[0] == a[0] && (a + b)[1..] == a[1..] + b;
      MarkersAppend(a[1..], b);
    } else {
      assert a + b == b;
    }
  }

  /** The boxes that are not markers, in order. */
  function NonMarkers(boxes: seq<BoundingBox>): (r: seq<BoundingBox>)
    ensures forall b :: b in r <==> b in boxes && !IsMarker(b)
    ensures forall b {:trigger multiset(r)[b]} :: multiset(r)[b] == if IsMarker(b) then 0 else multiset(boxes)[b]
  {
    if boxes == [] then []
    else
      assert boxes == [boxes[0]] + boxes[1..];
      (if IsMarker(boxes[0]) then [] else [boxes[0]]) + NonMarkers(boxes[1..])
  }

  /** The filter keeps input order: it distributes over concatenation. */
  lemma {:induction false} NonMarkersAppend(a: seq<BoundingBox>, b: seq<BoundingBox>)
    ensures NonMarkers(a + b) == NonMarkers(a) + NonMarkers(b)
  {
    if a != [] {
      assert (a + b)[0] == a[0] && (a + b)[1..] == a[1..] + b;
      NonMarkersAppend(a[1..], b);
    } else {
      assert a + b == b;
    }
  }

  /** Kotlin's `boxes.minus(excluded)`: every element not in `excluded`, in order. */
  function Minus(boxes: seq<BoundingBox>, excluded: set<BoundingBox>): seq<BoundingBox> {
    if boxes == [] then []
    else (if boxes[0] in excluded then [] else [boxes[0]]) + Minus(boxes[1..], excluded)
  }

  /** `boxes.minus(valueBoxes.toSet())` */
  function DigitCandidates(boxes: seq<BoundingBox>): seq<BoundingBox> {
    Minus(boxes, set b | b in Markers(boxes))
  }

  lemma {:induction false} MinusMarkers(boxes: seq<BoundingBox>, excluded: set<BoundingBox>)
    requires forall b :: b in boxes ==> (b in excluded <==> IsMarker(b))
    ensures Minus(boxes, excluded) == NonMarkers(boxes)
  {
    if boxes != [] {
      assert boxes[0] in boxes;
      MinusMarkers(boxes[1..], excluded);
    }
  }

  /** Removing the marker set removes exactly the boxes labelled "10", and keeps the order of
      all the others. */
  lemma DigitCandidatesAreNonMarkers(boxes: seq<BoundingBox>)
    ensures DigitCandidates(boxes) == NonMarkers(boxes)
  {
    MinusMarkers(boxes, set b | b in Markers(boxes));
  }

  /** The digit boxes that lie inside `marker`, in order. */
  function Qualifying(ds: seq<BoundingBox>, marker: BoundingBox): (r: seq<BoundingBox>)
    ensures forall b :: b in r <==> b in ds && Inside(b, marker)
    ensures forall b {:trigger multiset(r)[b]} :: multiset(r)[b] == if Inside(b, marker) then multiset(ds)[b] else 0
  {
    if ds == [] then []
    else
      assert ds == [ds[0]] + ds[1..];
      (if Inside(ds[0], marker) then [ds[0]] else []) + Qualifying(ds[1..], marker)
  }

  /** The filter keeps candidate order: it distributes over concatenation, so the digits
      `Take` keeps are the earliest qualifying ones. */
  lemma {:induction false} QualifyingAppend(a: seq<BoundingBox>, b: seq<BoundingBox>, marker: BoundingBox)
    ensures Qualifying(a + b, marker) == Qualifying(a, marker) + Qualifying(b, marker)
  {
    if a != [] {
      var head := if Inside(a[0], marker) then [a[0]] else [];
      assert (a + b)[0] == a[0] && (a + b)[1..] == a[1..] + b;
      assert Qualifying(a + b, marker) == head + Qualifying(a[1..] + b, marker);
      QualifyingAppend(a[1..], b, marker);
      assert Qualifying(a, marker) == head + Qualifying(a[1..], marker);
    } else {
      assert a + b == b;
    }
  }

  function Take<T>(s: seq<T>, n: nat): seq<T> {
    if |s| <= n then s else s[..n]
  }

  /** The inner loop of `identifyResult`: scan the digit boxes in order, add each one inside
      the marker, and stop once `room` more cannot be added. */
  function Collect(ds: seq<BoundingBox>, marker: BoundingBox, room: nat): (r: seq<BoundingBox>)
    ensures |r| <= room
  {
    if ds == [] || room == 0 then []
    else if Inside(ds[0], marker) then [ds[0]] + Collect(ds[1..], marker, room - 1)
    else Collect(ds[1..], marker, room)
  }

  /** The loop takes exactly the first `room` qualifying digits, and all of them when fewer
      qualify: a further qualifying digit is ignored, not reassigned. */
  lemma {:induction false} CollectTakesFirstQualifying(ds: seq<BoundingBox>, marker: BoundingBox, room: nat)
    ensures Collect(ds, marker, room) == Take(Qualifying(ds, marker), room)
  {
    if ds != [] && room > 0 {
      var q := Qualifying(ds[1..], marker);
      if Inside(ds[0], marker) {
        CollectTakesFirstQualifying(ds[1..], marker, room - 1);
        assert Collect(ds, marker, room) == [ds[0]] + Collect(ds[1..], marker, room - 1);
        assert Qualifying(ds, marker) == [ds[0]] + q;
        if |q| > room - 1 {
          assert ([ds[0]] + q)[..room] == [ds[0]] + q[..room - 1];
        }
      } else {
        CollectTakesFirstQualifying(ds[1..], marker, room);
        assert Collect(ds, marker, room) == Collect(ds[1..], marker, room);
        assert Qualifying(ds, marker) == q;
      }
    } else if ds != [] {
      assert Take(Qualifying(ds, marker), 0) == [];
    }
  }

  /** `digits.joinToString("") { it.clsName }` */
  function ConcatLabels(ds: seq<BoundingBox>): string {
    if ds == [] then "" else ds[0].clsName + ConcatLabels(ds[1..])
  }

  /** Every label is one ASCII digit. */
  predicate SingleDigitLabels(ds: seq<BoundingBox>) {
    forall k :: 0 <= k < |ds| ==> |ds[k].clsName| == 1 && IsDigit(ds[k].clsName[0])
  }

  function Pow10(n: nat): (p: nat)
    ensures p >= 1
  {
    if n == 0 then 1 else 10 * Pow10(n - 1)
  }

  lemma {:induction false} DigitsValueBound(s: string)
    requires AllDigits(s)
    ensures DigitsValue(s) < Pow10(|s|)
  {
    if s != [] {
      DigitsValueBound(s[..|s| - 1]);
    }
  }

  lemma {:induction false} ConcatSingleDigits(ds: seq<BoundingBox>)
    requires SingleDigitLabels(ds)
    ensures |ConcatLabels(ds)| == |ds| && AllDigits(ConcatLabels(ds))
  {
    if ds != [] {
      ConcatSingleDigits(ds[1..]);
    }
  }

  /** `getValueFromDigits`: the concatenated labels read as an `Int`, or 0 when they do not
      read as one. */
  function ValueFromDigits(ds: seq<BoundingBox>): (r: int)
    ensures IsInt32(r)
    ensures ds == [] ==> r == 0
  {
    ToIntOrNull(ConcatLabels(ds)).GetOr(0)
  }

  /** With single-digit labels and at most three digits, as the grouping loop guarantees for
      such labels, the value is the decimal number they spell, between 0 and 999. */
  lemma SingleDigitValue(ds: seq<BoundingBox>)
    requires SingleDigitLabels(ds) && 0 < |ds| <= MaxDigits
    ensures AllDigits(ConcatLabels(ds)) && ValueFromDigits(ds) == DigitsValue(ConcatLabels(ds))
    ensures 0 <= ValueFromDigits(ds) < 1000
  {
    var text := ConcatLabels(ds);
    ConcatSingleDigits(ds);
    DigitsValueBound(text);
    assert Pow10(|text|) <= 1000 by {
      assert Pow10(3) == 1000;
      assert |text| <= 3;
      if |text| < 3 {
        assert Pow10(|text|) <= Pow10(2) <= 100;
      }
    }
    assert DigitsValue(text) <= MaxInt;
  }

  function SumConf(ds: seq<BoundingBox>): real {
    if ds == [] then 0.0 else ds[0].conf + SumConf(ds[1..])
  }

  lemma {:induction false} SumConfInsert(x: BoundingBox, s: seq<BoundingBox>, key: BoundingBox -> real)
    ensures SumConf(Insert(x, s, key)) == x.conf + SumConf(s)
  {
    if s != [] && key(x) > key(s[0]) {
      SumConfInsert(x, s[1..], key);
    }
  }

  /** Reordering digits does not change their summed confidence. */
  lemma {:induction false} SumConfSort(s: seq<BoundingBox>, key: BoundingBox -> real)
    ensures SumConf(SortBy(s, key)) == SumConf(s)
  {
    if s != [] {
      SumConfSort(s[1..], key);
      SumConfInsert(s[0], SortBy(s[1..], key), key);
    }
  }

  /** Sort key for `sortedBy { it.x1 }`. */
  function X1Key(b: BoundingBox): real {
    b.x1
  }

  lemma {:induction false} CollectMembers(ds: seq<BoundingBox>, marker: BoundingBox, room: nat)
    ensures forall b :: b in Collect(ds, marker, room) ==> b in ds && Inside(b, marker)
  {
    if ds != [] && room > 0 {
      if Inside(ds[0], marker) {
        CollectMembers(ds[1..], marker, room - 1);
      } else {
        CollectMembers(ds[1..], marker, room);
      }
    }
  }

  /** What sorting the collected digits by x1 keeps of them. */
  lemma SortedDigits(ds: seq<BoundingBox>, marker: BoundingBox)
    ensures var digits := Collect(ds, marker, MaxDigits);
      var sorted := SortBy(digits, X1Key);
      && |sorted| == |digits| <= MaxDigits
      && multiset(sorted) == multiset(Take(Qualifying(ds, marker), MaxDigits))
      && (forall k :: 0 <= k < |sorted| ==> sorted[k] in ds && Inside(sorted[k], marker))
      && SortedBy(sorted, X1Key)
      && SumConf(sorted) == SumConf(digits)
    ensures forall x :: WithKey(SortBy(Collect(ds, marker, MaxDigits), X1Key), X1Key, x)
                     == WithKey(Take(Qualifying(ds, marker), MaxDigits), X1Key, x)
  {
    var digits := Collect(ds, marker, MaxDigits);
    CollectTakesFirstQualifying(ds, marker, MaxDigits);
    CollectMembers(ds, marker, MaxDigits);
    SortByMembers(digits, X1Key);
    SumConfSort(digits, X1Key);
    forall x ensures WithKey(SortBy(digits, X1Key), X1Key, x) == WithKey(digits, X1Key, x) {
      SortByStable(digits, X1Key, x);
    }
  }

  /** The group's confidence: the marker's and its digits' confidences averaged, the marker
      counting as one more box. */
  function GroupAverage(markerConf: real, digits: seq<BoundingBox>): real {
    (markerConf + SumConf(digits)) / ((|digits| + 1) as real)
  }

  /** Averaging the collected digits or the same digits sorted gives the same confidence. */
  lemma SortedAverage(markerConf: real, digits: seq<BoundingBox>, sorted: seq<BoundingBox>)
    requires SumConf(sorted) == SumConf(digits) && |sorted| == |digits|
    ensures GroupAverage(markerConf, sorted) == GroupAverage(markerConf, digits)
  {
  }

  /** One iteration of the marker loop: the marker's group. */
  function MakeGroup(marker: BoundingBox, candidates: seq<BoundingBox>): (g: BPValueBoundingBox)
    ensures g.valueBox == marker
    ensures |g.digitBoxes| <= MaxDigits
    ensures multiset(g.digitBoxes) == multiset(Take(Qualifying(candidates, marker), MaxDigits))
    ensures forall k :: 0 <= k < |g.digitBoxes| ==>
              g.digitBoxes[k] in candidates && Inside(g.digitBoxes[k], marker)
    ensures SortedBy(g.digitBoxes, X1Key)
    ensures forall x :: WithKey(g.digitBoxes, X1Key, x)
                     == WithKey(Take(Qualifying(candidates, marker), MaxDigits), X1Key, x)
    ensures g.avgConf == GroupAverage(marker.conf, g.digitBoxes)
  {
    var digits := Collect(candidates, marker, MaxDigits);
    var sorted := SortBy(digits, X1Key);
    SortedDigits(candidates, marker);
    SortedAverage(marker.conf, digits, sorted);
    BPValueBoundingBox(marker, sorted, ValueFromDigits(sorted), GroupAverage(marker.conf, digits))
  }

  /** The marker loop of `identifyResult`: one group per marker, in marker order. */
  function Groups(boxes: seq<BoundingBox>): (r: seq<BPValueBoundingBox>)
    ensures |r| == |Markers(boxes)|
    ensures forall k :: 0 <= k < |r| ==> r[k] == MakeGroup(Markers(boxes)[k], DigitCandidates(boxes))
  {
    var markers := Markers(boxes);
    var candidates := DigitCandidates(boxes);
    seq(|markers|, k requires 0 <= k < |markers| => MakeGroup(markers[k], candidates))
  }

  /** Every group: a marker labelled "10"; at most three digits, none labelled "10", each at
      least 75% inside the marker, ordered by x1, the first three qualifying digits (as a
      multiset); and the value read from them. */
  lemma GroupsProperties(boxes: seq<BoundingBox>, k: nat)
    requires k < |Groups(boxes)|
    ensures var g := Groups(boxes)[k];
      && IsMarker(g.valueBox) && g.valueBox in boxes
      && |g.digitBoxes| <= MaxDigits
      && (forall d :: d in g.digitBoxes ==> d in boxes && !IsMarker(d) && Inside(d, g.valueBox))
      && SortedBy(g.digitBoxes, X1Key)
      && multiset(g.digitBoxes) == multiset(Take(Qualifying(NonMarkers(boxes), g.valueBox), MaxDigits))
      && g.value == ValueFromDigits(g.digitBoxes)
  {
    DigitCandidatesAreNonMarkers(boxes);
    var markers := Markers(boxes);
    var candidates := DigitCandidates(boxes);
    assert markers[k] in markers;
    var g := Groups(boxes)[k];
    assert g == MakeGroup(markers[k], candidates);
    assert g.value == ValueFromDigits(g.digitBoxes);
    GroupDigitsFromBoxes(boxes, markers[k]);
  }

  lemma GroupDigitsFromBoxes(boxes: seq<BoundingBox>, marker: BoundingBox)
    requires DigitCandidates(boxes) == NonMarkers(boxes)
    ensures var g := MakeGroup(marker, DigitCandidates(boxes));
      forall d :: d in g.digitBoxes ==> d in boxes && !IsMarker(d) && Inside(d, marker)
  {
    var g := MakeGroup(marker, DigitCandidates(boxes));
    forall d | d in g.digitBoxes ensures d in boxes && !IsMarker(d) && Inside(d, marker) {
      var j :| 0 <= j < |g.digitBoxes| && g.digitBoxes[j] == d;
      assert d in NonMarkers(boxes);
    }
  }

  function MarkerY1(g: BPValueBoundingBox): real {
    g.valueBox.y1
  }

  /** The end of `identifyResult`: fewer than three groups give (0, 0, 0); otherwise the groups
      sorted top to bottom give systolic, diastolic and pulse, and any further group is dropped. */
  function Route(groups: seq<BPValueBoundingBox>): Reading {
    if |groups| < 3 then NoReading
    else
      var sorted := SortBy(groups, MarkerY1);
      assert |multiset(sorted)| == |multiset(groups)|;
      Reading(sorted[0].value, sorted[1].value, sorted[2].value)
  }

  /** `identifyResult` */
  function IdentifyResult(boxes: seq<BoundingBox>): Reading {
    Route(Groups(boxes))
  }

  /** Every reading is made of Kotlin `Int`s: each value is read by `getValueFromDigits`. */
  lemma IdentifyResultInt32(boxes: seq<BoundingBox>)
    ensures var r := IdentifyResult(boxes);
      IsInt32(r.sys) && IsInt32(r.dia) && IsInt32(r.pul)
  {
    var groups := Groups(boxes);
    if |groups| >= 3 {
      var sorted := SortBy(groups, MarkerY1);
      SortByMembers(groups, MarkerY1);
      forall k | 0 <= k < 3 ensures IsInt32(sorted[k].value) {
        var j :| 0 <= j < |groups| && groups[j] == sorted[k];
        GroupsProperties(boxes, j);
      }
    }
  }

  /** With three or more markers, `identifyResult` reads the groups at indices `i`, `j`, `k`:
      the first three of the groups stably sorted by marker y1 (groups follow marker order, so
      of two markers at the same height the earlier box wins). Each is a marker among the boxes
      with the digits inside it. */
  lemma ReadingGroups(boxes: seq<BoundingBox>)
    returns (sys: BPValueBoundingBox, dia: BPValueBoundingBox, pul: BPValueBoundingBox, i: nat, j: nat, k: nat)
    requires |Markers(boxes)| >= 3
    ensures IdentifyResult(boxes) == Reading(sys.value, dia.value, pul.value)
    ensures StableTopThree(Groups(boxes), i, j, k)
    ensures sys == Groups(boxes)[i] && dia == Groups(boxes)[j] && pul == Groups(boxes)[k]
    ensures multiset{sys, dia, pul} <= multiset(Groups(boxes))
    ensures MarkerY1(sys) <= MarkerY1(dia) <= MarkerY1(pul)
    ensures forall g :: g in multiset(Groups(boxes)) - multiset{sys, dia, pul} ==>
              MarkerY1(pul) <= MarkerY1(g)
    ensures forall g :: g in [sys, dia, pul] ==>
              && IsMarker(g.valueBox) && g.valueBox in boxes
              && g.value == ValueFromDigits(g.digitBoxes)
              && forall d :: d in g.digitBoxes ==> d in boxes && !IsMarker(d) && Inside(d, g.valueBox)
  {
    var groups := Groups(boxes);
    sys, dia, pul, i, j, k := RouteOrder(groups);
    forall g | g in [sys, dia, pul]
      ensures && IsMarker(g.valueBox) && g.valueBox in boxes
              && g.value == ValueFromDigits(g.digitBoxes)
              && forall d :: d in g.digitBoxes ==> d in boxes && !IsMarker(d) && Inside(d, g.valueBox)
    {
      assert g in multiset(groups);
      var j :| 0 <= j < |groups| && groups[j] == g;
      GroupsProperties(boxes, j);
    }
  }

  /** A partial display is reported as nothing: fewer than three markers give (0, 0, 0),
      whatever digits there are. */
  lemma TooFewMarkers(boxes: seq<BoundingBox>)
    requires |Markers(boxes)| < 3
    ensures IdentifyResult(boxes) == NoReading
  {
  }

  /** The groups at indices `i`, `j` and `k` are the first three of `groups` stably sorted by
      marker y1: distinct, top to bottom, of two at the same height the earlier in `groups`
      first, and every other group either lower than the third or level with it and later. */
  ghost predicate StableTopThree(groups: seq<BPValueBoundingBox>, i: nat, j: nat, k: nat) {
    && i < |groups| && j < |groups| && k < |groups| && i != j && j != k && i != k
    && MarkerY1(groups[i]) <= MarkerY1(groups[j]) <= MarkerY1(groups[k])
    && (MarkerY1(groups[i]) == MarkerY1(groups[j]) ==> i < j)
    && (MarkerY1(groups[j]) == MarkerY1(groups[k]) ==> j < k)
    && forall m :: 0 <= m < |groups| && m != i && m != j && m != k ==>
         && MarkerY1(groups[k]) <= MarkerY1(groups[m])
         && (MarkerY1(groups[m]) == MarkerY1(groups[k]) ==> k < m)
  }

  /** With three or more groups, the reading comes from the groups at three distinct indices
      `i`, `j`, `k`, ordered top to bottom; `sortedBy` is stable, so of two groups with equal y1
      the earlier one comes first. Every group left over lies no higher than the pulse group,
      and one level with it comes after it in the input. */
  lemma RouteOrder(groups: seq<BPValueBoundingBox>)
    returns (sys: BPValueBoundingBox, dia: BPValueBoundingBox, pul: BPValueBoundingBox, i: nat, j: nat, k: nat)
    requires |groups| >= 3
    ensures Route(groups) == Reading(sys.value, dia.value, pul.value)
    ensures StableTopThree(groups, i, j, k)
    ensures sys == groups[i] && dia == groups[j] && pul == groups[k]
    ensures multiset{sys, dia, pul} <= multiset(groups)
    ensures MarkerY1(sys) <= MarkerY1(dia) <= MarkerY1(pul)
    ensures forall g :: g in multiset(groups) - multiset{sys, dia, pul} ==> MarkerY1(pul) <= MarkerY1(g)
  {
    var sorted := SortBy(groups, MarkerY1);
    var perm := SortByIndices(groups, MarkerY1);
    sys, dia, pul := sorted[0], sorted[1], sorted[2];
    i, j, k := perm[0], perm[1], perm[2];
    TopThreeRest(groups, sorted);
    LeftoverAfterPulse(groups, sorted, perm);
  }

  /** Of a sorted rearrangement of `groups`, the first three are drawn from `groups` and the
      rest lie no higher than the third. */
  lemma TopThreeRest(groups: seq<BPValueBoundingBox>, sorted: seq<BPValueBoundingBox>)
    requires |sorted| >= 3 && multiset(sorted) == multiset(groups) && SortedBy(sorted, MarkerY1)
    ensures multiset{sorted[0], sorted[1], sorted[2]} <= multiset(groups)
    ensures forall g :: g in multiset(groups) - multiset{sorted[0], sorted[1], sorted[2]} ==>
              MarkerY1(sorted[2]) <= MarkerY1(g)
  {
    var top := multiset{sorted[0], sorted[1], sorted[2]};
    var rest := sorted[3..];
    assert sorted == [sorted[0], sorted[1], sorted[2]] + rest;
    assert multiset(groups) == top + multiset(rest);
    forall g | g in multiset(groups) - top ensures MarkerY1(sorted[2]) <= MarkerY1(g) {
      assert g in multiset(rest);
      var q :| 0 <= q < |rest| && rest[q] == g;
      assert sorted[q + 3] == g;
    }
  }

  /** A group outside the first three places of the stable sort lies no higher than the third,
      and one level with it comes after it in the input. */
  lemma LeftoverAfterPulse(groups: seq<BPValueBoundingBox>, sorted: seq<BPValueBoundingBox>, perm: seq<nat>)
    requires |groups| >= 3 && SortedBy(sorted, MarkerY1)
    requires StableIndices(groups, sorted, perm, MarkerY1)
    ensures forall m :: 0 <= m < |groups| && m != perm[0] && m != perm[1] && m != perm[2] ==>
              && MarkerY1(sorted[2]) <= MarkerY1(groups[m])
              && (MarkerY1(groups[m]) == MarkerY1(sorted[2]) ==> perm[2] < m)
  {
    forall m | 0 <= m < |groups| && m != perm[0] && m != perm[1] && m != perm[2]
      ensures MarkerY1(sorted[2]) <= MarkerY1(groups[m])
      ensures MarkerY1(groups[m]) == MarkerY1(sorted[2]) ==> perm[2] < m
    {
      assert m in perm;
      var p :| 0 <= p < |perm| && perm[p] == m;
      assert sorted[p] == groups[m] && p > 2;
    }
  }

  function CornerBox(x1: real, y1: real, x2: real, y2: real, conf: real, name: string): BoundingBox {
    BoundingBox(x1, y1, x2, y2, (x1 + x2) / 2.0, (y1 + y2) / 2.0, x2 - x1, y2 - y1, conf, 0, name)
  }

  function GroupAt(y1: real, value: int): BPValueBoundingBox {
    BPValueBoundingBox(CornerBox(0.1, y1, 0.9, y1 + 0.1, 0.9, MarkerLabel), [], value, 0.9)
  }

  /** Markers at heights 0.6, 0.1 and 0.35 feed pulse, systolic and diastolic. */
  lemma RouteExample()
    ensures Route([GroupAt(0.6, 72), GroupAt(0.1, 120), GroupAt(0.35, 80)]) == Reading(120, 80, 72)
  {
    var groups := [GroupAt(0.6, 72), GroupAt(0.1, 120), GroupAt(0.35, 80)];
    var tail := SortBy(groups[1..], MarkerY1);
    assert SortBy(groups[2..], MarkerY1) == [GroupAt(0.35, 80)];
    assert tail == [GroupAt(0.1, 120), GroupAt(0.35, 80)];
  }

  /** Two markers at the same height keep their input order: the first is systolic. */
  lemma RouteTieExample()
    ensures Route([GroupAt(0.1, 120), GroupAt(0.1, 80), GroupAt(0.5, 70)]) == Reading(120, 80, 70)
  {
    var groups := [GroupAt(0.1, 120), GroupAt(0.1, 80), GroupAt(0.5, 70)];
    assert SortedBy(groups, MarkerY1);
    SortByIdentity(groups, MarkerY1);
  }

  function DigitBox(x1: real, name: string, conf: real): BoundingBox {
    CornerBox(x1, 0.1, x1 + 0.04, 0.2, conf, name)
  }

  /** Labels "1", "2", "5" read 125, "0", "0", "7" read 7, and no digits read 0. */
  lemma ValueExamples()
    ensures ValueFromDigits([DigitBox(0.1, "1", 0.9), DigitBox(0.2, "2", 0.9), DigitBox(0.3, "5", 0.9)]) == 125
    ensures ValueFromDigits([DigitBox(0.1, "0", 0.9), DigitBox(0.2, "0", 0.9), DigitBox(0.3, "7", 0.9)]) == 7
    ensures ValueFromDigits([]) == 0
  {
    var a := [DigitBox(0.1, "1", 0.9), DigitBox(0.2, "2", 0.9), DigitBox(0.3, "5", 0.9)];
    assert ConcatLabels(a) == "125";
    assert DigitsValue("125") == 125 by {
      assert "125"[..2] == "12" && "12"[..1] == "1" && "1"[..0] == "";
    }
    var b := [DigitBox(0.1, "0", 0.9), DigitBox(0.2, "0", 0.9), DigitBox(0.3, "7", 0.9)];
    assert ConcatLabels(b) == "007";
    assert DigitsValue("007") == 7 by {
      assert "007"[..2] == "00" && "00"[..1] == "0" && "0"[..0] == "";
    }
  }

  /** A marker of confidence 0.8 with digits of confidence 0.6 and 0.7 averages 0.7. */
  lemma AverageConfidenceExample()
    ensures MakeGroup(CornerBox(0.0, 0.0, 0.5, 0.5, 0.8, MarkerLabel),
                      [CornerBox(0.1, 0.1, 0.2, 0.2, 0.6, "4"), CornerBox(0.3, 0.1, 0.4, 0.2, 0.7, "2")]).avgConf == 0.7
  {
    var marker := CornerBox(0.0, 0.0, 0.5, 0.5, 0.8, MarkerLabel);
    var d1 := CornerBox(0.1, 0.1, 0.2, 0.2, 0.6, "4");
    var d2 := CornerBox(0.3, 0.1, 0.4, 0.2, 0.7, "2");
    InsideExample(d1, marker);
    InsideExample(d2, marker);
    GroupOfTwo(marker, d1, d2);
    var g := MakeGroup(marker, [d1, d2]);
    assert g.digitBoxes == [d1, d2];
    AverageOfTwo(marker.conf, d1, d2);
  }

  /** A group of two digits averages three confidences. */
  lemma AverageOfTwo(markerConf: real, d1: BoundingBox, d2: BoundingBox)
    ensures GroupAverage(markerConf, [d1, d2]) == (markerConf + d1.conf + d2.conf) / 3.0
  {
    assert [d1, d2][1..] == [d2] && [d2][1..] == [];
    assert SumConf([d2]) == d2.conf;
    assert SumConf([d1, d2]) == d1.conf + d2.conf;
  }

  /** Two qualifying digits already in x1 order are collected and kept in that order. */
  lemma GroupOfTwo(marker: BoundingBox, d1: BoundingBox, d2: BoundingBox)
    requires Inside(d1, marker) && Inside(d2, marker) && d1.x1 <= d2.x1
    ensures SortBy(Collect([d1, d2], marker, MaxDigits), X1Key) == [d1, d2]
  {
    assert Collect([d2], marker, MaxDigits - 1) == [d2];
    assert Collect([d1, d2], marker, MaxDigits) == [d1, d2];
    assert SortedBy([d1, d2], X1Key);
    SortByIdentity([d1, d2], X1Key);
  }

  /** A digit box 0.1 wide and high lying wholly inside a marker is inside it. */
  lemma InsideExample(d: BoundingBox, marker: BoundingBox)
    requires d.w == 0.1 && d.h == 0.1 && d.x2 - d.x1 == 0.1 && d.y2 - d.y1 == 0.1
    requires marker.x1 <= d.x1 && d.x2 <= marker.x2 && marker.y1 <= d.y1 && d.y2 <= marker.y2
    ensures Inside(d, marker)
  {
    assert IntersectionArea(d, marker) == 0.01;
    assert Area(d) == 0.01;
  }

  /** No exclusivity: one digit inside two overlapping markers belongs to both groups. */
  lemma SharedDigitExample()
    ensures var boxes := [CornerBox(0.0, 0.0, 0.5, 0.5, 0.9, MarkerLabel),
                          CornerBox(0.0, 0.0, 0.5, 0.6, 0.8, MarkerLabel),
                          CornerBox(0.1, 0.1, 0.2, 0.2, 0.7, "8")];
            && |Groups(boxes)| == 2
            && CornerBox(0.1, 0.1, 0.2, 0.2, 0.7, "8") in Groups(boxes)[0].digitBoxes
            && CornerBox(0.1, 0.1, 0.2, 0.2, 0.7, "8") in Groups(boxes)[1].digitBoxes
  {
    var m1 := CornerBox(0.0, 0.0, 0.5, 0.5, 0.9, MarkerLabel);
    var m2 := CornerBox(0.0, 0.0, 0.5, 0.6, 0.8, MarkerLabel);
    var d := CornerBox(0.1, 0.1, 0.2, 0.2, 0.7, "8");
    var boxes := [m1, m2, d];
    assert boxes[1..] == [m2, d] && boxes[1..][1..] == [d];
    assert Markers([d]) == [];
    assert Markers(boxes) == [m1, m2];
    DigitCandidatesAreNonMarkers(boxes);
    assert NonMarkers([d]) == [d];
    assert DigitCandidates(boxes) == [d];
    InsideExample(d, m1);
    InsideExample(d, m2);
    assert Collect([d], m1, MaxDigits) == [d];
    assert Collect([d], m2, MaxDigits) == [d];
    assert SortBy([d], X1Key) == [d];
  }
}
