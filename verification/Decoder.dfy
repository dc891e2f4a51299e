/**
  Decoding of the detector's output tensor into boxes (`getBoundingBox`).
  The tensor is channel-major: channel `j` of candidate position `i` sits at
  index `i + numElements * j`. Channels 0..3 hold the centre and size, and
  channel `4 + c` holds the score of class `c`. The tensor arrives already
  dequantised from `UINT8` with scale 1/255, so every value lies in [0, 1].
 */
module Decoder {
  import opened Optional
  import opened Boxes
  import opened Suppression
  import opened StableSort

  /** A box is kept only when its best class score is strictly above this. */
  const ConfidenceThreshold: real := 0.4

  /** What `setup()` learns about the model: whether an interpreter exists, the tensor
      shapes, and the class labels read from the label file. */
  datatype DetectorConfig = DetectorConfig(
    hasInterpreter: bool,
    tensorWidth: nat, tensorHeight: nat,
    numChannel: nat, numElements: nat,
    labels: seq<string>)

  /** The shape facts decoding needs: one value per (channel, position), every value a
      dequantised byte, and a label for every class channel. */
  ghost predicate ValidTensor(cfg: DetectorConfig, t: seq<real>) {
    && |t| == cfg.numChannel * cfg.numElements
    && (forall k :: 0 <= k < |t| ==> 0.0 <= t[k] <= 1.0)
    && |cfg.labels| >= cfg.numChannel - 4
  }

  lemma TensorIndex(ne: nat, nc: nat, i: nat, j: nat)
    requires i < ne && j < nc
    ensures i + ne * j < nc * ne
  {
    assert ne * (j + 1) == ne * j + ne;
    assert ne * (j + 1) <= ne * nc;
  }

  /** Channel `j` of position `i`. */
  function At(cfg: DetectorConfig, t: seq<real>, i: nat, j: nat): real
    requires |t| == cfg.numChannel * cfg.numElements
    requires i < cfg.numElements && j < cfg.numChannel
  {
    TensorIndex(cfg.numElements, cfg.numChannel, i, j);
    t[i + cfg.numElements * j]
  }

  /** The score of class `c` at position `i`. */
  function Score(cfg: DetectorConfig, t: seq<real>, i: nat, c: nat): real
    requires |t| == cfg.numChannel * cfg.numElements
    requires i < cfg.numElements && 4 + c < cfg.numChannel
  {
    At(cfg, t, i, 4 + c)
  }

  /** The class scan of `getBoundingBox`: channels `j` up to `numChannel`, replacing the best
      only on a strictly greater score, so that the first maximum wins. */
  function ScanClasses(cfg: DetectorConfig, t: seq<real>, i: nat, j: nat, maxConf: real, maxIdx: int): (real, int)
    requires |t| == cfg.numChannel * cfg.numElements && i < cfg.numElements && j >= 4
    decreases cfg.numChannel - j
  {
    if j >= cfg.numChannel then (maxConf, maxIdx)
    else if At(cfg, t, i, j) > maxConf then ScanClasses(cfg, t, i, j + 1, At(cfg, t, i, j), j - 4)
    else ScanClasses(cfg, t, i, j + 1, maxConf, maxIdx)
  }

  /** `(maxConf, maxConfIdx)` at position `i`, starting from `(-1, -1)`. */
  function BestClass(cfg: DetectorConfig, t: seq<real>, i: nat): (real, int)
    requires |t| == cfg.numChannel * cfg.numElements && i < cfg.numElements
  {
    ScanClasses(cfg, t, i, 4, -1.0, -1)
  }

  /** What the scan has established after the channels before `j`. */
  ghost predicate ScanState(cfg: DetectorConfig, t: seq<real>, i: nat, j: nat, maxConf: real, maxIdx: int)
    requires |t| == cfg.numChannel * cfg.numElements && i < cfg.numElements
    requires 4 <= j <= cfg.numChannel
  {
    && (forall c :: 0 <= c < j - 4 ==> Score(cfg, t, i, c) <= maxConf)
    && (maxIdx == -1 ==> maxConf == -1.0)
    && (maxIdx != -1 ==>
          && 0 <= maxIdx < j - 4
          && Score(cfg, t, i, maxIdx) == maxConf
          && forall c :: 0 <= c < maxIdx ==> Score(cfg, t, i, c) < maxConf)
  }

  lemma {:induction false} ScanClassesState(cfg: DetectorConfig, t: seq<real>, i: nat, j: nat, maxConf: real, maxIdx: int)
    requires |t| == cfg.numChannel * cfg.numElements && i < cfg.numElements
    requires 4 <= j <= cfg.numChannel
    requires ScanState(cfg, t, i, j, maxConf, maxIdx)
    ensures ScanState(cfg, t, i, cfg.numChannel,
                      ScanClasses(cfg, t, i, j, maxConf, maxIdx).0, ScanClasses(cfg, t, i, j, maxConf, maxIdx).1)
    decreases cfg.numChannel - j
  {
    if j < cfg.numChannel {
      var v := At(cfg, t, i, j);
      assert v == Score(cfg, t, i, j - 4);
      if v > maxConf {
        ScanClassesState(cfg, t, i, j + 1, v, j - 4);
      } else {
        ScanClassesState(cfg, t, i, j + 1, maxConf, maxIdx);
      }
    }
  }

  /** The scan's result: with no class channel it is `(-1, -1)`; otherwise, on scores that
      are not negative, the lowest index among the highest scores, and that score. */
  lemma BestClassSpec(cfg: DetectorConfig, t: seq<real>, i: nat)
    requires ValidTensor(cfg, t) && i < cfg.numElements
    ensures cfg.numChannel <= 4 ==> BestClass(cfg, t, i) == (-1.0, -1)
    ensures cfg.numChannel > 4 ==>
              var (conf, idx) := BestClass(cfg, t, i);
              && 0 <= idx < cfg.numChannel - 4
              && conf == Score(cfg, t, i, idx)
              && (forall c :: 0 <= c < cfg.numChannel - 4 ==> Score(cfg, t, i, c) <= conf)
              && (forall c :: 0 <= c < idx ==> Score(cfg, t, i, c) < conf)
  {
    if cfg.numChannel > 4 {
      ScanClassesState(cfg, t, i, 4, -1.0, -1);
      var (conf, idx) := BestClass(cfg, t, i);
      TensorIndex(cfg.numElements, cfg.numChannel, i, 4);
      assert Score(cfg, t, i, 0) >= 0.0;
    }
  }

  /** A best score above -1 means the scan picked a class. */
  lemma BestClassPicked(cfg: DetectorConfig, t: seq<real>, i: nat)
    requires |t| == cfg.numChannel * cfg.numElements && i < cfg.numElements
    requires BestClass(cfg, t, i).0 > -1.0
    ensures 0 <= BestClass(cfg, t, i).1 < cfg.numChannel - 4
  {
    if cfg.numChannel >= 4 {
      ScanClassesState(cfg, t, i, 4, -1.0, -1);
    }
  }

  /** The box at position `i` with class `cls`, corners derived from centre and size. */
  function BoxAt(cfg: DetectorConfig, t: seq<real>, i: nat, conf: real, cls: nat): (b: BoundingBox)
    requires |t| == cfg.numChannel * cfg.numElements && i < cfg.numElements
    requires cfg.numChannel >= 4 && cls < |cfg.labels|
    ensures CornersFromCentre(b)
  {
    var cx := At(cfg, t, i, 0);
    var cy := At(cfg, t, i, 1);
    var w := At(cfg, t, i, 2);
    var h := At(cfg, t, i, 3);
    BoundingBox(cx - w / 2.0, cy - h / 2.0, cx + w / 2.0, cy + h / 2.0, cx, cy, w, h, conf, cls, cfg.labels[cls])
  }

  /** `b` is what position `i` decodes to: its geometry read from channels 0..3, its class the
      first best-scoring class, its confidence that class's score above the threshold, its
      label that class's label, and its corners inside the unit square. */
  ghost predicate DecodedFrom(cfg: DetectorConfig, t: seq<real>, i: nat, b: BoundingBox)
    requires |t| == cfg.numChannel * cfg.numElements && i < cfg.numElements && cfg.numChannel > 4
  {
    && b.cx == At(cfg, t, i, 0) && b.cy == At(cfg, t, i, 1)
    && b.w == At(cfg, t, i, 2) && b.h == At(cfg, t, i, 3)
    && CornersFromCentre(b) && InUnitSquare(b)
    && 0 <= b.cls < cfg.numChannel - 4 && b.cls < |cfg.labels| && b.clsName == cfg.labels[b.cls]
    && b.conf == Score(cfg, t, i, b.cls) && b.conf > ConfidenceThreshold
    && (forall c :: 0 <= c < cfg.numChannel - 4 ==> Score(cfg, t, i, c) <= b.conf)
    && (forall c :: 0 <= c < b.cls ==> Score(cfg, t, i, c) < b.conf)
  }

  /** Some class at position `i` scores above the threshold. */
  ghost predicate Confident(cfg: DetectorConfig, t: seq<real>, i: nat)
    requires |t| == cfg.numChannel * cfg.numElements && i < cfg.numElements
  {
    exists c :: 0 <= c < cfg.numChannel - 4 && Score(cfg, t, i, c) > ConfidenceThreshold
  }

  /** The corners position `i` describes all lie in [0, 1]. */
  ghost predicate GeometryInRange(cfg: DetectorConfig, t: seq<real>, i: nat)
    requires |t| == cfg.numChannel * cfg.numElements && i < cfg.numElements && cfg.numChannel >= 4
  {
    var cx := At(cfg, t, i, 0);
    var cy := At(cfg, t, i, 1);
    var w := At(cfg, t, i, 2);
    var h := At(cfg, t, i, 3);
    && 0.0 <= cx - w / 2.0 <= 1.0 && 0.0 <= cy - h / 2.0 <= 1.0
    && 0.0 <= cx + w / 2.0 <= 1.0 && 0.0 <= cy + h / 2.0 <= 1.0
  }

  /** One iteration of the position loop of `getBoundingBox`. */
  function DecodeAt(cfg: DetectorConfig, t: seq<real>, i: nat): (r: Option<BoundingBox>)
    requires ValidTensor(cfg, t) && i < cfg.numElements
    ensures r.Some? <==>
              cfg.numChannel > 4 && Confident(cfg, t, i) && GeometryInRange(cfg, t, i)
    ensures r.Some? ==> cfg.numChannel > 4 && DecodedFrom(cfg, t, i, r.value)
  {
    BestClassSpec(cfg, t, i);
    var (maxConf, maxIdx) := BestClass(cfg, t, i);
    if maxConf > ConfidenceThreshold then
      BestClassPicked(cfg, t, i);
      var b := BoxAt(cfg, t, i, maxConf, maxIdx);
      if !InUnitSquare(b) then None
      else Some(b)
    else
      None
  }

  /** The boxes of positions `0 .. n-1`, in position order. */
  function DecodeUpTo(cfg: DetectorConfig, t: seq<real>, n: nat): (r: seq<BoundingBox>)
    requires ValidTensor(cfg, t) && n <= cfg.numElements
  {
    if n == 0 then []
    else
      var previous := DecodeUpTo(cfg, t, n - 1);
      match DecodeAt(cfg, t, n - 1)
      case Some(b) => previous + [b]
      case None => previous
  }

  /** `pos` lists, in increasing order and once each, the positions below `n` that yield a
      box, and `boxes` lists what they yield. */
  ghost predicate PositionsOf(cfg: DetectorConfig, t: seq<real>, n: nat, boxes: seq<BoundingBox>, pos: seq<nat>)
    requires ValidTensor(cfg, t) && n <= cfg.numElements
  {
    && |pos| == |boxes|
    && (forall k :: 0 <= k < |pos| ==> pos[k] < n && DecodeAt(cfg, t, pos[k]) == Some(boxes[k]))
    && (forall k, l :: 0 <= k < l < |pos| ==> pos[k] < pos[l])
    && (forall i :: 0 <= i < n && DecodeAt(cfg, t, i).Some? ==> i in pos)
  }

  /** `DecodeUpTo` is the filter of the positions below `n`: its boxes are the `DecodeAt`
      results of strictly increasing positions, each position that yields a box appearing
      exactly once, in position order. */
  lemma {:induction false} DecodeUpToPositions(cfg: DetectorConfig, t: seq<real>, n: nat)
    returns (pos: seq<nat>)
    requires ValidTensor(cfg, t) && n <= cfg.numElements
    ensures |pos| == |DecodeUpTo(cfg, t, n)|
    ensures forall k :: 0 <= k < |pos| ==>
              pos[k] < n && DecodeAt(cfg, t, pos[k]) == Some(DecodeUpTo(cfg, t, n)[k])
    ensures forall k, l :: 0 <= k < l < |pos| ==> pos[k] < pos[l]
    ensures forall i :: 0 <= i < n && DecodeAt(cfg, t, i).Some? ==> i in pos
  {
    if n == 0 {
      pos := [];
    } else {
      var previous := DecodeUpToPositions(cfg, t, n - 1);
      assert PositionsOf(cfg, t, n - 1, DecodeUpTo(cfg, t, n - 1), previous);
      if DecodeAt(cfg, t, n - 1).Some? {
        pos := PositionsYield(cfg, t, n, previous);
      } else {
        PositionsSkip(cfg, t, n, previous);
        pos := previous;
      }
      assert PositionsOf(cfg, t, n, DecodeUpTo(cfg, t, n), pos);
    }
  }

  /** The step where position `n - 1` yields a box: it is appended. */
  lemma PositionsYield(cfg: DetectorConfig, t: seq<real>, n: nat, previous: seq<nat>)
    returns (pos: seq<nat>)
    requires ValidTensor(cfg, t) && 0 < n <= cfg.numElements
    requires DecodeAt(cfg, t, n - 1).Some?
    requires PositionsOf(cfg, t, n - 1, DecodeUpTo(cfg, t, n - 1), previous)
    ensures pos == previous + [n - 1]
    ensures PositionsOf(cfg, t, n, DecodeUpTo(cfg, t, n), pos)
  {
    var before := DecodeUpTo(cfg, t, n - 1);
    var r := DecodeUpTo(cfg, t, n);
    var d := DecodeAt(cfg, t, n - 1);
    assert r == before + [d.value];
    pos := previous + [n - 1];
    forall k | 0 <= k < |pos| ensures pos[k] < n && DecodeAt(cfg, t, pos[k]) == Some(r[k]) {
      if k < |previous| {
        assert pos[k] == previous[k] && r[k] == before[k];
      }
    }
    forall i | 0 <= i < n && DecodeAt(cfg, t, i).Some? ensures i in pos {
      if i < n - 1 {
        assert i in previous;
      } else {
        assert pos[|previous|] == i;
      }
    }
  }

  /** The step where position `n - 1` yields nothing: nothing changes. */
  lemma PositionsSkip(cfg: DetectorConfig, t: seq<real>, n: nat, previous: seq<nat>)
    requires ValidTensor(cfg, t) && 0 < n <= cfg.numElements
    requires DecodeAt(cfg, t, n - 1).None?
    requires PositionsOf(cfg, t, n - 1, DecodeUpTo(cfg, t, n - 1), previous)
    ensures PositionsOf(cfg, t, n, DecodeUpTo(cfg, t, n), previous)
  {
    assert DecodeUpTo(cfg, t, n) == DecodeUpTo(cfg, t, n - 1);
    var last: nat := n - 1;
    forall i: nat | i < n && DecodeAt(cfg, t, i).Some? ensures i in previous {
      assert i != last;
    }
  }

  /** The boxes `getBoundingBox` collects before suppression. */
  function Decoded(cfg: DetectorConfig, t: seq<real>): seq<BoundingBox>
    requires ValidTensor(cfg, t)
  {
    DecodeUpTo(cfg, t, cfg.numElements)
  }

  /** The decoded boxes are exactly the boxes the positions yield. */
  lemma DecodedMembers(cfg: DetectorConfig, t: seq<real>)
    requires ValidTensor(cfg, t)
    ensures forall b :: b in Decoded(cfg, t) ==>
              exists i :: 0 <= i < cfg.numElements && DecodeAt(cfg, t, i) == Some(b)
    ensures forall i :: 0 <= i < cfg.numElements && DecodeAt(cfg, t, i).Some? ==>
              DecodeAt(cfg, t, i).value in Decoded(cfg, t)
  {
    var r := Decoded(cfg, t);
    var pos := DecodeUpToPositions(cfg, t, cfg.numElements);
    forall b | b in r ensures exists i :: 0 <= i < cfg.numElements && DecodeAt(cfg, t, i) == Some(b) {
      var k :| 0 <= k < |r| && r[k] == b;
      assert DecodeAt(cfg, t, pos[k]) == Some(b);
    }
    forall i | 0 <= i < cfg.numElements && DecodeAt(cfg, t, i).Some?
      ensures DecodeAt(cfg, t, i).value in r
    {
      var k :| 0 <= k < |pos| && pos[k] == i;
      assert r[k] == DecodeAt(cfg, t, i).value;
    }
  }

  /** `getBoundingBox`: `None` (Kotlin's `null`) when no position yields a box, otherwise the
      decoded boxes after non-maximum suppression. */
  function GetBoundingBox(cfg: DetectorConfig, t: seq<real>): (r: Option<seq<BoundingBox>>)
    requires ValidTensor(cfg, t)
    ensures r.None? <==> forall i :: 0 <= i < cfg.numElements ==> DecodeAt(cfg, t, i).None?
    ensures r.Some? ==> r.value != [] && r.value == ApplyNMS(Decoded(cfg, t))
    ensures r.Some? ==> multiset(r.value) <= multiset(Decoded(cfg, t))
    ensures r.Some? ==> ByConfidence(r.value)
    ensures r.Some? ==> forall i, j :: 0 <= i < |r.value| && 0 <= j < |r.value| && i != j ==>
              IoU(r.value[i], r.value[j]) < IouThreshold
    ensures r.Some? ==> forall b :: b in r.value ==>
              exists i :: 0 <= i < cfg.numElements && cfg.numChannel > 4 && DecodedFrom(cfg, t, i, b)
  {
    var boxes := Decoded(cfg, t);
    DecodedEmpty(cfg, t);
    if boxes == [] then
      None
    else
      var kept := ApplyNMS(boxes);
      KeptDecoded(cfg, t, kept);
      ApplyNMSNonEmpty(boxes);
      Some(kept)
  }

  /** Every decoded box `getBoundingBox` drops (counted with multiplicity) overlaps a reported
      box of at least its confidence with IoU 0.5 or more. */
  lemma DroppedSuppressed(cfg: DetectorConfig, t: seq<real>, x: BoundingBox)
    requires ValidTensor(cfg, t) && GetBoundingBox(cfg, t).Some?
    requires multiset(GetBoundingBox(cfg, t).value)[x] < multiset(Decoded(cfg, t))[x]
    ensures exists k :: k in GetBoundingBox(cfg, t).value && k.conf >= x.conf && IoU(k, x) >= IouThreshold
  {
    ApplyNMSCoverage(Decoded(cfg, t), x);
  }

  /** Nothing is decoded exactly when no position yields a box. */
  lemma DecodedEmpty(cfg: DetectorConfig, t: seq<real>)
    requires ValidTensor(cfg, t)
    ensures Decoded(cfg, t) == [] <==> forall i :: 0 <= i < cfg.numElements ==> DecodeAt(cfg, t, i).None?
  {
    DecodedMembers(cfg, t);
    if Decoded(cfg, t) != [] {
      assert Decoded(cfg, t)[0] in Decoded(cfg, t);
    }
  }

  /** Every box drawn from the decoded boxes comes from some position of the tensor. */
  lemma KeptDecoded(cfg: DetectorConfig, t: seq<real>, kept: seq<BoundingBox>)
    requires ValidTensor(cfg, t)
    requires multiset(kept) <= multiset(Decoded(cfg, t))
    ensures forall b :: b in kept ==>
              exists i :: 0 <= i < cfg.numElements && cfg.numChannel > 4 && DecodedFrom(cfg, t, i, b)
  {
    DecodedMembers(cfg, t);
    forall b | b in kept
      ensures exists i :: 0 <= i < cfg.numElements && cfg.numChannel > 4 && DecodedFrom(cfg, t, i, b)
    {
      assert b in multiset(kept);
      assert b in Decoded(cfg, t);
      var i :| 0 <= i < cfg.numElements && DecodeAt(cfg, t, i) == Some(b);
    }
  }

  /** Every box `getBoundingBox` reports: corners from centre and size, corners in the unit
      square, width and height not negative (so x1 <= x2 and y1 <= y2), confidence strictly
      above 0.4, and a class index with its label. */
  lemma ReportedBoxesWellFormed(cfg: DetectorConfig, t: seq<real>, b: BoundingBox)
    requires ValidTensor(cfg, t)
    requires GetBoundingBox(cfg, t).Some? && b in GetBoundingBox(cfg, t).value
    ensures CornersFromCentre(b) && InUnitSquare(b) && WellShaped(b)
    ensures b.x1 <= b.x2 && b.y1 <= b.y2
    ensures b.conf > ConfidenceThreshold
    ensures 0 <= b.cls < cfg.numChannel - 4 && b.clsName == cfg.labels[b.cls]
  {
    var i :| 0 <= i < cfg.numElements && cfg.numChannel > 4 && DecodedFrom(cfg, t, i, b);
    TensorIndex(cfg.numElements, cfg.numChannel, i, 2);
    TensorIndex(cfg.numElements, cfg.numChannel, i, 3);
  }

  /** With four or fewer channels there is no class to score, so nothing is ever decoded. */
  lemma NoClassChannelsNoBoxes(cfg: DetectorConfig, t: seq<real>)
    requires ValidTensor(cfg, t) && cfg.numChannel <= 4
    ensures GetBoundingBox(cfg, t) == None
  {
  }
}
