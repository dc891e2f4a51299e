/**
  `detect`: the guards on the detector's set-up, then decoding, suppression and
  grouping. Inference itself is outside the model: the dequantised output
  tensor is a parameter. The listener callbacks are reported as the outcome's
  tag, so `onEmptyDetect` and `onDetect` are the `NothingDetected` and
  `Detected` cases.
 */
module Detector {
  import opened Optional
  import opened Boxes
  import opened Decoder
  import opened Grouping
  import opened KotlinText

  datatype DetectOutcome =
    | Unavailable
    | NothingDetected
    | Detected(boxes: seq<BoundingBox>, reading: Reading)

  /** The guards at the top of `detect`: an interpreter and every tensor dimension non-zero. */
  predicate Ready(cfg: DetectorConfig) {
    && cfg.hasInterpreter
    && cfg.tensorWidth != 0 && cfg.tensorHeight != 0
    && cfg.numChannel != 0 && cfg.numElements != 0
  }

  /** One call of `detect` on the tensor the interpreter produced for the frame. */
  function Detect(cfg: DetectorConfig, t: seq<real>): (r: DetectOutcome)
    requires ValidTensor(cfg, t)
    ensures r.Unavailable? <==> !Ready(cfg)
    ensures r.NothingDetected? <==>
              Ready(cfg) && forall i :: 0 <= i < cfg.numElements ==> DecodeAt(cfg, t, i).None?
    ensures r.Detected? ==> r.boxes != [] && Some(r.boxes) == GetBoundingBox(cfg, t)
    ensures r.Detected? ==> r.reading == IdentifyResult(r.boxes)
  {
    if !Ready(cfg) then Unavailable
    else
      match GetBoundingBox(cfg, t)
      case None => NothingDetected
      case Some(boxes) => Detected(boxes, IdentifyResult(boxes))
  }

  /** The `Triple` that `detect` returns. */
  function Values(outcome: DetectOutcome): Reading {
    match outcome
    case Detected(_, reading) => reading
    case _ => NoReading
  }

  /** `detect` returns something other than (0, 0, 0) only when the detector is ready, boxes
      were decoded, and at least three of the surviving boxes are value markers. */
  lemma NonZeroNeedsThreeMarkers(cfg: DetectorConfig, t: seq<real>)
    requires ValidTensor(cfg, t)
    requires Values(Detect(cfg, t)) != NoReading
    ensures Ready(cfg) && Detect(cfg, t).Detected?
    ensures |Markers(Detect(cfg, t).boxes)| >= 3
  {
  }

  /** With three or more markers among the reported boxes, the `Triple` is read from the
      groups at indices `i`, `j`, `k`: systolic on top, diastolic next, pulse below, ties
      going to the earlier marker; every other group lies lower than the pulse group, or level
      with it and later. Each of the three is a marker among the reported boxes, together
      with digits that are reported boxes lying inside it, and its value is read from those
      digits. */
  lemma DetectedReading(cfg: DetectorConfig, t: seq<real>)
    returns (sys: BPValueBoundingBox, dia: BPValueBoundingBox, pul: BPValueBoundingBox, i: nat, j: nat, k: nat)
    requires ValidTensor(cfg, t)
    requires Detect(cfg, t).Detected? && |Markers(Detect(cfg, t).boxes)| >= 3
    ensures Values(Detect(cfg, t)) == Reading(sys.value, dia.value, pul.value)
    ensures StableTopThree(Groups(Detect(cfg, t).boxes), i, j, k)
    ensures var groups := Groups(Detect(cfg, t).boxes);
      sys == groups[i] && dia == groups[j] && pul == groups[k]
    ensures multiset{sys, dia, pul} <= multiset(Groups(Detect(cfg, t).boxes))
    ensures MarkerY1(sys) <= MarkerY1(dia) <= MarkerY1(pul)
    ensures forall g :: g in multiset(Groups(Detect(cfg, t).boxes)) - multiset{sys, dia, pul} ==>
              MarkerY1(pul) <= MarkerY1(g)
    ensures forall g :: g in [sys, dia, pul] ==>
              && IsMarker(g.valueBox) && g.valueBox in Detect(cfg, t).boxes
              && g.value == ValueFromDigits(g.digitBoxes)
              && forall d :: d in g.digitBoxes ==>
                   d in Detect(cfg, t).boxes && !IsMarker(d) && Inside(d, g.valueBox)
  {
    var r := Detect(cfg, t);
    assert r.reading == IdentifyResult(r.boxes);
    sys, dia, pul, i, j, k := ReadingGroups(r.boxes);
  }

  /** Every value `detect` returns is a Kotlin `Int`. */
  lemma DetectValuesInt32(cfg: DetectorConfig, t: seq<real>)
    requires ValidTensor(cfg, t)
    ensures var v := Values(Detect(cfg, t));
      IsInt32(v.sys) && IsInt32(v.dia) && IsInt32(v.pul)
  {
    if Detect(cfg, t).Detected? {
      IdentifyResultInt32(Detect(cfg, t).boxes);
    }
  }

  /** Every value marker behind a reading is a confident, in-frame, well-shaped box. */
  lemma ReadingFromReportedBoxes(cfg: DetectorConfig, t: seq<real>, m: BoundingBox)
    requires ValidTensor(cfg, t)
    requires Detect(cfg, t).Detected? && m in Markers(Detect(cfg, t).boxes)
    ensures IsMarker(m) && m.conf > ConfidenceThreshold && InUnitSquare(m) && WellShaped(m)
  {
    ReportedBoxesWellFormed(cfg, t, m);
  }

  /** A model without class channels is ready but never detects anything. */
  lemma NoClassChannelsNothingDetected(cfg: DetectorConfig, t: seq<real>)
    requires ValidTensor(cfg, t) && Ready(cfg) && cfg.numChannel <= 4
    ensures Detect(cfg, t) == NothingDetected
  {
    NoClassChannelsNoBoxes(cfg, t);
  }
}
