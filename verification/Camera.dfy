/**
  The camera screen's arithmetic and text handling: how a detected triple is
  shown, the gate that turns the shown texts into a saved record, and the
  square crop and resize applied to frames.
 */
module Camera {
  import opened Optional
  import opened KotlinText
  import opened Grouping
  import opened Detector

  /** `onDetect`: a positive value is shown as its decimal text, anything else as "-". */
  function ShowValue(n: int): (text: string)
    requires IsInt32(n)
    ensures n > 0 ==> ToIntOrNull(text) == Some(n)
    ensures text == "-" <==> n <= 0
  {
    if n > 0 then
      IntToStringRoundTrip(n);
      IntToString(n)
    else "-"
  }

  predicate Int32Reading(r: Reading) {
    IsInt32(r.sys) && IsInt32(r.dia) && IsInt32(r.pul)
  }

  /** The three texts `onDetect` shows. */
  function Display(r: Reading): (string, string, string)
    requires Int32Reading(r)
  {
    (ShowValue(r.sys), ShowValue(r.dia), ShowValue(r.pul))
  }

  /** A text the gate accepts: it reads as an `Int` above zero. */
  predicate Accepted(text: string) {
    ToIntOrNull(text).Some? && ToIntOrNull(text).value > 0
  }

  /** `confirmedResult`: the record to save, or `None` when a text does not read as an `Int` or
      a value is not positive (the "Invalid record data" branch). */
  function ConfirmedResult(texts: (string, string, string)): (r: Option<Reading>)
    ensures r.Some? <==> Accepted(texts.0) && Accepted(texts.1) && Accepted(texts.2)
    ensures r.Some? ==> Int32Reading(r.value)
    ensures r.Some? ==> r.value.sys > 0 && r.value.dia > 0 && r.value.pul > 0
    ensures r.Some? ==>
              && ToIntOrNull(texts.0) == Some(r.value.sys)
              && ToIntOrNull(texts.1) == Some(r.value.dia)
              && ToIntOrNull(texts.2) == Some(r.value.pul)
  {
    var sys := ToIntOrNull(texts.0);
    var dia := ToIntOrNull(texts.1);
    var pul := ToIntOrNull(texts.2);
    if sys.None? || dia.None? || pul.None? || sys.value <= 0 || dia.value <= 0 || pul.value <= 0 then
      None
    else
      Some(Reading(sys.value, dia.value, pul.value))
  }

  /** A reading with every value positive, shown and confirmed, is saved unchanged. */
  lemma ShowConfirmRoundTrip(r: Reading)
    requires Int32Reading(r) && r.sys > 0 && r.dia > 0 && r.pul > 0
    ensures ConfirmedResult(Display(r)) == Some(r)
  {
  }

  /** A reading that `onDetect` shows, with a value that is not positive (the (0, 0, 0) of
      fewer than three markers included), shows "-" for that value and is never saved. */
  lemma NonPositiveRejected(r: Reading)
    requires Int32Reading(r) && (r.sys <= 0 || r.dia <= 0 || r.pul <= 0)
    ensures ConfirmedResult(Display(r)) == None
  {
    assert ToIntOrNull("-") == None;
  }

  /** The three texts after one call of `detect`, as written: only `onDetect` writes them;
      `onEmptyDetect` clears the overlay and an unavailable detector calls no listener, so
      both leave the texts shown before. */
  function TextsAfter(shown: (string, string, string), outcome: DetectOutcome): (texts: (string, string, string))
    requires Int32Reading(Values(outcome))
    ensures !outcome.Detected? ==> texts == shown
    ensures outcome.Detected? ==> texts == Display(Values(outcome))
    ensures outcome.Detected? ==> (texts.0 == "-" <==> Values(outcome).sys <= 0)
    ensures outcome.Detected? ==> (texts.1 == "-" <==> Values(outcome).dia <= 0)
    ensures outcome.Detected? ==> (texts.2 == "-" <==> Values(outcome).pul <= 0)
    ensures outcome.Detected? && Values(outcome).sys > 0 ==> ToIntOrNull(texts.0) == Some(Values(outcome).sys)
    ensures outcome.Detected? && Values(outcome).dia > 0 ==> ToIntOrNull(texts.1) == Some(Values(outcome).dia)
    ensures outcome.Detected? && Values(outcome).pul > 0 ==> ToIntOrNull(texts.2) == Some(Values(outcome).pul)
  {
    match outcome
    case Detected(_, reading) => Display(reading)
    case _ => shown
  }

  /** A capture that detects nothing still saves the reading shown before it: `detect` returns
      (0, 0, 0), from which the category on screen is computed, but the texts still hold the
      earlier positive reading and `confirmedResult` saves that. */
  lemma StaleReadingSaved(previous: Reading, outcome: DetectOutcome)
    requires Int32Reading(previous) && previous.sys > 0 && previous.dia > 0 && previous.pul > 0
    requires !outcome.Detected?
    ensures Values(outcome) == NoReading
    ensures ConfirmedResult(TextsAfter(Display(previous), outcome)) == Some(previous)
  {
    ShowConfirmRoundTrip(previous);
  }

  /** The texts after one call of `detect`, corrected: every outcome shows the triple `detect`
      returns, so "nothing detected" shows "-" three times. */
  function TextsAfterCorrected(outcome: DetectOutcome): (texts: (string, string, string))
    requires Int32Reading(Values(outcome))
    ensures texts == Display(Values(outcome))
    ensures !outcome.Detected? ==> texts == ("-", "-", "-")
  {
    Display(Values(outcome))
  }

  /** With the corrected texts, what `confirmedResult` saves is exactly the triple `detect`
      returned, when all three values are positive, and nothing otherwise; in particular a
      capture that detects nothing saves nothing. */
  lemma SavedIsReturned(outcome: DetectOutcome)
    requires Int32Reading(Values(outcome))
    ensures var v := Values(outcome);
      ConfirmedResult(TextsAfterCorrected(outcome)) ==
        if v.sys > 0 && v.dia > 0 && v.pul > 0 then Some(v) else None
    ensures ConfirmedResult(TextsAfterCorrected(outcome)).Some? ==> outcome.Detected?
  {
    var v := Values(outcome);
    if v.sys > 0 && v.dia > 0 && v.pul > 0 {
      ShowConfirmRoundTrip(v);
    } else {
      NonPositiveRejected(v);
    }
  }

  /** A rectangle of pixels: top-left corner and size. */
  datatype Rect = Rect(x: int, y: int, width: int, height: int)

  /** `Bitmap.createBitmap(source, x, y, w, h)` accepts the rectangle only when it lies in the
      source bitmap; otherwise it throws. */
  predicate WithinBitmap(rect: Rect, width: int, height: int) {
    && 0 <= rect.x && 0 <= rect.y
    && rect.width > 0 && rect.height > 0
    && rect.x + rect.width <= width && rect.y + rect.height <= height
  }

  /** Kotlin's `minOf`. */
  function MinOf(a: int, b: int): int {
    if a <= b then a else b
  }

  /** Kotlin's `Int` division by a positive divisor, which rounds toward zero: down for a
      dividend that is not negative, up for a negative one. */
  function TruncDiv(a: int, b: int): (q: int)
    requires b > 0
    ensures a >= 0 ==> q * b <= a < q * b + b
    ensures a < 0 ==> q * b - b < a <= q * b
  {
    if a >= 0 then a / b else -((-a) / b)
  }

  /** `cropBitmap1x1` as written: `minOf(width, width)` makes the side the width, whatever the
      height, and the top edge is half the height left over, rounded toward zero; on a
      landscape frame that is above the bitmap. */
  function CropAsWritten(width: int, height: int): (rect: Rect)
    requires width > 0 && height > 0
    ensures rect.width == rect.height == width && rect.x == 0
    ensures height >= width ==> 0 <= (height - width) - 2 * rect.y <= 1
    ensures height < width ==> 0 <= 2 * rect.y - (height - width) <= 1
  {
    var cropSize := MinOf(width, width);
    Rect(TruncDiv(width - cropSize, 2), TruncDiv(height - cropSize, 2), cropSize, cropSize)
  }

  /** On a landscape frame the rectangle starts above the bitmap and is taller than it, so the
      crop throws: a 4000 by 3000 frame asks for a 4000-pixel square at y = -500. */
  lemma CropAsWrittenLeavesLandscape(width: int, height: int)
    requires width > height > 0
    ensures !WithinBitmap(CropAsWritten(width, height), width, height)
  {
  }

  lemma CropAsWrittenExample()
    ensures CropAsWritten(4000, 3000) == Rect(0, -500, 4000, 4000)
  {
  }

  /** The centred square crop the function is named for: side `min(width, height)`. It always
      lies in the bitmap and leaves equal margins, up to one pixel, on both sides of each axis. */
  function CropCorrected(width: int, height: int): (rect: Rect)
    requires width > 0 && height > 0
    ensures rect.width == rect.height
    ensures rect.width <= width && rect.width <= height
    ensures rect.width == width || rect.width == height
    ensures WithinBitmap(rect, width, height)
    ensures 0 <= (width - rect.x - rect.width) - rect.x <= 1
    ensures 0 <= (height - rect.y - rect.height) - rect.y <= 1
  {
    var cropSize := MinOf(width, height);
    Rect(TruncDiv(width - cropSize, 2), TruncDiv(height - cropSize, 2), cropSize, cropSize)
  }

  /** On portrait and square frames the written code already crops correctly. */
  lemma CropAgreesOnPortrait(width: int, height: int)
    requires 0 < width <= height
    ensures CropAsWritten(width, height) == CropCorrected(width, height)
  {
  }

  /** `resizeBitmap1x1`: the side of the square the frame is scaled to, the smaller dimension. */
  function ResizeSide(width: int, height: int): (side: int)
    requires width > 0 && height > 0
    ensures 0 < side <= width && side <= height
    ensures side == width || side == height
  {
    MinOf(width, height)
  }
}
