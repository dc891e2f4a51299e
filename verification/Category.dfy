/**
  Blood-pressure classification (`getRecordCategory` of the view model): the
  reading is shifted by an age-bracket offset in 32-bit `Int` arithmetic, then
  the first matching row of a seven-row table names the category.
 */
module Category {
  import opened KotlinText

  datatype BPCategory = Low | Optimal | Normal | HighNormal | Stage1 | Stage2 | Stage3
  {
    /** The string the application stores and displays. */
    function Label(): string {
      match this
      case Low => "LOW"
      case Optimal => "OPTIMAL"
      case Normal => "NORMAL"
      case HighNormal => "HIGH NORMAL: PREHYPERTENSION"
      case Stage1 => "HIGH: STAGE 1 HYPERTENSION"
      case Stage2 => "HIGH: STAGE 2 HYPERTENSION"
      case Stage3 => "VERY HIGH: STAGE 3 HYPERTENSION"
    }

    /** Position of the row in the table, 0 for the first. */
    function Rank(): nat {
      match this
      case Low => 0
      case Optimal => 1
      case Normal => 2
      case HighNormal => 3
      case Stage1 => 4
      case Stage2 => 5
      case Stage3 => 6
    }
  }

  const CategoryLabels: set<string> := {
    "LOW", "OPTIMAL", "NORMAL", "HIGH NORMAL: PREHYPERTENSION",
    "HIGH: STAGE 1 HYPERTENSION", "HIGH: STAGE 2 HYPERTENSION",
    "VERY HIGH: STAGE 3 HYPERTENSION" }

  /** The offsets added to systolic and diastolic values. */
  datatype Offset = Offset(sys: int, dia: int)

  /** The age-bracket table. The 50-54 bracket adds where its neighbours subtract; the model
      keeps the table as it stands. */
  function AgeOffset(age: int): Offset {
    if age <= 1 then Offset(30, 20)
    else if age <= 5 then Offset(25, 15)
    else if age <= 13 then Offset(15, 10)
    else if age <= 19 then Offset(3, 3)
    else if age <= 29 then Offset(0, 0)
    else if age <= 34 then Offset(-2, -1)
    else if age <= 39 then Offset(-3, -2)
    else if age <= 44 then Offset(-5, -3)
    else if age <= 49 then Offset(-7, -4)
    else if age <= 54 then Offset(9, 5)
    else if age <= 59 then Offset(-11, -6)
    else Offset(-14, -7)
  }

  /** Kotlin's `x in lo..hi`. */
  predicate InRange(x: int, lo: int, hi: int) {
    lo <= x <= hi
  }

  /** The table row a systolic value reaches on its own: 2 for 120 and up, one more at 130,
      140, 160 and 180; 7 ("none") below 120. */
  function SysBand(s: int): nat {
    if s >= 180 then 6 else if s >= 160 then 5 else if s >= 140 then 4
    else if s >= 130 then 3 else if s >= 120 then 2 else 7
  }

  /** The row a diastolic value reaches on its own: 2 from 80, then 85, 90, 100 and 110;
      7 ("none") below 80. */
  function DiaBand(d: int): nat {
    if d >= 110 then 6 else if d >= 100 then 5 else if d >= 90 then 4
    else if d >= 85 then 3 else if d >= 80 then 2 else 7
  }

  function MinNat(a: nat, b: nat): nat {
    if a <= b then a else b
  }

  /** The `when` table on adjusted values: the first row that matches wins. */
  function Classify(s: int, d: int): (c: BPCategory)
    ensures c == Low <==> s < 90 || d < 60
    ensures c == Optimal <==> 90 <= s < 120 && 60 <= d < 80
    ensures c.Rank() >= 2 ==> c.Rank() == MinNat(SysBand(s), DiaBand(d))
  {
    if s < 90 || d < 60 then Low
    else if s < 120 && d < 80 then Optimal
    else if InRange(s, 120, 129) || InRange(d, 80, 84) then Normal
    else if InRange(s, 130, 139) || InRange(d, 85, 89) then HighNormal
    else if InRange(s, 140, 159) || InRange(d, 90, 99) then Stage1
    else if InRange(s, 160, 179) || InRange(d, 100, 109) then Stage2
    else Stage3
  }

  /** `adjustedSys += offset` on a Kotlin `Int`. */
  function Adjust(value: int, offset: int): (r: int)
    requires IsInt32(value)
    ensures IsInt32(r)
    ensures IsInt32(value + offset) ==> r == value + offset
  {
    Wrap32(value + offset)
  }

  function AdjustedSys(sys: int, age: int): int
    requires IsInt32(sys)
  {
    Adjust(sys, AgeOffset(age).sys)
  }

  function AdjustedDia(dia: int, age: int): int
    requires IsInt32(dia)
  {
    Adjust(dia, AgeOffset(age).dia)
  }

  /** The category of a reading for a user of the given age. */
  function CategoryOf(sys: int, dia: int, age: int): BPCategory
    requires IsInt32(sys) && IsInt32(dia)
  {
    Classify(AdjustedSys(sys, age), AdjustedDia(dia, age))
  }

  /** `getRecordCategory(sys, dia, bpUser)`, with the user's age already computed. The result is
      one of the seven labels; "LOW" exactly when an adjusted value is under its floor, and
      "OPTIMAL" exactly when both adjusted values are in the band below "NORMAL". */
  function RecordCategory(sys: int, dia: int, age: int): (r: string)
    requires IsInt32(sys) && IsInt32(dia)
    ensures r in CategoryLabels
    ensures r == "LOW" <==> AdjustedSys(sys, age) < 90 || AdjustedDia(dia, age) < 60
    ensures r == "OPTIMAL" <==>
              90 <= AdjustedSys(sys, age) < 120 && 60 <= AdjustedDia(dia, age) < 80
  {
    CategoryOf(sys, dia, age).Label()
  }

  /** Outside the 50-54 bracket, an older user never gets a larger offset. */
  lemma OffsetNonIncreasingOutsideFifties(a: int, b: int)
    requires a <= b
    requires !(50 <= a <= 54) && !(50 <= b <= 54)
    ensures AgeOffset(b).sys <= AgeOffset(a).sys && AgeOffset(b).dia <= AgeOffset(a).dia
  {
  }

  /** The brackets the table is most often read for: infants +30/+20, the twenties unchanged,
      50-54 raised by +9/+5 while 45-49 and 55-59 are lowered, and 60 and over -14/-7. */
  lemma OffsetBrackets(age: int)
    ensures age <= 1 ==> AgeOffset(age) == Offset(30, 20)
    ensures 20 <= age <= 29 ==> AgeOffset(age) == Offset(0, 0)
    ensures 45 <= age <= 49 ==> AgeOffset(age) == Offset(-7, -4)
    ensures 50 <= age <= 54 ==> AgeOffset(age) == Offset(9, 5)
    ensures 55 <= age <= 59 ==> AgeOffset(age) == Offset(-11, -6)
    ensures age >= 60 ==> AgeOffset(age) == Offset(-14, -7)
  {
  }

  /** The first row wins: at 25, 150/82 is "NORMAL" because the diastolic value matches the
      "NORMAL" row before the systolic one reaches "STAGE 1". */
  lemma FirstMatchExample()
    ensures RecordCategory(150, 82, 25) == "NORMAL"
  {
  }

  /** The table is not monotone in the systolic value: at 25 with diastolic 95, systolic 115
      gives "STAGE 1" but systolic 125 gives "NORMAL". */
  lemma NotMonotoneInSystolic()
    ensures RecordCategory(115, 95, 25) == "HIGH: STAGE 1 HYPERTENSION"
    ensures RecordCategory(125, 95, 25) == "NORMAL"
  {
  }

  /** The offset is applied in 32-bit arithmetic: the largest `Int` systolic value of an
      infant wraps to a negative number and reads "LOW". */
  lemma WrapExample()
    ensures AdjustedSys(MaxInt, 0) == MinInt + 29
    ensures RecordCategory(MaxInt, 80, 0) == "LOW"
  {
  }
}
