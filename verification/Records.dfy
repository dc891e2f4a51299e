/**
  The stored blood-pressure record (`BPRecord`) and its own copy of the
  category table, which pairs each category with a colour resource.
 */
module Records {
  import opened KotlinText
  import opened Category

  /** The colour resources the table names. */
  datatype ColourRes = BpBlue | BpGreen | BpYellow | BpOrange | BpRed | BpRedDark

  /** A saved reading; the timestamp is not modelled. */
  datatype BPRecord = BPRecord(id: string, sys: int, dia: int, pul: int, category: string)

  /** The colour each category is drawn in. */
  function CategoryColour(c: BPCategory): ColourRes {
    match c
    case Low => BpBlue
    case Optimal | Normal => BpGreen
    case HighNormal => BpYellow
    case Stage1 => BpOrange
    case Stage2 => BpRed
    case Stage3 => BpRedDark
  }

  /** `BPRecord.getRecordCategory` for a user of the given age. Its `when` table is written
      out as the record class has it; its age offsets are the same text as the view model's,
      so they are shared from `Category.AdjustedSys` and `Category.AdjustedDia`. Its label
      always agrees with the view model's `getRecordCategory`, and its colour is the
      category's colour. */
  function CategoryWithColour(rec: BPRecord, age: int): (r: (string, ColourRes))
    requires IsInt32(rec.sys) && IsInt32(rec.dia)
    ensures r.0 == RecordCategory(rec.sys, rec.dia, age)
    ensures r.1 == CategoryColour(CategoryOf(rec.sys, rec.dia, age))
  {
    var s := AdjustedSys(rec.sys, age);
    var d := AdjustedDia(rec.dia, age);
    if s < 90 || d < 60 then ("LOW", BpBlue)
    else if s < 120 && d < 80 then ("OPTIMAL", BpGreen)
    else if InRange(s, 120, 129) || InRange(d, 80, 84) then ("NORMAL", BpGreen)
    else if InRange(s, 130, 139) || InRange(d, 85, 89) then ("HIGH NORMAL: PREHYPERTENSION", BpYellow)
    else if InRange(s, 140, 159) || InRange(d, 90, 99) then ("HIGH: STAGE 1 HYPERTENSION", BpOrange)
    else if InRange(s, 160, 179) || InRange(d, 100, 109) then ("HIGH: STAGE 2 HYPERTENSION", BpRed)
    else ("VERY HIGH: STAGE 3 HYPERTENSION", BpRedDark)
  }

  /** "LOW" whenever one adjusted value is under its floor, whatever the other value is. */
  lemma LowWhateverTheOther(rec: BPRecord, age: int)
    requires IsInt32(rec.sys) && IsInt32(rec.dia)
    requires AdjustedSys(rec.sys, age) < 90 || AdjustedDia(rec.dia, age) < 60
    ensures CategoryWithColour(rec, age) == ("LOW", BpBlue)
  {
  }
}
