/**
  The user profile (`BPUser`): age from the birth date, and the BMI category
  table. The current date is a parameter, given as (year, day of year) like the
  calendar fields the source compares.
 */
module Users {
  import opened Records

  /** A profile; the birth date is kept as its calendar year and day of year. */
  datatype BPUser = BPUser(
    id: string, name: string,
    weight: int, height: int,
    birthYear: int, birthDay: int,
    records: seq<BPRecord>)

  /** (y1, d1) is on or before (y2, d2) in calendar order. */
  predicate OnOrBefore(y1: int, d1: int, y2: int, d2: int) {
    y1 < y2 || (y1 == y2 && d1 <= d2)
  }

  /** `getAge`: the year difference, one less while this year's birthday has not come. */
  function Age(nowYear: int, nowDay: int, birthYear: int, birthDay: int): (age: int)
    ensures age == nowYear - birthYear || age == nowYear - birthYear - 1
    ensures age == nowYear - birthYear - 1 <==> nowDay < birthDay
  {
    var years := nowYear - birthYear;
    if nowDay < birthDay then years - 1 else years
  }

  /** The age counts the returns of the birth's day of year that have come: it is at least
      `k` exactly when the `k`-th return of that day-of-year number falls on or before today,
      the day itself included. This is the calendar birthday only where no leap day lies
      between: someone born on 1 March 2000 (day 61) is still 0 on 1 March 2001 (day 60). */
  lemma AgeCountsBirthdays(nowYear: int, nowDay: int, birthYear: int, birthDay: int, k: int)
    ensures Age(nowYear, nowDay, birthYear, birthDay) >= k <==>
              OnOrBefore(birthYear + k, birthDay, nowYear, nowDay)
  {
  }

  function UserAge(user: BPUser, nowYear: int, nowDay: int): int {
    Age(nowYear, nowDay, user.birthYear, user.birthDay)
  }

  datatype BMICategory = Underweight | NormalWeight | Overweight | ObeseI | ObeseII | ObeseIII
  {
    function Label(): string {
      match this
      case Underweight => "Underweight"
      case NormalWeight => "Normal"
      case Overweight => "Overweight"
      case ObeseI => "Obese Class I"
      case ObeseII => "Obese Class II"
      case ObeseIII => "Obese Class III"
    }

    function Rank(): nat {
      match this
      case Underweight => 0
      case NormalWeight => 1
      case Overweight => 2
      case ObeseI => 3
      case ObeseII => 4
      case ObeseIII => 5
    }
  }

  /** The lower bounds of the categories after the first, ascending. */
  const BMIThresholds: seq<real> := [18.5, 24.9, 29.9, 34.9, 39.9]

  /** How many of the thresholds `bmi` has reached. */
  function Reached(thresholds: seq<real>, bmi: real): nat {
    if thresholds == [] then 0
    else (if thresholds[0] <= bmi then 1 else 0) + Reached(thresholds[1..], bmi)
  }

  lemma {:induction false} ReachedMonotone(thresholds: seq<real>, a: real, b: real)
    requires a <= b
    ensures Reached(thresholds, a) <= Reached(thresholds, b)
  {
    if thresholds != [] {
      ReachedMonotone(thresholds[1..], a, b);
    }
  }

  /** The count, threshold by threshold. */
  lemma ReachedCount(bmi: real)
    ensures Reached(BMIThresholds, bmi) ==
              (if 18.5 <= bmi then 1 else 0) + (if 24.9 <= bmi then 1 else 0)
              + (if 29.9 <= bmi then 1 else 0) + (if 34.9 <= bmi then 1 else 0)
              + (if 39.9 <= bmi then 1 else 0)
  {
    var t := BMIThresholds;
    assert t[1..] == [24.9, 29.9, 34.9, 39.9];
    assert t[1..][1..] == [29.9, 34.9, 39.9];
    assert t[1..][1..][1..] == [34.9, 39.9];
    assert t[1..][1..][1..][1..] == [39.9];
    assert t[1..][1..][1..][1..][1..] == [];
    assert Reached([39.9], bmi) == (if 39.9 <= bmi then 1 else 0);
    assert Reached([34.9, 39.9], bmi) == (if 34.9 <= bmi then 1 else 0) + Reached([39.9], bmi);
    assert Reached([29.9, 34.9, 39.9], bmi) ==
             (if 29.9 <= bmi then 1 else 0) + Reached([34.9, 39.9], bmi);
    assert Reached([24.9, 29.9, 34.9, 39.9], bmi) ==
             (if 24.9 <= bmi then 1 else 0) + Reached([29.9, 34.9, 39.9], bmi);
  }

  /** `getBMICategory` over a given BMI: the category is the number of thresholds reached, each
      threshold belonging to the category above it. */
  function CategoryForBMI(bmi: real): (c: BMICategory)
    ensures c.Rank() == Reached(BMIThresholds, bmi)
  {
    ReachedCount(bmi);
    if bmi < 18.5 then Underweight
    else if bmi < 24.9 then NormalWeight
    else if bmi < 29.9 then Overweight
    else if bmi < 34.9 then ObeseI
    else if bmi < 39.9 then ObeseII
    else ObeseIII
  }

  /** A larger BMI never gets an earlier category. */
  lemma BMICategoryMonotone(a: real, b: real)
    requires a <= b
    ensures CategoryForBMI(a).Rank() <= CategoryForBMI(b).Rank()
  {
    ReachedMonotone(BMIThresholds, a, b);
  }

  /** Every comparison is strict, over exact reals: a BMI of exactly 24.9 is already
      "Overweight", exactly 18.5 "Normal", exactly 39.9 "Obese Class III". */
  lemma BMIBoundaries()
    ensures CategoryForBMI(24.9).Label() == "Overweight"
    ensures CategoryForBMI(18.5).Label() == "Normal"
    ensures CategoryForBMI(39.9).Label() == "Obese Class III"
  {
  }
}
