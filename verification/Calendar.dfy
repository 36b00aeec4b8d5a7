/** The Gregorian calendar, in whole seconds from the start of year 1. */
module Calendar {
  const DAY := 86400
  const HOUR := 3600

  datatype Month = Month(year: nat, month: nat)

  predicate IsLeap(year: nat) {
    year % 4 == 0 && (year % 100 != 0 || year % 400 == 0)
  }

  function DaysIn(m: Month): nat {
    if m.month == 2 then (if IsLeap(m.year) then 29 else 28)
    else if m.month in {4, 6, 9, 11} then 30
    else 31
  }

  /** Months counted from January of year 1. */
  function Numbered(k: nat): Month {
    Month(k / 12 + 1, k % 12 + 1)
  }

  /** The first second of the k-th month. */
  function Gregorian(k: nat): int {
    if k == 0 then 0 else Gregorian(k - 1) + DAY * DaysIn(Numbered(k - 1))
  }

  /** Later months start later. */
  ghost predicate IsCalendar(start: nat -> int) {
    forall i: nat, j: nat :: i < j ==> start(i) < start(j)
  }

  lemma {:induction false} GregorianRises(i: nat, j: nat)
    requires i < j
    ensures Gregorian(i) < Gregorian(j)
  {
    if i < j - 1 {
      GregorianRises(i, j - 1);
    }
  }

  lemma GregorianIsCalendar()
    ensures IsCalendar(Gregorian)
  {
    forall i: nat, j: nat | i < j
      ensures Gregorian(i) < Gregorian(j)
    {
      GregorianRises(i, j);
    }
  }

  predicate IsMonth(m: Month) {
    1 <= m.year && 1 <= m.month <= 12
  }

  /** A month's place in that count. */
  function NumberOf(m: Month): nat
    requires IsMonth(m)
  {
    (m.year - 1) * 12 + m.month - 1
  }

  /** The loop's year and month arithmetic steps to the following month. */
  method Advance(m: Month) returns (next: Month)
    requires IsMonth(m)
    ensures IsMonth(next) && NumberOf(next) == NumberOf(m) + 1
  {
    next := Month(m.year + m.month / 12, m.month % 12 + 1);
  }

  /** The k-th month, as year and month. */
  method MonthNumbered(k: nat) returns (m: Month)
    ensures IsMonth(m) && NumberOf(m) == k
  {
    m := Numbered(k);
  }

  function MonthFrom(k: nat, t: int): (m: nat)
    requires Gregorian(k) <= t
    ensures Gregorian(m) <= t < Gregorian(m + 1)
    decreases t - Gregorian(k)
  {
    if t < Gregorian(k + 1) then k else MonthFrom(k + 1, t)
  }

  /** The month a second is in. */
  function MonthAt(t: nat): (m: nat)
    ensures Gregorian(m) <= t < Gregorian(m + 1)
  {
    MonthFrom(0, t)
  }
}
