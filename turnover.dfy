/** The turnover record of the backend (backend/analytics/models.py): the performance rating
    choices and `EmployeeTurnover.save`, which derives the tenure in whole months from the
    employee's hire date and the exit date before the row is written. */
module Turnover {
  import opened Basics

  /** A calendar date; only the year and the month enter the tenure. */
  datatype Date = Date(year: int, month: int, day: int)

  /** `performance_rating`: one of the four choices, or blank. */
  datatype PerformanceRating = Unrated | Excellent | Good | Average | Poor

  function RatingText(r: PerformanceRating): (text: string)
    ensures text == "" <==> r == Unrated
  {
    match r
    case Unrated => ""
    case Excellent => "Excellent"
    case Good => "Good"
    case Average => "Average"
    case Poor => "Poor"
  }

  /** The stored text of a rating, when it is one of the choices. */
  function ParseRating(text: string): (r: Option<PerformanceRating>)
    ensures r.Some? ==> RatingText(r.value) == text
  {
    if text == "" then Some(Unrated)
    else if text == "Excellent" then Some(Excellent)
    else if text == "Good" then Some(Good)
    else if text == "Average" then Some(Average)
    else if text == "Poor" then Some(Poor)
    else None
  }

  lemma {:induction false} RatingRoundTrip(r: PerformanceRating)
    ensures ParseRating(RatingText(r)) == Some(r)
  {
  }

  /** The calendar months from hire to exit, the day of the month ignored, never negative. */
  function TenureMonths(hire: Date, exit: Date): (months: nat)
    ensures months >= (exit.year - hire.year) * 12 + (exit.month - hire.month)
    ensures months == 0 || months == (exit.year - hire.year) * 12 + (exit.month - hire.month)
  {
    var delta := (exit.year - hire.year) * 12 + (exit.month - hire.month);
    if delta > 0 then delta else 0
  }

  /** An exit in the hire month, or before the hire date, gives a tenure of 0. */
  lemma {:induction false} SameMonthIsZero(hire: Date, exitDay: int)
    ensures TenureMonths(hire, Date(hire.year, hire.month, exitDay)) == 0
  {
  }

  lemma {:induction false} ExitBeforeHireIsZero(hire: Date, exit: Date)
    requires exit.year < hire.year || (exit.year == hire.year && exit.month <= hire.month)
    requires 1 <= hire.month <= 12 && 1 <= exit.month <= 12
    ensures TenureMonths(hire, exit) == 0
  {
  }

  /** The day of the month does not matter. */
  lemma {:induction false} DayIgnored(hire: Date, exit: Date, d1: int, d2: int)
    ensures TenureMonths(hire.(day := d1), exit.(day := d2)) == TenureMonths(hire, exit)
  {
  }

  /** A year after the hire month is twelve months. */
  lemma {:induction false} OneYear(hire: Date)
    ensures TenureMonths(hire, Date(hire.year + 1, hire.month, 1)) == 12
  {
  }

  /** Tenure is additive over an intermediate date after the hire. */
  lemma {:induction false} TenureAdds(hire: Date, mid: Date, exit: Date)
    requires TenureMonths(hire, mid) > 0 && TenureMonths(mid, exit) > 0
    ensures TenureMonths(hire, exit) == TenureMonths(hire, mid) + TenureMonths(mid, exit)
  {
  }

  /** Why `save` raises: the employee is missing, or the row lacks its NOT NULL exit date. */
  datatype SaveFailure = MissingEmployee | NullExitDate

  /** A turnover record with the fields `save` reads and writes. The employee's hire date is
      joined in; None stands for a missing employee or hire date. */
  class TurnoverRecord {
    var employee: Option<int>
    var hireDate: Option<Date>
    var exitDate: Option<Date>
    var tenureMonths: Option<int>
    var rating: PerformanceRating

    constructor (employee: Option<int>, hireDate: Option<Date>, exitDate: Option<Date>, rating: PerformanceRating)
      ensures this.employee == employee && this.hireDate == hireDate && this.exitDate == exitDate
      ensures this.rating == rating && tenureMonths.None?
    {
      this.employee := employee;
      this.hireDate := hireDate;
      this.exitDate := exitDate;
      this.rating := rating;
      tenureMonths := None;
    }

    /** `save`: reading a missing employee raises (`RelatedObjectDoesNotExist`) and changes
        nothing. With an employee, an exit date and a hire date the tenure is recomputed;
        otherwise the stored value is kept. The row is then written, and a missing exit date
        (a NOT NULL column) makes that write raise (`IntegrityError`). Nothing else changes. */
    method Save() returns (failure: Option<SaveFailure>)
      modifies this
      ensures failure == Some(MissingEmployee) <==> old(employee).None?
      ensures failure == Some(NullExitDate) <==> old(employee).Some? && old(exitDate).None?
      ensures failure.None? <==> old(employee).Some? && old(exitDate).Some?
      ensures employee == old(employee) && hireDate == old(hireDate) && exitDate == old(exitDate) && rating == old(rating)
      ensures failure.None? && old(hireDate).Some? ==>
                tenureMonths == Some(TenureMonths(old(hireDate).value, old(exitDate).value))
      ensures failure.Some? || old(hireDate).None? ==> tenureMonths == old(tenureMonths)
    {
      if employee.None? {
        return Some(MissingEmployee);
      }
      if exitDate.Some? && hireDate.Some? {
        var exit := exitDate.value;
        var hire := hireDate.value;
        var delta := (exit.year - hire.year) * 12 + (exit.month - hire.month);
        tenureMonths := Some(if delta > 0 then delta else 0);
      }
      if exitDate.None? {
        return Some(NullExitDate);
      }
      failure := None;
    }
  }
}
