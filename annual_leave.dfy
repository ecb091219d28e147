/** The annual-leave day counter of Unit02 (activity_employee.py). */
module AnnualLeave {
  import opened Text

  /** Paid days off at the start of the year. */
  const AnnualDays: nat := 22

  /** The text in front of the count in `days_off`. */
  const DaysOffPrefix: string := "Paid days off for the year: "

  class Employee {
    const name: string
    const salary: int
    const role: string
    /** The private day counter; its type keeps it from going negative. */
    var annualDays: nat

    /** A new employee has the full 22 days. */
    constructor (name: string, salary: int, role: string)
      ensures this.name == name && this.salary == salary && this.role == role
      ensures annualDays == AnnualDays
    {
      this.name := name;
      this.salary := salary;
      this.role := role;
      annualDays := AnnualDays;
    }

    /** `book_day`: takes one day when any remain; otherwise refuses and
        leaves the counter alone. */
    method BookDay() returns (booked: bool)
      modifies this`annualDays
      ensures booked == (old(annualDays) > 0)
      ensures annualDays == if booked then old(annualDays) - 1 else old(annualDays)
    {
      if annualDays > 0 {
        annualDays := annualDays - 1;
        return true;
      }
      return false;
    }

    /** `days_off`: the remaining days, in words. */
    function DaysOff(): (r: string)
      reads this`annualDays
      ensures |DaysOffPrefix| < |r| && r[..|DaysOffPrefix|] == DaysOffPrefix
      ensures AllDigits(r[|DaysOffPrefix|..]) && DigitsValue(r[|DaysOffPrefix|..]) == annualDays
    {
      DecimalValue(annualDays);
      var r := DaysOffPrefix + Decimal(annualDays);
      assert r[..|DaysOffPrefix|] == DaysOffPrefix;
      assert r[|DaysOffPrefix|..] == Decimal(annualDays);
      r
    }
  }

  /** Booking until refused, as the program does when every answer is "y":
      each of the remaining days is booked once, and then the counter is 0. */
  method BookUntilRefused(employee: Employee) returns (booked: nat)
    modifies employee`annualDays
    ensures booked == old(employee.annualDays)
    ensures employee.annualDays == 0
  {
    booked := 0;
    while true
      invariant booked + employee.annualDays == old(employee.annualDays)
      decreases employee.annualDays
    {
      var ok := employee.BookDay();
      if !ok {
        return;
      }
      booked := booked + 1;
    }
  }

  /** A fresh employee can book exactly 22 days. */
  method FreshEmployeeBookings() returns (booked: nat)
    ensures booked == 22
  {
    var employee := new Employee("", 0, "");
    booked := BookUntilRefused(employee);
  }
}
