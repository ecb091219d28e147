/** The employee leave system (Unit04 employee_mg_system.py): leave balances,
    leave requests with a working-day count, the request ledger and the
    employee register. Dates are day numbers in the proleptic Gregorian
    calendar with day 1 = 1 January of year 1, a Monday, so the weekday
    (Monday = 0 … Sunday = 6) of day `d` is `(d + 6) % 7`; "today" is a
    parameter. */
module LeaveSystem {
  import opened Wrappers
  import opened Text

  /** Days of annual leave every employee starts with. */
  const StandardAnnualLeave: int := 20

  /** Python truthiness of an optional keyword argument. */
  predicate TruthyText(o: Option<string>) { o.Some? && o.value != [] }
  predicate TruthyAmount(o: Option<real>) { o.Some? && o.value != 0.0 }

  /** `restore_leave`: the balance after giving back `days`, capped at the
      annual allowance, that is min(balance + days, cap). */
  function Restored(balance: int, days: int, cap: int): (r: int)
    ensures r <= cap && r <= balance + days
    ensures r == cap || r == balance + days
  {
    if balance + days <= cap then balance + days else cap
  }

  /** Deducting and restoring the same non-negative days within the allowance
      gives back the original balance. */
  lemma DeductRestore(balance: int, days: int, cap: int)
    requires 0 <= days <= balance <= cap
    ensures Restored(balance - days, days, cap) == balance
  {
  }

  class Employee {
    const employeeId: string
    var name: string
    var email: string
    var department: string
    var salary: real
    const hireDate: int
    const annualLeaveDays: int
    var leaveBalance: int

    constructor (employeeId: string, name: string, email: string, department: string,
                 salary: real, hireDate: int)
      ensures this.employeeId == employeeId && this.name == name && this.email == email
      ensures this.department == department && this.salary == salary && this.hireDate == hireDate
      ensures annualLeaveDays == StandardAnnualLeave && leaveBalance == StandardAnnualLeave
      ensures BalanceInRange()
    {
      this.employeeId := employeeId;
      this.name := name;
      this.email := email;
      this.department := department;
      this.salary := salary;
      this.hireDate := hireDate;
      annualLeaveDays := StandardAnnualLeave;
      leaveBalance := StandardAnnualLeave;
    }

    /** The balance lies between none left and the full allowance. */
    predicate BalanceInRange()
      reads this`leaveBalance
    {
      0 <= leaveBalance <= annualLeaveDays
    }

    /** `update_details`: overwrites exactly the fields given a truthy value. */
    method UpdateDetails(name: Option<string>, email: Option<string>,
                         department: Option<string>, salary: Option<real>)
      modifies this`name, this`email, this`department, this`salary
      ensures this.name == if TruthyText(name) then name.value else old(this.name)
      ensures this.email == if TruthyText(email) then email.value else old(this.email)
      ensures this.department == if TruthyText(department) then department.value else old(this.department)
      ensures this.salary == if TruthyAmount(salary) then salary.value else old(this.salary)
    {
      if TruthyText(name) {
        this.name := name.value;
      }
      if TruthyText(email) {
        this.email := email.value;
      }
      if TruthyText(department) {
        this.department := department.value;
      }
      if TruthyAmount(salary) {
        this.salary := salary.value;
      }
    }

    /** `deduct_leave`: succeeds iff the days fit in the balance, and then
        subtracts them; a failure leaves the balance alone. */
    method DeductLeave(days: int) returns (ok: bool)
      modifies this`leaveBalance
      ensures ok == (days <= old(leaveBalance))
      ensures leaveBalance == if ok then old(leaveBalance) - days else old(leaveBalance)
      ensures old(BalanceInRange()) && days >= 0 ==> BalanceInRange()
    {
      if days <= leaveBalance {
        leaveBalance := leaveBalance - days;
        return true;
      }
      return false;
    }

    /** `restore_leave`: gives days back, never above the annual allowance. */
    method RestoreLeave(days: int)
      modifies this`leaveBalance
      ensures leaveBalance == Restored(old(leaveBalance), days, annualLeaveDays)
      ensures old(BalanceInRange()) && days >= 0 ==> BalanceInRange()
    {
      leaveBalance := if leaveBalance + days <= annualLeaveDays then leaveBalance + days else annualLeaveDays;
    }
  }

  // ---------------------------------------------------------------------------
  // Working days

  /** `date.weekday()` of a day number: Monday = 0 … Sunday = 6. */
  function Weekday(day: int): (w: int)
    ensures 0 <= w < 7
  {
    (day + 6) % 7
  }

  /** The calendar repeats weekly, and day 1 is a Monday. */
  lemma WeekdayPeriodic(day: int)
    ensures Weekday(day + 7) == Weekday(day)
    ensures Weekday(1) == 0
  {
  }

  predicate IsWorkday(day: int) {
    Weekday(day) < 5
  }

  /** Reference count of the Monday-to-Friday days in [start, end]. */
  function Workdays(start: int, end: int): nat
    decreases end - start
  {
    if start > end then 0 else (if IsWorkday(start) then 1 else 0) + Workdays(start + 1, end)
  }

  /** The reference count counts each working day of the range exactly once:
      it is the size of the set of those days, and zero for a reversed range. */
  lemma {:induction false} WorkdaysIsSetSize(start: int, end: int)
    ensures Workdays(start, end) == |set d | start <= d <= end && IsWorkday(d)|
    ensures start > end ==> Workdays(start, end) == 0
    decreases end - start
  {
    var all := set d | start <= d <= end && IsWorkday(d);
    if start > end {
      assert all == {};
    } else {
      var rest := set d | start + 1 <= d <= end && IsWorkday(d);
      WorkdaysIsSetSize(start + 1, end);
      if IsWorkday(start) {
        assert all == rest + {start};
        assert start !in rest;
      } else {
        assert all == rest;
      }
    }
  }

  lemma WorkdaysStep(start: int, end: int)
    requires start <= end
    ensures Workdays(start, end) == (if IsWorkday(start) then 1 else 0) + Workdays(start + 1, end)
  {
  }

  /** 1 for a working day, 0 otherwise. */
  function Flag(day: int): nat {
    if IsWorkday(day) then 1 else 0
  }

  lemma {:induction false} WorkdaysLast(start: int, end: int)
    requires start <= end
    ensures Workdays(start, end) == Workdays(start, end - 1) + Flag(end)
    decreases end - start
  {
    if start < end {
      WorkdaysLast(start + 1, end);
    }
  }

  /** Moving a seven-day window one day on leaves its count unchanged. */
  lemma WeekSlide(day: int)
    ensures Workdays(day + 1, day + 7) == Workdays(day, day + 6)
  {
    WorkdaysStep(day, day + 6);
    WorkdaysLast(day + 1, day + 7);
    WeekdayPeriodic(day);
  }

  /** Any seven consecutive days hold exactly five working days. */
  lemma {:induction false} FullWeek(start: int)
    ensures Workdays(start, start + 6) == 5
    decreases if start >= 1 then start - 1 else 1 - start
  {
    if start == 1 {
      assert Flag(1) == 1 && Flag(2) == 1 && Flag(3) == 1 && Flag(4) == 1 && Flag(5) == 1;
      assert Flag(6) == 0 && Flag(7) == 0;
      WorkdaysLast(1, 7);
      WorkdaysLast(1, 6);
      WorkdaysLast(1, 5);
      WorkdaysLast(1, 4);
      WorkdaysLast(1, 3);
      WorkdaysLast(1, 2);
      WorkdaysLast(1, 1);
    } else if start > 1 {
      FullWeek(start - 1);
      WeekSlide(start - 1);
    } else {
      FullWeek(start + 1);
      WeekSlide(start);
    }
  }

  /** `calculate_days`: walks the range day by day counting working days. */
  method CalculateDays(start: int, end: int) returns (days: nat)
    ensures days == Workdays(start, end)
  {
    days := 0;
    var current := start;
    while current <= end
      invariant start <= end ==> current <= end + 1
      invariant days + Workdays(current, end) == Workdays(start, end)
      decreases end - current
    {
      if Weekday(current) < 5 {
        days := days + 1;
      }
      current := current + 1;
    }
  }

  // ---------------------------------------------------------------------------
  // Leave requests

  const Pending: string := "Pending"
  const Approved: string := "Approved"
  const Rejected: string := "Rejected"

  predicate KnownStatus(s: string) {
    s == Pending || s == Approved || s == Rejected
  }

  class LeaveRequest {
    const requestId: string
    const employeeId: string
    const startDate: int
    const endDate: int
    const numDays: nat
    var status: string
    const requestDate: int

    constructor (requestId: string, employeeId: string, startDate: int, endDate: int, today: int)
      ensures this.requestId == requestId && this.employeeId == employeeId
      ensures this.startDate == startDate && this.endDate == endDate && requestDate == today
      ensures numDays == Workdays(startDate, endDate)
      ensures status == Pending
    {
      this.requestId := requestId;
      this.employeeId := employeeId;
      this.startDate := startDate;
      this.endDate := endDate;
      var n := CalculateDays(startDate, endDate);
      numDays := n;
      status := Pending;
      requestDate := today;
    }

    /** `update_status`: takes only Pending, Approved or Rejected; anything else
        is ignored, so a known status stays known. */
    method UpdateStatus(newStatus: string)
      modifies this`status
      ensures status == if KnownStatus(newStatus) then newStatus else old(status)
      ensures old(KnownStatus(status)) ==> KnownStatus(status)
    {
      if KnownStatus(newStatus) {
        status := newStatus;
      }
    }
  }

  /** The request id for counter value `n`: "LR" and five digits. */
  function RequestId(n: nat): (id: string)
    ensures NumberedAtMost("LR", id, n)
    ensures forall bound: nat :: bound < n ==> !NumberedAtMost("LR", id, bound)
    ensures n < 100000 ==> |id| == 7
  {
    PaddedIdNumber("LR", n, 5);
    assert n < 100000 ==> |ZeroPad(n, 5)| == 5 by {
      if n < 100000 {
        ZeroPadLength(n, 5);
      }
    }
    "LR" + ZeroPad(n, 5)
  }

  /** What `validate_leave_dates` accepts: an ordered range, starting no
      earlier than today, whose working days fit in the balance. */
  predicate CanBook(balance: int, start: int, end: int, today: int) {
    start <= end && today <= start && Workdays(start, end) <= balance
  }

  /** On a ledger kept by `LeaveManager` no request is Pending, because
      booking approves at once: `approve_leave` can never succeed there. */
  lemma NothingPending(manager: LeaveManager, requestId: string)
    requires manager.Valid() && requestId in manager.leaveRequests
    ensures manager.leaveRequests[requestId].status != Pending
  {
  }

  class LeaveManager {
    var leaveRequests: map<string, LeaveRequest>
    var requestCounter: nat

    /** Every stored request is filed under its own id, which the counter has
        already issued, and has been decided: booking approves at once. */
    ghost predicate Valid()
      reads this, leaveRequests.Values
    {
      forall k :: k in leaveRequests ==>
        && NumberedAtMost("LR", k, requestCounter)
        && leaveRequests[k].requestId == k
        && (leaveRequests[k].status == Approved || leaveRequests[k].status == Rejected)
    }

    constructor ()
      ensures leaveRequests == map[] && requestCounter == 0
      ensures Valid()
    {
      leaveRequests := map[];
      requestCounter := 0;
    }

    /** `validate_leave_dates`. */
    method ValidateLeaveDates(employee: Employee, start: int, end: int, today: int) returns (ok: bool)
      ensures ok == CanBook(employee.leaveBalance, start, end, today)
    {
      if start > end {
        return false;
      }
      if start < today {
        return false;
      }
      var probe := new LeaveRequest("temp", employee.employeeId, start, end, today);
      if probe.numDays > employee.leaveBalance {
        return false;
      }
      return true;
    }

    /** `book_leave`: a rejected validation changes nothing. Otherwise the
        counter moves on by one, the balance pays for the working days and a
        fresh request under the new id, which no stored request uses, is stored
        as Approved. The deduction cannot fail once validation passed. */
    method BookLeave(employee: Employee, start: int, end: int, today: int) returns (r: Option<string>)
      requires Valid()
      modifies this`leaveRequests, this`requestCounter, employee`leaveBalance
      ensures Valid()
      ensures !CanBook(old(employee.leaveBalance), start, end, today) ==>
        && r == None
        && leaveRequests == old(leaveRequests) && requestCounter == old(requestCounter)
        && employee.leaveBalance == old(employee.leaveBalance)
      ensures CanBook(old(employee.leaveBalance), start, end, today) ==>
        && r == Some(RequestId(old(requestCounter) + 1))
        && requestCounter == old(requestCounter) + 1
        && r.value !in old(leaveRequests)
        && r.value in leaveRequests
        && leaveRequests == old(leaveRequests)[r.value := leaveRequests[r.value]]
        && fresh(leaveRequests[r.value])
        && leaveRequests[r.value].employeeId == employee.employeeId
        && leaveRequests[r.value].startDate == start && leaveRequests[r.value].endDate == end
        && leaveRequests[r.value].numDays == Workdays(start, end)
        && leaveRequests[r.value].status == Approved
        && employee.leaveBalance == old(employee.leaveBalance) - Workdays(start, end)
    {
      var valid := ValidateLeaveDates(employee, start, end, today);
      if !valid {
        return None;
      }
      requestCounter := requestCounter + 1;
      var id := RequestId(requestCounter);
      var request := new LeaveRequest(id, employee.employeeId, start, end, today);
      var deducted := employee.DeductLeave(request.numDays);
      if deducted {
        request.UpdateStatus(Approved);
        leaveRequests := leaveRequests[id := request];
        return Some(id);
      } else {
        assert false;
      }
    }

    /** `approve_leave`: succeeds iff the id is stored with status Pending,
        which then becomes Approved; otherwise nothing changes. */
    method ApproveLeave(requestId: string) returns (ok: bool)
      modifies if requestId in leaveRequests then {leaveRequests[requestId]} else {}
      ensures old(Valid()) ==> Valid()
      ensures ok == (requestId in leaveRequests && old(leaveRequests[requestId].status) == Pending)
      ensures ok ==> leaveRequests[requestId].status == Approved
      ensures !ok && requestId in leaveRequests ==>
        leaveRequests[requestId].status == old(leaveRequests[requestId].status)
    {
      if requestId in leaveRequests {
        var request := leaveRequests[requestId];
        if request.status == Pending {
          request.UpdateStatus(Approved);
          return true;
        }
      }
      return false;
    }

    /** `reject_leave`: a stored Pending or Approved request becomes Rejected
        and its days go back to `employee`, capped at the allowance; anything
        else returns false and restores nothing. */
    method RejectLeave(requestId: string, employee: Employee) returns (ok: bool)
      modifies if requestId in leaveRequests then {leaveRequests[requestId]} else {}, employee`leaveBalance
      ensures old(Valid()) ==> Valid()
      ensures ok == (requestId in leaveRequests
                     && (old(leaveRequests[requestId].status) == Pending
                         || old(leaveRequests[requestId].status) == Approved))
      ensures ok ==>
        && leaveRequests[requestId].status == Rejected
        && employee.leaveBalance == Restored(old(employee.leaveBalance), leaveRequests[requestId].numDays, employee.annualLeaveDays)
      ensures !ok ==> employee.leaveBalance == old(employee.leaveBalance)
      ensures !ok && requestId in leaveRequests ==>
        leaveRequests[requestId].status == old(leaveRequests[requestId].status)
    {
      if requestId in leaveRequests {
        var request := leaveRequests[requestId];
        if request.status == Pending || request.status == Approved {
          request.UpdateStatus(Rejected);
          employee.RestoreLeave(request.numDays);
          return true;
        }
      }
      return false;
    }

    /** `get_employee_leaves`: the stored requests of one employee, each of
        them stored under its own id. */
    function GetEmployeeLeaves(employeeId: string): (r: set<LeaveRequest>)
      reads this, leaveRequests.Values
      ensures forall req :: req in r ==> req in leaveRequests.Values && req.employeeId == employeeId
      ensures forall k :: k in leaveRequests && leaveRequests[k].employeeId == employeeId ==> leaveRequests[k] in r
      ensures Valid() ==> forall req :: req in r ==> req.requestId in leaveRequests && leaveRequests[req.requestId] == req
    {
      set req | req in leaveRequests.Values && req.employeeId == employeeId
    }
  }

  /** Rejecting the same request twice: the second call fails and restores
      nothing more. */
  method RejectTwice(manager: LeaveManager, requestId: string, employee: Employee)
    returns (first: bool, second: bool)
    modifies if requestId in manager.leaveRequests then {manager.leaveRequests[requestId]} else {}, employee`leaveBalance
    ensures !second
    ensures first ==> requestId in manager.leaveRequests
    ensures first ==>
      employee.leaveBalance == Restored(old(employee.leaveBalance), manager.leaveRequests[requestId].numDays,
                                        employee.annualLeaveDays)
    ensures !first ==> employee.leaveBalance == old(employee.leaveBalance)
  {
    first := manager.RejectLeave(requestId, employee);
    ghost var balance := employee.leaveBalance;
    second := manager.RejectLeave(requestId, employee);
    assert employee.leaveBalance == balance;
  }

  // ---------------------------------------------------------------------------
  // Employee register

  /** The employee id for counter value `n`: "EMP" and four digits. */
  function EmployeeId(n: nat): (id: string)
    ensures NumberedAtMost("EMP", id, n)
    ensures forall bound: nat :: bound < n ==> !NumberedAtMost("EMP", id, bound)
    ensures n < 10000 ==> |id| == 7
  {
    PaddedIdNumber("EMP", n, 4);
    assert n < 10000 ==> |ZeroPad(n, 4)| == 4 by {
      if n < 10000 {
        ZeroPadLength(n, 4);
      }
    }
    "EMP" + ZeroPad(n, 4)
  }

  /** Successive counter values give distinct employee ids. */
  lemma EmployeeIdsDistinct(n: nat, m: nat)
    requires n < m
    ensures EmployeeId(n) != EmployeeId(m)
  {
  }

  class EmployeeDatabase {
    var employees: map<string, Employee>
    var employeeCounter: nat

    /** Every employee is filed under its own id, already issued by the counter. */
    ghost predicate Valid()
      reads this
    {
      forall k :: k in employees ==> NumberedAtMost("EMP", k, employeeCounter) && employees[k].employeeId == k
    }

    constructor ()
      ensures employees == map[] && employeeCounter == 0
      ensures Valid()
    {
      employees := map[];
      employeeCounter := 0;
    }

    /** `add_employee`: issues the next id, never held before, and files a fresh
        employee with the standard allowance under it. */
    method AddEmployee(name: string, email: string, department: string, salary: real, hireDate: int)
      returns (id: string)
      requires Valid()
      modifies this
      ensures Valid()
      ensures employeeCounter == old(employeeCounter) + 1 && id == EmployeeId(employeeCounter)
      ensures id !in old(employees) && id in employees
      ensures employees == old(employees)[id := employees[id]]
      ensures fresh(employees[id])
      ensures employees[id].name == name && employees[id].email == email
      ensures employees[id].department == department && employees[id].salary == salary
      ensures employees[id].hireDate == hireDate && employees[id].leaveBalance == StandardAnnualLeave
    {
      employeeCounter := employeeCounter + 1;
      id := EmployeeId(employeeCounter);
      var employee := new Employee(id, name, email, department, salary, hireDate);
      employees := employees[id := employee];
    }

    /** `get_employee`: the employee filed under `employeeId`, if any; it
        carries that id. */
    function GetEmployee(employeeId: string): (r: Option<Employee>)
      reads this
      ensures r.Some? <==> employeeId in employees
      ensures r.Some? ==> r.value == employees[employeeId]
      ensures Valid() && r.Some? ==> r.value.employeeId == employeeId
    {
      if employeeId in employees then Some(employees[employeeId]) else None
    }

    /** `update_employee`: false for an unknown id, else the employee's details
        are updated as `update_details` does. */
    method UpdateEmployee(employeeId: string, name: Option<string>, email: Option<string>,
                          department: Option<string>, salary: Option<real>) returns (ok: bool)
      modifies if employeeId in employees then {employees[employeeId]} else {}
      ensures ok == (employeeId in employees)
      ensures ok ==>
        var e := employees[employeeId];
        && e.name == (if TruthyText(name) then name.value else old(e.name))
        && e.email == (if TruthyText(email) then email.value else old(e.email))
        && e.department == (if TruthyText(department) then department.value else old(e.department))
        && e.salary == (if TruthyAmount(salary) then salary.value else old(e.salary))
        && e.leaveBalance == old(e.leaveBalance)
    {
      if employeeId in employees {
        employees[employeeId].UpdateDetails(name, email, department, salary);
        return true;
      }
      return false;
    }

    /** `delete_employee`: false for an unknown id; otherwise exactly that id
        goes. Its number is never issued again. */
    method DeleteEmployee(employeeId: string) returns (ok: bool)
      requires Valid()
      modifies this`employees
      ensures Valid()
      ensures ok == (employeeId in old(employees))
      ensures employees == old(employees) - {employeeId}
    {
      if employeeId in employees {
        employees := employees - {employeeId};
        return true;
      }
      return false;
    }

    /** `list_all_employees`: every filed employee, each findable by its id. */
    function ListAllEmployees(): (r: set<Employee>)
      reads this
      ensures forall k :: k in employees ==> employees[k] in r
      ensures Valid() ==> forall e :: e in r ==> e.employeeId in employees && employees[e.employeeId] == e
    {
      employees.Values
    }
  }
}
