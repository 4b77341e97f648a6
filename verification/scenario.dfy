/** Client runs: the company as the program seeds it at start-up, driven
    through the menu's contract choices, and a worked example with two
    employees and both reports. Each step asserts what the contracts alone
    let a caller conclude. */
module Scenario {
  import opened Contracts
  import opened AuditLog
  import opened Employees
  import opened Registry
  import opened Reports
  import opened Menu

  /** Start-up: employee "juyan" with a monthly contract of 1000, then an
      hourly contract at rate 5 with 10 hours, registered with the company. */
  method StartUp(now: Timestamp) returns (cp: Company)
    ensures fresh(cp) && cp.Valid() && |cp.employees| == 1 && fresh(cp.employees[0])
    ensures cp.employees[0].name == "juyan"
    ensures cp.employees[0].contracts == [Monthly(1000.0), Hourly(5.0, 10.0)]
    ensures Payroll(cp.employees) == 1050.0 && CompanyHours(cp.employees) == 10.0
  {
    cp := new Company();
    var emp := new Employee("juyan", now, [Monthly(1000.0)]);
    assert Salary(emp.contracts) == 1000.0 && WorkedHours(emp.contracts) == 0.0;
    emp.CreateContract(Hourly(5.0, 10.0), now);
    cp.AddEmployee(emp);
    PayrollAfterAdd([], emp);
    assert [] + [emp] == cp.employees;
  }

  /** The menu's "Log Work Hours" on the seeded company: work on the hourly
      contract, a name nobody has, and the monthly contract refused. */
  method MenuLogWork() returns (cp: Company)
    ensures fresh(cp) && cp.Valid() && |cp.employees| == 1 && fresh(cp.employees[0])
    ensures cp.employees[0].name == "juyan"
    ensures cp.employees[0].contracts == [Monthly(1000.0), Hourly(5.0, 14.0)]
  {
    cp := StartUp(0);
    var juyan := cp.employees[0];
    var target, status := LogWorkFor(cp, "juyan", 4.0, 1, 1);
    assert target == Some(juyan) && status == Some(Done);
    assert juyan.contracts == [Monthly(1000.0), Hourly(5.0, 14.0)];
    target, status := LogWorkFor(cp, "nobody", 4.0, 1, 2);
    assert status == None;
    target, status := LogWorkFor(cp, "juyan", 4.0, 0, 3);
    assert status == Some(NotHourlyContract);
  }

  /** The menu's "Cancel Contract" on that company: the monthly contract
      goes, and the salary drops to the hourly contract's 5 * 14. */
  method MenuCancel()
  {
    var cp := MenuLogWork();
    var juyan := cp.employees[0];
    var target, status := CancelContractFor(cp, "juyan", 0, 4);
    assert target == Some(juyan) && status == Some(Done);
    assert juyan.contracts == [Hourly(5.0, 14.0)];
    assert Sum([Hourly(5.0, 14.0)], Amount) == 70.0 by {
      assert [Hourly(5.0, 14.0)][..0] == [];
    }
    var pay := juyan.GetSalary();
    assert pay == 70.0;
  }

  /** Worked example: an employee with work logged on its hourly
      contract. */
  method SeedAndWork() returns (alice: Employee)
    ensures fresh(alice) && alice.Valid() && alice.name == "Alice"
    ensures alice.contracts == [Monthly(1000.0), Hourly(5.0, 14.0)] && |alice.logs| == 3
    ensures Salary(alice.contracts) == 1070.0 && WorkedHours(alice.contracts) == 14.0
  {
    alice := new Employee("Alice", 1, [Monthly(1000.0)]);
    assert Salary(alice.contracts) == 1000.0 && WorkedHours(alice.contracts) == 0.0;
    alice.CreateContract(Hourly(5.0, 10.0), 2);
    var pay := alice.GetSalary();
    assert pay == 1050.0;

    var status := alice.LogWork(4.0, 1, 3);
    assert status == Done;
    pay := alice.GetSalary();
    assert pay == 1070.0;
  }

  /** Cancelling the monthly contract: the log records it as it was. */
  method CreateWorkCancel() returns (alice: Employee)
    ensures fresh(alice) && alice.Valid() && alice.name == "Alice"
    ensures alice.contracts == [Hourly(5.0, 14.0)] && |alice.logs| == 4
    ensures Salary(alice.contracts) == 70.0 && WorkedHours(alice.contracts) == 14.0
  {
    alice := SeedAndWork();
    var status := alice.CancelContract(0, 4);
    assert status == Done;
    assert alice.logs[3].details == Cancelled(ContractText("Monthly", [Field("Salary", 1000.0)]));
    var pay := alice.GetSalary();
    assert pay == 70.0;
  }

  /** More work on the remaining contract, and a rejected index. */
  method ContractLifecycle() returns (alice: Employee)
    ensures fresh(alice) && alice.Valid() && alice.name == "Alice"
    ensures alice.contracts == [Hourly(5.0, 16.0)]
    ensures Salary(alice.contracts) == 80.0 && WorkedHours(alice.contracts) == 16.0
  {
    alice := CreateWorkCancel();
    var status := alice.LogWork(2.0, 0, 5);
    assert status == Done;
    status := alice.LogWork(2.0, 5, 6);
    assert status == InvalidIndex;
    var pay := alice.GetSalary();
    assert pay == 80.0;
  }

  /** Two employees registered; the second is looked up by name. */
  method TwoEmployees() returns (cp: Company)
    ensures |cp.employees| == 2
    ensures Salary(cp.employees[0].contracts) == 80.0 && WorkedHours(cp.employees[0].contracts) == 16.0
    ensures Salary(cp.employees[1].contracts) == 500.0 && WorkedHours(cp.employees[1].contracts) == 0.0
  {
    var alice := ContractLifecycle();
    var bob := new Employee("Bob", 7, [Monthly(500.0)]);
    var status := bob.LogWork(1.0, 0, 8);
    assert status == NotHourlyContract && |bob.logs| == 1;
    assert Salary(bob.contracts) == 500.0 && WorkedHours(bob.contracts) == 0.0;

    cp := new Company();
    cp.AddEmployee(alice);
    cp.AddEmployee(bob);
    var found := cp.FindEmployeeByName("Bob");
    assert found == Some(bob);
  }

  /** The salary report over that registry: 80 + 500. */
  method SalaryReportTotal()
  {
    var cp := TwoEmployees();
    var emps := cp.employees;
    PayrollOfTwo(emps[0], emps[1]);
    assert emps == [emps[0], emps[1]];
    var salaries := ReportSalaryOf(cp, 9);
    assert salaries.overallTotal == 580.0;
  }

  /** The log report over that registry: only Alice has worked hours. */
  method LogReportTotal()
  {
    var cp := TwoEmployees();
    var emps := cp.employees;
    PayrollOfTwo(emps[0], emps[1]);
    assert emps == [emps[0], emps[1]];
    var hours := ReportLogOf(cp, 9);
    assert hours.totalWorkedHours == 16.0;
  }
}
