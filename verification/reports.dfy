/** The two reports over the company: the salary report (a line per
    contract, a subtotal per employee, an overall total) and the log report
    (every log entry of every employee, and the total worked hours). Both
    share one header. The reports are structured values; turning them into
    coloured text is not modelled. */
module Reports {
  import opened Contracts
  import opened AuditLog
  import opened Employees
  import opened Registry

  /** The header both reports open with: which report, and when. */
  datatype Header = Header(title: string, at: Timestamp)

  /** The one routine that builds a report header. */
  function ReportHeader(title: string, now: Timestamp): Header
  {
    Header(title, now)
  }

  /** "Contract n (Kind): amount". */
  datatype ContractLine = ContractLine(number: nat, kind: string, amount: real)

  /** One employee's part of the salary report. */
  datatype SalarySection = SalarySection(name: string, lines: seq<ContractLine>, employeeTotal: real)

  datatype SalaryReport = SalaryReport(header: Header, sections: seq<SalarySection>, overallTotal: real)

  /** "Log n: [timestamp] action - details". */
  datatype LogLine = LogLine(number: nat, entry: LogEntry)

  /** One employee's part of the log report: its entries, or the
      "no logs available" marker. */
  datatype LogSection = Logged(name: string, lines: seq<LogLine>) | NoLogs(name: string)

  datatype LogReport = LogReport(header: Header, sections: seq<LogSection>, totalWorkedHours: real)

  /** The company payroll: the salaries of the employees, summed in
      registry order. */
  function Payroll(emps: seq<Employee>): real
    reads emps
  {
    if emps == [] then 0.0 else Payroll(emps[..|emps| - 1]) + Salary(emps[|emps| - 1].contracts)
  }

  /** The company's worked hours: the hours of every hourly contract of
      every employee. */
  function CompanyHours(emps: seq<Employee>): real
    reads emps
  {
    if emps == [] then 0.0 else CompanyHours(emps[..|emps| - 1]) + WorkedHours(emps[|emps| - 1].contracts)
  }

  /** The employee subtotals of a salary report, summed in order. */
  function SubtotalSum(sections: seq<SalarySection>): real
  {
    if sections == [] then 0.0
    else SubtotalSum(sections[..|sections| - 1]) + sections[|sections| - 1].employeeTotal
  }

  /** `sec` is employee `e`'s part of the salary report: a line per
      contract numbered from 1, and the employee's salary as subtotal. */
  ghost predicate DescribesSalary(sec: SalarySection, e: Employee)
    reads e
  {
    && sec.name == e.name
    && |sec.lines| == |e.contracts|
    && (forall i :: 0 <= i < |sec.lines| ==>
          sec.lines[i] == ContractLine(i + 1, KindName(e.contracts[i]), Amount(e.contracts[i])))
    && sec.employeeTotal == Salary(e.contracts)
  }

  /** `sec` is employee `e`'s part of the log report: every entry, numbered
      from 1 in log order, or the marker when the log is empty. */
  ghost predicate DescribesLog(sec: LogSection, e: Employee)
    reads e
  {
    && sec.name == e.name
    && (sec.NoLogs? <==> e.logs == [])
    && (sec.Logged? ==>
          && |sec.lines| == |e.logs|
          && forall i :: 0 <= i < |sec.lines| ==> sec.lines[i] == LogLine(i + 1, e.logs[i]))
  }

  /** One employee's contract lines and subtotal, as the salary report's
      inner loop builds them. */
  method ContractBreakdown(contracts: seq<Terms>) returns (lines: seq<ContractLine>, employeeTotal: real)
    ensures |lines| == |contracts|
    ensures forall i :: 0 <= i < |lines| ==>
              lines[i] == ContractLine(i + 1, KindName(contracts[i]), Amount(contracts[i]))
    ensures employeeTotal == Salary(contracts)
  {
    lines := [];
    employeeTotal := 0.0;
    var i := 0;
    while i < |contracts|
      invariant 0 <= i <= |contracts|
      invariant |lines| == i
      invariant forall m :: 0 <= m < i ==>
                  lines[m] == ContractLine(m + 1, KindName(contracts[m]), Amount(contracts[m]))
      invariant employeeTotal == Salary(contracts[..i])
    {
      var contractTotal := 0.0;
      match contracts[i] {
        case Monthly(salary) =>
          contractTotal := salary;
          lines := lines + [ContractLine(i + 1, "Monthly", contractTotal)];
        case Hourly(rate, hours) =>
          contractTotal := rate * hours;
          lines := lines + [ContractLine(i + 1, "Hourly", contractTotal)];
      }
      employeeTotal := employeeTotal + contractTotal;
      assert contracts[..i + 1][..i] == contracts[..i];
      i := i + 1;
    }
    assert contracts[..i] == contracts;
  }

  /** `reportSalary`: reads the registry and changes nothing. */
  method ReportSalaryOf(cp: Company, now: Timestamp) returns (r: SalaryReport)
    ensures r.header == ReportHeader("salary report", now)
    ensures |r.sections| == |cp.employees|
    ensures forall k :: 0 <= k < |r.sections| ==> DescribesSalary(r.sections[k], cp.employees[k])
    ensures r.overallTotal == SubtotalSum(r.sections)
    ensures r.overallTotal == Payroll(cp.employees)
  {
    var emps := cp.employees;
    var total := 0.0;
    var sections: seq<SalarySection> := [];
    var k := 0;
    while k < |emps|
      invariant 0 <= k <= |emps|
      invariant |sections| == k
      invariant forall j :: 0 <= j < k ==> DescribesSalary(sections[j], emps[j])
      invariant total == SubtotalSum(sections)
    {
      var e := emps[k];
      var lines, employeeTotal := ContractBreakdown(e.contracts);
      var section := SalarySection(e.name, lines, employeeTotal);
      assert (sections + [section])[..k] == sections;
      sections := sections + [section];
      total := total + employeeTotal;
      k := k + 1;
    }
    SubtotalsMakePayroll(sections, emps);
    r := SalaryReport(ReportHeader("salary report", now), sections, total);
  }

  /** When each section describes the matching employee, the subtotals
      add up to the company payroll. */
  lemma {:induction false} SubtotalsMakePayroll(sections: seq<SalarySection>, emps: seq<Employee>)
    requires |sections| == |emps|
    requires forall k :: 0 <= k < |emps| ==> DescribesSalary(sections[k], emps[k])
    ensures SubtotalSum(sections) == Payroll(emps)
  {
    if emps != [] {
      var n := |emps| - 1;
      SubtotalsMakePayroll(sections[..n], emps[..n]);
    }
  }

  /** One employee's log lines, numbered from 1 in log order. */
  method LogLines(logs: seq<LogEntry>) returns (lines: seq<LogLine>)
    ensures |lines| == |logs|
    ensures forall i :: 0 <= i < |lines| ==> lines[i] == LogLine(i + 1, logs[i])
  {
    lines := [];
    var i := 0;
    while i < |logs|
      invariant 0 <= i <= |logs|
      invariant |lines| == i
      invariant forall m :: 0 <= m < i ==> lines[m] == LogLine(m + 1, logs[m])
    {
      lines := lines + [LogLine(i + 1, logs[i])];
      i := i + 1;
    }
  }

  /** One employee's part of the log report. */
  method LogSectionOf(e: Employee) returns (section: LogSection)
    ensures DescribesLog(section, e)
  {
    var logEntries := e.GetLog();
    if |logEntries| > 0 {
      var lines := LogLines(logEntries);
      section := Logged(e.name, lines);
    } else {
      section := NoLogs(e.name);
    }
  }

  /** Adds the hours of the hourly contracts to a running total. */
  method AddWorkedHours(running: real, contracts: seq<Terms>) returns (total: real)
    ensures total == running + WorkedHours(contracts)
  {
    total := running;
    var i := 0;
    while i < |contracts|
      invariant 0 <= i <= |contracts|
      invariant total == running + WorkedHours(contracts[..i])
    {
      match contracts[i] {
        case Hourly(_, hours) =>
          total := total + hours;
        case Monthly(_) =>
      }
      assert contracts[..i + 1][..i] == contracts[..i];
      i := i + 1;
    }
    assert contracts[..i] == contracts;
  }

  /** `reportLog`: reads the registry and changes nothing. */
  method ReportLogOf(cp: Company, now: Timestamp) returns (r: LogReport)
    ensures r.header == ReportHeader("log report", now)
    ensures |r.sections| == |cp.employees|
    ensures forall k :: 0 <= k < |r.sections| ==> DescribesLog(r.sections[k], cp.employees[k])
    ensures r.totalWorkedHours == CompanyHours(cp.employees)
    ensures cp.Valid() ==> forall k :: 0 <= k < |r.sections| ==> r.sections[k].Logged? && |r.sections[k].lines| > 0
  {
    var emps := cp.employees;
    var totalWorkedHours := 0.0;
    var sections: seq<LogSection> := [];
    var k := 0;
    while k < |emps|
      invariant 0 <= k <= |emps|
      invariant |sections| == k
      invariant forall j :: 0 <= j < k ==> DescribesLog(sections[j], emps[j])
      invariant totalWorkedHours == CompanyHours(emps[..k])
    {
      var e := emps[k];
      var section := LogSectionOf(e);
      totalWorkedHours := AddWorkedHours(totalWorkedHours, e.contracts);
      CompanyHoursStep(emps, k);
      sections := sections + [section];
      k := k + 1;
    }
    assert emps[..k] == emps;
    if cp.Valid() {
      NoEmptyLogSections(emps, sections);
    }
    r := LogReport(ReportHeader("log report", now), sections, totalWorkedHours);
  }

  /** One more employee's hours extend the running company total. */
  lemma CompanyHoursStep(emps: seq<Employee>, k: nat)
    requires k < |emps|
    ensures CompanyHours(emps[..k + 1]) == CompanyHours(emps[..k]) + WorkedHours(emps[k].contracts)
  {
    assert emps[..k + 1][..k] == emps[..k];
  }

  /** Every employee's log opens with its creation entry, so a log report
      over valid employees never shows the "no logs" marker. */
  lemma NoEmptyLogSections(emps: seq<Employee>, sections: seq<LogSection>)
    requires |sections| == |emps|
    requires forall k :: 0 <= k < |emps| ==> emps[k].Valid() && DescribesLog(sections[k], emps[k])
    ensures forall k :: 0 <= k < |sections| ==> sections[k].Logged? && |sections[k].lines| > 0
  {
  }

  /** The payroll and the worked hours of a two-employee registry. */
  lemma PayrollOfTwo(a: Employee, b: Employee)
    ensures Payroll([a, b]) == Salary(a.contracts) + Salary(b.contracts)
    ensures CompanyHours([a, b]) == WorkedHours(a.contracts) + WorkedHours(b.contracts)
  {
    PayrollAfterAdd([], a);
    PayrollAfterAdd([a], b);
    assert [a] + [b] == [a, b];
  }

  /** Registering one more employee adds exactly that employee's salary
      to the payroll and its hours to the company's worked hours. */
  lemma PayrollAfterAdd(emps: seq<Employee>, e: Employee)
    ensures Payroll(emps + [e]) == Payroll(emps) + Salary(e.contracts)
    ensures CompanyHours(emps + [e]) == CompanyHours(emps) + WorkedHours(e.contracts)
  {
    assert (emps + [e])[..|emps|] == emps;
  }
}
