# Payroll domain model

A Dafny model of the payroll core of a small company-administration program.
Employees hold contracts. A contract is either hourly (a rate and the hours
worked so far) or monthly (a fixed salary). An employee's salary is the sum
of its contracts' amounts. Every change to an employee's contracts goes into
that employee's append-only audit log. The company keeps an ordered list of
employees and looks them up by name, first match wins. Two reports read the
company: the salary report gives a line per contract, a subtotal per employee
and an overall total. The log report lists every log entry of every employee
and the total of hours on hourly contracts.

Modules, one per component of `src/index.ts`:

- `Contracts` (contracts.dfy): the contract terms as the datatype
  `Terms = Hourly(rate, hours) | Monthly(salary)`, so every field-presence test
  in the source becomes one exhaustive `match`. It also holds the amount of a
  contract, the rendering of a contract for the log (`ContractDetails`), the
  sum over a list of contracts, and the lemmas about that sum.
- `AuditLog` (audit_log.dfy): the four log actions, the entry details as a
  snapshot of what they describe, the entry built by each operation, and the
  filter behind `getWorkLogs`.
- `Employees` (employee.dfy): the class `Employee`. Its fields `contracts` and
  `logs` are sequences that its methods reassign. Each mutating method states
  its whole new state, its error paths and how the salary changes.
- `Registry` (registry.dfy): the class `Company` with append and first-match
  lookup. Its invariant `Valid()` says every registered employee keeps its
  own invariant, so an employee found by name can be handed any operation.
- `Menu` (menu.dfy): the step each contract choice of the menu takes once its
  prompts are answered: look the employee up by name, then create, log work
  on or cancel a contract of that employee.
- `Reports` (reports.dfy): the two reports as methods that read the company
  and return structured reports (header, sections, lines, totals). They are
  proved against the recursive functions `Payroll` and `CompanyHours`.
- `Scenario` (scenario.dfy): client runs. The first seeds the company as the
  program does at start-up (employee "juyan", a monthly contract of 1000 and
  an hourly one at rate 5 with 10 hours) and drives it through the menu steps.
  The second is a worked example with two employees and both reports. At each
  step they assert what the contracts let a caller conclude.

Numbers are exact `real`s. Timestamps are a `Timestamp` parameter given to
every operation that writes a log entry or a report header. Where the source
prints an error message and returns (`logWork`, `cancelContract`), the model
returns a `Status` (`Done`, `InvalidIndex`, `NotHourlyContract`) and changes
nothing.

In these details the model follows the code exactly:

- The action texts are "Employee Added", "Contract Created", "Work Logged" and
  "Contract Cancelled".
- Errors are reported and not raised.
- The creation entry's details list the initial contracts numbered from 1.
- The work entry names the contract by its index plus one.

## Model

| member | source | states |
|---|---|---|
| `Contracts.DetailsIdentifyContract` | src/index.ts:171-178 | the rendering of a contract loses nothing: equal renderings come from equal terms |
| `Contracts.SumPermutation` | src/index.ts:134-146 | a sum over contracts does not depend on their order (any two lists with the same multiset) |
| `Contracts.SalaryOrderIndependent` | src/index.ts:134-146 | the salary is the same whatever order the contracts were created in |
| `Contracts.SalaryAfterCreate` | src/index.ts:84-86 | appending a contract raises the salary by its amount and the worked hours by its hours |
| `Contracts.SalaryAfterWork` | src/index.ts:110-113 | adding d hours to hourly contract i raises the salary by rate*d and the worked hours by d |
| `Contracts.SalaryAfterCancel` | src/index.ts:153-159 | removing contract i lowers the salary by exactly its amount and the worked hours by exactly its hours |
| `AuditLog.LabelsDistinct` | src/index.ts:77-117 | the four action texts written to the log are pairwise different |
| `AuditLog.WithLabel` | src/index.ts:129-131 | filtering a log by action text keeps exactly the entries with that text, never more than the log holds |
| `AuditLog.WorkLogsAsWrittenAlwaysEmpty` | src/index.ts:129-131 | the filter as written, on "Work Hours Logged", returns nothing for every log |
| `AuditLog.WorkLogs` | src/index.ts:129-131 | the intended filter keeps exactly the "Work Logged" entries |
| `AuditLog.WorkLogsAppend` | src/index.ts:115-122 | appending an entry grows the work log by that entry exactly when it is a "Work Logged" entry |
| `Employees.Employee.constructor` | src/index.ts:54-81 | a new employee holds the given contracts and exactly one "Employee Added" entry, whose details list every initial contract numbered from 1 in order |
| `Employees.Employee.CreateContract` | src/index.ts:84-102 | contracts become old contracts + [t]; the log gains exactly one "Contract Created" entry describing t; earlier entries unchanged |
| `Employees.Employee.LogWork` | src/index.ts:104-126 | bad index: InvalidIndex, nothing changes; a contract that is not hourly (`IsHourly`, the guard at line 111): NotHourlyContract, nothing changes; otherwise only that contract's hours grow by d (rate and other contracts kept) and one "Work Logged" entry naming contract i+1 is appended |
| `Employees.Employee.CancelContract` | src/index.ts:153-178 | bad index: InvalidIndex, nothing changes; otherwise contracts become old[..i] + old[i+1..], later contracts shift down by one, and one "Contract Cancelled" entry rendered from the contract before removal is appended |
| `Employees.Employee.GetSalary` | src/index.ts:134-146 | the loop's total is the salary of the current contracts, 0 for none |
| `Employees.Employee.GetLog` | src/index.ts:149-151 | returns the whole log, which for a valid employee opens with the employee's own creation entry |
| `Employees.Employee.GetWorkLogs` | src/index.ts:129-131 | (corrected) returns exactly the entries written by LogWork |
| `Registry.FirstNamed` | src/index.ts:202-206 | the index found holds the name and no earlier employee does; none is found only when no employee has the name |
| `Registry.FirstNamedAfterAdd` | src/index.ts:196-206 | appending an employee never changes an existing lookup result; it only answers a lookup that had no answer |
| `Registry.Company.constructor` | src/index.ts:181-186 | a new company has no employees and an empty name, and satisfies the company invariant |
| `Registry.Company.AddEmployee` | src/index.ts:196-198 | keeps the company invariant; appends without a uniqueness check; each lookup keeps its old answer or, if it had none, finds the new employee exactly when the name matches |
| `Registry.Company.FindEmployeeByName` | src/index.ts:202-206 | returns the first employee in registry order with that name, or none exactly when no employee has it |
| `Reports.ContractBreakdown` | src/index.ts:246-258 | one line per contract numbered from 1 with its kind and amount; the subtotal is that employee's salary |
| `Reports.SubtotalsMakePayroll` | src/index.ts:241-265 | when every section describes its employee, the subtotals sum to the company payroll |
| `Reports.ReportSalaryOf` | src/index.ts:232-268 | one section per employee in registry order, each subtotal the employee's salary; the overall total is the sum of the subtotals and the company payroll |
| `Reports.LogLines` | src/index.ts:285-289 | one line per log entry, numbered from 1 in log order |
| `Reports.LogSectionOf` | src/index.ts:281-292 | an employee's section lists every entry, or shows the no-logs marker exactly when the log is empty |
| `Reports.AddWorkedHours` | src/index.ts:295-299 | adds the hours of exactly the hourly contracts to the running total |
| `Reports.ReportLogOf` | src/index.ts:269-307 | one section per employee in registry order listing all the entries `getLog` returns; the total worked hours is the sum of hours over all hourly contracts of all employees; for a valid company no section is the no-logs marker |
| `Reports.NoEmptyLogSections` | src/index.ts:283-292 | over valid employees the no-logs marker never appears, since every log opens with the creation entry |
| `Menu.CreateContractFor` | src/index.ts:411-444 | the first employee with the name gets the contract and one "Contract Created" entry; every other employee is unchanged; the company invariant is kept |
| `Menu.LogWorkFor` | src/index.ts:482-520 | no employee with the name: None and nothing changes; otherwise the found employee's `logWork` outcome for each of its three cases, with every other employee unchanged and the company invariant kept |
| `Menu.CancelContractFor` | src/index.ts:446-480 | no employee with the name: None and nothing changes; otherwise the found employee's `cancelContract` outcome, with every other employee unchanged and the company invariant kept |
| `Scenario.StartUp` | src/index.ts:350-354 | the seeded company holds exactly "juyan" with a monthly 1000 and an hourly 5 x 10 contract: payroll 1050, worked hours 10 |
| `Reports.PayrollAfterAdd` | src/index.ts:196-198 | registering one more employee adds exactly its salary to the payroll and its hours to the company's hours |

## Left out

- The interactive menu's prompts and their number parsing, the "List Employees" and "Add Employee" choices, and process exit (`start`, `answer`, `choose`) are not modelled. They are terminal I/O that only drives the operations above; the lookup-then-operate step of the three contract choices is modelled in `Menu`.
- The menu's early exits before the operation is called are not modelled: "No contracts to cancel" (src/index.ts:454-458) and "No hourly contracts found" (src/index.ts:495-500). In both cases the operation itself would change nothing either. Nor is the difference between `break` after a failed lookup in "Create Contract" and `return` from `start` in the other two.
- `isHourlyContract` (src/index.ts:43-47) is never called by the source. Its test is the datatype discriminator `Contracts.IsHourly`, which `LogWork`'s contract uses for the guard at src/index.ts:111.
- All terminal output and colouring are not modelled. The reports are structured values (header, sections, numbered lines, totals), not text.
- Date and time formatting and the wall clock are not modelled. Every timestamp and report header takes an instant as a parameter.
- `JSON.stringify` and number-to-string formatting in log details are not modelled. A contract's details are its kind word and its labelled numbers (`ContractDetails`). A creation entry keeps the terms themselves.
- Floating-point behaviour of numbers is not modelled. Amounts, rates and hours are exact reals.
- The lazy singleton `get_instance` is not modelled. The company is an explicit object handed to each report.
- The report factory and its client (`reportFabric`, `clientCode`) are not modelled. The two report methods are called directly.
- Aliasing is not modelled. The source stores the caller's array in the constructor, returns the live arrays from `getLog` and `getEmployees`, and mutates shared `Contract` objects. Here contracts and logs are values, so a change made through an outside alias is not captured.
- Contract indices are integers. In the source they are numbers that could be fractional or NaN, which the index checks do not reject. The program itself only ever passes whole indices.
- The "Unknown type" fallback branches of the source cannot occur with the two-case datatype. They are absent from the model.
- `Employees.Employee.GetWorkLogs`: the contract states which entries are returned, not their order. Order and multiplicity follow from `AuditLog.WorkLogsAppend`.
- `Registry.Company.GetEmployees` carries no contract. It returns the `employees` field unchanged.
- The employee's `name` is a constant field. The source never reassigns it.

## Findings

| source | as written | input that shows it | evidently intended | confidence | as-written member | corrected member |
|---|---|---|---|---|---|---|
| src/index.ts:129-131 | `getWorkLogs` keeps the entries whose action is "Work Hours Logged", but `logWork` writes "Work Logged" (line 117) and no code writes the former | an employee after one successful `logWork(4, 1)`: `getWorkLogs()` returns an empty list | return the entries written by `logWork` | high; not executed | `AuditLog.WorkLogsAsWrittenAlwaysEmpty` | `Employees.Employee.GetWorkLogs` |
