/** An employee: a name, the contracts currently held, and an append-only
    audit log. Every change to the contracts is recorded in the log. */
module Employees {
  import opened Contracts
  import opened AuditLog

  /** What a contract operation reports back. The source prints the two
      error messages and returns; here the message becomes the result. */
  datatype Status = Done | InvalidIndex | NotHourlyContract

  class Employee {
    const name: string
    var contracts: seq<Terms>
    var logs: seq<LogEntry>

    /** Every employee's log opens with the entry recording its creation. */
    ghost predicate Valid()
      reads this
    {
      && |logs| > 0
      && logs[0].action == EmployeeAdded
      && logs[0].details.Added?
      && logs[0].details.name == name
    }

    /** Creates the employee and writes the "Employee Added" entry, which
        lists the initial contracts numbered from 1 in their given order. */
    constructor (name: string, now: Timestamp, contracts: seq<Terms> := [])
      ensures this.name == name && this.contracts == contracts
      ensures logs == [AdditionEntry(name, contracts, now)]
      ensures |logs[0].details.contracts| == |contracts|
      ensures forall i :: 0 <= i < |contracts| ==>
                logs[0].details.contracts[i] == NumberedContract(i + 1, ContractDetails(contracts[i]))
      ensures Valid()
    {
      this.name := name;
      this.contracts := contracts;
      logs := [AdditionEntry(name, contracts, now)];
    }

    /** Appends a new contract and one "Contract Created" entry. */
    method CreateContract(t: Terms, now: Timestamp)
      requires Valid()
      modifies this
      ensures Valid()
      ensures contracts == old(contracts) + [t]
      ensures logs == old(logs) + [CreationEntry(t, now)]
      ensures Salary(contracts) == old(Salary(contracts)) + Amount(t)
      ensures WorkedHours(contracts) == old(WorkedHours(contracts)) + HoursOf(t)
      ensures GetWorkLogs() == old(GetWorkLogs())
    {
      WorkLogsAppend(logs, CreationEntry(t, now));
      contracts := contracts + [t];
      logs := logs + [CreationEntry(t, now)];
      SalaryAfterCreate(old(contracts), t);
    }

    /** Adds `hoursWorked` to the hourly contract at `contractIndex`. A bad
        index or a monthly contract changes nothing and is reported. */
    method LogWork(hoursWorked: real, contractIndex: int, now: Timestamp) returns (status: Status)
      requires Valid()
      modifies this
      ensures Valid()
      ensures status == InvalidIndex <==> !(0 <= contractIndex < |old(contracts)|)
      ensures status == NotHourlyContract <==>
                0 <= contractIndex < |old(contracts)| && !IsHourly(old(contracts)[contractIndex])
      ensures status != Done ==> contracts == old(contracts) && logs == old(logs)
      ensures status == Done ==>
                && contracts == old(contracts)[contractIndex :=
                     Hourly(old(contracts)[contractIndex].rate, old(contracts)[contractIndex].hours + hoursWorked)]
                && logs == old(logs) + [WorkEntry(hoursWorked, contractIndex, now)]
                && Salary(contracts) == old(Salary(contracts)) + old(contracts)[contractIndex].rate * hoursWorked
                && WorkedHours(contracts) == old(WorkedHours(contracts)) + hoursWorked
                && GetWorkLogs() == old(GetWorkLogs()) + [WorkEntry(hoursWorked, contractIndex, now)]
    {
      if contractIndex < 0 || contractIndex >= |contracts| {
        return InvalidIndex;
      }
      match contracts[contractIndex]
      case Hourly(rate, hours) =>
        SalaryAfterWork(contracts, contractIndex, hoursWorked);
        WorkLogsAppend(logs, WorkEntry(hoursWorked, contractIndex, now));
        contracts := contracts[contractIndex := Hourly(rate, hours + hoursWorked)];
        logs := logs + [WorkEntry(hoursWorked, contractIndex, now)];
        status := Done;
      case Monthly(_) =>
        status := NotHourlyContract;
    }

    /** Removes the contract at `index`; the later contracts move down by
        one, and the "Contract Cancelled" entry renders the removed contract
        as it was. A bad index changes nothing and is reported. */
    method CancelContract(index: int, now: Timestamp) returns (status: Status)
      requires Valid()
      modifies this
      ensures Valid()
      ensures status == Done <==> 0 <= index < |old(contracts)|
      ensures status != Done ==> status == InvalidIndex && contracts == old(contracts) && logs == old(logs)
      ensures status == Done ==>
                && contracts == old(contracts)[..index] + old(contracts)[index + 1..]
                && (forall j :: index <= j < |contracts| ==> contracts[j] == old(contracts)[j + 1])
                && logs == old(logs) + [CancellationEntry(old(contracts)[index], now)]
                && Salary(contracts) == old(Salary(contracts)) - Amount(old(contracts)[index])
                && WorkedHours(contracts) == old(WorkedHours(contracts)) - HoursOf(old(contracts)[index])
      ensures GetWorkLogs() == old(GetWorkLogs())
    {
      if index < 0 || index >= |contracts| {
        return InvalidIndex;
      }
      var removed := contracts[index];
      SalaryAfterCancel(contracts, index);
      WorkLogsAppend(logs, CancellationEntry(removed, now));
      contracts := contracts[..index] + contracts[index + 1..];
      logs := logs + [CancellationEntry(removed, now)];
      status := Done;
    }

    /** The total of all current contracts, summed front to back. */
    method GetSalary() returns (total: real)
      ensures total == Salary(contracts)
    {
      total := 0.0;
      var i := 0;
      while i < |contracts|
        invariant 0 <= i <= |contracts|
        invariant total == Salary(contracts[..i])
      {
        match contracts[i] {
          case Monthly(salary) =>
            total := total + salary;
          case Hourly(rate, hours) =>
            total := total + rate * hours;
        }
        assert contracts[..i + 1][..i] == contracts[..i];
        i := i + 1;
      }
      assert contracts[..i] == contracts;
    }

    /** The whole audit trail, which for a valid employee starts with the
        creation entry. */
    method GetLog() returns (r: seq<LogEntry>)
      ensures r == logs
      ensures Valid() ==> |r| > 0 && r[0].action == EmployeeAdded && r[0].details.name == name
    {
      r := logs;
    }

    /** The entries written by `LogWork`, in log order. */
    function GetWorkLogs(): (r: seq<LogEntry>)
      reads this
      ensures forall e :: e in r <==> e in logs && e.action == WorkLogged
    {
      WorkLogs(logs)
    }
  }
}
