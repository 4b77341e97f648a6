/** The step each contract choice of the menu takes once its prompts are
    answered: look the employee up by name, first match wins, and hand the
    request to that employee. With no employee of that name nothing
    changes. The prompts, the number parsing and the messages are not part
    of this model. */
module Menu {
  import opened Contracts
  import opened AuditLog
  import opened Employees
  import opened Registry

  /** "Create Contract": the first employee called `name` gets contract `t`. */
  method CreateContractFor(cp: Company, name: string, t: Terms, now: Timestamp) returns (target: Option<Employee>)
    requires cp.Valid()
    modifies cp.employees
    ensures cp.Valid()
    ensures target == cp.FindEmployeeByName(name)
    ensures target.Some? ==>
              && target.value.contracts == old(target.value.contracts) + [t]
              && target.value.logs == old(target.value.logs) + [CreationEntry(t, now)]
    ensures forall e :: e in cp.employees && Some(e) != target ==>
              e.contracts == old(e.contracts) && e.logs == old(e.logs)
  {
    target := cp.FindEmployeeByName(name);
    if target.Some? {
      target.value.CreateContract(t, now);
    }
  }

  /** "Log Work Hours": `hoursWorked` go to contract `contractIndex` of the
      first employee called `name`; `None` when there is no such employee. */
  method LogWorkFor(cp: Company, name: string, hoursWorked: real, contractIndex: int, now: Timestamp)
    returns (target: Option<Employee>, status: Option<Status>)
    requires cp.Valid()
    modifies cp.employees
    ensures cp.Valid()
    ensures target == cp.FindEmployeeByName(name)
    ensures status.None? <==> target.None?
    ensures target.Some? ==>
              var c := old(target.value.contracts);
              && (status == Some(InvalidIndex) <==> !(0 <= contractIndex < |c|))
              && (status == Some(NotHourlyContract) <==> 0 <= contractIndex < |c| && !IsHourly(c[contractIndex]))
              && (status == Some(Done) <==> 0 <= contractIndex < |c| && IsHourly(c[contractIndex]))
              && (status == Some(Done) ==>
                    && target.value.contracts == c[contractIndex := Hourly(c[contractIndex].rate, c[contractIndex].hours + hoursWorked)]
                    && target.value.logs == old(target.value.logs) + [WorkEntry(hoursWorked, contractIndex, now)])
              && (status != Some(Done) ==>
                    target.value.contracts == c && target.value.logs == old(target.value.logs))
    ensures forall e :: e in cp.employees && Some(e) != target ==>
              e.contracts == old(e.contracts) && e.logs == old(e.logs)
  {
    target := cp.FindEmployeeByName(name);
    if target.Some? {
      var s := target.value.LogWork(hoursWorked, contractIndex, now);
      status := Some(s);
    } else {
      status := None;
    }
  }

  /** "Cancel Contract": contract `index` of the first employee called
      `name` is removed; `None` when there is no such employee. */
  method CancelContractFor(cp: Company, name: string, index: int, now: Timestamp)
    returns (target: Option<Employee>, status: Option<Status>)
    requires cp.Valid()
    modifies cp.employees
    ensures cp.Valid()
    ensures target == cp.FindEmployeeByName(name)
    ensures status.None? <==> target.None?
    ensures target.Some? ==>
              var c := old(target.value.contracts);
              && (status == Some(Done) <==> 0 <= index < |c|)
              && (status != Some(Done) ==> status == Some(InvalidIndex))
              && (status == Some(Done) ==>
                    && target.value.contracts == c[..index] + c[index + 1..]
                    && target.value.logs == old(target.value.logs) + [CancellationEntry(c[index], now)])
              && (status != Some(Done) ==>
                    target.value.contracts == c && target.value.logs == old(target.value.logs))
    ensures forall e :: e in cp.employees && Some(e) != target ==>
              e.contracts == old(e.contracts) && e.logs == old(e.logs)
  {
    target := cp.FindEmployeeByName(name);
    if target.Some? {
      var s := target.value.CancelContract(index, now);
      status := Some(s);
    } else {
      status := None;
    }
  }
}
