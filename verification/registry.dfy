/** The company: an ordered list of employees, appended to without any
    check on names, and searched by name for the first match. */
module Registry {
  import opened Employees

  datatype Option<T> = None | Some(value: T)

  /** The position of the first employee called `name`, if there is one. */
  function FirstNamed(emps: seq<Employee>, name: string): (r: Option<nat>)
    ensures r.Some? ==> r.value < |emps| && emps[r.value].name == name
    ensures r.Some? ==> forall j :: 0 <= j < r.value ==> emps[j].name != name
    ensures r.None? <==> forall j :: 0 <= j < |emps| ==> emps[j].name != name
  {
    if emps == [] then None
    else if emps[0].name == name then Some(0)
    else match FirstNamed(emps[1..], name)
         case None => None
         case Some(k) => Some(k + 1)
  }

  /** Adding an employee at the end never changes an existing answer; it
      only gives one where there was none and the new name matches. */
  lemma {:induction false} FirstNamedAfterAdd(emps: seq<Employee>, e: Employee, name: string)
    ensures FirstNamed(emps + [e], name)
         == if FirstNamed(emps, name).Some? then FirstNamed(emps, name)
            else if e.name == name then Some(|emps|)
            else None
  {
    if emps != [] {
      assert (emps + [e])[0] == emps[0];
      assert (emps + [e])[1..] == emps[1..] + [e];
      FirstNamedAfterAdd(emps[1..], e, name);
    }
  }

  class Company {
    var name: string
    var employees: seq<Employee>

    /** Every registered employee keeps its own invariant: its log opens
        with its creation entry. */
    ghost predicate Valid()
      reads this, employees
    {
      forall e :: e in employees ==> e.Valid()
    }

    constructor ()
      ensures name == "" && employees == []
      ensures Valid()
    {
      name := "";
      employees := [];
    }

    /** Appends `e`, even when an employee of that name is already there:
        a lookup that found someone still finds the same employee, and one
        that found no one now finds `e` exactly when the name is `e`'s. */
    method AddEmployee(e: Employee)
      requires Valid() && e.Valid()
      modifies this
      ensures Valid()
      ensures employees == old(employees) + [e]
      ensures name == old(name)
      ensures forall n :: FindEmployeeByName(n)
                == if old(FindEmployeeByName(n)).Some? then old(FindEmployeeByName(n))
                   else if e.name == n then Some(e)
                   else None
    {
      employees := employees + [e];
      forall n: string
        ensures FindEmployeeByName(n)
             == if old(FindEmployeeByName(n)).Some? then old(FindEmployeeByName(n))
                else if e.name == n then Some(e)
                else None
      {
        FirstNamedAfterAdd(old(employees), e, n);
      }
    }

    /** The registered employees, in the order they were added. */
    function GetEmployees(): seq<Employee>
      reads this
    {
      employees
    }

    /** The first registered employee called `name`, or none. */
    function FindEmployeeByName(name: string): (r: Option<Employee>)
      reads this
      ensures r.None? <==> forall e :: e in employees ==> e.name != name
      ensures r.Some? ==> exists i :: 0 <= i < |employees| && employees[i] == r.value
                                    && r.value.name == name
                                    && forall j :: 0 <= j < i ==> employees[j].name != name
    {
      match FirstNamed(employees, name)
      case None => None
      case Some(k) => Some(employees[k])
    }
  }
}
