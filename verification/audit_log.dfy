/** The per-employee audit trail: what each entry records and how the
    entries of one kind are picked out of a log. */
module AuditLog {
  import opened Contracts

  /** An instant read from the wall clock; the clock itself is not modelled,
      so every operation that stamps an entry receives the instant. */
  type Timestamp = nat

  /** The four kinds of event an employee's log records. */
  datatype Action = EmployeeAdded | ContractCreated | WorkLogged | ContractCancelled

  /** The `action` text stored in an entry of each kind. */
  function Label(a: Action): string
  {
    match a
    case EmployeeAdded => "Employee Added"
    case ContractCreated => "Contract Created"
    case WorkLogged => "Work Logged"
    case ContractCancelled => "Contract Cancelled"
  }

  /** Different actions are written with different texts. */
  lemma LabelsDistinct(a: Action, b: Action)
    requires Label(a) == Label(b)
    ensures a == b
  {
  }

  /** A contract as listed in the creation entry: "Contract n: ...". */
  datatype NumberedContract = NumberedContract(number: nat, text: ContractText)

  /** The `details` of an entry, as a snapshot of what it describes. */
  datatype Details =
    | Added(name: string, contracts: seq<NumberedContract>)
    | Created(kind: string, terms: Terms)
    | Worked(hoursWorked: real, contractNumber: int)
    | Cancelled(text: ContractText)

  datatype LogEntry = LogEntry(timestamp: Timestamp, action: Action, details: Details)

  /** The contracts of a new employee, numbered from 1 in their order. */
  function Numbered(s: seq<Terms>): seq<NumberedContract>
  {
    seq(|s|, i requires 0 <= i < |s| => NumberedContract(i + 1, ContractDetails(s[i])))
  }

  /** `logAddition`: the entry written when an employee is created. */
  function AdditionEntry(name: string, contracts: seq<Terms>, now: Timestamp): LogEntry
  {
    LogEntry(now, EmployeeAdded, Added(name, Numbered(contracts)))
  }

  /** `logContractChange`: the entry written when a contract is created. */
  function CreationEntry(t: Terms, now: Timestamp): LogEntry
  {
    LogEntry(now, ContractCreated, Created(KindName(t), t))
  }

  /** The entry written when `hoursWorked` hours go to the contract at
      `contractIndex`; the details number contracts from 1. */
  function WorkEntry(hoursWorked: real, contractIndex: int, now: Timestamp): LogEntry
  {
    LogEntry(now, WorkLogged, Worked(hoursWorked, contractIndex + 1))
  }

  /** The entry written when contract `t` is cancelled, rendered from `t`. */
  function CancellationEntry(t: Terms, now: Timestamp): LogEntry
  {
    LogEntry(now, ContractCancelled, Cancelled(ContractDetails(t)))
  }

  /** The entries of `logs` whose action text is `text`, in log order. */
  function WithLabel(logs: seq<LogEntry>, text: string): (r: seq<LogEntry>)
    ensures |r| <= |logs|
    ensures forall e :: e in r <==> e in logs && Label(e.action) == text
  {
    if logs == [] then []
    else (if Label(logs[0].action) == text then [logs[0]] else []) + WithLabel(logs[1..], text)
  }

  /** `getWorkLogs` as written: it filters on "Work Hours Logged". */
  function WorkLogsAsWritten(logs: seq<LogEntry>): seq<LogEntry>
  {
    WithLabel(logs, "Work Hours Logged")
  }

  /** No action is ever written as "Work Hours Logged", so the filter as
      written returns nothing, whatever the log holds. */
  lemma {:induction false} WorkLogsAsWrittenAlwaysEmpty(logs: seq<LogEntry>)
    ensures WorkLogsAsWritten(logs) == []
  {
    if logs != [] {
      assert Label(logs[0].action) != "Work Hours Logged";
      WorkLogsAsWrittenAlwaysEmpty(logs[1..]);
    }
  }

  /** `getWorkLogs` as intended: the entries that `logWork` writes. */
  function WorkLogs(logs: seq<LogEntry>): (r: seq<LogEntry>)
    ensures forall e :: e in r <==> e in logs && e.action == WorkLogged
  {
    var r := WithLabel(logs, Label(WorkLogged));
    assert forall a :: Label(a) == Label(WorkLogged) ==> a == WorkLogged by {
      forall a | Label(a) == Label(WorkLogged) {
        LabelsDistinct(a, WorkLogged);
      }
    }
    r
  }

  /** Appending one entry to a log extends the filtered log by that entry
      exactly when its action text matches. */
  lemma {:induction false} WithLabelAppend(logs: seq<LogEntry>, e: LogEntry, text: string)
    ensures WithLabel(logs + [e], text)
         == WithLabel(logs, text) + (if Label(e.action) == text then [e] else [])
  {
    var tail := if Label(e.action) == text then [e] else [];
    if logs == [] {
      assert [e][1..] == [];
    } else {
      var head := if Label(logs[0].action) == text then [logs[0]] else [];
      assert (logs + [e])[0] == logs[0];
      assert (logs + [e])[1..] == logs[1..] + [e];
      calc {
        WithLabel(logs + [e], text);
        head + WithLabel(logs[1..] + [e], text);
        { WithLabelAppend(logs[1..], e, text); }
        head + (WithLabel(logs[1..], text) + tail);
        (head + WithLabel(logs[1..], text)) + tail;
        WithLabel(logs, text) + tail;
      }
    }
  }

  /** Appending an entry grows the work log by that entry exactly when it
      is a "Work Logged" entry. */
  lemma WorkLogsAppend(logs: seq<LogEntry>, e: LogEntry)
    ensures WorkLogs(logs + [e]) == WorkLogs(logs) + (if e.action == WorkLogged then [e] else [])
  {
    WithLabelAppend(logs, e, Label(WorkLogged));
    if Label(e.action) == Label(WorkLogged) {
      LabelsDistinct(e.action, WorkLogged);
    }
  }
}
