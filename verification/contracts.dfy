/** Contract terms and the amounts computed from them.

    A contract's `type` is either an hourly record (rate and hours) or a
    monthly record (salary); the source tells them apart by which fields are
    present. Here it is a two-case datatype, and every field-presence test
    becomes an exhaustive `match`. Numbers are exact reals. */
module Contracts {

  /** The pay terms of one contract (`hourly_type` | `monthly_type`). */
  datatype Terms = Hourly(rate: real, hours: real) | Monthly(salary: real)

  /** `isHourlyContract`: the contract carries a rate and hours. */
  predicate IsHourly(t: Terms)
  {
    t.Hourly?
  }

  /** The kind word the source prints for a contract ("Monthly" / "Hourly"). */
  function KindName(t: Terms): string
  {
    match t
    case Hourly(_, _) => "Hourly"
    case Monthly(_) => "Monthly"
  }

  /** What one contract adds to a salary: the salary, or rate times hours. */
  function Amount(t: Terms): real
  {
    match t
    case Hourly(rate, hours) => rate * hours
    case Monthly(salary) => salary
  }

  /** What one contract adds to the worked-hours total: its hours if hourly. */
  function HoursOf(t: Terms): real
  {
    match t
    case Hourly(_, hours) => hours
    case Monthly(_) => 0.0
  }

  /** One labelled number of a rendered contract ("Salary = 1000"). */
  datatype Field = Field(caption: string, value: real)

  /** A contract rendered for a log entry, up to number formatting:
      its kind word and its labelled numbers in print order. */
  datatype ContractText = ContractText(kind: string, fields: seq<Field>)

  /** `contractDetails`: the rendering of one contract. */
  function ContractDetails(t: Terms): ContractText
  {
    match t
    case Monthly(salary) => ContractText("Monthly", [Field("Salary", salary)])
    case Hourly(rate, hours) => ContractText("Hourly", [Field("Rate", rate), Field("Hours", hours)])
  }

  /** The rendering loses nothing: equal renderings come from equal terms,
      so a snapshot in the log identifies the contract it was taken from. */
  lemma DetailsIdentifyContract(a: Terms, b: Terms)
    requires ContractDetails(a) == ContractDetails(b)
    ensures a == b
  {
  }

  /** Sum of `f` over the contracts, accumulated front to back as the
      source's `forEach` loops do. */
  function Sum(s: seq<Terms>, f: Terms -> real): real
  {
    if s == [] then 0.0 else Sum(s[..|s| - 1], f) + f(s[|s| - 1])
  }

  /** The salary of a list of contracts (`getSalary`'s specification). */
  function Salary(s: seq<Terms>): real
  {
    Sum(s, Amount)
  }

  /** The worked hours of a list of contracts: hours of the hourly ones. */
  function WorkedHours(s: seq<Terms>): real
  {
    Sum(s, HoursOf)
  }

  lemma {:induction false} SumConcat(a: seq<Terms>, b: seq<Terms>, f: Terms -> real)
    ensures Sum(a + b, f) == Sum(a, f) + Sum(b, f)
  {
    if b == [] {
      assert a + b == a;
    } else {
      var b' := b[..|b| - 1];
      assert (a + b)[..|a + b| - 1] == a + b';
      SumConcat(a, b', f);
    }
  }

  /** Splitting a list at one contract splits its sum the same way. */
  lemma SumSplit(s: seq<Terms>, i: nat, f: Terms -> real)
    requires i < |s|
    ensures Sum(s, f) == Sum(s[..i], f) + f(s[i]) + Sum(s[i + 1..], f)
  {
    assert s == s[..i] + s[i..];
    assert s[i..] == [s[i]] + s[i + 1..];
    assert [s[i]][..0] == [];
    SumConcat(s[..i], s[i..], f);
    SumConcat([s[i]], s[i + 1..], f);
  }

  /** Removing the contract at `i` takes exactly its share out of the sum. */
  lemma SumRemove(s: seq<Terms>, i: nat, f: Terms -> real)
    requires i < |s|
    ensures Sum(s[..i] + s[i + 1..], f) == Sum(s, f) - f(s[i])
  {
    SumSplit(s, i, f);
    SumConcat(s[..i], s[i + 1..], f);
  }

  /** Replacing the contract at `i` replaces its share of the sum. */
  lemma SumUpdate(s: seq<Terms>, i: nat, t: Terms, f: Terms -> real)
    requires i < |s|
    ensures Sum(s[i := t], f) == Sum(s, f) - f(s[i]) + f(t)
  {
    var s' := s[i := t];
    assert s'[..i] == s[..i] && s'[i + 1..] == s[i + 1..];
    SumSplit(s, i, f);
    SumSplit(s', i, f);
  }

  /** Removing the element at `j` removes one copy of it from the multiset. */
  lemma MultisetRemove(b: seq<Terms>, j: nat)
    requires j < |b|
    ensures multiset(b[..j] + b[j + 1..]) == multiset(b) - multiset{b[j]}
  {
    assert b == b[..j] + [b[j]] + b[j + 1..];
  }

  /** The sum does not depend on the order of the contracts. */
  lemma {:induction false} SumPermutation(a: seq<Terms>, b: seq<Terms>, f: Terms -> real)
    requires multiset(a) == multiset(b)
    ensures Sum(a, f) == Sum(b, f)
    decreases |a|
  {
    if a == [] {
      assert |b| == |multiset(b)| == 0;
    } else {
      var i := |a| - 1;
      var x := a[i];
      assert x in multiset(b);
      var j :| 0 <= j < |b| && b[j] == x;
      MultisetRemove(a, i);
      MultisetRemove(b, j);
      assert a[..i] + a[i + 1..] == a[..i];
      SumPermutation(a[..i], b[..j] + b[j + 1..], f);
      SumRemove(b, j, f);
    }
  }

  /** Creating a contract raises the salary by that contract's amount. */
  lemma SalaryAfterCreate(s: seq<Terms>, t: Terms)
    ensures Salary(s + [t]) == Salary(s) + Amount(t)
    ensures WorkedHours(s + [t]) == WorkedHours(s) + HoursOf(t)
  {
    SumConcat(s, [t], Amount);
    SumConcat(s, [t], HoursOf);
  }

  /** Logging `d` hours on hourly contract `i` raises the salary by
      `rate * d` and the worked hours by `d`. */
  lemma SalaryAfterWork(s: seq<Terms>, i: nat, d: real)
    requires i < |s| && s[i].Hourly?
    ensures Salary(s[i := Hourly(s[i].rate, s[i].hours + d)]) == Salary(s) + s[i].rate * d
    ensures WorkedHours(s[i := Hourly(s[i].rate, s[i].hours + d)]) == WorkedHours(s) + d
  {
    var t := Hourly(s[i].rate, s[i].hours + d);
    SumUpdate(s, i, t, Amount);
    SumUpdate(s, i, t, HoursOf);
  }

  /** Cancelling contract `i` lowers the salary by exactly its amount and
      the worked hours by exactly its hours. */
  lemma SalaryAfterCancel(s: seq<Terms>, i: nat)
    requires i < |s|
    ensures Salary(s[..i] + s[i + 1..]) == Salary(s) - Amount(s[i])
    ensures WorkedHours(s[..i] + s[i + 1..]) == WorkedHours(s) - HoursOf(s[i])
  {
    SumRemove(s, i, Amount);
    SumRemove(s, i, HoursOf);
  }

  /** The salary is the same whatever order the contracts were created in. */
  lemma SalaryOrderIndependent(a: seq<Terms>, b: seq<Terms>)
    requires multiset(a) == multiset(b)
    ensures Salary(a) == Salary(b)
  {
    SumPermutation(a, b, Amount);
  }
}
