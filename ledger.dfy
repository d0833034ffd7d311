/** The transaction log of ExpenseTracker.js and the values derived from it:
    adding and deleting records, the list filter, and the income, expense and
    balance totals. */
module Ledger {
  import opened Wrappers
  import opened Text

  /** The `type` field of a record: the add form offers these two. */
  datatype Kind = Income | Expense

  /** One record of the `expenses` array. The id is the clock reading taken
      when the record was added; the creation date is not modelled. */
  datatype Transaction = Transaction(
    id: int,
    description: string,
    amount: real,
    category: string,
    kind: Kind)

  /** Every record the add handler can create: a positive amount and a
      description that is already trimmed and not empty. */
  ghost predicate WellFormed(log: seq<Transaction>) {
    forall t :: t in log ==>
      t.amount > 0.0 && t.description != [] && Trimmed(t.description)
  }

  ghost predicate UniqueIds(log: seq<Transaction>) {
    forall i, j :: 0 <= i < j < |log| ==> log[i].id != log[j].id
  }

  ghost predicate AbsentId(log: seq<Transaction>, id: int) {
    forall t :: t in log ==> t.id != id
  }

  // ---------------------------------------------------------------------------
  // Adding a record

  /** The guard of the add handler: the trimmed description is not empty and
      the amount field reads as a number greater than zero. `amount` is the
      field as parseFloat reads it; None stands for an empty field or one that
      parses to NaN. */
  predicate Accepts(description: string, amount: Option<real>) {
    Trim(description) != [] && amount.Some? && amount.value > 0.0
  }

  /** The guard, stated without Trim: some character of the description is
      not whitespace. */
  lemma AcceptsIff(description: string, amount: Option<real>)
    ensures Accepts(description, amount) <==>
      (exists i :: 0 <= i < |description| && !IsWhitespace(description[i]))
      && amount.Some? && amount.value > 0.0
  {
    TrimEmptyIff(description);
    if !AllWhitespace(description) {
      var i :| 0 <= i < |description| && !IsWhitespace(description[i]);
    }
  }

  /** The log after the add handler runs with the given form contents and
      clock reading `now`: a new record at the front when the guard holds,
      the same log otherwise. */
  function AddEntry(log: seq<Transaction>, now: int, description: string,
                    amount: Option<real>, category: string, kind: Kind): (r: seq<Transaction>)
    ensures !Accepts(description, amount) ==> r == log
    ensures Accepts(description, amount) ==>
      && |r| == |log| + 1 && r[1..] == log
      && r[0].id == now && r[0].description == Trim(description)
      && r[0].amount == amount.value && r[0].category == category && r[0].kind == kind
  {
    if Accepts(description, amount) then
      [Transaction(now, Trim(description), amount.value, category, kind)] + log
    else
      log
  }

  /** An accepted add keeps every record well formed, and with a fresh clock
      reading it keeps the ids unique. */
  lemma AddPreservesInvariants(log: seq<Transaction>, now: int, description: string,
                               amount: Option<real>, category: string, kind: Kind)
    requires WellFormed(log)
    ensures WellFormed(AddEntry(log, now, description, amount, category, kind))
    ensures UniqueIds(log) && AbsentId(log, now) ==>
      UniqueIds(AddEntry(log, now, description, amount, category, kind))
  {
    var r := AddEntry(log, now, description, amount, category, kind);
    TrimTrimmed(description);
    if Accepts(description, amount) && UniqueIds(log) && AbsentId(log, now) {
      forall i, j | 0 <= i < j < |r| ensures r[i].id != r[j].id {
        if i == 0 { assert r[j] == log[j - 1]; assert r[j] in log; }
        else { assert r[i] == log[i - 1] && r[j] == log[j - 1]; }
      }
    }
  }

  /** Entering a stored record's own fields in the form adds that very
      record: the guard accepts it and trimming leaves its description as
      it is. */
  lemma AddRecordRoundTrip(log: seq<Transaction>, t: Transaction)
    requires t.amount > 0.0 && t.description != [] && Trimmed(t.description)
    ensures AddEntry(log, t.id, t.description, Some(t.amount), t.category, t.kind) == [t] + log
  {
    AcceptsTrimmed(t.description, t.amount);
    var r := AddEntry(log, t.id, t.description, Some(t.amount), t.category, t.kind);
    assert r == [Transaction(t.id, Trim(t.description), t.amount, t.category, t.kind)] + log;
  }

  /** The guard accepts a trimmed, non-empty description with a positive
      amount and leaves the description as it is. */
  lemma AcceptsTrimmed(description: string, amount: real)
    requires description != [] && Trimmed(description) && amount > 0.0
    ensures Accepts(description, Some(amount)) && Trim(description) == description
  {
    TrimFixedIff(description);
  }

  // ---------------------------------------------------------------------------
  // Deleting records

  /** `expenses.filter(e => e.id !== id)`: the records whose id is not `id`. */
  function WithoutId(log: seq<Transaction>, id: int): (r: seq<Transaction>)
    ensures |r| <= |log|
    ensures forall t :: t in r <==> t in log && t.id != id
  {
    if log == [] then []
    else if log[0].id != id then [log[0]] + WithoutId(log[1..], id)
    else WithoutId(log[1..], id)
  }

  /** Deleting keeps the original order: it works piece by piece. */
  lemma {:induction false} WithoutIdAppend(a: seq<Transaction>, b: seq<Transaction>, id: int)
    ensures WithoutId(a + b, id) == WithoutId(a, id) + WithoutId(b, id)
  {
    if a != [] {
      assert (a + b)[1..] == a[1..] + b;
      WithoutIdAppend(a[1..], b, id);
    } else {
      assert a + b == b;
    }
  }

  /** Deleting an id no record carries leaves the log as it was. */
  lemma {:induction false} WithoutAbsentId(log: seq<Transaction>, id: int)
    requires AbsentId(log, id)
    ensures WithoutId(log, id) == log
  {
    if log != [] {
      assert log[0] in log;
      assert forall t :: t in log[1..] ==> t in log;
      WithoutAbsentId(log[1..], id);
      assert log == [log[0]] + log[1..];
    }
  }

  /** With unique ids, deleting the id of the record at position `p` removes
      exactly that record and nothing else. */
  lemma {:induction false} DeleteRemovesOne(log: seq<Transaction>, p: nat)
    requires UniqueIds(log) && p < |log|
    ensures WithoutId(log, log[p].id) == log[..p] + log[p + 1..]
    ensures |WithoutId(log, log[p].id)| == |log| - 1
  {
    var id := log[p].id;
    var before, after := log[..p], log[p + 1..];
    assert log == before + ([log[p]] + after);
    WithoutIdAppend(before, [log[p]] + after, id);
    WithoutIdAppend([log[p]], after, id);
    assert WithoutId([log[p]], id) == [] by {
      assert [log[p]][1..] == [];
    }
    OthersKeepTheirIds(log, p);
    WithoutAbsentId(before, id);
    WithoutAbsentId(after, id);
  }

  lemma OthersKeepTheirIds(log: seq<Transaction>, p: nat)
    requires UniqueIds(log) && p < |log|
    ensures AbsentId(log[..p], log[p].id) && AbsentId(log[p + 1..], log[p].id)
  {
    forall t | t in log[..p] ensures t.id != log[p].id {
      var k :| 0 <= k < p && log[..p][k] == t;
    }
    forall t | t in log[p + 1..] ensures t.id != log[p].id {
      var k :| 0 <= k < |log| - p - 1 && log[p + 1..][k] == t;
      assert t == log[p + 1 + k];
    }
  }

  /** Adding a record under a fresh id and then deleting that id gives back
      the log as it was before the add. */
  lemma AddThenDelete(log: seq<Transaction>, now: int, description: string,
                      amount: Option<real>, category: string, kind: Kind)
    requires AbsentId(log, now)
    ensures WithoutId(AddEntry(log, now, description, amount, category, kind), now) == log
  {
    WithoutAbsentId(log, now);
    var r := AddEntry(log, now, description, amount, category, kind);
    TrimTrimmed(description);
    if Accepts(description, amount) {
      assert r[1..] == log;
    }
  }

  // ---------------------------------------------------------------------------
  // The list filter

  /** `expenses.filter(e => e.type === kind)`: the records of one kind. */
  function OfKind(log: seq<Transaction>, kind: Kind): (r: seq<Transaction>)
    ensures |r| <= |log|
    ensures forall t :: t in r <==> t in log && t.kind == kind
  {
    if log == [] then []
    else if log[0].kind == kind then [log[0]] + OfKind(log[1..], kind)
    else OfKind(log[1..], kind)
  }

  /** Filtering by kind keeps the original order: it works piece by piece. */
  lemma {:induction false} OfKindAppend(a: seq<Transaction>, b: seq<Transaction>, kind: Kind)
    ensures OfKind(a + b, kind) == OfKind(a, kind) + OfKind(b, kind)
  {
    if a != [] {
      assert (a + b)[1..] == a[1..] + b;
      OfKindAppend(a[1..], b, kind);
    } else {
      assert a + b == b;
    }
  }

  /** `filteredExpenses`: the records shown for the selected filter. The
      filters 'income' and 'expense' keep the records of that kind; 'all' and
      every other value keep the whole log. */
  function Filtered(log: seq<Transaction>, filter: string): (r: seq<Transaction>)
    ensures forall t :: t in r <==>
      t in log && (filter == "income" ==> t.kind == Income) && (filter == "expense" ==> t.kind == Expense)
    ensures filter != "income" && filter != "expense" ==> r == log
  {
    if filter == "all" then log
    else if filter == "expense" then OfKind(log, Expense)
    else if filter == "income" then OfKind(log, Income)
    else log
  }

  /** The filtered list keeps the log's order: it works piece by piece. */
  lemma FilteredAppend(a: seq<Transaction>, b: seq<Transaction>, filter: string)
    ensures Filtered(a + b, filter) == Filtered(a, filter) + Filtered(b, filter)
  {
    OfKindAppend(a, b, Income);
    OfKindAppend(a, b, Expense);
  }

  // ---------------------------------------------------------------------------
  // Totals

  /** `reduce((sum, e) => sum + e.amount, 0)`, folding from the left. */
  function SumAmounts(s: seq<Transaction>): real {
    if s == [] then 0.0 else SumAmounts(s[..|s| - 1]) + s[|s| - 1].amount
  }

  lemma {:induction false} SumAmountsAppend(a: seq<Transaction>, b: seq<Transaction>)
    ensures SumAmounts(a + b) == SumAmounts(a) + SumAmounts(b)
  {
    if b == [] {
      assert a + b == a;
    } else {
      assert (a + b)[..|a + b| - 1] == a + b[..|b| - 1];
      SumAmountsAppend(a, b[..|b| - 1]);
    }
  }

  function TotalIncome(log: seq<Transaction>): real {
    SumAmounts(OfKind(log, Income))
  }

  function TotalExpenses(log: seq<Transaction>): real {
    SumAmounts(OfKind(log, Expense))
  }

  function Balance(log: seq<Transaction>): real {
    TotalIncome(log) - TotalExpenses(log)
  }

  /** Income counted positive, expenses negative: an independent reading of
      the balance, one record at a time from the front. */
  function SignedSum(log: seq<Transaction>): real {
    if log == [] then 0.0
    else (if log[0].kind == Income then log[0].amount else -log[0].amount) + SignedSum(log[1..])
  }

  /** Both totals add up record by record over any split of the log; the
      empty log has zero totals. */
  lemma {:induction false} TotalsAppend(a: seq<Transaction>, b: seq<Transaction>)
    ensures TotalIncome(a + b) == TotalIncome(a) + TotalIncome(b)
    ensures TotalExpenses(a + b) == TotalExpenses(a) + TotalExpenses(b)
    ensures TotalIncome([]) == 0.0 && TotalExpenses([]) == 0.0
  {
    OfKindAppend(a, b, Income);
    OfKindAppend(a, b, Expense);
    SumAmountsAppend(OfKind(a, Income), OfKind(b, Income));
    SumAmountsAppend(OfKind(a, Expense), OfKind(b, Expense));
  }

  /** The balance is income minus expenses summed record by record. */
  lemma {:induction false} BalanceIsSignedSum(log: seq<Transaction>)
    ensures Balance(log) == SignedSum(log)
  {
    if log != [] {
      assert log == [log[0]] + log[1..];
      TotalsAppend([log[0]], log[1..]);
      BalanceIsSignedSum(log[1..]);
      assert OfKind([log[0]], Income) == (if log[0].kind == Income then [log[0]] else []);
      assert OfKind([log[0]], Expense) == (if log[0].kind == Expense then [log[0]] else []);
      assert SumAmounts([log[0]]) == log[0].amount;
    }
  }

  /** Every record is either income or an expense: the two totals together
      are the sum of all amounts. */
  lemma {:induction false} TotalsPartition(log: seq<Transaction>)
    ensures TotalIncome(log) + TotalExpenses(log) == SumAmounts(log)
  {
    if log != [] {
      var init := log[..|log| - 1];
      var last := log[|log| - 1];
      assert log == init + [last];
      TotalsAppend(init, [last]);
      TotalsPartition(init);
      assert OfKind([last], Income) == (if last.kind == Income then [last] else []);
      assert OfKind([last], Expense) == (if last.kind == Expense then [last] else []);
      assert SumAmounts([last]) == last.amount;
    }
  }

  lemma {:induction false} SumAmountsPositive(s: seq<Transaction>)
    requires WellFormed(s)
    ensures SumAmounts(s) >= 0.0
    ensures SumAmounts(s) == 0.0 <==> s == []
  {
    if s != [] {
      assert s[|s| - 1] in s;
      assert forall t :: t in s[..|s| - 1] ==> t in s;
      SumAmountsPositive(s[..|s| - 1]);
    }
  }

  /** On a well-formed log both totals are non-negative, and each is zero
      exactly when the log has no record of that kind. */
  lemma TotalsNonNegative(log: seq<Transaction>)
    requires WellFormed(log)
    ensures TotalIncome(log) >= 0.0 && TotalExpenses(log) >= 0.0
    ensures TotalIncome(log) == 0.0 <==> forall t :: t in log ==> t.kind != Income
    ensures TotalExpenses(log) == 0.0 <==> forall t :: t in log ==> t.kind != Expense
  {
    SumAmountsPositive(OfKind(log, Income));
    SumAmountsPositive(OfKind(log, Expense));
    if OfKind(log, Income) != [] { assert OfKind(log, Income)[0] in OfKind(log, Income); }
    if OfKind(log, Expense) != [] { assert OfKind(log, Expense)[0] in OfKind(log, Expense); }
  }

  /** An accepted add raises the total of the new record's kind by its
      amount and leaves the other total alone. */
  lemma AddEffectOnTotals(log: seq<Transaction>, now: int, description: string,
                          amount: Option<real>, category: string, kind: Kind)
    requires Accepts(description, amount)
    ensures var r := AddEntry(log, now, description, amount, category, kind);
      && TotalIncome(r) == TotalIncome(log) + (if kind == Income then amount.value else 0.0)
      && TotalExpenses(r) == TotalExpenses(log) + (if kind == Expense then amount.value else 0.0)
  {
    var r := AddEntry(log, now, description, amount, category, kind);
    assert r == [r[0]] + log;
    TotalsAppend([r[0]], log);
    assert OfKind([r[0]], Income) == (if kind == Income then [r[0]] else []);
    assert OfKind([r[0]], Expense) == (if kind == Expense then [r[0]] else []);
    assert SumAmounts([r[0]]) == r[0].amount;
  }
}
