/** A worked session of the tracker: a salary, then two expenses, entered
    through the add form one after the other. */
module Scenario {
  import opened Wrappers
  import opened Text
  import opened Ledger
  import opened Breakdown

  const Salary := Transaction(1, "Salary", 1000.0, "other", Income)
  const Lunch := Transaction(2, "Lunch", 50.0, "food", Expense)
  const Bus := Transaction(3, "Bus", 30.0, "transport", Expense)

  /** The log after adding income 1000 'Salary', expense 50 'Lunch' (food)
      and expense 30 'Bus' (transport) at clock readings 1, 2 and 3. */
  function Session(): seq<Transaction> {
    Enter(Enter(Enter([], Salary), Lunch), Bus)
  }

  /** Filling in the form with a record's fields and adding at its id. */
  function Enter(log: seq<Transaction>, t: Transaction): seq<Transaction> {
    AddEntry(log, t.id, t.description, Some(t.amount), t.category, t.kind)
  }

  /** Each description is already trimmed, so each add is accepted as is. */
  lemma EnterSalary()
    ensures Enter([], Salary) == [Salary]
  {
    assert Trimmed(Salary.description);
    AddRecordRoundTrip([], Salary);
  }

  lemma EnterLunch()
    ensures Enter([Salary], Lunch) == [Lunch, Salary]
  {
    assert Trimmed(Lunch.description);
    AddRecordRoundTrip([Salary], Lunch);
  }

  lemma EnterBus()
    ensures Enter([Lunch, Salary], Bus) == [Bus, Lunch, Salary]
  {
    assert Trimmed(Bus.description);
    AddRecordRoundTrip([Lunch, Salary], Bus);
  }

  /** The three adds are accepted and the log lists them newest first. */
  lemma SessionLog()
    ensures Session() == [Bus, Lunch, Salary]
  {
    EnterSalary();
    EnterLunch();
    EnterBus();
  }

  lemma SessionKinds()
    ensures OfKind([Bus, Lunch, Salary], Income) == [Salary]
    ensures OfKind([Bus, Lunch, Salary], Expense) == [Bus, Lunch]
  {
    assert [Bus, Lunch, Salary][1..] == [Lunch, Salary];
    assert [Lunch, Salary][1..] == [Salary];
    assert [Salary][1..] == [];
    assert OfKind([Salary], Expense) == [];
    assert OfKind([Lunch, Salary], Expense) == [Lunch];
  }

  lemma SessionSums()
    ensures SumAmounts([Salary]) == 1000.0
    ensures SumAmounts([Bus, Lunch]) == 80.0
  {
    assert [Salary][..0] == [];
    assert [Bus, Lunch][..1] == [Bus];
    assert [Bus][..0] == [];
    assert SumAmounts([Bus]) == 30.0;
  }

  /** Income 1000, expenses 80 and balance 920. */
  lemma SessionTotals()
    ensures TotalIncome(Session()) == 1000.0
    ensures TotalExpenses(Session()) == 80.0
    ensures Balance(Session()) == 920.0
  {
    SessionLog();
    SessionKinds();
    SessionSums();
  }

  lemma SessionGrouped()
    ensures Grouped([Bus, Lunch]) == [CategoryTotal("transport", 30.0), CategoryTotal("food", 50.0)]
  {
    assert [Bus, Lunch][..1] == [Bus];
    assert [Bus][..0] == [];
    var g1 := [CategoryTotal("transport", 30.0)];
    assert Grouped([Bus]) == g1 by {
      assert Grouped([Bus]) == Accumulate([], "transport", 30.0);
    }
    assert "transport" != "food" by {
      assert "transport"[0] != "food"[0];
    }
    assert Accumulate(g1, "food", 50.0) == [g1[0]] + Accumulate([], "food", 50.0);
  }

  lemma SessionPercentages()
    ensures WithPercentages([CategoryTotal("transport", 30.0), CategoryTotal("food", 50.0)], 80.0)
         == [CategoryStat("transport", 30.0, 37.5), CategoryStat("food", 50.0, 62.5)]
  {
    var w := WithPercentages([CategoryTotal("transport", 30.0), CategoryTotal("food", 50.0)], 80.0);
    assert Percentage(30.0, 80.0) == 37.5;
    assert Percentage(50.0, 80.0) == 62.5;
    assert w[0] == CategoryStat("transport", 30.0, 37.5);
    assert w[1] == CategoryStat("food", 50.0, 62.5);
  }

  lemma SessionSort()
    ensures SortByAmount([CategoryStat("transport", 30.0, 37.5), CategoryStat("food", 50.0, 62.5)])
         == [CategoryStat("food", 50.0, 62.5), CategoryStat("transport", 30.0, 37.5)]
  {
    var transport := CategoryStat("transport", 30.0, 37.5);
    var food := CategoryStat("food", 50.0, 62.5);
    assert [transport, food][1..] == [food];
    assert [food][1..] == [];
    assert SortByAmount([food]) == [food];
    assert InsertByAmount(transport, [food]) == [food] + InsertByAmount(transport, []);
  }

  /** The breakdown lists food (50, 62.5%) before transport (30, 37.5%),
      although transport is the first category in the newest-first log. */
  lemma SessionBreakdown()
    ensures CategoryStats(Session()) == [CategoryStat("food", 50.0, 62.5), CategoryStat("transport", 30.0, 37.5)]
  {
    SessionLog();
    SessionKinds();
    SessionSums();
    SessionGrouped();
    SessionPercentages();
    SessionSort();
  }
}
