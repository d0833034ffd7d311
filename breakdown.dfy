/** The "Spending by Category" breakdown of ExpenseTracker.js
    (`getCategoryStats`): expense amounts grouped by category in the order
    the categories are first met, each with its share of the expense total,
    then sorted by amount, largest first, with a stable sort. */
module Breakdown {
  import opened Ledger

  /** One key and value of the `stats` object: a category and the sum of its
      expense amounts so far. */
  datatype CategoryTotal = CategoryTotal(category: string, amount: real)

  /** One entry of the breakdown. */
  datatype CategoryStat = CategoryStat(category: string, amount: real, percentage: real)

  /** The keys of the `stats` object, in order. */
  function Categories(g: seq<CategoryTotal>): (r: seq<string>)
    ensures |r| == |g| && forall k :: 0 <= k < |g| ==> r[k] == g[k].category
  {
    if g == [] then [] else [g[0].category] + Categories(g[1..])
  }

  ghost predicate DistinctCategories(g: seq<CategoryTotal>) {
    forall i, j :: 0 <= i < j < |g| ==> g[i].category != g[j].category
  }

  function SumTotals(g: seq<CategoryTotal>): real {
    if g == [] then 0.0 else g[0].amount + SumTotals(g[1..])
  }

  // ---------------------------------------------------------------------------
  // Grouping

  /** `stats[category] = (stats[category] || 0) + amount` on the object read
      in insertion order: the category's entry grows by `amount`, or a new
      entry is appended after all the others. */
  function Accumulate(g: seq<CategoryTotal>, category: string, amount: real): seq<CategoryTotal> {
    if g == [] then [CategoryTotal(category, 0.0 + amount)]
    else if g[0].category == category then [CategoryTotal(category, g[0].amount + amount)] + g[1..]
    else [g[0]] + Accumulate(g[1..], category, amount)
  }

  /** Accumulate keeps the keys and their order, appending the category
      after the others when it is new. */
  lemma {:induction false} AccumulateCategories(g: seq<CategoryTotal>, category: string, amount: real)
    ensures Categories(Accumulate(g, category, amount)) ==
      (if category in Categories(g) then Categories(g) else Categories(g) + [category])
  {
    if g != [] && g[0].category != category {
      AccumulateCategories(g[1..], category, amount);
      assert Categories(g) == [g[0].category] + Categories(g[1..]);
      assert category in Categories(g) <==> category in Categories(g[1..]);
    }
  }

  /** On entries with distinct categories, Accumulate keeps them distinct
      and adds `amount` to the entry of `category` only, a new entry starting
      from zero. */
  lemma AccumulateDistinct(g: seq<CategoryTotal>, category: string, amount: real)
    requires DistinctCategories(g)
    ensures var r := Accumulate(g, category, amount);
      && DistinctCategories(r)
      && forall k :: 0 <= k < |r| ==>
           r[k].amount == (if k < |g| then g[k].amount else 0.0) + (if r[k].category == category then amount else 0.0)
  {
    var r := Accumulate(g, category, amount);
    AccumulateCategories(g, category, amount);
    assert forall k :: 0 <= k < |r| ==> r[k].category == Categories(r)[k];
    AccumulateAmounts(g, category, amount);
  }

  lemma {:induction false} AccumulateAmounts(g: seq<CategoryTotal>, category: string, amount: real)
    requires DistinctCategories(g)
    ensures var r := Accumulate(g, category, amount);
      |r| >= |g| && forall k :: 0 <= k < |r| ==>
        r[k].amount == (if k < |g| then g[k].amount else 0.0) + (if r[k].category == category then amount else 0.0)
  {
    if g != [] && g[0].category != category {
      var rest := g[1..];
      assert DistinctCategories(rest) by {
        forall i, j | 0 <= i < j < |rest| ensures rest[i].category != rest[j].category {
          assert rest[i] == g[i + 1] && rest[j] == g[j + 1];
        }
      }
      AccumulateAmounts(rest, category, amount);
    } else if g != [] {
      var r := Accumulate(g, category, amount);
      forall k | 0 < k < |r| ensures r[k].category != category {
        assert r[k] == g[k];
      }
    }
  }

  lemma {:induction false} AccumulateSum(g: seq<CategoryTotal>, category: string, amount: real)
    ensures SumTotals(Accumulate(g, category, amount)) == SumTotals(g) + amount
  {
    if g != [] && g[0].category != category {
      AccumulateSum(g[1..], category, amount);
    }
  }

  /** The `stats` object once the forEach has run over `expenses` (already
      restricted to expense records), folding from the left. */
  function Grouped(s: seq<Transaction>): seq<CategoryTotal> {
    if s == [] then []
    else Accumulate(Grouped(s[..|s| - 1]), s[|s| - 1].category, s[|s| - 1].amount)
  }

  /** The records of one category, in order. */
  function OfCategory(s: seq<Transaction>, category: string): (r: seq<Transaction>)
    ensures forall t :: t in r <==> t in s && t.category == category
  {
    if s == [] then []
    else if s[0].category == category then [s[0]] + OfCategory(s[1..], category)
    else OfCategory(s[1..], category)
  }

  lemma {:induction false} OfCategoryAppend(a: seq<Transaction>, b: seq<Transaction>, category: string)
    ensures OfCategory(a + b, category) == OfCategory(a, category) + OfCategory(b, category)
  {
    if a != [] {
      assert (a + b)[1..] == a[1..] + b;
      OfCategoryAppend(a[1..], b, category);
    } else {
      assert a + b == b;
    }
  }

  /** Where `category` first occurs among the records; `|s|` when it does
      not occur. */
  function FirstIndex(s: seq<Transaction>, category: string): (k: nat)
    ensures k <= |s|
    ensures k < |s| ==> s[k].category == category
    ensures forall j :: 0 <= j < k ==> s[j].category != category
  {
    if s == [] then 0
    else if s[0].category == category then 0
    else 1 + FirstIndex(s[1..], category)
  }

  /** FirstIndex is the only position with its three properties. */
  lemma {:induction false} FirstIndexUnique(s: seq<Transaction>, category: string, e: nat)
    requires e <= |s|
    requires e < |s| ==> s[e].category == category
    requires forall j :: 0 <= j < e ==> s[j].category != category
    ensures FirstIndex(s, category) == e
  {
    if e > 0 {
      assert s[0].category != category;
      FirstIndexUnique(s[1..], category, e - 1);
    }
  }

  lemma FirstIndexSnoc(s: seq<Transaction>, t: Transaction, category: string)
    ensures FirstIndex(s + [t], category) ==
      if FirstIndex(s, category) < |s| then FirstIndex(s, category)
      else if t.category == category then |s| else |s| + 1
  {
    var k := FirstIndex(s, category);
    var u := s + [t];
    var e := if k < |s| then k else if t.category == category then |s| else |s| + 1;
    forall j | 0 <= j < e ensures u[j].category != category {
      if j < |s| { assert u[j] == s[j]; }
    }
    if k < |s| { assert u[k] == s[k]; }
    FirstIndexUnique(u, category, e);
  }

  /** The keys of the grouping are distinct, they are the categories that
      occur among the records, and they come in the order the categories
      first occur. */
  ghost predicate KeysInFirstSeenOrder(s: seq<Transaction>, g: seq<CategoryTotal>) {
    && DistinctCategories(g)
    && (forall c :: c in Categories(g) <==> FirstIndex(s, c) < |s|)
    && (forall i, j :: 0 <= i < j < |g| ==> FirstIndex(s, g[i].category) < FirstIndex(s, g[j].category))
  }

  /** The keys of the grouping: one per category that occurs among the
      records and no other, in the order the categories first occur. */
  lemma {:induction false} GroupedKeys(s: seq<Transaction>)
    ensures KeysInFirstSeenOrder(s, Grouped(s))
  {
    if s != [] {
      var init, t := s[..|s| - 1], s[|s| - 1];
      assert s == init + [t];
      GroupedKeys(init);
      GroupedKeysStep(init, t);
    }
  }

  lemma GroupedKeysStep(init: seq<Transaction>, t: Transaction)
    requires KeysInFirstSeenOrder(init, Grouped(init))
    ensures KeysInFirstSeenOrder(init + [t], Grouped(init + [t]))
  {
    var s := init + [t];
    var g := Grouped(s);
    assert g == Accumulate(Grouped(init), t.category, t.amount) by {
      assert s[..|s| - 1] == init;
    }
    AccumulateDistinct(Grouped(init), t.category, t.amount);
    forall c ensures c in Categories(g) <==> FirstIndex(s, c) < |s| {
      GroupedKeyStep(init, t, c);
    }
    forall i, j | 0 <= i < j < |g| ensures FirstIndex(s, g[i].category) < FirstIndex(s, g[j].category) {
      GroupedOrderStep(init, t, i, j);
    }
  }

  /** After one more record, a category is a key exactly when it occurs. */
  lemma GroupedKeyStep(init: seq<Transaction>, t: Transaction, c: string)
    requires KeysInFirstSeenOrder(init, Grouped(init))
    ensures c in Categories(Grouped(init + [t])) <==> FirstIndex(init + [t], c) < |init| + 1
  {
    var s := init + [t];
    assert s[..|s| - 1] == init;
    AccumulateCategories(Grouped(init), t.category, t.amount);
    FirstIndexSnoc(init, t, c);
  }

  /** After one more record, the keys are still in first-occurrence order. */
  lemma GroupedOrderStep(init: seq<Transaction>, t: Transaction, i: nat, j: nat)
    requires KeysInFirstSeenOrder(init, Grouped(init))
    requires i < j < |Grouped(init + [t])|
    ensures FirstIndex(init + [t], Grouped(init + [t])[i].category) < FirstIndex(init + [t], Grouped(init + [t])[j].category)
  {
    var s := init + [t];
    assert s[..|s| - 1] == init;
    var g0 := Grouped(init);
    var g := Grouped(s);
    assert g == Accumulate(g0, t.category, t.amount);
    AccumulateCategories(g0, t.category, t.amount);
    FirstIndexSnoc(init, t, g[i].category);
    FirstIndexSnoc(init, t, g[j].category);
    assert g[i].category == Categories(g)[i] == Categories(g0)[i] == g0[i].category;
    if j < |g0| {
      assert g[j].category == Categories(g)[j] == Categories(g0)[j] == g0[j].category;
    } else {
      assert g[j].category == Categories(g)[j] == t.category && t.category !in Categories(g0);
    }
  }

  /** Each entry holds the sum of the amounts of its category's records. */
  ghost predicate AmountsAreCategorySums(s: seq<Transaction>, g: seq<CategoryTotal>) {
    forall k :: 0 <= k < |g| ==> g[k].amount == SumAmounts(OfCategory(s, g[k].category))
  }

  /** Each entry of the grouping holds the sum of its category's amounts. */
  lemma {:induction false} GroupedAmounts(s: seq<Transaction>)
    ensures AmountsAreCategorySums(s, Grouped(s))
  {
    if s != [] {
      var init, t := s[..|s| - 1], s[|s| - 1];
      assert s == init + [t];
      GroupedAmounts(init);
      GroupedKeys(init);
      GroupedAmountsStep(init, t);
    }
  }

  lemma GroupedAmountsStep(init: seq<Transaction>, t: Transaction)
    requires KeysInFirstSeenOrder(init, Grouped(init))
    requires AmountsAreCategorySums(init, Grouped(init))
    ensures AmountsAreCategorySums(init + [t], Grouped(init + [t]))
  {
    var g := Grouped(init + [t]);
    forall k | 0 <= k < |g| ensures g[k].amount == SumAmounts(OfCategory(init + [t], g[k].category)) {
      GroupedAmountAt(init, t, k);
    }
  }

  /** The entry at position `k` after one more record holds its category's
      sum. */
  lemma GroupedAmountAt(init: seq<Transaction>, t: Transaction, k: nat)
    requires KeysInFirstSeenOrder(init, Grouped(init))
    requires AmountsAreCategorySums(init, Grouped(init))
    requires k < |Grouped(init + [t])|
    ensures Grouped(init + [t])[k].amount == SumAmounts(OfCategory(init + [t], Grouped(init + [t])[k].category))
  {
    var s := init + [t];
    var g0 := Grouped(init);
    assert Grouped(s) == Accumulate(g0, t.category, t.amount) by {
      assert s[..|s| - 1] == init;
    }
    if t.category !in Categories(g0) {
      NewCategoryHasNoRecords(init, t.category);
    }
    AccumulateAmountAt(init, t, g0, k);
  }

  /** One fold step keeps each entry equal to its category's sum. */
  lemma AccumulateAmountAt(init: seq<Transaction>, t: Transaction, g0: seq<CategoryTotal>, k: nat)
    requires DistinctCategories(g0) && AmountsAreCategorySums(init, g0)
    requires t.category !in Categories(g0) ==> OfCategory(init, t.category) == []
    requires k < |Accumulate(g0, t.category, t.amount)|
    ensures var g := Accumulate(g0, t.category, t.amount);
      g[k].amount == SumAmounts(OfCategory(init + [t], g[k].category))
  {
    var g := Accumulate(g0, t.category, t.amount);
    AccumulateCategories(g0, t.category, t.amount);
    AccumulateDistinct(g0, t.category, t.amount);
    var c := g[k].category;
    GroupedAmountStep(init, t, c);
    assert c == Categories(g)[k];
    if k < |g0| {
      assert c == Categories(g0)[k] == g0[k].category;
    } else {
      assert c == t.category && c !in Categories(g0);
    }
  }

  /** A category that is not yet a key has no records so far. */
  lemma NewCategoryHasNoRecords(init: seq<Transaction>, c: string)
    requires KeysInFirstSeenOrder(init, Grouped(init))
    requires c !in Categories(Grouped(init))
    ensures OfCategory(init, c) == []
  {
    assert FirstIndex(init, c) == |init|;
    NoRecordsOfCategory(init, c);
  }

  lemma GroupedAmountStep(init: seq<Transaction>, t: Transaction, c: string)
    ensures SumAmounts(OfCategory(init + [t], c)) ==
      SumAmounts(OfCategory(init, c)) + (if t.category == c then t.amount else 0.0)
  {
    OfCategoryAppend(init, [t], c);
    SumAmountsAppend(OfCategory(init, c), OfCategory([t], c));
    assert OfCategory([t], c) == (if t.category == c then [t] else []) by {
      assert [t][1..] == [];
    }
    assert SumAmounts([t]) == t.amount;
  }

  lemma {:induction false} NoRecordsOfCategory(s: seq<Transaction>, c: string)
    requires forall j :: 0 <= j < |s| ==> s[j].category != c
    ensures OfCategory(s, c) == []
  {
    if s != [] {
      NoRecordsOfCategory(s[1..], c);
    }
  }

  /** The grouped amounts add up to the sum of all the records' amounts. */
  lemma {:induction false} GroupedSum(s: seq<Transaction>)
    ensures SumTotals(Grouped(s)) == SumAmounts(s)
  {
    if s != [] {
      GroupedSum(s[..|s| - 1]);
      AccumulateSum(Grouped(s[..|s| - 1]), s[|s| - 1].category, s[|s| - 1].amount);
    }
  }

  // ---------------------------------------------------------------------------
  // Percentages

  /** `totalExpenses > 0 ? amt / totalExpenses * 100 : 0`, as an exact
      ratio. */
  function Percentage(amount: real, total: real): real {
    if total > 0.0 then amount / total * 100.0 else 0.0
  }

  /** `Object.entries(stats).map(...)`: each entry with its percentage. */
  function WithPercentages(g: seq<CategoryTotal>, total: real): seq<CategoryStat> {
    seq(|g|, k requires 0 <= k < |g| => CategoryStat(g[k].category, g[k].amount, Percentage(g[k].amount, total)))
  }

  function SumStatAmounts(s: seq<CategoryStat>): real {
    if s == [] then 0.0 else s[0].amount + SumStatAmounts(s[1..])
  }

  function SumPercentages(s: seq<CategoryStat>): real {
    if s == [] then 0.0 else s[0].percentage + SumPercentages(s[1..])
  }

  /** Adding percentages keeps the amounts, and the percentages add up to the
      entries' share of the total. */
  lemma {:induction false} WithPercentagesSums(g: seq<CategoryTotal>, total: real)
    ensures SumStatAmounts(WithPercentages(g, total)) == SumTotals(g)
    ensures total > 0.0 ==> SumPercentages(WithPercentages(g, total)) == SumTotals(g) / total * 100.0
  {
    if g != [] {
      assert WithPercentages(g, total)[1..] == WithPercentages(g[1..], total);
      WithPercentagesSums(g[1..], total);
      if total > 0.0 {
        var a, rest := g[0].amount, SumTotals(g[1..]);
        assert a / total * 100.0 + rest / total * 100.0 == (a + rest) / total * 100.0;
      }
    }
  }

  // ---------------------------------------------------------------------------
  // Sorting

  ghost predicate SortedByAmount(s: seq<CategoryStat>) {
    forall i, j :: 0 <= i < j < |s| ==> s[i].amount >= s[j].amount
  }

  ghost predicate DistinctStatCategories(s: seq<CategoryStat>) {
    forall i, j :: 0 <= i < j < |s| ==> s[i].category != s[j].category
  }

  /** The entries with the given amount, in order: a stable sort keeps this
      subsequence as it was for every amount. */
  function WithAmount(s: seq<CategoryStat>, amount: real): seq<CategoryStat> {
    if s == [] then []
    else if s[0].amount == amount then [s[0]] + WithAmount(s[1..], amount)
    else WithAmount(s[1..], amount)
  }

  /** Places `x` before the first entry whose amount is not larger than its
      own. */
  function InsertByAmount(x: CategoryStat, s: seq<CategoryStat>): seq<CategoryStat> {
    if s == [] || x.amount >= s[0].amount then [x] + s
    else [s[0]] + InsertByAmount(x, s[1..])
  }

  lemma {:induction false} InsertByAmountPermutes(x: CategoryStat, s: seq<CategoryStat>)
    ensures |InsertByAmount(x, s)| == |s| + 1
    ensures multiset(InsertByAmount(x, s)) == multiset([x] + s)
    ensures SumStatAmounts(InsertByAmount(x, s)) == x.amount + SumStatAmounts(s)
    ensures SumPercentages(InsertByAmount(x, s)) == x.percentage + SumPercentages(s)
  {
    if s != [] && x.amount < s[0].amount {
      InsertByAmountPermutes(x, s[1..]);
      assert s == [s[0]] + s[1..];
    }
  }

  lemma {:induction false} InsertByAmountSorted(x: CategoryStat, s: seq<CategoryStat>)
    requires SortedByAmount(s)
    ensures SortedByAmount(InsertByAmount(x, s))
  {
    if s == [] || x.amount >= s[0].amount {
      forall z | z in s ensures z.amount <= x.amount {
        var m :| 0 <= m < |s| && s[m] == z;
      }
      SortedCons(x, s);
    } else {
      var rest := s[1..];
      InsertByAmountSorted(x, rest);
      InsertByAmountPermutes(x, rest);
      var rr := InsertByAmount(x, rest);
      forall z | z in rr ensures z.amount <= s[0].amount {
        assert z in multiset([x] + rest);
        if z != x {
          var m :| 0 <= m < |rest| && rest[m] == z;
          assert s[m + 1] == z;
        }
      }
      SortedCons(s[0], rr);
    }
  }

  /** An entry no smaller than any entry of a sorted list can go in front. */
  lemma SortedCons(y: CategoryStat, t: seq<CategoryStat>)
    requires SortedByAmount(t)
    requires forall z :: z in t ==> z.amount <= y.amount
    ensures SortedByAmount([y] + t)
  {
    var r := [y] + t;
    forall i, j | 0 <= i < j < |r| ensures r[i].amount >= r[j].amount {
      assert r[j] == t[j - 1];
      if i == 0 { assert t[j - 1] in t; } else { assert r[i] == t[i - 1]; }
    }
  }

  /** Inserting `x` leaves the entries of every amount in the order they
      had behind `x`. */
  lemma {:induction false} InsertByAmountStable(x: CategoryStat, s: seq<CategoryStat>, a: real)
    ensures WithAmount(InsertByAmount(x, s), a) == WithAmount([x] + s, a)
  {
    assert ([x] + s)[1..] == s;
    if s != [] && x.amount < s[0].amount {
      var rest := s[1..];
      InsertByAmountStable(x, rest, a);
      assert ([x] + rest)[1..] == rest;
      assert ([s[0]] + InsertByAmount(x, rest))[1..] == InsertByAmount(x, rest);
    }
  }

  lemma DistinctCons(y: CategoryStat, t: seq<CategoryStat>)
    requires DistinctStatCategories(t)
    requires forall z :: z in t ==> z.category != y.category
    ensures DistinctStatCategories([y] + t)
  {
    var r := [y] + t;
    forall i, j | 0 <= i < j < |r| ensures r[i].category != r[j].category {
      assert r[j] == t[j - 1];
      if i == 0 { assert t[j - 1] in t; } else { assert r[i] == t[i - 1]; }
    }
  }

  lemma DistinctTail(s: seq<CategoryStat>)
    requires s != [] && DistinctStatCategories(s)
    ensures DistinctStatCategories(s[1..])
    ensures forall z :: z in s[1..] ==> z.category != s[0].category
  {
    forall z | z in s[1..] ensures z.category != s[0].category {
      var m :| 0 <= m < |s[1..]| && s[1..][m] == z;
      assert s[m + 1] == z;
    }
  }

  lemma {:induction false} InsertByAmountDistinct(x: CategoryStat, s: seq<CategoryStat>)
    requires DistinctStatCategories(s)
    requires forall y :: y in s ==> y.category != x.category
    ensures DistinctStatCategories(InsertByAmount(x, s))
  {
    if s == [] || x.amount >= s[0].amount {
      DistinctCons(x, s);
    } else {
      var rest := s[1..];
      DistinctTail(s);
      assert forall y :: y in rest ==> y in s;
      InsertByAmountDistinct(x, rest);
      InsertByAmountPermutes(x, rest);
      var rr := InsertByAmount(x, rest);
      assert s[0] in s;
      forall z | z in rr ensures z.category != s[0].category {
        assert z in multiset([x] + rest);
      }
      DistinctCons(s[0], rr);
    }
  }

  /** `sort((a, b) => b.amount - a.amount)`: JavaScript's sort is stable, so
      this is insertion sort that puts larger amounts first and keeps equal
      amounts in their original order. */
  function SortByAmount(s: seq<CategoryStat>): (r: seq<CategoryStat>)
    ensures |r| == |s| && multiset(r) == multiset(s)
    ensures SortedByAmount(r)
    ensures forall a :: WithAmount(r, a) == WithAmount(s, a)
    ensures SumStatAmounts(r) == SumStatAmounts(s)
    ensures SumPercentages(r) == SumPercentages(s)
  {
    if s == [] then []
    else
      var rest := SortByAmount(s[1..]);
      SortStep(s[0], rest, s[1..]);
      assert s == [s[0]] + s[1..];
      InsertByAmount(s[0], rest)
  }

  /** Inserting the head into the sorted tail sorts the whole list. */
  lemma SortStep(x: CategoryStat, rest: seq<CategoryStat>, tail: seq<CategoryStat>)
    requires |rest| == |tail| && multiset(rest) == multiset(tail) && SortedByAmount(rest)
    requires forall a :: WithAmount(rest, a) == WithAmount(tail, a)
    requires SumStatAmounts(rest) == SumStatAmounts(tail)
    requires SumPercentages(rest) == SumPercentages(tail)
    ensures var r, s := InsertByAmount(x, rest), [x] + tail;
      && |r| == |s| && multiset(r) == multiset(s) && SortedByAmount(r)
      && (forall a :: WithAmount(r, a) == WithAmount(s, a))
      && SumStatAmounts(r) == SumStatAmounts(s)
      && SumPercentages(r) == SumPercentages(s)
  {
    var s := [x] + tail;
    assert s[1..] == tail && ([x] + rest)[1..] == rest;
    InsertByAmountPermutes(x, rest);
    InsertByAmountSorted(x, rest);
    forall a ensures WithAmount(InsertByAmount(x, rest), a) == WithAmount(s, a) {
      InsertByAmountStable(x, rest, a);
    }
  }

  /** Sorting keeps the categories distinct. */
  lemma {:induction false} SortByAmountDistinct(s: seq<CategoryStat>)
    requires DistinctStatCategories(s)
    ensures DistinctStatCategories(SortByAmount(s))
  {
    if s != [] {
      var tail := s[1..];
      assert DistinctStatCategories(tail) by {
        forall i, j | 0 <= i < j < |tail| ensures tail[i].category != tail[j].category {
          assert tail[i] == s[i + 1] && tail[j] == s[j + 1];
        }
      }
      SortByAmountDistinct(tail);
      var rest := SortByAmount(tail);
      forall y | y in rest ensures y.category != s[0].category {
        assert y in multiset(tail);
        var m :| 0 <= m < |tail| && tail[m] == y;
        assert s[m + 1] == y;
      }
      InsertByAmountDistinct(s[0], rest);
    }
  }

  // ---------------------------------------------------------------------------
  // The breakdown

  /** `getCategoryStats()` on the log. */
  function CategoryStats(log: seq<Transaction>): seq<CategoryStat> {
    SortByAmount(WithPercentages(Grouped(OfKind(log, Expense)), TotalExpenses(log)))
  }

  /** Some entry of the breakdown is for `category`. */
  ghost predicate Lists(r: seq<CategoryStat>, category: string) {
    exists i :: 0 <= i < |r| && r[i].category == category
  }

  /** Some expense record of the log has `category`. */
  ghost predicate SpentOn(log: seq<Transaction>, category: string) {
    exists t :: t in log && t.kind == Expense && t.category == category
  }

  /** Every entry of the breakdown is one of the grouped entries with its
      percentage, and every grouped entry is in the breakdown. */
  lemma CategoryStatsFromGrouped(log: seq<Transaction>)
    ensures var r := CategoryStats(log);
      var w := WithPercentages(Grouped(OfKind(log, Expense)), TotalExpenses(log));
      (forall i :: 0 <= i < |r| ==> r[i] in w) && (forall k :: 0 <= k < |w| ==> w[k] in r)
  {
    var r := CategoryStats(log);
    var w := WithPercentages(Grouped(OfKind(log, Expense)), TotalExpenses(log));
    forall i | 0 <= i < |r| ensures r[i] in w {
      assert r[i] in multiset(w);
    }
    forall k | 0 <= k < |w| ensures w[k] in r {
      assert w[k] in multiset(r);
    }
  }

  /** The breakdown has one entry for each category that occurs among the
      expense records and for no other category; each entry holds the sum of
      that category's expense amounts and its percentage of the expense
      total. */
  lemma CategoryStatsEntries(log: seq<Transaction>)
    ensures var r, exp := CategoryStats(log), OfKind(log, Expense);
      && DistinctStatCategories(r)
      && (forall c :: Lists(r, c) <==> SpentOn(log, c))
      && (forall i :: 0 <= i < |r| ==> r[i].amount == SumAmounts(OfCategory(exp, r[i].category)))
      && (forall i :: 0 <= i < |r| ==> r[i].percentage == Percentage(r[i].amount, TotalExpenses(log)))
  {
    var exp := OfKind(log, Expense);
    var g := Grouped(exp);
    var w := WithPercentages(g, TotalExpenses(log));
    var r := CategoryStats(log);
    GroupedKeys(exp);
    GroupedAmounts(exp);
    SortByAmountDistinct(w);
    CategoryStatsFromGrouped(log);
    forall c ensures Lists(r, c) <==> SpentOn(log, c) {
      ListsIffSpentOn(log, c);
    }
  }

  lemma ListsIffSpentOn(log: seq<Transaction>, c: string)
    ensures Lists(CategoryStats(log), c) <==> SpentOn(log, c)
  {
    SpentOnIffKey(log, c);
    ListsIffKey(log, c);
  }

  /** A category has an expense record exactly when it is a key of the
      grouped expenses. */
  lemma SpentOnIffKey(log: seq<Transaction>, c: string)
    ensures SpentOn(log, c) <==> c in Categories(Grouped(OfKind(log, Expense)))
  {
    var exp := OfKind(log, Expense);
    assert c in Categories(Grouped(exp)) <==> FirstIndex(exp, c) < |exp| by {
      GroupedKeys(exp);
    }
    if SpentOn(log, c) {
      var t :| t in log && t.kind == Expense && t.category == c;
      assert t in exp;
    }
    if FirstIndex(exp, c) < |exp| {
      assert exp[FirstIndex(exp, c)] in exp;
    }
  }

  /** A category is listed in the breakdown exactly when it is a key of the
      grouped expenses. */
  lemma ListsIffKey(log: seq<Transaction>, c: string)
    ensures Lists(CategoryStats(log), c) <==> c in Categories(Grouped(OfKind(log, Expense)))
  {
    CategoryStatsFromGrouped(log);
    ListsIffKeyOf(Grouped(OfKind(log, Expense)), TotalExpenses(log), CategoryStats(log), c);
  }

  /** An arrangement of the entries with percentages lists exactly the
      categories of the grouping. */
  lemma ListsIffKeyOf(g: seq<CategoryTotal>, total: real, r: seq<CategoryStat>, c: string)
    requires forall i :: 0 <= i < |r| ==> r[i] in WithPercentages(g, total)
    requires forall k :: 0 <= k < |g| ==> WithPercentages(g, total)[k] in r
    ensures Lists(r, c) <==> c in Categories(g)
  {
    forall k | 0 <= k < |g| ensures Lists(r, g[k].category) {
      KeyListed(g, total, r, k);
    }
    forall i | 0 <= i < |r| ensures r[i].category in Categories(g) {
      ListedKey(g, total, r, i);
    }
  }

  lemma KeyListed(g: seq<CategoryTotal>, total: real, r: seq<CategoryStat>, k: nat)
    requires k < |g| && WithPercentages(g, total)[k] in r
    ensures Lists(r, g[k].category)
  {
    var i :| 0 <= i < |r| && r[i] == WithPercentages(g, total)[k];
  }

  lemma ListedKey(g: seq<CategoryTotal>, total: real, r: seq<CategoryStat>, i: nat)
    requires i < |r| && r[i] in WithPercentages(g, total)
    ensures r[i].category in Categories(g)
  {
    var w := WithPercentages(g, total);
    var k :| 0 <= k < |w| && w[k] == r[i];
    assert Categories(g)[k] == r[i].category;
  }

  /** The breakdown's amounts add up to the expense total, and when that total
      is positive its percentages add up to 100. */
  lemma CategoryStatsSums(log: seq<Transaction>)
    ensures SumStatAmounts(CategoryStats(log)) == TotalExpenses(log)
    ensures TotalExpenses(log) > 0.0 ==> SumPercentages(CategoryStats(log)) == 100.0
  {
    var exp := OfKind(log, Expense);
    var total := TotalExpenses(log);
    GroupedSum(exp);
    WithPercentagesSums(Grouped(exp), total);
    if total > 0.0 {
      assert total / total * 100.0 == 100.0;
    }
  }

  /** The breakdown is sorted by amount, largest first; it is a permutation of
      the grouped entries, and among entries with equal amounts it keeps the
      grouped order, which is the order the categories first occur in. */
  lemma CategoryStatsOrder(log: seq<Transaction>)
    ensures var r, exp := CategoryStats(log), OfKind(log, Expense);
      var w := WithPercentages(Grouped(exp), TotalExpenses(log));
      && SortedByAmount(r)
      && multiset(r) == multiset(w)
      && (forall a :: WithAmount(r, a) == WithAmount(w, a))
      && (forall i, j :: 0 <= i < j < |w| ==> FirstIndex(exp, w[i].category) < FirstIndex(exp, w[j].category))
  {
    GroupedKeys(OfKind(log, Expense));
  }

  /** With no expense records there is nothing to break down. */
  lemma CategoryStatsEmpty(log: seq<Transaction>)
    requires forall t :: t in log ==> t.kind != Expense
    ensures CategoryStats(log) == []
  {
  }
}
