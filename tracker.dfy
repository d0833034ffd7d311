/** The state of the ExpenseTracker component and its two handlers, plus the
    category breakdown as the component computes it, with a dictionary built
    in a loop. */
module Tracker {
  import opened Wrappers
  import opened Text
  import opened Ledger
  import opened Breakdown

  /** The dictionary that holds the grouped entries `g`: each entry's
      category mapped to its amount. */
  function Dictionary(g: seq<CategoryTotal>): map<string, real> {
    if g == [] then map[] else Dictionary(g[1..])[g[0].category := g[0].amount]
  }

  /** The dictionary's keys are the categories of the entries. */
  lemma {:induction false} DictionaryHas(g: seq<CategoryTotal>, c: string)
    ensures c in Dictionary(g) <==> c in Categories(g)
  {
    if g != [] {
      DictionaryHas(g[1..], c);
      assert Categories(g) == [g[0].category] + Categories(g[1..]);
    }
  }

  /** With distinct categories, each entry's category maps to its amount. */
  lemma {:induction false} DictionaryAt(g: seq<CategoryTotal>, k: nat)
    requires DistinctCategories(g) && k < |g|
    ensures g[k].category in Dictionary(g) && Dictionary(g)[g[k].category] == g[k].amount
  {
    if k > 0 {
      assert DistinctCategories(g[1..]) by {
        forall i, j | 0 <= i < j < |g[1..]| ensures g[1..][i].category != g[1..][j].category {
          assert g[1..][i] == g[i + 1] && g[1..][j] == g[j + 1];
        }
      }
      DictionaryAt(g[1..], k - 1);
      assert g[1..][k - 1] == g[k];
    }
  }

  /** `stats[c] = (stats[c] || 0) + amount` on the dictionary of `g` gives
      the dictionary of `Accumulate(g, c, amount)`. */
  lemma {:induction false} DictionaryAccumulate(g: seq<CategoryTotal>, c: string, amount: real)
    ensures var d := Dictionary(g);
      Dictionary(Accumulate(g, c, amount)) == d[c := (if c in d then d[c] else 0.0) + amount]
  {
    var d := Dictionary(g);
    if g == [] {
    } else if g[0].category == c {
      var rest := Dictionary(g[1..]);
      assert Accumulate(g, c, amount)[1..] == g[1..];
      assert rest[c := g[0].amount][c := g[0].amount + amount] == rest[c := g[0].amount + amount];
    } else {
      var rest := Dictionary(g[1..]);
      var e := g[0].category;
      DictionaryAccumulate(g[1..], c, amount);
      assert Accumulate(g, c, amount)[1..] == Accumulate(g[1..], c, amount);
      assert (c in d) == (c in rest);
      var v := (if c in rest then rest[c] else 0.0) + amount;
      assert rest[c := v][e := g[0].amount] == rest[e := g[0].amount][c := v];
    }
  }

  /** The grouping of one more record is one more Accumulate. */
  lemma GroupedSnoc(s: seq<Transaction>, i: nat)
    requires i < |s|
    ensures Grouped(s[..i + 1]) == Accumulate(Grouped(s[..i]), s[i].category, s[i].amount)
  {
    assert s[..i + 1][..i] == s[..i];
  }

  /** One step of the `forEach`: adding `amount` under `c` in the dictionary
      of `g`, and appending `c` to the keys when it is new, gives the
      dictionary and the keys of `Accumulate(g, c, amount)`. */
  lemma TallyStep(g: seq<CategoryTotal>, c: string, amount: real)
    ensures var d := Dictionary(g);
      && Categories(Accumulate(g, c, amount)) == (if c in d then Categories(g) else Categories(g) + [c])
      && Dictionary(Accumulate(g, c, amount)) == d[c := (if c in d then d[c] else 0.0) + amount]
  {
    DictionaryHas(g, c);
    AccumulateCategories(g, c, amount);
    DictionaryAccumulate(g, c, amount);
  }

  /** The `forEach` over the expense records: the dictionary from category
      to sum is that of the grouped records, and its keys in insertion order
      are the grouped categories. */
  method Tally(spent: seq<Transaction>) returns (keys: seq<string>, stats: map<string, real>)
    ensures keys == Categories(Grouped(spent))
    ensures stats == Dictionary(Grouped(spent))
  {
    stats := map[];
    keys := [];
    ghost var g: seq<CategoryTotal> := [];
    var i := 0;
    assert g == Grouped(spent[..0]) by {
      assert spent[..0] == [];
    }
    while i < |spent|
      invariant i <= |spent|
      invariant g == Grouped(spent[..i])
      invariant keys == Categories(g) && stats == Dictionary(g)
    {
      var e := spent[i];
      // A JavaScript object lists a new key after the existing ones.
      keys := if e.category in stats then keys else keys + [e.category];
      stats := stats[e.category := (if e.category in stats then stats[e.category] else 0.0) + e.amount];
      TallyStep(g, e.category, e.amount);
      GroupedSnoc(spent, i);
      g := Accumulate(g, e.category, e.amount);
      i := i + 1;
    }
    assert spent[..i] == spent;
  }

  /** `Object.entries(stats).map(...)`: one entry per key, in key order, with
      its sum and its share of `total`. */
  method Entries(keys: seq<string>, stats: map<string, real>, ghost g: seq<CategoryTotal>, total: real)
    returns (entries: seq<CategoryStat>)
    requires DistinctCategories(g)
    requires keys == Categories(g) && stats == Dictionary(g)
    ensures entries == WithPercentages(g, total)
  {
    entries := [];
    for k := 0 to |keys|
      invariant |entries| == k
      invariant forall j :: 0 <= j < k ==>
        entries[j] == CategoryStat(g[j].category, g[j].amount, Percentage(g[j].amount, total))
    {
      DictionaryAt(g, k);
      var amount := stats[keys[k]];
      entries := entries + [CategoryStat(keys[k], amount, Percentage(amount, total))];
    }
  }

  class ExpenseTracker {
    /** The transaction log, newest first. */
    var expenses: seq<Transaction>
    /** The add form's fields. `amount` is the amount field as parseFloat
        reads it: None for an empty field or text that is not a number. */
    var description: string
    var amount: Option<real>
    var category: string
    var kind: Kind
    /** The list filter: 'all', 'income' or 'expense'. */
    var filter: string

    ghost predicate Valid()
      reads this
    {
      WellFormed(expenses)
    }

    /** The component's initial state: an empty log, an empty form with
        category 'food' and type 'expense', and the filter 'all'. */
    constructor ()
      ensures Valid()
      ensures expenses == [] && description == "" && amount == None
      ensures category == "food" && kind == Expense && filter == "all"
    {
      expenses := [];
      description := "";
      amount := None;
      category := "food";
      kind := Expense;
      filter := "all";
    }

    /** `addTransaction`, with `now` the clock reading that becomes the id.
        When the guard holds the new record goes to the front of the log and
        the description and amount fields are cleared; otherwise nothing
        changes. */
    method AddTransaction(now: int)
      requires Valid()
      modifies this
      ensures Valid()
      ensures expenses == AddEntry(old(expenses), now, old(description), old(amount), old(category), old(kind))
      ensures Accepts(old(description), old(amount)) ==> description == "" && amount == None
      ensures !Accepts(old(description), old(amount)) ==> description == old(description) && amount == old(amount)
      ensures category == old(category) && kind == old(kind) && filter == old(filter)
    {
      var trimmed := Trim(description);
      if trimmed != [] && amount.Some? && amount.value > 0.0 {
        var entry := Transaction(now, trimmed, amount.value, category, kind);
        assert WellFormed([entry] + expenses) by {
          AddPreservesInvariants(expenses, now, description, amount, category, kind);
        }
        expenses := [entry] + expenses;
        description := "";
        amount := None;
      }
    }

    /** `deleteTransaction(id)`: keeps the records whose id is not `id`. */
    method DeleteTransaction(id: int)
      requires Valid()
      modifies this
      ensures Valid()
      ensures expenses == WithoutId(old(expenses), id)
      ensures description == old(description) && amount == old(amount)
      ensures category == old(category) && kind == old(kind) && filter == old(filter)
    {
      expenses := WithoutId(expenses, id);
    }

    /** `getCategoryStats()`: sums the expense records into a dictionary keyed
        by category, reads it back in insertion order with each entry's share
        of the expense total, and sorts by amount, largest first. */
    method GetCategoryStats() returns (result: seq<CategoryStat>)
      ensures result == CategoryStats(expenses)
    {
      var spent := OfKind(expenses, Expense);
      var keys, stats := Tally(spent);
      GroupedKeys(spent);
      var entries := Entries(keys, stats, Grouped(spent), TotalExpenses(expenses));
      result := SortByAmount(entries);
    }
  }
}
