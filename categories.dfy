/** The `categories` table of ExpenseTracker.js and the label and colour
    lookups the transaction list and the breakdown use. */
module Categories {
  import opened Wrappers

  datatype Category = Category(value: string, caption: string, color: string)

  /** The seven categories the form offers, in the form's order. */
  const Table: seq<Category> := [
    Category("food", "Food", "bg-orange-500"),
    Category("transport", "Transport", "bg-blue-500"),
    Category("entertainment", "Entertainment", "bg-purple-500"),
    Category("bills", "Bills", "bg-red-500"),
    Category("shopping", "Shopping", "bg-pink-500"),
    Category("health", "Health", "bg-green-500"),
    Category("other", "Other", "bg-gray-500")
  ]

  const DefaultLabel: string := "Other"
  const DefaultColor: string := "bg-gray-500"

  /** The position of the first row whose value is `value`; `|table|` when
      there is none. */
  function FindIndex(table: seq<Category>, value: string): (k: nat)
    ensures k <= |table|
    ensures k < |table| ==> table[k].value == value
    ensures forall j :: 0 <= j < k ==> table[j].value != value
  {
    if table == [] then 0
    else if table[0].value == value then 0
    else 1 + FindIndex(table[1..], value)
  }

  /** `table.find(c => c.value === value)`: the first row with that value,
      None when no row has it. */
  function Find(table: seq<Category>, value: string): (r: Option<Category>)
    ensures r.Some? ==> r.value in table && r.value.value == value
    ensures r.None? <==> forall k :: 0 <= k < |table| ==> table[k].value != value
  {
    var k := FindIndex(table, value);
    if k < |table| then Some(table[k]) else None
  }

  /** `getCategoryLabel`: the row's label, or 'Other' when the value is not in
      the table or its label is empty. */
  function Label(value: string): string {
    match Find(Table, value)
    case Some(c) => if c.caption != "" then c.caption else DefaultLabel
    case None => DefaultLabel
  }

  /** `getCategoryColor`: the row's colour, or 'bg-gray-500' when the value
      is not in the table or its colour is empty. */
  function Color(value: string): string {
    match Find(Table, value)
    case Some(c) => if c.color != "" then c.color else DefaultColor
    case None => DefaultColor
  }

  /** Every row of the table is found by its own value: the lookups return
      that row's label and colour. */
  lemma LookupKnown(k: nat)
    requires k < |Table|
    ensures Label(Table[k].value) == Table[k].caption
    ensures Color(Table[k].value) == Table[k].color
  {
    assert FindIndex(Table, Table[k].value) == k by {
      var v := Table[k].value;
      var m := FindIndex(Table, v);
      assert m <= k;
      if m < k {
        DistinctValues(m, k);
        assert false;
      }
    }
  }

  /** No two rows of the table share a value. */
  lemma DistinctValues(i: nat, j: nat)
    requires i < j < |Table|
    ensures Table[i].value != Table[j].value
  {
    assert |Table[i].value| != |Table[j].value| || Table[i].value[0] != Table[j].value[0];
  }

  /** A value outside the table gets the defaults. */
  lemma LookupUnknown(value: string)
    requires forall k :: 0 <= k < |Table| ==> Table[k].value != value
    ensures Label(value) == "Other" && Color(value) == "bg-gray-500"
  {
  }

  /** The label 'Other' comes back exactly for the table's own 'other' row
      and for every value outside the table. */
  lemma LabelOtherIff(value: string)
    ensures Label(value) == "Other" <==>
      value == "other" || forall k :: 0 <= k < |Table| ==> Table[k].value != value
  {
    var k := FindIndex(Table, value);
    if k < |Table| {
      LookupKnown(k);
      CaptionOther(k);
    }
  }

  /** Only the 'other' row is captioned 'Other'. */
  lemma CaptionOther(k: nat)
    requires k < |Table|
    ensures Table[k].caption == "Other" <==> Table[k].value == "other"
  {
  }
}
