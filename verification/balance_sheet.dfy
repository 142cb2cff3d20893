/**
 One section of the balance sheet (src/components/BalanceSheetSection.tsx): the
 colour of a category badge, the grouping of items by subcategory, the section
 total and the per-group subtotals.
 */
module BalanceSheet {
  import opened Common
  import opened Strings

  /** A balance-sheet item as the section reads it; `subcategory` is optional. */
  datatype BalanceItem = BalanceItem(id: string, name: string, amount: Money, category: string,
                                     subcategory: Option<string>)

  /** The badge colours of the ten known categories, keyed by lower-case name. */
  const SubcategoryColors: map<string, string> := map[
    "cash" := "bg-green-100 text-green-800",
    "investments" := "bg-blue-100 text-blue-800",
    "receivables" := "bg-purple-100 text-purple-800",
    "inventory" := "bg-yellow-100 text-yellow-800",
    "equipment" := "bg-orange-100 text-orange-800",
    "loans" := "bg-red-100 text-red-800",
    "payables" := "bg-pink-100 text-pink-800",
    "taxes" := "bg-gray-100 text-gray-800",
    "retained" := "bg-indigo-100 text-indigo-800",
    "capital" := "bg-cyan-100 text-cyan-800"
  ]

  const DefaultColor := "bg-slate-100 text-slate-800"

  /** `getSubcategoryColor`: the colour of the lower-cased category, slate for any other. */
  function SubcategoryColor(category: string): (color: string)
    ensures color == DefaultColor <==> Lower(category) !in SubcategoryColors
    ensures color in SubcategoryColors.Values || color == DefaultColor
  {
    var key := Lower(category);
    if key in SubcategoryColors then SubcategoryColors[key] else DefaultColor
  }

  /** The colour does not depend on letter case. */
  lemma ColorIgnoresCase(category: string)
    ensures SubcategoryColor(Lower(category)) == SubcategoryColor(category)
  {
    LowerIdempotent(category);
  }

  /** Two categories get the same colour only when they name the same known category, or both are unknown. */
  lemma ColorsDistinguishCategories(a: string, b: string)
    ensures SubcategoryColor(a) == SubcategoryColor(b) <==>
            Lower(a) == Lower(b) || (Lower(a) !in SubcategoryColors && Lower(b) !in SubcategoryColors)
  {
  }

  /** `item.subcategory || 'Other'`. */
  function SubKey(item: BalanceItem): (key: string)
    ensures key != ""
    ensures item.subcategory.Some? && item.subcategory.value != "" ==> key == item.subcategory.value
  {
    if item.subcategory.Some? && item.subcategory.value != "" then item.subcategory.value else "Other"
  }

  /** One entry of `groupedItems`: a subcategory and its items in list order. */
  datatype ItemGroup = ItemGroup(key: string, items: seq<BalanceItem>)

  /**
   One step of the grouping `reduce`: append the item to its subcategory's group,
   or open a new group at the end.
   */
  function AddItem(groups: seq<ItemGroup>, item: BalanceItem): (r: seq<ItemGroup>)
    ensures |r| == |groups| || |r| == |groups| + 1
    decreases |groups|
  {
    if |groups| == 0 then [ItemGroup(SubKey(item), [item])]
    else if groups[0].key == SubKey(item) then [groups[0].(items := groups[0].items + [item])] + groups[1..]
    else [groups[0]] + AddItem(groups[1..], item)
  }

  /** `groupedItems`, with groups in the order their subcategories first appear. */
  function GroupItems(items: seq<BalanceItem>): (r: seq<ItemGroup>)
    ensures |r| <= |items|
    ensures |r| == 0 <==> |items| == 0
  {
    if |items| == 0 then [] else AddItem(GroupItems(items[..|items| - 1]), items[|items| - 1])
  }

  /** Some group carries the key. */
  predicate HasKey(groups: seq<ItemGroup>, key: string)
  {
    exists j | 0 <= j < |groups| :: groups[j].key == key
  }

  predicate DistinctKeys(groups: seq<ItemGroup>)
  {
    forall i, j | 0 <= i < j < |groups| :: groups[i].key != groups[j].key
  }

  /** The reference grouping: the items of one subcategory, in list order. */
  function ItemsWithKey(items: seq<BalanceItem>, key: string): seq<BalanceItem>
  {
    Filter(items, (item: BalanceItem) => SubKey(item) == key)
  }

  /** The groups of `items`: distinct keys, each group the items of its key and none empty, every item's key present. */
  predicate GroupsOf(groups: seq<ItemGroup>, items: seq<BalanceItem>)
  {
    DistinctKeys(groups)
    && (forall j | 0 <= j < |groups| :: groups[j].items == ItemsWithKey(items, groups[j].key))
    && (forall j | 0 <= j < |groups| :: |groups[j].items| > 0)
    && (forall i | 0 <= i < |items| :: HasKey(groups, SubKey(items[i])))
  }

  /** Adding an item keeps every key in place and opens a group for a new key at the end. */
  lemma {:induction false} AddItemKeys(groups: seq<ItemGroup>, item: BalanceItem)
    ensures var r := AddItem(groups, item);
            (forall j | 0 <= j < |groups| :: r[j].key == groups[j].key)
            && (HasKey(groups, SubKey(item)) ==> |r| == |groups|)
            && (!HasKey(groups, SubKey(item)) ==> |r| == |groups| + 1 && r[|groups|] == ItemGroup(SubKey(item), [item]))
    decreases |groups|
  {
    if |groups| > 0 {
      var r := AddItem(groups, item);
      if groups[0].key == SubKey(item) {
        assert HasKey(groups, SubKey(item));
      } else {
        var rest := AddItem(groups[1..], item);
        AddItemKeys(groups[1..], item);
        assert r == [groups[0]] + rest;
        assert HasKey(groups, SubKey(item)) ==> HasKey(groups[1..], SubKey(item)) by {
          if HasKey(groups, SubKey(item)) {
            var j :| 0 <= j < |groups| && groups[j].key == SubKey(item);
            assert groups[1..][j - 1].key == SubKey(item);
          }
        }
        assert HasKey(groups[1..], SubKey(item)) ==> HasKey(groups, SubKey(item)) by {
          if HasKey(groups[1..], SubKey(item)) {
            var j :| 0 <= j < |groups[1..]| && groups[1..][j].key == SubKey(item);
            assert groups[j + 1].key == SubKey(item);
          }
        }
      }
    }
  }

  /** With distinct keys, adding an item extends exactly the group of its key. */
  lemma {:induction false} AddItemContents(groups: seq<ItemGroup>, item: BalanceItem)
    requires DistinctKeys(groups)
    ensures forall j | 0 <= j < |groups| ::
              AddItem(groups, item)[j].items == groups[j].items + (if groups[j].key == SubKey(item) then [item] else [])
    decreases |groups|
  {
    if |groups| > 0 {
      var r := AddItem(groups, item);
      if groups[0].key == SubKey(item) {
        assert forall j | 1 <= j < |groups| :: groups[j].key != SubKey(item);
      } else {
        var rest := AddItem(groups[1..], item);
        AddItemContents(groups[1..], item);
        assert r == [groups[0]] + rest;
        assert forall j | 1 <= j < |groups| :: r[j] == rest[j - 1] && groups[j] == groups[1..][j - 1];
      }
    }
  }

  lemma ItemsWithKeySnoc(items: seq<BalanceItem>, item: BalanceItem, key: string)
    ensures ItemsWithKey(items + [item], key) == ItemsWithKey(items, key) + (if SubKey(item) == key then [item] else [])
  {
    FilterAppend(items, [item], (it: BalanceItem) => SubKey(it) == key);
  }

  /** The grouping `reduce` builds exactly the groups of its items. */
  lemma {:induction false} GroupItemsGroupsOf(items: seq<BalanceItem>)
    ensures GroupsOf(GroupItems(items), items)
    decreases |items|
  {
    if |items| > 0 {
      var init := items[..|items| - 1];
      var item := items[|items| - 1];
      assert items == init + [item];
      var prev := GroupItems(init);
      assert GroupItems(items) == AddItem(prev, item);
      GroupItemsGroupsOf(init);
      StepKeepsGroupsOf(prev, init, item);
    }
  }

  lemma StepKeepsGroupsOf(prev: seq<ItemGroup>, init: seq<BalanceItem>, item: BalanceItem)
    requires GroupsOf(prev, init)
    ensures GroupsOf(AddItem(prev, item), init + [item])
  {
    StepDistinct(prev, item);
    StepContents(prev, init, item);
    StepCovers(prev, init, item);
  }

  lemma StepDistinct(prev: seq<ItemGroup>, item: BalanceItem)
    requires DistinctKeys(prev)
    ensures DistinctKeys(AddItem(prev, item))
  {
    var r := AddItem(prev, item);
    AddItemKeys(prev, item);
    forall i, j | 0 <= i < j < |r| ensures r[i].key != r[j].key {
      if j == |prev| {
        assert prev[i].key == r[i].key;
      }
    }
  }

  lemma StepContents(prev: seq<ItemGroup>, init: seq<BalanceItem>, item: BalanceItem)
    requires GroupsOf(prev, init)
    ensures var r := AddItem(prev, item);
            forall j | 0 <= j < |r| :: r[j].items == ItemsWithKey(init + [item], r[j].key) && |r[j].items| > 0
  {
    var r := AddItem(prev, item);
    AddItemKeys(prev, item);
    AddItemContents(prev, item);
    forall j | 0 <= j < |r| ensures r[j].items == ItemsWithKey(init + [item], r[j].key) && |r[j].items| > 0 {
      ItemsWithKeySnoc(init, item, r[j].key);
      if j == |prev| {
        NoneWithKey(init, SubKey(item), prev);
      }
    }
  }

  lemma StepCovers(prev: seq<ItemGroup>, init: seq<BalanceItem>, item: BalanceItem)
    requires forall i | 0 <= i < |init| :: HasKey(prev, SubKey(init[i]))
    ensures var items := init + [item];
            forall i | 0 <= i < |items| :: HasKey(AddItem(prev, item), SubKey(items[i]))
  {
    var r := AddItem(prev, item);
    AddItemKeys(prev, item);
    var items := init + [item];
    forall i | 0 <= i < |items| ensures HasKey(r, SubKey(items[i])) {
      if i < |init| {
        assert items[i] == init[i];
        var j :| 0 <= j < |prev| && prev[j].key == SubKey(init[i]);
        assert r[j].key == SubKey(items[i]);
      } else if HasKey(prev, SubKey(item)) {
        var j :| 0 <= j < |prev| && prev[j].key == SubKey(item);
        assert r[j].key == SubKey(item);
      } else {
        assert r[|prev|].key == SubKey(item);
      }
    }
  }

  /** A key that no group carries has no items. */
  lemma NoneWithKey(items: seq<BalanceItem>, key: string, groups: seq<ItemGroup>)
    requires GroupsOf(groups, items)
    requires !HasKey(groups, key)
    ensures ItemsWithKey(items, key) == []
  {
    assert forall x | x in items :: SubKey(x) != key;
    FilterNone(items, (item: BalanceItem) => SubKey(item) == key);
  }

  function ItemAmounts(items: seq<BalanceItem>): (xs: seq<Money>)
    ensures |xs| == |items| && forall i | 0 <= i < |items| :: xs[i] == items[i].amount
  {
    seq(|items|, i requires 0 <= i < |items| => items[i].amount)
  }

  /** `items.reduce((sum, item) => sum + Number(item.amount), 0)`: the section total (also a group's badge). */
  function Total(items: seq<BalanceItem>): (t: Money)
    ensures items == [] ==> t == 0.0
    ensures (forall i | 0 <= i < |items| :: items[i].amount >= 0.0) ==> t >= 0.0
  {
    var xs := ItemAmounts(items);
    if forall i | 0 <= i < |xs| :: xs[i] >= 0.0 then
      SumNonNegative(xs);
      Sum(xs)
    else
      Sum(xs)
  }

  /** The sum of the groups' badge totals. */
  function GroupsTotal(groups: seq<ItemGroup>): Money
    decreases |groups|
  {
    if |groups| == 0 then 0.0 else Total(groups[0].items) + GroupsTotal(groups[1..])
  }

  lemma TotalSnoc(items: seq<BalanceItem>, item: BalanceItem)
    ensures Total(items + [item]) == Total(items) + item.amount
  {
    assert ItemAmounts(items + [item])[..|items|] == ItemAmounts(items);
  }

  /** Adding an item to the groups raises their combined total by its amount. */
  lemma {:induction false} AddItemTotal(groups: seq<ItemGroup>, item: BalanceItem)
    ensures GroupsTotal(AddItem(groups, item)) == GroupsTotal(groups) + item.amount
    decreases |groups|
  {
    if |groups| == 0 {
      TotalSnoc([], item);
      assert [] + [item] == [item];
    } else if groups[0].key == SubKey(item) {
      TotalSnoc(groups[0].items, item);
      assert AddItem(groups, item)[1..] == groups[1..];
    } else {
      AddItemTotal(groups[1..], item);
      assert AddItem(groups, item)[1..] == AddItem(groups[1..], item);
    }
  }

  /** The subtotals on the group badges add up to the section total. */
  lemma {:induction false} GroupTotalsAddUpToTotal(items: seq<BalanceItem>)
    ensures GroupsTotal(GroupItems(items)) == Total(items)
    decreases |items|
  {
    if |items| > 0 {
      var init := items[..|items| - 1];
      var item := items[|items| - 1];
      assert items == init + [item];
      GroupTotalsAddUpToTotal(init);
      AddItemTotal(GroupItems(init), item);
      TotalSnoc(init, item);
    }
  }

  /** An empty section has no groups and a zero total. */
  lemma EmptySection()
    ensures GroupItems([]) == [] && Total([]) == 0.0
  {
  }
}
