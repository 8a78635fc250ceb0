/** The category grouping of `main` in `fire_a_quote.py`: items are grouped
    by their category name in first-seen order, each group keeps its items
    in row order and sums their line totals, and the bill-of-materials total
    is the NaN-skipping sum of every line total. */
module QuoteGroups {
  import opened Strings
  import opened Cells
  import opened QuoteItems

  /** `_cat_name`: the stripped category, or `Uncategorized` when blank. */
  function CategoryName(v: string): (r: string)
    ensures r != []
  {
    var s := Strip(v);
    if s != [] then s else "Uncategorized"
  }

  /** A group name is its own group name: naming twice changes nothing. */
  lemma CategoryNameIdempotent(v: string)
    ensures CategoryName(CategoryName(v)) == CategoryName(v)
    ensures Strip(v) != [] ==> CategoryName(v) == Strip(v)
    ensures Strip(v) == [] ==> CategoryName(v) == "Uncategorized"
  {
    StripIdempotent(v);
    assert Strip("Uncategorized") == "Uncategorized" by {
      StripUnchanged("Uncategorized");
    }
  }

  function CatOf(it: Item): string {
    CategoryName(it.category)
  }

  /** The category names in the order they are first seen (the first loop,
      lines 320-326). */
  function Categories(items: seq<Item>): (r: seq<string>)
    ensures forall p, q :: 0 <= p < q < |r| ==> r[p] != r[q]
  {
    if items == [] then []
    else
      var cats := Categories(items[..|items| - 1]);
      var c := CatOf(items[|items| - 1]);
      if c in cats then cats else cats + [c]
  }

  /** The items of category `c`, in row order. */
  function GroupItems(items: seq<Item>, c: string): seq<Item> {
    if items == [] then []
    else
      var last := items[|items| - 1];
      GroupItems(items[..|items| - 1], c) + if CatOf(last) == c then [last] else []
  }

  /** The first loop (lines 320-326): each category name, the first time
      it is seen, is appended to the ordered list and added to the seen set. */
  method OrderCategories(items: seq<Item>) returns (ordered: seq<string>)
    ensures ordered == Categories(items)
  {
    ordered := [];
    var seen: set<string> := {};
    var i := 0;
    while i < |items|
      invariant 0 <= i <= |items|
      invariant ordered == Categories(items[..i])
      invariant seen == set c | c in ordered
    {
      var c := CategoryName(items[i].category);
      var next := items[..i + 1];
      assert next[..|next| - 1] == items[..i] && next[|next| - 1] == items[i];
      assert c in seen <==> c in ordered;
      assert Categories(next) == if c in ordered then ordered else ordered + [c];
      if c !in seen {
        assert (set x | x in ordered + [c]) == seen + {c};
        ordered := ordered + [c];
        seen := seen + {c};
      }
      i := i + 1;
    }
    assert items[..i] == items;
  }

  /** `0.0` plus each line total in turn (`g["subtotal"] += ...`). */
  function Total(s: seq<Item>): Float {
    if s == [] then Finite(0.0) else FAdd(Total(s[..|s| - 1]), s[|s| - 1].subtotal)
  }

  datatype Group = Group(category: string, items: seq<Item>, subtotal: Float)

  function GroupOf(items: seq<Item>, c: string): Group {
    Group(c, GroupItems(items, c), Total(GroupItems(items, c)))
  }

  /** One group per name in `cats`, in that order. */
  function GroupsFor(cats: seq<string>, items: seq<Item>): (r: seq<Group>)
    ensures |r| == |cats|
    ensures forall p :: 0 <= p < |cats| ==> r[p].category == cats[p]
  {
    if cats == [] then [] else GroupsFor(cats[..|cats| - 1], items) + [GroupOf(items, cats[|cats| - 1])]
  }

  /** `items_by_category`: one group per category, in first-seen order. */
  function Groups(items: seq<Item>): (r: seq<Group>)
    ensures |r| == |Categories(items)|
    ensures forall p :: 0 <= p < |r| ==> r[p].category == Categories(items)[p]
  {
    GroupsFor(Categories(items), items)
  }

  /** A line total as `np.nansum` counts it: NaN counts as 0. */
  function NanValue(it: Item): real {
    if it.subtotal.Finite? then it.subtotal.value else 0.0
  }

  function WeightSum(s: seq<Item>, w: Item -> real): real {
    if s == [] then 0.0 else WeightSum(s[..|s| - 1], w) + w(s[|s| - 1])
  }

  /** Lines 311-312: `bom_total`. */
  function BomTotal(items: seq<Item>): real {
    if items == [] then 0.0 else WeightSum(items, NanValue)
  }

  // ---------------------------------------------------------------- the block

  /** Lines 315-338: group the items by category and total them. */
  method GroupByCategory(items: seq<Item>) returns (groups: seq<Group>, bomTotal: real)
    ensures groups == Groups(items)
    ensures bomTotal == BomTotal(items)
  {
    bomTotal := if items != [] then WeightSum(items, NanValue) else 0.0;
    var ordered := OrderCategories(items);
    var byName := StartGroups(ordered);
    byName := FillGroups(items, ordered, byName);
    groups := GroupsInOrder(items, ordered, byName);
  }

  /** Line 338, `list(groups.values())`: the groups in the order their
      categories were first seen. */
  method GroupsInOrder(items: seq<Item>, ordered: seq<string>, byName: map<string, Group>)
    returns (groups: seq<Group>)
    requires forall c :: c in ordered ==> c in byName && byName[c] == GroupOf(items, c)
    ensures groups == GroupsFor(ordered, items)
  {
    groups := [];
    var k := 0;
    while k < |ordered|
      invariant 0 <= k <= |ordered|
      invariant groups == GroupsFor(ordered[..k], items)
    {
      var next := ordered[..k + 1];
      assert next[..k] == ordered[..k] && next[k] == ordered[k];
      assert GroupsFor(next, items) == GroupsFor(ordered[..k], items) + [GroupOf(items, ordered[k])];
      groups := groups + [byName[ordered[k]]];
      k := k + 1;
    }
    assert ordered[..k] == ordered;
  }

  /** Lines 328-330: an empty group with a zero subtotal per category. */
  method StartGroups(ordered: seq<string>) returns (byName: map<string, Group>)
    ensures byName.Keys == set c | c in ordered
    ensures forall c :: c in byName ==> byName[c] == Group(c, [], Finite(0.0))
  {
    byName := map[];
    var k := 0;
    while k < |ordered|
      invariant 0 <= k <= |ordered|
      invariant byName.Keys == set c | c in ordered[..k]
      invariant forall c :: c in byName ==> byName[c] == Group(c, [], Finite(0.0))
    {
      byName := byName[ordered[k] := Group(ordered[k], [], Finite(0.0))];
      assert ordered[..k + 1] == ordered[..k] + [ordered[k]];
      k := k + 1;
    }
    assert ordered[..k] == ordered;
  }

  /** Lines 332-336: each item is appended to its category's group and its
      line total added to the group's subtotal. */
  method FillGroups(items: seq<Item>, ordered: seq<string>, start: map<string, Group>)
    returns (byName: map<string, Group>)
    requires ordered == Categories(items)
    requires start.Keys == set c | c in ordered
    requires forall c :: c in start ==> start[c] == Group(c, [], Finite(0.0))
    ensures byName.Keys == start.Keys
    ensures forall c :: c in byName ==> byName[c] == GroupOf(items, c)
  {
    CategoriesCover(items);
    byName := start;
    var i := 0;
    while i < |items|
      invariant 0 <= i <= |items|
      invariant byName.Keys == start.Keys
      invariant forall c :: c in byName ==> byName[c] == GroupOf(items[..i], c)
    {
      var c := CategoryName(items[i].category);
      assert c in ordered;
      var g := byName[c];
      byName := byName[c := Group(c, g.items + [items[i]], FAdd(g.subtotal, items[i].subtotal))];
      forall d | d in byName
        ensures byName[d] == GroupOf(items[..i + 1], d)
      {
        GroupStep(items, i, d);
      }
      i := i + 1;
    }
    assert items[..i] == items;
  }

  /** `g["items"].append(it)` and `g["subtotal"] += it["subtotal"]` on the
      group of the item's category; other groups are left alone. */
  function AddToGroup(g: Group, x: Item): Group {
    if CatOf(x) == g.category then Group(g.category, g.items + [x], FAdd(g.subtotal, x.subtotal)) else g
  }

  /** Adding item `i` to the groups of the items before it gives the
      groups of the items up to it. */
  lemma GroupStep(items: seq<Item>, i: nat, c: string)
    requires i < |items|
    ensures GroupOf(items[..i + 1], c) == AddToGroup(GroupOf(items[..i], c), items[i])
  {
    var s := items[..i + 1];
    var before := GroupItems(items[..i], c);
    assert s[..i] == items[..i] && s[i] == items[i];
    GroupItemsSnoc(s, c);
    if CatOf(items[i]) == c {
      var t := before + [items[i]];
      assert GroupItems(s, c) == t;
      assert t[..|t| - 1] == before && t[|t| - 1] == items[i];
      assert Total(t) == FAdd(Total(before), items[i].subtotal);
    } else {
      assert GroupItems(s, c) == before + [];
      assert before + [] == before;
    }
  }

  // ---------------------------------------------------------------- categories

  /** A name is a category exactly when some item carries it. */
  lemma {:induction false} CategoriesCover(items: seq<Item>)
    ensures forall c :: c in Categories(items) <==> exists i :: 0 <= i < |items| && CatOf(items[i]) == c
  {
    forall c | c in Categories(items)
      ensures exists i :: 0 <= i < |items| && CatOf(items[i]) == c
    {
      CategoryCarried(items, c);
    }
    forall c | exists i :: 0 <= i < |items| && CatOf(items[i]) == c
      ensures c in Categories(items)
    {
      var i :| 0 <= i < |items| && CatOf(items[i]) == c;
      CarriedCategory(items, i);
    }
  }

  lemma {:induction false} CategoryCarried(items: seq<Item>, c: string)
    requires c in Categories(items)
    ensures exists i :: 0 <= i < |items| && CatOf(items[i]) == c
  {
    var init := items[..|items| - 1];
    CategoriesGrow(items);
    if c in Categories(init) {
      CategoryCarried(init, c);
      var i :| 0 <= i < |init| && CatOf(init[i]) == c;
      assert items[i] == init[i];
    }
  }

  lemma {:induction false} CarriedCategory(items: seq<Item>, i: nat)
    requires i < |items|
    ensures CatOf(items[i]) in Categories(items)
  {
    var init := items[..|items| - 1];
    CategoriesGrow(items);
    if i < |init| {
      assert items[i] == init[i];
      CarriedCategory(init, i);
    }
  }

  /** One more item keeps the categories seen so far and adds its own,
      and nothing else. */
  lemma CategoriesGrow(items: seq<Item>)
    requires items != []
    ensures forall c :: c in Categories(items) <==>
      c in Categories(items[..|items| - 1]) || c == CatOf(items[|items| - 1])
  {
    var init := items[..|items| - 1];
    var last := CatOf(items[|items| - 1]);
    assert Categories(items) == if last in Categories(init) then Categories(init) else Categories(init) + [last];
  }

  /** First-seen order: the categories of the first `k` items come first,
      in the same order, before any category first seen later. */
  lemma {:induction false} CategoriesPrefix(items: seq<Item>, k: nat)
    requires k <= |items|
    ensures Categories(items[..k]) <= Categories(items)
  {
    if k < |items| {
      var init := items[..|items| - 1];
      assert init[..k] == items[..k];
      CategoriesPrefix(init, k);
    } else {
      assert items[..k] == items;
    }
  }

  /** Every item is in the group of its category, and a group holds only
      items of its own category. */
  lemma {:induction false} GroupItemsMembers(items: seq<Item>, c: string)
    ensures forall k :: 0 <= k < |GroupItems(items, c)| ==> CatOf(GroupItems(items, c)[k]) == c
    ensures forall i :: 0 <= i < |items| && CatOf(items[i]) == c ==> items[i] in GroupItems(items, c)
  {
    if items != [] {
      var init := items[..|items| - 1];
      GroupItemsMembers(init, c);
      forall i | 0 <= i < |items| && CatOf(items[i]) == c
        ensures items[i] in GroupItems(items, c)
      {
        if i < |init| {
          assert items[i] == init[i];
        }
      }
    }
  }

  /** No category yet seen means no items in its group. */
  lemma {:induction false} UnseenGroupEmpty(items: seq<Item>, c: string)
    requires c !in Categories(items)
    ensures GroupItems(items, c) == []
  {
    CategoriesCover(items);
    if items != [] {
      var init := items[..|items| - 1];
      CategoriesCover(init);
      assert c !in Categories(init);
      UnseenGroupEmpty(init, c);
    }
  }

  /** Every item lands in exactly one group: the groups have distinct
      names, the item's group is among them and holds it, and no other
      group can hold it. */
  lemma ExactlyOneGroup(items: seq<Item>, i: nat)
    requires i < |items|
    ensures forall p, q :: 0 <= p < q < |Groups(items)| ==> Groups(items)[p].category != Groups(items)[q].category
    ensures exists p :: (0 <= p < |Groups(items)| && Groups(items)[p].category == CatOf(items[i])
      && items[i] in Groups(items)[p].items)
    ensures forall p :: 0 <= p < |Groups(items)| && items[i] in Groups(items)[p].items ==>
      Groups(items)[p].category == CatOf(items[i])
  {
    var cats := Categories(items);
    var gs := Groups(items);
    CategoriesCover(items);
    assert CatOf(items[i]) in cats;
    var p :| 0 <= p < |cats| && cats[p] == CatOf(items[i]);
    GroupsForAt(cats, items, p);
    GroupItemsMembers(items, CatOf(items[i]));
    forall q | 0 <= q < |gs| && items[i] in gs[q].items
      ensures gs[q].category == CatOf(items[i])
    {
      GroupsForAt(cats, items, q);
      GroupItemsMembers(items, cats[q]);
    }
  }

  lemma {:induction false} GroupsForAt(cats: seq<string>, items: seq<Item>, p: nat)
    requires p < |cats|
    ensures GroupsFor(cats, items)[p] == GroupOf(items, cats[p])
  {
    if p < |cats| - 1 {
      GroupsForAt(cats[..|cats| - 1], items, p);
    }
  }

  // ---------------------------------------------------------------- totals

  /** The sum over groups named by `cats` of `w` summed within each group. */
  function CatSum(cats: seq<string>, items: seq<Item>, w: Item -> real): real {
    if cats == [] then 0.0
    else CatSum(cats[..|cats| - 1], items, w) + WeightSum(GroupItems(items, cats[|cats| - 1]), w)
  }

  lemma WeightSumSnoc(s: seq<Item>, x: Item, w: Item -> real)
    ensures WeightSum(s + [x], w) == WeightSum(s, w) + w(x)
  {
    assert (s + [x])[..|s|] == s;
  }

  lemma GroupItemsSnoc(items: seq<Item>, c: string)
    requires items != []
    ensures var x := items[|items| - 1];
      GroupItems(items, c) == GroupItems(items[..|items| - 1], c) + if CatOf(x) == c then [x] else []
  {
  }

  /** One more item adds its weight to its own group's sum, if that group
      is among `cats`. */
  lemma {:induction false} CatSumStep(cats: seq<string>, items: seq<Item>, w: Item -> real)
    requires items != []
    requires forall p, q :: 0 <= p < q < |cats| ==> cats[p] != cats[q]
    ensures var x := items[|items| - 1];
      CatSum(cats, items, w) == CatSum(cats, items[..|items| - 1], w) + if CatOf(x) in cats then w(x) else 0.0
  {
    var init := items[..|items| - 1];
    var x := items[|items| - 1];
    if cats != [] {
      var rest := cats[..|cats| - 1];
      var d := cats[|cats| - 1];
      assert forall p :: 0 <= p < |rest| ==> rest[p] == cats[p];
      CatSumStep(rest, items, w);
      GroupItemsSnoc(items, d);
      var before := WeightSum(GroupItems(init, d), w);
      if CatOf(x) == d {
        WeightSumSnoc(GroupItems(init, d), x, w);
        assert WeightSum(GroupItems(items, d), w) == before + w(x);
        assert CatOf(x) !in rest;
      } else {
        assert GroupItems(items, d) == GroupItems(init, d);
        assert CatOf(x) in cats <==> CatOf(x) in rest;
      }
    }
  }

  /** Summing group by group gives the sum over all items. */
  lemma {:induction false} CatSumIsWeightSum(items: seq<Item>, w: Item -> real)
    ensures CatSum(Categories(items), items, w) == WeightSum(items, w)
  {
    if items != [] {
      var init := items[..|items| - 1];
      var x := items[|items| - 1];
      var cats := Categories(init);
      CatSumIsWeightSum(init, w);
      CatSumStep(cats, items, w);
      assert CatSum(cats, items, w) == WeightSum(init, w) + if CatOf(x) in cats then w(x) else 0.0;
      if CatOf(x) !in cats {
        var cats' := cats + [CatOf(x)];
        assert Categories(items) == cats';
        assert cats'[..|cats'| - 1] == cats;
        UnseenGroupEmpty(init, CatOf(x));
        GroupItemsSnoc(items, CatOf(x));
        assert GroupItems(items, CatOf(x)) == [x];
        assert [x][..0] == [];
        assert WeightSum([x], w) == w(x);
      }
    }
  }

  /** Each item is in one group: the group sizes add up to the number of
      items. */
  lemma GroupSizes(items: seq<Item>)
    ensures CatSum(Categories(items), items, _ => 1.0) == |items| as real
  {
    CatSumIsWeightSum(items, _ => 1.0);
    WeightSumOne(items);
  }

  lemma {:induction false} WeightSumOne(s: seq<Item>)
    ensures WeightSum(s, _ => 1.0) == |s| as real
  {
    if s != [] {
      WeightSumOne(s[..|s| - 1]);
    }
  }

  predicate NoNaN(s: seq<Item>) {
    forall k :: 0 <= k < |s| ==> s[k].subtotal.Finite?
  }

  /** A running total is NaN exactly when some line total is NaN;
      otherwise it is the plain sum. */
  lemma {:induction false} TotalOf(s: seq<Item>)
    ensures Total(s).NotANumber? <==> !NoNaN(s)
    ensures NoNaN(s) ==> Total(s) == Finite(WeightSum(s, NanValue))
  {
    if s != [] {
      var init := s[..|s| - 1];
      TotalOf(init);
      assert forall k :: 0 <= k < |init| ==> init[k] == s[k];
    }
  }

  /** The sum of the group totals, as `nansum` would add them. */
  function GroupsSum(gs: seq<Group>): real {
    if gs == [] then 0.0
    else GroupsSum(gs[..|gs| - 1]) + (if gs[|gs| - 1].subtotal.Finite? then gs[|gs| - 1].subtotal.value else 0.0)
  }

  /** Each group's subtotal is the sum of its items' line totals, and when
      no line total is NaN the group subtotals add up to `bom_total`. */
  lemma GroupTotals(items: seq<Item>)
    requires NoNaN(items)
    ensures forall p :: 0 <= p < |Groups(items)| ==>
      Groups(items)[p].subtotal == Finite(WeightSum(Groups(items)[p].items, NanValue))
    ensures GroupsSum(Groups(items)) == BomTotal(items)
  {
    var cats := Categories(items);
    forall p | 0 <= p < |cats|
      ensures Groups(items)[p].subtotal == Finite(WeightSum(Groups(items)[p].items, NanValue))
    {
      GroupsForAt(cats, items, p);
      GroupItemsNoNaN(items, cats[p]);
      TotalOf(GroupItems(items, cats[p]));
    }
    GroupsSumIsCatSum(cats, items);
    CatSumIsWeightSum(items, NanValue);
  }

  lemma {:induction false} GroupItemsNoNaN(items: seq<Item>, c: string)
    requires NoNaN(items)
    ensures NoNaN(GroupItems(items, c))
  {
    if items != [] {
      var init := items[..|items| - 1];
      assert forall k :: 0 <= k < |init| ==> init[k] == items[k];
      GroupItemsNoNaN(init, c);
    }
  }

  lemma {:induction false} GroupsSumIsCatSum(cats: seq<string>, items: seq<Item>)
    requires NoNaN(items)
    ensures GroupsSum(GroupsFor(cats, items)) == CatSum(cats, items, NanValue)
  {
    if cats != [] {
      var rest := cats[..|cats| - 1];
      GroupsSumIsCatSum(rest, items);
      var gs := GroupsFor(cats, items);
      assert gs[..|gs| - 1] == GroupsFor(rest, items);
      GroupItemsNoNaN(items, cats[|cats| - 1]);
      TotalOf(GroupItems(items, cats[|cats| - 1]));
    }
  }

  lemma {:induction false} WeightSumAppend(a: seq<Item>, b: seq<Item>, w: Item -> real)
    ensures WeightSum(a + b, w) == WeightSum(a, w) + WeightSum(b, w)
  {
    if b == [] {
      assert a + b == a;
    } else {
      var b' := b[..|b| - 1];
      assert (a + b)[..|a + b| - 1] == a + b';
      assert (a + b)[|a + b| - 1] == b[|b| - 1];
      WeightSumAppend(a, b', w);
    }
  }

  /** A NaN line total makes its group's subtotal NaN, while `bom_total`
      skips it: the grand total is what it would be without that item. */
  lemma NaNGroup(items: seq<Item>, i: nat)
    requires i < |items| && items[i].subtotal.NotANumber?
    ensures GroupOf(items, CatOf(items[i])).subtotal.NotANumber?
    ensures BomTotal(items) == BomTotal(items[..i] + items[i + 1..])
  {
    assert items == items[..i] + [items[i]] + items[i + 1..];
    WeightSumAppend(items[..i] + [items[i]], items[i + 1..], NanValue);
    WeightSumAppend(items[..i], [items[i]], NanValue);
    WeightSumAppend(items[..i], items[i + 1..], NanValue);
    assert WeightSum([items[i]], NanValue) == 0.0;
    assert WeightSum([], NanValue) == 0.0;
    GroupItemsMembers(items, CatOf(items[i]));
    var s := GroupItems(items, CatOf(items[i]));
    var k :| 0 <= k < |s| && s[k] == items[i];
    TotalOf(s);
  }
}
