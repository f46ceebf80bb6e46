/** components/ItemList.tsx: the empty state, the grouping reduce, the default
    sort of the entries and the rows rendered for them. */
module ItemList {
  import opened Seqs
  import opened Js
  import opened Types
  import opened Grouping

  /** The category of an item whose aisle is still being worked out. */
  const PendingCategory: string := "Categorizing..."

  /** What a control does when used: the handler it calls and the id it passes. */
  datatype Action = Toggle(id: string) | Delete(id: string) | UpdateQuantity(id: string)

  /** One rendered item (ItemList.tsx:57-116). */
  datatype Row = Row(item: ShoppingItem, pending: bool, onToggle: Action, onDelete: Action, onQuantity: Action)

  /** One category block: its header and its rows (ItemList.tsx:46-119). */
  datatype Section = Section(category: string, pending: bool, rows: seq<Row>)

  /** What the component renders. */
  datatype View = EmptyState | Sections(sections: seq<Section>)

  // ------------------------------------------------------------ the sort

  /** The string the default comparator sees for an entry `[category, catItems]`:
      Array.prototype.toString joins the two with ",", and the items array joins
      one "[object Object]" per item. */
  function EntryString(g: Group): (r: string)
    ensures g.category + "," <= r
  {
    g.category + "," + Join(seq(|g.items|, _ => PlainObjectString), ",")
  }

  /** No entry's string is below an earlier one's. */
  predicate SortedEntries(gs: seq<Group>) {
    forall i, j | 0 <= i < j < |gs| :: !Less(EntryString(gs[j]), EntryString(gs[i]))
  }

  /** `g` inserted before the first entry whose string is above its own: after
      every entry that compares equal, as a stable sort keeps them. */
  function InsertEntry(g: Group, gs: seq<Group>): (r: seq<Group>)
    ensures multiset(r) == multiset(gs) + multiset{g}
    ensures SortedEntries(gs) ==> SortedEntries(r)
  {
    if gs == [] then [g]
    else if Less(EntryString(g), EntryString(gs[0])) then
      InsertedFirst(g, gs);
      [g] + gs
    else
      var rest := InsertEntry(g, gs[1..]);
      InsertedLaterKeeps(g, gs, rest);
      InsertedLater(g, gs, rest);
      [gs[0]] + rest
  }

  lemma InsertedFirst(g: Group, gs: seq<Group>)
    requires gs != [] && Less(EntryString(g), EntryString(gs[0]))
    ensures SortedEntries(gs) ==> SortedEntries([g] + gs)
  {
    if SortedEntries(gs) {
      var r := [g] + gs;
      forall j | 0 < j < |r| ensures !Less(EntryString(r[j]), EntryString(g)) {
        assert r[j] == gs[j - 1];
        var e := EntryString(gs[j - 1]);
        if Less(e, EntryString(g)) {
          LessTransitive(e, EntryString(g), EntryString(gs[0]));
          LessIrreflexive(EntryString(gs[0]));
        }
      }
      forall i, j | 0 < i < j < |r| ensures !Less(EntryString(r[j]), EntryString(r[i])) {
        assert r[i] == gs[i - 1] && r[j] == gs[j - 1];
      }
    }
  }

  /** Inserting into the tail keeps the head and adds `g`. */
  lemma InsertedLaterKeeps(g: Group, gs: seq<Group>, rest: seq<Group>)
    requires gs != [] && multiset(rest) == multiset(gs[1..]) + multiset{g}
    ensures multiset([gs[0]] + rest) == multiset(gs) + multiset{g}
  {
    assert gs == [gs[0]] + gs[1..];
  }

  lemma InsertedLater(g: Group, gs: seq<Group>, rest: seq<Group>)
    requires gs != [] && !Less(EntryString(g), EntryString(gs[0]))
    requires multiset(rest) == multiset(gs[1..]) + multiset{g}
    requires SortedEntries(gs) ==> SortedEntries(gs[1..]) ==> SortedEntries(rest)
    ensures SortedEntries(gs) ==> SortedEntries([gs[0]] + rest)
  {
    if SortedEntries(gs) {
      assert SortedEntries(gs[1..]) by {
        forall i, j | 0 <= i < j < |gs[1..]| ensures !Less(EntryString(gs[1..][j]), EntryString(gs[1..][i])) {
          assert gs[1..][i] == gs[i + 1] && gs[1..][j] == gs[j + 1];
        }
      }
      var r := [gs[0]] + rest;
      forall m | 0 <= m < |rest| ensures !Less(EntryString(rest[m]), EntryString(gs[0])) {
        assert rest[m] in multiset(rest);
        if rest[m] != g {
          assert rest[m] in multiset(gs[1..]);
          var k := IndexIn(rest[m], gs[1..]);
          assert gs[k + 1] == rest[m];
        }
      }
      forall i, j | 0 <= i < j < |r| ensures !Less(EntryString(r[j]), EntryString(r[i])) {
        assert r[j] == rest[j - 1];
        if i > 0 { assert r[i] == rest[i - 1]; }
      }
    }
  }

  /** `.sort()` with no comparator: a stable sort by the entries' strings.  The
      result is a rearrangement of the entries in ascending order. */
  function SortEntries(gs: seq<Group>): (r: seq<Group>)
    ensures multiset(r) == multiset(gs)
    ensures SortedEntries(r)
  {
    if gs == [] then []
    else
      var n := |gs| - 1;
      assert gs == gs[..n] + [gs[n]];
      InsertEntry(gs[n], SortEntries(gs[..n]))
  }

  // -------------------------------------------------------- enum labels

  /** Any two different aisle labels already differ in their first two
      characters. */
  lemma LabelsDifferEarly(a: AisleCategory, b: AisleCategory)
    requires a != b
    ensures |Label(a)| >= 2 && |Label(b)| >= 2
    ensures Label(a)[0] != Label(b)[0] || Label(a)[1] != Label(b)[1]
  {
  }

  /** So no aisle label is a prefix of another. */
  lemma LabelsNotPrefixes(a: AisleCategory, b: AisleCategory)
    requires a != b
    ensures !(Label(a) <= Label(b)) && !(Label(b) <= Label(a))
  {
    LabelsDifferEarly(a, b);
  }

  /** For entries of two different aisles the sort compares just the categories. */
  lemma LabelEntriesCompareByCategory(g: Group, h: Group, a: AisleCategory, b: AisleCategory)
    requires g.category == Label(a) && h.category == Label(b) && a != b
    ensures Less(EntryString(g), EntryString(h)) <==> Less(g.category, h.category)
  {
    LabelsNotPrefixes(a, b);
    EntriesCompareByCategory(g, h);
  }

  /** When neither category is a prefix of the other, neither is the items part. */
  lemma EntriesCompareByCategory(g: Group, h: Group)
    requires !(g.category <= h.category) && !(h.category <= g.category)
    ensures Less(EntryString(g), EntryString(h)) <==> Less(g.category, h.category)
  {
    var x := "," + Join(seq(|g.items|, _ => PlainObjectString), ",");
    var y := "," + Join(seq(|h.items|, _ => PlainObjectString), ",");
    assert EntryString(g) == g.category + x;
    assert EntryString(h) == h.category + y;
    LessIgnoresSuffix(g.category, h.category, x, y);
  }

  /** Sorted entries with distinct aisle-label categories are in strictly
      ascending code-unit order of the category. */
  lemma SortedLabelsAscend(gs: seq<Group>)
    requires SortedEntries(gs)
    requires Distinct(CategoriesOf(gs))
    requires forall j | 0 <= j < |gs| :: IsLabel(gs[j].category)
    ensures forall i, j | 0 <= i < j < |gs| :: Less(gs[i].category, gs[j].category)
  {
    forall i, j | 0 <= i < j < |gs| ensures Less(gs[i].category, gs[j].category) {
      var a :| Label(a) == gs[i].category;
      var b :| Label(b) == gs[j].category;
      assert CategoriesOf(gs)[i] != CategoriesOf(gs)[j];
      LabelEntriesCompareByCategory(gs[i], gs[j], a, b);
      LabelEntriesCompareByCategory(gs[j], gs[i], b, a);
      LessTotal(gs[i].category, gs[j].category);
    }
  }

  // ------------------------------------------------------------ rendering

  /** The row of an item: pending when its category is the marker, and all three
      controls bound to its id. */
  function RowOf(item: ShoppingItem): Row {
    Row(item, item.category == PendingCategory, Toggle(item.id), Delete(item.id), UpdateQuantity(item.id))
  }

  /** The block of one entry. */
  function SectionOf(g: Group): (s: Section)
    ensures s.category == g.category && |s.rows| == |g.items|
    ensures forall k | 0 <= k < |s.rows| :: s.rows[k] == RowOf(g.items[k])
  {
    Section(g.category, g.category == PendingCategory, seq(|g.items|, k requires 0 <= k < |g.items| => RowOf(g.items[k])))
  }

  /** The component for `items`: the empty state, or the sorted entries of the
      reduce (which may throw) rendered block by block. */
  function ViewOf(items: seq<ShoppingItem>): (r: Completion<View>)
    ensures r.TypeErrorThrown? <==> items != [] && HitsPrototype(items)
    ensures r.Normal? ==> (r.value.EmptyState? <==> items == [])
  {
    if items == [] then Normal(EmptyState)
    else match GroupEntries(items)
      case TypeErrorThrown => TypeErrorThrown
      case Normal(gs) =>
        var sorted := SortEntries(gs);
        Normal(Sections(seq(|sorted|, i requires 0 <= i < |sorted| => SectionOf(sorted[i]))))
  }

  /** The component as it runs: the empty check, then the reduce, then the
      sort and the map. */
  method Render(items: seq<ShoppingItem>) returns (v: Completion<View>)
    ensures v == ViewOf(items)
  {
    if |items| == 0 {
      return Normal(EmptyState);
    }
    var grouped := Reduce(items);
    if grouped.TypeErrorThrown? {
      return TypeErrorThrown;
    }
    var sorted := SortEntries(grouped.value);
    v := Normal(Sections(seq(|sorted|, i requires 0 <= i < |sorted| => SectionOf(sorted[i]))));
  }

  // ---------------------------------------------------------- properties

  /** The empty state shows exactly for an empty list, and it shows no sections. */
  lemma EmptyStateIff(items: seq<ShoppingItem>)
    ensures ViewOf(items) == Normal(EmptyState) <==> items == []
  {
  }

  /** The items of the rows of a section. */
  function RowItems(s: Section): (r: seq<ShoppingItem>)
    ensures |r| == |s.rows|
  {
    seq(|s.rows|, k requires 0 <= k < |s.rows| => s.rows[k].item)
  }

  /** The entries behind the sections: a sorted partition of the list, one
      section per entry. */
  lemma SortedSections(items: seq<ShoppingItem>) returns (sorted: seq<Group>)
    requires ViewOf(items).Normal? && items != []
    ensures IsPartition(sorted, items) && SortedEntries(sorted)
    ensures var ss := ViewOf(items).value.sections;
      |ss| == |sorted| && forall j | 0 <= j < |ss| :: ss[j] == SectionOf(sorted[j])
  {
    var gs := GroupEntries(items).value;
    sorted := SortEntries(gs);
    GroupEntriesPartition(items);
    PartitionPermutation(gs, sorted, items);
  }

  /** The sections partition the list: each one shows exactly the items of its
      category in list order and is not empty, no category has two sections, and
      every item's category has one. */
  lemma SectionsPartition(items: seq<ShoppingItem>)
    requires ViewOf(items).Normal? && items != []
    ensures var ss := ViewOf(items).value.sections;
      && (forall j | 0 <= j < |ss| :: RowItems(ss[j]) == Members(items, ss[j].category) && ss[j].rows != [])
      && (forall i, j | 0 <= i < j < |ss| :: ss[i].category != ss[j].category)
      && (forall i | 0 <= i < |items| :: exists j | 0 <= j < |ss| :: ss[j].category == items[i].category)
  {
    var sorted := SortedSections(items);
    var ss := ViewOf(items).value.sections;
    forall j | 0 <= j < |ss| ensures RowItems(ss[j]) == Members(items, ss[j].category) && ss[j].rows != [] {
      assert ss[j] == SectionOf(sorted[j]);
      assert RowItems(ss[j]) == sorted[j].items;
    }
    forall i, j | 0 <= i < j < |ss| ensures ss[i].category != ss[j].category {
      assert CategoriesOf(sorted)[i] != CategoriesOf(sorted)[j];
    }
    forall i | 0 <= i < |items| ensures exists j | 0 <= j < |ss| :: ss[j].category == items[i].category {
      var j :| 0 <= j < |sorted| && CategoriesOf(sorted)[j] == items[i].category;
      assert ss[j].category == items[i].category;
    }
  }

  /** The sections come in the default sort order of their entries' strings; with
      aisle labels as categories that is strictly ascending code-unit order of the
      category names. */
  lemma SectionsOrder(items: seq<ShoppingItem>)
    requires ViewOf(items).Normal? && items != []
    ensures var ss := ViewOf(items).value.sections;
      (forall i | 0 <= i < |items| :: IsLabel(items[i].category)) ==>
        forall i, j | 0 <= i < j < |ss| :: Less(ss[i].category, ss[j].category)
  {
    var sorted := SortedSections(items);
    var ss := ViewOf(items).value.sections;
    if forall i | 0 <= i < |items| :: IsLabel(items[i].category) {
      forall j | 0 <= j < |sorted| ensures IsLabel(sorted[j].category) {
        MemberIsListed(items, sorted[j].category, sorted[j].items[0]);
      }
      SortedLabelsAscend(sorted);
      forall i, j | 0 <= i < j < |ss| ensures Less(ss[i].category, ss[j].category) {
        assert ss[i].category == sorted[i].category && ss[j].category == sorted[j].category;
      }
    }
  }

  /** A section is flagged pending exactly when its category is the marker, and
      then so is each of its rows; every row's controls act on the row's own id. */
  lemma RowsFlagsAndTargets(items: seq<ShoppingItem>)
    requires ViewOf(items).Normal? && items != []
    ensures var ss := ViewOf(items).value.sections;
      forall j, k | 0 <= j < |ss| && 0 <= k < |ss[j].rows| ::
        var row := ss[j].rows[k];
        && (ss[j].pending <==> ss[j].category == PendingCategory)
        && row.pending == ss[j].pending
        && row.onToggle == Toggle(row.item.id)
        && row.onDelete == Delete(row.item.id)
        && row.onQuantity == UpdateQuantity(row.item.id)
  {
    var sorted := SortedSections(items);
    var ss := ViewOf(items).value.sections;
    forall j, k | 0 <= j < |ss| && 0 <= k < |ss[j].rows|
      ensures ss[j].rows[k].pending == ss[j].pending
    {
      var g := sorted[j];
      assert ss[j] == SectionOf(g);
      MemberIsListed(items, g.category, g.items[k]);
    }
  }
}
