/** The `items.reduce(...)` that both components/SendPanel.tsx and
    components/ItemList.tsx use to bucket the list by category into a plain
    object `{} as Record<string, ShoppingItem[]>`, followed by `Object.entries`.

    Two JavaScript facts shape the result.  A plain object inherits the
    Object.prototype members, so a category such as "toString" finds a function
    where the code expects an array and `push` throws a TypeError.  And
    `Object.entries` lists array-index keys ("0", "42", ...) first, ascending by
    value, and every other key in the order it was created -- here, the order in
    which each category first occurs. */
module Grouping {
  import opened Seqs
  import opened Js
  import opened Types

  /** One `[category, catItems]` entry. */
  datatype Group = Group(category: string, items: seq<ShoppingItem>)

  /** The test `item.category === k`. */
  function InCategory(k: string): ShoppingItem -> bool {
    (item: ShoppingItem) => item.category == k
  }

  /** The items of category `k`, in list order: what `acc[k]` holds once every
      item has been pushed.  (Being a filter of the list, they keep its order.) */
  function Members(items: seq<ShoppingItem>, k: string): seq<ShoppingItem> {
    Filter(items, InCategory(k))
  }

  /** Appending one item adds it to its own category and to no other. */
  lemma MembersAppend(items: seq<ShoppingItem>, item: ShoppingItem, k: string)
    ensures Members(items + [item], k)
         == Members(items, k) + (if item.category == k then [item] else [])
  {
    FilterConcat(items, [item], InCategory(k));
    assert [item][1..] == [];
  }

  /** A category no item has has no members. */
  lemma MembersOfAbsent(items: seq<ShoppingItem>, k: string)
    requires forall i | 0 <= i < |items| :: items[i].category != k
    ensures Members(items, k) == []
  {
    FilterDropsAll(items, InCategory(k));
  }

  /** How often an item occurs among the members of `k`. */
  lemma MembersCount(items: seq<ShoppingItem>, k: string, x: ShoppingItem)
    ensures multiset(Members(items, k))[x] == if x.category == k then multiset(items)[x] else 0
  {
    FilterCounts(items, InCategory(k));
  }

  /** Some item has category `k`. */
  predicate HasCategory(items: seq<ShoppingItem>, k: string) {
    exists i | 0 <= i < |items| :: items[i].category == k
  }

  /** A member of a category is an item of the list with that category. */
  lemma MemberIsListed(items: seq<ShoppingItem>, k: string, x: ShoppingItem)
    requires x in Members(items, k)
    ensures x.category == k && exists i | 0 <= i < |items| :: items[i] == x
  {
  }

  /** A category some item has has members. */
  lemma MembersOfPresent(items: seq<ShoppingItem>, k: string)
    requires HasCategory(items, k)
    ensures Members(items, k) != []
  {
    var i :| 0 <= i < |items| && items[i].category == k;
    assert items[i] in items;
    MembersCount(items, k, items[i]);
  }

  /** The keys of the accumulator in creation order: each category once, where it
      first occurs. */
  function Keys(items: seq<ShoppingItem>): seq<string> {
    if items == [] then []
    else
      var ks := Keys(items[..|items| - 1]);
      var c := items[|items| - 1].category;
      if c in ks then ks else ks + [c]
  }

  /** The keys are distinct and are exactly the categories of the items. */
  lemma {:induction false} KeysAreTheCategories(items: seq<ShoppingItem>)
    ensures Distinct(Keys(items))
    ensures forall i | 0 <= i < |items| :: items[i].category in Keys(items)
    ensures forall k | k in Keys(items) :: HasCategory(items, k)
  {
    if items != [] {
      var n := |items| - 1;
      var prefix, c := items[..n], items[n].category;
      var ks := Keys(prefix);
      KeysAreTheCategories(prefix);
      assert Keys(items) == if c in ks then ks else ks + [c];
      forall i | 0 <= i < |items| ensures items[i].category in Keys(items) {
        if i < n {
          assert items[i] == prefix[i];
        }
      }
      forall k | k in Keys(items) ensures HasCategory(items, k) {
        if k == c {
          assert items[n].category == k;
        } else {
          var i :| 0 <= i < |prefix| && prefix[i].category == k;
          assert items[i] == prefix[i];
        }
      }
    }
  }

  /** Keys are only ever appended: the keys created by a prefix of the list are a
      prefix of all the keys. */
  lemma {:induction false} KeysGrowByAppending(items: seq<ShoppingItem>, n: nat)
    requires n <= |items|
    ensures Keys(items[..n]) <= Keys(items)
  {
    if n < |items| {
      var prefix := items[..|items| - 1];
      assert prefix[..n] == items[..n];
      KeysGrowByAppending(prefix, n);
    } else {
      assert items[..n] == items;
    }
  }

  /** Categories come in order of first occurrence: when item `j` is the first of
      its category and item `i` comes earlier with another category, the key of
      `i` precedes the key of `j`. */
  lemma KeysInFirstOccurrenceOrder(items: seq<ShoppingItem>, i: nat, j: nat)
    requires i < j < |items|
    requires forall m | 0 <= m < j :: items[m].category != items[j].category
    ensures exists a, b | 0 <= a < b < |Keys(items)| ::
      Keys(items)[a] == items[i].category && Keys(items)[b] == items[j].category
  {
    var ks := Keys(items);
    var before := Keys(items[..j]);
    KeysGrowByAppending(items, j);
    KeysAreTheCategories(items);
    KeysAreTheCategories(items[..j]);
    assert items[..j][i] == items[i];
    var a :| 0 <= a < |before| && before[a] == items[i].category;
    assert items[j].category !in before by {
      forall m | 0 <= m < j ensures items[..j][m].category != items[j].category {
        assert items[..j][m] == items[m];
      }
    }
    var b :| 0 <= b < |ks| && ks[b] == items[j].category;
    assert forall m | 0 <= m < |before| :: ks[m] == before[m];
    assert ks[a] == before[a];
  }

  // ------------------------------------------------------------- the reduce

  /** Some item's category names an inherited Object.prototype member. */
  predicate HitsPrototype(items: seq<ShoppingItem>) {
    exists i | 0 <= i < |items| :: items[i].category in ObjectPrototypeNames
  }

  /** The entries `[k, acc[k]]` for the keys `ks`. */
  function GroupsOf(items: seq<ShoppingItem>, ks: seq<string>): (r: seq<Group>)
    ensures |r| == |ks|
    ensures forall j | 0 <= j < |r| :: r[j].category == ks[j] && r[j].items == Members(items, ks[j])
  {
    seq(|ks|, j requires 0 <= j < |ks| => Group(ks[j], Members(items, ks[j])))
  }

  /** The accumulator object after the first `n` items: its own properties, in
      creation order, each category with the items pushed so far. */
  function Accumulated(items: seq<ShoppingItem>, n: nat): (acc: seq<Group>)
    requires n <= |items|
    ensures |acc| == |Keys(items[..n])|
  {
    GroupsOf(items[..n], Keys(items[..n]))
  }

  /** `Object.entries(items.reduce(...))`: a TypeError when a category names an
      Object.prototype member, otherwise each category with its items, listed in
      `Object.entries` order. */
  function GroupEntries(items: seq<ShoppingItem>): Completion<seq<Group>> {
    if HitsPrototype(items) then TypeErrorThrown
    else Normal(ObjectEntries(GroupsOf(items, Keys(items))))
  }

  /** One more item extends the keys by its category if that is new. */
  lemma KeysStep(items: seq<ShoppingItem>, i: nat)
    requires i < |items|
    ensures Keys(items[..i + 1]) == if items[i].category in Keys(items[..i])
      then Keys(items[..i]) else Keys(items[..i]) + [items[i].category]
  {
    assert items[..i + 1][..i] == items[..i];
  }

  /** Property lookup `acc[k]` among own properties: the position of the entry
      for `k`, or |acc| when there is none. */
  function Lookup(acc: seq<Group>, k: string): (r: nat)
    ensures r <= |acc|
    ensures r < |acc| ==> acc[r].category == k
    ensures r == |acc| ==> forall j | 0 <= j < |acc| :: acc[j].category != k
  {
    if acc == [] then 0
    else if acc[0].category == k then 0
    else 1 + Lookup(acc[1..], k)
  }

  /** An item with a category not seen before creates the entry `[cat, [item]]`
      at the end. */
  lemma PushNew(items: seq<ShoppingItem>, n: nat)
    requires n < |items|
    requires items[n].category !in Keys(items[..n])
    ensures Accumulated(items, n + 1)
         == Accumulated(items, n) + [Group(items[n].category, [items[n]])]
  {
    var ks := Keys(items[..n]);
    var c := items[n].category;
    var pre, post := items[..n], items[..n + 1];
    KeysStep(items, n);
    assert post == pre + [items[n]];
    forall j | 0 <= j < |ks| ensures Members(post, ks[j]) == Members(pre, ks[j]) {
      MembersAppend(pre, items[n], ks[j]);
    }
    MembersAppend(pre, items[n], c);
    FreshKeyHasNoMembers(pre, c);
    assert Members(post, c) == [items[n]];
    GroupsOfSnoc(pre, post, ks, c);
    assert Keys(post) == ks + [c];
    assert Accumulated(items, n + 1) == GroupsOf(post, ks + [c]);
  }

  /** Adding a key at the end adds its entry at the end, when the other keys'
      members agree. */
  lemma GroupsOfSnoc(pre: seq<ShoppingItem>, post: seq<ShoppingItem>, ks: seq<string>, c: string)
    requires forall j | 0 <= j < |ks| :: Members(post, ks[j]) == Members(pre, ks[j])
    ensures GroupsOf(post, ks + [c]) == GroupsOf(pre, ks) + [Group(c, Members(post, c))]
  {
    var a, b := GroupsOf(post, ks + [c]), GroupsOf(pre, ks) + [Group(c, Members(post, c))];
    forall j | 0 <= j < |a| ensures a[j] == b[j] {
      if j < |ks| {
        assert (ks + [c])[j] == ks[j];
      }
    }
  }

  /** An item whose category has an entry is pushed onto that entry's items. */
  lemma PushExisting(items: seq<ShoppingItem>, n: nat, idx: nat)
    requires n < |items|
    requires idx < |Keys(items[..n])| && Keys(items[..n])[idx] == items[n].category
    ensures Accumulated(items, n + 1)
         == Accumulated(items, n)[idx := Group(items[n].category, Accumulated(items, n)[idx].items + [items[n]])]
  {
    var ks := Keys(items[..n]);
    var pre, post := items[..n], items[..n + 1];
    KeysStep(items, n);
    assert Keys(post) == ks;
    KeysDistinct(pre);
    assert post == pre + [items[n]];
    GroupsOfPush(pre, ks, idx, items[n]);
    assert Accumulated(items, n + 1) == GroupsOf(pre + [items[n]], ks);
  }

  /** No category is a key twice. */
  lemma KeysDistinct(items: seq<ShoppingItem>)
    ensures Distinct(Keys(items))
  {
    KeysAreTheCategories(items);
  }

  /** Pushing an item of the category `ks[idx]` updates that key's entry only. */
  lemma GroupsOfPush(pre: seq<ShoppingItem>, ks: seq<string>, idx: nat, x: ShoppingItem)
    requires idx < |ks| && Distinct(ks) && x.category == ks[idx]
    ensures GroupsOf(pre + [x], ks)
         == GroupsOf(pre, ks)[idx := Group(ks[idx], GroupsOf(pre, ks)[idx].items + [x])]
  {
    var a := GroupsOf(pre + [x], ks);
    var b := GroupsOf(pre, ks)[idx := Group(ks[idx], GroupsOf(pre, ks)[idx].items + [x])];
    forall j | 0 <= j < |a| ensures a[j] == b[j] {
      MembersAppend(pre, x, ks[j]);
      if j != idx {
        assert ks[j] != ks[idx];
        assert Members(pre, ks[j]) + [] == Members(pre, ks[j]);
      }
    }
  }

  /** A category that is not yet a key has no members yet. */
  lemma FreshKeyHasNoMembers(items: seq<ShoppingItem>, k: string)
    requires k !in Keys(items)
    ensures Members(items, k) == []
  {
    KeysAreTheCategories(items);
    MembersOfAbsent(items, k);
  }

  /** An item whose category is no Object.prototype member keeps the prefix clear. */
  lemma NoPrototypeYet(items: seq<ShoppingItem>, i: nat)
    requires i < |items| && !HitsPrototype(items[..i])
    requires items[i].category !in ObjectPrototypeNames
    ensures !HitsPrototype(items[..i + 1])
  {
    assert items[..i + 1] == items[..i] + [items[i]];
  }

  /** One step of the reduce: the item's category is looked up among the keys so
      far; a new key gets a bucket holding just the item, a seen one gains it. */
  lemma AccumulateStep(items: seq<ShoppingItem>, i: nat)
    requires i < |items|
    ensures var acc := Accumulated(items, i);
      var c := items[i].category;
      var idx := Lookup(acc, c);
      Accumulated(items, i + 1)
        == if idx == |acc| then acc + [Group(c, [items[i]])]
           else acc[idx := Group(c, acc[idx].items + [items[i]])]
  {
    var acc := Accumulated(items, i);
    var c := items[i].category;
    var idx := Lookup(acc, c);
    if idx == |acc| {
      assert c !in Keys(items[..i]) by {
        forall j | 0 <= j < |acc| ensures Keys(items[..i])[j] != c {
          assert acc[j].category == Keys(items[..i])[j];
        }
      }
      PushNew(items, i);
    } else {
      PushExisting(items, i, idx);
    }
  }

  /** The reduce as the code runs it: item by item, creating `acc[cat] = []` when
      `acc[cat]` is falsy and pushing the item; then `Object.entries(acc)`.  The
      accumulator is its own properties in creation order. */
  method Reduce(items: seq<ShoppingItem>) returns (r: Completion<seq<Group>>)
    ensures r == GroupEntries(items)
  {
    var acc: seq<Group> := [];
    for i := 0 to |items|
      invariant acc == Accumulated(items, i)
      invariant !HitsPrototype(items[..i])
    {
      var item := items[i];
      if item.category in ObjectPrototypeNames {
        // acc[cat] is the inherited member: truthy, so not replaced by [], and without `push`.
        assert HitsPrototype(items);
        return TypeErrorThrown;
      }
      NoPrototypeYet(items, i);
      var idx := Lookup(acc, item.category);
      AccumulateStep(items, i);
      if idx == |acc| {
        ghost var prev := acc;
        acc := acc + [Group(item.category, [])];
        acc := acc[idx := Group(item.category, acc[idx].items + [item])];
        assert acc[idx].items == [item];
        assert acc == prev + [Group(item.category, [item])];
      } else {
        acc := acc[idx := Group(item.category, acc[idx].items + [item])];
      }
    }
    assert items[..|items|] == items;
    r := Normal(ObjectEntries(acc));
  }

  // ------------------------------------------------------------ Object.entries

  /** The number an array-index key denotes. */
  function IndexValue(k: string): int {
    if IsDigits(k) then DigitsValue(k) else 0
  }

  /** The entry's key is an array index. */
  predicate IsIndexEntry(g: Group) {
    IsArrayIndex(g.category)
  }

  predicate IsNamedEntry(g: Group) {
    !IsArrayIndex(g.category)
  }

  function EntryIndex(g: Group): int {
    IndexValue(g.category)
  }

  /** `Object.entries(acc)` for the entries `acc` in creation order: those with an
      array-index key first, ascending by index, then the others as created. */
  function ObjectEntries(acc: seq<Group>): seq<Group> {
    SortBy(Filter(acc, IsIndexEntry), EntryIndex) + Filter(acc, IsNamedEntry)
  }

  /** `Object.entries` lists every own property once: it only rearranges them. */
  lemma ObjectEntriesPermutes(acc: seq<Group>)
    ensures multiset(ObjectEntries(acc)) == multiset(acc)
  {
    FilterComplements(acc, IsIndexEntry, IsNamedEntry);
  }

  /** In `Object.entries` order no array-index key follows another key, and the
      array-index keys ascend by value. */
  lemma ObjectEntriesIndicesFirst(acc: seq<Group>)
    ensures var r := ObjectEntries(acc);
      && (forall i, j | 0 <= i < j < |r| :: IsIndexEntry(r[j]) ==> IsIndexEntry(r[i]))
      && (forall i, j | 0 <= i < j < |r| && IsIndexEntry(r[j]) :: EntryIndex(r[i]) <= EntryIndex(r[j]))
  {
    var indices := Filter(acc, IsIndexEntry);
    var others := Filter(acc, IsNamedEntry);
    var sorted := SortBy(indices, EntryIndex);
    forall i | 0 <= i < |sorted| ensures IsIndexEntry(sorted[i]) {
      assert sorted[i] in multiset(indices);
    }
    forall i | 0 <= i < |others| ensures !IsIndexEntry(others[i]) {
      assert others[i] in others;
    }
    IndicesFirst(sorted, others);
  }

  lemma IndicesFirst(sorted: seq<Group>, others: seq<Group>)
    requires SortedBy(sorted, EntryIndex)
    requires forall i | 0 <= i < |sorted| :: IsIndexEntry(sorted[i])
    requires forall i | 0 <= i < |others| :: !IsIndexEntry(others[i])
    ensures var r := sorted + others;
      && (forall i, j | 0 <= i < j < |r| :: IsIndexEntry(r[j]) ==> IsIndexEntry(r[i]))
      && (forall i, j | 0 <= i < j < |r| && IsIndexEntry(r[j]) :: EntryIndex(r[i]) <= EntryIndex(r[j]))
  {
    var r := sorted + others;
    forall j | |sorted| <= j < |r| ensures !IsIndexEntry(r[j]) {
      assert r[j] == others[j - |sorted|];
    }
    forall i, j | 0 <= i < j < |sorted| ensures EntryIndex(r[i]) <= EntryIndex(r[j]) {
      assert r[i] == sorted[i] && r[j] == sorted[j];
    }
  }

  /** Entries whose keys are not array indices keep their creation order. */
  lemma ObjectEntriesKeepNamedOrder(acc: seq<Group>)
    ensures Filter(ObjectEntries(acc), IsNamedEntry) == Filter(acc, IsNamedEntry)
  {
    var indices := Filter(acc, IsIndexEntry);
    var others := Filter(acc, IsNamedEntry);
    var sorted := SortBy(indices, EntryIndex);
    FilterConcat(sorted, others, IsNamedEntry);
    forall g | g in sorted ensures !IsNamedEntry(g) {
      assert g in multiset(sorted);
      assert g in indices;
    }
    FilterDropsAll(sorted, IsNamedEntry);
    FilterIdempotent(acc, IsNamedEntry);
  }

  /** Without array-index keys the entries come exactly in creation order. */
  lemma ObjectEntriesWithoutIndices(acc: seq<Group>)
    requires forall j | 0 <= j < |acc| :: !IsArrayIndex(acc[j].category)
    ensures ObjectEntries(acc) == acc
  {
    FilterDropsAll(acc, IsIndexEntry);
    FilterKeepsAll(acc, IsNamedEntry);
  }

  // ----------------------------------------------------------- partition

  function CategoriesOf(gs: seq<Group>): (r: seq<string>)
    ensures |r| == |gs| && forall j | 0 <= j < |gs| :: r[j] == gs[j].category
  {
    seq(|gs|, j requires 0 <= j < |gs| => gs[j].category)
  }

  /** All the items of the groups, group after group. */
  function AllItems(gs: seq<Group>): seq<ShoppingItem> {
    if gs == [] then [] else gs[0].items + AllItems(gs[1..])
  }

  /** `gs` partitions `items` by category: the categories are distinct, every
      group holds exactly the items of its category in list order and is not
      empty, and every item's category has a group. */
  ghost predicate IsPartition(gs: seq<Group>, items: seq<ShoppingItem>) {
    && Distinct(CategoriesOf(gs))
    && (forall j | 0 <= j < |gs| :: gs[j].items == Members(items, gs[j].category) && gs[j].items != [])
    && (forall i | 0 <= i < |items| :: items[i].category in CategoriesOf(gs))
  }

  /** The entries in creation order partition the items. */
  lemma GroupsOfKeysPartition(items: seq<ShoppingItem>)
    ensures IsPartition(GroupsOf(items, Keys(items)), items)
  {
    var ks := Keys(items);
    var gs := GroupsOf(items, ks);
    KeysAreTheCategories(items);
    assert CategoriesOf(gs) == ks;
    forall j | 0 <= j < |gs| ensures gs[j].items != [] {
      assert ks[j] in ks;
      MembersOfPresent(items, ks[j]);
    }
  }

  /** Rearranging the groups of a partition leaves a partition. */
  lemma PartitionPermutation(gs: seq<Group>, hs: seq<Group>, items: seq<ShoppingItem>)
    requires IsPartition(gs, items)
    requires multiset(hs) == multiset(gs)
    ensures IsPartition(hs, items)
  {
    forall a | 0 <= a < |hs|
      ensures hs[a].items == Members(items, hs[a].category) && hs[a].items != []
    {
      var m := IndexIn(hs[a], gs);
    }
    PermutedCategoriesDistinct(gs, hs);
    var cs := CategoriesOf(hs);
    forall i | 0 <= i < |items| ensures items[i].category in cs {
      var m :| 0 <= m < |gs| && CategoriesOf(gs)[m] == items[i].category;
      var a := IndexIn(gs[m], hs);
      assert cs[a] == items[i].category;
    }
  }

  /** A position at which `x` occurs in `s`. */
  lemma IndexIn<T>(x: T, s: seq<T>) returns (m: nat)
    requires x in multiset(s)
    ensures m < |s| && s[m] == x
  {
    assert x in s;
    m :| 0 <= m < |s| && s[m] == x;
  }

  /** Rearranging groups with distinct categories keeps the categories distinct. */
  lemma PermutedCategoriesDistinct(gs: seq<Group>, hs: seq<Group>)
    requires Distinct(CategoriesOf(gs))
    requires multiset(hs) == multiset(gs)
    ensures Distinct(CategoriesOf(hs))
  {
    var cs := CategoriesOf(hs);
    assert Distinct(gs) by {
      forall m, m' | 0 <= m < m' < |gs| ensures gs[m] != gs[m'] {
        assert CategoriesOf(gs)[m] == gs[m].category && CategoriesOf(gs)[m'] == gs[m'].category;
      }
    }
    DistinctPermutation(gs, hs);
    forall a, b | 0 <= a < b < |hs| ensures cs[a] != cs[b] {
      var m := IndexIn(hs[a], gs);
      var m' := IndexIn(hs[b], gs);
    }
  }

  /** When the reduce does not throw, its entries partition the items. */
  lemma GroupEntriesPartition(items: seq<ShoppingItem>)
    requires GroupEntries(items).Normal?
    ensures IsPartition(GroupEntries(items).value, items)
  {
    var gs := GroupsOf(items, Keys(items));
    GroupsOfKeysPartition(items);
    ObjectEntriesPermutes(gs);
    PartitionPermutation(gs, ObjectEntries(gs), items);
  }

  /** For categories that are not array indices (every enum label, for one) the
      groups come in order of first occurrence. */
  lemma GroupEntriesInCreationOrder(items: seq<ShoppingItem>)
    requires !HitsPrototype(items)
    requires forall i | 0 <= i < |items| :: !IsArrayIndex(items[i].category)
    ensures GroupEntries(items) == Normal(GroupsOf(items, Keys(items)))
  {
    var ks := Keys(items);
    KeysAreTheCategories(items);
    forall j | 0 <= j < |ks| ensures !IsArrayIndex(ks[j]) {
      assert ks[j] in ks;
      var i :| 0 <= i < |items| && items[i].category == ks[j];
    }
    ObjectEntriesWithoutIndices(GroupsOf(items, ks));
  }

  /** The reduce throws exactly when some category names an Object.prototype
      member; enum labels never do. */
  lemma LabelsNeverThrow(items: seq<ShoppingItem>)
    requires forall i | 0 <= i < |items| :: IsLabel(items[i].category)
    ensures GroupEntries(items).Normal?
  {
    forall i | 0 <= i < |items| ensures items[i].category !in ObjectPrototypeNames {
      var c :| Label(c) == items[i].category;
      match c
      case Produce =>
      case Dairy =>
      case Meat =>
      case Pantry =>
      case Beverages =>
      case Frozen =>
      case Household =>
      case PersonalCare =>
      case Other =>
    }
  }

  /** How many times `x` occurs in the groups of a partition: as often as in the
      list. */
  lemma {:induction false} CountInGroups(items: seq<ShoppingItem>, ks: seq<string>, x: ShoppingItem)
    requires Distinct(ks)
    ensures multiset(AllItems(GroupsOf(items, ks)))[x]
         == if x.category in ks then multiset(items)[x] else 0
  {
    var gs := GroupsOf(items, ks);
    if ks != [] {
      assert GroupsOf(items, ks[1..]) == gs[1..];
      assert Distinct(ks[1..]) by {
        forall a, b | 0 <= a < b < |ks[1..]| ensures ks[1..][a] != ks[1..][b] {
          assert ks[1..][a] == ks[a + 1] && ks[1..][b] == ks[b + 1];
        }
      }
      CountInGroups(items, ks[1..], x);
      assert ks[0] !in ks[1..] by {
        forall a | 0 <= a < |ks[1..]| ensures ks[1..][a] != ks[0] {
          assert ks[1..][a] == ks[a + 1];
        }
      }
      assert x.category in ks <==> x.category == ks[0] || x.category in ks[1..] by {
        assert ks == [ks[0]] + ks[1..];
      }
      MembersCount(items, ks[0], x);
    }
  }

  /** Concatenating group lists concatenates their items. */
  lemma {:induction false} AllItemsConcat(a: seq<Group>, b: seq<Group>)
    ensures AllItems(a + b) == AllItems(a) + AllItems(b)
  {
    if a != [] {
      assert (a + b)[1..] == a[1..] + b;
      AllItemsConcat(a[1..], b);
    } else {
      assert a + b == b;
    }
  }

  /** Rearranging the groups rearranges their items. */
  lemma {:induction false} AllItemsPermutation(a: seq<Group>, b: seq<Group>)
    requires multiset(a) == multiset(b)
    ensures multiset(AllItems(a)) == multiset(AllItems(b))
    decreases |a|
  {
    if a != [] {
      assert a[0] in multiset(b);
      var m :| 0 <= m < |b| && b[m] == a[0];
      var rest := b[..m] + b[m + 1..];
      RemoveAtCount(b, m);
      assert a == [a[0]] + a[1..];
      assert multiset(a[1..]) == multiset(rest);
      AllItemsPermutation(a[1..], rest);
      AllItemsRemoveAt(b, m);
    } else {
      assert b == [] by { assert |b| == |multiset(b)|; }
    }
  }

  lemma RemoveAtCount<T>(b: seq<T>, m: nat)
    requires m < |b|
    ensures multiset(b[..m] + b[m + 1..]) == multiset(b) - multiset{b[m]}
  {
    assert b == b[..m] + [b[m]] + b[m + 1..];
  }

  /** The items of the groups are those of group `m` and those of the rest. */
  lemma AllItemsRemoveAt(b: seq<Group>, m: nat)
    requires m < |b|
    ensures multiset(AllItems(b)) == multiset(b[m].items) + multiset(AllItems(b[..m] + b[m + 1..]))
  {
    var pre, post := b[..m], b[m + 1..];
    AllItemsSplitAt(b, m);
    AllItemsConcat(pre, post);
    assert multiset(AllItems(pre) + b[m].items + AllItems(post))
        == multiset(AllItems(pre)) + multiset(b[m].items) + multiset(AllItems(post));
  }

  /** The items of the groups are those before group `m`, its own, then those after. */
  lemma AllItemsSplitAt(b: seq<Group>, m: nat)
    requires m < |b|
    ensures AllItems(b) == AllItems(b[..m]) + b[m].items + AllItems(b[m + 1..])
  {
    var tail := b[m..];
    AllItemsConcat(b[..m], tail);
    assert b == b[..m] + tail;
    assert tail[0] == b[m] && tail[1..] == b[m + 1..];
    ConcatAssociates(AllItems(b[..m]), b[m].items, AllItems(b[m + 1..]));
  }

  /** The groups together hold exactly the items of the list, each as often as in
      the list: grouping loses and duplicates nothing. */
  lemma GroupEntriesPermutation(items: seq<ShoppingItem>)
    requires GroupEntries(items).Normal?
    ensures multiset(AllItems(GroupEntries(items).value)) == multiset(items)
    ensures |AllItems(GroupEntries(items).value)| == |items|
  {
    var ks := Keys(items);
    var gs := GroupsOf(items, ks);
    KeysAreTheCategories(items);
    forall x ensures multiset(AllItems(gs))[x] == multiset(items)[x] {
      CountInGroups(items, ks, x);
      if x in items {
        var i :| 0 <= i < |items| && items[i] == x;
      } else {
        assert multiset(items)[x] == 0;
      }
    }
    ObjectEntriesPermutes(gs);
    AllItemsPermutation(ObjectEntries(gs), gs);
    assert |AllItems(GroupEntries(items).value)| == |multiset(AllItems(GroupEntries(items).value))|;
  }
}
