/** The list transforms of App.tsx as functions on sequences: each handler of the
    component replaces its state with one of these. */
module ItemStore {
  import opened Wrappers
  import opened Seqs
  import opened Js
  import opened Types

  // ---------------------------------------------------------------- adding

  /** The quantity an added item gets (App.tsx:47): the typed text, or "1" when the
      field is empty.  Blank text is kept as it is. */
  function DefaultQuantity(inputQty: string): (q: string)
    ensures inputQty == "" ==> q == "1"
    ensures inputQty != "" ==> q == inputQty
  {
    if inputQty == "" then "1" else inputQty
  }

  /** The item handleAddItem builds from the form fields (App.tsx:38, 44-50):
      none when the name trims to nothing; otherwise the trimmed name, the
      defaulted quantity, the category the service chose, not completed. */
  function FormItem(id: string, inputName: string, inputQty: string, category: AisleCategory)
    : (r: Option<ShoppingItem>)
    ensures r.None? <==> IsBlank(inputName)
    ensures r.Some? ==>
      && r.value.id == id && r.value.name == Trim(inputName)
      && r.value.quantity == DefaultQuantity(inputQty)
      && r.value.category == Label(category) && !r.value.completed
  {
    var name := Trim(inputName);
    if name == "" then None
    else Some(ShoppingItem(id, name, DefaultQuantity(inputQty), Label(category), false))
  }

  /** An item added from the form has a non-empty name that trimming would not
      change, and an aisle label as its category. */
  lemma FormItemIsClean(id: string, inputName: string, inputQty: string, category: AisleCategory)
    requires FormItem(id, inputName, inputQty, category).Some?
    ensures var item := FormItem(id, inputName, inputQty, category).value;
      item.name != "" && Trim(item.name) == item.name && IsLabel(item.category)
  {
    TrimIdempotent(inputName);
  }

  /** The item handleQuickAdd builds from a suggestion (App.tsx:59-65). */
  function SuggestedItem(id: string, name: string, category: string): (r: ShoppingItem)
    ensures r.id == id && r.name == name && r.category == category
    ensures r.quantity == "1" && !r.completed
  {
    ShoppingItem(id, name, "1", category, false)
  }

  /** The suggestions left once one named `name` is taken (App.tsx:67): every
      suggestion with another name, in the same order, and none with that name. */
  function WithoutSuggestion(suggestions: seq<SmartSuggestion>, name: string)
    : (r: seq<SmartSuggestion>)
    ensures forall s | s in r :: s in suggestions && s.name != name
    ensures forall s | s in suggestions && s.name != name :: multiset(r)[s] == multiset(suggestions)[s]
    ensures IsSubsequence(r, suggestions)
  {
    var p := (s: SmartSuggestion) => s.name != name;
    FilterCounts(suggestions, p);
    FilterIsSubsequence(suggestions, p);
    Filter(suggestions, p)
  }

  /** Taking a suggestion twice is taking it once. */
  lemma WithoutSuggestionIdempotent(suggestions: seq<SmartSuggestion>, name: string)
    ensures WithoutSuggestion(WithoutSuggestion(suggestions, name), name)
      == WithoutSuggestion(suggestions, name)
  {
    FilterIdempotent(suggestions, (s: SmartSuggestion) => s.name != name);
  }

  // ------------------------------------------------------ by-id transforms

  /** removeItem (App.tsx:70-72): exactly the items whose id differs, in order.  An
      id no item has leaves the list as it was. */
  function RemoveItem(items: seq<ShoppingItem>, id: string): (r: seq<ShoppingItem>)
    ensures forall x | x in r :: x in items && x.id != id
    ensures forall x | x in items && x.id != id :: multiset(r)[x] == multiset(items)[x]
    ensures IsSubsequence(r, items)
    ensures (forall x | x in items :: x.id != id) ==> r == items
  {
    var p := (x: ShoppingItem) => x.id != id;
    FilterCounts(items, p);
    FilterIsSubsequence(items, p);
    if forall x | x in items :: x.id != id then
      FilterKeepsAll(items, p);
      Filter(items, p)
    else Filter(items, p)
  }

  /** No two items share an id. */
  predicate UniqueIds(items: seq<ShoppingItem>) {
    forall i, j | 0 <= i < j < |items| :: items[i].id != items[j].id
  }

  /** With unique ids, removing the id of item `k` removes that item and nothing else. */
  lemma RemoveUniqueItem(items: seq<ShoppingItem>, k: nat)
    requires UniqueIds(items) && k < |items|
    ensures RemoveItem(items, items[k].id) == items[..k] + items[k + 1..]
  {
    var id := items[k].id;
    var p := (x: ShoppingItem) => x.id != id;
    assert items == items[..k] + ([items[k]] + items[k + 1..]);
    FilterConcat(items[..k], [items[k]] + items[k + 1..], p);
    FilterConcat([items[k]], items[k + 1..], p);
    FilterKeepsAll(items[..k], p);
    FilterKeepsAll(items[k + 1..], p);
  }

  /** Appending an item with a fresh id keeps the ids unique. */
  lemma AppendFreshKeepsIdsUnique(items: seq<ShoppingItem>, item: ShoppingItem)
    requires UniqueIds(items)
    requires forall x | x in items :: x.id != item.id
    ensures UniqueIds(items + [item])
  {
    var s := items + [item];
    forall i, j | 0 <= i < j < |s| ensures s[i].id != s[j].id {
      assert s[i] == items[i];
      if j < |items| { assert s[j] == items[j]; }
    }
  }

  /** toggleItem (App.tsx:74-78): the same items in the same order, each with the
      same id, name, quantity and category; `completed` is negated exactly where the
      id matches. */
  function ToggleItem(items: seq<ShoppingItem>, id: string): (r: seq<ShoppingItem>)
    ensures |r| == |items|
    ensures forall k | 0 <= k < |r| ::
      && r[k].id == items[k].id && r[k].name == items[k].name
      && r[k].quantity == items[k].quantity && r[k].category == items[k].category
      && r[k].completed == (items[k].completed != (items[k].id == id))
  {
    seq(|items|, k requires 0 <= k < |items| =>
      if items[k].id == id then items[k].(completed := !items[k].completed) else items[k])
  }

  /** Toggling the same id twice restores the list. */
  lemma ToggleTwiceRestores(items: seq<ShoppingItem>, id: string)
    ensures ToggleItem(ToggleItem(items, id), id) == items
  {
    var r := ToggleItem(ToggleItem(items, id), id);
    assert forall k | 0 <= k < |items| :: r[k] == items[k];
  }

  /** updateQuantity (App.tsx:80-84): the same items in the same order; where the id
      matches, the quantity becomes `quantity` as typed, and nothing else changes. */
  function UpdateQuantity(items: seq<ShoppingItem>, id: string, quantity: string)
    : (r: seq<ShoppingItem>)
    ensures |r| == |items|
    ensures forall k | 0 <= k < |r| ::
      && r[k].id == items[k].id && r[k].name == items[k].name
      && r[k].category == items[k].category && r[k].completed == items[k].completed
      && r[k].quantity == (if items[k].id == id then quantity else items[k].quantity)
  {
    seq(|items|, k requires 0 <= k < |items| =>
      if items[k].id == id then items[k].(quantity := quantity) else items[k])
  }

  /** Each edit of a quantity overwrites the previous one. */
  lemma UpdateQuantityLastWins(items: seq<ShoppingItem>, id: string, first: string, second: string)
    ensures UpdateQuantity(UpdateQuantity(items, id, first), id, second)
      == UpdateQuantity(items, id, second)
  {
    var a := UpdateQuantity(UpdateQuantity(items, id, first), id, second);
    var b := UpdateQuantity(items, id, second);
    assert forall k | 0 <= k < |items| :: a[k] == b[k];
  }

  // ---------------------------------------------------------- completion

  /** completedCount (App.tsx:101): how many items are ticked off. */
  function CompletedCount(items: seq<ShoppingItem>): (n: nat)
    ensures n <= |items|
    ensures n == 0 <==> forall x | x in items :: !x.completed
  {
    var p := (x: ShoppingItem) => x.completed;
    var done := Filter(items, p);
    FilterCounts(items, p);
    assert (exists x | x in items :: x.completed) ==> done != [] by {
      if exists x | x in items :: x.completed {
        var x :| x in items && x.completed;
        assert multiset(done)[x] == multiset(items)[x] > 0;
      }
    }
    |done|
  }

  /** clearCompleted (App.tsx:86-88): exactly the items not ticked off, in order. */
  function ClearCompleted(items: seq<ShoppingItem>): (r: seq<ShoppingItem>)
    ensures forall x | x in r :: x in items && !x.completed
    ensures forall x | x in items && !x.completed :: multiset(r)[x] == multiset(items)[x]
    ensures IsSubsequence(r, items)
  {
    var p := (x: ShoppingItem) => !x.completed;
    FilterCounts(items, p);
    FilterIsSubsequence(items, p);
    Filter(items, p)
  }

  /** Clearing twice is clearing once. */
  lemma ClearCompletedIdempotent(items: seq<ShoppingItem>)
    ensures ClearCompleted(ClearCompleted(items)) == ClearCompleted(items)
  {
    FilterIdempotent(items, (x: ShoppingItem) => !x.completed);
  }

  /** Clearing removes exactly completedCount items and leaves none completed. */
  lemma {:induction false} ClearCompletedRemovesCompletedCount(items: seq<ShoppingItem>)
    ensures |ClearCompleted(items)| == |items| - CompletedCount(items)
    ensures CompletedCount(ClearCompleted(items)) == 0
  {
    if items != [] {
      ClearCompletedRemovesCompletedCount(items[1..]);
    }
  }

  // --------------------------------------------------------- suggestions

  /** The condition of the suggestion effect (App.tsx:91): a positive multiple of 3. */
  predicate ShouldFetchSuggestions(length: nat) {
    length > 0 && length % 3 == 0
  }

  /** How many of the lengths 1, 2, ..., n fire a suggestion fetch: what a list grown
      one item at a time from empty to n items triggers. */
  function FetchesUpTo(n: nat): nat {
    if n == 0 then 0 else FetchesUpTo(n - 1) + (if ShouldFetchSuggestions(n) then 1 else 0)
  }

  /** Growing a list from empty to n items fetches once per third item: at lengths
      3, 6, 9, ... and never at the others. */
  lemma {:induction false} FetchesEveryThirdItem(n: nat)
    ensures FetchesUpTo(n) == n / 3
  {
    if n > 0 {
      FetchesEveryThirdItem(n - 1);
      assert n / 3 == (n - 1) / 3 + (if n % 3 == 0 then 1 else 0);
    }
  }

  // ---------------------------------------------------------- preferences

  /** The phone number used when none is stored (App.tsx:16). */
  const DefaultTargetNumber: string := "897164272"

  /** The initial theme (App.tsx:10-13): dark when nothing (or "") is stored, else
      dark exactly when the stored text is "dark". */
  function DecodeTheme(saved: Option<string>): (isDark: bool)
    ensures saved.None? || saved.value == "" ==> isDark
    ensures saved.Some? && saved.value != "" ==> (isDark <==> saved.value == "dark")
  {
    if saved.None? || saved.value == "" then true else saved.value == "dark"
  }

  /** What the theme effect stores (App.tsx:27). */
  function EncodeTheme(isDark: bool): (s: string)
    ensures s != ""
  {
    if isDark then "dark" else "light"
  }

  /** A stored theme comes back as it was stored. */
  lemma ThemeRoundTrip(isDark: bool)
    ensures DecodeTheme(Some(EncodeTheme(isDark))) == isDark
  {
  }

  /** The initial phone number (App.tsx:15-17): the stored text, unless nothing
      or the empty string is stored. */
  function DecodeTargetNumber(saved: Option<string>): (n: string)
    ensures n != ""
    ensures saved.None? || saved.value == "" ==> n == "897164272"
    ensures saved.Some? && saved.value != "" ==> n == saved.value
  {
    if saved.None? || saved.value == "" then DefaultTargetNumber else saved.value
  }

  /** A stored number comes back as it was stored (App.tsx:33), except that an
      emptied field comes back as the default. */
  lemma TargetNumberRoundTrip(number: string)
    ensures DecodeTargetNumber(Some(number)) == if number == "" then DefaultTargetNumber else number
  {
  }
}
