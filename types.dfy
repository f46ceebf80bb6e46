/** The records and the enumeration of types.ts. */
module Types {
  import opened Wrappers
  import opened Seqs

  /** A line of the shopping list (types.ts:2-8).  The id is opaque, quantity is free
      text and category is any string: nothing restricts it to an aisle label. */
  datatype ShoppingItem = ShoppingItem(
    id: string,
    name: string,
    quantity: string,
    category: string,
    completed: bool)

  /** The aisles (types.ts:10-20). */
  datatype AisleCategory =
    | Produce | Dairy | Meat | Pantry | Beverages | Frozen | Household | PersonalCare | Other

  /** The string value of each enum member. */
  function Label(c: AisleCategory): string {
    match c
    case Produce => "Produce"
    case Dairy => "Dairy & Eggs"
    case Meat => "Meat & Seafood"
    case Pantry => "Pantry & Grains"
    case Beverages => "Beverages"
    case Frozen => "Frozen Foods"
    case Household => "Household & Cleaning"
    case PersonalCare => "Personal Care"
    case Other => "Other"
  }

  /** Object.values(AisleCategory): the members in declaration order. */
  const Categories: seq<AisleCategory> :=
    [Produce, Dairy, Meat, Pantry, Beverages, Frozen, Household, PersonalCare, Other]

  /** Their labels, in the same order. */
  function Labels(): (r: seq<string>)
    ensures |r| == |Categories|
    ensures forall i | 0 <= i < |r| :: r[i] == Label(Categories[i])
  {
    seq(|Categories|, i requires 0 <= i < |Categories| => Label(Categories[i]))
  }

  /** The enumeration has exactly nine members, each listed once. */
  lemma CategoriesAreTheNineMembers()
    ensures |Categories| == 9 && Distinct(Categories)
    ensures forall c: AisleCategory :: c in Categories
  {
    forall c: AisleCategory ensures c in Categories {
      assert Categories[Position(c)] == c;
    }
  }

  /** `Object.values(AisleCategory)` has nine different values. */
  lemma LabelsDistinct()
    ensures |Labels()| == 9 && Distinct(Labels())
  {
    CategoriesAreTheNineMembers();
    var r := Labels();
    forall i, j | 0 <= i < j < |r| ensures r[i] != r[j] {
      LabelInjective(Categories[i], Categories[j]);
    }
  }

  /** The position of `c` in Categories. */
  function Position(c: AisleCategory): (i: nat)
    ensures i < |Categories| && Categories[i] == c
  {
    match c
    case Produce => 0
    case Dairy => 1
    case Meat => 2
    case Pantry => 3
    case Beverages => 4
    case Frozen => 5
    case Household => 6
    case PersonalCare => 7
    case Other => 8
  }

  /** No two members share a value. */
  lemma LabelInjective(a: AisleCategory, b: AisleCategory)
    ensures Label(a) == Label(b) ==> a == b
  {
  }

  /** The first member of `cs` whose label is `s`. */
  function FindLabel(cs: seq<AisleCategory>, s: string): (r: Option<AisleCategory>)
    ensures r.Some? ==> r.value in cs && Label(r.value) == s
    ensures r.None? ==> forall c | c in cs :: Label(c) != s
  {
    if cs == [] then None
    else if Label(cs[0]) == s then Some(cs[0])
    else FindLabel(cs[1..], s)
  }

  /** The member whose value is `s`, if there is one: the test
      `Object.values(AisleCategory).includes(s)`. */
  function FromLabel(s: string): (r: Option<AisleCategory>)
    ensures r.Some? <==> IsLabel(s)
    ensures r.Some? ==> Label(r.value) == s
  {
    CategoriesAreTheNineMembers();
    FindLabel(Categories, s)
  }

  /** `s` is the value of some member. */
  ghost predicate IsLabel(s: string) {
    exists c: AisleCategory :: Label(c) == s
  }

  /** The members come back from their values. */
  lemma FromLabelInvertsLabel(c: AisleCategory)
    ensures FromLabel(Label(c)) == Some(c)
  {
    LabelInjective(FromLabel(Label(c)).value, c);
  }

  /** A proposed item (types.ts:22-25).  The declared type of `category` is
      AisleCategory, but the values arrive by JSON.parse and are never checked, so
      the model holds any string. */
  datatype SmartSuggestion = SmartSuggestion(name: string, category: string)
}
