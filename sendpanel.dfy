/** components/SendPanel.tsx: the shareable text of the list (formatListText) and
    the page layout of the PDF export (generatePDF), with the two flags of the
    panel.  Both run the grouping reduce of the Grouping module. */
module SendPanel {
  import opened Seqs
  import opened Js
  import opened Types
  import opened Grouping

  // ============================================================ text export

  /** What an empty list formats to (SendPanel.tsx:18). */
  const EmptyListText: string := "My shopping list is currently empty."

  /** The first two lines of a non-empty list (SendPanel.tsx:20). */
  const TextHeader: string := TextTitle + "\n\n"

  const TextTitle: string := "\U{1F6D2} *My SmartShop List:*"

  /** The check box of an item line: a check mark when completed, an empty box
      otherwise. */
  function CheckBox(completed: bool): string {
    if completed then "\U{2705}" else "\U{2B1C}"
  }

  /** The line of one item (SendPanel.tsx:30). */
  function ItemLine(item: ShoppingItem): (r: string)
    ensures CheckBox(item.completed) + " " <= r && r[|r| - 1] == '\n'
  {
    CheckBox(item.completed) + " " + item.name + " (" + item.quantity + ")\n"
  }

  /** The heading line of one category (SendPanel.tsx:28). */
  function GroupHeading(category: string): (r: string)
    ensures |r| == |category| + 3 && r[0] == '*' && r[|r| - 2..] == "*\n"
    ensures forall i | 1 <= i < |r| - 2 :: !IsAsciiLower(r[i])
  {
    "*" + ToUpperCase(category) + "*\n"
  }

  /** The lines of the items, in order. */
  function ItemsText(items: seq<ShoppingItem>): string {
    if items == [] then ""
    else ItemsText(items[..|items| - 1]) + ItemLine(items[|items| - 1])
  }

  /** One group: its heading, its item lines and a blank line (SendPanel.tsx:28-32). */
  function GroupText(g: Group): string {
    GroupHeading(g.category) + ItemsText(g.items) + "\n"
  }

  /** The groups one after another. */
  function GroupsText(gs: seq<Group>): string {
    if gs == [] then ""
    else GroupsText(gs[..|gs| - 1]) + GroupText(gs[|gs| - 1])
  }

  /** formatListText: the sentinel for an empty list; otherwise the reduce (which
      may throw) and the header followed by every group. */
  function ListText(items: seq<ShoppingItem>): (r: Completion<string>)
    ensures r.TypeErrorThrown? <==> items != [] && HitsPrototype(items)
  {
    if items == [] then Normal(EmptyListText)
    else match GroupEntries(items)
      case TypeErrorThrown => TypeErrorThrown
      case Normal(gs) => Normal(TextHeader + GroupsText(gs))
  }

  /** formatListText as the code runs it: `text +=` inside the two nested forEach. */
  method FormatListText(items: seq<ShoppingItem>) returns (r: Completion<string>)
    ensures r == ListText(items)
  {
    if |items| == 0 {
      return Normal(EmptyListText);
    }
    var text := TextHeader;
    var grouped := Reduce(items);
    if grouped.TypeErrorThrown? {
      return TypeErrorThrown;
    }
    text := AppendGroups(text, grouped.value);
    r := Normal(text);
  }

  /** The `Object.entries(grouped).forEach(...)` of formatListText: every entry's
      heading, item lines and blank line appended to `text`. */
  method AppendGroups(start: string, entries: seq<Group>) returns (text: string)
    ensures text == start + GroupsText(entries)
  {
    text := start;
    for i := 0 to |entries|
      invariant text == start + GroupsText(entries[..i])
    {
      var g := entries[i];
      ghost var before := text;
      text := text + GroupHeading(g.category);
      text := AppendItemLines(text, g.items);
      text := text + "\n";
      AppendThree(before, GroupHeading(g.category), ItemsText(g.items), "\n");
      GroupsTextSnoc(entries, i);
      ConcatAssociates(start, GroupsText(entries[..i]), GroupText(g));
    }
    assert entries[..|entries|] == entries;
  }

  /** The inner `catItems.forEach(...)`: one line per item appended to `text`. */
  method AppendItemLines(start: string, items: seq<ShoppingItem>) returns (text: string)
    ensures text == start + ItemsText(items)
  {
    text := start;
    for j := 0 to |items|
      invariant text == start + ItemsText(items[..j])
    {
      ItemsTextSnoc(items, j);
      text := text + ItemLine(items[j]);
    }
    assert items[..|items|] == items;
  }

  lemma ItemsTextSnoc(items: seq<ShoppingItem>, j: nat)
    requires j < |items|
    ensures ItemsText(items[..j + 1]) == ItemsText(items[..j]) + ItemLine(items[j])
  {
    assert items[..j + 1][..j] == items[..j];
  }

  lemma GroupsTextSnoc(gs: seq<Group>, i: nat)
    requires i < |gs|
    ensures GroupsText(gs[..i + 1]) == GroupsText(gs[..i]) + GroupText(gs[i])
  {
    assert gs[..i + 1][..i] == gs[..i];
  }

  /** The sentinel comes out exactly for the empty list. */
  lemma ListTextEmptyIff(items: seq<ShoppingItem>)
    ensures ListText(items) == Normal(EmptyListText) <==> items == []
  {
    if items != [] && GroupEntries(items).Normal? {
      var t := ListText(items).value;
      assert t[0] == TextHeader[0];
      assert EmptyListText[0] != TextHeader[0];
    }
  }

  /** A non-empty list either makes the reduce throw, exactly when a category
      names an Object.prototype member, or gives a text that begins with the
      header. */
  lemma ListTextStartsWithHeader(items: seq<ShoppingItem>)
    requires items != []
    ensures ListText(items).TypeErrorThrown? <==> HitsPrototype(items)
    ensures ListText(items).Normal? ==> TextHeader <= ListText(items).value
  {
  }

  /** `s` has no line break. */
  predicate SingleLine(s: string) {
    forall i | 0 <= i < |s| :: s[i] != '\n'
  }

  /** No field that is printed holds a line break. */
  predicate PrintsOnOneLine(item: ShoppingItem) {
    SingleLine(item.name) && SingleLine(item.quantity) && SingleLine(item.category)
  }

  /** How many line breaks `s` holds. */
  function LineBreaks(s: string): nat {
    if s == [] then 0
    else LineBreaks(s[..|s| - 1]) + (if s[|s| - 1] == '\n' then 1 else 0)
  }

  lemma {:induction false} LineBreaksConcat(a: string, b: string)
    ensures LineBreaks(a + b) == LineBreaks(a) + LineBreaks(b)
    decreases |b|
  {
    if b == [] {
      assert a + b == a;
    } else {
      assert (a + b)[..|a + b| - 1] == a + b[..|b| - 1];
      LineBreaksConcat(a, b[..|b| - 1]);
    }
  }

  lemma {:induction false} NoBreaks(s: string)
    requires SingleLine(s)
    ensures LineBreaks(s) == 0
  {
    if s != [] {
      var n := |s| - 1;
      assert forall i | 0 <= i < n :: s[..n][i] == s[i];
      NoBreaks(s[..n]);
    }
  }

  /** Every item line ends in the one line break it holds. */
  lemma ItemLineBreaks(item: ShoppingItem)
    requires PrintsOnOneLine(item)
    ensures LineBreaks(ItemLine(item)) == 1
  {
    NoBreaks(item.name);
    NoBreaks(item.quantity);
    var box := CheckBox(item.completed);
    assert LineBreaks(box) == 0;
    LineBreaksConcat(box, " ");
    LineBreaksConcat(box + " ", item.name);
    LineBreaksConcat(box + " " + item.name, " (");
    LineBreaksConcat(box + " " + item.name + " (", item.quantity);
    LineBreaksConcat(box + " " + item.name + " (" + item.quantity, ")\n");
  }

  lemma {:induction false} ItemsTextBreaks(items: seq<ShoppingItem>)
    requires forall i | 0 <= i < |items| :: PrintsOnOneLine(items[i])
    ensures LineBreaks(ItemsText(items)) == |items|
  {
    if items != [] {
      var n := |items| - 1;
      assert forall i | 0 <= i < n :: items[..n][i] == items[i];
      ItemsTextBreaks(items[..n]);
      ItemLineBreaks(items[n]);
      LineBreaksConcat(ItemsText(items[..n]), ItemLine(items[n]));
    }
  }

  /** A group takes two lines more than it has items: its heading and the blank
      line after it. */
  lemma GroupTextBreaks(g: Group)
    requires SingleLine(g.category)
    requires forall i | 0 <= i < |g.items| :: PrintsOnOneLine(g.items[i])
    ensures LineBreaks(GroupText(g)) == 2 + |g.items|
  {
    ItemsTextBreaks(g.items);
    var up := ToUpperCase(g.category);
    assert SingleLine(up);
    NoBreaks(up);
    LineBreaksConcat("*", up);
    LineBreaksConcat("*" + up, "*\n");
    LineBreaksConcat(GroupHeading(g.category), ItemsText(g.items));
    LineBreaksConcat(GroupHeading(g.category) + ItemsText(g.items), "\n");
  }

  /** The groups take two lines each besides one per item. */
  lemma {:induction false} GroupsTextBreaks(gs: seq<Group>)
    requires forall j | 0 <= j < |gs| :: SingleLine(gs[j].category)
    requires forall j, i | 0 <= j < |gs| && 0 <= i < |gs[j].items| :: PrintsOnOneLine(gs[j].items[i])
    ensures LineBreaks(GroupsText(gs)) == 2 * |gs| + |AllItems(gs)|
  {
    if gs != [] {
      var n := |gs| - 1;
      assert forall j | 0 <= j < n :: gs[..n][j] == gs[j];
      GroupsTextBreaks(gs[..n]);
      GroupTextBreaks(gs[n]);
      AllItemsSnoc(gs);
      LineBreaksConcat(GroupsText(gs[..n]), GroupText(gs[n]));
    }
  }

  /** The items of all groups are those of all but the last, then the last's. */
  lemma AllItemsSnoc(gs: seq<Group>)
    requires gs != []
    ensures AllItems(gs) == AllItems(gs[..|gs| - 1]) + gs[|gs| - 1].items
  {
    var n := |gs| - 1;
    AllItemsConcat(gs[..n], [gs[n]]);
    assert gs == gs[..n] + [gs[n]];
    assert AllItems([gs[n]]) == gs[n].items + AllItems([]);
  }

  /** When no printed field holds a line break, the text has one line per item,
      one heading and one blank line per category and the two header lines: the
      item lines are as many as the items. */
  lemma ListTextLineCount(items: seq<ShoppingItem>)
    requires items != [] && GroupEntries(items).Normal?
    requires forall i | 0 <= i < |items| :: PrintsOnOneLine(items[i])
    ensures LineBreaks(ListText(items).value)
         == 2 + 2 * |GroupEntries(items).value| + |items|
  {
    var gs := GroupEntries(items).value;
    GroupEntriesPartition(items);
    GroupEntriesPermutation(items);
    forall j | 0 <= j < |gs| ensures SingleLine(gs[j].category) {
      var x := gs[j].items[0];
      MemberIsListed(items, gs[j].category, x);
    }
    forall j, i | 0 <= j < |gs| && 0 <= i < |gs[j].items| ensures PrintsOnOneLine(gs[j].items[i]) {
      MemberIsListed(items, gs[j].category, gs[j].items[i]);
    }
    GroupsTextBreaks(gs);
    HeaderBreaks();
    LineBreaksConcat(TextHeader, GroupsText(gs));
  }

  /** The header is the title line and a blank line. */
  lemma HeaderBreaks()
    ensures LineBreaks(TextHeader) == 2
  {
    TitleIsOneLine();
    NoBreaks(TextTitle);
    LineBreaksConcat(TextTitle, "\n\n");
  }

  lemma TitleIsOneLine()
    ensures SingleLine(TextTitle)
  {
  }

  lemma {:induction false} ItemsTextHasLine(items: seq<ShoppingItem>, i: nat)
    requires i < |items|
    ensures IsInfix(ItemLine(items[i]), ItemsText(items))
  {
    var n := |items| - 1;
    var before, last := ItemsText(items[..n]), ItemLine(items[n]);
    assert ItemsText(items) == before + last;
    if i == n {
      InfixSelf(last);
      InfixRight(last, before, last);
    } else {
      assert items[..n][i] == items[i];
      ItemsTextHasLine(items[..n], i);
      InfixLeft(ItemLine(items[i]), before, last);
    }
  }

  lemma {:induction false} GroupsTextHasGroup(gs: seq<Group>, j: nat)
    requires j < |gs|
    ensures IsInfix(GroupText(gs[j]), GroupsText(gs))
  {
    var n := |gs| - 1;
    var before, last := GroupsText(gs[..n]), GroupText(gs[n]);
    assert GroupsText(gs) == before + last;
    if j == n {
      InfixSelf(last);
      InfixRight(last, before, last);
    } else {
      assert gs[..n][j] == gs[j];
      GroupsTextHasGroup(gs[..n], j);
      InfixLeft(GroupText(gs[j]), before, last);
    }
  }

  /** Every item of the list has its line in the text. */
  lemma ListTextHasEveryItem(items: seq<ShoppingItem>, i: nat)
    requires i < |items| && GroupEntries(items).Normal?
    ensures IsInfix(ItemLine(items[i]), ListText(items).value)
  {
    var gs := GroupEntries(items).value;
    var j, k := ItemInItsGroup(items, i);
    TextHasGroupLine(gs, j, k);
  }

  /** Where an item sits in the entries: in the group of its category. */
  lemma ItemInItsGroup(items: seq<ShoppingItem>, i: nat) returns (j: nat, k: nat)
    requires i < |items| && GroupEntries(items).Normal?
    ensures j < |GroupEntries(items).value|
    ensures k < |GroupEntries(items).value[j].items|
    ensures GroupEntries(items).value[j].items[k] == items[i]
  {
    var gs := GroupEntries(items).value;
    var x := items[i];
    GroupEntriesPartition(items);
    j :| 0 <= j < |gs| && CategoriesOf(gs)[j] == x.category;
    var g := gs[j];
    MembersCount(items, x.category, x);
    assert x in multiset(g.items);
    k := IndexIn(x, g.items);
  }

  lemma TextHasGroupLine(gs: seq<Group>, j: nat, k: nat)
    requires j < |gs| && k < |gs[j].items|
    ensures IsInfix(ItemLine(gs[j].items[k]), TextHeader + GroupsText(gs))
  {
    var g := gs[j];
    var line := ItemLine(g.items[k]);
    ItemsTextHasLine(g.items, k);
    ItemsTextIsInfix(line, g);
    GroupsTextHasGroup(gs, j);
    InfixTransitive(line, GroupText(g), GroupsText(gs));
    InfixWithin(line, TextHeader, GroupsText(gs), []);
    assert TextHeader + GroupsText(gs) + [] == TextHeader + GroupsText(gs);
  }

  lemma ItemsTextIsInfix(line: string, g: Group)
    requires IsInfix(line, ItemsText(g.items))
    ensures IsInfix(line, GroupText(g))
  {
    InfixWithin(line, GroupHeading(g.category), ItemsText(g.items), "\n");
  }

  // ============================================================= PDF layout

  /** What a placed text is: one of the two title lines, a category heading or an
      item line. */
  datatype Kind = Title | Heading | Line

  /** One `doc.text(text, x, y)` call, on the page that is current then. */
  datatype Placement = Placement(page: nat, x: int, y: int, kind: Kind, text: string)

  /** The current page and the variable `y`. */
  datatype Cursor = Cursor(page: nat, y: int)

  /** The texts placed so far and where the next one goes. */
  datatype Layout = Layout(placements: seq<Placement>, end: Cursor)

  /** Where a new page starts. */
  const TopMargin: int := 20
  /** The first heading's y (SendPanel.tsx:65). */
  const FirstY: int := 40
  /** A heading goes to a new page below this y (SendPanel.tsx:73). */
  const HeadingLimit: int := 270
  /** An item line goes to a new page below this y (SendPanel.tsx:84). */
  const LineLimit: int := 280

  /** `if (y > limit) { doc.addPage(); y = 20; }`. */
  function BreakAt(c: Cursor, limit: int): (r: Cursor)
    ensures c.y > limit ==> r == Cursor(c.page + 1, TopMargin)
    ensures c.y <= limit ==> r == c
  {
    if c.y > limit then Cursor(c.page + 1, TopMargin) else c
  }

  /** Place `text` at `x` and the (possibly broken) cursor, then advance y by `step`. */
  function PlaceAt(l: Layout, limit: int, x: int, kind: Kind, text: string, step: int): Layout {
    var c := BreakAt(l.end, limit);
    Layout(l.placements + [Placement(c.page, x, c.y, kind, text)], Cursor(c.page, c.y + step))
  }

  /** The PDF text of an item (SendPanel.tsx:85-86). */
  function PdfItemText(item: ShoppingItem): (r: string)
    ensures |r| > 4 && r[..4] == (if item.completed then "[X] " else "[ ] ") && r[|r| - 1] == ')'
  {
    (if item.completed then "[X]" else "[ ]") + " " + item.name + " (" + item.quantity + ")"
  }

  /** The title and the time stamp line (SendPanel.tsx:59, 63). */
  function TitleBlock(timestamp: string): seq<Placement> {
    [Placement(1, 20, 20, Title, "SmartShop List"),
     Placement(1, 20, 28, Title, "Generated on: " + timestamp)]
  }

  /** The page before the first entry: the title block, then y = 40 (SendPanel.tsx:65). */
  function Start(timestamp: string): Layout {
    Layout(TitleBlock(timestamp), Cursor(1, FirstY))
  }

  /** A category heading (SendPanel.tsx:73-79). */
  function PlaceHeading(l: Layout, category: string): Layout {
    PlaceAt(l, HeadingLimit, 20, Heading, ToUpperCase(category), 8)
  }

  /** An item line (SendPanel.tsx:84-87). */
  function PlaceLine(l: Layout, item: ShoppingItem): Layout {
    PlaceAt(l, LineLimit, 25, Line, PdfItemText(item), 6)
  }

  function PlaceLines(l: Layout, items: seq<ShoppingItem>): Layout {
    if items == [] then l
    else PlaceLine(PlaceLines(l, items[..|items| - 1]), items[|items| - 1])
  }

  /** A group: its heading, its lines, then 6 more (SendPanel.tsx:72-90). */
  function PlaceGroup(l: Layout, g: Group): Layout {
    var after := PlaceLines(PlaceHeading(l, g.category), g.items);
    Layout(after.placements, Cursor(after.end.page, after.end.y + 6))
  }

  function PlaceGroups(l: Layout, gs: seq<Group>): Layout {
    if gs == [] then l
    else PlaceGroup(PlaceGroups(l, gs[..|gs| - 1]), gs[|gs| - 1])
  }

  /** The whole document for the entries `gs`.  It starts on page 1, every text
      follows the one before it, every heading lies at 20 <= y <= 270 and every
      item line at 20 <= y <= 280, and the last text is on the last page. */
  function PdfLayout(gs: seq<Group>, timestamp: string): (l: Layout)
    ensures Sound(l)
  {
    PlaceGroupsSound(Start(timestamp), gs);
    PlaceGroups(Start(timestamp), gs)
  }

  /** The file name (SendPanel.tsx:92), for the time `now` in milliseconds. */
  function PdfFileName(now: nat): string {
    "SmartShop_List_" + Decimal(now) + ".pdf"
  }

  /** What generatePDF does: nothing for an empty list, a caught error when the
      reduce throws, otherwise a saved document of that many pages. */
  datatype PdfOutcome =
    | NotStarted
    | Failed
    | Saved(fileName: string, pages: nat, placements: seq<Placement>)

  function PdfDocument(items: seq<ShoppingItem>, timestamp: string, now: nat): (r: PdfOutcome)
    ensures r.NotStarted? <==> items == []
    ensures r.Failed? <==> items != [] && HitsPrototype(items)
    ensures r.Saved? ==> r.fileName == PdfFileName(now) && r.pages == 1 + Breaks(r.placements)
  {
    if items == [] then NotStarted
    else match GroupEntries(items)
      case TypeErrorThrown => Failed
      case Normal(gs) =>
        var l := PdfLayout(gs, timestamp);
        PdfPageCount(gs, timestamp);
        Saved(PdfFileName(now), l.end.page, l.placements)
  }

  /** The layout loop of generatePDF as the code runs it, with `y` and the page
      number as variables. */
  method DrawEntries(gs: seq<Group>, timestamp: string) returns (doc: Layout)
    ensures doc == PdfLayout(gs, timestamp)
  {
    var placements := TitleBlock(timestamp);
    var page: nat, y := 1, FirstY;
    for i := 0 to |gs|
      invariant Layout(placements, Cursor(page, y)) == PlaceGroups(Start(timestamp), gs[..i])
    {
      var g := gs[i];
      ghost var before := Layout(placements, Cursor(page, y));
      if y > HeadingLimit {
        page, y := page + 1, TopMargin;
      }
      placements := placements + [Placement(page, 20, y, Heading, ToUpperCase(g.category))];
      y := y + 8;
      assert Layout(placements, Cursor(page, y)) == PlaceHeading(before, g.category);
      var after := DrawLines(Layout(placements, Cursor(page, y)), g.items);
      placements, page, y := after.placements, after.end.page, after.end.y;
      assert gs[..i + 1][..i] == gs[..i];
      y := y + 6;
    }
    assert gs[..|gs|] == gs;
    doc := Layout(placements, Cursor(page, y));
  }

  /** The inner loop of generatePDF: one line per item of a group, starting where
      the heading left `y` and the page number. */
  method DrawLines(start: Layout, items: seq<ShoppingItem>) returns (l: Layout)
    ensures l == PlaceLines(start, items)
  {
    var placements, page, y := start.placements, start.end.page, start.end.y;
    for j := 0 to |items|
      invariant Layout(placements, Cursor(page, y)) == PlaceLines(start, items[..j])
    {
      assert items[..j + 1][..j] == items[..j];
      if y > LineLimit {
        page, y := page + 1, TopMargin;
      }
      placements := placements + [Placement(page, 25, y, Line, PdfItemText(items[j]))];
      y := y + 6;
    }
    assert items[..|items|] == items;
    l := Layout(placements, Cursor(page, y));
  }

  // ----------------------------------------------------- layout invariants

  /** `q` is placed after `p`: lower on the same page, or at the top of the next. */
  predicate Follows(p: Placement, q: Placement) {
    (q.page == p.page && q.y > p.y) || (q.page == p.page + 1 && q.y == TopMargin)
  }

  /** Headings lie between the top margin and 270, item lines between it and 280. */
  predicate InBounds(p: Placement) {
    && (p.kind == Heading ==> TopMargin <= p.y <= HeadingLimit)
    && (p.kind == Line ==> TopMargin <= p.y <= LineLimit)
  }

  /** Every placement follows the one before it. */
  predicate Flows(ps: seq<Placement>) {
    forall i | 0 <= i < |ps| - 1 :: Follows(ps[i], ps[i + 1])
  }

  /** A layout in progress: it starts on page 1, flows, keeps its texts in bounds,
      and its cursor is below the last text on the same page. */
  predicate Sound(l: Layout) {
    && l.placements != []
    && l.placements[0].page == 1
    && Flows(l.placements)
    && (forall i | 0 <= i < |l.placements| :: InBounds(l.placements[i]))
    && l.end.page == l.placements[|l.placements| - 1].page
    && l.end.y > l.placements[|l.placements| - 1].y
    && l.end.y >= TopMargin
  }

  lemma PlaceAtSound(l: Layout, limit: int, x: int, kind: Kind, text: string, step: int)
    requires Sound(l) && step > 0 && limit >= TopMargin
    requires kind == Heading ==> limit == HeadingLimit
    requires kind == Line ==> limit == LineLimit
    requires kind != Title
    ensures Sound(PlaceAt(l, limit, x, kind, text, step))
    ensures PlaceAt(l, limit, x, kind, text, step).end.page
         == l.end.page + (if l.end.y > limit then 1 else 0)
  {
    var r := PlaceAt(l, limit, x, kind, text, step);
    var ps := l.placements;
    var q := r.placements[|ps|];
    assert Follows(ps[|ps| - 1], q);
    forall i | 0 <= i < |r.placements| - 1 ensures Follows(r.placements[i], r.placements[i + 1]) {
      if i < |ps| - 1 {
        assert r.placements[i] == ps[i] && r.placements[i + 1] == ps[i + 1];
      }
    }
    forall i | 0 <= i < |r.placements| ensures InBounds(r.placements[i]) {
      if i < |ps| {
        assert r.placements[i] == ps[i];
      }
    }
  }

  lemma {:induction false} PlaceLinesSound(l: Layout, items: seq<ShoppingItem>)
    requires Sound(l)
    ensures Sound(PlaceLines(l, items))
  {
    if items != [] {
      var n := |items| - 1;
      PlaceLinesSound(l, items[..n]);
      PlaceAtSound(PlaceLines(l, items[..n]), LineLimit, 25, Line, PdfItemText(items[n]), 6);
    }
  }

  lemma PlaceGroupSound(l: Layout, g: Group)
    requires Sound(l)
    ensures Sound(PlaceGroup(l, g))
  {
    PlaceAtSound(l, HeadingLimit, 20, Heading, ToUpperCase(g.category), 8);
    PlaceLinesSound(PlaceHeading(l, g.category), g.items);
  }

  lemma {:induction false} PlaceGroupsSound(l: Layout, gs: seq<Group>)
    requires Sound(l)
    ensures Sound(PlaceGroups(l, gs))
  {
    if gs != [] {
      PlaceGroupsSound(l, gs[..|gs| - 1]);
      PlaceGroupSound(PlaceGroups(l, gs[..|gs| - 1]), gs[|gs| - 1]);
    }
  }

  /** How many times the placements move to a new page. */
  function Breaks(ps: seq<Placement>): nat {
    if |ps| <= 1 then 0
    else Breaks(ps[..|ps| - 1]) + (if ps[|ps| - 1].page == ps[|ps| - 2].page + 1 then 1 else 0)
  }

  /** In a flowing layout from page 1 the last page is 1 plus the page breaks. */
  lemma {:induction false} PagesAreBreaksPlusOne(ps: seq<Placement>)
    requires ps != [] && ps[0].page == 1 && Flows(ps)
    ensures ps[|ps| - 1].page == 1 + Breaks(ps)
  {
    if |ps| > 1 {
      var n := |ps| - 1;
      assert Flows(ps[..n]) by {
        forall i | 0 <= i < n - 1 ensures Follows(ps[..n][i], ps[..n][i + 1]) {
          assert ps[..n][i] == ps[i] && ps[..n][i + 1] == ps[i + 1];
        }
      }
      PagesAreBreaksPlusOne(ps[..n]);
      assert Follows(ps[n - 1], ps[n]);
    }
  }

  /** The document has one page more than it has page breaks. */
  lemma PdfPageCount(gs: seq<Group>, timestamp: string)
    ensures var l := PdfLayout(gs, timestamp); l.end.page == 1 + Breaks(l.placements)
  {
    PagesAreBreaksPlusOne(PdfLayout(gs, timestamp).placements);
  }

  // ---------------------------------------------------------- layout texts

  /** The texts of the placements of kind `k`, in order. */
  function TextsOf(ps: seq<Placement>, k: Kind): seq<string> {
    if ps == [] then []
    else TextsOf(ps[..|ps| - 1], k) + (if ps[|ps| - 1].kind == k then [ps[|ps| - 1].text] else [])
  }

  /** The PDF texts of the items, in order. */
  function PdfItemTexts(items: seq<ShoppingItem>): (r: seq<string>)
    ensures |r| == |items|
  {
    if items == [] then []
    else PdfItemTexts(items[..|items| - 1]) + [PdfItemText(items[|items| - 1])]
  }

  /** The upper-cased categories of the groups, in order. */
  function Headings(gs: seq<Group>): (r: seq<string>)
    ensures |r| == |gs|
  {
    if gs == [] then []
    else Headings(gs[..|gs| - 1]) + [ToUpperCase(gs[|gs| - 1].category)]
  }

  lemma PdfItemTextsConcat(a: seq<ShoppingItem>, b: seq<ShoppingItem>)
    ensures PdfItemTexts(a + b) == PdfItemTexts(a) + PdfItemTexts(b)
    decreases |b|
  {
    if b != [] {
      var n := |b| - 1;
      assert (a + b)[..|a + b| - 1] == a + b[..n];
      PdfItemTextsConcat(a, b[..n]);
    } else {
      assert a + b == a;
    }
  }

  lemma PlaceAtTexts(l: Layout, limit: int, x: int, kind: Kind, text: string, step: int, k: Kind)
    ensures TextsOf(PlaceAt(l, limit, x, kind, text, step).placements, k)
         == TextsOf(l.placements, k) + (if kind == k then [text] else [])
  {
    var ps := PlaceAt(l, limit, x, kind, text, step).placements;
    assert ps[..|ps| - 1] == l.placements;
  }

  lemma {:induction false} PlaceLinesTexts(l: Layout, items: seq<ShoppingItem>)
    ensures TextsOf(PlaceLines(l, items).placements, Line) == TextsOf(l.placements, Line) + PdfItemTexts(items)
    ensures TextsOf(PlaceLines(l, items).placements, Heading) == TextsOf(l.placements, Heading)
  {
    if items != [] {
      var n := |items| - 1;
      PlaceLinesTexts(l, items[..n]);
      var m := PlaceLines(l, items[..n]);
      var t := PdfItemText(items[n]);
      assert PlaceLines(l, items) == PlaceAt(m, LineLimit, 25, Line, t, 6);
      assert PdfItemTexts(items) == PdfItemTexts(items[..n]) + [t];
      PlaceAtTexts(m, LineLimit, 25, Line, t, 6, Line);
      PlaceAtTexts(m, LineLimit, 25, Line, t, 6, Heading);
      ConcatAssociates(TextsOf(l.placements, Line), PdfItemTexts(items[..n]), [t]);
    }
  }

  lemma PlaceGroupTexts(l: Layout, g: Group)
    ensures TextsOf(PlaceGroup(l, g).placements, Line) == TextsOf(l.placements, Line) + PdfItemTexts(g.items)
    ensures TextsOf(PlaceGroup(l, g).placements, Heading) == TextsOf(l.placements, Heading) + [ToUpperCase(g.category)]
  {
    PlaceAtTexts(l, HeadingLimit, 20, Heading, ToUpperCase(g.category), 8, Line);
    PlaceAtTexts(l, HeadingLimit, 20, Heading, ToUpperCase(g.category), 8, Heading);
    PlaceLinesTexts(PlaceHeading(l, g.category), g.items);
  }

  lemma {:induction false} PlaceGroupsTexts(l: Layout, gs: seq<Group>)
    ensures TextsOf(PlaceGroups(l, gs).placements, Line) == TextsOf(l.placements, Line) + PdfItemTexts(AllItems(gs))
    ensures TextsOf(PlaceGroups(l, gs).placements, Heading) == TextsOf(l.placements, Heading) + Headings(gs)
  {
    if gs != [] {
      var n := |gs| - 1;
      var g := gs[n];
      PlaceGroupsTexts(l, gs[..n]);
      var m := PlaceGroups(l, gs[..n]);
      assert PlaceGroups(l, gs) == PlaceGroup(m, g);
      PlaceGroupTexts(m, g);
      AllItemsSnoc(gs);
      var earlier := AllItems(gs[..n]);
      PdfItemTextsConcat(earlier, g.items);
      assert PdfItemTexts(AllItems(gs)) == PdfItemTexts(earlier) + PdfItemTexts(g.items);
      ConcatAssociates(TextsOf(l.placements, Line), PdfItemTexts(earlier), PdfItemTexts(g.items));
      ConcatAssociates(TextsOf(l.placements, Heading), Headings(gs[..n]), [ToUpperCase(g.category)]);
    }
  }

  /** The title lines are neither headings nor item lines. */
  lemma TitleBlockTexts(timestamp: string, k: Kind)
    requires k != Title
    ensures TextsOf(TitleBlock(timestamp), k) == []
  {
    var t := TitleBlock(timestamp);
    assert t[0].kind == Title && t[1].kind == Title;
    TextsOfNone(t, k);
  }

  /** Placements none of which has kind `k` hold no text of that kind. */
  lemma {:induction false} TextsOfNone(ps: seq<Placement>, k: Kind)
    requires forall i | 0 <= i < |ps| :: ps[i].kind != k
    ensures TextsOf(ps, k) == []
  {
    if ps != [] {
      var n := |ps| - 1;
      assert forall i | 0 <= i < n :: ps[..n][i] == ps[i];
      TextsOfNone(ps[..n], k);
    }
  }

  /** The document holds one heading per group, in order, upper-cased, and one
      line per item, group after group, in list order within each group; when the
      entries are those of `items`, there are exactly |items| item lines. */
  lemma PdfTexts(items: seq<ShoppingItem>, timestamp: string)
    requires GroupEntries(items).Normal?
    ensures var gs := GroupEntries(items).value;
      var ps := PdfLayout(gs, timestamp).placements;
      && TextsOf(ps, Heading) == Headings(gs)
      && TextsOf(ps, Line) == PdfItemTexts(AllItems(gs))
      && |TextsOf(ps, Line)| == |items|
  {
    var gs := GroupEntries(items).value;
    PlaceGroupsTexts(Start(timestamp), gs);
    TitleBlockTexts(timestamp, Line);
    TitleBlockTexts(timestamp, Heading);
    GroupEntriesPermutation(items);
  }

  // ------------------------------------------------------------ the panel

  /** The state of the panel: the "copied" badge and the PDF busy flag. */
  class Panel {
    var isCopied: bool
    var isGeneratingPdf: bool

    constructor()
      ensures !isCopied && !isGeneratingPdf
    {
      isCopied, isGeneratingPdf := false, false;
    }

    /** generatePDF (SendPanel.tsx:48-98): nothing at all for an empty list;
        otherwise the flag is raised, the document laid out and saved (or the
        thrown error caught) and the flag lowered again. */
    method GeneratePdf(items: seq<ShoppingItem>, timestamp: string, now: nat) returns (outcome: PdfOutcome)
      modifies this
      ensures outcome == PdfDocument(items, timestamp, now)
      ensures items == [] ==> isGeneratingPdf == old(isGeneratingPdf)
      ensures items != [] ==> !isGeneratingPdf
      ensures isCopied == old(isCopied)
    {
      if |items| == 0 {
        return NotStarted;
      }
      isGeneratingPdf := true;
      var grouped := Reduce(items);
      if grouped.TypeErrorThrown? {
        outcome := Failed;
      } else {
        var doc := DrawEntries(grouped.value, timestamp);
        outcome := Saved(PdfFileName(now), doc.end.page, doc.placements);
      }
      isGeneratingPdf := false;
    }

    /** handleCopy (SendPanel.tsx:100-104): the text goes to the clipboard and the
        badge shows, unless formatting throws first. */
    method HandleCopy(items: seq<ShoppingItem>) returns (copied: Completion<string>)
      modifies this
      ensures copied == ListText(items)
      ensures isCopied == (copied.Normal? || old(isCopied))
      ensures isGeneratingPdf == old(isGeneratingPdf)
    {
      copied := FormatListText(items);
      if copied.Normal? {
        isCopied := true;
      }
    }

    /** The timer set by handleCopy (SendPanel.tsx:103). */
    method CopiedTimeout()
      modifies this
      ensures !isCopied && isGeneratingPdf == old(isGeneratingPdf)
    {
      isCopied := false;
    }
  }
}
