/** The App component (App.tsx): the state its hooks hold and the handlers that
    replace it.  Each handler runs to completion here; the functions of ItemStore
    compute every new list. */
module ShoppingApp {
  import opened Wrappers
  import opened Js
  import opened Types
  import opened ItemStore
  import Gemini

  class App {
    var isDark: bool
    var targetNumber: string
    var items: seq<ShoppingItem>
    var inputName: string
    var inputQty: string
    var isAdding: bool
    var suggestions: seq<SmartSuggestion>
    /** items.length when the suggestion effect last ran (its dependency list). */
    var effectLength: nat

    /** Between handler calls no categorization is in flight. */
    ghost predicate Valid()
      reads this
    {
      !isAdding
    }

    /** The first render (App.tsx:10-23) given what local storage holds under
        "theme" and "target_number".  The mount run of the suggestion effect sees
        length 0 and fetches nothing. */
    constructor (storedTheme: Option<string>, storedNumber: Option<string>)
      ensures Valid()
      ensures isDark == DecodeTheme(storedTheme)
      ensures targetNumber == DecodeTargetNumber(storedNumber)
      ensures items == [] && suggestions == []
      ensures inputName == "" && inputQty == "1"
      ensures effectLength == 0
    {
      isDark := DecodeTheme(storedTheme);
      targetNumber := DecodeTargetNumber(storedNumber);
      items := [];
      inputName := "";
      inputQty := "1";
      isAdding := false;
      suggestions := [];
      effectLength := 0;
    }

    /** The value the theme effect writes to storage (App.tsx:27); reading it back
        at the next start gives the current theme. */
    function StoredTheme(): (s: string)
      reads this
      ensures DecodeTheme(Some(s)) == isDark
    {
      EncodeTheme(isDark)
    }

    /** completedCount (App.tsx:101). */
    function Completed(): (n: nat)
      reads this
      ensures n <= |items|
    {
      CompletedCount(items)
    }

    /** The header's theme switch (App.tsx:108). */
    method ToggleTheme()
      requires Valid()
      modifies this
      ensures Valid() && isDark == !old(isDark)
      ensures targetNumber == old(targetNumber) && items == old(items)
      ensures suggestions == old(suggestions) && effectLength == old(effectLength)
      ensures inputName == old(inputName) && inputQty == old(inputQty)
    {
      isDark := !isDark;
    }

    /** The phone-number field (App.tsx:231, via the panel's input). */
    method SetTargetNumber(number: string)
      requires Valid()
      modifies this
      ensures Valid() && targetNumber == number
      ensures isDark == old(isDark) && items == old(items)
      ensures suggestions == old(suggestions) && effectLength == old(effectLength)
      ensures inputName == old(inputName) && inputQty == old(inputQty)
    {
      targetNumber := number;
    }

    /** The name and quantity fields (App.tsx:117, 131). */
    method SetInputs(name: string, qty: string)
      requires Valid()
      modifies this
      ensures Valid() && inputName == name && inputQty == qty
      ensures isDark == old(isDark) && targetNumber == old(targetNumber) && items == old(items)
      ensures suggestions == old(suggestions) && effectLength == old(effectLength)
    {
      inputName, inputQty := name, qty;
    }

    /** handleAddItem (App.tsx:36-56).  A name that trims to nothing returns at once
        and changes nothing.  Otherwise the untrimmed name is sent for
        categorization (`categorized` is the name handed to categorizeItem, from which
        Gemini.CategorizePrompt builds the request; `response` is what the service
        answers) and only then is exactly one item appended, with id `id`; the
        fields are reset and isAdding ends false. */
    method HandleAddItem(response: Gemini.Response, id: string) returns (categorized: Option<string>)
      requires Valid()
      modifies this
      ensures Valid()
      ensures IsBlank(old(inputName)) ==>
        && categorized == None && items == old(items)
        && inputName == old(inputName) && inputQty == old(inputQty)
      ensures !IsBlank(old(inputName)) ==>
        && categorized == Some(old(inputName))
        && items == old(items) + [FormItem(id, old(inputName), old(inputQty),
                                           Gemini.CategorizeItem(response)).value]
        && inputName == "" && inputQty == "1"
      ensures isDark == old(isDark) && targetNumber == old(targetNumber)
      ensures suggestions == old(suggestions) && effectLength == old(effectLength)
    {
      var name, qty := inputName, inputQty;
      if Trim(name) == "" {
        return None;
      }
      isAdding := true;
      categorized := Some(name);
      var category := Gemini.CategorizeItem(response);
      var newItem := FormItem(id, name, qty, category);
      items := items + [newItem.value];
      inputName, inputQty := "", "1";
      isAdding := false;
    }

    /** handleQuickAdd (App.tsx:58-68): appends the suggested item (quantity "1",
        not completed) and drops every suggestion of that name. */
    method HandleQuickAdd(name: string, category: string, id: string)
      requires Valid()
      modifies this
      ensures Valid()
      ensures items == old(items) + [SuggestedItem(id, name, category)]
      ensures suggestions == WithoutSuggestion(old(suggestions), name)
      ensures isDark == old(isDark) && targetNumber == old(targetNumber)
      ensures inputName == old(inputName) && inputQty == old(inputQty)
      ensures effectLength == old(effectLength)
    {
      items := items + [SuggestedItem(id, name, category)];
      suggestions := WithoutSuggestion(suggestions, name);
    }

    /** removeItem (App.tsx:70-72). */
    method RemoveItem(id: string)
      requires Valid()
      modifies this
      ensures Valid() && items == ItemStore.RemoveItem(old(items), id)
      ensures isDark == old(isDark) && targetNumber == old(targetNumber)
      ensures suggestions == old(suggestions) && effectLength == old(effectLength)
      ensures inputName == old(inputName) && inputQty == old(inputQty)
    {
      items := ItemStore.RemoveItem(items, id);
    }

    /** toggleItem (App.tsx:74-78). */
    method ToggleItem(id: string)
      requires Valid()
      modifies this
      ensures Valid() && items == ItemStore.ToggleItem(old(items), id)
      ensures isDark == old(isDark) && targetNumber == old(targetNumber)
      ensures suggestions == old(suggestions) && effectLength == old(effectLength)
      ensures inputName == old(inputName) && inputQty == old(inputQty)
    {
      items := ItemStore.ToggleItem(items, id);
    }

    /** updateQuantity (App.tsx:80-84). */
    method UpdateQuantity(id: string, quantity: string)
      requires Valid()
      modifies this
      ensures Valid() && items == ItemStore.UpdateQuantity(old(items), id, quantity)
      ensures isDark == old(isDark) && targetNumber == old(targetNumber)
      ensures suggestions == old(suggestions) && effectLength == old(effectLength)
      ensures inputName == old(inputName) && inputQty == old(inputQty)
    {
      items := ItemStore.UpdateQuantity(items, id, quantity);
    }

    /** clearCompleted (App.tsx:86-88): the list shrinks by completedCount. */
    method ClearCompleted()
      requires Valid()
      modifies this
      ensures Valid() && items == ItemStore.ClearCompleted(old(items))
      ensures |items| == |old(items)| - CompletedCount(old(items))
      ensures isDark == old(isDark) && targetNumber == old(targetNumber)
      ensures suggestions == old(suggestions) && effectLength == old(effectLength)
      ensures inputName == old(inputName) && inputQty == old(inputQty)
    {
      ClearCompletedRemovesCompletedCount(items);
      items := ItemStore.ClearCompleted(items);
    }

    /** The suggestion effect (App.tsx:90-99), run after a render.  It runs only when
        items.length differs from its last run, and then fetches only for a
        positive multiple of 3 -- after removals as much as after additions.  The
        fetch sends the item names (`prompt`); `response` and `parse` stand for the
        service's answer and JSON.parse, and the result replaces the suggestions. */
    method RunSuggestionEffect(response: Gemini.Response, parse: string -> Option<seq<SmartSuggestion>>)
      returns (prompt: Option<string>)
      requires Valid()
      modifies this
      ensures Valid() && effectLength == |items|
      ensures (|items| != old(effectLength) && ShouldFetchSuggestions(|items|)) ==>
        && prompt == Some(Gemini.SuggestionPrompt(Names(items)))
        && suggestions == Gemini.SmartSuggestions(response, parse)
      ensures !(|items| != old(effectLength) && ShouldFetchSuggestions(|items|)) ==>
        prompt == None && suggestions == old(suggestions)
      ensures items == old(items) && isDark == old(isDark) && targetNumber == old(targetNumber)
      ensures inputName == old(inputName) && inputQty == old(inputQty)
    {
      prompt := None;
      if |items| != effectLength {
        effectLength := |items|;
        if ShouldFetchSuggestions(|items|) {
          prompt := Some(Gemini.SuggestionPrompt(Names(items)));
          suggestions := Gemini.SmartSuggestions(response, parse);
        }
      }
    }
  }

  /** `items.map(i => i.name)` (App.tsx:93). */
  function Names(items: seq<ShoppingItem>): (names: seq<string>)
    ensures |names| == |items|
    ensures forall k | 0 <= k < |items| :: names[k] == items[k].name
  {
    seq(|items|, k requires 0 <= k < |items| => items[k].name)
  }
}
