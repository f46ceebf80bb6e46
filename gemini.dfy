/** The two calls into the AI service (services/geminiService.ts), with the service
    itself replaced by its reply: what the code builds to send, and what it makes of
    whatever comes back. */
module Gemini {
  import opened Wrappers
  import opened Seqs
  import opened Js
  import opened Types

  /** How `ai.models.generateContent` settles: it rejects (any thrown error), or it
      resolves with a response whose `text` may be undefined. */
  datatype Response = Rejected | Resolved(text: Option<string>)

  const CategorizeLead: string := "Categorize the following grocery item into one of these aisles: "
  const CategorizeTail: string := ". Return only the category name. Item: "

  /** The prompt categorizeItem sends (services/geminiService.ts:12). */
  function CategorizePrompt(itemName: string): string {
    CategorizeLead + Join(Labels(), ", ") + CategorizeTail + itemName
  }

  /** The categorization prompt names every aisle and ends with the item name. */
  lemma CategorizePromptListsEveryAisle(itemName: string, c: AisleCategory)
    ensures IsInfix(Label(c), CategorizePrompt(itemName))
    ensures var p := CategorizePrompt(itemName); |p| >= |itemName| && p[|p| - |itemName|..] == itemName
  {
    var i := Position(c);
    var labels := Labels();
    var list := Join(labels, ", ");
    assert labels[i] == Label(c);
    JoinContainsParts(labels, ", ", i);
    InfixWithin(Label(c), CategorizeLead, list, CategorizeTail + itemName);
    ConcatAssociates(CategorizeLead + list, CategorizeTail, itemName);
    EndsWith(CategorizeLead + list + CategorizeTail, itemName);
  }

  /** categorizeItem (services/geminiService.ts:8-21) given the service's reply: the
      trimmed text when it is exactly (case-sensitively) the value of a member, and
      Other for anything else -- a rejection, an undefined or empty text, a text
      that matches no member, a differently cased one. */
  function CategorizeItem(response: Response): (r: AisleCategory)
    ensures response.Resolved? && response.text.Some? && IsLabel(Trim(response.text.value))
      ==> Label(r) == Trim(response.text.value)
    ensures !(response.Resolved? && response.text.Some? && IsLabel(Trim(response.text.value)))
      ==> r == Other
  {
    match response
    case Rejected => Other
    case Resolved(None) => Other
    case Resolved(Some(text)) =>
      match FromLabel(Trim(text))
      case Some(c) => c
      case None => Other
  }

  /** A reply naming a member, whatever blank padding surrounds it, yields that member. */
  lemma CategorizeItemAcceptsPaddedLabel(c: AisleCategory, before: string, after: string)
    requires IsBlank(before) && IsBlank(after)
    ensures CategorizeItem(Resolved(Some(before + Label(c) + after))) == c
  {
    TrimSurrounded(before, Label(c), after);
    FromLabelInvertsLabel(c);
  }

  const SuggestionLead: string := "Based on this shopping list: "
  const SuggestionTail: string :=
    ", suggest 4 additional items that are often bought together with these. Return in JSON format."

  /** The prompt getSmartSuggestions sends (services/geminiService.ts:27): the current
      item names joined by ", " between a fixed lead and a fixed tail. */
  function SuggestionPrompt(names: seq<string>): (r: string)
    ensures forall i | 0 <= i < |names| :: IsInfix(names[i], r)
  {
    var joined := Join(names, ", ");
    var r := SuggestionLead + joined + SuggestionTail;
    assert forall i | 0 <= i < |names| :: IsInfix(names[i], r) by {
      forall i | 0 <= i < |names| ensures IsInfix(names[i], r) {
        JoinContainsParts(names, ", ", i);
        InfixWithin(names[i], SuggestionLead, joined, SuggestionTail);
      }
    }
    r
  }

  /** getSmartSuggestions (services/geminiService.ts:23-52) given the service's reply.
      `parse` stands for JSON.parse: None where it throws, else the value it returns,
      which the code passes on unchecked.  A rejection, a thrown parse and an
      undefined or empty text (parsed as "[]") all give no suggestions. */
  function SmartSuggestions(response: Response, parse: string -> Option<seq<SmartSuggestion>>)
    : (r: seq<SmartSuggestion>)
    ensures response.Rejected? ==> r == []
    ensures response.Resolved? && (response.text.None? || response.text.value == "") ==> r == []
    ensures response.Resolved? && response.text.Some? && response.text.value != ""
      ==> r == parse(response.text.value).GetOr([])
  {
    match response
    case Rejected => []
    case Resolved(text) =>
      if text.None? || text.value == "" then []
      else match parse(text.value)
        case None => []
        case Some(suggestions) => suggestions
  }
}
