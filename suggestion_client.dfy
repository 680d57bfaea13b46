/**
 * The writing-suggestion call of InkSync, reduced to the rule that turns
 * what the generative-text service did into the text the editor appends.
 * The request itself (prompt template, model name, network) is outside the
 * model; its outcome is an input.
 */
module SuggestionClient {
  import opened Wrappers

  /** What the service call did: answered (with a text field that may be missing) or threw. */
  datatype Outcome = Responded(text: Option<string>) | Failed

  /** Returned when the service answers with no text. */
  const NoIdeaText := "I couldn't think of anything right now. \U{2728}"

  /** Returned when the call throws. */
  const NapText := "The muse is taking a nap. Try again in a second! \U{2601}\U{FE0F}"

  /** `response.text || NoIdeaText`, and `NapText` from the catch. */
  function SuggestionText(o: Outcome): (r: string)
    ensures r != ""
    ensures o.Responded? && o.text.Some? && o.text.value != "" ==> r == o.text.value
    ensures o.Responded? && (o.text.None? || o.text.value == "") ==> r == NoIdeaText
    ensures o.Failed? ==> r == NapText
  {
    match o
    case Responded(Some(t)) => if t != "" then t else NoIdeaText
    case Responded(None) => NoIdeaText
    case Failed => NapText
  }
}
