/** `validateUrl`, written out identically in the add-link and the edit-link
    dialogs: an empty input gives the empty string; an input without an
    `http://` or `https://` prefix gets `https://` put in front; the result
    is kept when the browser's URL parser (section 4.4 of the WHATWG URL
    Standard) accepts it and replaced by the empty string when it throws.
    The parser is the parameter `parses`: its accept/reject decision is all
    the dialogs use. */
module LinkUrl {
  import opened Strings

  predicate HasScheme(s: string) {
    StartsWith(s, "http://") || StartsWith(s, "https://")
  }

  /** The candidate handed to the parser. */
  function WithScheme(input: string): (r: string)
    ensures HasScheme(r)
    ensures HasScheme(input) ==> r == input
    ensures !HasScheme(input) ==> r == "https://" + input && r[8..] == input
  {
    if HasScheme(input) then input else "https://" + input
  }

  function ValidateUrl(input: string, parses: string -> bool): (r: string)
    ensures input == "" ==> r == ""
    ensures r != "" ==> r == WithScheme(input) && parses(r)
    ensures input != "" && parses(WithScheme(input)) ==> r == WithScheme(input)
  {
    if input == "" then ""
    else
      var candidate := WithScheme(input);
      if parses(candidate) then candidate else ""
  }

  /** A non-empty result carries a scheme and is accepted by the parser, so
      validating it again returns it unchanged. */
  lemma ValidateUrlIdempotent(input: string, parses: string -> bool)
    ensures var r := ValidateUrl(input, parses);
      (r != "" ==> HasScheme(r)) && ValidateUrl(r, parses) == r
  {
  }

  /** Whatever was typed survives in the result: a non-empty result is the
      input itself or the input behind `https://`. */
  lemma ValidateUrlKeepsInput(input: string, parses: string -> bool)
    ensures var r := ValidateUrl(input, parses);
      r == "" || r == input || (r == "https://" + input && !HasScheme(input))
  {
  }

  /** Typed input with a scheme is only ever checked, never rewritten; a
      bare host name is always tried with `https://`. */
  lemma ValidateUrlExamples(parses: string -> bool)
    requires forall s :: parses(s)
    ensures ValidateUrl("example.com", parses) == "https://example.com"
    ensures ValidateUrl("http://example.com", parses) == "http://example.com"
    ensures ValidateUrl("", parses) == ""
  {
    assert !StartsWith("example.com", "http://");
    assert !StartsWith("example.com", "https://");
    assert StartsWith("http://example.com", "http://");
  }
}
