/** The parts of response formatting that carry a guarantee
    (src/services/formatter.ts): the length cap every tool response passes
    through, and the placeholder for missing amounts.  The markdown and JSON
    renderers themselves are not modelled. */
module Formatter {
  import opened Wrappers
  import opened Constants

  /** Appended to a response that was cut short. */
  const TruncationNotice: string :=
    NoticeLead + "truncated" + " at 25,000 characters. Use page_size or filters to narrow results."

  const NoticeLead: string := "\n\n---\n⚠️ Response "

  /** Characters of the original text a truncated response keeps. */
  const KeptPrefix: nat := CharacterLimit - 100

  /** A text within the limit passes unchanged; a longer one keeps its first
      24 900 characters followed by the notice. */
  function Truncate(text: string): (r: string)
    ensures |text| <= CharacterLimit ==> r == text
    ensures |text| > CharacterLimit ==> r == text[..KeptPrefix] + TruncationNotice
    ensures |r| <= CharacterLimit
  {
    if |text| <= CharacterLimit then text
    else text[..CharacterLimit - 100] + TruncationNotice
  }

  /** `w` occurs in `s` starting at position `i`. */
  predicate OccursAt(s: string, w: string, i: int) {
    0 <= i && i + |w| <= |s| && s[i..i + |w|] == w
  }

  /** A cut-short response says so: the word "truncated" occurs in it. */
  lemma TruncatedSaysSo(text: string)
    requires |text| > CharacterLimit
    ensures exists i :: OccursAt(Truncate(text), "truncated", i)
  {
    var i := KeptPrefix + |NoticeLead|;
    assert Truncate(text)[i..i + 9] == TruncationNotice[|NoticeLead|..|NoticeLead| + 9];
    assert OccursAt(Truncate(text), "truncated", i);
  }

  /** A truncated response starts with the original text's first 24 900
      characters and ends with the notice. */
  lemma TruncatedShape(text: string)
    requires |text| > CharacterLimit
    ensures |Truncate(text)| == KeptPrefix + |TruncationNotice|
    ensures Truncate(text)[..KeptPrefix] == text[..KeptPrefix]
    ensures Truncate(text)[KeptPrefix..] == TruncationNotice
  {
  }

  /** Truncating twice is truncating once. */
  lemma TruncateIdempotent(text: string)
    ensures Truncate(Truncate(text)) == Truncate(text)
  {
  }

  /** `formatUsd`: "N/A" for a missing amount, otherwise the dollar sign and
      the amount as the locale renders it. */
  function FormatUsd(value: Option<real>, render: real -> string): (r: string)
    ensures value.None? <==> r == "N/A"
    ensures value.Some? ==> |r| >= 1 && r[0] == '$' && r[1..] == render(value.value)
  {
    if value.None? then "N/A"
    else
      var r := "$" + render(value.value);
      assert r[0] != "N/A"[0];
      r
  }

  /** The two formatters agree on a missing value, and for a present one
      the dollar amount is the number's rendering behind a dollar sign, so
      they render with the same locale. */
  lemma UsdIsDollarNumber(value: Option<real>, render: real -> string)
    ensures value.None? ==> FormatUsd(value, render) == FormatNumber(value, render)
    ensures value.Some? ==> FormatUsd(value, render) == "$" + FormatNumber(value, render)
  {
  }

  /** `formatNumber`: "N/A" for a missing number, otherwise its rendering. */
  function FormatNumber(value: Option<real>, render: real -> string): (r: string)
    ensures value.None? ==> r == "N/A"
    ensures value.Some? ==> r == render(value.value)
  {
    if value.None? then "N/A" else render(value.value)
  }
}
