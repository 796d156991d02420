/** Display helpers for the text interface (src/pres/utils.rs). */
module Utils {
  /** `max_chars.saturating_sub(3)`. */
  function SaturatingSub(a: nat, b: nat): nat {
    if a >= b then a - b else 0
  }

  /**
   * `truncate_string`: a string longer than `maxChars` characters keeps its
   * first `maxChars - 3` characters (none when `maxChars < 3`) followed by "...".
   */
  function TruncateString(s: string, maxChars: nat): (r: string)
    ensures |s| <= maxChars ==> r == s
    ensures |s| > maxChars ==> r == s[..SaturatingSub(maxChars, 3)] + "..."
    ensures |r| <= if maxChars >= 3 then maxChars else 3
  {
    if |s| > maxChars then s[..SaturatingSub(maxChars, 3)] + "..." else s
  }

  /** Truncating twice with the same width is the same as truncating once. */
  lemma TruncateStringIdempotent(s: string, maxChars: nat)
    ensures TruncateString(TruncateString(s, maxChars), maxChars) == TruncateString(s, maxChars)
  {
    var r := TruncateString(s, maxChars);
    if |s| > maxChars && |r| > maxChars {
      assert maxChars < 3;
      assert r[..SaturatingSub(maxChars, 3)] == [];
    }
  }

  /** `truncate_string_exact`: the first `maxChars` characters, no marker. */
  function TruncateStringExact(s: string, maxChars: nat): (r: string)
    ensures |r| == if |s| < maxChars then |s| else maxChars
    ensures r <= s
  {
    if |s| <= maxChars then s else s[..maxChars]
  }

  /** The exact truncation never yields more than the marked one keeps of the original text. */
  lemma TruncationsAgreeOnPrefix(s: string, maxChars: nat)
    requires maxChars >= 3 && |s| > maxChars
    ensures TruncateString(s, maxChars) == TruncateStringExact(s, maxChars - 3) + "..."
    ensures |TruncateString(s, maxChars)| == |TruncateStringExact(s, maxChars)|
  {
  }
}
