/**
 * The data-annotation attributes the record classes carry, as predicates on
 * field values: [Required] on a string, [StringLength(n)] and the anchored
 * regular expression ^\d{n}$ used for phone numbers.
 */
module Annotations {

  /** A DateTime is an instant, as a count of ticks; the clock itself is an input of the model. */
  type DateTime = int

  /** The characters .NET's char.IsWhiteSpace accepts. */
  predicate IsWhiteSpace(ch: char) {
    || ('\t' <= ch <= '\r')
    || ch == ' '
    || ch == '\U{0085}'
    || ch == '\U{00A0}'
    || ch == '\U{1680}'
    || ('\U{2000}' <= ch <= '\U{200A}')
    || ch == '\U{2028}'
    || ch == '\U{2029}'
    || ch == '\U{202F}'
    || ch == '\U{205F}'
    || ch == '\U{3000}'
  }

  /** [Required] on a present string: it is not empty and not made of white space only. */
  predicate Required(s: string) {
    exists i :: 0 <= i < |s| && !IsWhiteSpace(s[i])
  }

  /** [StringLength(max)]: at most `max` characters. */
  predicate StringLength(s: string, max: nat) {
    |s| <= max
  }

  /** The regular-expression class \d, restricted to the ASCII digits. */
  predicate IsDigit(ch: char) {
    '0' <= ch <= '9'
  }

  /**
   * The whole string matches ^\d{n}$: it consists of exactly n repetitions of
   * \d, consumed one character at a time as a regex engine does.
   */
  predicate MatchesDigits(s: string, n: nat)
    decreases n
  {
    if n == 0 then s == []
    else |s| > 0 && IsDigit(s[0]) && MatchesDigits(s[1..], n - 1)
  }

  /** ^\d{n}$ accepts exactly the strings of length n made of digits only. */
  lemma {:induction false} MatchesDigitsExactly(s: string, n: nat)
    ensures MatchesDigits(s, n) <==> |s| == n && forall i :: 0 <= i < |s| ==> IsDigit(s[i])
    decreases n
  {
    if n > 0 && |s| > 0 {
      MatchesDigitsExactly(s[1..], n - 1);
      assert forall i :: 0 < i < |s| ==> s[i] == s[1..][i - 1];
      if |s| == n && forall i :: 0 <= i < |s| ==> IsDigit(s[i]) {
        assert forall i :: 0 <= i < |s[1..]| ==> IsDigit(s[1..][i]) by {
          forall i | 0 <= i < |s[1..]| ensures IsDigit(s[1..][i]) {
            assert s[1..][i] == s[i + 1];
          }
        }
      }
    }
  }

  /** A string that matches ^\d{n}$ for some n > 0 also satisfies [Required]. */
  lemma DigitsAreRequired(s: string, n: nat)
    requires n > 0 && MatchesDigits(s, n)
    ensures Required(s)
  {
    assert !IsWhiteSpace(s[0]);
  }
}
