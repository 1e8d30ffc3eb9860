/** Text compared without regard to the case of its ASCII letters. */
module Ascii {
  function Lower(c: char): char {
    if 'A' <= c <= 'Z' then (c as int - 'A' as int + 'a' as int) as char else c
  }

  /** `eq_ignore_ascii_case` */
  predicate SameIgnoringCase(a: string, b: string) {
    |a| == |b| && forall i :: 0 <= i < |a| ==> Lower(a[i]) == Lower(b[i])
  }

  /** One is a capital and the other its small letter, 32 codes above. */
  predicate CaseOf(a: char, b: char) {
    ('A' <= a <= 'Z' && b as int == a as int + 32) || ('A' <= b <= 'Z' && a as int == b as int + 32)
  }

  /** The same text but for the case of its ASCII letters. */
  predicate SameLetters(a: string, b: string) {
    |a| == |b| && forall i :: 0 <= i < |a| ==> a[i] == b[i] || CaseOf(a[i], b[i])
  }

  lemma LowerFolds(a: char, b: char)
    ensures Lower(a) == Lower(b) <==> a == b || CaseOf(a, b)
  {
  }

  /** Ignoring case ignores the case of ASCII letters and nothing else. */
  lemma {:induction false} IgnoringCaseIs(a: string, b: string)
    ensures SameIgnoringCase(a, b) <==> SameLetters(a, b)
  {
    hide Lower, CaseOf;
    if |a| == |b| {
      forall i | 0 <= i < |a| ensures Lower(a[i]) == Lower(b[i]) <==> a[i] == b[i] || CaseOf(a[i], b[i]) {
        LowerFolds(a[i], b[i]);
      }
    }
  }
}
