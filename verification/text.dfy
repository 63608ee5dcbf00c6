/**
 * Ordinal substring search, as used to recognise provider error codes
 * inside an exception message.
 */
module Text {

  /** `pattern` occurs in `s` starting at index `i`. */
  predicate OccursAt(s: string, pattern: string, i: nat) {
    i + |pattern| <= |s| && s[i..i + |pattern|] == pattern
  }

  /** Reference definition: `pattern` occurs somewhere in `s`. */
  ghost predicate Occurs(s: string, pattern: string) {
    exists i: nat :: OccursAt(s, pattern, i)
  }

  /** Scans `s` from the left for an occurrence of `pattern`. */
  function Contains(s: string, pattern: string): (b: bool)
    decreases |s|
  {
    if pattern <= s then true
    else if s == [] then false
    else Contains(s[1..], pattern)
  }

  /** An occurrence in the tail of `s` is an occurrence in `s`, one index later. */
  lemma OccursAtShift(s: string, pattern: string, i: nat)
    requires s != []
    ensures OccursAt(s[1..], pattern, i) <==> OccursAt(s, pattern, i + 1)
  {
    if i + 1 + |pattern| <= |s| {
      assert s[1..][i..i + |pattern|] == s[i + 1..i + 1 + |pattern|];
    }
  }

  /** The scan finds exactly the occurrences of the reference definition. */
  lemma {:induction false} ContainsIsOccurs(s: string, pattern: string)
    ensures Contains(s, pattern) <==> Occurs(s, pattern)
    decreases |s|
  {
    if pattern <= s {
      assert s[0..|pattern|] == pattern;
      assert OccursAt(s, pattern, 0);
    } else if s == [] {
      assert pattern != [];
      forall i: nat
        ensures !OccursAt(s, pattern, i)
      {
      }
    } else {
      ContainsIsOccurs(s[1..], pattern);
      if Occurs(s, pattern) {
        var i: nat :| OccursAt(s, pattern, i);
        assert i != 0 by {
          assert OccursAt(s, pattern, 0) ==> pattern <= s;
        }
        OccursAtShift(s, pattern, i - 1);
      }
      if Occurs(s[1..], pattern) {
        var i: nat :| OccursAt(s[1..], pattern, i);
        OccursAtShift(s, pattern, i);
      }
    }
  }
}
