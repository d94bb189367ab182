/**
 * Text matching used by the product search: ASCII lowercasing and
 * substring containment, and the case-insensitive substring relation the
 * search is meant to implement.
 */
module Text {

  /** ASCII lowercasing of one character; every other character is kept. */
  function LowerChar(c: char): (l: char)
    ensures 'A' <= c <= 'Z' ==> 'a' <= l <= 'z'
    ensures !('A' <= c <= 'Z') ==> l == c
  {
    if 'A' <= c <= 'Z' then (c as int - 'A' as int + 'a' as int) as char else c
  }

  /** ASCII lowercasing of a string, character by character. */
  function Lower(s: string): (r: string)
    ensures |r| == |s|
    ensures forall k :: 0 <= k < |s| ==> r[k] == LowerChar(s[k])
  {
    if s == [] then [] else [LowerChar(s[0])] + Lower(s[1..])
  }

  /** `p` occurs in `text` starting at position `i`. */
  predicate OccursAt(text: string, p: string, i: int)
  {
    0 <= i <= |text| - |p| && text[i..i + |p|] == p
  }

  /** `p` occurs in `text` at some position (no anchoring). */
  predicate ContainsSubstring(text: string, p: string)
  {
    exists i :: 0 <= i <= |text| - |p| && OccursAt(text, p, i)
  }

  /** Two strings of equal length whose characters agree up to ASCII case. */
  predicate EqualIgnoringCase(a: string, b: string)
  {
    |a| == |b| && forall k :: 0 <= k < |a| ==> LowerChar(a[k]) == LowerChar(b[k])
  }

  /** The slice of `text` starting at `i` equals `q` up to case. */
  predicate OccursIgnoringCaseAt(text: string, q: string, i: int)
  {
    0 <= i <= |text| - |q| && EqualIgnoringCase(text[i..i + |q|], q)
  }

  /** `q` is a case-insensitive substring of `text`: some slice of `text` equals `q` up to case. */
  predicate ContainsIgnoringCase(text: string, q: string)
  {
    exists i :: 0 <= i <= |text| - |q| && OccursIgnoringCaseAt(text, q, i)
  }

  /** At one position, the lowered query occurs in the lowered text exactly when the query occurs there up to case. */
  lemma LoweredOccurrence(text: string, q: string, i: int)
    requires 0 <= i <= |text| - |q|
    ensures OccursAt(Lower(text), Lower(q), i) <==> OccursIgnoringCaseAt(text, q, i)
  {
    var w := text[i..i + |q|];
    var a := Lower(text)[i..i + |q|];
    if a == Lower(q) {
      forall k | 0 <= k < |q| ensures LowerChar(w[k]) == LowerChar(q[k]) {
        assert a[k] == Lower(q)[k];
        assert w[k] == text[i + k];
      }
    }
    if EqualIgnoringCase(w, q) {
      forall k | 0 <= k < |q| ensures a[k] == Lower(q)[k] {
        assert w[k] == text[i + k];
      }
      assert a == Lower(q);
    }
  }

  /**
   * Searching the lowered text for the lowered query is exactly
   * case-insensitive substring containment.
   */
  lemma {:induction false} LoweredSearchIsCaseInsensitive(text: string, q: string)
    ensures ContainsSubstring(Lower(text), Lower(q)) <==> ContainsIgnoringCase(text, q)
  {
    if ContainsSubstring(Lower(text), Lower(q)) {
      var i :| 0 <= i <= |Lower(text)| - |Lower(q)| && OccursAt(Lower(text), Lower(q), i);
      LoweredOccurrence(text, q, i);
    }
    if ContainsIgnoringCase(text, q) {
      var i :| 0 <= i <= |text| - |q| && OccursIgnoringCaseAt(text, q, i);
      LoweredOccurrence(text, q, i);
    }
  }

  /** A query whose first character occurs nowhere in the text, up to case, is not contained in it. */
  lemma MissingFirstCharacter(text: string, q: string)
    requires |q| > 0
    requires forall k :: 0 <= k < |text| ==> LowerChar(text[k]) != LowerChar(q[0])
    ensures !ContainsIgnoringCase(text, q)
  {
    forall i | 0 <= i <= |text| - |q| ensures !OccursIgnoringCaseAt(text, q, i) {
      assert text[i..i + |q|][0] == text[i];
    }
  }
}
