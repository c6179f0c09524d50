/**
 * Ordinal, case-insensitive substring search: the `string.Contains(value,
 * StringComparison.OrdinalIgnoreCase)` test the fault classifier applies to a
 * backend exception's message.
 *
 * Characters are compared by their upper-case form. Only the ASCII letters
 * have a case mapping here; every other character compares by its code.
 */
module OrdinalText {

  /** Upper-case form of one character: 'a'..'z' map to 'A'..'Z', every other character to itself. */
  function UpperAscii(c: char): (u: char)
    ensures !('a' <= u <= 'z')
    ensures u == c || u as int + 32 == c as int
  {
    if 'a' <= c <= 'z' then (c as int - 32) as char else c
  }

  /** Two characters that differ at most in letter case. */
  predicate SameIgnoringCase(a: char, b: char)
  {
    UpperAscii(a) == UpperAscii(b)
  }

  /** `needle` occurs in `hay` starting at offset `i`, ignoring letter case. */
  predicate MatchesAt(hay: string, needle: string, i: int)
  {
    && 0 <= i
    && i + |needle| <= |hay|
    && forall k :: i <= k < i + |needle| ==> SameIgnoringCase(hay[k], needle[k - i])
  }

  /** Reference definition: some offset of `hay` starts a case-insensitive occurrence of `needle`. */
  ghost predicate Occurs(hay: string, needle: string)
  {
    exists i :: MatchesAt(hay, needle, i)
  }

  /** The executable test the classifier uses: try offset 0, then search the rest of `hay`. */
  predicate ContainsIgnoreCase(hay: string, needle: string)
    decreases |hay|
  {
    if |hay| < |needle| then false
    else MatchesAt(hay, needle, 0) || (0 < |hay| && ContainsIgnoreCase(hay[1..], needle))
  }

  /** An occurrence in `hay[1..]` at offset `i` is an occurrence in `hay` at offset `i + 1`. */
  lemma MatchesAtTail(hay: string, needle: string, i: int)
    requires 0 < |hay| && 0 <= i
    ensures MatchesAt(hay[1..], needle, i) <==> MatchesAt(hay, needle, i + 1)
  {
  }

  /** The executable search agrees with the reference definition, in both directions. */
  lemma {:induction false} ContainsIgnoreCaseIsOccurs(hay: string, needle: string)
    ensures ContainsIgnoreCase(hay, needle) <==> Occurs(hay, needle)
    decreases |hay|
  {
    if |hay| < |needle| {
    } else if MatchesAt(hay, needle, 0) {
    } else if 0 < |hay| {
      ContainsIgnoreCaseIsOccurs(hay[1..], needle);
      if ContainsIgnoreCase(hay[1..], needle) {
        var i :| MatchesAt(hay[1..], needle, i);
        MatchesAtTail(hay, needle, i);
      }
      if Occurs(hay, needle) {
        var i :| MatchesAt(hay, needle, i);
        assert i != 0;
        MatchesAtTail(hay, needle, i - 1);
      }
    }
  }

  /**
   * Index of the first case-insensitive occurrence of `needle` in `hay`, or -1:
   * the ordinal `IndexOf` on which `Contains` is built.
   */
  method IndexOfIgnoreCase(hay: string, needle: string) returns (index: int)
    ensures index == -1 <==> !Occurs(hay, needle)
    ensures index != -1 ==> MatchesAt(hay, needle, index)
    ensures forall k :: 0 <= k < index ==> !MatchesAt(hay, needle, k)
  {
    var i := 0;
    while i + |needle| <= |hay|
      invariant 0 <= i
      invariant forall k :: 0 <= k < i ==> !MatchesAt(hay, needle, k)
      decreases |hay| - i
    {
      var j := 0;
      while j < |needle| && SameIgnoringCase(hay[i + j], needle[j])
        invariant 0 <= j <= |needle|
        invariant forall m :: 0 <= m < j ==> SameIgnoringCase(hay[i + m], needle[m])
        decreases |needle| - j
      {
        j := j + 1;
      }
      if j == |needle| {
        assert MatchesAt(hay, needle, i);
        return i;
      }
      i := i + 1;
    }
    return -1;
  }

  /** Upper-cases every character of `s`. */
  function UpperAll(s: string): (u: string)
    ensures |u| == |s|
    ensures forall k :: 0 <= k < |s| ==> SameIgnoringCase(u[k], s[k])
  {
    seq(|s|, k requires 0 <= k < |s| => UpperAscii(s[k]))
  }

  /** Whether `needle` occurs does not depend on the letter case of `hay`. */
  lemma OccursIgnoresCaseOfText(hay: string, other: string, needle: string)
    requires |hay| == |other|
    requires forall k :: 0 <= k < |hay| ==> SameIgnoringCase(hay[k], other[k])
    ensures Occurs(hay, needle) <==> Occurs(other, needle)
  {
    forall i | MatchesAt(hay, needle, i)
      ensures MatchesAt(other, needle, i)
    {
      assert forall k :: i <= k < i + |needle| ==> SameIgnoringCase(hay[k], other[k]);
    }
    forall i | MatchesAt(other, needle, i)
      ensures MatchesAt(hay, needle, i)
    {
      assert forall k :: i <= k < i + |needle| ==> SameIgnoringCase(hay[k], other[k]);
    }
  }

  /** A text that holds `needle` verbatim contains it, whatever surrounds it. */
  lemma OccursVerbatim(prefix: string, needle: string, suffix: string)
    ensures Occurs(prefix + needle + suffix, needle)
  {
    var hay := prefix + needle + suffix;
    forall k | |prefix| <= k < |prefix| + |needle|
      ensures SameIgnoringCase(hay[k], needle[k - |prefix|])
    {
      assert hay[k] == needle[k - |prefix|];
    }
    assert MatchesAt(hay, needle, |prefix|);
  }
}
