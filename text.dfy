/** FString::Contains as the sensor calls it: with the default search case,
    which ignores case. Case folding is modelled for ASCII letters only. */
module Text {

  /** `sub` occurs in `s` starting at index `i`. */
  ghost predicate OccursAt(s: string, sub: string, i: int)
  {
    0 <= i && i + |sub| <= |s| && s[i..i + |sub|] == sub
  }

  /** An occurrence is either at index 0 or an occurrence in the tail. */
  lemma OccursShift(s: string, sub: string)
    requires 0 < |sub| <= |s|
    ensures (exists i :: OccursAt(s, sub, i)) <==> (s[..|sub|] == sub || exists i :: OccursAt(s[1..], sub, i))
  {
    forall i | OccursAt(s[1..], sub, i)
      ensures OccursAt(s, sub, i + 1)
    {
      assert s[1..][i..i + |sub|] == s[i + 1..i + 1 + |sub|];
    }
    forall i | OccursAt(s, sub, i) && i > 0
      ensures OccursAt(s[1..], sub, i - 1)
    {
      assert s[1..][i - 1..i - 1 + |sub|] == s[i..i + |sub|];
    }
    assert s[..|sub|] == sub ==> OccursAt(s, sub, 0);
  }

  /** Case-sensitive substring search. */
  function Contains(s: string, sub: string): bool
    decreases |s|
  {
    if |sub| > |s| then false
    else if |sub| == 0 then true
    else s[..|sub|] == sub || Contains(s[1..], sub)
  }

  /** The search answers whether `sub` occurs somewhere in `s`. */
  lemma {:induction false} ContainsMeansOccurrence(s: string, sub: string)
    ensures Contains(s, sub) <==> exists i :: OccursAt(s, sub, i)
    decreases |s|
  {
    if |sub| > |s| {
    } else if |sub| == 0 {
      assert OccursAt(s, sub, 0);
    } else {
      OccursShift(s, sub);
      if |s| > 0 {
        ContainsMeansOccurrence(s[1..], sub);
      }
    }
  }

  function Lower(c: char): char
  {
    if 'A' <= c <= 'Z' then (c as int - 'A' as int + 'a' as int) as char else c
  }

  function LowerStr(s: string): (r: string)
    ensures |r| == |s|
  {
    seq(|s|, i requires 0 <= i < |s| => Lower(s[i]))
  }

  /** FString::Contains with ESearchCase::IgnoreCase. */
  function ContainsIgnoreCase(s: string, sub: string): bool
  {
    Contains(LowerStr(s), LowerStr(sub))
  }

  /** An exact occurrence is also a case-insensitive one. */
  lemma ContainsImpliesIgnoreCase(s: string, sub: string)
    requires Contains(s, sub)
    ensures ContainsIgnoreCase(s, sub)
  {
    ContainsMeansOccurrence(s, sub);
    ContainsMeansOccurrence(LowerStr(s), LowerStr(sub));
    var i :| OccursAt(s, sub, i);
    assert LowerStr(s)[i..i + |sub|] == LowerStr(sub) by {
      forall k | 0 <= k < |sub|
        ensures LowerStr(s)[i..i + |sub|][k] == LowerStr(sub)[k]
      {
        assert s[i + k] == sub[k];
      }
    }
    assert OccursAt(LowerStr(s), LowerStr(sub), i);
  }

  /** Case is ignored in the haystack: lower-casing the whole haystack first does not change the answer. */
  lemma IgnoreCaseOfLoweredHaystack(s: string, sub: string)
    ensures ContainsIgnoreCase(LowerStr(s), sub) == ContainsIgnoreCase(s, sub)
  {
    assert LowerStr(LowerStr(s)) == LowerStr(s);
  }
}
