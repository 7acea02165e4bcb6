/**
 The handful of Python string operations the chart viewer relies on, over `seq<char>`:
 substring containment (`part in s`), lower-casing (`s.lower()`), and splitting at the
 first occurrence of a character (`s.split(c)[0]` and `s.split(c, 1)[1]`).
 */
module Text {
  import opened Common

  /** Python's `part in s` for strings: `part` occurs as a contiguous run of `s`. */
  predicate Contains(s: string, part: string)
    decreases |s|
  {
    part <= s || (0 < |s| && Contains(s[1..], part))
  }

  /** Reference reading of containment: `part` starts at position `i` of `s`. */
  ghost predicate OccursAt(s: string, part: string, i: int) {
    0 <= i && i + |part| <= |s| && s[i..i + |part|] == part
  }

  /** Every occurrence is found by the recursive test. */
  lemma {:induction false} OccursIsContained(s: string, part: string, i: int)
    requires OccursAt(s, part, i)
    ensures Contains(s, part)
    decreases i
  {
    if i == 0 {
      assert s[..|part|] == part;
    } else {
      assert s[1..][i - 1..i - 1 + |part|] == s[i..i + |part|];
      OccursIsContained(s[1..], part, i - 1);
    }
  }

  /** The recursive test succeeds only at an actual position. */
  lemma {:induction false} ContainedOccurs(s: string, part: string) returns (i: int)
    requires Contains(s, part)
    ensures OccursAt(s, part, i)
    decreases |s|
  {
    if part <= s {
      i := 0;
      assert s[..|part|] == part;
    } else {
      var j := ContainedOccurs(s[1..], part);
      assert s[1..][j..j + |part|] == s[j + 1..j + 1 + |part|];
      i := j + 1;
    }
  }

  /** The recursive test agrees with the positional definition, in both directions. */
  lemma ContainsIffOccurs(s: string, part: string)
    ensures Contains(s, part) <==> exists i :: OccursAt(s, part, i)
  {
    if Contains(s, part) {
      var i := ContainedOccurs(s, part);
    }
    forall i | OccursAt(s, part, i)
      ensures Contains(s, part)
    {
      OccursIsContained(s, part, i);
    }
  }

  /** An occurrence inside a prefix of a string is an occurrence in the whole string. */
  lemma ContainsInPrefix(s: string, t: string, part: string)
    requires Contains(s, part)
    ensures Contains(s + t, part)
  {
    ContainsIffOccurs(s, part);
    var i :| OccursAt(s, part, i);
    assert (s + t)[i..i + |part|] == s[i..i + |part|];
    assert OccursAt(s + t, part, i);
    ContainsIffOccurs(s + t, part);
  }

  /** `c.lower()` for one character; only ASCII capitals change. */
  function LowerChar(c: char): char {
    if 'A' <= c <= 'Z' then (c as int + 32) as char else c
  }

  /** `s.lower()`, restricted to ASCII capitals. */
  function Lower(s: string): (r: string)
    ensures |r| == |s|
    ensures forall i :: 0 <= i < |s| ==> r[i] == LowerChar(s[i])
  {
    seq(|s|, i requires 0 <= i < |s| => LowerChar(s[i]))
  }

  /** Position of the first `c` in `s`, if any. */
  function Find(s: string, c: char): (r: Option<nat>)
    ensures r.None? <==> c !in s
    ensures r.Some? ==> r.value < |s| && s[r.value] == c
    ensures r.Some? ==> forall k :: 0 <= k < r.value ==> s[k] != c
    decreases |s|
  {
    if s == [] then None
    else if s[0] == c then Some(0)
    else
      match Find(s[1..], c)
      case None => None
      case Some(i) => Some(i + 1)
  }

  /** `s.split(c)[0]`: the text before the first `c`, or all of `s` when there is none. */
  function Before(s: string, c: char): (r: string)
    ensures r <= s && c !in r
    ensures c in s ==> |r| < |s| && s[|r|] == c
    ensures c !in s ==> r == s
  {
    match Find(s, c)
    case None => s
    case Some(i) => s[..i]
  }

  /** `s.split(c, 1)[1] if c in s else s`: the text after the first `c`. */
  function After(s: string, c: char): (r: string)
    ensures c in s ==> s == Before(s, c) + [c] + r
    ensures c !in s ==> r == s
  {
    match Find(s, c)
    case None => s
    case Some(i) => s[i + 1..]
  }
}
