/** String operations the user list relies on: lower-casing, substring search,
    ordering, and the dotted-name split used by the draft editor. */
module Text {

  /** Case folding of one character: A-Z map to a-z, everything else is kept.
      (A fixed stand-in for the platform's `toLowerCase`.) */
  function LowerChar(c: char): char
  {
    if 'A' <= c <= 'Z' then (c as int + 32) as char else c
  }

  /** `s.toLowerCase()`: the string with every character case-folded. */
  function Lower(s: string): (r: string)
    ensures |r| == |s|
    ensures forall i :: 0 <= i < |s| ==> r[i] == LowerChar(s[i])
  {
    if s == [] then [] else [LowerChar(s[0])] + Lower(s[1..])
  }

  /** p is a prefix of s (`s.startsWith(p)`). */
  predicate IsPrefix(p: string, s: string)
  {
    |p| <= |s| && s[..|p|] == p
  }

  /** `s.includes(q)`: q occurs in s, tried at every offset from the left. */
  function Includes(s: string, q: string): bool
    decreases |s|
  {
    IsPrefix(q, s) || (|s| > 0 && Includes(s[1..], q))
  }

  /** q occurs in s at offset i. */
  ghost predicate OccursAt(s: string, q: string, i: int)
  {
    0 <= i && i + |q| <= |s| && s[i..i + |q|] == q
  }

  /** The search is exact: it succeeds iff some offset holds an occurrence. */
  lemma {:induction false} IncludesIff(s: string, q: string)
    ensures Includes(s, q) <==> exists i :: OccursAt(s, q, i)
    decreases |s|
  {
    if IsPrefix(q, s) {
      assert OccursAt(s, q, 0);
    } else if |s| == 0 {
      assert forall i :: !OccursAt(s, q, i);
    } else {
      IncludesIff(s[1..], q);
      if Includes(s[1..], q) {
        var i :| OccursAt(s[1..], q, i);
        assert s[1..][i..i + |q|] == s[i + 1..i + 1 + |q|];
        assert OccursAt(s, q, i + 1);
      } else {
        forall i | 0 < i && i + |q| <= |s| ensures !OccursAt(s, q, i) {
          assert s[1..][i - 1..i - 1 + |q|] == s[i..i + |q|];
          assert !OccursAt(s[1..], q, i - 1);
        }
      }
    }
  }

  /** Every character of a found query is a character of the string. */
  lemma IncludesOnlyItsCharacters(s: string, q: string, c: char)
    requires c in q
    ensures c !in s ==> !Includes(s, q)
  {
    if Includes(s, q) {
    IncludesIff(s, q);
    var i :| OccursAt(s, q, i);
    var k :| 0 <= k < |q| && q[k] == c;
    assert s[i..i + |q|][k] == s[i + k];
    }
  }

  /** A lower-case letter is absent from the lower-cased string when it is
      absent from the string in both cases. */
  lemma LowerKeepsLetterOut(s: string, c: char)
    requires 'a' <= c <= 'z' && c !in s && (c as int - 32) as char !in s
    ensures c !in Lower(s)
  {
  }

  /** The empty query occurs in every string. */
  lemma IncludesEmpty(s: string)
    ensures Includes(s, "")
  {
    assert s[..0] == "";
  }

  /** `a.localeCompare(b)`, fixed to code-point lexicographic order:
      negative, zero or positive as a sorts before, with or after b. */
  function Compare(a: string, b: string): (r: int)
    ensures -1 <= r <= 1
  {
    if a == [] then (if b == [] then 0 else -1)
    else if b == [] then 1
    else if a[0] < b[0] then -1
    else if b[0] < a[0] then 1
    else Compare(a[1..], b[1..])
  }

  /** Compare reports equality exactly for equal strings. */
  lemma {:induction false} CompareZeroIff(a: string, b: string)
    ensures Compare(a, b) == 0 <==> a == b
  {
    if a != [] && b != [] && a[0] == b[0] {
      CompareZeroIff(a[1..], b[1..]);
      assert a == [a[0]] + a[1..] && b == [b[0]] + b[1..];
    }
  }

  /** Swapping the arguments negates the result. */
  lemma {:induction false} CompareAntisymmetric(a: string, b: string)
    ensures Compare(b, a) == -Compare(a, b)
  {
    if a != [] && b != [] && a[0] == b[0] {
      CompareAntisymmetric(a[1..], b[1..]);
    }
  }

  /** "Sorts no later than" is transitive. */
  lemma {:induction false} CompareTransitive(a: string, b: string, c: string)
    requires Compare(a, b) <= 0 && Compare(b, c) <= 0
    ensures Compare(a, c) <= 0
  {
    if a != [] && b != [] && c != [] && a[0] == b[0] == c[0] {
      CompareTransitive(a[1..], b[1..], c[1..]);
    }
  }

  /** "Sorts no later than" relates any two strings one way or the other. */
  lemma CompareTotal(a: string, b: string)
    ensures Compare(a, b) <= 0 || Compare(b, a) <= 0
  {
    CompareAntisymmetric(a, b);
  }

  /** A string without a '.' does not start with a prefix that has one. */
  lemma DotFreeNotPrefixed(p: string, s: string)
    requires '.' in p && '.' !in s
    ensures !IsPrefix(p, s)
  {
    var i :| 0 <= i < |p| && p[i] == '.';
    assert |p| > |s| || s[..|p|][i] != p[i];
  }

  /** The text of s before its first '.', or all of s when it has none. */
  function BeforeDot(s: string): (r: string)
    ensures '.' !in r
    ensures IsPrefix(r, s)
    ensures r == s || s[|r|] == '.'
  {
    if s == [] || s[0] == '.' then [] else [s[0]] + BeforeDot(s[1..])
  }

  /** The position of the first '.' of s. */
  function DotIndex(s: string): (r: nat)
    requires '.' in s
    ensures r < |s| && s[r] == '.' && '.' !in s[..r]
  {
    if s[0] == '.' then 0 else 1 + DotIndex(s[1..])
  }

  /** The text of s after its first '.'. */
  function AfterDot(s: string): string
    requires '.' in s
  {
    s[DotIndex(s) + 1..]
  }

  /** `s.split(".")[1]`: the second '.'-separated segment of s, defined
      only when s has a dot. It starts right after the first dot and runs
      up to the next dot or to the end. */
  function SecondSegment(s: string): (r: string)
    requires '.' in s
    ensures '.' !in r
    ensures IsPrefix(r, AfterDot(s))
    ensures r == AfterDot(s) || AfterDot(s)[|r|] == '.'
  {
    BeforeDot(AfterDot(s))
  }

  /** For a dot-free head, the second segment of `head + "." + rest` is the
      part of rest before its own first dot; it is all of rest when rest has
      no dot. */
  lemma SecondSegmentOf(head: string, rest: string)
    requires '.' !in head
    ensures '.' in head + "." + rest
    ensures SecondSegment(head + "." + rest) == BeforeDot(rest)
    ensures '.' !in rest ==> SecondSegment(head + "." + rest) == rest
  {
    var s := head + "." + rest;
    assert s[|head|] == '.';
    assert s[..|head|] == head;
    assert DotIndex(s) == |head|;
    assert AfterDot(s) == rest;
  }
}
