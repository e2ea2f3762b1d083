/**
 * The `java.lang.String` operations the SQL helpers rely on: `trim`,
 * `startsWith`, `replace` of a one-character target, and `String.join`.
 */
module JavaText {

  /** `trim` treats every character up to U+0020 as space. */
  predicate IsSpace(c: char)
  {
    c <= ' '
  }

  predicate AllSpace(s: string)
  {
    forall i :: 0 <= i < |s| ==> IsSpace(s[i])
  }

  /** How many space characters `s` starts with. */
  function LeadingSpace(s: string): (k: nat)
    ensures k <= |s|
    ensures forall i :: 0 <= i < k ==> IsSpace(s[i])
    ensures k < |s| ==> !IsSpace(s[k])
  {
    if s == [] || !IsSpace(s[0]) then 0 else 1 + LeadingSpace(s[1..])
  }

  /** How many space characters `s` ends with. */
  function TrailingSpace(s: string): (k: nat)
    ensures k <= |s|
    ensures forall i :: |s| - k <= i < |s| ==> IsSpace(s[i])
    ensures k < |s| ==> !IsSpace(s[|s| - 1 - k])
  {
    if s == [] || !IsSpace(s[|s| - 1]) then 0 else 1 + TrailingSpace(s[..|s| - 1])
  }

  /**
   * `String.trim()`: the longest infix of `s` that neither starts nor ends
   * with space, everything cut off on either side being space.
   */
  function Trim(s: string): (r: string)
    ensures r == [] || (!IsSpace(r[0]) && !IsSpace(r[|r| - 1]))
    ensures LeadingSpace(s) + |r| <= |s|
    ensures r == s[LeadingSpace(s)..LeadingSpace(s) + |r|]
    ensures AllSpace(s[..LeadingSpace(s)])
    ensures AllSpace(s[LeadingSpace(s) + |r|..])
  {
    var lo := LeadingSpace(s);
    if lo == |s| then []
    else
      s[lo..|s| - TrailingSpace(s)]
  }

  /** A string that neither starts nor ends with space is its own trim. */
  lemma TrimOfTrimmed(s: string)
    requires s == [] || (!IsSpace(s[0]) && !IsSpace(s[|s| - 1]))
    ensures Trim(s) == s
  {
  }

  /** Trimming twice gives what trimming once gives. */
  lemma TrimIdempotent(s: string)
    ensures Trim(Trim(s)) == Trim(s)
  {
    TrimOfTrimmed(Trim(s));
  }

  /** `s.startsWith(p)`: case-sensitive, character by character. */
  predicate StartsWith(s: string, p: string)
  {
    |p| <= |s| && s[..|p|] == p
  }

  /**
   * A prefix that starts and ends with a non-space character survives
   * trimming: nothing before it is cut, and the cut at the end cannot reach
   * into it.
   */
  lemma PrefixSurvivesTrim(s: string, p: string)
    requires p != [] && StartsWith(s, p)
    requires !IsSpace(p[0]) && !IsSpace(p[|p| - 1])
    ensures StartsWith(Trim(s), p)
  {
    assert s[0] == p[0] && s[|p| - 1] == p[|p| - 1];
    var r := Trim(s);
    assert r[..|p|] == s[..|p|];
  }

  /** The number of occurrences of `c` in `s`. */
  function Count(s: string, c: char): nat
  {
    if s == [] then 0 else (if s[0] == c then 1 else 0) + Count(s[1..], c)
  }

  lemma {:induction false} CountConcat(a: string, b: string, c: char)
    ensures Count(a + b, c) == Count(a, c) + Count(b, c)
  {
    if a == [] {
      assert a + b == b;
    } else {
      assert (a + b)[1..] == a[1..] + b;
      CountConcat(a[1..], b, c);
    }
  }

  lemma {:induction false} CountOfSpace(s: string, c: char)
    requires AllSpace(s) && !IsSpace(c)
    ensures Count(s, c) == 0
  {
    if s != [] {
      CountOfSpace(s[1..], c);
    }
  }

  /** Trimming removes no non-space character, so it keeps every `?`. */
  lemma TrimKeepsCount(s: string, c: char)
    requires !IsSpace(c)
    ensures Count(Trim(s), c) == Count(s, c)
  {
    CountOfSpaceBounded(s, LeadingSpace(s), LeadingSpace(s) + |Trim(s)|, c);
  }

  /** Cutting space off both ends of `s` keeps the count of a non-space character. */
  lemma CountOfSpaceBounded(s: string, lo: nat, hi: nat, c: char)
    requires lo <= hi <= |s| && !IsSpace(c)
    requires AllSpace(s[..lo]) && AllSpace(s[hi..])
    ensures Count(s[lo..hi], c) == Count(s, c)
  {
    var front, middle, back := s[..lo], s[lo..hi], s[hi..];
    CountOfSpace(front, c);
    CountOfSpace(back, c);
    CountConcat(front, middle, c);
    CountConcat(front + middle, back, c);
    assert s == (front + middle) + back;
  }

  /**
   * `s.replace(String.valueOf(target), replacement)`: every occurrence of
   * `target`, scanned left to right, is replaced; the replacement text is not
   * scanned again.
   */
  function ReplaceAll(s: string, target: char, replacement: string): string
  {
    if s == [] then []
    else (if s[0] == target then replacement else [s[0]]) + ReplaceAll(s[1..], target, replacement)
  }

  /** Each of the k targets becomes the replacement, so the targets multiply. */
  lemma {:induction false} ReplaceAllCount(s: string, target: char, replacement: string)
    ensures Count(ReplaceAll(s, target, replacement), target)
         == Count(s, target) * Count(replacement, target)
  {
    if s != [] {
      var head := if s[0] == target then replacement else [s[0]];
      var rest := ReplaceAll(s[1..], target, replacement);
      var m := Count(replacement, target);
      var k := Count(s[1..], target);
      CountConcat(head, rest, target);
      ReplaceAllCount(s[1..], target, replacement);
      assert ReplaceAll(s, target, replacement) == head + rest;
      if s[0] == target {
        assert Count(s, target) == 1 + k;
        MultiplySuccessor(k, m);
      } else {
        assert Count(s, target) == k;
        assert Count(head, target) == 0 + Count([s[0]][1..], target);
      }
    }
  }

  lemma MultiplySuccessor(k: nat, m: nat)
    ensures (1 + k) * m == m + k * m
  {
  }

  lemma {:induction false} ReplaceAllConcat(a: string, b: string, target: char, replacement: string)
    ensures ReplaceAll(a + b, target, replacement) == ReplaceAll(a, target, replacement) + ReplaceAll(b, target, replacement)
  {
    if a == [] {
      assert a + b == b;
    } else {
      assert (a + b)[1..] == a[1..] + b;
      ReplaceAllConcat(a[1..], b, target, replacement);
    }
  }

  /** The target alone becomes the replacement. */
  lemma ReplaceAllTarget(target: char, replacement: string)
    ensures ReplaceAll([target], target, replacement) == replacement
  {
    assert [target][1..] == [];
  }

  /** One target between target-free text: only it is replaced. */
  lemma ReplaceOne(pre: string, post: string, target: char, replacement: string)
    requires Count(pre, target) == 0 && Count(post, target) == 0
    ensures ReplaceAll(pre + [target] + post, target, replacement) == pre + replacement + post
  {
    var front := pre + [target];
    ReplaceAllConcat(front, post, target, replacement);
    ReplaceAllConcat(pre, [target], target, replacement);
    ReplaceAllAbsent(pre, target, replacement);
    ReplaceAllAbsent(post, target, replacement);
    ReplaceAllTarget(target, replacement);
  }

  /** Two targets between target-free pieces: both are replaced, not only the first. */
  lemma ReplaceTwo(a: string, b: string, c: string, target: char, replacement: string)
    requires Count(a, target) == 0 && Count(b, target) == 0 && Count(c, target) == 0
    ensures Count(a + [target] + b + [target] + c, target) == 2
    ensures ReplaceAll(a + [target] + b + [target] + c, target, replacement) == a + replacement + b + replacement + c
  {
    var front, back := a + [target] + b, [] + [target] + c;
    assert a + [target] + b + [target] + c == front + back;
    ReplaceAllConcat(front, back, target, replacement);
    ReplaceOne(a, b, target, replacement);
    ReplaceOne([], c, target, replacement);
    CountConcat(front, back, target);
    CountConcat(a + [target], b, target);
    CountConcat(a, [target], target);
    CountConcat([target], c, target);
    assert Count([target], target) == 1 + Count([], target);
  }

  /** Text without the target is left as it is. */
  lemma {:induction false} ReplaceAllAbsent(s: string, target: char, replacement: string)
    requires Count(s, target) == 0
    ensures ReplaceAll(s, target, replacement) == s
  {
    if s != [] {
      ReplaceAllAbsent(s[1..], target, replacement);
      assert s == [s[0]] + s[1..];
    }
  }

  /** Replacing the target by itself changes nothing. */
  lemma {:induction false} ReplaceAllSelf(s: string, target: char)
    ensures ReplaceAll(s, target, [target]) == s
  {
    if s != [] {
      ReplaceAllSelf(s[1..], target);
      assert s == [s[0]] + s[1..];
    }
  }

  /** `Collections.nCopies(n, x)`. */
  function Copies(n: nat, x: string): (r: seq<string>)
    ensures |r| == n && forall i :: 0 <= i < n ==> r[i] == x
  {
    seq(n, _ => x)
  }

  /** `String.join(delimiter, elements)`. */
  function Join(delimiter: string, elements: seq<string>): string
  {
    if |elements| == 0 then []
    else if |elements| == 1 then elements[0]
    else elements[0] + delimiter + Join(delimiter, elements[1..])
  }

  /**
   * A `StringBuilder` after `append(fragment).append(" ")` for each of
   * `fragments` in order: each fragment followed by one space. Both `Sql`
   * classes build their statement text this way.
   */
  function Joined(fragments: seq<string>): string
  {
    if fragments == [] then []
    else Joined(fragments[..|fragments| - 1]) + fragments[|fragments| - 1] + " "
  }
}
