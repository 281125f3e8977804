/** The few Python string operations the plugins rely on, with the
    properties the plugins' contracts are built from: `str.strip()`,
    `sub in s`, `s.replace(sub, '')` and `s.lower()`. */
module Text {

  /** The characters for which Python's `str.isspace()` holds, which are
      exactly those `str.strip()` removes. */
  const SpaceChars: set<char> := {
    '\t', '\n', '\U{0B}', '\U{0C}', '\r', '\U{1C}', '\U{1D}', '\U{1E}', '\U{1F}',
    ' ', '\U{85}', '\U{A0}', '\U{1680}',
    '\U{2000}', '\U{2001}', '\U{2002}', '\U{2003}', '\U{2004}', '\U{2005}',
    '\U{2006}', '\U{2007}', '\U{2008}', '\U{2009}', '\U{200A}',
    '\U{2028}', '\U{2029}', '\U{202F}', '\U{205F}', '\U{3000}'
  }

  predicate IsSpace(c: char) {
    c in SpaceChars
  }

  /** True of text that `strip()` leaves unchanged. */
  predicate Stripped(s: string) {
    s == [] || (!IsSpace(s[0]) && !IsSpace(s[|s| - 1]))
  }

  /** True of text made of whitespace only (Python: `not s.strip()`). */
  predicate Blank(s: string) {
    forall i :: 0 <= i < |s| ==> IsSpace(s[i])
  }

  /** Python's `s.lstrip()`: the longest whitespace prefix is dropped. */
  function TrimStart(s: string): (r: string)
    ensures |r| <= |s|
    ensures r == [] || !IsSpace(r[0])
    decreases |s|
  {
    if s != [] && IsSpace(s[0]) then TrimStart(s[1..]) else s
  }

  /** Python's `s.rstrip()`: the longest whitespace suffix is dropped. */
  function TrimEnd(s: string): (r: string)
    ensures |r| <= |s|
    ensures r == [] || (r[0] == s[0] && !IsSpace(r[|r| - 1]))
    decreases |s|
  {
    if s != [] && IsSpace(s[|s| - 1]) then TrimEnd(s[..|s| - 1]) else s
  }

  /** Python's `s.strip()`. */
  function Trim(s: string): (r: string)
    ensures Stripped(r)
    ensures |r| <= |s|
  {
    TrimEnd(TrimStart(s))
  }

  /** What `lstrip()` returns is a suffix of its argument, and what it
      drops is whitespace. */
  lemma {:induction false} TrimStartDropsSpace(s: string)
    ensures TrimStart(s) == s[|s| - |TrimStart(s)|..]
    ensures forall i :: 0 <= i < |s| - |TrimStart(s)| ==> IsSpace(s[i])
    decreases |s|
  {
    if s != [] && IsSpace(s[0]) {
      TrimStartDropsSpace(s[1..]);
      assert forall i :: 1 <= i < |s| ==> s[i] == s[1..][i - 1];
    }
  }

  /** What `rstrip()` returns is a prefix of its argument, and what it
      drops is whitespace. */
  lemma {:induction false} TrimEndDropsSpace(s: string)
    ensures TrimEnd(s) == s[..|TrimEnd(s)|]
    ensures forall i :: |TrimEnd(s)| <= i < |s| ==> IsSpace(s[i])
    decreases |s|
  {
    if s != [] && IsSpace(s[|s| - 1]) {
      TrimEndDropsSpace(s[..|s| - 1]);
      assert forall i :: 0 <= i < |s| - 1 ==> s[i] == s[..|s| - 1][i];
    }
  }

  /** What `strip()` returns is a slice of its argument, and everything it
      cut off is whitespace. */
  lemma TrimIsSlice(s: string) returns (lo: nat)
    ensures lo + |Trim(s)| <= |s| && Trim(s) == s[lo..lo + |Trim(s)|]
    ensures forall i :: 0 <= i < lo ==> IsSpace(s[i])
    ensures forall i :: lo + |Trim(s)| <= i < |s| ==> IsSpace(s[i])
  {
    var t := TrimStart(s);
    lo := |s| - |t|;
    TrimStartDropsSpace(s);
    TrimEndDropsSpace(t);
    assert forall i :: lo <= i < |s| ==> s[i] == t[i - lo];
  }

  /** Text strips down to nothing exactly when it is all whitespace. */
  lemma TrimEmptyIffBlank(s: string)
    ensures Trim(s) == [] <==> Blank(s)
  {
    var lo := TrimIsSlice(s);
    if Trim(s) != [] {
      assert !IsSpace(s[lo]);
    }
  }

  /** `p` occurs in `s` starting at index `i`. */
  predicate OccursAt(s: string, p: string, i: int) {
    0 <= i && i + |p| <= |s| && s[i..i + |p|] == p
  }

  /** Python's `p in s`. */
  predicate Contains(s: string, p: string) {
    exists i :: 0 <= i <= |s| - |p| && OccursAt(s, p, i)
  }

  /** Text that does not contain `p` keeps not containing it in any slice. */
  lemma {:induction false} AbsentInSlice(s: string, p: string, lo: int, hi: int)
    requires 0 <= lo <= hi <= |s|
    requires !Contains(s, p)
    ensures !Contains(s[lo..hi], p)
  {
    if Contains(s[lo..hi], p) {
      var i :| 0 <= i <= |s[lo..hi]| - |p| && OccursAt(s[lo..hi], p, i);
      forall k | 0 <= k < |p| ensures s[lo + i..lo + i + |p|][k] == p[k] {
        assert s[lo..hi][i..i + |p|][k] == p[k];
      }
      assert OccursAt(s, p, lo + i);
    }
  }

  lemma AbsentAfterTrim(s: string, p: string)
    requires !Contains(s, p)
    ensures !Contains(Trim(s), p)
  {
    var lo := TrimIsSlice(s);
    AbsentInSlice(s, p, lo, lo + |Trim(s)|);
  }

  /** Python's `s.replace(p, '')`: occurrences are found left to right and
      do not overlap. */
  function RemoveAll(s: string, p: string): (r: string)
    requires p != []
    ensures |r| <= |s|
    decreases |s|
  {
    if |s| < |p| then s
    else if s[..|p|] == p then RemoveAll(s[|p|..], p)
    else [s[0]] + RemoveAll(s[1..], p)
  }

  /** Removing every occurrence of a single character leaves none of it. */
  lemma {:induction false} RemoveAllCharAbsent(s: string, c: char)
    ensures c !in RemoveAll(s, [c])
    decreases |s|
  {
    if |s| >= 1 {
      if s[..1] == [c] {
        RemoveAllCharAbsent(s[1..], c);
      } else {
        RemoveAllCharAbsent(s[1..], c);
        assert s[0] != c;
      }
    }
  }

  /** Removal never brings in a character that was not there. */
  lemma {:induction false} RemoveAllKeepsAbsent(s: string, p: string, c: char)
    requires p != []
    requires c !in s
    ensures c !in RemoveAll(s, p)
    decreases |s|
  {
    if |s| >= |p| {
      if s[..|p|] == p {
        RemoveAllKeepsAbsent(s[|p|..], p, c);
      } else {
        RemoveAllKeepsAbsent(s[1..], p, c);
      }
    }
  }

  /** Number of copies of `c` that `s` starts with. */
  function LeadingRun(s: string, c: char): nat
    ensures LeadingRun(s, c) <= |s|
  {
    if s != [] && s[0] == c then 1 + LeadingRun(s[1..], c) else 0
  }

  const Fence: string := "```"

  lemma LeadingRunOfFence(s: string)
    requires |s| >= 3 && s[..3] == Fence
    ensures LeadingRun(s, '`') >= 3
  {
    assert s[0] == '`' && s[1] == '`' && s[2] == '`';
    assert s[1..][0] == '`' && s[1..][1..][0] == '`';
    assert LeadingRun(s[1..][1..], '`') >= 1;
    assert LeadingRun(s[1..], '`') >= 2;
  }

  lemma LeadingRunCons(c: char, t: string)
    ensures LeadingRun([c] + t, '`') == if c == '`' then 1 + LeadingRun(t, '`') else 0
  {
    assert ([c] + t)[1..] == t;
  }

  lemma FenceOfLeadingRun(s: string)
    requires LeadingRun(s, '`') >= 3
    ensures |s| >= 3 && s[..3] == Fence
  {
    assert s[1..][0] == '`' && s[1..][1..][0] == '`';
  }

  /** Putting one character in front of text without "```" creates none,
      unless that character is a backtick and the text starts with two. */
  lemma PrependKeepsNoFence(c: char, t: string)
    requires !Contains(t, Fence)
    requires c == '`' ==> LeadingRun(t, '`') <= 1
    ensures !Contains([c] + t, Fence)
  {
    var r := [c] + t;
    assert r[1..] == t;
    if Contains(r, Fence) {
      var i :| 0 <= i <= |r| - 3 && OccursAt(r, Fence, i);
      if i == 0 {
        LeadingRunOfFence(r);
      } else {
        assert OccursAt(t, Fence, i - 1);
      }
    }
  }

  /** `s.replace("```", "")` contains no "```": inside each run of backticks
      whole groups of three are removed, so at most two of the run remain,
      and runs stay separated by the other characters. */
  lemma {:induction false} RemoveFenceLeavesNoFence(s: string)
    ensures !Contains(RemoveAll(s, Fence), Fence)
    ensures LeadingRun(RemoveAll(s, Fence), '`') <= 2
    ensures LeadingRun(s, '`') < 3 ==> LeadingRun(RemoveAll(s, Fence), '`') == LeadingRun(s, '`')
    decreases |s|
  {
    if |s| < 3 {
      assert RemoveAll(s, Fence) == s;
    } else if s[..3] == Fence {
      RemoveFenceLeavesNoFence(s[3..]);
      LeadingRunOfFence(s);
    } else {
      var t := RemoveAll(s[1..], Fence);
      RemoveFenceLeavesNoFence(s[1..]);
      assert RemoveAll(s, Fence) == [s[0]] + t;
      if LeadingRun(s, '`') >= 3 {
        FenceOfLeadingRun(s);
      }
      PrependKeepsNoFence(s[0], t);
      LeadingRunCons(s[0], t);
    }
  }

  /** `p` is found in `a + p + b`. */
  lemma ContainsInfix(a: string, p: string, b: string)
    ensures Contains(a + p + b, p)
  {
    assert (a + p + b)[|a|..|a| + |p|] == p;
    assert OccursAt(a + p + b, p, |a|);
  }

  /** Removal changes nothing when the first character of `p` is absent. */
  lemma {:induction false} RemoveAllAbsentHead(s: string, p: string)
    requires p != [] && p[0] !in s
    ensures RemoveAll(s, p) == s
    decreases |s|
  {
    if |s| >= |p| {
      assert s[..|p|][0] == s[0];
      RemoveAllAbsentHead(s[1..], p);
      assert [s[0]] + s[1..] == s;
    }
  }

  /** Removal changes nothing when `p` does not occur. */
  lemma {:induction false} RemoveAllAbsent(s: string, p: string)
    requires p != [] && !Contains(s, p)
    ensures RemoveAll(s, p) == s
    decreases |s|
  {
    if |s| >= |p| {
      assert !OccursAt(s, p, 0);
      AbsentInSlice(s, p, 1, |s|);
      assert s[1..|s|] == s[1..];
      RemoveAllAbsent(s[1..], p);
      assert [s[0]] + s[1..] == s;
    }
  }

  /** A character absent from a text is absent from the stripped text. */
  lemma TrimKeepsAbsentChar(s: string, c: char)
    requires c !in s
    ensures c !in Trim(s)
  {
    var lo := TrimIsSlice(s);
  }

  /** What occurs in a text still occurs once more text follows it. */
  lemma ContainsInPrefix(a: string, b: string, p: string)
    requires Contains(a, p)
    ensures Contains(a + b, p)
  {
    var i :| 0 <= i <= |a| - |p| && OccursAt(a, p, i);
    assert (a + b)[i..i + |p|] == a[i..i + |p|];
    assert OccursAt(a + b, p, i);
  }

  /** What occurs in a text still occurs once more text precedes it. */
  lemma ContainsInSuffix(a: string, b: string, p: string)
    requires Contains(b, p)
    ensures Contains(a + b, p)
  {
    var i :| 0 <= i <= |b| - |p| && OccursAt(b, p, i);
    assert (a + b)[|a| + i..|a| + i + |p|] == b[i..i + |p|];
    assert OccursAt(a + b, p, |a| + i);
  }

  function LowerChar(c: char): (d: char)
    ensures !('A' <= d <= 'Z')
  {
    if 'A' <= c <= 'Z' then (c as int + 32) as char else c
  }

  /** Python's `s.lower()` on the ASCII letters. */
  function Lower(s: string): (r: string)
    ensures |r| == |s|
    ensures forall i :: 0 <= i < |r| ==> !('A' <= r[i] <= 'Z')
  {
    seq(|s|, i requires 0 <= i < |s| => LowerChar(s[i]))
  }

  lemma LowerIdempotent(s: string)
    ensures Lower(Lower(s)) == Lower(s)
  {
  }

  /** Text without upper-case ASCII letters is its own lower case. */
  lemma LowerOfLowerCase(s: string)
    requires forall i :: 0 <= i < |s| ==> !('A' <= s[i] <= 'Z')
    ensures Lower(s) == s
  {
  }

  /** Lower-casing works character by character. */
  lemma LowerAppend(a: string, b: string)
    ensures Lower(a + b) == Lower(a) + Lower(b)
  {
  }
}
