/**
 * The JavaScript string operations the components rely on, stated over
 * Dafny strings (sequences of Unicode scalar values):
 * `toLowerCase`, `indexOf`, `endsWith`, `replace` with a string pattern,
 * `split(sep).pop()` and the relational operators on strings.
 */
module Text {

  /**
   * `toLowerCase` on one character, for the scripts a document library is
   * likely to hold: ASCII, Latin-1 and basic Cyrillic capitals.
   */
  function LowerChar(c: char): (l: char)
    ensures 'A' <= c <= 'Z' ==> 'a' <= l <= 'z' && l as int - c as int == 32
    ensures !('A' <= c <= 'Z') && c < '\U{00C0}' ==> l == c
    ensures c >= '\U{00C0}' ==> l >= '\U{00C0}'
  {
    if 'A' <= c <= 'Z' then (c as int + 32) as char
    else if '\U{00C0}' <= c <= '\U{00DE}' && c != '\U{00D7}' then (c as int + 32) as char
    else if '\U{0410}' <= c <= '\U{042F}' then (c as int + 32) as char
    else if '\U{0400}' <= c <= '\U{040F}' then (c as int + 80) as char
    else c
  }

  /** `s.toLowerCase()`, character by character. */
  function Lower(s: string): (r: string)
    ensures |r| == |s|
    ensures forall i :: 0 <= i < |s| ==> r[i] == LowerChar(s[i])
  {
    seq(|s|, i requires 0 <= i < |s| => LowerChar(s[i]))
  }

  /** `q` occurs in `s` starting at index `k`. */
  predicate OccursAt(s: string, q: string, k: int) {
    0 <= k && k + |q| <= |s| && s[k..k + |q|] == q
  }

  lemma OccursAtShift(s: string, q: string, k: int)
    requires s != [] && k >= 0
    ensures OccursAt(s[1..], q, k) <==> OccursAt(s, q, k + 1)
  {
    if 0 <= k && k + |q| <= |s| - 1 {
      assert s[1..][k..k + |q|] == s[k + 1..k + 1 + |q|];
    }
  }

  /**
   * `s.indexOf(q)`: the first index at which `q` occurs in `s`, or -1 when it
   * does not occur at all (the empty string occurs at 0).
   */
  function IndexOf(s: string, q: string): (r: int)
    ensures r == -1 || OccursAt(s, q, r)
    ensures r != -1 ==> forall k :: 0 <= k < r ==> !OccursAt(s, q, k)
    ensures r == -1 <==> forall k :: !OccursAt(s, q, k)
    decreases |s|
  {
    if |q| > |s| then -1
    else if s[..|q|] == q then 0
    else
      var t := IndexOf(s[1..], q);
      assert !OccursAt(s, q, 0) by { assert s[0..|q|] == s[..|q|]; }
      forall k | k >= 1 ensures OccursAt(s, q, k) <==> OccursAt(s[1..], q, k - 1) {
        OccursAtShift(s, q, k - 1);
      }
      if t == -1 then -1 else t + 1
  }

  /** `s.endsWith(suffix)`. */
  predicate EndsWith(s: string, suffix: string) {
    |suffix| <= |s| && s[|s| - |suffix|..] == suffix
  }

  /**
   * `s.replace(pattern, replacement)` with a string pattern: only the FIRST
   * occurrence is replaced, the text before and after it being kept, and a
   * string without the pattern is returned as it is. (The `$` substitution
   * patterns of the replacement are not modelled; the components only ever
   * pass "//".)
   */
  function ReplaceFirst(s: string, pattern: string, replacement: string): (r: string)
    ensures IndexOf(s, pattern) == -1 ==> r == s
    ensures IndexOf(s, pattern) != -1 ==> |r| == |s| - |pattern| + |replacement|
    ensures IndexOf(s, pattern) != -1 ==>
      var i := IndexOf(s, pattern);
      r[..i] == s[..i] && r[i..i + |replacement|] == replacement && r[i + |replacement|..] == s[i + |pattern|..]
  {
    var i := IndexOf(s, pattern);
    if i == -1 then s else s[..i] + replacement + s[i + |pattern|..]
  }

  /** A string without the separator comes back unchanged. */
  lemma ReplaceAbsent(s: string, c: char, replacement: string)
    requires c !in s
    ensures ReplaceFirst(s, [c], replacement) == s
  {
    forall k | 0 <= k < |s| ensures !OccursAt(s, [c], k) {
      assert s[k..k + 1] == [s[k]];
    }
  }

  /**
   * Only the first occurrence of a one-character pattern is replaced: whatever
   * follows it, further occurrences included, is kept as it is.
   */
  lemma ReplaceFirstSplit(a: string, c: char, b: string, replacement: string)
    requires c !in a
    ensures ReplaceFirst(a + [c] + b, [c], replacement) == a + replacement + b
  {
    var s := a + [c] + b;
    assert OccursAt(s, [c], |a|) by { assert s[|a|..|a| + 1] == [c]; }
    forall k | 0 <= k < |a| ensures !OccursAt(s, [c], k) {
      assert s[k..k + 1] == [a[k]];
    }
    var i := IndexOf(s, [c]);
    assert i == |a|;
    assert s[..i] == a;
    assert s[i + 1..] == b;
  }

  /**
   * `s.split(sep).pop()`: the text after the last separator, or the whole
   * string when it has none.
   */
  function LastSegment(s: string, sep: char): (r: string)
    ensures sep !in r
    ensures |r| <= |s| && r == s[|s| - |r|..]
    ensures |r| < |s| ==> s[|s| - |r| - 1] == sep
    decreases |s|
  {
    if s == [] then []
    else if s[|s| - 1] == sep then []
    else
      var init, c := s[..|s| - 1], s[|s| - 1];
      var rest := LastSegment(init, sep);
      var r := rest + [c];
      assert s == init + [c];
      assert s[|s| - |r|..] == init[|init| - |rest|..] + [c];
      assert |r| < |s| ==> s[|s| - |r| - 1] == init[|init| - |rest| - 1];
      r
  }

  /** The segment after the last separator, whatever precedes the separator. */
  lemma {:induction false} LastSegmentAfter(a: string, sep: char, b: string)
    requires sep !in b
    ensures LastSegment(a + [sep] + b, sep) == b
    decreases |b|
  {
    var s := a + [sep] + b;
    if b != [] {
      var init := b[..|b| - 1];
      assert s[..|s| - 1] == a + [sep] + init;
      assert b[|b| - 1] in b;
      LastSegmentAfter(a, sep, init);
      assert init + [b[|b| - 1]] == b;
    }
  }

  /** Whatever precedes a string that holds the separator does not change its last segment. */
  lemma LastSegmentOfSuffix(a: string, b: string, sep: char)
    requires sep in b
    ensures LastSegment(a + b, sep) == LastSegment(b, sep)
  {
    var r := LastSegment(b, sep);
    var k :| 0 <= k < |b| && b[k] == sep;
    var off := |b| - |r|;
    forall j | off <= j < |b| ensures b[j] != sep {
      assert b[j] == r[j - off];
    }
    assert k < off;
    var head := b[..off - 1];
    assert b == head + [sep] + r;
    assert a + b == (a + head) + [sep] + r;
    LastSegmentAfter(head, sep, r);
    LastSegmentAfter(a + head, sep, r);
  }

  /** A string without the separator is its own last segment. */
  lemma {:induction false} LastSegmentWhole(s: string, sep: char)
    requires sep !in s
    ensures LastSegment(s, sep) == s
    decreases |s|
  {
    if s != [] {
      var init := s[..|s| - 1];
      assert sep !in init by {
        forall k | 0 <= k < |init| ensures init[k] != sep {
          assert init[k] == s[k];
        }
      }
      LastSegmentWhole(init, sep);
      assert s[|s| - 1] != sep by { assert s[|s| - 1] in s; }
      assert LastSegment(s, sep) == LastSegment(init, sep) + [s[|s| - 1]];
      assert init + [s[|s| - 1]] == s;
    }
  }

  /**
   * `a <= b` on strings: lexicographic order by character, a proper prefix
   * coming first.
   */
  predicate Leq(a: string, b: string)
    decreases |a|
  {
    a == [] || (b != [] && (a[0] < b[0] || (a[0] == b[0] && Leq(a[1..], b[1..]))))
  }

  lemma {:induction false} LeqTotal(a: string, b: string)
    ensures Leq(a, b) || Leq(b, a)
    decreases |a|
  {
    if a != [] && b != [] && a[0] == b[0] {
      LeqTotal(a[1..], b[1..]);
    }
  }

  lemma {:induction false} LeqTransitive(a: string, b: string, c: string)
    requires Leq(a, b) && Leq(b, c)
    ensures Leq(a, c)
    decreases |a|
  {
    if a != [] && b != [] && c != [] && a[0] == b[0] == c[0] {
      LeqTransitive(a[1..], b[1..], c[1..]);
    }
  }
}
