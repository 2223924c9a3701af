/**
 * String helpers the toolkit relies on: joining an argument vector into a
 * command line (Python's `' '.join`) and trimming whitespace from captured
 * output (Python's `str.strip()` with no argument).
 */
module Text {

  /** The sum of the lengths of the parts. */
  function TotalLength(parts: seq<string>): nat
  {
    if parts == [] then 0 else |parts[0]| + TotalLength(parts[1..])
  }

  /**
   * The parts with exactly one space between consecutive parts and none
   * before the first or after the last.
   */
  function Join(parts: seq<string>): (line: string)
    ensures parts == [] ==> line == ""
    ensures parts != [] ==> |line| == TotalLength(parts) + |parts| - 1
  {
    if |parts| == 0 then ""
    else if |parts| == 1 then parts[0]
    else parts[0] + " " + Join(parts[1..])
  }

  /** Index of the first occurrence of `c` in `s`. */
  function IndexOf(s: string, c: char): (i: nat)
    requires c in s
    ensures i < |s| && s[i] == c && c !in s[..i]
  {
    if s[0] == c then 0 else 1 + IndexOf(s[1..], c)
  }

  /**
   * Cuts `s` at every space, as Python's `s.split(' ')` does: the pieces
   * hold no space, and there is always at least one piece.
   */
  function Split(s: string): (parts: seq<string>)
    ensures |parts| >= 1
    ensures forall i :: 0 <= i < |parts| ==> ' ' !in parts[i]
    decreases |s|
  {
    if ' ' !in s then [s]
    else
      var i := IndexOf(s, ' ');
      [s[..i]] + Split(s[i + 1..])
  }

  /** In `a + " " + b` with no space in `a`, the first space is the one after `a`. */
  lemma {:induction false} IndexOfSeparator(a: string, b: string)
    requires ' ' !in a
    ensures IndexOf(a + " " + b, ' ') == |a|
  {
    if a != [] {
      assert (a + " " + b)[1..] == a[1..] + " " + b;
      IndexOfSeparator(a[1..], b);
    }
  }

  /** Splitting a joined command line at its spaces gives back the parts, provided none holds a space. */
  lemma {:induction false} SplitJoin(parts: seq<string>)
    requires parts != []
    requires forall i :: 0 <= i < |parts| ==> ' ' !in parts[i]
    ensures Split(Join(parts)) == parts
  {
    if |parts| > 1 {
      var first, rest := parts[0], Join(parts[1..]);
      var line := first + " " + rest;
      assert Join(parts) == line;
      assert line[|first|] == ' ';
      IndexOfSeparator(first, rest);
      assert line[..|first|] == first;
      assert line[|first| + 1..] == rest;
      assert Split(line) == [first] + Split(rest);
      SplitJoin(parts[1..]);
      assert parts == [first] + parts[1..];
    }
  }

  /** Joining the pieces of a split line gives back the line. */
  lemma {:induction false} JoinSplit(s: string)
    ensures Join(Split(s)) == s
    decreases |s|
  {
    if ' ' in s {
      var i := IndexOf(s, ' ');
      JoinSplit(s[i + 1..]);
      assert Split(s)[1..] == Split(s[i + 1..]);
      assert s == s[..i] + " " + s[i + 1..];
    }
  }

  /** The characters Python's `str.isspace` accepts, and so the ones `str.strip()` removes. */
  predicate IsSpace(c: char)
  {
    ('\t' <= c <= '\r')                     // tab, line feed, vertical tab, form feed, carriage return
    || ('\U{001C}' <= c <= '\U{001F}')      // file, group, record and unit separators
    || c == ' '
    || c == '\U{0085}' || c == '\U{00A0}' || c == '\U{1680}'
    || ('\U{2000}' <= c <= '\U{200A}')
    || c == '\U{2028}' || c == '\U{2029}' || c == '\U{202F}'
    || c == '\U{205F}' || c == '\U{3000}'
  }

  /**
   * Below code point 128 the whitespace is exactly tab, line feed, vertical
   * tab, form feed, carriage return, the four separators and space.
   */
  lemma AsciiSpaces(c: char)
    requires c < '\U{0080}'
    ensures IsSpace(c) <==> c in {'\t', '\n', '\U{000B}', '\U{000C}', '\r',
                                   '\U{001C}', '\U{001D}', '\U{001E}', '\U{001F}', ' '}
  {
  }

  /**
   * The first index at or after `i` that does not hold whitespace, or `|s|`:
   * the scan from the left of `str.strip()`.
   */
  function SkipLeft(s: string, i: nat): (j: nat)
    requires i <= |s|
    ensures i <= j <= |s|
    ensures forall k :: i <= k < j ==> IsSpace(s[k])
    ensures j < |s| ==> !IsSpace(s[j])
    decreases |s| - i
  {
    if i < |s| && IsSpace(s[i]) then SkipLeft(s, i + 1) else i
  }

  /**
   * The scan from the right of `str.strip()`: moving left from `j`, skip
   * whitespace but never pass `lo`.
   */
  function SkipRight(s: string, lo: nat, j: nat): (k: nat)
    requires lo <= j <= |s|
    ensures lo <= k <= j
    ensures forall m :: k <= m < j ==> IsSpace(s[m])
    ensures k > lo ==> !IsSpace(s[k - 1])
    decreases j
  {
    if j > lo && IsSpace(s[j - 1]) then SkipRight(s, lo, j - 1) else j
  }

  /**
   * Python's `s.strip()`: the contiguous piece of `s` left once the
   * whitespace at both ends is cut off.
   */
  function Strip(s: string): (r: string)
    ensures var lo := SkipLeft(s, 0);
            lo + |r| <= |s| && r == s[lo..lo + |r|]
            && (forall k :: 0 <= k < lo ==> IsSpace(s[k]))
            && (forall k :: lo + |r| <= k < |s| ==> IsSpace(s[k]))
    ensures r == [] || (!IsSpace(r[0]) && !IsSpace(r[|r| - 1]))
  {
    var lo := SkipLeft(s, 0);
    var hi := SkipRight(s, lo, |s|);
    s[lo..hi]
  }

  /**
   * Strip is the only way to cut whitespace off both ends of `s` so that
   * what is left starts and ends with non-whitespace (or is empty).
   */
  lemma StripUnique(s: string, lo: nat, hi: nat)
    requires lo <= hi <= |s|
    requires forall k :: 0 <= k < lo ==> IsSpace(s[k])
    requires forall k :: hi <= k < |s| ==> IsSpace(s[k])
    requires lo < hi ==> !IsSpace(s[lo]) && !IsSpace(s[hi - 1])
    ensures Strip(s) == s[lo..hi]
  {
    var lo' := SkipLeft(s, 0);
    var hi' := SkipRight(s, lo', |s|);
    assert lo' == if lo < hi then lo else |s|;
    assert hi' == if lo < hi then hi else |s|;
  }

  /** Stripping twice removes nothing more. */
  lemma StripIdempotent(s: string)
    ensures Strip(Strip(s)) == Strip(s)
  {
    var r := Strip(s);
    StripUnique(r, 0, |r|);
    assert r[0..|r|] == r;
  }

  /** Strip yields the empty string exactly when `s` is all whitespace. */
  lemma StripEmpty(s: string)
    ensures Strip(s) == [] <==> forall k :: 0 <= k < |s| ==> IsSpace(s[k])
  {
    if forall k :: 0 <= k < |s| ==> IsSpace(s[k]) {
      StripUnique(s, 0, 0);
    }
  }
}
