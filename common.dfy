/** Optional values and results with an error, shared by every module. */
module Wrappers {

  datatype Option<T> = None | Some(value: T)

  datatype Result<T, E> = Ok(value: T) | Err(error: E)
}

/**
 * The handful of Python string operations the modelled code relies on:
 * `str.split(sep)`, `sep.join(items)`, `str.replace(old, new)`,
 * `str.strip([chars])`, `str.find(sub) != -1`, `str(int)`, `int(str)` and
 * the ordering of byte strings used by `sorted`.
 */
module Text {
  import opened Wrappers

  /** Python truthiness of an optional string: present and non-empty. */
  predicate Truthy(s: Option<string>)
  {
    s.Some? && s.value != ""
  }

  /** Python truthiness of an optional integer: present and not 0. */
  predicate IntTruthy(x: Option<int>)
  {
    x.Some? && x.value != 0
  }

  // ---------------------------------------------------------------------
  // split / join
  // ---------------------------------------------------------------------

  /** Python's `s.split(c)` for a one-character separator: empty pieces are kept. */
  function Split(s: string, c: char): (r: seq<string>)
    ensures |r| >= 1
    ensures forall i :: 0 <= i < |r| ==> c !in r[i]
    ensures c !in s ==> r == [s]
    ensures c in s ==> |r| > 1
  {
    if s == [] then [""]
    else
      var rest := Split(s[1..], c);
      assert s == [s[0]] + s[1..];
      if s[0] == c then [""] + rest
      else [[s[0]] + rest[0]] + rest[1..]
  }

  /** Python's `sep.join(items)`. */
  function Join(items: seq<string>, sep: string): string
  {
    if |items| == 0 then ""
    else if |items| == 1 then items[0]
    else items[0] + sep + Join(items[1..], sep)
  }

  lemma JoinCons(items: seq<string>, sep: string)
    requires |items| >= 2
    ensures Join(items, sep) == items[0] + sep + Join(items[1..], sep)
  {
  }

  /** Joining the pieces of a split with the separator gives back the original string. */
  lemma {:induction false} JoinSplit(s: string, c: char)
    ensures Join(Split(s, c), [c]) == s
  {
    if s != [] {
      var rest := Split(s[1..], c);
      JoinSplit(s[1..], c);
      if s[0] == c {
        assert Split(s, c) == [""] + rest;
        assert Join(Split(s, c), [c]) == "" + [c] + Join(rest, [c]);
      } else {
        var r := Split(s, c);
        assert r == [[s[0]] + rest[0]] + rest[1..];
        if |rest| == 1 {
          assert Join(r, [c]) == [s[0]] + rest[0];
        } else {
          assert r[1..] == rest[1..];
          assert Join(rest, [c]) == rest[0] + [c] + Join(rest[1..], [c]);
          assert Join(r, [c]) == [s[0]] + rest[0] + [c] + Join(rest[1..], [c]);
        }
      }
    }
  }

  /** Splitting at a separator that follows a separator-free piece yields that piece first. */
  lemma {:induction false} SplitAfterPiece(a: string, t: string, c: char)
    requires c !in a
    ensures Split(a + [c] + t, c) == [a] + Split(t, c)
  {
    if a == [] {
      assert a + [c] + t == [c] + t;
      assert ([c] + t)[1..] == t;
    } else {
      assert (a + [c] + t)[1..] == a[1..] + [c] + t;
      SplitAfterPiece(a[1..], t, c);
      assert [a[0]] + a[1..] == a;
    }
  }

  /** Splitting a join of separator-free pieces gives the pieces back. */
  lemma {:induction false} SplitJoin(items: seq<string>, c: char)
    requires |items| >= 1
    requires forall i :: 0 <= i < |items| ==> c !in items[i]
    ensures Split(Join(items, [c]), c) == items
  {
    if |items| > 1 {
      SplitJoin(items[1..], c);
      SplitAfterPiece(items[0], Join(items[1..], [c]), c);
      assert items == [items[0]] + items[1..];
    }
  }

  /** A join of non-empty pieces is empty exactly when there are no pieces. */
  lemma JoinEmpty(items: seq<string>, sep: string)
    requires forall i :: 0 <= i < |items| ==> items[i] != ""
    ensures Join(items, sep) == "" <==> items == []
  {
    if |items| > 1 {
      assert |Join(items, sep)| >= |items[0]|;
    }
  }

  /** The first piece of a split is a prefix of the string, followed by the separator if there is one. */
  lemma {:induction false} SplitFirst(s: string, c: char)
    ensures StartsWith(s, Split(s, c)[0])
    ensures c in s ==> |Split(s, c)[0]| < |s| && s[|Split(s, c)[0]|] == c
  {
    if s != [] && s[0] != c {
      SplitFirst(s[1..], c);
      assert s == [s[0]] + s[1..];
    }
  }

  /** The last piece of a split: what follows the last separator, or all of `s` without one. */
  lemma {:induction false} SplitLast(s: string, c: char)
    ensures var r := Split(s, c); var last := r[|r| - 1];
      && |last| <= |s|
      && s[|s| - |last|..] == last
      && (c in s ==> |last| < |s| && s[|s| - |last| - 1] == c)
      && (c !in s ==> last == s)
  {
    if s != [] {
      SplitLast(s[1..], c);
      var rest := Split(s[1..], c);
      var r := Split(s, c);
      if s[0] == c {
        assert r == [""] + rest;
        assert r[|r| - 1] == rest[|rest| - 1];
      } else if |rest| > 1 {
        assert r[|r| - 1] == rest[|rest| - 1];
        assert s == [s[0]] + s[1..];
      }
    }
  }

  // ---------------------------------------------------------------------
  // splitlines
  // ---------------------------------------------------------------------

  predicate IsLineBreak(ch: char)
  {
    ch == '\n' || ch == '\r'
  }

  /** The length of the first line: the index of the first line break, or the whole length. */
  function LineEnd(s: string): (n: nat)
    ensures n <= |s|
    ensures forall i :: 0 <= i < n ==> !IsLineBreak(s[i])
    ensures n < |s| ==> IsLineBreak(s[n])
  {
    if s == [] || IsLineBreak(s[0]) then 0 else 1 + LineEnd(s[1..])
  }

  /**
   * Python 2's `str.splitlines()`: lines end at `\n`, `\r` or `\r\n`, the
   * breaks are dropped, and a break at the very end opens no further line.
   */
  function SplitLines(s: string): (lines: seq<string>)
    ensures forall k, i :: 0 <= k < |lines| && 0 <= i < |lines[k]| ==> !IsLineBreak(lines[k][i])
    decreases |s|
  {
    if s == [] then []
    else
      var n := LineEnd(s);
      if n == |s| then [s]
      else
        var width := if s[n] == '\r' && n + 1 < |s| && s[n + 1] == '\n' then 2 else 1;
        [s[..n]] + SplitLines(s[n + width..])
  }

  /** A line without breaks ends where a following `\n` begins. */
  lemma {:induction false} LineEndBeforeBreak(a: string, t: string)
    requires forall i :: 0 <= i < |a| ==> !IsLineBreak(a[i])
    ensures LineEnd(a + "\n" + t) == |a|
  {
    if a != [] {
      assert (a + "\n" + t)[1..] == a[1..] + "\n" + t;
      LineEndBeforeBreak(a[1..], t);
    }
  }

  /** A line without breaks followed by `\n` is the first line of what it starts. */
  lemma SplitLinesCons(a: string, t: string)
    requires forall i :: 0 <= i < |a| ==> !IsLineBreak(a[i])
    ensures SplitLines(a + "\n" + t) == [a] + SplitLines(t)
  {
    var s := a + "\n" + t;
    LineEndBeforeBreak(a, t);
    assert s[|a|] == '\n';
    assert s[..|a|] == a;
    assert s[|a| + 1..] == t;
  }

  /** A non-empty string without breaks is a single line. */
  lemma SplitLinesSingle(a: string)
    requires a != "" && forall i :: 0 <= i < |a| ==> !IsLineBreak(a[i])
    ensures SplitLines(a) == [a]
  {
    assert LineEnd(a) == |a|;
  }

  /** Lines joined by `\n` split back into the same lines, provided the last one is not empty. */
  lemma {:induction false} SplitLinesJoin(lines: seq<string>)
    requires lines != [] && lines[|lines| - 1] != ""
    requires forall k, i :: 0 <= k < |lines| && 0 <= i < |lines[k]| ==> !IsLineBreak(lines[k][i])
    ensures SplitLines(Join(lines, "\n")) == lines
  {
    var head := lines[0];
    assert forall i :: 0 <= i < |head| ==> !IsLineBreak(head[i]);
    if |lines| == 1 {
      SplitLinesSingle(head);
    } else {
      var tail := lines[1..];
      assert tail[|tail| - 1] == lines[|lines| - 1];
      assert forall k, i :: 0 <= k < |tail| && 0 <= i < |tail[k]| ==> !IsLineBreak(tail[k][i]) by {
        forall k, i | 0 <= k < |tail| && 0 <= i < |tail[k]|
          ensures !IsLineBreak(tail[k][i])
        {
          assert tail[k] == lines[k + 1];
        }
      }
      SplitLinesJoin(tail);
      JoinCons(lines, "\n");
      SplitLinesCons(head, Join(tail, "\n"));
      assert lines == [head] + tail;
    }
  }

  // ---------------------------------------------------------------------
  // substring search and replacement
  // ---------------------------------------------------------------------

  predicate StartsWith(s: string, p: string)
  {
    |p| <= |s| && s[..|p|] == p
  }

  predicate EndsWith(s: string, p: string)
  {
    |p| <= |s| && s[|s| - |p|..] == p
  }

  /** `s.find(p) != -1`: `p` occurs somewhere in `s`. */
  predicate Contains(s: string, p: string)
    decreases |s|
  {
    StartsWith(s, p) || (s != [] && Contains(s[1..], p))
  }

  /** `p` sits at position `i` of `s`. */
  predicate OccursAt(s: string, p: string, i: int)
  {
    0 <= i <= |s| - |p| && s[i..i + |p|] == p
  }

  /** `Contains` holds exactly when `p` sits at some position of `s`. */
  lemma {:induction false} ContainsAt(s: string, p: string)
    ensures Contains(s, p) <==> exists i :: OccursAt(s, p, i)
  {
    if StartsWith(s, p) {
      assert OccursAt(s, p, 0);
    }
    if s != [] {
      ContainsAt(s[1..], p);
      if exists i :: OccursAt(s, p, i) {
        var i :| OccursAt(s, p, i);
        if i > 0 {
          assert s[1..][i - 1..i - 1 + |p|] == p;
          assert OccursAt(s[1..], p, i - 1);
        }
      }
      if Contains(s[1..], p) {
        var j :| OccursAt(s[1..], p, j);
        assert s[j + 1..j + 1 + |p|] == p;
        assert OccursAt(s, p, j + 1);
      }
    } else {
      if exists i :: OccursAt(s, p, i) {
        var i :| OccursAt(s, p, i);
        assert p == [];
      }
    }
  }

  /** Python's `s.replace(pat, rep)`: one left-to-right pass over non-overlapping occurrences. */
  function Replace(s: string, pat: string, rep: string): string
    requires pat != []
    decreases |s|
  {
    if |s| < |pat| then s
    else if s[..|pat|] == pat then rep + Replace(s[|pat|..], pat, rep)
    else [s[0]] + Replace(s[1..], pat, rep)
  }

  /** A pattern that does not occur leaves the text unchanged. */
  lemma {:induction false} ReplaceAbsent(s: string, pat: string, rep: string)
    requires pat != []
    requires !Contains(s, pat)
    ensures Replace(s, pat, rep) == s
  {
    if |s| >= |pat| {
      assert !StartsWith(s, pat);
      ReplaceAbsent(s[1..], pat, rep);
    }
  }

  /** An occurrence at the very start is replaced and the scan resumes after it. */
  lemma ReplaceLeading(s: string, pat: string, rep: string)
    requires pat != []
    ensures Replace(pat + s, pat, rep) == rep + Replace(s, pat, rep)
  {
    assert (pat + s)[..|pat|] == pat;
    assert (pat + s)[|pat|..] == s;
  }

  /** When no occurrence starts inside `x`, the scan copies `x` and carries on with `y`. */
  lemma {:induction false} ReplaceSkip(x: string, y: string, pat: string, rep: string)
    requires pat != []
    requires forall k :: 0 <= k < |x| ==> !OccursAt(x + y, pat, k)
    ensures Replace(x + y, pat, rep) == x + Replace(y, pat, rep)
  {
    if x != [] {
      var s := x + y;
      var t := x[1..] + y;
      assert s[1..] == t;
      forall k | 0 <= k < |x| - 1
        ensures !OccursAt(t, pat, k)
      {
        assert !OccursAt(s, pat, k + 1);
        if k <= |t| - |pat| {
          assert t[k..k + |pat|] == s[k + 1..k + 1 + |pat|];
        }
      }
      ReplaceSkip(x[1..], y, pat, rep);
      if |s| >= |pat| {
        assert !OccursAt(s, pat, 0);
        assert s[..|pat|] != pat;
        calc {
          Replace(s, pat, rep);
          [s[0]] + Replace(t, pat, rep);
          [x[0]] + (x[1..] + Replace(y, pat, rep));
          { assert [x[0]] + x[1..] == x; }
          x + Replace(y, pat, rep);
        }
      } else {
        assert Replace(y, pat, rep) == y;
      }
    } else {
      assert x + y == y;
    }
  }

  /** Text without the pattern's first character is copied unchanged. */
  lemma ReplaceSkipFree(x: string, y: string, pat: string, rep: string)
    requires pat != [] && pat[0] !in x
    ensures Replace(x + y, pat, rep) == x + Replace(y, pat, rep)
  {
    forall k | 0 <= k < |x|
      ensures !OccursAt(x + y, pat, k)
    {
      assert (x + y)[k] == x[k] != pat[0];
    }
    ReplaceSkip(x, y, pat, rep);
  }

  /** Text that does not start with the pattern, and holds its first character only at its own start, is copied. */
  lemma ReplaceSkipOther(x: string, y: string, pat: string, rep: string)
    requires pat != [] && x != [] && pat[0] !in x[1..]
    requires !StartsWith(x + y, pat)
    ensures Replace(x + y, pat, rep) == x + Replace(y, pat, rep)
  {
    forall k | 0 <= k < |x|
      ensures !OccursAt(x + y, pat, k)
    {
      if k > 0 {
        assert (x + y)[k] == x[1..][k - 1] != pat[0];
      }
    }
    ReplaceSkip(x, y, pat, rep);
  }

  /** Where a pattern occurs, so does each of its parts, shifted by the part's offset. */
  lemma PartOccurs(s: string, pat: string, part: string, i: int, j: int)
    requires OccursAt(pat, part, j) && OccursAt(s, pat, i)
    ensures OccursAt(s, part, i + j)
  {
    forall m | 0 <= m < |part|
      ensures s[i + j + m] == part[m]
    {
      assert pat[j + m] == part[m];
      assert s[i..i + |pat|][j + m] == s[i + j + m];
    }
  }

  /** A pattern cannot occur in text that lacks one of its parts. */
  lemma ReplaceWithoutPart(s: string, pat: string, rep: string, part: string, j: int)
    requires pat != [] && OccursAt(pat, part, j)
    requires !Contains(s, part)
    ensures Replace(s, pat, rep) == s
  {
    ContainsAt(s, pat);
    ContainsAt(s, part);
    forall i | OccursAt(s, pat, i)
      ensures OccursAt(s, part, i + j)
    {
      PartOccurs(s, pat, part, i, j);
    }
    ReplaceAbsent(s, pat, rep);
  }

  // ---------------------------------------------------------------------
  // strip
  // ---------------------------------------------------------------------

  /** The characters `str.strip()` removes without an argument. */
  const Whitespace: set<char> := {' ', '\t', '\n', '\r', '\U{B}', '\U{C}'}

  function StripLeft(s: string, chars: set<char>): (r: string)
    ensures |r| <= |s| && r == s[|s| - |r|..]
    ensures r != [] ==> r[0] !in chars
    ensures forall i :: 0 <= i < |s| - |r| ==> s[i] in chars
  {
    if s != [] && s[0] in chars then StripLeft(s[1..], chars) else s
  }

  function StripRight(s: string, chars: set<char>): (r: string)
    ensures |r| <= |s| && r == s[..|r|]
    ensures r != [] ==> r[|r| - 1] !in chars
    ensures forall i :: |r| <= i < |s| ==> s[i] in chars
  {
    if s != [] && s[|s| - 1] in chars then StripRight(s[..|s| - 1], chars) else s
  }

  /** Python's `s.strip(chars)`: drops characters of the set from both ends. */
  function Strip(s: string, chars: set<char>): string
  {
    StripRight(StripLeft(s, chars), chars)
  }

  // ---------------------------------------------------------------------
  // decimal numbers
  // ---------------------------------------------------------------------

  predicate IsDigit(ch: char)
  {
    '0' <= ch <= '9'
  }

  function DigitChar(d: nat): char
    requires d < 10
  {
    ['0', '1', '2', '3', '4', '5', '6', '7', '8', '9'][d]
  }

  function DigitValue(ch: char): nat
    requires IsDigit(ch)
  {
    (ch as int - '0' as int) as nat
  }

  /** Python's `int(x)` for a number that may have a fraction: the integer part, truncated toward zero. */
  function TruncateToInt(x: real): (n: int)
    ensures x >= 0.0 ==> 0 <= n && n as real <= x < n as real + 1.0
    ensures x < 0.0 ==> n <= 0 && n as real - 1.0 < x <= n as real
  {
    if x >= 0.0 then x.Floor else -((-x).Floor)
  }

  /** Python's `str(n)` for a non-negative integer. */
  function NatToString(n: nat): (r: string)
    ensures r != [] && forall i :: 0 <= i < |r| ==> IsDigit(r[i])
  {
    if n < 10 then [DigitChar(n)] else NatToString(n / 10) + [DigitChar(n % 10)]
  }

  /** Python's `str(n)`. */
  function IntToString(n: int): string
  {
    if n < 0 then "-" + NatToString(-n) else NatToString(n)
  }

  /** The value of a string of decimal digits. */
  function DigitsValue(s: string): nat
    requires forall i :: 0 <= i < |s| ==> IsDigit(s[i])
  {
    if s == [] then 0 else DigitsValue(s[..|s| - 1]) * 10 + DigitValue(s[|s| - 1])
  }

  predicate AllDigits(s: string)
  {
    forall i :: 0 <= i < |s| ==> IsDigit(s[i])
  }

  /**
   * Python 2's `int(s)` for a string: optional surrounding whitespace, an
   * optional sign, optional whitespace after the sign, and at least one
   * decimal digit; anything else raises ValueError, modelled as None.
   */
  function ParseInt(s: string): Option<int>
  {
    ParseStripped(Strip(s, Whitespace))
  }

  /** `int()` on text with the surrounding whitespace already removed. */
  function ParseStripped(t: string): Option<int>
  {
    if t != [] && (t[0] == '-' || t[0] == '+') then
      var digits := StripLeft(t[1..], Whitespace);
      if digits != [] && AllDigits(digits) then
        Some(if t[0] == '-' then -(DigitsValue(digits) as int) else DigitsValue(digits))
      else None
    else if t != [] && AllDigits(t) then Some(DigitsValue(t))
    else None
  }

  /** Whitespace between the sign and the digits is skipped: `int('- 5') == -5`. */
  lemma ParseIntSpaceAfterSign(sign: char, gap: string, d: string)
    requires sign == '-' || sign == '+'
    requires forall i :: 0 <= i < |gap| ==> gap[i] in Whitespace
    requires d != [] && AllDigits(d)
    ensures ParseInt([sign] + gap + d)
         == Some(if sign == '-' then -(DigitsValue(d) as int) else DigitsValue(d) as int)
  {
    var t := [sign] + gap + d;
    assert IsDigit(d[|d| - 1]);
    assert t[|t| - 1] == d[|d| - 1];
    NothingToStrip(t);
    assert t[1..] == gap + d;
    NoWhitespaceBeforeDigits(d);
    StripLeftWhitespace(gap, d);
    SignedDigits(t, d);
  }

  /** Leading whitespace is stripped up to the first other character. */
  lemma {:induction false} StripLeftWhitespace(gap: string, s: string)
    requires forall i :: 0 <= i < |gap| ==> gap[i] in Whitespace
    requires s != [] && s[0] !in Whitespace
    ensures StripLeft(gap + s, Whitespace) == s
  {
    var t := gap + s;
    if gap == [] {
      assert t == s;
    } else {
      assert t[0] == gap[0] && t[0] in Whitespace;
      assert t[1..] == gap[1..] + s;
      StripLeftWhitespace(gap[1..], s);
      assert StripLeft(t, Whitespace) == StripLeft(t[1..], Whitespace);
    }
  }

  /** A sign, then whitespace and digits, reads as the signed number. */
  lemma SignedDigits(t: string, d: string)
    requires t != [] && (t[0] == '-' || t[0] == '+')
    requires d != [] && AllDigits(d) && StripLeft(t[1..], Whitespace) == d
    ensures ParseStripped(t) == Some(if t[0] == '-' then -(DigitsValue(d) as int) else DigitsValue(d) as int)
  {
  }

  /** Text that neither starts nor ends with whitespace is its own strip. */
  lemma NothingToStrip(t: string)
    requires t != [] && t[0] !in Whitespace && t[|t| - 1] !in Whitespace
    ensures Strip(t, Whitespace) == t
  {
    assert StripLeft(t, Whitespace) == t;
  }

  lemma {:induction false} DigitsOfNat(n: nat)
    ensures DigitsValue(NatToString(n)) == n
  {
    var s := NatToString(n);
    if n < 10 {
      assert DigitValue(DigitChar(n)) == n;
      assert s[..0] == [];
    } else {
      DigitsOfNat(n / 10);
      assert s[..|s| - 1] == NatToString(n / 10);
      assert DigitValue(DigitChar(n % 10)) == n % 10;
    }
  }

  /** `int(str(n)) == n`. */
  lemma ParseIntToString(n: int)
    ensures ParseInt(IntToString(n)) == Some(n)
  {
    var s := IntToString(n);
    IntToStringStripped(n);
    assert ParseInt(s) == ParseStripped(s);
    var d := NatToString(if n < 0 then -n else n);
    DigitsOfNat(if n < 0 then -n else n);
    if n < 0 {
      assert s == "-" + d;
      ParseIntSigned(d);
    } else {
      assert s == d;
      ParseIntDigits(d);
    }
  }

  lemma ParseIntSigned(d: string)
    requires d != [] && AllDigits(d)
    ensures ParseStripped("-" + d) == Some(-(DigitsValue(d) as int))
  {
    assert ("-" + d)[1..] == d;
    NoWhitespaceBeforeDigits(d);
  }

  /** Digits do not start with whitespace, so stripping leaves them alone. */
  lemma NoWhitespaceBeforeDigits(d: string)
    requires d != [] && IsDigit(d[0])
    ensures StripLeft(d, Whitespace) == d
  {
    assert d[0] !in Whitespace;
  }

  lemma ParseIntDigits(d: string)
    requires d != [] && AllDigits(d)
    ensures ParseStripped(d) == Some(DigitsValue(d) as int)
  {
    assert IsDigit(d[0]);
  }

  /** `str(n)` has no surrounding whitespace. */
  lemma IntToStringStripped(n: int)
    ensures Strip(IntToString(n), Whitespace) == IntToString(n)
  {
    var s := IntToString(n);
    var d := NatToString(if n < 0 then -n else n);
    assert IsDigit(d[0]) && IsDigit(d[|d| - 1]);
    assert s[0] !in Whitespace;
    assert StripLeft(s, Whitespace) == s;
    assert s[|s| - 1] == d[|d| - 1];
    assert StripRight(s, Whitespace) == s;
  }

  /** Leading spaces (as `'{0:w}'.format` adds) do not change what `int()` reads. */
  lemma ParseIntIgnoresPadding(n: int, width: nat)
    ensures ParseInt(PadLeft(IntToString(n), width)) == Some(n)
  {
    var s := IntToString(n);
    var p := PadLeft(s, width);
    IntToStringStart(n);
    assert p == seq(|p| - |s|, _ => ' ') + s;
    StripLeftPadding(s, |p| - |s|);
    SameStripSameInt(p, s);
    ParseIntToString(n);
  }

  lemma IntToStringStart(n: int)
    ensures IntToString(n) != [] && IntToString(n)[0] !in Whitespace
  {
    var d := NatToString(if n < 0 then -n else n);
    assert IsDigit(d[0]);
  }

  lemma SameStripSameInt(a: string, b: string)
    requires StripLeft(a, Whitespace) == b
    requires b != [] && b[0] !in Whitespace
    ensures ParseInt(a) == ParseInt(b)
  {
    assert StripLeft(b, Whitespace) == b;
    assert Strip(a, Whitespace) == Strip(b, Whitespace);
  }

  lemma {:induction false} StripLeftPadding(s: string, k: nat)
    requires s != [] && s[0] !in Whitespace
    ensures StripLeft(seq(k, _ => ' ') + s, Whitespace) == s
  {
    if k == 0 {
      assert seq(k, _ => ' ') + s == s;
    } else {
      var t := seq(k, _ => ' ') + s;
      assert t[1..] == seq(k - 1, _ => ' ') + s;
      StripLeftPadding(s, k - 1);
    }
  }

  /** Python's `'{0:w}'.format(n)` for an integer: right-aligned in a field of width `w`. */
  function PadLeft(s: string, width: nat): (r: string)
    ensures |r| == if |s| < width then width else |s|
    ensures EndsWith(r, s)
    ensures forall i :: 0 <= i < |r| - |s| ==> r[i] == ' '
  {
    if |s| >= width then s else seq(width - |s|, _ => ' ') + s
  }

  // ---------------------------------------------------------------------
  // ordering of strings
  // ---------------------------------------------------------------------

  /** Python 2's `<=` on byte strings: lexicographic by character code, a prefix first. */
  predicate LexLe(a: string, b: string)
  {
    if a == [] then true
    else if b == [] then false
    else if a[0] != b[0] then a[0] < b[0]
    else LexLe(a[1..], b[1..])
  }

  lemma {:induction false} LexLeTotal(a: string, b: string)
    ensures LexLe(a, b) || LexLe(b, a)
  {
    if a != [] && b != [] && a[0] == b[0] {
      LexLeTotal(a[1..], b[1..]);
    }
  }

  lemma {:induction false} LexLeTransitive(a: string, b: string, c: string)
    requires LexLe(a, b) && LexLe(b, c)
    ensures LexLe(a, c)
  {
    if a != [] && b != [] && c != [] && a[0] == b[0] && b[0] == c[0] {
      LexLeTransitive(a[1..], b[1..], c[1..]);
    }
  }

  lemma {:induction false} LexLeAntisymmetric(a: string, b: string)
    requires LexLe(a, b) && LexLe(b, a)
    ensures a == b
  {
    if a != [] && b != [] && a[0] == b[0] {
      LexLeAntisymmetric(a[1..], b[1..]);
      assert a == [a[0]] + a[1..];
      assert b == [b[0]] + b[1..];
    }
  }

  lemma {:induction false} LexLeReflexive(a: string)
    ensures LexLe(a, a)
  {
    if a != [] { LexLeReflexive(a[1..]); }
  }

  /** A common prefix does not change how two strings compare. */
  lemma {:induction false} LexLeCommonPrefix(p: string, a: string, b: string)
    ensures LexLe(p + a, p + b) <==> LexLe(a, b)
  {
    if p != [] {
      assert (p + a)[1..] == p[1..] + a;
      assert (p + b)[1..] == p[1..] + b;
      LexLeCommonPrefix(p[1..], a, b);
    } else {
      assert p + a == a && p + b == b;
    }
  }

  /** When neither of two strings starts the other, their order decides the order of any extensions. */
  lemma {:induction false} LexLeExtend(a: string, b: string, x: string, y: string)
    requires !StartsWith(a, b) && !StartsWith(b, a)
    requires LexLe(a, b)
    ensures LexLe(a + x, b + y) && a + x != b + y
  {
    assert a != [] && b != [];
    if a[0] == b[0] {
      assert (a + x)[1..] == a[1..] + x;
      assert (b + y)[1..] == b[1..] + y;
      LexLeExtend(a[1..], b[1..], x, y);
    } else {
      assert (a + x)[0] != (b + y)[0];
    }
  }
}
