/**
 * The JavaScript string and array built-ins that the extension's command
 * handlers rely on, restated over Dafny values: strings are `seq<char>`,
 * numbers are natural numbers, and an array that is reversed in place is an
 * `array`.
 */
module JsBuiltins {

  // ---------------------------------------------------------------------------
  // Array.prototype.join and String.prototype.split
  // ---------------------------------------------------------------------------

  /** `parts.join(sep)`: the parts with `sep` between neighbours; no parts give "". */
  function Join(parts: seq<string>, sep: string): string
  {
    if |parts| == 0 then ""
    else if |parts| == 1 then parts[0]
    else parts[0] + sep + Join(parts[1..], sep)
  }

  /**
   * `s.split("\n")`: the pieces of `s` between newline characters. There is
   * always at least one piece, no piece holds a newline, and joining the pieces
   * with newlines gives `s` back.
   */
  function Split(s: string): (lines: seq<string>)
    ensures |lines| >= 1
    ensures forall i | 0 <= i < |lines| :: '\n' !in lines[i]
    ensures Join(lines, "\n") == s
  {
    if |s| == 0 then [""]
    else
      var rest := Split(s[1..]);
      if s[0] == '\n' then
        assert ([""] + rest)[1..] == rest;
        [""] + rest
      else
        var lines := [[s[0]] + rest[0]] + rest[1..];
        assert lines[1..] == rest[1..];
        assert s == [s[0]] + s[1..];
        lines
  }

  /** A string without a newline splits into itself alone. */
  lemma {:induction false} SplitSingleLine(a: string)
    requires '\n' !in a
    ensures Split(a) == [a]
  {
    if |a| > 0 {
      SplitSingleLine(a[1..]);
      assert a == [a[0]] + a[1..];
    }
  }

  /** Splitting a line, a newline and more text gives the line, then the pieces of the rest. */
  lemma {:induction false} SplitFirstLine(a: string, b: string)
    requires '\n' !in a
    ensures Split(a + "\n" + b) == [a] + Split(b)
  {
    var s := a + "\n" + b;
    if |a| == 0 {
      assert s[1..] == b;
    } else {
      assert s[1..] == a[1..] + "\n" + b;
      SplitFirstLine(a[1..], b);
      assert a == [a[0]] + a[1..];
    }
  }

  /** Splitting newline-free lines joined by newlines gives the same lines back. */
  lemma {:induction false} SplitJoin(lines: seq<string>)
    requires |lines| >= 1
    requires forall i | 0 <= i < |lines| :: '\n' !in lines[i]
    ensures Split(Join(lines, "\n")) == lines
  {
    if |lines| == 1 {
      SplitSingleLine(lines[0]);
    } else {
      SplitJoin(lines[1..]);
      SplitFirstLine(lines[0], Join(lines[1..], "\n"));
      assert lines == [lines[0]] + lines[1..];
    }
  }

  /** Three and four parts joined by a separator, spelled out. */
  lemma JoinThree(a: string, b: string, c: string, sep: string)
    ensures Join([a, b, c], sep) == a + sep + b + sep + c
  {
    assert [a, b, c][1..] == [b, c];
    assert [b, c][1..] == [c];
    assert Join([b, c], sep) == b + sep + c;
  }

  lemma JoinFour(a: string, b: string, c: string, d: string, sep: string)
    ensures Join([a, b, c, d], sep) == a + sep + b + sep + c + sep + d
  {
    assert [a, b, c, d][1..] == [b, c, d];
    JoinThree(b, c, d, sep);
  }

  // ---------------------------------------------------------------------------
  // String.prototype.endsWith, indexOf and slice
  // ---------------------------------------------------------------------------

  /** `s.endsWith(suffix)`. */
  predicate EndsWith(s: string, suffix: string)
  {
    |suffix| <= |s| && s[|s| - |suffix|..] == suffix
  }

  /** `s.indexOf(c)` for a one-character needle: the first position of `c`, or -1. */
  function IndexOf(s: string, c: char): (r: int)
    ensures r == -1 <==> c !in s
    ensures r != -1 ==> 0 <= r < |s| && s[r] == c && c !in s[..r]
  {
    if |s| == 0 then -1
    else if s[0] == c then 0
    else
      var k := IndexOf(s[1..], c);
      assert c in s <==> c in s[1..] by {
        assert s == [s[0]] + s[1..];
      }
      if k == -1 then -1
      else
        assert s[..k + 1] == [s[0]] + s[1..][..k];
        k + 1
  }

  /**
   * A position argument of `slice` resolved against a length: a negative one
   * counts from the end, and the result is clamped to `0..len`.
   */
  function ClampPosition(i: int, len: nat): (r: nat)
    ensures r <= len
    ensures 0 <= i <= len ==> r == i
  {
    if i < 0 then (if len + i < 0 then 0 else len + i)
    else if i > len then len
    else i
  }

  /** `s.slice(begin, end)`: the characters between the resolved positions, or "". */
  function Slice(s: string, begin: int, end: int): (r: string)
    ensures 0 <= begin <= end <= |s| ==> r == s[begin..end]
    ensures |r| <= |s|
  {
    var from := ClampPosition(begin, |s|);
    var to := ClampPosition(end, |s|);
    if from < to then s[from..to] else ""
  }

  // ---------------------------------------------------------------------------
  // Number to decimal string (template-literal interpolation of a count)
  // ---------------------------------------------------------------------------

  predicate IsDigit(c: char)
  {
    '0' <= c <= '9'
  }

  function DigitChar(d: nat): (c: char)
    requires d < 10
  {
    (48 + d) as char
  }

  function DigitValue(c: char): nat
    requires IsDigit(c)
  {
    (c as int) - 48
  }

  /** The number a string of decimal digits stands for. */
  function DecimalValue(s: string): nat
    requires forall i | 0 <= i < |s| :: IsDigit(s[i])
  {
    if |s| == 0 then 0
    else 10 * DecimalValue(s[..|s| - 1]) + DigitValue(s[|s| - 1])
  }

  /**
   * `${n}` for a natural number: its decimal digits, without leading zeros,
   * which read back as `n`.
   */
  function NatToDecimal(n: nat): (r: string)
    ensures |r| >= 1
    ensures forall i | 0 <= i < |r| :: IsDigit(r[i])
    ensures r[0] == '0' ==> n == 0 && r == "0"
    ensures DecimalValue(r) == n
  {
    if n < 10 then [DigitChar(n)]
    else
      var r := NatToDecimal(n / 10) + [DigitChar(n % 10)];
      assert r[..|r| - 1] == NatToDecimal(n / 10);
      r
  }

  // ---------------------------------------------------------------------------
  // Array.prototype.reverse
  // ---------------------------------------------------------------------------

  /** The elements of `xs` in the opposite order. */
  function Reversed<T>(xs: seq<T>): (r: seq<T>)
    ensures |r| == |xs|
    ensures forall k | 0 <= k < |xs| :: r[k] == xs[|xs| - 1 - k]
  {
    if |xs| == 0 then []
    else [xs[|xs| - 1]] + Reversed(xs[..|xs| - 1])
  }

  /** `a.reverse()`: reverses the array in place by swapping from both ends. */
  method Reverse<T>(a: array<T>)
    modifies a
    ensures a[..] == Reversed(old(a[..]))
  {
    var lo, hi := 0, a.Length;
    while hi - lo >= 2
      invariant 0 <= lo <= hi <= a.Length && lo + hi == a.Length
      invariant forall k | 0 <= k < lo :: a[k] == old(a[a.Length - 1 - k])
      invariant forall k | hi <= k < a.Length :: a[k] == old(a[a.Length - 1 - k])
      invariant forall k | lo <= k < hi :: a[k] == old(a[k])
    {
      a[lo], a[hi - 1] := a[hi - 1], a[lo];
      lo, hi := lo + 1, hi - 1;
    }
    assert forall k | 0 <= k < a.Length :: a[k] == old(a[..])[a.Length - 1 - k];
  }
}
