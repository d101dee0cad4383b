/**
 The Python built-ins the viewer leans on, written out with Python's own
 semantics: slicing (negative bounds count from the end, every bound is
 clamped), slice assignment on lists, list repetition, `str.strip`,
 `str.rstrip(c)`, `str.ljust`, `str.startswith` and the `{x:02}` format.
 */
module PyStr {

  datatype Option<+T> = None | Some(value: T)

  function Max(a: int, b: int): int { if a < b then b else a }
  function Min(a: int, b: int): int { if a < b then a else b }

  /** One slice bound normalised against a length: a negative bound counts
      from the end, and the result is clamped into [0, len]. */
  function SliceIndex(i: int, len: nat): (k: nat)
    ensures k <= len
    ensures 0 <= i ==> k == Min(i, len)
    ensures i < 0 ==> k == Max(0, len + i)
  {
    if i < 0 then (if len + i < 0 then 0 else len + i)
    else if i > len then len else i
  }

  /** `s[start:stop]`: never fails, an empty result when the bounds cross. */
  function Slice<T>(s: seq<T>, start: int, stop: int): (r: seq<T>)
    ensures |r| <= |s|
    ensures forall x :: x in r ==> x in s
    ensures 0 <= start && 0 <= stop ==>
              r == (if Min(start, |s|) <= Min(stop, |s|) then s[Min(start, |s|)..Min(stop, |s|)] else [])
  {
    var lo := SliceIndex(start, |s|);
    var hi := SliceIndex(stop, |s|);
    if lo <= hi then s[lo..hi] else []
  }

  /** `s[i:i+n]` for non-negative `i` and `n`: at most `n` elements,
      starting with `s[i]` when there is one. */
  lemma SliceWindow<T>(s: seq<T>, i: int, n: int)
    requires 0 <= i && 0 <= n
    ensures var r := Slice(s, i, i + n);
            && r == (if i <= |s| then s[i..Min(i + n, |s|)] else [])
            && |r| <= n
            && (i < |s| && 0 < n ==> |r| > 0 && r[0] == s[i])
  {
  }

  /** `s[start:stop] = v` on a list: the bounds are normalised as for
      slicing, a stop before the start is moved up to the start, and the
      covered piece is replaced by `v` whatever its length. */
  function SliceAssign<T>(s: seq<T>, start: int, stop: int, v: seq<T>): (r: seq<T>)
    ensures 0 <= start <= stop <= |s| ==> r == s[..start] + v + s[stop..]
    ensures 0 <= start <= stop <= |s| && |v| == stop - start ==> |r| == |s|
  {
    var lo := SliceIndex(start, |s|);
    var hi := SliceIndex(stop, |s|);
    var hi' := if hi < lo then lo else hi;
    s[..lo] + v + s[hi'..]
  }

  /** `[x] * k`: a negative count gives the empty list. */
  function Repeat<T>(x: T, k: int): (r: seq<T>)
    ensures |r| == Max(0, k)
    ensures forall i :: 0 <= i < |r| ==> r[i] == x
  {
    seq(if k < 0 then 0 else k, _ => x)
  }

  predicate StartsWith(s: string, prefix: string) {
    |prefix| <= |s| && s[..|prefix|] == prefix
  }

  /** The ASCII part of Python's `str.isspace`: tab, line feed, vertical
      tab, form feed, carriage return, the four information separators
      0x1c..0x1f, and the space. */
  predicate IsSpace(c: char) {
    c == ' ' || (9 <= c as int <= 13) || (28 <= c as int <= 31)
  }

  /** Every character of `s` in `[lo, hi)` is whitespace. */
  predicate SpaceBetween(s: string, lo: int, hi: int) {
    forall i :: 0 <= lo <= i < hi <= |s| ==> IsSpace(s[i])
  }

  /** The first position at or after `i` that is not whitespace, or the
      end of `s`. */
  function SkipSpace(s: string, i: nat): (k: nat)
    requires i <= |s|
    ensures i <= k <= |s|
    ensures SpaceBetween(s, i, k)
    ensures k < |s| ==> !IsSpace(s[k])
    decreases |s| - i
  {
    if i < |s| && IsSpace(s[i]) then SkipSpace(s, i + 1) else i
  }

  /** The position just after the last non-whitespace character in
      `[lo, hi)`, or `lo` when there is none. */
  function SkipSpaceBack(s: string, lo: nat, hi: nat): (k: nat)
    requires lo <= hi <= |s|
    ensures lo <= k <= hi
    ensures SpaceBetween(s, k, hi)
    ensures k > lo ==> !IsSpace(s[k - 1])
    decreases hi - lo
  {
    if hi > lo && IsSpace(s[hi - 1]) then SkipSpaceBack(s, lo, hi - 1) else hi
  }

  /** Where `Strip(s)` starts inside `s`. */
  function StripOffset(s: string): (off: nat)
    ensures off <= |s|
  {
    SkipSpace(s, 0)
  }

  /** `str.strip()`: the piece of `s` left after removing whitespace at
      both ends; only whitespace is removed. */
  function Strip(s: string): (r: string)
    ensures StripOffset(s) + |r| <= |s|
    ensures r == s[StripOffset(s)..StripOffset(s) + |r|]
    ensures SpaceBetween(s, 0, StripOffset(s)) && SpaceBetween(s, StripOffset(s) + |r|, |s|)
    ensures r == [] || (!IsSpace(r[0]) && !IsSpace(r[|r| - 1]))
  {
    var a := SkipSpace(s, 0);
    var b := SkipSpaceBack(s, a, |s|);
    assert SpaceBetween(s, b, |s|);
    s[a..b]
  }

  /** Stripping a piece `t[s..e]` of a longer text, read in the text's own
      positions: the result is a run of `t` inside `[s, e)` with only
      whitespace between it and either end of the piece. */
  lemma StripWithin(t: string, s: nat, e: nat, off: nat, r: string)
    requires s <= e <= |t|
    requires off == StripOffset(t[s..e]) && r == Strip(t[s..e])
    ensures s + off + |r| <= e
    ensures r == t[s + off..s + off + |r|]
    ensures SpaceBetween(t, s, s + off)
    ensures SpaceBetween(t, s + off + |r|, e)
  {
    var p := t[s..e];
    assert SpaceBetween(p, 0, off);
    assert SpaceBetween(p, off + |r|, |p|);
    assert forall k :: 0 <= k < |p| ==> p[k] == t[s + k];
  }

  /** `s.rstrip(c)`: removes every trailing copy of `c`. */
  function RStripChar(s: string, c: char): (r: string)
    ensures |r| <= |s| && r == s[..|r|]
    ensures forall i :: |r| <= i < |s| ==> s[i] == c
    ensures r == [] || r[|r| - 1] != c
  {
    if |s| > 0 && s[|s| - 1] == c then RStripChar(s[..|s| - 1], c) else s
  }

  /** `s.ljust(width)`: pads with spaces on the right up to `width`. */
  function LJust(s: string, width: int): (r: string)
    ensures |r| == Max(|s|, width)
    ensures r[..|s|] == s
    ensures forall i :: |s| <= i < |r| ==> r[i] == ' '
  {
    s + Repeat(' ', width - |s|)
  }

  // ---------------------------------------------------------------------------
  // Decimal rendering

  function DigitChar(d: nat): char
    requires d < 10
  {
    ('0' as int + d) as char
  }

  predicate IsDigit(c: char) { '0' <= c <= '9' }

  predicate AllDigits(s: string) {
    forall i :: 0 <= i < |s| ==> IsDigit(s[i])
  }

  /** The value a run of decimal digits denotes (leading zeros allowed). */
  function DecimalValue(s: string): nat
    requires AllDigits(s)
  {
    if s == [] then 0
    else DecimalValue(s[..|s| - 1]) * 10 + (s[|s| - 1] as int - '0' as int)
  }

  /** `str(n)` for a natural number: no leading zeros, "0" for zero. */
  function Digits(n: nat): (r: string)
    ensures AllDigits(r) && |r| >= 1
    ensures n < 10 <==> |r| == 1
    ensures 10 <= n < 100 <==> |r| == 2
    ensures n >= 10 ==> r[0] != '0'
  {
    if n < 10 then [DigitChar(n)] else Digits(n / 10) + [DigitChar(n % 10)]
  }

  /** `f"{x:02}"`: zero-padded to width two, the sign counting towards the
      width (so a negative number is never padded). */
  function Format02(x: int): (r: string)
    ensures |r| >= 2
    ensures 0 <= x ==> AllDigits(r)
    ensures 0 <= x < 100 <==> (|r| == 2 && AllDigits(r))
  {
    if x >= 0 then
      var d := Digits(x);
      if |d| < 2 then "0" + d else d
    else
      var r := "-" + Digits(-x);
      assert !IsDigit(r[0]);
      r
  }

  lemma {:induction false} DecimalValueOfDigits(n: nat)
    ensures DecimalValue(Digits(n)) == n
  {
    if n >= 10 {
      var d := Digits(n / 10);
      DecimalValueOfDigits(n / 10);
      assert (d + [DigitChar(n % 10)])[..|d|] == d;
    }
  }

  lemma {:induction false} DecimalValueLeadingZero(s: string)
    requires AllDigits(s)
    ensures AllDigits("0" + s) && DecimalValue("0" + s) == DecimalValue(s)
  {
    if s != [] {
      var t := "0" + s;
      assert t[..|t| - 1] == "0" + s[..|s| - 1];
      DecimalValueLeadingZero(s[..|s| - 1]);
    }
  }

  /** The rendering of a natural number reads back as that number, and
      it is exactly two characters long up to 99. */
  lemma Format02RoundTrip(n: nat)
    ensures AllDigits(Format02(n)) && DecimalValue(Format02(n)) == n
    ensures |Format02(n)| == Max(2, |Digits(n)|)
  {
    DecimalValueOfDigits(n);
    if |Digits(n)| < 2 {
      DecimalValueLeadingZero(Digits(n));
    }
  }
}
