/**
 * The Kotlin standard-library string operations the SDK relies on, with their
 * Kotlin semantics: `startsWith`, `endsWith`, `removePrefix`, `split(String)`
 * (no removal of trailing empty pieces), `joinToString` and `Int.toString(radix)`.
 */
module Text {
  import opened Base

  predicate StartsWith(s: string, prefix: string) {
    |prefix| <= |s| && s[..|prefix|] == prefix
  }

  predicate EndsWith(s: string, suffix: string) {
    |suffix| <= |s| && s[|s| - |suffix|..] == suffix
  }

  predicate OccursAt(s: string, pat: string, i: int) {
    0 <= i && i + |pat| <= |s| && s[i..i + |pat|] == pat
  }

  /** `s` has no occurrence of `pat` anywhere. */
  predicate Free(s: string, pat: string) {
    forall j | 0 <= j <= |s| :: !OccursAt(s, pat, j)
  }

  /** Leftmost occurrence of `pat` in `s` at or after position `from`. */
  function IndexOf(s: string, pat: string, from: nat): (r: Option<nat>)
    decreases |s| - from
    ensures r.Some? ==> from <= r.value && OccursAt(s, pat, r.value)
    ensures r.Some? ==> forall j :: from <= j < r.value ==> !OccursAt(s, pat, j)
    ensures r.None? ==> forall j :: from <= j ==> !OccursAt(s, pat, j)
  {
    if from + |pat| > |s| then None
    else if OccursAt(s, pat, from) then Some(from)
    else IndexOf(s, pat, from + 1)
  }

  /** Kotlin `removePrefix`: drops one copy of `prefix` when `s` starts with it. */
  function RemovePrefix(s: string, prefix: string): (r: string)
    ensures StartsWith(s, prefix) ==> prefix + r == s
    ensures !StartsWith(s, prefix) ==> r == s
  {
    if StartsWith(s, prefix) then s[|prefix|..] else s
  }

  /** Kotlin `joinToString(sep)`. */
  function Join(parts: seq<string>, sep: string): string
    decreases |parts|
  {
    if |parts| == 0 then ""
    else if |parts| == 1 then parts[0]
    else parts[0] + sep + Join(parts[1..], sep)
  }

  lemma PrefixBeforeFirstIsFree(s: string, pat: string, i: nat)
    requires |pat| > 0 && i <= |s|
    requires forall j :: 0 <= j < i ==> !OccursAt(s, pat, j)
    ensures Free(s[..i], pat)
  {
    forall j | OccursAt(s[..i], pat, j)
      ensures false
    {
      assert s[..i][j..j + |pat|] == s[j..j + |pat|];
      assert OccursAt(s, pat, j);
    }
  }

  /**
   * Kotlin `split(delim)` for a non-empty delimiter: the pieces between the
   * non-overlapping occurrences of `delim`, scanned left to right, keeping
   * empty pieces (also a trailing one).
   */
  function Split(s: string, delim: string): (parts: seq<string>)
    requires |delim| > 0
    decreases |s|
    ensures |parts| >= 1
    ensures Join(parts, delim) == s
    ensures forall k :: 0 <= k < |parts| ==> Free(parts[k], delim)
  {
    match IndexOf(s, delim, 0)
    case None => [s]
    case Some(i) =>
      var rest := Split(s[i + |delim|..], delim);
      PrefixBeforeFirstIsFree(s, delim, i);
      assert s == s[..i] + delim + s[i + |delim|..] by {
        assert s[i..i + |delim|] == delim;
        assert s == s[..i] + s[i..i + |delim|] + s[i + |delim|..];
      }
      assert ([s[..i]] + rest)[1..] == rest;
      [s[..i]] + rest
  }

  lemma CharFreeIffAbsent(s: string, c: char)
    ensures Free(s, [c]) <==> c !in s
  {
    forall j | 0 <= j <= |s| && OccursAt(s, [c], j)
      ensures c in s
    {
      OccurrenceIsMember(s, c, j);
    }
    if c in s {
      var k :| 0 <= k < |s| && s[k] == c;
      assert OccursAt(s, [c], k);
    }
  }

  lemma OccurrenceIsMember(s: string, c: char, j: int)
    requires OccursAt(s, [c], j)
    ensures c in s
  {
    assert s[j] == s[j..j + 1][0];
  }

  /**
   * `joinToString` and `split` with a one-character separator are inverse
   * when no piece contains the separator: the joined string determines the
   * list of pieces.
   */
  lemma {:induction false} SplitJoin(parts: seq<string>, c: char)
    requires |parts| >= 1
    requires forall k :: 0 <= k < |parts| ==> c !in parts[k]
    ensures Split(Join(parts, [c]), [c]) == parts
    decreases |parts|
  {
    CharFreeIffAbsent(parts[0], c);
    if |parts| == 1 {
      assert IndexOf(parts[0], [c], 0).None?;
    } else {
      var tail := Join(parts[1..], [c]);
      var s := parts[0] + [c] + tail;
      assert Join(parts, [c]) == s;
      var p := |parts[0]|;
      assert OccursAt(s, [c], p);
      forall j | 0 <= j < p
        ensures !OccursAt(s, [c], j)
      {
        assert s[j..j + 1] == parts[0][j..j + 1];
        assert !OccursAt(parts[0], [c], j);
      }
      assert IndexOf(s, [c], 0) == Some(p);
      assert s[..p] == parts[0];
      assert s[p + 1..] == tail;
      SplitJoin(parts[1..], c);
      assert [parts[0]] + parts[1..] == parts;
    }
  }

  /** Digits of `Int.toString(radix)`: `0`-`9`, then lower-case `a`-`f`. */
  function DigitChar(d: nat): char
    requires d < 16
  {
    if d < 10 then ('0' as int + d) as char else ('a' as int + d - 10) as char
  }

  function DigitValue(c: char): Option<nat> {
    if '0' <= c <= '9' then Some(c as int - '0' as int)
    else if 'a' <= c <= 'f' then Some(c as int - 'a' as int + 10)
    else None
  }

  predicate ValidBase(base: nat) {
    2 <= base <= 16
  }

  /** Digits of `n` in `base`, most significant first, no leading zero. */
  function NatToString(n: nat, base: nat): (s: string)
    requires ValidBase(base)
    decreases n
    ensures |s| >= 1
    ensures forall k :: 0 <= k < |s| ==> s[k] != '-'
    ensures s[0] == '0' <==> n == 0
  {
    if n < base then [DigitChar(n)]
    else
      DivModBounds(n, base);
      NatToString(n / base, base) + [DigitChar(n % base)]
  }

  /** Reads back a digit string; `None` on an empty string or a non-digit. */
  function ParseNat(s: string, base: nat): Option<nat>
    decreases |s|
  {
    if |s| == 0 then None
    else
      match DigitValue(s[|s| - 1])
      case None => None
      case Some(d) =>
        if d >= base then None
        else if |s| == 1 then Some(d)
        else
          match ParseNat(s[..|s| - 1], base)
          case None => None
          case Some(v) => Some(v * base + d)
  }

  /** Kotlin `Int.toString(radix)`: a leading `-` and the magnitude's digits. */
  function IntToString(i: int, base: nat): (s: string)
    requires ValidBase(base)
    ensures |s| >= 1
    ensures s[0] == '-' <==> i < 0
    ensures i < 0 ==> |s| >= 2 && s[1] != '0'
    ensures i >= 0 ==> (s[0] == '0' <==> i == 0)
  {
    if i < 0 then "-" + NatToString(-i, base) else NatToString(i, base)
  }

  function ParseInt(s: string, base: nat): Option<int> {
    if |s| > 0 && s[0] == '-' then
      match ParseNat(s[1..], base)
      case None => None
      case Some(v) => Some(-(v as int))
    else ParseNat(s, base)
  }

  lemma DigitRoundTrip(d: nat)
    requires d < 16
    ensures DigitValue(DigitChar(d)) == Some(d)
  {
  }

  /** Euclidean division by a radix: a smaller quotient, a digit-sized remainder. */
  lemma DivModBounds(n: nat, base: nat)
    requires ValidBase(base) && n >= base
    ensures 1 <= n / base < n && 0 <= n % base < base
    ensures n == (n / base) * base + n % base
  {
  }

  /** Appending one digit multiplies the value read so far by the base. */
  lemma ParseNatSnoc(front: string, base: nat, v: nat, d: nat, n: nat)
    requires ValidBase(base) && d < base
    requires ParseNat(front, base) == Some(v)
    requires n == v * base + d
    ensures ParseNat(front + [DigitChar(d)], base) == Some(n)
  {
    var s := front + [DigitChar(d)];
    DigitRoundTrip(d);
    assert s[|s| - 1] == DigitChar(d);
    assert s[..|s| - 1] == front;
  }

  /** The last digit of a rendering is the remainder, the digits before it render the quotient. */
  lemma NatToStringSnoc(n: nat, base: nat)
    requires ValidBase(base) && n >= base
    ensures n % base < base
    ensures NatToString(n, base) == NatToString(n / base, base) + [DigitChar(n % base)]
  {
    DivModBounds(n, base);
  }

  lemma NatRoundTripStep(n: nat, base: nat)
    requires ValidBase(base) && n >= base
    requires ParseNat(NatToString(n / base, base), base) == Some(n / base)
    ensures ParseNat(NatToString(n, base), base) == Some(n)
  {
    DivModBounds(n, base);
    NatToStringSnoc(n, base);
    ParseNatSnoc(NatToString(n / base, base), base, n / base, n % base, n);
  }

  lemma {:induction false} NatRoundTrip(n: nat, base: nat)
    requires ValidBase(base)
    ensures ParseNat(NatToString(n, base), base) == Some(n)
    decreases n
  {
    if n < base {
      DigitRoundTrip(n);
    } else {
      NatRoundTrip(n / base, base);
      NatRoundTripStep(n, base);
    }
  }

  /** Rendering an integer in any radix and reading it back is the identity. */
  lemma IntRoundTrip(i: int, base: nat)
    requires ValidBase(base)
    ensures ParseInt(IntToString(i, base), base) == Some(i)
  {
    if i < 0 {
      NatRoundTrip(-i, base);
      assert IntToString(i, base)[1..] == NatToString(-i, base);
    } else {
      NatRoundTrip(i, base);
    }
  }

  /**
   * The form `Int.toString` writes: an optional `-`, then digits with no
   * leading zero, and no `-0`.
   */
  predicate Canonical(s: string) {
    && |s| >= 1
    && (s[0] == '-' ==> |s| >= 2 && s[1] != '0')
    && (s[0] == '0' ==> |s| == 1)
  }

  /** Every digit character reads back to a digit that renders as the same character. */
  lemma CharRoundTrip(c: char)
    requires DigitValue(c).Some?
    ensures DigitValue(c).value < 16 && DigitChar(DigitValue(c).value) == c
  {
  }

  /** Multiplying by a base keeps the order, with a gap of at least the base. */
  lemma {:induction false} MulMonotone(a: nat, b: nat, base: nat)
    requires a < b
    ensures a * base + base <= b * base
    decreases b - a
  {
    assert (a + 1) * base == a * base + base;
    if a + 1 < b {
      MulMonotone(a + 1, b, base);
    }
  }

  /** Dividing `v * base + d` by the base gives back `v` and `d`. */
  lemma DivModOfSnoc(v: nat, base: nat, d: nat)
    requires ValidBase(base) && d < base
    ensures (v * base + d) / base == v && (v * base + d) % base == d
    ensures v != 0 ==> v * base + d >= base
  {
    var n := v * base + d;
    var q, r := n / base, n % base;
    assert n == q * base + r && 0 <= r < base;
    if q < v {
      MulMonotone(q, v, base);
    } else if v < q {
      MulMonotone(v, q, base);
    }
    if v != 0 {
      MulMonotone(0, v, base);
    }
  }

  /** A rendering of `v` followed by digit `d` renders `v * base + d`. */
  lemma RenderingSnoc(front: string, base: nat, v: nat, d: nat, n: nat)
    requires ValidBase(base) && d < base && v != 0 && n == v * base + d
    requires front == NatToString(v, base)
    ensures front + [DigitChar(d)] == NatToString(n, base)
  {
    DivModOfSnoc(v, base, d);
    NatToStringSnoc(n, base);
  }

  /** A successful read ends in a digit below the base, read after the digits before it. */
  lemma ParseNatParts(s: string, base: nat, n: nat)
    requires ParseNat(s, base) == Some(n)
    ensures |s| >= 1 && DigitValue(s[|s| - 1]).Some?
    ensures DigitValue(s[|s| - 1]).value < base
    ensures |s| == 1 ==> n == DigitValue(s[0]).value
    ensures |s| >= 2 ==> ParseNat(s[..|s| - 1], base).Some?
    ensures |s| >= 2 ==> n == ParseNat(s[..|s| - 1], base).value * base + DigitValue(s[|s| - 1]).value
  {
  }

  /** A digit string without a leading zero is the rendering of the value it reads as. */
  lemma {:induction false} CanonicalNatIsRendering(s: string, base: nat, n: nat)
    requires ValidBase(base) && ParseNat(s, base) == Some(n)
    requires s[0] == '0' ==> |s| == 1
    ensures s == NatToString(n, base)
    decreases |s|
  {
    ParseNatParts(s, base, n);
    var c := s[|s| - 1];
    CharRoundTrip(c);
    var d := DigitValue(c).value;
    if |s| == 1 {
      assert s == [c];
    } else {
      var front := s[..|s| - 1];
      var v := ParseNat(front, base).value;
      CanonicalNatIsRendering(front, base, v);
      assert v != 0 by { assert front[0] == s[0]; }
      RenderingSnoc(front, base, v, d, n);
      assert s == front + [DigitChar(d)];
    }
  }

  /** A canonical negative text is `-` and the rendering of the magnitude it reads as. */
  lemma CanonicalNegative(s: string, base: nat, i: int)
    requires ValidBase(base) && Canonical(s) && s[0] == '-' && ParseInt(s, base) == Some(i)
    ensures i < 0 && s == IntToString(i, base)
  {
    var tail := s[1..];
    var v := ParseNat(tail, base).value;
    assert tail[0] == s[1];
    CanonicalNatIsRendering(tail, base, v);
    assert v != 0;
    assert s == "-" + tail;
  }

  /**
   * `Int.toString` is the only canonical text that reads back to its value,
   * and it is itself canonical: together with `IntRoundTrip` this fixes the
   * rendering of every integer.
   */
  lemma CanonicalIsRendering(s: string, base: nat, i: int)
    requires ValidBase(base) && Canonical(s) && ParseInt(s, base) == Some(i)
    ensures s == IntToString(i, base)
    ensures Canonical(IntToString(i, base))
  {
    if s[0] == '-' {
      CanonicalNegative(s, base, i);
    } else {
      CanonicalNatIsRendering(s, base, i);
    }
    if i == 0 {
      assert IntToString(i, base) == [DigitChar(0)];
    }
  }
}
