/** String helpers shared by the adapters: prefixes, splitting at a delimiter,
    decimal rendering of integers and the UTF-8 length of a string. */
module Text {
  import opened Wrappers

  /** The separator between a channel name and a pair in a raw channel (`CHANNEL_PAIR_DELIMITER`). */
  const ChannelPairDelimiter: char := ':'

  /** Rust's `str::starts_with` for a string prefix. */
  predicate StartsWith(s: string, prefix: string) {
    |prefix| <= |s| && s[..|prefix|] == prefix
  }

  /** What follows `prefix` in `s`, when `s` starts with it. */
  function StripPrefix(s: string, prefix: string): (r: Option<string>)
    ensures r.Some? <==> StartsWith(s, prefix)
    ensures r.Some? ==> s == prefix + r.value
  {
    if StartsWith(s, prefix) then Some(s[|prefix|..]) else None
  }

  lemma StripPrefixConcat(prefix: string, rest: string)
    ensures StripPrefix(prefix + rest, prefix) == Some(rest)
  {
    assert (prefix + rest)[..|prefix|] == prefix;
  }

  lemma Associative3(a: string, b: string, c: string)
    ensures a + b + c == a + (b + c)
  {
  }

  lemma Associative5(a: string, b: string, c: string, d: string, e: string)
    ensures a + b + c + d + e == a + (b + (c + d + e))
  {
  }

  /** A string that differs from `prefix` at some position within both does not start with it. */
  lemma StripPrefixMismatch(s: string, prefix: string, k: nat)
    requires k < |prefix| && k < |s| && s[k] != prefix[k]
    ensures StripPrefix(s, prefix) == None
  {
    if |prefix| <= |s| {
      assert s[..|prefix|][k] != prefix[k];
    }
  }

  /** The text before the first `d` in `s` and the text after it; None when `s` holds no `d`. */
  function SplitAtFirst(s: string, d: char): (r: Option<(string, string)>)
    ensures r.None? <==> d !in s
    ensures r.Some? ==> d !in r.value.0 && s == r.value.0 + [d] + r.value.1
  {
    if |s| == 0 then None
    else if s[0] == d then Some(([], s[1..]))
    else
      match SplitAtFirst(s[1..], d)
      case None => None
      case Some(parts) => Some(([s[0]] + parts.0, parts.1))
  }

  /** Splitting the join of a delimiter-free head and any tail gives back the two parts. */
  lemma {:induction false} SplitAtFirstJoin(a: string, d: char, b: string)
    requires d !in a
    ensures SplitAtFirst(a + [d] + b, d) == Some((a, b))
  {
    if a == [] {
      assert a + [d] + b == [d] + b;
    } else {
      var s := a + [d] + b;
      assert s[0] == a[0] && s[0] != d;
      assert s[1..] == a[1..] + [d] + b;
      SplitAtFirstJoin(a[1..], d, b);
      assert [a[0]] + a[1..] == a;
    }
  }

  /** The first element of `s.split(d)`: everything before the first `d`, or all of `s`. */
  function FirstSegment(s: string, d: char): (r: string)
    ensures d !in r
    ensures d in s ==> StartsWith(s, r + [d])
    ensures d !in s ==> r == s
    ensures forall i | 0 <= i < |r| :: r[i] in s
  {
    match SplitAtFirst(s, d)
    case None => s
    case Some(parts) => parts.0
  }

  /** The second element of `s.split(d)`, when there is one (`v[1]` in the source). */
  function SecondSegment(s: string, d: char): (r: Option<string>)
    ensures r.Some? <==> d in s
    ensures r.Some? ==> d !in r.value
    ensures r.Some? ==> forall i | 0 <= i < |r.value| :: r.value[i] in s
  {
    match SplitAtFirst(s, d)
    case None => None
    case Some(parts) => Some(FirstSegment(parts.1, d))
  }

  /** Which text `v[1]` is: it follows `v[0]` and the first delimiter, and it runs to the end of
      `s` or to the next delimiter. */
  lemma SecondSegmentValue(s: string, d: char)
    requires d in s
    ensures var first, second := FirstSegment(s, d), SecondSegment(s, d).value;
      && StartsWith(s, first + [d] + second)
      && var end := |first| + 1 + |second|;
         end == |s| || (end < |s| && s[end] == d)
  {
    var parts := SplitAtFirst(s, d).value;
    SecondOfSplit(parts.0, d, parts.1);
  }

  lemma SecondOfSplit(a: string, d: char, b: string)
    ensures var s, second := a + [d] + b, FirstSegment(b, d);
      && StartsWith(s, a + [d] + second)
      && var end := |a| + 1 + |second|;
         end == |s| || (end < |s| && s[end] == d)
  {
    var s, second := a + [d] + b, FirstSegment(b, d);
    if d in b {
      assert b[..|second| + 1] == second + [d];
      assert s[..|a| + 1 + |second|] == a + [d] + second;
      assert s[|a| + 1 + |second|] == b[|second|];
    } else {
      assert s == a + [d] + second;
    }
  }

  /** The decimal digit character for 0 <= n < 10. */
  function Digit(n: nat): (c: char)
    requires n < 10
    ensures '0' <= c <= '9' && c as int - '0' as int == n
  {
    ['0', '1', '2', '3', '4', '5', '6', '7', '8', '9'][n]
  }

  predicate IsDigits(s: string) {
    forall i | 0 <= i < |s| :: '0' <= s[i] <= '9'
  }

  /** Rust's `Display` of an unsigned integer: decimal digits, no leading zero. */
  function NatToDecimal(n: nat): (r: string)
    ensures |r| >= 1 && IsDigits(r)
    ensures r[0] == '0' ==> n == 0
  {
    if n < 10 then [Digit(n)] else NatToDecimal(n / 10) + [Digit(n % 10)]
  }

  /** The value of a string of decimal digits. */
  function DecimalValue(s: string): nat
    requires IsDigits(s)
  {
    if s == [] then 0 else 10 * DecimalValue(s[..|s| - 1]) + (s[|s| - 1] as int - '0' as int)
  }

  /** Reading back the decimal rendering gives the number. */
  lemma {:induction false} DecimalRoundTrip(n: nat)
    ensures DecimalValue(NatToDecimal(n)) == n
  {
    var r := NatToDecimal(n);
    if n >= 10 {
      DecimalRoundTrip(n / 10);
      assert r[..|r| - 1] == NatToDecimal(n / 10);
    }
  }

  /** The number of bytes UTF-8 uses for one Unicode scalar value. */
  function CharBytes(c: char): (n: nat)
    ensures 1 <= n <= 4
    ensures n == 1 <==> c as int < 0x80
  {
    if c as int < 0x80 then 1
    else if c as int < 0x800 then 2
    else if c as int < 0x1_0000 then 3
    else 4
  }

  /** Rust's `str::len`: the length of the UTF-8 encoding of `s`, in bytes. */
  function ByteLen(s: string): nat {
    if s == [] then 0 else CharBytes(s[0]) + ByteLen(s[1..])
  }

  /** The byte length of a concatenation is the sum of the byte lengths. */
  lemma {:induction false} ByteLenConcat(a: string, b: string)
    ensures ByteLen(a + b) == ByteLen(a) + ByteLen(b)
  {
    if a == [] {
      assert a + b == b;
    } else {
      assert (a + b)[0] == a[0];
      assert (a + b)[1..] == a[1..] + b;
      ByteLenConcat(a[1..], b);
    }
  }

  /** An ASCII string takes one byte per character. */
  lemma {:induction false} ByteLenAscii(s: string)
    requires forall i | 0 <= i < |s| :: s[i] as int < 0x80
    ensures ByteLen(s) == |s|
  {
    if s != [] {
      ByteLenAscii(s[1..]);
    }
  }
}
