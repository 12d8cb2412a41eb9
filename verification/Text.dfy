/** String vocabulary: splitting, joining, trimming, and unsigned integer text, with
    the conventions of the Rust standard library. */
module Text {
  import opened Prelude

  // ---------- Splitting and joining ----------

  /** The maximal c-free pieces of s; there is always at least one. */
  function Split(s: string, c: char): (parts: seq<string>)
    ensures |parts| > 0
    ensures forall p :: p in parts ==> c !in p
  {
    if s == "" then [""]
    else
      var rest := Split(s[1..], c);
      if s[0] == c then [""] + rest else [[s[0]] + rest[0]] + rest[1..]
  }

  /** Join with a single separator character. */
  function Join(parts: seq<string>, c: char): string {
    if parts == [] then ""
    else if |parts| == 1 then parts[0]
    else parts[0] + [c] + Join(parts[1..], c)
  }

  lemma {:induction false} SplitFirst(p: string, rest: string, c: char)
    requires c !in p
    ensures Split(p + [c] + rest, c) == [p] + Split(rest, c)
  {
    var s := p + [c] + rest;
    if p == "" {
      assert s[1..] == rest;
    } else {
      assert s[1..] == p[1..] + [c] + rest;
      SplitFirst(p[1..], rest, c);
      assert [p[0]] + p[1..] == p;
    }
  }

  lemma {:induction false} SplitSingle(p: string, c: char)
    requires c !in p
    ensures Split(p, c) == [p]
  {
    if p != "" {
      SplitSingle(p[1..], c);
      assert [p[0]] + p[1..] == p;
    }
  }

  lemma {:induction false} SplitJoin(parts: seq<string>, c: char)
    requires parts != []
    requires forall p :: p in parts ==> c !in p
    ensures Split(Join(parts, c), c) == parts
  {
    if |parts| == 1 {
      SplitSingle(parts[0], c);
    } else {
      SplitJoin(parts[1..], c);
      SplitFirst(parts[0], Join(parts[1..], c), c);
    }
  }

  /** The text before and after the first c. */
  function SplitOnce(s: string, c: char): (r: Option<(string, string)>)
    ensures r.Some? ==> s == r.value.0 + [c] + r.value.1 && c !in r.value.0
    ensures r.None? <==> c !in s
  {
    if s == "" then None
    else if s[0] == c then
      assert s == "" + [c] + s[1..];
      Some(("", s[1..]))
    else
      match SplitOnce(s[1..], c)
      case None => None
      case Some((a, b)) =>
        assert s == [s[0]] + s[1..];
        Some(([s[0]] + a, b))
  }

  // ---------- Trimming ----------

  // The White_Space property of Unicode, which str::trim uses.
  predicate IsWhite(c: char) {
    var n := c as int;
    || 0x09 <= n <= 0x0d || n == 0x20 || n == 0x85 || n == 0xa0 || n == 0x1680
    || 0x2000 <= n <= 0x200a || n == 0x2028 || n == 0x2029 || n == 0x202f || n == 0x205f || n == 0x3000
  }

  function TrimStart(s: string): string {
    if s != "" && IsWhite(s[0]) then TrimStart(s[1..]) else s
  }

  function TrimEnd(s: string): string {
    if s != "" && IsWhite(s[|s| - 1]) then TrimEnd(s[..|s| - 1]) else s
  }

  function Trim(s: string): string {
    TrimEnd(TrimStart(s))
  }

  predicate Blank(s: string) {
    forall c :: c in s ==> IsWhite(c)
  }

  /** Trim removes white space only: what it drops on both sides is blank, and the rest
      neither starts nor ends with white space. */
  lemma TrimIsCore(s: string)
    ensures exists i, j :: 0 <= i <= j <= |s| && Trim(s) == s[i..j] && Blank(s[..i]) && Blank(s[j..])
    ensures Trim(s) != "" ==> !IsWhite(Trim(s)[0]) && !IsWhite(Trim(s)[|Trim(s)| - 1])
  {
    var i := TrimStartCut(s);
    var t := s[i..];
    var j := TrimEndCut(t);
    assert Trim(s) == s[i..i + j];
    assert s[i + j..] == t[j..];
  }

  lemma {:induction false} TrimStartCut(s: string) returns (i: nat)
    ensures i <= |s| && TrimStart(s) == s[i..] && Blank(s[..i])
    ensures i < |s| ==> !IsWhite(s[i])
  {
    if s != "" && IsWhite(s[0]) {
      var k := TrimStartCut(s[1..]);
      i := k + 1;
      assert s[..i] == [s[0]] + s[1..][..k];
    } else {
      i := 0;
    }
  }

  lemma {:induction false} TrimEndCut(s: string) returns (j: nat)
    ensures j <= |s| && TrimEnd(s) == s[..j] && Blank(s[j..])
    ensures j > 0 ==> !IsWhite(s[j - 1])
  {
    if s != "" && IsWhite(s[|s| - 1]) {
      var front := s[..|s| - 1];
      j := TrimEndCut(front);
      assert s[..j] == front[..j] && s[j..] == front[j..] + [s[|s| - 1]];
    } else {
      j := |s|;
    }
  }

  lemma TrimSolid(s: string)
    requires s != "" ==> !IsWhite(s[0]) && !IsWhite(s[|s| - 1])
    ensures Trim(s) == s
  {}

  // ---------- Unsigned integers ----------

  function DigitOf(c: char, radix: nat): Option<nat>
    requires 2 <= radix <= 16
  {
    var d :=
      if '0' <= c <= '9' then Some(c as nat - '0' as nat)
      else if 'a' <= c <= 'f' then Some(c as nat - 'a' as nat + 10)
      else if 'A' <= c <= 'F' then Some(c as nat - 'A' as nat + 10)
      else None;
    if d.Some? && d.value < radix then d else None
  }

  predicate AllDigits(s: string, radix: nat)
    requires 2 <= radix <= 16
  {
    forall c :: c in s ==> DigitOf(c, radix).Some?
  }

  function Value(s: string, radix: nat): nat
    requires 2 <= radix <= 16 && AllDigits(s, radix)
  {
    if s == "" then 0
    else Value(s[..|s| - 1], radix) * radix + DigitOf(s[|s| - 1], radix).value
  }

  /** Parse a non-empty digit string, with an optional '+' sign, below the given bound. */
  function ParseUnsigned(s: string, radix: nat, bound: nat): Option<nat>
    requires 2 <= radix <= 16
  {
    var digits := if |s| > 1 && s[0] == '+' then s[1..] else s;
    if digits != "" && AllDigits(digits, radix) && Value(digits, radix) < bound
    then Some(Value(digits, radix)) else None
  }

  function ParseHex(s: string, bound: nat): Option<nat> {
    ParseUnsigned(s, 16, bound)
  }

  const HEX: string := "0123456789abcdef"

  /** The last two hexadecimal digits of n. */
  function Hex2(n: nat): string {
    [HEX[n / 16 % 16], HEX[n % 16]]
  }

  lemma HexReads(d: nat)
    requires d < 16
    ensures DigitOf(HEX[d], 16) == Some(d) && HEX[d] != '+' && HEX[d] != ':' && HEX[d] != '.'
  {}

  lemma HexSnoc(s: string, d: nat)
    requires AllDigits(s, 16) && d < 16
    ensures AllDigits(s + [HEX[d]], 16) && Value(s + [HEX[d]], 16) == Value(s, 16) * 16 + d
  {
    HexReads(d);
    assert (s + [HEX[d]])[..|s|] == s;
  }

  lemma HexPair(n: nat)
    ensures n / 16 % 16 * 16 + n % 16 == n % 0x100
  {}

  lemma HexQuad(n: nat)
    requires n < 0x1_0000
    ensures ((n / 0x100) % 0x100 * 16 + n / 16 % 16) * 16 + n % 16 == n
  {}

  lemma Hex2Digits(n: nat)
    ensures AllDigits(Hex2(n), 16) && Value(Hex2(n), 16) == n % 0x100
    ensures '+' !in Hex2(n) && ':' !in Hex2(n) && '.' !in Hex2(n)
  {
    HexReads(n / 16 % 16);
    HexReads(n % 16);
    HexSnoc("", n / 16 % 16);
    HexSnoc([HEX[n / 16 % 16]], n % 16);
    HexPair(n);
    assert [] + [HEX[n / 16 % 16]] == [HEX[n / 16 % 16]];
    assert Hex2(n) == [HEX[n / 16 % 16]] + [HEX[n % 16]];
  }

  /** Two digits read back as the number that they show. */
  lemma Hex2Reads(n: nat)
    requires n < 0x100
    ensures ParseHex(Hex2(n), 0x100) == Some(n)
  {
    Hex2Digits(n);
    assert Hex2(n)[0] in Hex2(n);
  }

  /** So do four. */
  lemma Hex4Reads(n: nat)
    requires n < 0x1_0000
    ensures ParseHex(Hex2(n / 0x100) + Hex2(n), 0x1_0000) == Some(n)
    ensures var s := Hex2(n / 0x100) + Hex2(n); ':' !in s && '.' !in s
  {
    var front, s := Hex2(n / 0x100), Hex2(n / 0x100) + Hex2(n);
    HexQuad(n);
    Hex2Digits(n / 0x100);
    Hex2Digits(n);
    HexSnoc(front, n / 16 % 16);
    HexSnoc(front + [HEX[n / 16 % 16]], n % 16);
    assert s == front + [HEX[n / 16 % 16]] + [HEX[n % 16]];
    assert s[0] == front[0] && front[0] in front;
  }

  const U32_BOUND: nat := 0x1_0000_0000

  function ParseU32(s: string): Option<nat> {
    ParseUnsigned(s, 10, U32_BOUND)
  }

  function DecDigit(d: nat): (c: char)
    requires d < 10
    ensures DigitOf(c, 10) == Some(d) && !IsWhite(c) && c != ',' && c != '-' && c != '+'
  {
    ('0' as nat + d) as char
  }

  /** Decimal text without sign or leading zeros. */
  function ToDec(n: nat): (s: string)
    ensures s != "" && AllDigits(s, 10) && Value(s, 10) == n
    ensures forall c :: c in s ==> !IsWhite(c) && c != ',' && c != '-' && c != '+'
    decreases n
  {
    if n < 10 then
      assert [DecDigit(n)][..0] == "";
      [DecDigit(n)]
    else
      var front := ToDec(n / 10);
      var s := front + [DecDigit(n % 10)];
      assert s[..|s| - 1] == front;
      s
  }

  lemma DecRoundTrip(n: nat)
    requires n < U32_BOUND
    ensures ParseU32(ToDec(n)) == Some(n)
  {
    assert ToDec(n)[0] in ToDec(n);
  }
}
