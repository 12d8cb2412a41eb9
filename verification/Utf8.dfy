/** UTF-8 (RFC 3629): encoding, strict decoding, and where a byte stream may be cut. */
module Utf8 {
  import opened Prelude

  type Bytes = seq<nat>

  function EncodeChar(c: char): (b: Bytes)
    ensures 1 <= |b| <= 4
  {
    var n := c as nat;
    if n < 0x80 then [n]
    else if n < 0x800 then [0xc0 + n / 0x40, 0x80 + n % 0x40]
    else if n < 0x1_0000 then [0xe0 + n / 0x1000, 0x80 + n / 0x40 % 0x40, 0x80 + n % 0x40]
    else [0xf0 + n / 0x4_0000, 0x80 + n / 0x1000 % 0x40, 0x80 + n / 0x40 % 0x40, 0x80 + n % 0x40]
  }

  function Encode(s: string): Bytes {
    if s == "" then [] else EncodeChar(s[0]) + Encode(s[1..])
  }

  /** The length a leading byte announces; 0 when it cannot lead. */
  function Width(lead: nat): nat {
    if lead < 0x80 then 1
    else if 0xc0 <= lead < 0xe0 then 2
    else if 0xe0 <= lead < 0xf0 then 3
    else if 0xf0 <= lead < 0xf8 then 4
    else 0
  }

  /** The scalar value that one sequence of the announced length spells. */
  function Spell(b: Bytes): nat
    requires b != [] && |b| == Width(b[0]) && forall i :: 1 <= i < |b| ==> b[i] >= 0x80
  {
    if |b| == 1 then b[0]
    else if |b| == 2 then (b[0] - 0xc0) * 0x40 + (b[1] - 0x80)
    else if |b| == 3 then (b[0] - 0xe0) * 0x1000 + (b[1] - 0x80) * 0x40 + (b[2] - 0x80)
    else (b[0] - 0xf0) * 0x4_0000 + (b[1] - 0x80) * 0x1000 + (b[2] - 0x80) * 0x40 + (b[3] - 0x80)
  }

  predicate IsScalar(n: nat) {
    n < 0xd800 || 0xe000 <= n < 0x11_0000
  }

  /** The character at the front of b, if b starts with a well-formed sequence. */
  function First(b: Bytes): (r: Option<char>)
    ensures r.Some? ==> |EncodeChar(r.value)| <= |b| && b[..|EncodeChar(r.value)|] == EncodeChar(r.value)
  {
    if b == [] || Width(b[0]) == 0 || |b| < Width(b[0]) then None
    else
      var head := b[..Width(b[0])];
      if exists i :: 1 <= i < |head| && head[i] < 0x80 then None
      else if IsScalar(Spell(head)) && EncodeChar(Spell(head) as char) == head then Some(Spell(head) as char)
      else None
  }

  /** Strict decoding: overlong forms, surrogates and truncated sequences are rejected. */
  function Decode(b: Bytes): Option<string> {
    if b == [] then Some("")
    else
      match First(b)
      case None => None
      case Some(c) =>
        match Decode(b[|EncodeChar(c)|..])
        case None => None
        case Some(rest) => Some([c] + rest)
  }

  lemma SpellEncoded(c: char)
    ensures Width(EncodeChar(c)[0]) == |EncodeChar(c)|
    ensures forall i :: 1 <= i < |EncodeChar(c)| ==> EncodeChar(c)[i] >= 0x80
    ensures Spell(EncodeChar(c)) == c as nat
  {
    var n := c as nat;
    if n < 0x80 {
    } else if n < 0x800 {
    } else if n < 0x1_0000 {
      assert n / 0x1000 == n / 0x40 / 0x40;
    } else {
      assert n / 0x1000 == n / 0x40 / 0x40 && n / 0x4_0000 == n / 0x1000 / 0x40;
    }
  }

  lemma FirstOfEncoded(c: char, rest: Bytes)
    ensures First(EncodeChar(c) + rest) == Some(c)
  {
    var head := EncodeChar(c);
    SpellEncoded(c);
    FirstOfHead(head, c, rest);
  }

  lemma FirstOfHead(head: Bytes, c: char, rest: Bytes)
    requires head != [] && Width(head[0]) == |head| && forall i :: 1 <= i < |head| ==> head[i] >= 0x80
    requires Spell(head) == c as nat && EncodeChar(c) == head
    ensures First(head + rest) == Some(c)
  {
    assert (head + rest)[..|head|] == head;
  }

  /** s in front of a decoded text, if there is one. */
  function Prepend(s: string, t: Option<string>): Option<string> {
    match t
    case None => None
    case Some(text) => Some(s + text)
  }

  lemma PrependTwice(a: string, b: string, t: Option<string>)
    ensures Prepend(a, Prepend(b, t)) == Prepend(a + b, t)
    ensures Prepend("", t) == t
  {
    if t.Some? {
      Regroup(a, b, t.value);
      assert "" + t.value == t.value;
    }
  }

  lemma {:induction false} DecodeAfterEncode(s: string, rest: Bytes)
    ensures Decode(Encode(s) + rest) == Prepend(s, Decode(rest))
  {
    if s == "" {
      assert Encode(s) + rest == rest;
      PrependTwice("", "", Decode(rest));
    } else {
      DecodeAfterEncode(s[1..], rest);
      Regroup(EncodeChar(s[0]), Encode(s[1..]), rest);
      DecodeOne(s[0], Encode(s[1..]) + rest);
      PrependTwice([s[0]], s[1..], Decode(rest));
      assert [s[0]] + s[1..] == s;
    }
  }

  lemma DecodeOne(c: char, tail: Bytes)
    ensures Decode(EncodeChar(c) + tail) == Prepend([c], Decode(tail))
  {
    FirstOfEncoded(c, tail);
    assert (EncodeChar(c) + tail)[|EncodeChar(c)|..] == tail;
  }

  lemma DecodeEncode(s: string)
    ensures Decode(Encode(s)) == Some(s)
  {
    DecodeAfterEncode(s, []);
    assert Encode(s) + [] == Encode(s) && s + "" == s;
  }

  /** What decodes starts with the encoding of its first character. */
  lemma DecodeSplits(b: Bytes) returns (c: char, rest: Bytes)
    requires b != [] && Decode(b).Some?
    ensures b == EncodeChar(c) + rest && |rest| < |b|
    ensures Decode(rest).Some? && Decode(b).value == [c] + Decode(rest).value
  {
    c := First(b).value;
    rest := b[|EncodeChar(c)|..];
  }

  lemma {:induction false} EncodeDecode(b: Bytes)
    requires Decode(b).Some?
    ensures Encode(Decode(b).value) == b
    decreases |b|
  {
    if b != [] {
      var c, rest := DecodeSplits(b);
      EncodeDecode(rest);
      EncodeCons(c, Decode(rest).value);
    }
  }

  lemma EncodeCons(c: char, s: string)
    ensures Encode([c] + s) == EncodeChar(c) + Encode(s)
  {
    assert ([c] + s)[1..] == s;
  }

  lemma {:induction false} EncodeAppend(s: string, t: string)
    ensures Encode(s + t) == Encode(s) + Encode(t)
  {
    if s == "" {
      assert s + t == t;
    } else {
      assert (s + t)[1..] == s[1..] + t;
      EncodeAppend(s[1..], t);
    }
  }

  predicate Ascii(s: string) {
    forall c :: c in s ==> c as nat < 0x80
  }

  lemma {:induction false} AsciiBytes(b: Bytes)
    requires forall x :: x in b ==> x < 0x80
    ensures Decode(b).Some?
  {
    if b != [] {
      assert b[0] in b;
      var head := b[..1];
      assert head == [b[0]] && EncodeChar(b[0] as char) == [b[0]];
      assert First(b) == Some(b[0] as char);
      forall x | x in b[1..] ensures x < 0x80 {
        assert x in b;
      }
      AsciiBytes(b[1..]);
    }
  }

  lemma {:induction false} AsciiEncodes(s: string)
    requires Ascii(s)
    ensures forall x :: x in Encode(s) ==> x < 0x80
  {
    if s != "" {
      assert s[0] in s && forall c :: c in s[1..] ==> c in s;
      AsciiEncodes(s[1..]);
    }
  }

  /** A text may be cut anywhere without damage if and only if it is ASCII: otherwise some
      cut leaves a front part that does not decode. */
  lemma CutAnywhereIff(s: string)
    ensures Ascii(s) <==>
            forall k :: 0 <= k <= |Encode(s)| ==> Decode(Encode(s)[..k]).Some? && Decode(Encode(s)[k..]).Some?
  {
    if Ascii(s) {
      AsciiEncodes(s);
      forall k | 0 <= k <= |Encode(s)| ensures Decode(Encode(s)[..k]).Some? && Decode(Encode(s)[k..]).Some? {
        assert forall x :: x in Encode(s)[..k] || x in Encode(s)[k..] ==> x in Encode(s);
        AsciiBytes(Encode(s)[..k]);
        AsciiBytes(Encode(s)[k..]);
      }
    } else {
      var i :| 0 <= i < |s| && s[i] as nat >= 0x80;
      BadCut(s, i);
    }
  }

  lemma BadCut(s: string, i: nat)
    requires i < |s| && s[i] as nat >= 0x80
    ensures exists k :: 0 <= k <= |Encode(s)| && Decode(Encode(s)[..k]).None?
  {
    var front := Encode(s[..i]);
    assert s == s[..i] + s[i..];
    EncodeAppend(s[..i], s[i..]);
    var lead := Encode(s)[|front|];
    assert Encode(s[i..])[0] == EncodeChar(s[i])[0] == lead;
    var k := |front| + 1;
    assert Encode(s)[..k] == front + [lead];
    DecodeAfterEncode(s[..i], [lead]);
    assert Width(lead) > 1 && Decode([lead]).None?;
  }
}
