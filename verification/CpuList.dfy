/** CPU list text: the printer and the strict and lenient parsers. */
module CpuList {
  import opened Prelude
  import opened Text
  import opened Sorting

  /** The numbers from lo to hi inclusive; none when hi < lo. */
  function Range(lo: nat, hi: nat): (r: seq<nat>)
    ensures |r| == if hi < lo then 0 else hi - lo + 1
    ensures forall i :: 0 <= i < |r| ==> r[i] == lo + i
  {
    if hi < lo then [] else seq(hi - lo + 1, i => lo + i)
  }

  // ---------- Printing ----------

  function Decimals(v: seq<nat>): seq<string> {
    seq(|v|, i requires 0 <= i < |v| => ToDec(v[i]))
  }

  /** The canonical text of a CPU set: sorted, duplicate-free, comma separated. */
  function CanonicalText(cpus: seq<nat>): string {
    Join(Decimals(SortDedup(cpus)), ',')
  }

  method FormatCpuList(cpus: seq<nat>) returns (s: string)
    ensures s == CanonicalText(cpus)
  {
    var v := Dedup(Sort(cpus));
    var texts: seq<string> := [];
    for i := 0 to |v|
      invariant texts == Decimals(v[..i])
    {
      texts := texts + [ToDec(v[i])];
    }
    assert v[..|v|] == v;
    s := Join(texts, ',');
  }

  // ---------- Strict parsing ----------

  /** One trimmed, non-empty part: a number or an inclusive range. */
  function StrictPart(part: string): Option<seq<nat>> {
    match SplitOnce(part, '-')
    case Some((a, b)) =>
      (match (ParseU32(a), ParseU32(b))
       case (Some(lo), Some(hi)) => Some(Range(lo, hi))
       case _ => None)
    case None =>
      (match ParseU32(part)
       case Some(c) => Some([c])
       case None => None)
  }

  function StrictParts(parts: seq<string>): Option<seq<nat>> {
    if parts == [] then Some([])
    else if Trim(parts[0]) == "" then StrictParts(parts[1..])
    else
      match (StrictPart(Trim(parts[0])), StrictParts(parts[1..]))
      case (Some(a), Some(b)) => Some(a + b)
      case _ => None
  }

  /** The strict reading of a CPU list: any malformed part rejects the whole text. */
  function StrictReading(s: string): Option<seq<nat>> {
    StrictParts(Split(s, ','))
  }

  /** Append the numbers from lo to hi, one by one. */
  method PushRange(cpus: seq<nat>, lo: nat, hi: nat) returns (cpus': seq<nat>)
    ensures cpus' == cpus + Range(lo, hi)
  {
    cpus' := cpus;
    var c := lo;
    while c <= hi
      invariant lo <= c && (c == lo || c <= hi + 1)
      invariant cpus' == cpus + Range(lo, hi)[..c - lo]
    {
      cpus' := cpus' + [c];
      c := c + 1;
    }
    assert Range(lo, hi)[..c - lo] == Range(lo, hi);
  }

  method PushStrictPart(cpus: seq<nat>, part: string) returns (r: Option<seq<nat>>)
    ensures r == match StrictPart(part)
                 case Some(a) => Some(cpus + a)
                 case None => None
  {
    var cut := SplitOnce(part, '-');
    if cut.Some? {
      var lo := ParseU32(cut.value.0);
      if lo.None? {
        return None;
      }
      var hi := ParseU32(cut.value.1);
      if hi.None? {
        return None;
      }
      var cpus' := PushRange(cpus, lo.value, hi.value);
      return Some(cpus');
    }
    var c := ParseU32(part);
    if c.None? {
      return None;
    }
    return Some(cpus + [c.value]);
  }

  lemma StrictUnfold(parts: seq<string>, i: nat, cpus: seq<nat>)
    requires i < |parts|
    ensures After(cpus, StrictParts(parts[i..])) ==
            if Trim(parts[i]) == "" then After(cpus, StrictParts(parts[i + 1..]))
            else match StrictPart(Trim(parts[i]))
                 case Some(a) => After(cpus + a, StrictParts(parts[i + 1..]))
                 case None => None
  {
    assert parts[i..][0] == parts[i] && parts[i..][1..] == parts[i + 1..];
    var rest := StrictParts(parts[i + 1..]);
    var a := StrictPart(Trim(parts[i]));
    if rest.Some? && a.Some? {
      assert cpus + (a.value + rest.value) == cpus + a.value + rest.value;
    }
  }

  method ParseCpuList(s: string) returns (r: Option<seq<nat>>)
    ensures r == StrictReading(s)
  {
    var parts := Split(s, ',');
    var cpus: seq<nat> := [];
    var i := 0;
    assert StrictReading(s) == After(cpus, StrictParts(parts[i..])) by {
      assert parts[0..] == parts;
      assert StrictReading(s).Some? ==> [] + StrictReading(s).value == StrictReading(s).value;
    }
    while i < |parts|
      invariant 0 <= i <= |parts|
      invariant StrictReading(s) == After(cpus, StrictParts(parts[i..]))
    {
      var part := Trim(parts[i]);
      StrictUnfold(parts, i, cpus);
      if part != "" {
        var pushed := PushStrictPart(cpus, part);
        if pushed.None? {
          return None;
        }
        cpus := pushed.value;
      }
      i := i + 1;
    }
    assert parts[i..] == [];
    assert cpus + [] == cpus;
    r := Some(cpus);
  }

  function After(cpus: seq<nat>, rest: Option<seq<nat>>): Option<seq<nat>> {
    if rest.Some? then Some(cpus + rest.value) else None
  }

  // ---------- Lenient parsing ----------

  /** What the sysfs parser salvages from one trimmed, non-empty part. */
  function LenientPart(part: string): seq<nat> {
    match SplitOnce(part, '-')
    case Some((a, b)) =>
      (match (ParseU32(Trim(a)), ParseU32(Trim(b)))
       case (Some(lo), Some(hi)) => Range(lo, hi)
       case (Some(lo), None) => [lo]
       case (None, Some(hi)) => [hi]
       case (None, None) => [])
    case None =>
      (match ParseU32(part)
       case Some(c) => [c]
       case None => [])
  }

  function LenientParts(parts: seq<string>): seq<nat> {
    if parts == [] then []
    else (if Trim(parts[0]) == "" then [] else LenientPart(Trim(parts[0]))) + LenientParts(parts[1..])
  }

  /** The lenient reading of a CPU list: it never fails. */
  function LenientReading(s: string): seq<nat> {
    LenientParts(Split(s, ','))
  }

  method PushLenientPart(out: seq<nat>, part: string) returns (out': seq<nat>)
    ensures out' == out + LenientPart(part)
  {
    out' := out;
    var cut := SplitOnce(part, '-');
    if cut.Some? {
      var lo, hi := ParseU32(Trim(cut.value.0)), ParseU32(Trim(cut.value.1));
      match (lo, hi) {
        case (Some(a), Some(b)) =>
          if b < a {
            return;
          }
          out' := PushRange(out', a, b);
        case (Some(a), None) =>
          out' := out' + [a];
        case (None, Some(b)) =>
          out' := out' + [b];
        case (None, None) =>
      }
    } else {
      var c := ParseU32(part);
      if c.Some? {
        out' := out' + [c.value];
      }
    }
  }

  lemma LenientUnfold(parts: seq<string>, i: nat, out: seq<nat>)
    requires i < |parts|
    ensures out + LenientParts(parts[i..]) ==
            (if Trim(parts[i]) == "" then out else out + LenientPart(Trim(parts[i]))) + LenientParts(parts[i + 1..])
  {
    assert parts[i..][0] == parts[i] && parts[i..][1..] == parts[i + 1..];
  }

  method ParseSysfsCpuList(s: string) returns (out: seq<nat>)
    ensures out == LenientReading(s)
  {
    out := [];
    var parts := Split(s, ',');
    var i := 0;
    while i < |parts|
      invariant 0 <= i <= |parts|
      invariant LenientReading(s) == out + LenientParts(parts[i..])
    {
      var part := Trim(parts[i]);
      LenientUnfold(parts, i, out);
      if part != "" {
        out := PushLenientPart(out, part);
      }
      i := i + 1;
    }
    assert parts[i..] == [];
  }

  // ---------- Properties ----------

  lemma {:induction false} DigitsAreOnePart(n: nat)
    requires n < U32_BOUND
    ensures Trim(ToDec(n)) == ToDec(n) && StrictPart(ToDec(n)) == Some([n])
  {
    var s := ToDec(n);
    assert s[0] in s && s[|s| - 1] in s;
    TrimSolid(s);
    DecRoundTrip(n);
    assert SplitOnce(s, '-').None?;
  }

  lemma {:induction false} PartsOfDecimals(v: seq<nat>)
    requires forall x :: x in v ==> x < U32_BOUND
    ensures StrictParts(Decimals(v)) == Some(v)
  {
    if v != [] {
      assert v == [v[0]] + v[1..];
      assert Decimals(v)[1..] == Decimals(v[1..]);
      assert v[0] in v && forall x :: x in v[1..] ==> x in v;
      DigitsAreOnePart(v[0]);
      PartsOfDecimals(v[1..]);
    }
  }

  /** Printing and then parsing a list of u32 yields the sorted, duplicate-free list. */
  lemma PrintThenParse(v: seq<nat>)
    requires forall x :: x in v ==> x < U32_BOUND
    ensures StrictReading(CanonicalText(v)) == Some(SortDedup(v))
  {
    var w := SortDedup(v);
    var texts := Decimals(w);
    PartsOfDecimals(w);
    if w == [] {
      assert Split("", ',') == [""];
      assert [""][1..] == [];
    } else {
      SplitJoin(texts, ',');
    }
  }

  lemma UnsignedHasNoSpace(s: string)
    requires ParseU32(s).Some?
    ensures Trim(s) == s
  {
    var digits := if |s| > 1 && s[0] == '+' then s[1..] else s;
    assert digits[0] in digits && digits[|digits| - 1] in digits;
    TrimSolid(s);
  }

  lemma {:induction false} LenientRefinesParts(parts: seq<string>)
    requires StrictParts(parts).Some?
    ensures LenientParts(parts) == StrictParts(parts).value
  {
    if parts != [] {
      LenientRefinesParts(parts[1..]);
      var part := Trim(parts[0]);
      if part != "" {
        var cut := SplitOnce(part, '-');
        if cut.Some? {
          UnsignedHasNoSpace(cut.value.0);
          UnsignedHasNoSpace(cut.value.1);
        }
      }
    }
  }

  /** Whenever the strict parser accepts a text, the lenient one reads the same list. */
  lemma LenientRefinesStrict(s: string)
    requires StrictReading(s).Some?
    ensures LenientReading(s) == StrictReading(s).value
  {
    LenientRefinesParts(Split(s, ','));
  }

  /** A text without a comma and without white ends is read as its one part. */
  lemma OnePart(s: string)
    requires ',' !in s && Trim(s) == s && s != ""
    ensures StrictReading(s) == StrictPart(s) && LenientReading(s) == LenientPart(s)
  {
    SplitSingle(s, ',');
    assert [s][1..] == [];
    assert StrictParts([s]) == StrictPart(s) by {
      if StrictPart(s).Some? {
        assert StrictPart(s).value + [] == StrictPart(s).value;
      }
    }
    assert LenientParts([s]) == LenientPart(s) + LenientParts([s][1..]);
    assert LenientPart(s) + [] == LenientPart(s);
  }

  lemma RangeText(left: string, b: nat)
    requires left != "" && !IsWhite(left[0]) && ',' !in left
    ensures var s := left + ['-'] + ToDec(b); ',' !in s && Trim(s) == s && s != ""
  {
    var s := left + ['-'] + ToDec(b);
    assert s[0] == left[0];
    assert s[|s| - 1] == ToDec(b)[|ToDec(b)| - 1] && ToDec(b)[|ToDec(b)| - 1] in ToDec(b);
    TrimSolid(s);
  }

  /** The converse fails: a range with a space before the dash is only read leniently. */
  lemma SpacedRange(a: nat, b: nat)
    requires a < U32_BOUND && b < U32_BOUND
    ensures StrictReading(ToDec(a) + " " + ['-'] + ToDec(b)) == None
    ensures LenientReading(ToDec(a) + " " + ['-'] + ToDec(b)) == Range(a, b)
  {
    var left := ToDec(a) + " ";
    assert left[0] == ToDec(a)[0] && ToDec(a)[0] in ToDec(a);
    RangeText(left, b);
    OnePart(left + ['-'] + ToDec(b));
    SpacedRangePart(a, b);
  }

  lemma SpacedRangePart(a: nat, b: nat)
    requires a < U32_BOUND && b < U32_BOUND
    ensures StrictPart(ToDec(a) + " " + ['-'] + ToDec(b)) == None
    ensures LenientPart(ToDec(a) + " " + ['-'] + ToDec(b)) == Range(a, b)
  {
    var left := ToDec(a) + " ";
    SplitOnceAt(left, ToDec(b), '-');
    assert left[|left| - 1] == ' ' && DigitOf(' ', 10).None?;
    assert left[0] == ToDec(a)[0] && ToDec(a)[0] in ToDec(a);
    DecRoundTrip(a);
    DecRoundTrip(b);
    UnsignedHasNoSpace(ToDec(b));
    UnsignedHasNoSpace(ToDec(a));
    assert left[..|left| - 1] == ToDec(a);
    assert TrimEnd(left) == TrimEnd(ToDec(a)) && TrimStart(left) == left;
  }

  /** Of a range whose upper bound is malformed the lenient reading keeps the lower one. */
  lemma HalfRange(a: nat, junk: string)
    requires a < U32_BOUND && ',' !in junk && junk != "" && !IsWhite(junk[|junk| - 1]) && ParseU32(Trim(junk)).None?
    ensures LenientReading(ToDec(a) + ['-'] + junk) == [a]
  {
    var s := ToDec(a) + ['-'] + junk;
    assert ToDec(a)[0] in ToDec(a) && s[0] == ToDec(a)[0] && s[|s| - 1] == junk[|junk| - 1];
    TrimSolid(s);
    OnePart(s);
    SplitOnceAt(ToDec(a), junk, '-');
    DecRoundTrip(a);
    UnsignedHasNoSpace(ToDec(a));
  }

  /** A range is accepted and means its bounds and everything between them. */
  lemma RangeReads(a: nat, b: nat)
    requires a < U32_BOUND && b < U32_BOUND
    ensures StrictReading(ToDec(a) + ['-'] + ToDec(b)) == Some(seq(if a <= b then b - a + 1 else 0, i => a + i))
  {
    assert ToDec(a)[0] in ToDec(a);
    RangeText(ToDec(a), b);
    OnePart(ToDec(a) + ['-'] + ToDec(b));
    SplitOnceAt(ToDec(a), ToDec(b), '-');
    DecRoundTrip(a);
    DecRoundTrip(b);
    RangeIs(a, b);
  }

  lemma RangeIs(a: nat, b: nat)
    ensures Range(a, b) == seq(if a <= b then b - a + 1 else 0, i => a + i)
  {}

  /** A reversed range is accepted and contributes nothing. */
  lemma ReversedRangeIsEmpty(a: nat, b: nat)
    requires b < a < U32_BOUND
    ensures StrictReading(ToDec(a) + ['-'] + ToDec(b)) == Some([])
    ensures LenientReading(ToDec(a) + ['-'] + ToDec(b)) == []
  {
    assert ToDec(a)[0] in ToDec(a);
    RangeText(ToDec(a), b);
    OnePart(ToDec(a) + ['-'] + ToDec(b));
    SplitOnceAt(ToDec(a), ToDec(b), '-');
    DecRoundTrip(a);
    DecRoundTrip(b);
    UnsignedHasNoSpace(ToDec(a));
    UnsignedHasNoSpace(ToDec(b));
  }

  lemma {:induction false} SplitOnceAt(p: string, rest: string, c: char)
    requires c !in p
    ensures SplitOnce(p + [c] + rest, c) == Some((p, rest))
  {
    var s := p + [c] + rest;
    if p == "" {
      assert s[1..] == rest;
    } else {
      assert s[1..] == p[1..] + [c] + rest;
      SplitOnceAt(p[1..], rest, c);
      assert [p[0]] + p[1..] == p;
    }
  }
}
