/** Allocation of PCIe root-port slots to passthrough devices. */
module RootPort {
  import opened Prelude
  import opened Config
  import opened Text
  import opened Sorting

  const MAX_SLOT: nat := 0x1f

  // ---------- Slot text ----------

  /** The slot of an address "0xNN", or None when it is malformed or out of range. */
  function ParseSlot(addr: string): Option<nat> {
    if |addr| != 4 || addr[0] != '0' || addr[1] !in {'x', 'X'} then None
    else
      match ParseHex(addr[2..], 0x100)
      case None => None
      case Some(slot) => if slot > MAX_SLOT then None else Some(slot)
  }

  function HexDigit(d: nat): (c: char)
    requires d < 16
    ensures DigitOf(c, 16) == Some(d) && c != '+'
  {
    if d < 10 then ('0' as nat + d) as char else ('a' as nat + d - 10) as char
  }

  function FormatSlot(slot: nat): string
    requires slot <= MAX_SLOT
  {
    ['0', 'x', HexDigit(slot / 16), HexDigit(slot % 16)]
  }

  lemma SlotTextRoundTrip(slot: nat)
    requires slot <= MAX_SLOT
    ensures ParseSlot(FormatSlot(slot)) == Some(slot)
  {
    var text := FormatSlot(slot);
    var digits := [HexDigit(slot / 16), HexDigit(slot % 16)];
    assert text[2..] == digits;
    assert digits[..1] == [HexDigit(slot / 16)] && digits[..1][..0] == [];
    assert Value(digits[..1], 16) == slot / 16;
  }

  // ---------- The device order ----------

  datatype Entry = Entry(kind: nat, bdf: string)

  predicate StrLe(a: string, b: string) {
    a == "" || (b != "" && (a[0] < b[0] || (a[0] == b[0] && StrLe(a[1..], b[1..]))))
  }

  lemma {:induction false} StrTotal(a: string, b: string)
    ensures StrLe(a, b) || StrLe(b, a)
    ensures StrLe(a, b) && StrLe(b, a) ==> a == b
  {
    if a != "" && b != "" {
      StrTotal(a[1..], b[1..]);
      assert a == [a[0]] + a[1..] && b == [b[0]] + b[1..];
    }
  }

  lemma {:induction false} StrTransitive(a: string, b: string, c: string)
    requires StrLe(a, b) && StrLe(b, c)
    ensures StrLe(a, c)
  {
    if a != "" && a[0] == b[0] && b[0] == c[0] {
      StrTransitive(a[1..], b[1..], c[1..]);
    }
  }

  /** By kind, then by BDF. */
  predicate EntryLe(a: Entry, b: Entry) {
    a.kind < b.kind || (a.kind == b.kind && StrLe(a.bdf, b.bdf))
  }

  predicate InOrder(s: seq<Entry>) {
    forall i, j :: 0 <= i < j < |s| ==> EntryLe(s[i], s[j])
  }

  lemma InOrderCons(x: Entry, s: seq<Entry>)
    ensures InOrder([x] + s) <==> InOrder(s) && forall y :: y in s ==> EntryLe(x, y)
  {
    var t := [x] + s;
    if InOrder(t) {
      forall i, j | 0 <= i < j < |s| ensures EntryLe(s[i], s[j]) {
        assert EntryLe(t[i + 1], t[j + 1]);
      }
      forall y | y in s ensures EntryLe(x, y) {
        var i :| 0 <= i < |s| && s[i] == y;
        assert EntryLe(t[0], t[i + 1]);
      }
    } else {
      var i, j :| 0 <= i < j < |t| && !EntryLe(t[i], t[j]);
      assert t[j] == s[j - 1] && s[j - 1] in s;
      assert i > 0 ==> t[i] == s[i - 1];
    }
  }

  function InsertEntry(x: Entry, s: seq<Entry>): (r: seq<Entry>)
    requires InOrder(s)
    ensures InOrder(r) && multiset(r) == multiset{x} + multiset(s)
  {
    if s == [] then [x]
    else
      assert s == [s[0]] + s[1..];
      InOrderCons(s[0], s[1..]);
      StrTotal(x.bdf, s[0].bdf);
      if EntryLe(x, s[0]) then
        HeadBelowAll(x, s);
        InOrderCons(x, s);
        [x] + s
      else
        var rest := InsertEntry(x, s[1..]);
        assert forall y :: y in rest ==> y in multiset(rest);
        InOrderCons(s[0], rest);
        [s[0]] + rest
  }

  lemma HeadBelowAll(x: Entry, s: seq<Entry>)
    requires s != [] && InOrder(s) && EntryLe(x, s[0])
    ensures forall y :: y in s ==> EntryLe(x, y)
  {
    forall y | y in s ensures EntryLe(x, y) {
      var i :| 0 <= i < |s| && s[i] == y;
      if i > 0 {
        assert EntryLe(s[0], s[i]);
        if x.kind == s[0].kind && s[0].kind == y.kind {
          StrTransitive(x.bdf, s[0].bdf, y.bdf);
        }
      }
    }
  }

  function SortEntries(s: seq<Entry>): (r: seq<Entry>)
    ensures InOrder(r) && multiset(r) == multiset(s)
  {
    if s == [] then []
    else
      assert s == [s[0]] + s[1..];
      InsertEntry(s[0], SortEntries(s[1..]))
  }

  lemma TailMultiset(s: seq<Entry>)
    requires s != []
    ensures multiset(s[1..]) == multiset(s) - multiset{s[0]}
    ensures InOrder(s) ==> InOrder(s[1..]) && forall e :: e in s ==> EntryLe(s[0], e)
  {
    assert s == [s[0]] + s[1..];
    InOrderCons(s[0], s[1..]);
    EntryReflexive(s[0]);
  }

  lemma EntryReflexive(e: Entry)
    ensures EntryLe(e, e)
  {
    StrTotal(e.bdf, e.bdf);
  }

  function EntriesOf(kind: nat, cfgs: seq<DeviceCfg>): seq<Entry> {
    seq(|cfgs|, i requires 0 <= i < |cfgs| => Entry(kind, cfgs[i].address))
  }

  function AllEntries(d: Devices): seq<Entry> {
    EntriesOf(0, d.gpu) + EntriesOf(1, d.nvme) + EntriesOf(2, d.nic) + EntriesOf(3, d.usb)
  }

  predicate Configured(entries: seq<Entry>, bdf: string) {
    exists e :: e in entries && e.bdf == bdf
  }

  /** The distinct BDFs outside seen, in order of first occurrence. */
  function Unseen(entries: seq<Entry>, seen: set<string>): (r: seq<string>)
    ensures forall b :: b in r <==> Configured(entries, b) && b !in seen
    ensures forall i, j :: 0 <= i < j < |r| ==> r[i] != r[j]
  {
    if entries == [] then []
    else
      var b := entries[0].bdf;
      assert entries == [entries[0]] + entries[1..];
      if b in seen then Unseen(entries[1..], seen) else [b] + Unseen(entries[1..], seen + {b})
  }

  // ---------- Free slots ----------

  /** The free slots from n on, in increasing order. */
  function FreeFrom(n: nat, used: set<nat>): seq<nat>
    decreases MAX_SLOT + 1 - n, used
  {
    if n > MAX_SLOT then []
    else (if n in used then [] else [n]) + FreeFrom(n + 1, used)
  }

  lemma FreeCons(n: nat, used: set<nat>, rest: seq<nat>)
    requires n <= MAX_SLOT && Increasing(rest) && forall s :: s in rest <==> n + 1 <= s <= MAX_SLOT && s !in used
    ensures var all := (if n in used then [] else [n]) + rest;
      Increasing(all) && forall s :: s in all <==> n <= s <= MAX_SLOT && s !in used
  {
    IncreasingCons(n, rest);
    assert [] + rest == rest;
  }

  lemma {:induction false} FreeFromIs(n: nat, used: set<nat>)
    ensures Increasing(FreeFrom(n, used))
    ensures forall s :: s in FreeFrom(n, used) <==> n <= s <= MAX_SLOT && s !in used
    decreases MAX_SLOT + 1 - n
  {
    if n <= MAX_SLOT {
      FreeFromIs(n + 1, used);
      FreeCons(n, used, FreeFrom(n + 1, used));
    }
  }

  // ---------- The allocation ----------

  predicate ValidOverrides(entries: seq<Entry>, overrides: map<string, string>) {
    && (forall b :: b in overrides ==> Configured(entries, b) && ParseSlot(overrides[b]).Some?)
    && (forall b,
        c :: b in overrides && c in overrides && ParseSlot(overrides[b]) == ParseSlot(overrides[c]) ==> b == c)
  }

  function OverrideSlots(overrides: map<string, string>): map<string, nat> {
    map b | b in overrides && ParseSlot(overrides[b]).Some? :: ParseSlot(overrides[b]).value
  }

  /** m keeps the fixed slots and gives the first n automatic devices the first n free slots. */
  ghost predicate Assigns(fixed: map<string, nat>, auto: seq<string>, free: seq<nat>, n: nat, m: map<string, nat>) {
    && n <= |auto| && n <= |free|
    && m.Keys == fixed.Keys + (set b | b in auto[..n])
    && (forall b :: b in fixed ==> m[b] == fixed[b])
    && (forall k :: 0 <= k < n ==> m[auto[k]] == free[k])
  }

  /** The k-th distinct device without an override, in device order, gets the k-th smallest
      slot of 1..31 that no override claims. */
  ghost predicate IsAllocation(entries: seq<Entry>, fixed: map<string, nat>, m: map<string, nat>) {
    var auto := Unseen(entries, fixed.Keys);
    Assigns(fixed, auto, FreeFrom(1, fixed.Values), |auto|, m)
  }

  lemma AssignsNext(fixed: map<string, nat>, auto: seq<string>, free: seq<nat>, n: nat, m: map<string, nat>)
    requires Assigns(fixed, auto, free, n, m) && n < |auto| && n < |free|
    requires auto[n] !in m
    ensures Assigns(fixed, auto, free, n + 1, m[auto[n] := free[n]])
  {
    var m' := m[auto[n] := free[n]];
    assert auto[..n + 1] == auto[..n] + [auto[n]];
    forall k | 0 <= k < n + 1 ensures m'[auto[k]] == free[k] {
      if k < n {
        assert auto[k] in auto[..n];
      }
    }
  }

  /** The least slot from start on that is not in used, or 0x20. */
  method SkipUsed(start: nat, used: set<int>) returns (n: nat)
    requires 1 <= start <= MAX_SLOT + 1 && forall s :: s in used ==> s <= MAX_SLOT
    ensures start <= n <= MAX_SLOT + 1 && n !in used && forall s :: start <= s < n ==> s in used
  {
    n := start;
    while n in used
      invariant start <= n <= MAX_SLOT + 1 && forall s :: start <= s < n ==> s in used
      decreases MAX_SLOT + 1 - n
    {
      n := Saturate(n);
    }
  }

  // u8::saturating_add(1)
  function Saturate(slot: nat): nat {
    if slot >= 0xff then 0xff else slot + 1
  }

  lemma {:induction false} FreeSkip(start: nat, n: nat, used: set<nat>)
    requires start <= n <= MAX_SLOT + 1 && forall s :: start <= s < n ==> s in used
    ensures FreeFrom(start, used) == FreeFrom(n, used)
    decreases n - start
  {
    if start < n {
      FreeSkipOne(start, used);
      FreeSkip(start + 1, n, used);
    }
  }

  lemma FreeSkipOne(n: nat, used: set<nat>)
    requires n in used && n <= MAX_SLOT
    ensures FreeFrom(n, used) == FreeFrom(n + 1, used)
  {}

  /** The slots that explicit overrides claim; the overrides are visited in any order. */
  method SeedOverrides(entries: seq<Entry>, overrides: map<string, string>)
      returns (r: Option<map<string, nat>>)
    ensures r.Some? <==> ValidOverrides(entries, overrides)
    ensures r.Some? ==> r.value == OverrideSlots(overrides)
  {
    var fixed: map<string, nat>, used: set<nat> := map[], {};
    var todo := overrides.Keys;
    while todo != {}
      invariant todo <= overrides.Keys
      invariant fixed.Keys == overrides.Keys - todo && used == fixed.Values
      invariant forall b :: b in fixed ==> Configured(entries, b) && ParseSlot(overrides[b]) == Some(fixed[b])
      invariant forall b, c :: b in fixed && c in fixed && fixed[b] == fixed[c] ==> b == c
    {
      var b :| b in todo;
      todo := todo - {b};
      if !Configured(entries, b) {
        return None;
      }
      var slot := ParseSlot(overrides[b]);
      if slot.None? {
        return None;
      }
      if slot.value in used {
        assert exists c :: c in fixed && fixed[c] == slot.value;
        return None;
      }
      ghost var before := fixed;
      fixed := fixed[b := slot.value];
      used := used + {slot.value};
      assert fixed.Values == before.Values + {slot.value} by {
        forall s ensures s in fixed.Values <==> s in before.Values + {slot.value} {
          if s in before.Values {
            var c :| c in before && before[c] == s;
            assert fixed[c] == s;
          }
          assert fixed[b] == slot.value;
        }
      }
    }
    return Some(fixed);
  }

  ghost predicate Fits(entries: seq<Entry>, fixed: map<string, nat>) {
    |Unseen(entries, fixed.Keys)| <= |FreeFrom(1, fixed.Values)|
  }

  lemma UnseenStep(entries: seq<Entry>, i: nat, seen: set<string>)
    requires i < |entries|
    ensures Unseen(entries[i..], seen) ==
            if entries[i].bdf in seen then Unseen(entries[i + 1..], seen)
            else [entries[i].bdf] + Unseen(entries[i + 1..], seen + {entries[i].bdf})
  {
    assert entries[i..][0] == entries[i] && entries[i..][1..] == entries[i + 1..];
  }

  /** The first j of the automatic devices have the first j of the free slots; entries[i..]
      are still to be visited, and the free slots from next on are those not handed out. */
  ghost predicate Midway(entries: seq<Entry>, fixed: map<string, nat>, auto: seq<string>, free: seq<nat>,
                         i: nat, j: nat, m: map<string, nat>, used: set<int>, next: nat) {
    && i <= |entries| && 1 <= next <= MAX_SLOT + 1
    && Assigns(fixed, auto, free, j, m)
    && Unseen(entries[i..], m.Keys) == auto[j..]
    && FreeFrom(next, fixed.Values) == free[j..]
    && fixed.Values <= used && forall s :: s in used ==> s <= MAX_SLOT && (s in fixed.Values || s < next)
  }

  lemma MidwaySkip(entries: seq<Entry>, fixed: map<string, nat>, auto: seq<string>, free: seq<nat>,
                   i: nat, j: nat, m: map<string, nat>, used: set<int>, next: nat)
    requires Midway(entries, fixed, auto, free, i, j, m, used, next) && i < |entries| && entries[i].bdf in m
    ensures Midway(entries, fixed, auto, free, i + 1, j, m, used, next)
  {
    UnseenStep(entries, i, m.Keys);
  }

  lemma MidwayEnd(entries: seq<Entry>, fixed: map<string, nat>, auto: seq<string>, free: seq<nat>,
                  j: nat, m: map<string, nat>, used: set<int>, next: nat)
    requires Midway(entries, fixed, auto, free, |entries|, j, m, used, next)
    ensures j == |auto| <= |free|
  {
    assert entries[|entries|..] == [];
  }

  lemma MidwayTake(entries: seq<Entry>, fixed: map<string, nat>, auto: seq<string>, free: seq<nat>,
                   i: nat, j: nat, m: map<string, nat>, used: set<int>, next: nat, slot: nat)
    requires Midway(entries, fixed, auto, free, i, j, m, used, next) && i < |entries| && entries[i].bdf !in m
    requires next <= slot <= MAX_SLOT + 1 && slot !in used && forall s :: next <= s < slot ==> s in used
    ensures slot > MAX_SLOT ==> |auto| > |free|
    ensures slot <= MAX_SLOT ==>
      Midway(entries, fixed, auto, free, i + 1, j + 1, m[entries[i].bdf := slot], used + {slot}, slot + 1)
  {
    var bdf := entries[i].bdf;
    AutoTake(entries, auto, i, j, m.Keys);
    FreeTake(fixed.Values, free, j, next, slot);
    if slot <= MAX_SLOT {
      AssignsNext(fixed, auto, free, j, m);
      assert m[bdf := slot].Keys == m.Keys + {bdf};
    }
  }

  lemma AutoTake(entries: seq<Entry>, auto: seq<string>, i: nat, j: nat, seen: set<string>)
    requires i < |entries| && j <= |auto| && Unseen(entries[i..], seen) == auto[j..] && entries[i].bdf !in seen
    ensures j < |auto| && auto[j] == entries[i].bdf
    ensures Unseen(entries[i + 1..], seen + {entries[i].bdf}) == auto[j + 1..]
  {
    UnseenStep(entries, i, seen);
    assert auto[j..][0] == entries[i].bdf && auto[j..][1..] == auto[j + 1..];
  }

  lemma FreeTake(claimed: set<nat>, free: seq<nat>, j: nat, next: nat, slot: nat)
    requires 1 <= next <= slot <= MAX_SLOT + 1 && slot !in claimed && forall s :: next <= s < slot ==> s in claimed
    requires j <= |free| && FreeFrom(next, claimed) == free[j..]
    ensures slot > MAX_SLOT ==> j == |free|
    ensures slot <= MAX_SLOT ==> j < |free| && free[j] == slot && FreeFrom(slot + 1, claimed) == free[j + 1..]
  {
    FreeSkip(next, slot, claimed);
    if slot <= MAX_SLOT {
      assert free[j..][0] == slot && free[j..][1..] == free[j + 1..];
    }
  }

  lemma MidwayStart(entries: seq<Entry>, fixed: map<string, nat>, free: seq<nat>)
    requires forall s :: s in fixed.Values ==> s <= MAX_SLOT
    requires free == FreeFrom(1, fixed.Values)
    ensures Midway(entries, fixed, Unseen(entries, fixed.Keys), free, 0, 0, fixed, fixed.Values, 1)
  {
    assert Unseen(entries, fixed.Keys)[..0] == [];
    assert entries[0..] == entries;
  }

  /** Give the i-th device the next free slot, unless it has one. */
  method PlaceOne(entries: seq<Entry>, i: nat, m: map<string, nat>, used: set<int>, next: nat,
                  ghost fixed: map<string, nat>, ghost auto: seq<string>, ghost free: seq<nat>, ghost j: nat)
      returns (ok: bool, m': map<string, nat>, used': set<int>, next': nat, ghost j': nat)
    requires i < |entries| && Midway(entries, fixed, auto, free, i, j, m, used, next)
    ensures ok ==> Midway(entries, fixed, auto, free, i + 1, j', m', used', next')
    ensures !ok ==> |auto| > |free|
  {
    var bdf := entries[i].bdf;
    ok, m', used', next', j' := true, m, used, next, j;
    if bdf in m {
      MidwaySkip(entries, fixed, auto, free, i, j, m, used, next);
    } else {
      var slot := SkipUsed(next, used);
      MidwayTake(entries, fixed, auto, free, i, j, m, used, next, slot);
      if slot > MAX_SLOT {
        ok := false;
      } else {
        m', used', next', j' := m[bdf := slot], used + {slot}, Saturate(slot), j + 1;
      }
    }
  }

  /** Give the devices without a fixed slot the free slots, upward from 0x01. */
  method AutoAssign(entries: seq<Entry>, fixed: map<string, nat>, ghost auto: seq<string>, ghost free: seq<nat>)
      returns (r: Option<map<string, nat>>)
    requires Midway(entries, fixed, auto, free, 0, 0, fixed, fixed.Values, 1)
    ensures r.Some? <==> |auto| <= |free|
    ensures r.Some? ==> Assigns(fixed, auto, free, |auto|, r.value)
  {
    ghost var j := 0;
    var m: map<string, nat>, used: set<int>, nextSlot: nat, ok := fixed, fixed.Values, 0x01, true;
    var i := 0;
    while i < |entries|
      invariant 0 <= i <= |entries| && Midway(entries, fixed, auto, free, i, j, m, used, nextSlot)
    {
      ok, m, used, nextSlot, j := PlaceOne(entries, i, m, used, nextSlot, fixed, auto, free, j);
      if !ok {
        return None;
      }
      i := i + 1;
    }
    MidwayEnd(entries, fixed, auto, free, j, m, used, nextSlot);
    return Some(m);
  }

  /** With at least one device, allocation succeeds exactly when the overrides fit and no more
      devices than free slots are without one, and the result is the allocation that
      IsAllocation describes, which is in the order of the configuration. Without devices it
      succeeds whatever the overrides say. */
  method BuildPciRootportMap(d: Devices, overrides: map<string, string>) returns (r: Option<map<string, nat>>)
    ensures (forall b :: !Listed(d, b)) ==> r == Some(map[])
    ensures (exists b :: Listed(d, b)) ==>
      (r.Some? <==> OverridesFit(d, overrides) && |Automatic(d, overrides)| <= |FreeSlots(overrides)|)
    ensures (exists b :: Listed(d, b)) && r.Some? ==>
      && AllocatesInOrder(d, overrides, r.value)
      && IsAllocation(SortEntries(AllEntries(d)), OverrideSlots(overrides), r.value)
  {
    AnyListed(d);
    FitIff(d, overrides);
    var unsorted := AllEntries(d);
    if unsorted == [] {
      return Some(map[]);
    }
    var entries := SortEntries(unsorted);
    SameOverrides(unsorted, entries, overrides);
    var fixed := SeedOverrides(entries, overrides);
    if fixed.None? {
      return None;
    }
    EnoughSlotsIff(d, overrides);
    r := AssignRest(entries, overrides, fixed.value);
    if r.Some? {
      AllocationInOrder(d, overrides, r.value);
    }
  }

  lemma AnyListed(d: Devices)
    ensures AllEntries(d) == [] <==> forall b :: !Listed(d, b)
  {
    if AllEntries(d) != [] {
      var e := AllEntries(d)[0];
      assert e in AllEntries(d) && Configured(AllEntries(d), e.bdf);
      ConfiguredIff(d, e.bdf);
    }
    if b :| Listed(d, b) {
      ConfiguredIff(d, b);
    }
  }

  method AssignRest(entries: seq<Entry>, ghost overrides: map<string, string>, fixed: map<string, nat>)
      returns (r: Option<map<string, nat>>)
    requires ValidOverrides(entries, overrides) && fixed == OverrideSlots(overrides)
    ensures r.Some? <==> Fits(entries, fixed)
    ensures r.Some? ==> IsAllocation(entries, fixed, r.value)
  {
    forall s | s in fixed.Values ensures s <= MAX_SLOT {
      SlotsInRange(overrides, s);
    }
    ghost var auto, free := Unseen(entries, fixed.Keys), FreeFrom(1, fixed.Values);
    MidwayStart(entries, fixed, free);
    r := AutoAssign(entries, fixed, auto, free);
  }

  lemma SlotsInRange(overrides: map<string, string>, s: nat)
    ensures s in OverrideSlots(overrides).Values ==> s <= MAX_SLOT
  {}

  lemma SameOverrides(a: seq<Entry>, b: seq<Entry>, overrides: map<string, string>)
    requires multiset(a) == multiset(b)
    ensures ValidOverrides(a, overrides) <==> ValidOverrides(b, overrides)
  {
    SameConfigured(a, b);
  }

  lemma SameConfigured(a: seq<Entry>, b: seq<Entry>)
    requires multiset(a) == multiset(b)
    ensures forall x :: Configured(a, x) <==> Configured(b, x)
  {
    assert forall e :: e in a <==> e in multiset(a);
    assert forall e :: e in b <==> e in multiset(b);
  }

  // ---------- Allocations, in terms of the configuration ----------

  predicate Lists(cfgs: seq<DeviceCfg>, b: string) {
    exists c :: c in cfgs && c.address == b
  }

  predicate Listed(d: Devices, b: string) {
    Lists(d.gpu, b) || Lists(d.nvme, b) || Lists(d.nic, b) || Lists(d.usb, b)
  }

  /** The first list that names b: GPUs, NVMe drives, NICs, USB controllers. */
  function FirstList(d: Devices, b: string): nat {
    if Lists(d.gpu, b) then 0 else if Lists(d.nvme, b) then 1 else if Lists(d.nic, b) then 2 else 3
  }

  /** a is a proper prefix of b, or smaller where the two first differ. */
  ghost predicate TextBefore(a: string, b: string) {
    exists n :: 0 <= n <= |a| && DiffersAt(a, b, n)
  }

  predicate DiffersAt(a: string, b: string, n: nat) {
    n <= |a| && n < |b| && a[..n] == b[..n] && (n == |a| || a[n] < b[n])
  }

  /** By list, then by text. */
  ghost predicate GoesFirst(d: Devices, a: string, b: string) {
    FirstList(d, a) < FirstList(d, b) || (FirstList(d, a) == FirstList(d, b) && TextBefore(a, b))
  }

  lemma {:induction false} StrLeIff(a: string, b: string)
    ensures StrLe(a, b) <==> a == b || TextBefore(a, b)
  {
    if a == "" {
      assert b != "" ==> DiffersAt(a, b, 0);
    } else if b != "" {
      StrLeIff(a[1..], b[1..]);
      assert a == [a[0]] + a[1..] && b == [b[0]] + b[1..];
      if a[0] < b[0] {
        assert DiffersAt(a, b, 0);
      } else if a[0] == b[0] {
        if n :| 0 <= n <= |a[1..]| && DiffersAt(a[1..], b[1..], n) {
          assert a[..n + 1] == [a[0]] + a[1..][..n] && b[..n + 1] == [b[0]] + b[1..][..n];
          assert DiffersAt(a, b, n + 1);
        }
        if n :| 0 <= n <= |a| && DiffersAt(a, b, n) {
          assert a[1..][..n - 1] == a[..n][1..] && b[1..][..n - 1] == b[..n][1..];
          assert DiffersAt(a[1..], b[1..], n - 1);
        }
      }
    }
  }

  lemma GoesFirstIsStrict(d: Devices, a: string, b: string)
    ensures GoesFirst(d, a, b) ==> !GoesFirst(d, b, a)
  {
    StrLeIff(a, b);
    StrLeIff(b, a);
    StrTotal(a, b);
    if TextBefore(a, b) {
      var n :| 0 <= n <= |a| && DiffersAt(a, b, n);
      assert a != b;
    }
  }

  lemma EntryOf(kind: nat, cfgs: seq<DeviceCfg>, e: Entry)
    ensures e in EntriesOf(kind, cfgs) <==> e.kind == kind && Lists(cfgs, e.bdf)
  {
    if e.kind == kind && Lists(cfgs, e.bdf) {
      var c :| c in cfgs && c.address == e.bdf;
      var i :| 0 <= i < |cfgs| && cfgs[i] == c;
      assert EntriesOf(kind, cfgs)[i] == e;
    }
  }

  lemma EntriesAre(d: Devices, e: Entry)
    ensures e in SortEntries(AllEntries(d)) <==>
      || (e.kind == 0 && Lists(d.gpu, e.bdf)) || (e.kind == 1 && Lists(d.nvme, e.bdf))
      || (e.kind == 2 && Lists(d.nic, e.bdf)) || (e.kind == 3 && Lists(d.usb, e.bdf))
  {
    EntryOf(0, d.gpu, e);
    EntryOf(1, d.nvme, e);
    EntryOf(2, d.nic, e);
    EntryOf(3, d.usb, e);
    assert e in SortEntries(AllEntries(d)) <==> e in multiset(SortEntries(AllEntries(d)));
    assert e in AllEntries(d) <==> e in multiset(AllEntries(d));
  }

  lemma ConfiguredIff(d: Devices, b: string)
    ensures Configured(SortEntries(AllEntries(d)), b) <==> Listed(d, b)
    ensures Configured(AllEntries(d), b) <==> Listed(d, b)
  {
    EntriesAre(d, Entry(0, b));
    EntriesAre(d, Entry(1, b));
    EntriesAre(d, Entry(2, b));
    EntriesAre(d, Entry(3, b));
    if Configured(SortEntries(AllEntries(d)), b) {
      var e :| e in SortEntries(AllEntries(d)) && e.bdf == b;
      EntriesAre(d, e);
    }
    SameConfigured(AllEntries(d), SortEntries(AllEntries(d)));
  }

  /** Some entry for a comes before every entry for b. */
  ghost predicate Leads(entries: seq<Entry>, a: string, b: string) {
    exists e :: e in entries && e.bdf == a && AtMostAll(e, entries, b)
  }

  ghost predicate AtMostAll(e: Entry, entries: seq<Entry>, b: string) {
    forall f :: f in entries && f.bdf == b ==> EntryLe(e, f)
  }

  lemma LeadsCons(x: Entry, rest: seq<Entry>, a: string, b: string)
    requires Leads(rest, a, b) && x.bdf != b
    ensures Leads([x] + rest, a, b)
  {
    var e :| e in rest && e.bdf == a && AtMostAll(e, rest, b);
    assert e in [x] + rest && AtMostAll(e, [x] + rest, b);
  }

  ghost predicate AllLead(entries: seq<Entry>, r: seq<string>) {
    forall i, j :: 0 <= i < j < |r| ==> Leads(entries, r[i], r[j])
  }

  lemma AllLeadCons(head: Entry, rest: seq<Entry>, inner: seq<string>)
    requires AllLead(rest, inner) && head.bdf !in inner
    ensures AllLead([head] + rest, inner)
  {
    forall i, j | 0 <= i < j < |inner| ensures Leads([head] + rest, inner[i], inner[j]) {
      assert inner[j] in inner;
      LeadsCons(head, rest, inner[i], inner[j]);
    }
  }

  lemma HeadLeads(head: Entry, rest: seq<Entry>, inner: seq<string>)
    requires AllLead([head] + rest, inner) && InOrder([head] + rest)
    ensures AllLead([head] + rest, [head.bdf] + inner)
  {
    InOrderCons(head, rest);
    EntryReflexive(head);
    forall b ensures Leads([head] + rest, head.bdf, b) {
      assert head in [head] + rest && AtMostAll(head, [head] + rest, b);
    }
  }

  /** The automatic devices come in the order of their first entries. */
  lemma {:induction false} UnseenInOrder(entries: seq<Entry>, seen: set<string>)
    requires InOrder(entries)
    ensures AllLead(entries, Unseen(entries, seen))
  {
    if entries != [] {
      var head, rest := entries[0], entries[1..];
      assert entries == [head] + rest;
      InOrderCons(head, rest);
      var skip := head.bdf in seen;
      UnseenInOrder(rest, if skip then seen else seen + {head.bdf});
      AllLeadCons(head, rest, Unseen(rest, if skip then seen else seen + {head.bdf}));
      if !skip {
        HeadLeads(head, rest, Unseen(rest, seen + {head.bdf}));
      }
    }
  }

  lemma LeadsGoesFirst(d: Devices, a: string, b: string)
    requires Leads(SortEntries(AllEntries(d)), a, b) && a != b && Listed(d, b)
    ensures GoesFirst(d, a, b)
  {
    var entries := SortEntries(AllEntries(d));
    var e :| e in entries && e.bdf == a && AtMostAll(e, entries, b);
    var f := Entry(FirstList(d, b), b);
    EntriesAre(d, e);
    EntriesAre(d, f);
    assert EntryLe(e, f) && FirstList(d, a) <= e.kind;
    StrLeIff(a, b);
  }

  /** The slots that a device without an override may get. */
  ghost function FreeSlots(overrides: map<string, string>): set<nat> {
    set s: nat | 1 <= s <= MAX_SLOT && forall b :: b in overrides ==> ParseSlot(overrides[b]) != Some(s)
  }

  /** The devices without an override. */
  function Automatic(d: Devices, overrides: map<string, string>): set<string> {
    (set c | c in d.gpu :: c.address) + (set c | c in d.nvme :: c.address)
    + (set c | c in d.nic :: c.address) + (set c | c in d.usb :: c.address) - overrides.Keys
  }

  /** Every override names a configured device and parses, and no two claim one slot. */
  ghost predicate OverridesFit(d: Devices, overrides: map<string, string>) {
    && (forall b :: b in overrides ==> Listed(d, b) && ParseSlot(overrides[b]).Some?)
    && (forall b, c ::
          b in overrides && c in overrides && ParseSlot(overrides[b]) == ParseSlot(overrides[c]) ==> b == c)
  }

  /** Exactly the listed devices have slots: overrides as they say, the others in 1..31. */
  ghost predicate SlotsGiven(d: Devices, overrides: map<string, string>, m: map<string, nat>) {
    forall b ::
      && (b in m <==> Listed(d, b))
      && (b in overrides && b in m ==> ParseSlot(overrides[b]) == Some(m[b]))
      && (b in m && b !in overrides ==> 1 <= m[b] <= MAX_SLOT)
  }

  /** The others are in the order of the lists and, inside a list, of the addresses' text. */
  ghost predicate OrderKept(d: Devices, overrides: map<string, string>, m: map<string, nat>) {
    forall a, b :: a in m && b in m && a !in overrides && b !in overrides ==> (m[a] < m[b] <==> GoesFirst(d, a, b))
  }

  /** No slot below one of theirs is left out. */
  ghost predicate NoneSkipped(overrides: map<string, string>, m: map<string, nat>) {
    forall b, s: nat :: b in m && b !in overrides && 1 <= s < m[b] ==> s in m.Values
  }

  ghost predicate NoneShared(m: map<string, nat>) {
    forall a, b :: a in m && b in m && m[a] == m[b] ==> a == b
  }

  ghost predicate AllocatesInOrder(d: Devices, overrides: map<string, string>, m: map<string, nat>) {
    SlotsGiven(d, overrides, m) && NoneShared(m) && OrderKept(d, overrides, m) && NoneSkipped(overrides, m)
  }

  lemma FitIff(d: Devices, overrides: map<string, string>)
    ensures OverridesFit(d, overrides) <==> ValidOverrides(AllEntries(d), overrides)
  {
    forall b ensures Configured(AllEntries(d), b) <==> Listed(d, b) {
      ConfiguredIff(d, b);
    }
  }

  function Members<T>(s: seq<T>): set<T> {
    set x | x in s
  }

  lemma {:induction false} DistinctCount<T>(s: seq<T>)
    requires forall i, j :: 0 <= i < j < |s| ==> s[i] != s[j]
    ensures |Members(s)| == |s|
  {
    if s != [] {
      DistinctCount(s[1..]);
      assert s == [s[0]] + s[1..];
      assert s[0] !in s[1..];
      assert Members(s) == {s[0]} + Members(s[1..]);
    }
  }

  lemma FreeSlotsCount(overrides: map<string, string>)
    ensures |FreeFrom(1, OverrideSlots(overrides).Values)| == |FreeSlots(overrides)|
  {
    var free := FreeFrom(1, OverrideSlots(overrides).Values);
    FreeFromIs(1, OverrideSlots(overrides).Values);
    DistinctCount(free);
    forall s ensures s in Members(free) <==> s in FreeSlots(overrides) {
      if b :| b in overrides && ParseSlot(overrides[b]) == Some(s) {
        assert OverrideSlots(overrides)[b] == s;
      }
    }
    assert Members(free) == FreeSlots(overrides);
  }

  lemma AutomaticIff(d: Devices, overrides: map<string, string>, b: string)
    ensures b in Automatic(d, overrides) <==> Listed(d, b) && b !in overrides
  {}

  lemma AutomaticCount(d: Devices, overrides: map<string, string>)
    ensures |Unseen(SortEntries(AllEntries(d)), overrides.Keys)| == |Automatic(d, overrides)|
  {
    var auto := Unseen(SortEntries(AllEntries(d)), overrides.Keys);
    DistinctCount(auto);
    forall b ensures b in Members(auto) <==> b in Automatic(d, overrides) {
      ConfiguredIff(d, b);
      AutomaticIff(d, overrides, b);
      assert b in Members(auto) <==> b in auto;
    }
    assert Members(auto) == Automatic(d, overrides);
  }

  /** There are enough slots if the automatic devices are no more than the free slots. */
  lemma EnoughSlotsIff(d: Devices, overrides: map<string, string>)
    requires OverridesFit(d, overrides)
    ensures Fits(SortEntries(AllEntries(d)), OverrideSlots(overrides)) <==>
            |Automatic(d, overrides)| <= |FreeSlots(overrides)|
  {
    assert OverrideSlots(overrides).Keys == overrides.Keys;
    FreeSlotsCount(overrides);
    AutomaticCount(d, overrides);
  }

  lemma AutomaticOrder(d: Devices, fixed: map<string, nat>, m: map<string, nat>, a: string, b: string)
    requires IsAllocation(SortEntries(AllEntries(d)), fixed, m)
    requires a in m && b in m && a !in fixed && b !in fixed && m[a] < m[b]
    ensures GoesFirst(d, a, b)
  {
    var entries := SortEntries(AllEntries(d));
    var auto, free := Unseen(entries, fixed.Keys), FreeFrom(1, fixed.Values);
    SlotOf(entries, fixed, m, a);
    SlotOf(entries, fixed, m, b);
    var i :| 0 <= i < |auto| && auto[i] == a;
    var j :| 0 <= j < |auto| && auto[j] == b;
    FreeFromIs(1, fixed.Values);
    assert m[auto[i]] == free[i] && m[auto[j]] == free[j];
    assert i < j;
    UnseenInOrder(entries, fixed.Keys);
    ConfiguredIff(d, b);
    LeadsGoesFirst(d, a, b);
  }

  lemma NoGaps(fixed: map<string, nat>, auto: seq<string>, free: seq<nat>, m: map<string, nat>, j: nat, s: nat)
    requires Assigns(fixed, auto, free, |auto|, m) && free == FreeFrom(1, fixed.Values)
    requires j < |auto| && 1 <= s < free[j]
    ensures s in m.Values
  {
    FreeFromIs(1, fixed.Values);
    if s in fixed.Values {
      var c :| c in fixed && fixed[c] == s;
      assert c in m && m[c] == s;
    } else {
      assert free[j] in free;
      var i :| 0 <= i < |free| && free[i] == s;
      assert i < j;
      assert auto[i] in auto[..|auto|];
      assert auto[i] in m && m[auto[i]] == s;
    }
  }

  lemma NothingSkipped(entries: seq<Entry>, fixed: map<string, nat>, m: map<string, nat>, b: string, s: nat)
    requires IsAllocation(entries, fixed, m) && b in m && b !in fixed && 1 <= s < m[b]
    ensures s in m.Values
  {
    var auto, free := Unseen(entries, fixed.Keys), FreeFrom(1, fixed.Values);
    SlotOf(entries, fixed, m, b);
    var j :| 0 <= j < |auto| && auto[j] == b;
    assert m[auto[j]] == free[j];
    NoGaps(fixed, auto, free, m, j, s);
  }

  lemma InOrderIff(d: Devices, fixed: map<string, nat>, m: map<string, nat>, a: string, b: string)
    requires IsAllocation(SortEntries(AllEntries(d)), fixed, m)
    requires a in m && b in m && a !in fixed && b !in fixed && (m[a] == m[b] ==> a == b)
    ensures m[a] < m[b] <==> GoesFirst(d, a, b)
  {
    GoesFirstIsStrict(d, a, b);
    if m[a] < m[b] {
      AutomaticOrder(d, fixed, m, a, b);
    } else if m[b] < m[a] {
      AutomaticOrder(d, fixed, m, b, a);
    }
  }

  lemma Allocated(d: Devices, overrides: map<string, string>, m: map<string, nat>, b: string)
    requires OverridesFit(d, overrides)
    requires IsAllocation(SortEntries(AllEntries(d)), OverrideSlots(overrides), m)
    ensures b in m <==> Listed(d, b)
    ensures b in overrides && b in m ==> ParseSlot(overrides[b]) == Some(m[b])
    ensures b in m && b !in overrides ==> 1 <= m[b] <= MAX_SLOT
  {
    var entries, fixed := SortEntries(AllEntries(d)), OverrideSlots(overrides);
    FitIff(d, overrides);
    SameOverrides(AllEntries(d), entries, overrides);
    AllocationTotalInjective(entries, overrides, m);
    ConfiguredIff(d, b);
    if b in overrides {
      assert b in fixed && m[b] == fixed[b];
    }
  }

  lemma AllocationOrder(d: Devices, overrides: map<string, string>, m: map<string, nat>)
    requires NoneShared(m) && IsAllocation(SortEntries(AllEntries(d)), OverrideSlots(overrides), m)
    requires OverrideSlots(overrides).Keys == overrides.Keys
    ensures OrderKept(d, overrides, m) && NoneSkipped(overrides, m)
  {
    forall a, b | a in m && b in m && a !in overrides && b !in overrides
      ensures m[a] < m[b] <==> GoesFirst(d, a, b)
    {
      InOrderIff(d, OverrideSlots(overrides), m, a, b);
    }
    forall b, s: nat | b in m && b !in overrides && 1 <= s < m[b] ensures s in m.Values {
      NothingSkipped(SortEntries(AllEntries(d)), OverrideSlots(overrides), m, b, s);
    }
  }

  lemma AllocationInOrder(d: Devices, overrides: map<string, string>, m: map<string, nat>)
    requires OverridesFit(d, overrides)
    requires IsAllocation(SortEntries(AllEntries(d)), OverrideSlots(overrides), m)
    ensures AllocatesInOrder(d, overrides, m)
  {
    FitIff(d, overrides);
    SameOverrides(AllEntries(d), SortEntries(AllEntries(d)), overrides);
    AllocationTotalInjective(SortEntries(AllEntries(d)), overrides, m);
    AllocationOrder(d, overrides, m);
    forall b
      ensures b in m <==> Listed(d, b)
      ensures b in overrides && b in m ==> ParseSlot(overrides[b]) == Some(m[b])
      ensures b in m && b !in overrides ==> 1 <= m[b] <= MAX_SLOT
    {
      Allocated(d, overrides, m, b);
    }
  }

  // ---------- Properties of allocations ----------

  /** An allocation from valid overrides covers every device, gives no slot twice and stays
      within 0x00-0x1f; automatic slots are never 0x00. */
  lemma AllocationTotalInjective(entries: seq<Entry>, overrides: map<string, string>, m: map<string, nat>)
    requires ValidOverrides(entries, overrides) && IsAllocation(entries, OverrideSlots(overrides), m)
    ensures forall b :: b in m <==> Configured(entries, b)
    ensures forall b, c :: b in m && c in m && m[b] == m[c] ==> b == c
    ensures forall b :: b in m ==> m[b] <= MAX_SLOT && (m[b] == 0 ==> b in overrides)
  {
    var fixed := OverrideSlots(overrides);
    var auto, free := Unseen(entries, fixed.Keys), FreeFrom(1, fixed.Values);
    assert fixed.Keys == overrides.Keys;
    FreeFromIs(1, fixed.Values);
    forall b, c | b in m && c in m && m[b] == m[c] ensures b == c {
      SlotOf(entries, fixed, m, b);
      SlotOf(entries, fixed, m, c);
      if b in auto && c in auto {
        var i :| 0 <= i < |auto| && auto[i] == b;
        var j :| 0 <= j < |auto| && auto[j] == c;
        assert m[auto[i]] == free[i] && m[auto[j]] == free[j];
        assert i == j;
      }
    }
    forall b | b in m ensures m[b] <= MAX_SLOT && (m[b] == 0 ==> b in overrides) {
      SlotOf(entries, fixed, m, b);
      if b in fixed {
        SlotsInRange(overrides, m[b]);
      }
    }
  }

  lemma SlotOf(entries: seq<Entry>, fixed: map<string, nat>, m: map<string, nat>, b: string)
    requires IsAllocation(entries, fixed, m) && b in m
    ensures b in fixed ==> m[b] in fixed.Values
    ensures b !in fixed ==> b in Unseen(entries, fixed.Keys) && m[b] in FreeFrom(1, fixed.Values)
  {
    if b !in fixed {
      var auto := Unseen(entries, fixed.Keys);
      var k :| 0 <= k < |auto| && auto[k] == b;
      assert m[auto[k]] == FreeFrom(1, fixed.Values)[k];
    }
  }

  /** The same addresses in each list. */
  ghost predicate SameLists(d: Devices, d': Devices) {
    forall b ::
      && (Lists(d.gpu, b) <==> Lists(d'.gpu, b)) && (Lists(d.nvme, b) <==> Lists(d'.nvme, b))
      && (Lists(d.nic, b) <==> Lists(d'.nic, b)) && (Lists(d.usb, b) <==> Lists(d'.usb, b))
  }

  /** The allocation depends only on which devices are configured under which kind, neither
      on the order of the configuration lists nor on repetitions. */
  lemma AllocationOrderIndependent(d: Devices, d': Devices, overrides: map<string, string>, m: map<string, nat>,
                                   m': map<string, nat>)
    requires SameLists(d, d') && AllocatesInOrder(d, overrides, m) && AllocatesInOrder(d', overrides, m')
    ensures m == m'
  {
    assert m.Keys == m'.Keys;
    forall b | b in m ensures m[b] == m'[b] {
      SameSlot(d, d', overrides, m, m', b);
    }
  }

  lemma {:induction false} SameSlot(d: Devices, d': Devices, overrides: map<string, string>, m: map<string, nat>,
                                    m': map<string, nat>, b: string)
    requires SameLists(d, d') && AllocatesInOrder(d, overrides, m) && AllocatesInOrder(d', overrides, m')
    requires b in m && b in m'
    ensures m[b] == m'[b]
    decreases if m[b] < m'[b] then m[b] else m'[b]
  {
    if b !in overrides {
      if m[b] < m'[b] {
        var c := Smaller(d, d', overrides, m, m', b);
        SameSlot(d, d', overrides, m, m', c);
      } else if m'[b] < m[b] {
        var c := Smaller(d', d, overrides, m', m, b);
        SameSlot(d, d', overrides, m, m', c);
      }
    }
  }

  /** If b's slot is smaller in m, then m' gives that slot to a device before b, whose slot
      in m is smaller still. */
  lemma Smaller(d: Devices, d': Devices, overrides: map<string, string>, m: map<string, nat>, m': map<string, nat>,
                b: string) returns (c: string)
    requires SameLists(d, d') && AllocatesInOrder(d, overrides, m) && AllocatesInOrder(d', overrides, m')
    requires b in m && b in m' && b !in overrides && m[b] < m'[b]
    ensures c in m && c in m' && m[c] < m[b] && m'[c] == m[b]
  {
    assert m[b] in m'.Values;
    c :| c in m' && m'[c] == m[b];
    assert Listed(d, c);
    assert c !in overrides;
    assert GoesFirst(d', c, b) && GoesFirst(d, c, b);
  }
}
