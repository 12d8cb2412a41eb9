/** Provisioning and teardown of node-local 2 MiB hugepages. */
module Hugepages {
  import opened Prelude

  const MIB: nat := 0x10_0000
  const PAGE_BYTES: nat := 0x20_0000
  const U64: nat := 0x1_0000_0000_0000_0000
  const MAX_ATTEMPTS: nat := 3

  // ---------- Sizes ----------

  // Unsigned 64-bit arithmetic as the release build computes it.
  function Wrap(x: int): nat {
    x % U64
  }

  /** ((mem_mb * 1024 * 1024) + 2 MiB - 1) / 2 MiB, evaluated from left to right. */
  function PagesFor(memMb: nat): nat {
    Wrap(Wrap(Wrap(memMb * MIB) + PAGE_BYTES) - 1) / PAGE_BYTES
  }

  function BytesOf(pages: nat): nat {
    Wrap(pages * PAGE_BYTES)
  }

  /** No intermediate value leaves the 64-bit range. */
  predicate OverflowFree(memMb: nat) {
    && memMb * MIB < U64
    && memMb * MIB + PAGE_BYTES < U64
    && (memMb * MIB + PAGE_BYTES - 1) / PAGE_BYTES * PAGE_BYTES < U64
  }

  lemma OverflowFreeIff(memMb: nat)
    ensures OverflowFree(memMb) <==> memMb <= 0x1000_0000_0000 - 3
  {}

  /** Without overflow the record is the smallest whole number of pages that holds the guest. */
  lemma PagesAreTight(memMb: nat)
    requires OverflowFree(memMb)
    ensures BytesOf(PagesFor(memMb)) == PagesFor(memMb) * PAGE_BYTES
    ensures memMb * MIB <= BytesOf(PagesFor(memMb)) < memMb * MIB + PAGE_BYTES
  {
    assert PagesFor(memMb) == (memMb * MIB + PAGE_BYTES - 1) / PAGE_BYTES;
  }

  /** The recorded bytes hold the guest's memory exactly up to one MiB beyond the range in
      which nothing overflows; past that they are too small. */
  lemma CoveredIff(memMb: nat)
    requires memMb < U64
    ensures BytesOf(PagesFor(memMb)) >= memMb * MIB <==> memMb <= 0x1000_0000_0000 - 2
  {
    if memMb <= 0x1000_0000_0000 - 3 {
      PagesAreTight(memMb);
    }
  }

  // ---------- The record ----------

  datatype HugeRecord = HugeRecord(active: bool, node: Option<nat>, pages: nat, bytes: nat)

  const INACTIVE: HugeRecord := HugeRecord(false, None, 0, 0)

  predicate ConsistentRecord(r: HugeRecord) {
    if r.active then r.node.Some? && r.bytes == BytesOf(r.pages) else r == INACTIVE
  }

  datatype HugeError = NoNode | MountFailed | ReadFailed | WriteFailed | Insufficient(pages: nat, total: nat, free: nat)

  // ---------- The pool ----------

  /** One node's hugepage pool. Nobody but this VM's provisioning touches it. Whether the n-th
      read succeeds, whether the n-th write does and how many pages it falls short of what
      was asked for is the environment's choice. */
  class Pool {
    const readable: nat -> bool
    const writable: nat -> bool
    const shortfall: nat -> nat
    var total: nat
    var free: nat
    var readCount: nat
    var writes: nat

    constructor (readable: nat -> bool, writable: nat -> bool, shortfall: nat -> nat, total: nat, free: nat)
      ensures this.readable == readable && this.writable == writable && this.shortfall == shortfall
      ensures this.total == total && this.free == free && readCount == 0 && writes == 0
    {
      this.readable, this.writable, this.shortfall := readable, writable, shortfall;
      this.total, this.free, readCount, writes := total, free, 0, 0;
    }

    method Read() returns (r: Option<(nat, nat)>)
      modifies this`readCount
      ensures readCount == old(readCount) + 1
      ensures r == if readable(old(readCount)) then Some((total, free)) else None
    {
      r := if readable(readCount) then Some((total, free)) else None;
      readCount := readCount + 1;
    }

    /** Ask for a pool of n pages. The write may be refused; an accepted one moves the total
        towards n, possibly not all the way, and growth arrives as free pages. */
    method Request(n: nat) returns (ok: bool)
      modifies this`total, this`free, this`writes
      ensures writes == old(writes) + 1 && ok == writable(old(writes))
      ensures !ok ==> total == old(total) && free == old(free)
      ensures ok && n >= old(total) ==> old(total) <= total <= n && free == old(free) + (total - old(total))
      ensures ok && n >= old(total) && shortfall(old(writes)) == 0 ==> total == n
      ensures ok && n < old(total) ==> n <= total <= old(total) && free <= old(free)
    {
      ok := writable(writes);
      if ok {
        var missed := shortfall(writes);
        if n >= total {
          var reached := if missed <= n - total then n - missed else total;
          free := free + (reached - total);
          total := reached;
        } else {
          var reached := if missed <= total - n then n + missed else total;
          free := if free >= total - reached then free - (total - reached) else 0;
          total := reached;
        }
      }
      writes := writes + 1;
    }

    /** Reads and writes do not fail, and the kernel finds all the pages it is asked for. */
    ghost predicate Reliable() {
      forall n :: readable(n) && writable(n) && shortfall(n) == 0
    }
  }

  /** Provision hugepages for a VM. The pool is never lowered and at most three raises are
      tried. On success with hugepages enabled, the pool's free pages cover the recorded
      pages; on failure the record is as before. A pool whose total already suffices is
      never raised, so then success depends on its free pages alone. With a node, a mount and
      a readable pool, enough free pages suffice; and with a reliable pool it succeeds exactly
      if there are enough, or if the pool is too small and wholly free. */
  method Provision(wanted: bool, memMb: nat, node: Option<nat>, mountOk: bool, pool: Pool, record: HugeRecord)
      returns (r: Result<(), HugeError>, record': HugeRecord)
    modifies pool
    ensures pool.total >= old(pool.total)
    ensures pool.writes <= old(pool.writes) + MAX_ATTEMPTS
    ensures !wanted ==> r.Ok? && record' == INACTIVE && pool.writes == old(pool.writes)
    ensures wanted && r.Ok? ==> record' == HugeRecord(true, node, PagesFor(memMb), BytesOf(PagesFor(memMb)))
    ensures wanted && r.Ok? ==> node.Some? && pool.free >= PagesFor(memMb)
    ensures r.Ok? ==> ConsistentRecord(record')
    ensures r.Err? ==> wanted && record' == record
    ensures old(pool.free) >= PagesFor(memMb) || old(pool.total) >= PagesFor(memMb) ==>
      pool.writes == old(pool.writes) && pool.free == old(pool.free) && pool.total == old(pool.total)
    ensures wanted && r.Ok? && pool.writes == old(pool.writes) ==> old(pool.free) >= PagesFor(memMb)
    ensures wanted && node.Some? && mountOk && pool.readable(old(pool.readCount)) ==>
      (old(pool.free) >= PagesFor(memMb) ==> r.Ok?)
    ensures wanted && pool.Reliable() ==>
      (r.Ok? <==>
       && node.Some? && mountOk
       && (|| old(pool.free) >= PagesFor(memMb)
           || (old(pool.total) < PagesFor(memMb) && old(pool.free) >= old(pool.total))))
  {
    record' := record;
    if !wanted {
      return Ok(()), INACTIVE;
    }
    if node.None? {
      return Err(NoNode), record';
    }
    var pages := PagesFor(memMb);
    if !mountOk {
      return Err(MountFailed), record';
    }
    var first := pool.Read();
    if first.None? {
      return Err(ReadFailed), record';
    }
    var total: nat, free: nat := first.value.0, first.value.1;
    var done := HugeRecord(true, node, pages, BytesOf(pages));
    if free >= pages {
      return Ok(()), done;
    }
    for attempt := 0 to MAX_ATTEMPTS
      invariant pool.total >= old(pool.total) && old(pool.writes) <= pool.writes <= old(pool.writes) + attempt
      invariant old(pool.total) >= pages ==> pool.writes == old(pool.writes)
      invariant pool.writes == old(pool.writes) ==> pool.total == old(pool.total) && pool.free == old(pool.free)
      invariant old(pool.free) < pages
      invariant pool.Reliable() && attempt > 0 ==>
        pool.free < pages <= pool.total && !(old(pool.total) < pages && old(pool.free) >= old(pool.total))
    {
      var before := pool.Read();
      if before.None? {
        return Err(ReadFailed), record';
      }
      if before.value.0 < pages {
        var ok := pool.Request(pages);
        if !ok {
          return Err(WriteFailed), record';
        }
      }
      var after := pool.Read();
      if after.None? {
        return Err(ReadFailed), record';
      }
      total, free := after.value.0, after.value.1;
      if free >= pages {
        return Ok(()), done;
      }
    }
    return Err(Insufficient(pages, total, free)), record';
  }

  ghost predicate DistinctPools(pools: seq<Pool>) {
    forall i, j :: 0 <= i < j < |pools| ==> pools[i] != pools[j]
  }

  /** Teardown of an active record clears it and asks for an empty pool: on its own node, if
      one is recorded, and then on every node of the host, since the global counter reaches
      them all. No pool grows. An inactive record leaves every pool alone. */
  method Cleanup(pools: seq<Pool>, record: HugeRecord) returns (record': HugeRecord)
    requires DistinctPools(pools)
    modifies set i | 0 <= i < |pools| :: pools[i]
    ensures record' == if record.active then INACTIVE else record
    ensures forall i :: 0 <= i < |pools| ==>
              pools[i].writes == old(pools[i].writes) + Requests(record, i)
    ensures forall i :: 0 <= i < |pools| ==>
      pools[i].total <= old(pools[i].total) && pools[i].free <= old(pools[i].free)
    ensures !record.active ==> forall i :: 0 <= i < |pools| ==>
      pools[i].total == old(pools[i].total) && pools[i].free == old(pools[i].free)
  {
    if !record.active {
      return record;
    }
    if record.node.Some? && record.node.value < |pools| {
      var _ := pools[record.node.value].Request(0);
    }
    ghost var own := if record.node.Some? then record.node.value else |pools|;
    for k := 0 to |pools|
      invariant forall i :: 0 <= i < |pools| ==>
                  pools[i].total <= old(pools[i].total) && pools[i].free <= old(pools[i].free)
      invariant forall i :: 0 <= i < |pools| ==>
                  pools[i].writes == old(pools[i].writes) + (if i < k then 1 else 0) + (if i == own then 1 else 0)
    {
      var _ := pools[k].Request(0);
    }
    return INACTIVE;
  }

  /** How often a teardown asks node i for an empty pool. */
  function Requests(record: HugeRecord, i: nat): nat {
    if !record.active then 0 else if record.node == Some(i) then 2 else 1
  }
}
