/** Geometry of the flash banks and what the flash service is meant to do to them. */
module Flash {
  import opened Machine

  const PAGE := 256
  const REGION := 8192
  const PAGES_IN_REGION := 32
  const BASE0 := 0x8_0000
  const BASE1 := 0x10_0000

  /** The EEFC error flag of a command on a locked region. */
  const FLOCKE := 4

  // ----- addresses -----

  /** The bank, page and offset of an address; only a dual-bank part has bank 1. */
  datatype Place = Place(bank: Bit, page: nat, offset: nat)

  function BaseOf(bank: Bit): nat {
    if bank == 1 then BASE1 else BASE0
  }

  /** `translate_address`. */
  function Translate(dual: bool, addr: nat): (p: Place)
    requires addr >= BASE0
  {
    var bank: Bit := if dual && addr >= BASE1 then 1 else 0;
    Place(bank, (addr - BaseOf(bank)) / PAGE, (addr - BaseOf(bank)) % PAGE)
  }

  /** `compute_address`. */
  function Compute(p: Place): nat {
    BaseOf(p.bank) + p.page * PAGE + p.offset
  }

  /** Translation and computation of addresses are inverse to each other inside a bank. */
  lemma AddressRoundTrip(dual: bool, addr: nat, p: Place)
    requires addr >= BASE0
    ensures Compute(Translate(dual, addr)) == addr && Translate(dual, addr).offset < PAGE
    ensures p.offset < PAGE && (p.bank == 1 ==> dual) && (dual && p.bank == 0 ==> Compute(p) < BASE1) ==>
              Translate(dual, Compute(p)) == p
  {
  }

  /** `compute_lock_range`. */
  function LockStart(start: nat): nat {
    start - start % REGION
  }

  function LockEnd(end: nat): nat {
    end - end % REGION + REGION - 1
  }

  /** The rounded range covers the range and consists of whole regions. */
  lemma LockRangeCovers(start: nat, end: nat)
    ensures LockStart(start) <= start && end <= LockEnd(end)
    ensures LockStart(start) % REGION == 0 && (LockEnd(end) + 1) % REGION == 0
  {
  }

  // ----- programming -----

  /** A byte after programming: erasing first takes the new value, otherwise bits can only be cleared. */
  function Cell(was: bv8, data: bv8, erase: bool): bv8 {
    if erase then data else was & data
  }

  lemma CellKeeps(x: bv8, erase: bool)
    ensures Cell(x, x, erase) == x
  {
  }

  /** The memory after `data` has been programmed at `at`. */
  function Written(mem: seq<bv8>, at: nat, data: seq<bv8>, erase: bool): (r: seq<bv8>)
    requires at + |data| <= |mem|
    ensures |r| == |mem|
  {
    seq(|mem|, i requires 0 <= i < |mem| =>
      if at <= i < at + |data| then Cell(mem[i], data[i - at], erase) else mem[i])
  }

  /** Byte by byte: erased and programmed, or only cleared where the data is zero; nothing outside changes. */
  lemma WrittenBytes(mem: seq<bv8>, at: nat, data: seq<bv8>, erase: bool)
    requires at + |data| <= |mem|
    ensures forall i :: 0 <= i < |mem| ==>
              Written(mem, at, data, erase)[i] ==
              if at <= i < at + |data| then (if erase then data[i - at] else mem[i] & data[i - at]) else mem[i]
  {
  }

  /** Programming the page buffer, the old page with the chunk in its middle, changes only the chunk. */
  lemma PageMerge(mem: seq<bv8>, at: nat, offset: nat, chunk: seq<bv8>, erase: bool)
    requires at + PAGE <= |mem| && offset + |chunk| <= PAGE
    ensures Written(mem, at, Splice(mem[at..at + PAGE], offset, chunk), erase) ==
            Written(mem, at + offset, chunk, erase)
  {
    var page := Splice(mem[at..at + PAGE], offset, chunk);
    var a, b := Written(mem, at, page, erase), Written(mem, at + offset, chunk, erase);
    forall i | 0 <= i < |mem|
      ensures a[i] == b[i]
    {
      CellKeeps(mem[i], erase);
      if at <= i < at + PAGE {
        var k := i - at;
        assert page[k] == if offset <= k < offset + |chunk| then chunk[k - offset] else mem[i];
      }
    }
  }

  /** One more piece of a longer write. */
  lemma WrittenNext(mem: seq<bv8>, at: nat, data: seq<bv8>, done: nat, size: nat, erase: bool)
    requires at + |data| <= |mem| && done + size <= |data|
    ensures Written(Written(mem, at, data[..done], erase), at + done, data[done..done + size], erase) ==
            Written(mem, at, data[..done + size], erase)
  {
  }

  /** The number of pages that hold the bytes `at` to `at + size - 1` of a bank. */
  function PageCount(at: nat, size: nat): nat {
    if size == 0 then 0 else (at + size - 1) / PAGE - at / PAGE + 1
  }

  /** The error flags of a page command, the `k`-th one of its controller. */
  function PageError(locks: seq<bool>, faults: nat -> nat, k: nat, page: nat): nat {
    if page / PAGES_IN_REGION < |locks| && locks[page / PAGES_IN_REGION] then FLOCKE else faults(k)
  }

  /** The error flags of the command for page `page + i`, counted from the `k`-th command on. */
  function ErrorAt(locks: seq<bool>, faults: nat -> nat, k: nat, page: nat, i: nat): nat {
    PageError(locks, faults, k + i, page + i)
  }

  predicate RegionsUnlocked(locks: seq<bool>, r: nat, n: nat)
    requires r + n <= |locks|
  {
    forall i :: r <= i < r + n ==> !locks[i]
  }

  ghost predicate NoFault(faults: nat -> nat, k: nat, n: nat) {
    forall i :: k <= i < k + n ==> faults(i) == 0
  }

  ghost predicate NoPageError(locks: seq<bool>, faults: nat -> nat, k: nat, page: nat, n: nat) {
    forall i :: 0 <= i < n ==> ErrorAt(locks, faults, k, page, i) == 0
  }

  /** The number of regions that meet the bytes `a` to `b` of a bank. */
  function SpannedRegions(a: nat, b: nat): nat
    requires a <= b
  {
    b / REGION - a / REGION + 1
  }

  /** A page of the range lies in a region of the range. */
  lemma RegionOfPage(at: nat, size: nat, i: nat)
    requires size > 0 && i < PageCount(at, size)
    ensures at / REGION <= (at / PAGE + i) / PAGES_IN_REGION <= (at + size - 1) / REGION
  {
  }

  /** A region of the range holds a page of the range. */
  lemma PageOfRegion(at: nat, size: nat, r: nat) returns (i: nat)
    requires size > 0 && at / REGION <= r <= (at + size - 1) / REGION
    ensures i < PageCount(at, size) && (at / PAGE + i) / PAGES_IN_REGION == r
  {
    var first := at / PAGE;
    i := if first / PAGES_IN_REGION == r then 0 else r * PAGES_IN_REGION - first;
  }

  /** The page commands of a range all succeed exactly when no region of it is locked and none of them faults. */
  lemma WriteSucceeds(locks: seq<bool>, faults: nat -> nat, k: nat, at: nat, size: nat)
    requires size > 0 && at + size <= REGION * |locks|
    ensures (at + size - 1) / REGION < |locks|
    ensures NoPageError(locks, faults, k, at / PAGE, PageCount(at, size)) <==>
              && RegionsUnlocked(locks, at / REGION, SpannedRegions(at, at + size - 1))
              && NoFault(faults, k, PageCount(at, size))
  {
    var r, n, pages := at / REGION, SpannedRegions(at, at + size - 1), PageCount(at, size);
    if NoPageError(locks, faults, k, at / PAGE, pages) {
      forall x | r <= x < r + n
        ensures !locks[x]
      {
        var i := PageOfRegion(at, size, x);
        assert ErrorAt(locks, faults, k, at / PAGE, i) == 0;
      }
      forall j | k <= j < k + pages
        ensures faults(j) == 0
      {
        assert ErrorAt(locks, faults, k, at / PAGE, j - k) == 0;
        RegionOfPage(at, size, j - k);
      }
    } else {
      var i :| 0 <= i < pages && ErrorAt(locks, faults, k, at / PAGE, i) != 0;
      RegionOfPage(at, size, i);
      assert faults(k + i) != 0 || locks[(at / PAGE + i) / PAGES_IN_REGION];
    }
  }

  // ----- lock bits -----

  /** The lock bits after the first `n` regions from `r` on have been set to `v`. */
  function Locked(locks: seq<bool>, r: nat, n: nat, v: bool): (l: seq<bool>)
    requires r + n <= |locks|
    ensures |l| == |locks|
  {
    seq(|locks|, i requires 0 <= i < |locks| => if r <= i < r + n then v else locks[i])
  }

  lemma LockedNext(locks: seq<bool>, r: nat, n: nat, v: bool)
    requires r + n < |locks|
    ensures Locked(locks, r, n, v)[r + n := v] == Locked(locks, r, n + 1, v)
  {
  }

  /** Rounding to regions and stepping through page numbers visits exactly the regions of the range. */
  lemma LockRangeExact(bank: Bit, start: nat, end: nat)
    requires BaseOf(bank) <= start && BaseOf(bank) <= end
    ensures var base := BaseOf(bank);
            var r0, r1 := (start - base) / REGION, (end - base) / REGION;
            && base <= LockStart(start) && base <= LockEnd(end)
            && (LockStart(start) - base) / PAGE == r0 * PAGES_IN_REGION
            && (LockEnd(end) - base) / PAGE == r1 * PAGES_IN_REGION + (PAGES_IN_REGION - 1)
  {
    var base := BaseOf(bank);
    var r0, r1 := (start - base) / REGION, (end - base) / REGION;
    assert start % REGION == (start - base) % REGION;
    assert end % REGION == (end - base) % REGION;
    assert LockStart(start) - base == REGION * r0;
    assert LockEnd(end) - base == REGION * r1 + (REGION - 1);
  }

  /** The number of locked regions from `a` to `b`, exclusive. */
  function CountLocked(locks: seq<bool>, a: nat, b: nat): nat
    decreases b - a
  {
    if a >= b then 0
    else (if a < |locks| && locks[a] then 1 else 0) + CountLocked(locks, a + 1, b)
  }

  lemma {:induction false} CountSnoc(locks: seq<bool>, a: nat, b: nat)
    requires a <= b
    ensures CountLocked(locks, a, b + 1) == CountLocked(locks, a, b) + if b < |locks| && locks[b] then 1 else 0
    decreases b - a
  {
    if a < b {
      CountSnoc(locks, a + 1, b);
    }
  }

  /** The lock bits of the regions `a` to `b`, exclusive, as a number, the first one least significant. */
  function Pack(locks: seq<bool>, a: nat, b: nat): nat
    decreases b - a
  {
    if a >= b then 0
    else (if a < |locks| && locks[a] then 1 else 0) + 2 * Pack(locks, a + 1, b)
  }

  /** Result word `k` of the query for lock bits. */
  function ResultWord(locks: seq<bool>, k: nat): nat {
    Pack(locks, 32 * k, 32 * k + 32)
  }

  /** `w & (1 << b)`. */
  predicate TestBit(w: nat, b: nat) {
    if b == 0 then w % 2 == 1 else TestBit(w / 2, b - 1)
  }

  lemma {:induction false} PackedBit(locks: seq<bool>, a: nat, b: nat, i: nat)
    requires a + i < b
    ensures TestBit(Pack(locks, a, b), i) == (a + i < |locks| && locks[a + i])
    decreases i
  {
    var bit := if a < |locks| && locks[a] then 1 else 0;
    var rest := Pack(locks, a + 1, b);
    assert Pack(locks, a, b) == bit + 2 * rest;
    assert (bit + 2 * rest) % 2 == bit && (bit + 2 * rest) / 2 == rest;
    if i > 0 {
      PackedBit(locks, a + 1, b, i - 1);
    }
  }

  /** Bit `b` of result word `k` is the next region to count. */
  lemma CountNext(locks: seq<bool>, from: nat, k: nat, b: nat)
    requires b < 32 && from <= 32 * k + b
    ensures CountLocked(locks, from, 32 * k + b + 1) ==
            CountLocked(locks, from, 32 * k + b) + if TestBit(ResultWord(locks, k), b) then 1 else 0
  {
    PackedBit(locks, 32 * k, 32 * k + 32, b);
    CountSnoc(locks, from, 32 * k + b);
  }
}
