/**
 The flash service of `flash_efc.c` over one or two flash controllers, and its client in
 `src/main.c` that keeps the calibration table in the last page of bank 0.
 */
module FlashService {
  import opened Machine
  import opened Flash

  datatype Command =
    | WritePage(page: nat, erase: bool)
    | LockBit(page: nat, locked: bool)
    | GetLockBits

  /**
   One flash controller and its bank. A command fails on a locked region, or when the hardware
   reports a fault for it: `faults` gives the error flags of the n-th command.
   */
  class Efc {
    const mem: array<bv8>
    const latch: array<bv8>
    const faults: nat -> nat
    var locks: seq<bool>
    var accessMode: nat
    var waitStates: nat
    var results: nat
    var issued: seq<Command>

    ghost predicate Valid()
      reads this
    {
      && |locks| <= 255 && mem.Length == REGION * |locks|
      && latch.Length == PAGE && latch != mem
    }

    /** A bank of `regions` regions, erased and unlocked. */
    constructor (regions: nat, faults: nat -> nat)
      requires regions <= 255
      ensures Valid() && fresh(mem) && fresh(latch) && |locks| == regions && this.faults == faults
    {
      mem := new bv8[REGION * regions](i => 0xff);
      latch := new bv8[PAGE](i => 0xff);
      this.faults := faults;
      locks := seq(regions, i => false);
      accessMode, waitStates, results, issued := 0, 0, 0, [];
    }

    /** The error flags command `c` would be answered with. */
    function ErrorOf(c: Command): nat
      reads this
    {
      if c.WritePage? then PageError(locks, faults, |issued|, c.page) else faults(|issued|)
    }

    /** Program one page from the latch. */
    method Program(page: nat, erase: bool) returns (err: nat)
      requires Valid() && PAGE * page + PAGE <= mem.Length
      modifies this`issued, mem
      ensures Valid() && issued == old(issued) + [WritePage(page, erase)]
      ensures err == old(ErrorOf(WritePage(page, erase)))
      ensures err == 0 ==> mem[..] == Written(old(mem[..]), PAGE * page, latch[..], erase)
      ensures err != 0 ==> mem[..] == old(mem[..])
    {
      err := ErrorOf(WritePage(page, erase));
      issued := issued + [WritePage(page, erase)];
      if err == 0 {
        var i := 0;
        while i < PAGE
          modifies mem
          invariant i <= PAGE
          invariant forall k :: 0 <= k < mem.Length ==>
                      mem[k] == if PAGE * page <= k < PAGE * page + i then Cell(old(mem[k]), latch[k - PAGE * page], erase)
                                else old(mem[k])
        {
          var k := PAGE * page + i;
          mem[k] := Cell(mem[k], latch[i], erase);
          i := i + 1;
        }
        assert mem[..] == Written(old(mem[..]), PAGE * page, latch[..], erase);
      }
    }

    /** Set or clear the lock bit of the region of a page. */
    method ChangeLock(page: nat, locked: bool) returns (err: nat)
      requires Valid() && page / PAGES_IN_REGION < |locks|
      modifies this`issued, this`locks
      ensures Valid() && issued == old(issued) + [LockBit(page, locked)] && err == faults(|old(issued)|)
      ensures locks == if err == 0 then old(locks)[page / PAGES_IN_REGION := locked] else old(locks)
    {
      err := faults(|issued|);
      issued := issued + [LockBit(page, locked)];
      if err == 0 {
        locks := locks[page / PAGES_IN_REGION := locked];
      }
    }

    /** Ask for the lock bits; the words are then read one by one. */
    method QueryLocks() returns (err: nat)
      modifies this`issued, this`results
      ensures issued == old(issued) + [GetLockBits] && err == faults(|old(issued)|) && results == 0
    {
      err := faults(|issued|);
      issued := issued + [GetLockBits];
      results := 0;
    }

    method GetResult() returns (w: nat)
      modifies this`results
      ensures results == old(results) + 1 && w == ResultWord(locks, old(results))
    {
      w := ResultWord(locks, results);
      results := results + 1;
    }
  }

  /** FLASH_ACCESS_MODE_128. */
  const ACCESS_128 := 0

  datatype StoreResult = Stored | UnlockFailed | WriteFailed | LockFailed

  /** The commands that set the lock bit of `n` regions from `r` on. */
  function LockCommands(r: nat, n: nat, locked: bool): (cs: seq<Command>)
    ensures |cs| == n
  {
    seq(n, i requires 0 <= i => LockBit((r + i) * PAGES_IN_REGION, locked))
  }

  lemma LockCommandsNext(r: nat, n: nat, locked: bool)
    ensures LockCommands(r, n + 1, locked) == LockCommands(r, n, locked) + [LockBit((r + n) * PAGES_IN_REGION, locked)]
  {
  }

  /** The commands that program `n` pages from `page` on. */
  function PageCommands(page: nat, n: nat, erase: bool): (cs: seq<Command>)
    ensures |cs| == n
  {
    seq(n, i requires 0 <= i => WritePage(page + i, erase))
  }

  lemma PageCommandsNext(page: nat, n: nat, erase: bool)
    ensures PageCommands(page, n + 1, erase) == PageCommands(page, n, erase) + [WritePage(page + n, erase)]
  {
  }

  /** Where the page loop stands after `pages` pages: `done` bytes are written and the next one goes to `offset`. */
  predicate WriteAt(start: nat, size: nat, done: nat, pages: nat, offset: nat) {
    if done == size then pages == PageCount(start, size)
    else
      && done < size && offset < PAGE && start + done == PAGE * (start / PAGE + pages) + offset
      && (if done == 0 then pages == 0 else offset == 0)
  }

  lemma WriteAtNext(start: nat, size: nat, done: nat, pages: nat, offset: nat)
    requires WriteAt(start, size, done, pages, offset) && done < size
    ensures pages < PageCount(start, size)
    ensures WriteAt(start, size, done + Min(PAGE - offset, size - done), pages + 1, 0)
  {
  }

  /** All bytes are written, or those before the page that failed. */
  predicate WriteEnds(start: nat, size: nat, err: nat, done: nat, pages: nat) {
    && done <= size && pages <= PageCount(start, size)
    && (err == 0 <==> done == size) && (err == 0 <==> pages == PageCount(start, size))
    && (err != 0 ==> done == 0 || (start + done) % PAGE == 0) && (err != 0 ==> (start + done) / PAGE == start / PAGE + pages)
  }

  lemma WriteStops(start: nat, size: nat, err: nat, done: nat, pages: nat, offset: nat)
    requires WriteAt(start, size, done, pages, offset)
    ensures done < size && err != 0 ==> WriteEnds(start, size, err, done, pages)
    ensures done == size ==> WriteEnds(start, size, 0, done, pages)
  {
  }

  /** A page that holds a byte of the bank lies inside the bank and inside one region. */
  lemma PageInside(at: nat, page: nat, offset: nat, length: nat, regions: nat)
    requires at == PAGE * page + offset < length == REGION * regions && offset < PAGE
    ensures PAGE * page + PAGE <= length
    ensures at / PAGE == page && page / PAGES_IN_REGION == at / REGION < regions
  {
  }

  /** The flash service; `dual` tells whether the part has a second bank. */
  class Service {
    const dual: bool
    const efc0: Efc
    const efc1: Efc
    const pageBuffer: array<bv8>
    const table: array<bv8>

    ghost predicate Valid()
      reads this, efc0, efc1
    {
      && efc0.Valid() && efc1.Valid() && efc0 != efc1
      && efc0.mem != efc1.mem && efc0.mem != efc1.latch && efc0.latch != efc1.mem && efc0.latch != efc1.latch
      && (dual ==> efc0.mem.Length < BASE1 - BASE0)
      && pageBuffer.Length == PAGE && table.Length == PAGE && pageBuffer != table
      && pageBuffer !in {efc0.mem, efc0.latch, efc1.mem, efc1.latch}
      && table !in {efc0.mem, efc0.latch, efc1.mem, efc1.latch}
    }

    constructor (dual: bool, efc0: Efc, efc1: Efc)
      requires efc0.Valid() && efc1.Valid() && efc0 != efc1
      requires efc0.mem != efc1.mem && efc0.mem != efc1.latch && efc0.latch != efc1.mem && efc0.latch != efc1.latch
      requires dual ==> efc0.mem.Length < BASE1 - BASE0
      ensures Valid() && fresh(pageBuffer) && fresh(table)
      ensures this.dual == dual && this.efc0 == efc0 && this.efc1 == efc1
    {
      this.dual, this.efc0, this.efc1 := dual, efc0, efc1;
      pageBuffer := new bv8[PAGE](i => 0);
      table := new bv8[PAGE](i => 0);
    }

    /** The controller of an address. */
    function EfcOf(addr: nat): Efc
      requires addr >= BASE0
    {
      if Translate(dual, addr).bank == 1 then efc1 else efc0
    }

    /** The offset of an address inside its bank. */
    function OffsetOf(addr: nat): (r: nat)
      requires addr >= BASE0
    {
      addr - BaseOf(Translate(dual, addr).bank)
    }

    /** The addresses `addr` to `addr + size - 1` lie in one bank. */
    ghost predicate Inside(addr: nat, size: nat)
      reads this, EfcOf(if addr >= BASE0 then addr else BASE0)
    {
      addr >= BASE0 && OffsetOf(addr) + size <= EfcOf(addr).mem.Length
    }

    /** The three copies that put a chunk in the middle of the old page. */
    method FillPageBuffer(efc: Efc, page: nat, offset: nat, chunk: seq<bv8>)
      requires efc.Valid() && PAGE * page + PAGE <= efc.mem.Length && offset + |chunk| <= PAGE
      requires pageBuffer.Length == PAGE && pageBuffer != efc.mem
      modifies pageBuffer
      ensures pageBuffer[..] == Splice(efc.mem[..][PAGE * page..PAGE * page + PAGE], offset, chunk)
    {
      forall i | 0 <= i < offset {
        pageBuffer[i] := efc.mem[PAGE * page + i];
      }
      forall i | 0 <= i < |chunk| {
        pageBuffer[offset + i] := chunk[i];
      }
      forall i | offset + |chunk| <= i < PAGE {
        pageBuffer[i] := efc.mem[PAGE * page + i];
      }
      ghost var page0 := efc.mem[..][PAGE * page..PAGE * page + PAGE];
      assert forall i :: 0 <= i < PAGE ==> page0[i] == efc.mem[PAGE * page + i];
      assert forall i :: 0 <= i < PAGE ==> pageBuffer[i] == Splice(page0, offset, chunk)[i];
    }

    /** The latch is written word by word. */
    method FillLatch(efc: Efc)
      requires efc.Valid() && pageBuffer.Length == PAGE && pageBuffer != efc.latch
      modifies efc.latch
      ensures efc.latch[..] == pageBuffer[..]
    {
      var idx := 0;
      while idx < PAGE / 4
        invariant idx <= PAGE / 4
        invariant forall k :: 0 <= k < 4 * idx ==> efc.latch[k] == pageBuffer[k]
      {
        efc.latch[4 * idx] := pageBuffer[4 * idx];
        efc.latch[4 * idx + 1] := pageBuffer[4 * idx + 1];
        efc.latch[4 * idx + 2] := pageBuffer[4 * idx + 2];
        efc.latch[4 * idx + 3] := pageBuffer[4 * idx + 3];
        idx := idx + 1;
      }
    }

    /** The page with the chunk in its middle goes to the latch. */
    method LatchPage(efc: Efc, page: nat, offset: nat, chunk: seq<bv8>)
      requires efc.Valid() && PAGE * page + PAGE <= efc.mem.Length && offset + |chunk| <= PAGE
      requires pageBuffer.Length == PAGE && pageBuffer != efc.mem && pageBuffer != efc.latch
      modifies pageBuffer, efc.latch
      ensures efc.mem[..] == old(efc.mem[..])
      ensures efc.latch[..] == Splice(old(efc.mem[..])[PAGE * page..PAGE * page + PAGE], offset, chunk)
    {
      FillPageBuffer(efc, page, offset, chunk);
      FillLatch(efc);
    }

    /** One turn of the page loop. */
    method WriteChunk(efc: Efc, page: nat, offset: nat, chunk: seq<bv8>, erase: bool) returns (err: nat)
      requires efc.Valid() && PAGE * page + PAGE <= efc.mem.Length && offset + |chunk| <= PAGE
      requires pageBuffer.Length == PAGE && pageBuffer != efc.mem && pageBuffer != efc.latch
      modifies pageBuffer, efc`issued, efc.mem, efc.latch
      ensures efc.Valid() && efc.issued == old(efc.issued) + [WritePage(page, erase)]
      ensures err == old(efc.ErrorOf(WritePage(page, erase)))
      ensures err == 0 ==> efc.mem[..] == Written(old(efc.mem[..]), PAGE * page + offset, chunk, erase)
      ensures err != 0 ==> efc.mem[..] == old(efc.mem[..])
    {
      ghost var was := efc.mem[..];
      LatchPage(efc, page, offset, chunk);
      PageMerge(was, PAGE * page, offset, chunk, erase);
      err := efc.Program(page, erase);
    }

    /** One turn of the page loop, seen from the whole write: `done` bytes of `data` are in flash. */
    method WriteNext(efc: Efc, ghost mem0: seq<bv8>, start: nat, data: seq<bv8>, done: nat, size: nat,
                     page: nat, offset: nat, erase: bool) returns (err: nat)
      requires efc.Valid() && start + |data| <= efc.mem.Length == |mem0|
      requires done + size <= |data| && 0 < size && offset + size <= PAGE && start + done == PAGE * page + offset
      requires efc.mem[..] == Written(mem0, start, data[..done], erase)
      requires pageBuffer.Length == PAGE && pageBuffer != efc.mem && pageBuffer != efc.latch
      modifies pageBuffer, efc`issued, efc.mem, efc.latch
      ensures efc.Valid() && efc.issued == old(efc.issued) + [WritePage(page, erase)]
      ensures err == PageError(efc.locks, efc.faults, |old(efc.issued)|, page)
      ensures err == 0 ==> efc.mem[..] == Written(mem0, start, data[..done + size], erase)
      ensures err != 0 ==> efc.mem[..] == old(efc.mem[..])
    {
      PageInside(start + done, page, offset, efc.mem.Length, |efc.locks|);
      err := WriteChunk(efc, page, offset, data[done..done + size], erase);
      if err == 0 {
        WrittenNext(mem0, start, data, done, size, erase);
      }
    }

    /** The same with the commands issued so far: those of `pages` pages from `first` on, none of which failed. */
    method WriteTurn(efc: Efc, ghost mem0: seq<bv8>, ghost issued0: seq<Command>, start: nat, data: seq<bv8>, done: nat,
                     size: nat, first: nat, pages: nat, offset: nat, erase: bool) returns (err: nat)
      requires efc.Valid() && start + |data| <= efc.mem.Length == |mem0|
      requires done + size <= |data| && 0 < size && offset + size <= PAGE && start + done == PAGE * (first + pages) + offset
      requires efc.mem[..] == Written(mem0, start, data[..done], erase)
      requires pageBuffer.Length == PAGE && pageBuffer != efc.mem && pageBuffer != efc.latch
      requires efc.issued == issued0 + PageCommands(first, pages, erase)
      requires NoPageError(efc.locks, efc.faults, |issued0|, first, pages)
      modifies pageBuffer, efc`issued, efc.mem, efc.latch
      ensures efc.Valid() && efc.issued == issued0 + PageCommands(first, pages + 1, erase)
      ensures err == ErrorAt(efc.locks, efc.faults, |issued0|, first, pages)
      ensures err == 0 ==> NoPageError(efc.locks, efc.faults, |issued0|, first, pages + 1)
      ensures efc.mem[..] == Written(mem0, start, data[..if err == 0 then done + size else done], erase)
    {
      PageCommandsNext(first, pages, erase);
      err := WriteNext(efc, mem0, start, data, done, size, first + pages, offset, erase);
    }

    /**
     The page loop of `flash_write` on one bank: one command for each page, in ascending order, up
     to the first one that fails. `done` bytes of `pages` pages have been programmed when it ends.
     */
    method WritePages(efc: Efc, start: nat, data: seq<bv8>, erase: bool) returns (err: nat, done: nat, pages: nat)
      requires efc.Valid() && start + |data| <= efc.mem.Length
      requires pageBuffer.Length == PAGE && pageBuffer != efc.mem && pageBuffer != efc.latch
      modifies pageBuffer, efc`issued, efc.mem, efc.latch
      ensures efc.Valid() && WriteEnds(start, |data|, err, done, pages)
      ensures efc.mem[..] == Written(old(efc.mem[..]), start, data[..done], erase)
      ensures efc.issued == old(efc.issued) + PageCommands(start / PAGE, if err == 0 then pages else pages + 1, erase)
      ensures NoPageError(efc.locks, efc.faults, |old(efc.issued)|, start / PAGE, pages)
      ensures err != 0 ==> err == ErrorAt(efc.locks, efc.faults, |old(efc.issued)|, start / PAGE, pages)
    {
      var first: nat, offset: nat := start / PAGE, start % PAGE;
      done, err, pages := 0, 0, 0;
      ghost var mem0, issued0 := efc.mem[..], efc.issued;
      assert Written(mem0, start, data[..0], erase) == mem0;
      while done < |data|
        invariant efc.Valid() && done <= |data| && err == 0
        invariant WriteAt(start, |data|, done, pages, offset)
        invariant efc.mem[..] == Written(mem0, start, data[..done], erase)
        invariant efc.issued == issued0 + PageCommands(first, pages, erase)
        invariant NoPageError(efc.locks, efc.faults, |issued0|, first, pages)
      {
        var size := Min(PAGE - offset, |data| - done);
        WriteAtNext(start, |data|, done, pages, offset);
        err := WriteTurn(efc, mem0, issued0, start, data, done, size, first, pages, offset, erase);
        if err != 0 {
          WriteStops(start, |data|, err, done, pages, offset);
          return;
        }
        done := done + size;
        pages := pages + 1;
        offset := 0;
      }
      WriteStops(start, |data|, 0, done, pages, offset);
    }

    /** The wait states, the page loop and the wait states again. */
    method WriteRange(addr: nat, data: seq<bv8>, erase: bool) returns (err: nat, done: nat, pages: nat)
      requires Valid() && Inside(addr, |data|)
      modifies pageBuffer, EfcOf(addr)`issued, EfcOf(addr)`waitStates, EfcOf(addr).mem, EfcOf(addr).latch
      ensures Valid() && WriteEnds(OffsetOf(addr), |data|, err, done, pages)
      ensures var efc, at := EfcOf(addr), OffsetOf(addr);
              && efc.mem[..] == Written(old(efc.mem[..]), at, data[..done], erase)
              && efc.waitStates == (if err == 0 then old(efc.waitStates) else 6)
              && efc.issued == old(efc.issued) + PageCommands(at / PAGE, if err == 0 then pages else pages + 1, erase)
              && (err != 0 ==> err == ErrorAt(efc.locks, efc.faults, |old(efc.issued)|, at / PAGE, pages))
      ensures |data| > 0 ==>
                var efc, at := EfcOf(addr), OffsetOf(addr);
                && at / REGION + SpannedRegions(at, at + |data| - 1) <= |efc.locks|
                && (err == 0 <==>
                      && RegionsUnlocked(efc.locks, at / REGION, SpannedRegions(at, at + |data| - 1))
                      && NoFault(efc.faults, |old(efc.issued)|, PageCount(at, |data|)))
    {
      var efc := EfcOf(addr);
      var saved := efc.waitStates;
      efc.waitStates := 6;
      if |data| > 0 {
        WriteSucceeds(efc.locks, efc.faults, |efc.issued|, OffsetOf(addr), |data|);
      }
      err, done, pages := WritePages(efc, OffsetOf(addr), data, erase);
      if err != 0 {
        return;
      }
      efc.waitStates := saved;
    }

    /**
     `flash_write`. It succeeds exactly when no region that meets the range is locked and none of
     its page commands, one for each page in ascending order, faults. Then the range holds the data
     (with erasing; otherwise the old bits that the data keeps), every other byte is unchanged and
     the wait states are restored. Otherwise the pages before the first failing one are done, that
     page and the later ones are untouched, and the wait states stay at 6.
     */
    method FlashWrite(addr: nat, data: seq<bv8>, erase: bool) returns (err: nat, done: nat, pages: nat)
      requires Valid() && Inside(addr, |data|)
      modifies pageBuffer, EfcOf(addr)`issued, EfcOf(addr)`waitStates, EfcOf(addr).mem, EfcOf(addr).latch
      ensures Valid() && WriteEnds(OffsetOf(addr), |data|, err, done, pages)
      ensures var efc, at := EfcOf(addr), OffsetOf(addr);
              && efc.mem[..] == Written(old(efc.mem[..]), at, data[..done], erase)
              && efc.waitStates == (if err == 0 then old(efc.waitStates) else 6)
              && efc.issued == old(efc.issued) + PageCommands(at / PAGE, if err == 0 then pages else pages + 1, erase)
              && (err != 0 ==> err == ErrorAt(efc.locks, efc.faults, |old(efc.issued)|, at / PAGE, pages))
      ensures var efc, at := EfcOf(addr), OffsetOf(addr);
              forall i :: 0 <= i < efc.mem.Length ==>
                efc.mem[i] == if at <= i < at + done then (if erase then data[i - at] else old(efc.mem[i]) & data[i - at])
                              else old(efc.mem[i])
      ensures |data| > 0 ==>
                var efc, at := EfcOf(addr), OffsetOf(addr);
                && at / REGION + SpannedRegions(at, at + |data| - 1) <= |efc.locks|
                && (err == 0 <==>
                      && RegionsUnlocked(efc.locks, at / REGION, SpannedRegions(at, at + |data| - 1))
                      && NoFault(efc.faults, |old(efc.issued)|, PageCount(at, |data|)))
    {
      ghost var was := EfcOf(addr).mem[..];
      err, done, pages := WriteRange(addr, data, erase);
      ghost var now := EfcOf(addr).mem[..];
      WrittenBytes(was, OffsetOf(addr), data[..done], erase);
      assert forall i :: 0 <= i < |now| ==> now[i] == EfcOf(addr).mem[i];
    }

    /** The loop of `flash_lock` and `flash_unlock` over the pages of `n` regions from region `r` on. */
    method ChangeRegions(efc: Efc, start: nat, last: nat, ghost r: nat, ghost n: nat, locked: bool)
      returns (err: nat, ghost done: nat)
      requires efc.Valid() && r + n <= |efc.locks|
      requires start == r * PAGES_IN_REGION && last == (r + n) * PAGES_IN_REGION - 1
      modifies efc`issued, efc`locks
      ensures efc.Valid() && done <= n && (err == 0 <==> done == n)
      ensures efc.locks == Locked(old(efc.locks), r, done, locked)
      ensures efc.issued == old(efc.issued) + LockCommands(r, if err == 0 then n else done + 1, locked)
      ensures err == 0 <==> NoFault(efc.faults, |old(efc.issued)|, n)
      ensures err != 0 ==> err == efc.faults(|old(efc.issued)| + done)
    {
      var first := start;
      done, err := 0, 0;
      ghost var locks0, issued0 := efc.locks, efc.issued;
      while first < last
        invariant efc.Valid() && done <= n && first == (r + done) * PAGES_IN_REGION && err == 0
        invariant efc.locks == Locked(locks0, r, done, locked)
        invariant efc.issued == issued0 + LockCommands(r, done, locked)
        invariant NoFault(efc.faults, |issued0|, done)
        decreases last - first
      {
        err := efc.ChangeLock(first, locked);
        LockCommandsNext(r, done, locked);
        if err != 0 {
          return;
        }
        LockedNext(locks0, r, done, locked);
        first := first + PAGES_IN_REGION;
        done := done + 1;
      }
    }

    /** The page numbers the lock loops start from and run to. */
    lemma LockPages(start: nat, end: nat)
      requires Valid() && start <= end && Inside(start, end - start + 1)
      ensures var r, n := OffsetOf(start) / REGION, SpannedRegions(OffsetOf(start), OffsetOf(start) + end - start);
              && LockStart(start) >= BASE0 && LockEnd(end) >= BASE0
              && Translate(dual, LockStart(start)).bank == Translate(dual, start).bank
              && Translate(dual, LockStart(start)).page == r * PAGES_IN_REGION
              && Translate(dual, LockEnd(end)).page == (r + n) * PAGES_IN_REGION - 1
              && r + n <= |EfcOf(start).locks|
    {
      var bank := Translate(dual, start).bank;
      LockRangeExact(bank, start, end);
    }

    /**
     `flash_lock` and `flash_unlock`: one command for each region that meets the range, in ascending
     order, and none for any other region; it succeeds exactly when none of them faults, and after an
     error the regions before it are changed.
     */
    method ChangeLocks(start: nat, end: nat, locked: bool)
      returns (err: nat, actualStart: nat, actualEnd: nat, ghost done: nat)
      requires Valid() && start <= end && Inside(start, end - start + 1)
      modifies EfcOf(start)`issued, EfcOf(start)`locks
      ensures Valid()
      ensures var efc := EfcOf(start);
              var r, n := OffsetOf(start) / REGION, SpannedRegions(OffsetOf(start), OffsetOf(start) + end - start);
              && r + n <= |efc.locks| && done <= n && (err == 0 <==> done == n)
              && efc.locks == Locked(old(efc.locks), r, done, locked)
              && (forall i :: 0 <= i < |efc.locks| ==> efc.locks[i] == if r <= i < r + done then locked else old(efc.locks)[i])
              && efc.issued == old(efc.issued) + LockCommands(r, if err == 0 then n else done + 1, locked)
              && (err == 0 <==> NoFault(efc.faults, |old(efc.issued)|, n))
              && (err != 0 ==> err == efc.faults(|old(efc.issued)| + done))
      ensures actualStart <= start <= end <= actualEnd && actualStart % REGION == 0 && (actualEnd + 1) % REGION == 0
    {
      actualStart, actualEnd := LockStart(start), LockEnd(end);
      var from, upTo := Translate(dual, actualStart), Translate(dual, actualEnd);
      var efc := if from.bank == 1 then efc1 else efc0;
      ghost var r := OffsetOf(start) / REGION;
      ghost var n := SpannedRegions(OffsetOf(start), OffsetOf(start) + end - start);
      LockPages(start, end);
      LockRangeCovers(start, end);
      err, done := ChangeRegions(efc, from.page, upTo.page, r, n, locked);
    }

    /** Read result words until the one that holds the bit of `region`. */
    method SkipWords(efc: Efc, region: nat) returns (status: nat, count: nat)
      requires efc.results == 0
      modifies efc`results
      ensures count <= region < count + 32 && count % 32 == 0
      ensures status == ResultWord(efc.locks, count / 32) && efc.results == count / 32 + 1
    {
      status := efc.GetResult();
      count := 0;
      while !(count <= region < count + 32)
        invariant count <= region && count % 32 == 0
        invariant status == ResultWord(efc.locks, count / 32) && efc.results == count / 32 + 1
        decreases region - count
      {
        status := efc.GetResult();
        count := count + 32;
      }
    }

    /** Count the lock bits of `n` regions from `region` on, the first one being bit `b` of `word`. */
    method CountBits(efc: Efc, word: nat, b: nat, region: nat, n: nat) returns (locked: nat)
      requires b < 32 && efc.results > 0 && region == 32 * (efc.results - 1) + b
      requires word == ResultWord(efc.locks, efc.results - 1)
      modifies efc`results
      ensures locked == CountLocked(efc.locks, region, region + n)
    {
      var status, bit, count := word, b, n;
      locked := 0;
      while count > 0
        invariant 0 <= count <= n && 0 <= bit < 32 && efc.results > 0
        invariant region + (n - count) == 32 * (efc.results - 1) + bit
        invariant status == ResultWord(efc.locks, efc.results - 1)
        invariant locked == CountLocked(efc.locks, region, region + (n - count))
      {
        CountNext(efc.locks, region, efc.results - 1, bit);
        if TestBit(status, bit) {
          locked := locked + 1;
        }
        count := count - 1;
        bit := bit + 1;
        if bit == 32 {
          status := efc.GetResult();
          bit := 0;
        }
      }
    }

    /**
     `flash_is_locked`: the number of locked regions from the one of `start` to the one of `end`,
     or the error flags of the query, which the caller cannot tell from a count.
     */
    method IsLocked(start: nat, end: nat) returns (count: nat)
      requires Valid() && start <= end && Inside(start, end - start)
      modifies EfcOf(start)`issued, EfcOf(start)`results
      ensures Valid() && EfcOf(start).issued == old(EfcOf(start).issued) + [GetLockBits]
      ensures var efc := EfcOf(start);
              var err := efc.faults(|old(efc.issued)|);
              var r := OffsetOf(start) / REGION;
              count == if err != 0 then err
                       else CountLocked(efc.locks, r, r + SpannedRegions(OffsetOf(start), OffsetOf(start) + end - start))
    {
      var from, upTo := Translate(dual, start), Translate(dual, end);
      var efc := EfcOf(start);
      var first, last := from.page / PAGES_IN_REGION, upTo.page / PAGES_IN_REGION;
      assert first == OffsetOf(start) / REGION && last == (OffsetOf(start) + end - start) / REGION;
      count := efc.QueryLocks();
      if count != 0 {
        return;
      }
      var status, skipped := SkipWords(efc, first);
      count := CountBits(efc, status, first - skipped, first, last - first + 1);
    }

    /** The offset of the table in bank 0: its last page. */
    function TableOffset(): (r: nat)
      requires efc0.mem.Length >= PAGE
    {
      efc0.mem.Length - PAGE
    }

    /** `read_flash_table`. */
    method ReadTable()
      requires Valid() && efc0.locks != []
      modifies table
      ensures table[..] == efc0.mem[TableOffset()..]
    {
      var i := 0;
      while i < PAGE
        invariant i <= PAGE
        invariant forall k :: 0 <= k < i ==> table[k] == efc0.mem[TableOffset() + k]
      {
        table[i] := efc0.mem[TableOffset() + i];
        i := i + 1;
      }
    }

    /** `flash_init`: access mode and wait states of every bank the part has. */
    method FlashInit(mode: nat, waitStates: nat)
      requires Valid()
      modifies efc0`waitStates, efc0`accessMode, efc1`waitStates, efc1`accessMode
      ensures Valid() && efc0.waitStates == waitStates && efc0.accessMode == mode
      ensures if dual then efc1.waitStates == waitStates && efc1.accessMode == mode
              else efc1.waitStates == old(efc1.waitStates) && efc1.accessMode == old(efc1.accessMode)
    {
      efc0.accessMode, efc0.waitStates := mode, waitStates;
      if dual {
        efc1.accessMode, efc1.waitStates := mode, waitStates;
      }
    }

    /** The table lies in bank 0 and meets its last region only. */
    lemma TableRegion()
      requires Valid() && efc0.locks != []
      ensures var base := BASE0 + TableOffset();
              && Inside(base, PAGE) && EfcOf(base) == efc0 && OffsetOf(base) == TableOffset()
              && TableOffset() / REGION == |efc0.locks| - 1
              && SpannedRegions(TableOffset(), TableOffset() + PAGE - 1) == 1
    {
    }

    /** Lock or unlock the region of the table, with one command. */
    method ChangeTableLock(locked: bool) returns (err: nat)
      requires Valid() && efc0.locks != []
      modifies efc0`issued, efc0`locks
      ensures Valid() && |efc0.locks| == |old(efc0.locks)| && err == efc0.faults(|old(efc0.issued)|)
      ensures efc0.issued == old(efc0.issued) + [LockBit((|efc0.locks| - 1) * PAGES_IN_REGION, locked)]
      ensures efc0.locks == if err == 0 then old(efc0.locks)[|efc0.locks| - 1 := locked] else old(efc0.locks)
    {
      TableRegion();
      var base := BASE0 + TableOffset();
      ghost var done;
      var from, upTo;
      ghost var issued0 := efc0.issued;
      err, from, upTo, done := ChangeLocks(base, base + PAGE - 1, locked);
      assert efc0.issued == issued0 + LockCommands(|efc0.locks| - 1, 1, locked);
    }

    /** Write the table to its page, with one command. */
    method WriteTable() returns (err: nat)
      requires Valid() && efc0.locks != []
      modifies pageBuffer, efc0`issued, efc0`waitStates, efc0.mem, efc0.latch
      ensures Valid() && efc0.waitStates == if err == 0 then old(efc0.waitStates) else 6
      ensures efc0.issued == old(efc0.issued) + [WritePage(TableOffset() / PAGE, true)]
      ensures err == if efc0.locks[|efc0.locks| - 1] then FLOCKE else efc0.faults(|old(efc0.issued)|)
      ensures efc0.mem[..] == if err == 0 then old(efc0.mem[..TableOffset()]) + table[..] else old(efc0.mem[..])
    {
      TableRegion();
      var done, pages;
      ghost var was, at, issued0 := efc0.mem[..], TableOffset(), efc0.issued;
      err, done, pages := FlashWrite(BASE0 + TableOffset(), table[..], true);
      assert PageCount(at, PAGE) == 1 && at / PAGE / PAGES_IN_REGION == |efc0.locks| - 1;
      assert efc0.issued == issued0 + PageCommands(at / PAGE, 1, true);
      assert table[..][..PAGE] == table[..];
      if err != 0 {
        assert done == 0 && table[..][..0] == [];
        assert Written(was, at, [], true) == was;
      } else {
        assert efc0.faults(|issued0|) == 0;
        assert Written(was, at, table[..], true) == was[..at] + table[..];
      }
    }

    /** What the fault flags of its three commands make of storing the table. */
    function Outcome(k: nat): StoreResult {
      if efc0.faults(k) != 0 then UnlockFailed
      else if efc0.faults(k + 1) != 0 then WriteFailed
      else if efc0.faults(k + 2) != 0 then LockFailed
      else Stored
    }

    /**
     `store_flash_table`. If none of its three commands faults, the last page of bank 0 holds the
     table, so that reading it back returns the same table; every other byte and every other
     region's lock bit is unchanged and the covering region is locked, whether it was before or not.
     When the page command or the lock command faults, the region is left unlocked.
     */
    method StoreTable() returns (r: StoreResult)
      requires Valid() && efc0.locks != []
      modifies pageBuffer, efc0, efc0.mem, efc0.latch, efc1`waitStates, efc1`accessMode
      ensures Valid() && |efc0.locks| == |old(efc0.locks)| && efc0.waitStates == 6
      ensures r == Outcome(|old(efc0.issued)|)
      ensures efc0.mem[..] == if r.Stored? || r.LockFailed? then old(efc0.mem[..TableOffset()]) + table[..] else old(efc0.mem[..])
      ensures efc0.locks == if r.UnlockFailed? then old(efc0.locks) else old(efc0.locks)[|efc0.locks| - 1 := r.Stored?]
      ensures NoFault(efc0.faults, |old(efc0.issued)|, 3) ==>
                r.Stored? && efc0.mem[TableOffset()..] == table[..] && efc0.locks[|efc0.locks| - 1]
    {
      FlashInit(ACCESS_128, 6);
      var err := ChangeTableLock(false);
      if err != 0 {
        return UnlockFailed;
      }
      err := WriteTable();
      if err != 0 {
        return WriteFailed;
      }
      err := ChangeTableLock(true);
      return if err != 0 then LockFailed else Stored;
    }

    /** Table persistence: what is read back after a store without faults is what was stored. */
    method StoreAndRead() returns (r: StoreResult)
      requires Valid() && efc0.locks != []
      modifies pageBuffer, table, efc0, efc0.mem, efc0.latch, efc1`waitStates, efc1`accessMode
      ensures r == Outcome(|old(efc0.issued)|)
      ensures table[..] == if r.Stored? || r.LockFailed? then old(table[..]) else old(efc0.mem[..])[TableOffset()..]
    {
      r := StoreTable();
      ReadTable();
    }
  }
}
