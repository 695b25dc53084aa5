/**
 * The lazily paged memory: 65536 slots of 64 KiB pages, allocated on first write,
 * with fast paths for accesses that stay inside one page.
 *
 * Every operation is specified by the flat memory it stands for, including the
 * device calls it makes and their order.
 */
module PagedMemory {
  import opened Bits
  import opened HostImports
  import opened FlatMemory

  const PAGE_SIZE: int := 65536

  type Page = p: seq<bv8> | |p| == PAGE_SIZE witness seq(PAGE_SIZE, _ => 0)
  datatype Slot = Unmapped | Mapped(page: Page)
  type Slots = s: seq<Slot> | |s| == 65536 witness seq(65536, _ => Unmapped)

  function IdxOf(a: U32): int { a / PAGE_SIZE }
  function OffsetOf(a: U32): int { a % PAGE_SIZE }

  /** The byte the page table holds for `a`; zero where no page is mapped. */
  function ByteOf(slots: Slots, a: int): bv8 {
    if 0 <= a < MMIO_BASE && slots[a / PAGE_SIZE].Mapped? then slots[a / PAGE_SIZE].page[a % PAGE_SIZE]
    else 0
  }

  ghost function Contents(slots: Slots): Flat {
    imap a: int | true :: ByteOf(slots, a)
  }

  /** The page in a slot, as `get_or_create_page` would hand it out. */
  function PageIn(slots: Slots, idx: int): Page
    requires 0 <= idx < 65536
  {
    if slots[idx].Mapped? then slots[idx].page else seq(PAGE_SIZE, _ => 0)
  }

  lemma PageAt(slots: Slots, a: U32)
    requires a < MMIO_BASE
    ensures PageIn(slots, IdxOf(a))[OffsetOf(a)] == At(Contents(slots), a)
  {
  }

  /** Mapping a page that was about to be created anyway changes nothing. */
  lemma TouchContents(slots: Slots, idx: int)
    requires 0 <= idx < 65536
    ensures Contents(slots[idx := Mapped(PageIn(slots, idx))]) == Contents(slots)
  {
    var slots' := slots[idx := Mapped(PageIn(slots, idx))];
    assert forall x: int :: ByteOf(slots', x) == ByteOf(slots, x);
  }

  /** Writing one byte of a page writes one byte of the flat memory. */
  lemma PokeContents(slots: Slots, idx: int, page: Page, a: U32, val: bv8)
    requires a < MMIO_BASE && idx == IdxOf(a)
    ensures Contents(slots[idx := Mapped(page[OffsetOf(a) := val])]) ==
            Contents(slots[idx := Mapped(page)])[a := val]
  {
    var before := slots[idx := Mapped(page)];
    var after := slots[idx := Mapped(page[OffsetOf(a) := val])];
    assert forall x: int :: ByteOf(after, x) == if x == a then val else ByteOf(before, x);
  }

  /** Copying a run of bytes into a page overlays them on the flat memory. */
  lemma BlitContents(slots: Slots, a: U32, data: seq<bv8>)
    requires a < MMIO_BASE && OffsetOf(a) + |data| <= PAGE_SIZE
    ensures var page := PageIn(slots, IdxOf(a));
            var page' := page[..OffsetOf(a)] + data + page[OffsetOf(a) + |data|..];
            Contents(slots[IdxOf(a) := Mapped(page')]) == Overlay(Contents(slots), a, data)
  {
    hide Overlay, Contents, At;
    var page := PageIn(slots, IdxOf(a));
    var page' := page[..OffsetOf(a)] + data + page[OffsetOf(a) + |data|..];
    var slots' := slots[IdxOf(a) := Mapped(page')];
    var over := Overlay(Contents(slots), a, data);
    forall x: int
      ensures x in over && over[x] == ByteOf(slots', x)
    {
      OverlayAt(Contents(slots), a, data, x);
      ContentsAt(slots, x);
      AtMember(over, x);
      BlitByte(slots, a, data, x);
    }
    SameContents(slots', over);
  }

  lemma ContentsAt(slots: Slots, x: int)
    ensures x in Contents(slots) && At(Contents(slots), x) == ByteOf(slots, x)
  {
  }

  lemma AtMember(bytes: Flat, x: int)
    ensures x in bytes ==> At(bytes, x) == bytes[x]
  {
  }

  lemma SameContents(slots: Slots, bytes: Flat)
    requires forall x: int :: x in bytes && bytes[x] == ByteOf(slots, x)
    ensures Contents(slots) == bytes
  {
  }

  lemma BlitByte(slots: Slots, a: U32, data: seq<bv8>, x: int)
    requires a < MMIO_BASE && OffsetOf(a) + |data| <= PAGE_SIZE
    ensures var page := PageIn(slots, IdxOf(a));
            var page' := page[..OffsetOf(a)] + data + page[OffsetOf(a) + |data|..];
            ByteOf(slots[IdxOf(a) := Mapped(page')], x) == if a <= x < a + |data| then data[x - a] else ByteOf(slots, x)
  {
  }

  /** The bytes of one page, copied out, are a run of the flat memory. */
  lemma CopyOut(slots: Slots, a: U32, n: nat)
    requires a < MMIO_BASE && OffsetOf(a) + n <= PAGE_SIZE
    ensures PageIn(slots, IdxOf(a))[OffsetOf(a)..OffsetOf(a) + n] == Slice(Contents(slots), a, n)
  {
    var run := PageIn(slots, IdxOf(a))[OffsetOf(a)..OffsetOf(a) + n];
    forall i | 0 <= i < n ensures run[i] == Slice(Contents(slots), a, n)[i] {
      assert IdxOf(a + i) == IdxOf(a) && OffsetOf(a + i) == OffsetOf(a) + i;
      PageAt(slots, a + i);
    }
  }

  // ---- Accesses inside one page ----

  /** A halfword inside one page, read with a single lookup, is the two-byte read. */
  lemma HalfInPage(o: Oracle, s: Store, slots: Slots, a: U32)
    requires s.bytes == Contents(slots) && a < MMIO_BASE && OffsetOf(a) + 1 < PAGE_SIZE
    ensures var p := PageIn(slots, IdxOf(a));
            Load16(o, s, a) == Read(Half(p[OffsetOf(a)], p[OffsetOf(a) + 1]), s)
  {
    hide Contents, Half, PageIn, IdxOf, OffsetOf;
    SamePage(a, 1);
    PageAt(slots, a);
    PageAt(slots, a + 1);
  }

  /** Addresses a few bytes apart in one page. */
  lemma SamePage(a: U32, k: nat)
    requires OffsetOf(a) + k < PAGE_SIZE
    ensures a + k < WORD && IdxOf(a + k) == IdxOf(a) && OffsetOf(a + k) == OffsetOf(a) + k
    ensures a < MMIO_BASE ==> a + k < MMIO_BASE
  {
  }

  lemma OrdinaryWord(o: Oracle, s: Store, a: U32)
    requires a + 3 < MMIO_BASE
    ensures Load32(o, s, a) == Read(Word(At(s.bytes, a), At(s.bytes, a + 1), At(s.bytes, a + 2), At(s.bytes, a + 3)), s)
  {
    hide Word, At;
  }

  lemma WordInPage(o: Oracle, s: Store, slots: Slots, a: U32)
    requires s.bytes == Contents(slots) && a < MMIO_BASE && OffsetOf(a) + 3 < PAGE_SIZE
    ensures var p := PageIn(slots, IdxOf(a));
            var k := OffsetOf(a);
            Load32(o, s, a) == Read(Word(p[k], p[k + 1], p[k + 2], p[k + 3]), s)
  {
    hide Contents, Word, PageIn, IdxOf, OffsetOf, Load32, At;
    SamePage(a, 1);
    SamePage(a, 2);
    SamePage(a, 3);
    OrdinaryWord(o, s, a);
    PageAt(slots, a);
    PageAt(slots, a + 1);
    PageAt(slots, a + 2);
    PageAt(slots, a + 3);
  }

  lemma StoreHalfInPage(s: Store, slots: Slots, a: U32, val: bv16)
    requires s.bytes == Contents(slots) && a < MMIO_BASE && OffsetOf(a) + 1 < PAGE_SIZE
    ensures var k := OffsetOf(a);
            var p := PageIn(slots, IdxOf(a))[k := Byte16(val, 0)][k + 1 := Byte16(val, 1)];
            Store16(s, a, val) == s.(bytes := Contents(slots[IdxOf(a) := Mapped(p)]))
  {
    hide Contents, Byte16, PageIn;
    var i, k := IdxOf(a), OffsetOf(a);
    var p0 := PageIn(slots, i);
    TouchContents(slots, i);
    PokeContents(slots, i, p0, a, Byte16(val, 0));
    PokeContents(slots, i, p0[k := Byte16(val, 0)], a + 1, Byte16(val, 1));
  }

  lemma StoreWordInPage(s: Store, slots: Slots, a: U32, val: bv32)
    requires s.bytes == Contents(slots) && a < MMIO_BASE && OffsetOf(a) + 3 < PAGE_SIZE
    ensures var k := OffsetOf(a);
            var p := PageIn(slots, IdxOf(a))[k := Byte(val, 0)][k + 1 := Byte(val, 1)][k + 2 := Byte(val,
              2)][k + 3 := Byte(val, 3)];
            Store32(s, a, val) == s.(bytes := Contents(slots[IdxOf(a) := Mapped(p)]))
  {
    hide Contents, Byte, PageIn;
    var i, k := IdxOf(a), OffsetOf(a);
    var p0 := PageIn(slots, i);
    var p1 := p0[k := Byte(val, 0)];
    var p2 := p1[k + 1 := Byte(val, 1)];
    var p3 := p2[k + 2 := Byte(val, 2)];
    TouchContents(slots, i);
    PokeContents(slots, i, p0, a, Byte(val, 0));
    PokeContents(slots, i, p1, a + 1, Byte(val, 1));
    PokeContents(slots, i, p2, a + 2, Byte(val, 2));
    PokeContents(slots, i, p3, a + 3, Byte(val, 3));
  }

  // ---- Instruction windows and bulk copies ----

  lemma LowHalfOfWord(b0: bv8, b1: bv8, b2: bv8, b3: bv8)
    ensures LowHalf(Word(b0, b1, b2, b3)) == Half(b0, b1)
  {
  }

  lemma LowHalfOfHalf(h: bv16)
    ensures LowHalf(h as bv32) == h
  {
  }

  /** `buf[at..at + |chunk|].copy_from_slice(chunk)`. */
  function Splice(buf: seq<bv8>, at: nat, chunk: seq<bv8>): (r: seq<bv8>)
    requires at + |chunk| <= |buf|
    ensures |r| == |buf| && r[..at + |chunk|] == buf[..at] + chunk
  {
    buf[..at] + chunk + buf[at + |chunk|..]
  }

  lemma Wrapping(a: U32, i: nat)
    ensures Wrap(a + 0) == a && Next(Wrap(a + i)) == Wrap(a + i + 1)
  {
  }

  lemma ByteStoresNone(s: Store, a: U32, data: seq<bv8>)
    requires data == []
    ensures ByteStores(s, a, data) == s
  {
  }

  class Memory {
    var pages: Slots
    var brkPtr: bv32
    var initialBrk: bv32

    /** The flat memory this page table and this host's trace stand for. */
    ghost function View(port: Port): Store
      reads this, port
    {
      Store(Contents(pages), brkPtr, initialBrk, port.events)
    }

    constructor ()
      ensures forall a: int :: At(Contents(pages), a) == 0
      ensures brkPtr == initialBrk == 0x100_0000
    {
      pages := seq(65536, _ => Unmapped);
      brkPtr, initialBrk := 0x100_0000, 0x100_0000;
    }

    method GetOrCreatePage(idx: int) returns (page: Page)
      requires 0 <= idx < 65536
      modifies this`pages
      ensures page == PageIn(old(pages), idx)
      ensures pages == old(pages)[idx := Mapped(page)]
      ensures Contents(pages) == old(Contents(pages))
    {
      if pages[idx].Unmapped? {
        pages := pages[idx := Mapped(seq(PAGE_SIZE, _ => 0))];
      }
      page := pages[idx].page;
      TouchContents(old(pages), idx);
      assert pages == old(pages)[idx := Mapped(page)];
    }

    method ReadU8(port: Port, a: U32) returns (v: bv8)
      modifies port`events
      ensures Read(v, View(port)) == Load8(port.oracle, old(View(port)), a)
    {
      if a >= MMIO_BASE {
        var r := port.ReadMmio(a, 1);
        return (r & 0xFF) as bv8;
      }
      match pages[IdxOf(a)] {
        case Mapped(page) => v := page[OffsetOf(a)];
        case Unmapped => v := 0;
      }
    }

    method WriteU8(port: Port, a: U32, val: bv8)
      modifies this`pages, port`events
      ensures View(port) == Store8(old(View(port)), a, val)
    {
      hide Contents, PageIn;
      if a >= MMIO_BASE {
        port.Tell(MmioWrite(a, 1, val as bv32));
        return;
      }
      var page := GetOrCreatePage(IdxOf(a));
      PokeContents(old(pages), IdxOf(a), page, a, val);
      pages := pages[IdxOf(a) := Mapped(page[OffsetOf(a) := val])];
      assert pages == old(pages)[IdxOf(a) := Mapped(page[OffsetOf(a) := val])];
    }

    method ReadU16(port: Port, a: U32) returns (v: bv16)
      modifies port`events
      ensures Read(v, View(port)) == Load16(port.oracle, old(View(port)), a)
    {
      hide Contents, ByteLoad16;
      if a >= MMIO_BASE {
        var r := port.ReadMmio(a, 2);
        return LowHalf(r);
      }
      var offset := OffsetOf(a);
      if a % 2 == 0 || offset + 1 < PAGE_SIZE {
        HalfInPage(port.oracle, View(port), pages, a);
        match pages[IdxOf(a)] {
          case Mapped(page) => return Half(page[offset], page[offset + 1]);
          case Unmapped => return 0;
        }
      }
      v := ReadU16Bytewise(port, a);
    }

    method ReadU16Bytewise(port: Port, a: U32) returns (v: bv16)
      modifies port`events
      ensures Read(v, View(port)) == ByteLoad16(port.oracle, old(View(port)), a)
    {
      hide Contents, Half, Load8;
      var b0 := ReadU8(port, a);
      var b1 := ReadU8(port, Next(a));
      v := Half(b0, b1);
    }

    method WriteU16(port: Port, a: U32, val: bv16)
      modifies this`pages, port`events
      ensures View(port) == Store16(old(View(port)), a, val)
    {
      hide Contents, PageIn, Byte16;
      if a >= MMIO_BASE {
        port.Tell(MmioWrite(a, 2, val as bv32));
        return;
      }
      var offset := OffsetOf(a);
      if a % 2 == 0 || offset + 1 < PAGE_SIZE {
        StoreHalfInPage(View(port), pages, a, val);
        var page := GetOrCreatePage(IdxOf(a));
        page := page[offset := Byte16(val, 0)];
        page := page[offset + 1 := Byte16(val, 1)];
        pages := pages[IdxOf(a) := Mapped(page)];
        assert pages == old(pages)[IdxOf(a) := Mapped(page)];
        return;
      }
      WriteU8(port, a, Byte16(val, 0));
      WriteU8(port, Next(a), Byte16(val, 1));
    }

    method ReadU32(port: Port, a: U32) returns (v: bv32)
      modifies port`events
      ensures Read(v, View(port)) == Load32(port.oracle, old(View(port)), a)
    {
      hide Contents, ByteLoad32;
      if a >= MMIO_BASE {
        v := port.ReadMmio(a, 4);
        return;
      }
      var offset := OffsetOf(a);
      if a % 4 == 0 || offset + 3 < PAGE_SIZE {
        WordInPage(port.oracle, View(port), pages, a);
        match pages[IdxOf(a)] {
          case Mapped(page) => return Word(page[offset], page[offset + 1], page[offset + 2], page[offset + 3]);
          case Unmapped => return 0;
        }
      }
      v := ReadU32Bytewise(port, a);
    }

    method ReadU32Bytewise(port: Port, a: U32) returns (v: bv32)
      modifies port`events
      ensures Read(v, View(port)) == ByteLoad32(port.oracle, old(View(port)), a)
    {
      hide Contents, Word, Load8;
      var b0 := ReadU8(port, a);
      var b1 := ReadU8(port, Next(a));
      var b2 := ReadU8(port, Next(Next(a)));
      var b3 := ReadU8(port, Next(Next(Next(a))));
      v := Word(b0, b1, b2, b3);
    }

    method WriteU32(port: Port, a: U32, val: bv32)
      modifies this`pages, port`events
      ensures View(port) == Store32(old(View(port)), a, val)
    {
      hide Contents, PageIn, Byte, ByteStore32;
      if a >= MMIO_BASE {
        port.Tell(MmioWrite(a, 4, val));
        return;
      }
      var offset := OffsetOf(a);
      if a % 4 == 0 || offset + 3 < PAGE_SIZE {
        StoreWordInPage(View(port), pages, a, val);
        var page := GetOrCreatePage(IdxOf(a));
        page := page[offset := Byte(val, 0)];
        page := page[offset + 1 := Byte(val, 1)];
        page := page[offset + 2 := Byte(val, 2)];
        page := page[offset + 3 := Byte(val, 3)];
        pages := pages[IdxOf(a) := Mapped(page)];
        assert pages == old(pages)[IdxOf(a) := Mapped(page)];
        return;
      }
      WriteU32Bytewise(port, a, val);
    }

    method WriteU32Bytewise(port: Port, a: U32, val: bv32)
      modifies this`pages, port`events
      ensures View(port) == ByteStore32(old(View(port)), a, val)
    {
      hide Contents, Byte, Store8;
      WriteU8(port, a, Byte(val, 0));
      WriteU8(port, Next(a), Byte(val, 1));
      WriteU8(port, Next(Next(a)), Byte(val, 2));
      WriteU8(port, Next(Next(Next(a))), Byte(val, 3));
    }

    /**
     * The halfword at `a` in the low bits, with one page lookup where the whole
     * window lies in one page; `wide` says the high bits are the next halfword.
     */
    method FetchWindow(port: Port, a: U32) returns (window: bv32, wide: bool)
      modifies port`events
      ensures Read(LowHalf(window), View(port)) == Load16(port.oracle, old(View(port)), a)
      ensures wide ==> View(port) == old(View(port))
      ensures wide ==> Load32(port.oracle, View(port), a) == Read(window, View(port))
    {
      hide Contents, Load16, Load32;
      var offset := OffsetOf(a);
      if a < MMIO_BASE && offset + 3 < PAGE_SIZE {
        WordInPage(port.oracle, View(port), pages, a);
        HalfInPage(port.oracle, View(port), pages, a);
        match pages[IdxOf(a)] {
          case Mapped(page) =>
            LowHalfOfWord(page[offset], page[offset + 1], page[offset + 2], page[offset + 3]);
            return Word(page[offset], page[offset + 1], page[offset + 2], page[offset + 3]), true;
          case Unmapped =>
            return 0, false;
        }
      }
      var half := ReadU16(port, a);
      LowHalfOfHalf(half);
      return half as bv32, false;
    }

    /** Instruction fetch as the CPU performs it, on top of `FetchWindow`. */
    method FetchInstruction(port: Port, a: U32) returns (compressed: bool, raw: bv32)
      modifies port`events
      ensures Fetched(compressed, raw, View(port)) == TwoReadFetch(port.oracle, old(View(port)), a)
    {
      hide Contents, Load16, Load32, LowHalf, IsCompressed, ZeroExtend16, TwoReadFetch;
      ghost var s := View(port);
      var window, wide := FetchWindow(port, a);
      var inst16 := LowHalf(window);
      if IsCompressed(inst16) {
        FetchOfHalf(port.oracle, s, a);
        return true, ZeroExtend16(inst16);
      }
      FetchOfWord(port.oracle, s, a);
      if wide {
        return false, window;
      }
      var inst32 := ReadU32(port, a);
      return false, inst32;
    }

    /** The trait's own byte loop. */
    method ReadBytesOneByOne(port: Port, a: U32, len: nat) returns (buf: seq<bv8>)
      modifies port`events
      ensures Read(buf, View(port)) == ByteLoads(port.oracle, old(View(port)), a, len)
    {
      hide Contents, Load8, Wrap, Next, ByteLoads;
      buf := [];
      ghost var whole := ByteLoads(port.oracle, View(port), a, len);
      Wrapping(a, 0);
      assert [] + whole.val == whole.val;
      for i := 0 to len
        invariant |buf| == i
        invariant var rest := ByteLoads(port.oracle, View(port), Wrap(a + i), len - i);
                  buf + rest.val == whole.val && rest.st == whole.st
      {
        LoadsTurn(port.oracle, View(port), Wrap(a + i), len - i);
        Wrapping(a, i);
        var b := ReadU8(port, Wrap(a + i));
        Regroup(buf, [b], ByteLoads(port.oracle, View(port), Wrap(a + i + 1), len - i - 1).val);
        buf := buf + [b];
      }
      NoLoads(port.oracle, View(port), Wrap(a + len));
      assert buf + [] == buf;
    }

    /** The run of bytes at `a`, copied out of its page or filled with zeros. */
    method RunInPage(a: U32, n: nat) returns (chunk: seq<bv8>)
      requires a < MMIO_BASE && OffsetOf(a) + n <= PAGE_SIZE
      ensures chunk == Slice(Contents(pages), a, n)
    {
      hide Contents, Slice;
      var offset := OffsetOf(a);
      CopyOut(pages, a, n);
      match pages[IdxOf(a)] {
        case Mapped(page) => chunk := page[offset..offset + n];
        case Unmapped => chunk := seq(n, _ => 0);
      }
    }

    method ReadBytes(port: Port, a: U32, len: nat) returns (buf: seq<bv8>)
      modifies port`events
      ensures Read(buf, View(port)) == ByteLoads(port.oracle, old(View(port)), a, len)
    {
      hide Contents, ByteLoads, Slice;
      buf := seq(len, _ => 0);
      var curr: U32, done := a, 0;
      ghost var whole := ByteLoads(port.oracle, View(port), a, len);
      while done < len
        invariant 0 <= done <= len == |buf|
        invariant View(port) == old(View(port))
        invariant whole.val == buf[..done] + ByteLoads(port.oracle, View(port), curr, len - done).val
        invariant whole.st == ByteLoads(port.oracle, View(port), curr, len - done).st
      {
        if curr >= MMIO_BASE {
          var tail := ReadBytesOneByOne(port, curr, len - done);
          buf := Splice(buf, done, tail);
          assert buf == buf[..len];
          return;
        }
        var offset := OffsetOf(curr);
        var n := if PAGE_SIZE - offset < len - done then PAGE_SIZE - offset else len - done;
        LoadsBelowMmio(port.oracle, View(port), curr, n, len - done - n);
        var chunk := RunInPage(curr, n);
        buf := Splice(buf, done, chunk);
        curr := curr + n;
        done := done + n;
      }
      NoLoads(port.oracle, View(port), curr);
      assert buf[..done] + [] == buf;
    }

    method WriteBytesOneByOne(port: Port, a: U32, bytes: seq<bv8>)
      modifies this`pages, port`events
      ensures View(port) == ByteStores(old(View(port)), a, bytes)
    {
      hide Contents, Store8, Wrap, Next, ByteStores;
      ghost var whole := ByteStores(View(port), a, bytes);
      Wrapping(a, 0);
      assert bytes[0..] == bytes;
      for i := 0 to |bytes|
        invariant ByteStores(View(port), Wrap(a + i), bytes[i..]) == whole
      {
        assert bytes[i..][0] == bytes[i] && bytes[i..][1..] == bytes[i + 1..];
        StoresTurn(View(port), Wrap(a + i), bytes[i..]);
        Wrapping(a, i);
        WriteU8(port, Wrap(a + i), bytes[i]);
      }
      assert bytes[|bytes|..] == [];
      NoStores(View(port), Wrap(a + |bytes|));
    }

    method WriteBytes(port: Port, a: U32, bytes: seq<bv8>)
      modifies this`pages, port`events
      ensures View(port) == ByteStores(old(View(port)), a, bytes)
    {
      hide Contents, ByteStores, Overlay, PageIn;
      var len := |bytes|;
      var curr: U32, done := a, 0;
      ghost var whole := ByteStores(View(port), a, bytes);
      assert bytes[0..] == bytes;
      while done < len
        invariant 0 <= done <= len
        invariant ByteStores(View(port), curr, bytes[done..]) == whole
      {
        if curr >= MMIO_BASE {
          WriteBytesOneByOne(port, curr, bytes[done..]);
          return;
        }
        var offset := OffsetOf(curr);
        var n := if PAGE_SIZE - offset < len - done then PAGE_SIZE - offset else len - done;
        ghost var chunk := bytes[done..done + n];
        assert bytes[done..] == chunk + bytes[done + n..];
        StoresBelowMmio(View(port), curr, chunk, bytes[done + n..]);
        BlitContents(pages, curr, chunk);
        ghost var before := pages;
        var page := GetOrCreatePage(IdxOf(curr));
        page := Splice(page, offset, bytes[done..done + n]);
        pages := pages[IdxOf(curr) := Mapped(page)];
        assert pages == before[IdxOf(curr) := Mapped(page)];
        curr := curr + n;
        done := done + n;
      }
      ByteStoresNone(View(port), curr, bytes[done..]);
    }

    function GetBrk(): bv32
      reads this
    {
      brkPtr
    }

    method SetBrk(val: bv32, ghost port: Port)
      modifies this`brkPtr
      ensures View(port) == FlatMemory.SetBrk(old(View(port)), val)
    {
      if val >= initialBrk && val < 0xFFFF_0000 {
        brkPtr := val;
      }
    }
  }
}
