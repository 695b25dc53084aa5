/**
 * Loading a relocatable object file: where its sections go and what memory holds
 * afterwards. The section list is already parsed.
 */
module Loader {
  import opened Bits
  import opened HostImports
  import opened FlatMemory
  import opened PagedMemory

  const SHT_PROGBITS: nat := 1
  const SHT_NOBITS: nat := 8

  /** A section header. `alloc` is the SHF_ALLOC bit of its flags. */
  datatype Section = Section(addr: nat, size: nat, offset: nat, align: nat, kind: nat, alloc: bool)

  /**
   * The header as the loader uses it: sizes and file offsets of 64 bits are cast to
   * `usize`, which has 32 bits in the wasm build.
   */
  function Cast(s: Section, usize: nat): Section
    requires usize > 0
  {
    s.(size := s.size % usize, offset := s.offset % usize)
  }

  function CastAll(headers: seq<Section>, usize: nat): (r: seq<Section>)
    requires usize > 0
    ensures |r| == |headers|
  {
    seq(|headers|, i requires 0 <= i < |headers| => Cast(headers[i], usize))
  }

  /** A header whose fields fit is used as it is. */
  lemma CastKeeps(headers: seq<Section>, usize: nat)
    requires usize > 0 && forall i :: 0 <= i < |headers| ==> headers[i].size < usize && headers[i].offset < usize
    ensures CastAll(headers, usize) == headers
  {
    forall i | 0 <= i < |headers|
      ensures CastAll(headers, usize)[i] == headers[i]
    {
      FitsUnchanged(headers[i].size, usize);
      FitsUnchanged(headers[i].offset, usize);
    }
  }

  lemma FitsUnchanged(n: nat, usize: nat)
    requires n < usize
    ensures n % usize == n
  {
    DivUnique(n, usize, 0, n);
  }

  predicate IsLoaded(s: Section) { s.size > 0 && (s.alloc || s.kind == SHT_PROGBITS) }

  function Alignment(s: Section): nat { if s.align > 0 then s.align else 4 }

  /** `(current + align - 1) & !(align - 1)` on words. */
  function AlignUp(current: bv32, align: bv32): bv32 {
    Clear(Minus(Plus(current, align), 1), Minus(align, 1))
  }

  /** Address of a section, and where placement goes on. */
  datatype Placed = Placed(addr: bv32, current: bv32)

  function Place(s: Section, current: bv32): Placed {
    if !IsLoaded(s) then Placed(0, current)
    else if s.addr != 0 then Placed(FromNat(s.addr), current)
    else
      var addr := AlignUp(current, FromNat(Alignment(s)));
      Placed(addr, Plus(addr, FromNat(s.size)))
  }

  const FIRST_ADDRESS: bv32 := 0x1_0000

  function Layout(sections: seq<Section>, current: bv32): (r: seq<bv32>)
    ensures |r| == |sections|
    decreases |sections|
  {
    if sections == [] then []
    else
      var p := Place(sections[0], current);
      [p.addr] + Layout(sections[1..], p.current)
  }

  /** The section has bytes in the file, and they are there. */
  predicate HasBytes(s: Section, file: seq<bv8>) {
    IsLoaded(s) && s.kind != SHT_NOBITS && s.offset + s.size <= |file|
  }

  function Bytes(s: Section, file: seq<bv8>): seq<bv8>
    requires HasBytes(s, file)
  {
    file[s.offset..s.offset + s.size]
  }

  /** Memory after loading the sections in order. */
  function Image(st: Store, sections: seq<Section>, file: seq<bv8>, current: bv32): Store
    decreases |sections|
  {
    if sections == [] then st
    else
      var s, p := sections[0], Place(sections[0], current);
      var st1 := if HasBytes(s, file) then ByteStores(st, Value(p.addr), Bytes(s, file)) else st;
      Image(st1, sections[1..], file, p.current)
  }

  /** The loop of `load_binary_with_args` over a file without program headers; `usize` is 2^32 or 2^64. */
  method LoadSections(mem: Memory, port: Port, headers: seq<Section>, file: seq<bv8>, usize: nat)
    returns (addrs: seq<bv32>)
    requires usize > 0
    modifies mem`pages, port`events
    ensures addrs == Layout(CastAll(headers, usize), FIRST_ADDRESS)
    ensures mem.View(port) == Image(old(mem.View(port)), CastAll(headers, usize), file, FIRST_ADDRESS)
  {
    hide ByteStores, Contents, HasBytes, Value, Cast, Place, Layout, Image;
    addrs := [];
    var current := FIRST_ADDRESS;
    ghost var sections := CastAll(headers, usize);
    assert [] + Layout(sections, current) == Layout(sections, current);
    ghost var image := Image(mem.View(port), sections, file, current);
    assert sections[0..] == sections;
    for i := 0 to |headers|
      invariant |addrs| == i
      invariant addrs + Layout(sections[i..], current) == Layout(sections, FIRST_ADDRESS)
      invariant Image(mem.View(port), sections[i..], file, current) == image
    {
      var s := Cast(headers[i], usize);
      assert sections[i..][0] == s && sections[i..][1..] == sections[i + 1..];
      var p := Place(s, current);
      LoadTurn(mem.View(port), sections[i..], file, current);
      Regroup(addrs, [p.addr], Layout(sections[i + 1..], p.current));
      addrs := addrs + [p.addr];
      if HasBytes(s, file) {
        mem.WriteBytes(port, Value(p.addr), Bytes(s, file));
      }
      current := p.current;
    }
    LoadEnds(mem.View(port), sections[|headers|..], file, current);
    assert addrs + [] == addrs;
  }

  /** One turn of the loop, and its end. */
  lemma LoadTurn(st: Store, sections: seq<Section>, file: seq<bv8>, current: bv32)
    requires sections != []
    ensures var s, p := sections[0], Place(sections[0], current);
            var st1 := if HasBytes(s, file) then ByteStores(st, Value(p.addr), Bytes(s, file)) else st;
            && Layout(sections, current) == [p.addr] + Layout(sections[1..], p.current)
            && Image(st, sections, file, current) == Image(st1, sections[1..], file, p.current)
  {
    hide ByteStores, HasBytes, Place, Value;
  }

  lemma LoadEnds(st: Store, sections: seq<Section>, file: seq<bv8>, current: bv32)
    requires sections == []
    ensures Layout(sections, current) == [] && Image(st, sections, file, current) == st
  {
  }

  // ---- When placement is faithful ----

  /** Round up to a multiple of `align`. */
  function RoundUp(n: nat, align: nat): nat
    requires align > 0
  {
    (n + align - 1) / align * align
  }

  ghost predicate IsPowerOfTwo(n: nat) { exists k: nat :: Pow2(k) == n }

  /** Where placement ends, in unbounded arithmetic. */
  function End(sections: seq<Section>, current: nat): nat
    decreases |sections|
  {
    if sections == [] then current
    else if !IsLoaded(sections[0]) then End(sections[1..], current)
    else End(sections[1..], RoundUp(current, Alignment(sections[0])) + sections[0].size)
  }

  /**
   * A relocatable object: no fixed addresses, alignments that are powers of two, file
   * ranges in bounds, and room for it.
   */
  ghost predicate Relocatable(sections: seq<Section>, file: seq<bv8>, current: nat) {
    && (forall i :: 0 <= i < |sections| && IsLoaded(sections[i]) ==>
          && sections[i].addr == 0
          && (sections[i].align > 0 ==> IsPowerOfTwo(sections[i].align))
          && (sections[i].kind != SHT_NOBITS ==> sections[i].offset + sections[i].size <= |file|))
    && End(sections, current) <= MMIO_BASE
  }

  lemma {:induction false} EndGrows(sections: seq<Section>, current: nat)
    ensures End(sections, current) >= current
    decreases |sections|
  {
    hide RoundUp;
    if sections == [] {
    } else {
      if IsLoaded(sections[0]) {
        RoundUpFacts(current, Alignment(sections[0]));
        EndGrows(sections[1..], RoundUp(current, Alignment(sections[0])) + sections[0].size);
      } else {
        EndGrows(sections[1..], current);
      }
    }
  }

  lemma RoundUpFacts(n: nat, align: nat)
    requires align > 0
    ensures RoundUp(n, align) >= n && RoundUp(n, align) % align == 0
  {
    DivModExact(n + align - 1, align);
    MultipleMod((n + align - 1) / align, align);
  }

  lemma MultipleMod(q: nat, d: nat)
    requires d > 0
    ensures (q * d) % d == 0
  {
    DivModExact(q * d, d);
    DivUnique(q * d, d, q, 0);
  }

  /** On words, the mask of the source is rounding up, as long as nothing wraps. */
  lemma AlignUpIsRoundUp(n: nat, align: nat)
    requires IsPowerOfTwo(align)
    ensures align > 0 && AlignUp(FromNat(n), FromNat(align)) == FromNat(RoundUp(n, align))
  {
    hide FromNat, Plus, Minus, Clear;
    var k: nat :| Pow2(k) == align;
    FromNatPlus(n, align);
    MinusOne(n + align);
    MinusOne(align);
    ClearLowBits(n + align - 1, k, align);
  }

  lemma MinusOne(n: nat)
    requires n > 0
    ensures Minus(FromNat(n), 1) == FromNat(n - 1)
  {
    hide FromNat;
    FromNatSucc(n - 1);
    BackOne(FromNat(n - 1));
  }

  lemma BackOne(x: bv32)
    ensures (x + 1) - 1 == x
  {
  }

  lemma FourIsAPower()
    ensures IsPowerOfTwo(4)
  {
    assert Pow2(2) == 4 by {
      assert Pow2(0) == 1 && Pow2(1) == 2;
    }
  }

  /** Placing one section of a relocatable object. */
  lemma PlaceHead(sections: seq<Section>, file: seq<bv8>, current: nat)
    requires sections != [] && Relocatable(sections, file, current)
    ensures var s := sections[0];
            var at := RoundUp(current, Alignment(s));
            var next := if IsLoaded(s) then at + s.size else current;
            && Relocatable(sections[1..], file, next)
            && next <= End(sections, current) <= MMIO_BASE
            && (IsLoaded(s) ==>
                Place(s, FromNat(current)) == Placed(FromNat(at), FromNat(next)) && Value(FromNat(at)) == at)
            && (!IsLoaded(s) ==> Place(s, FromNat(current)) == Placed(0, FromNat(current)))
            && (IsLoaded(s) && s.kind != SHT_NOBITS ==> HasBytes(s, file))
  {
    hide RoundUp, AlignUp, FromNat, Plus, Value;
    var s := sections[0];
    var next := if IsLoaded(s) then RoundUp(current, Alignment(s)) + s.size else current;
    EndGrows(sections[1..], next);
    if IsLoaded(s) {
      FourIsAPower();
      AlignUpIsRoundUp(current, Alignment(s));
      FromNatPlus(RoundUp(current, Alignment(s)), s.size);
      FromNatValue(RoundUp(current, Alignment(s)));
    }
  }

  /** The range a section occupies, if it is loaded. */
  predicate InRange(s: Section, at: bv32, x: int) {
    IsLoaded(s) && Value(at) <= x < Value(at) + s.size
  }

  /** Placed sections are aligned, lie between `current` and the end, and follow one another. */
  lemma {:induction false} PlacementIsSound(sections: seq<Section>, file: seq<bv8>, current: nat)
    requires Relocatable(sections, file, current)
    ensures var at := Layout(sections, FromNat(current));
            && (forall i :: 0 <= i < |sections| && IsLoaded(sections[i]) ==>
                  && Value(at[i]) % Alignment(sections[i]) == 0
                  && current <= Value(at[i])
                  && Value(at[i]) + sections[i].size <= MMIO_BASE)
            && (forall i, j :: 0 <= i < j < |sections| && IsLoaded(sections[i]) && IsLoaded(sections[j]) ==>
                  Value(at[i]) + sections[i].size <= Value(at[j]))
    decreases |sections|
  {
    hide RoundUp, FromNat, Value, Place, Relocatable;
    if sections == [] {
    } else {
      var s, rest := sections[0], sections[1..];
      var next := if IsLoaded(s) then RoundUp(current, Alignment(s)) + s.size else current;
      PlaceHead(sections, file, current);
      RoundUpFacts(current, Alignment(s));
      PlacementIsSound(rest, file, next);
      var at, tail := Layout(sections, FromNat(current)), Layout(rest, FromNat(next));
      assert at[1..] == tail;
      forall i | 0 <= i < |sections| && IsLoaded(sections[i])
        ensures Value(at[i]) % Alignment(sections[i]) == 0 && current <= Value(at[i])
                && Value(at[i]) + sections[i].size <= MMIO_BASE
      {
        if i > 0 {
          assert sections[i] == rest[i - 1] && at[i] == tail[i - 1];
        }
      }
      forall i, j | 0 <= i < j < |sections| && IsLoaded(sections[i]) && IsLoaded(sections[j])
        ensures Value(at[i]) + sections[i].size <= Value(at[j])
      {
        assert sections[j] == rest[j - 1] && at[j] == tail[j - 1];
        if i > 0 {
          assert sections[i] == rest[i - 1] && at[i] == tail[i - 1];
        }
      }
    }
  }

  /**
   * Placement wastes nothing: a loaded section without an address starts at the
   * first multiple of its alignment, four if it names none, from `current` on, and
   * the next one is placed from its end.
   */
  lemma PlacementIsTight(sections: seq<Section>, file: seq<bv8>, current: nat)
    requires sections != [] && Relocatable(sections, file, current)
    requires sections[0].size > 0 && (sections[0].alloc || sections[0].kind == 1)
    ensures var s, at := sections[0], Value(Layout(sections, FromNat(current))[0]);
            var align := if s.align == 0 then 4 else s.align;
            && at % align == 0 && current <= at < current + align
            && Layout(sections, FromNat(current))[1..] == Layout(sections[1..], FromNat(at + s.size))
  {
    hide FromNat, Value, Place, Relocatable;
    PlaceHead(sections, file, current);
    RoundUpFacts(current, Alignment(sections[0]));
    RoundUpIsNext(current, Alignment(sections[0]));
  }

  lemma RoundUpIsNext(n: nat, align: nat)
    requires align > 0
    ensures RoundUp(n, align) < n + align
  {
    DivModExact(n + align - 1, align);
  }

  /** Memory after the head section. */
  function AfterHead(st: Store, s: Section, file: seq<bv8>, at: nat): Store
  {
    if HasBytes(s, file) then st.(bytes := Overlay(st.bytes, at, Bytes(s, file))) else st
  }

  lemma ImageOfHead(st: Store, sections: seq<Section>, file: seq<bv8>, current: nat)
    requires sections != [] && Relocatable(sections, file, current)
    ensures var s := sections[0];
            var at := RoundUp(current, Alignment(s));
            var next := if IsLoaded(s) then at + s.size else current;
            Image(st, sections, file, FromNat(current)) ==
            Image(AfterHead(st, s, file, at), sections[1..], file, FromNat(next))
  {
    hide RoundUp, FromNat, Value, Place, Relocatable, ByteStores, Overlay;
    var s := sections[0];
    var at := RoundUp(current, Alignment(s));
    PlaceHead(sections, file, current);
    if HasBytes(s, file) {
      StoresAreOverlay(st, at, Bytes(s, file));
    }
  }

  /** Loading from `current` leaves every byte below `current` alone, and calls no device. */
  lemma {:induction false} ImageBelow(st: Store, sections: seq<Section>, file: seq<bv8>, current: nat, x: int)
    requires Relocatable(sections, file, current) && x < current
    ensures At(Image(st, sections, file, FromNat(current)).bytes, x) == At(st.bytes, x)
    ensures Image(st, sections, file, FromNat(current)) ==
            st.(bytes := Image(st, sections, file, FromNat(current)).bytes)
    decreases |sections|
  {
    hide RoundUp, FromNat, Value, Place, Relocatable, ByteStores, Overlay, Image;
    if sections == [] {
      LoadEnds(st, sections, file, FromNat(current));
    } else {
      var s := sections[0];
      var at := RoundUp(current, Alignment(s));
      var next := if IsLoaded(s) then at + s.size else current;
      PlaceHead(sections, file, current);
      ImageOfHead(st, sections, file, current);
      RoundUpFacts(current, Alignment(s));
      ImageBelow(AfterHead(st, s, file, at), sections[1..], file, next, x);
      if HasBytes(s, file) {
        OverlayAt(st.bytes, at, Bytes(s, file), x);
      }
    }
  }

  /** What a loaded section must read as: its file bytes, or the bytes memory had if it has none. */
  function Expected(st: Store, s: Section, file: seq<bv8>, at: int, x: int): bv8
    requires at <= x < at + s.size
  {
    if HasBytes(s, file) then Bytes(s, file)[x - at] else At(st.bytes, x)
  }

  lemma LayoutOfHead(sections: seq<Section>, file: seq<bv8>, current: nat)
    requires sections != [] && Relocatable(sections, file, current) && IsLoaded(sections[0])
    ensures Value(Layout(sections, FromNat(current))[0]) == RoundUp(current, Alignment(sections[0]))
  {
    hide RoundUp, FromNat, Value, Place, Relocatable;
    PlaceHead(sections, file, current);
  }

  lemma LayoutOfTail(sections: seq<Section>, file: seq<bv8>, current: nat, i: nat)
    requires 0 < i < |sections| && Relocatable(sections, file, current)
    ensures var s := sections[0];
            var next := if IsLoaded(s) then RoundUp(current, Alignment(s)) + s.size else current;
            Layout(sections, FromNat(current))[i] == Layout(sections[1..], FromNat(next))[i - 1]
  {
    hide RoundUp, FromNat, Value, Place, Relocatable;
    PlaceHead(sections, file, current);
  }

  lemma ImageAtHead(st: Store, sections: seq<Section>, file: seq<bv8>, current: nat, x: int)
    requires sections != [] && Relocatable(sections, file, current) && IsLoaded(sections[0])
    requires RoundUp(current, Alignment(sections[0])) <= x < RoundUp(current, Alignment(sections[0])) + sections[0].size
    ensures At(Image(st, sections, file, FromNat(current)).bytes, x) ==
            Expected(st, sections[0], file, RoundUp(current, Alignment(sections[0])), x)
  {
    hide RoundUp, FromNat, Relocatable, Image, Place, At, AfterHead, Expected, IsLoaded, HasBytes, Value;
    var s := sections[0];
    var at := RoundUp(current, Alignment(s));
    PlaceHead(sections, file, current);
    ImageOfHead(st, sections, file, current);
    ImageBelow(AfterHead(st, s, file, at), sections[1..], file, at + s.size, x);
    HeadByte(st, s, file, at, x);
  }

  lemma HeadByte(st: Store, s: Section, file: seq<bv8>, at: nat, x: int)
    requires at <= x < at + s.size
    ensures At(AfterHead(st, s, file, at).bytes, x) == Expected(st, s, file, at, x)
  {
    hide Overlay, At;
    if HasBytes(s, file) {
      OverlayAt(st.bytes, at, Bytes(s, file), x);
    }
  }

  /** What a later section must read as does not depend on the head. */
  lemma ExpectedAfterHead(st: Store, head: Section, file: seq<bv8>, at: nat, s: Section, a: int, x: int)
    requires a <= x < a + s.size && (IsLoaded(head) ==> at + head.size <= x)
    ensures Expected(AfterHead(st, head, file, at), s, file, a, x) == Expected(st, s, file, a, x)
  {
    hide Overlay, At;
    if HasBytes(head, file) {
      OverlayAt(st.bytes, at, Bytes(head, file), x);
    }
  }

  lemma {:induction false} ImageAt(st: Store, sections: seq<Section>, file: seq<bv8>, current: nat, i: nat, x: int)
    requires Relocatable(sections, file, current) && i < |sections|
    requires InRange(sections[i], Layout(sections, FromNat(current))[i], x)
    ensures At(Image(st, sections, file, FromNat(current)).bytes, x) ==
            Expected(st, sections[i], file, Value(Layout(sections, FromNat(current))[i]), x)
    decreases |sections|
  {
    hide RoundUp, FromNat, Value, Place, Relocatable, Image, Layout, Expected, AfterHead, IsLoaded;
    var s, rest := sections[0], sections[1..];
    var at := RoundUp(current, Alignment(s));
    var next := if IsLoaded(s) then at + s.size else current;
    if i == 0 {
      LayoutOfHead(sections, file, current);
      ImageAtHead(st, sections, file, current, x);
    } else {
      PlaceHead(sections, file, current);
      ImageOfHead(st, sections, file, current);
      LayoutOfTail(sections, file, current, i);
      PlacementIsSound(rest, file, next);
      ImageAt(AfterHead(st, s, file, at), rest, file, next, i - 1, x);
      ExpectedAfterHead(st, s, file, at, sections[i], Value(Layout(sections, FromNat(current))[i]), x);
    }
  }

  /** What a section of the object holds: its file bytes, or zeros if it is NOBITS. */
  function Payload(s: Section, file: seq<bv8>): seq<bv8>
    requires s.kind == SHT_NOBITS || s.offset + s.size <= |file|
  {
    if s.kind == SHT_NOBITS then seq(s.size, _ => 0) else file[s.offset..s.offset + s.size]
  }

  lemma SectionReadsBack(st: Store, sections: seq<Section>, file: seq<bv8>, i: nat)
    requires Relocatable(sections, file, 0x1_0000) && forall x: int :: At(st.bytes, x) == 0
    requires i < |sections| && IsLoaded(sections[i])
    ensures FlatMemory.Slice(Image(st, sections, file, FIRST_ADDRESS).bytes,
            Value(Layout(sections, FIRST_ADDRESS)[i]), sections[i].size) ==
            Payload(sections[i], file)
  {
    hide FromNat, Value, Image, Layout, End;
    FirstAddress();
    var s, a := sections[i], Value(Layout(sections, FIRST_ADDRESS)[i]);
    var got := FlatMemory.Slice(Image(st, sections, file, FIRST_ADDRESS).bytes, a, s.size);
    var want := Payload(s, file);
    forall k | 0 <= k < s.size
      ensures got[k] == want[k]
    {
      ImageAt(st, sections, file, 0x1_0000, i, a + k);
    }
  }

  /**
   * Loading is faithful. Sections of a relocatable object are aligned and pairwise
   * disjoint, and in a memory that was zero every section with file bytes reads
   * back exactly those bytes and every NOBITS section reads as zero.
   */
  lemma LoadingIsFaithful(st: Store, sections: seq<Section>, file: seq<bv8>)
    requires Relocatable(sections, file, 0x1_0000) && forall x: int :: At(st.bytes, x) == 0
    ensures var at := Layout(sections, FIRST_ADDRESS);
            var st' := Image(st, sections, file, FIRST_ADDRESS);
            && (forall i :: 0 <= i < |sections| && IsLoaded(sections[i]) ==>
                  Value(at[i]) % Alignment(sections[i]) == 0 && Value(at[i]) + sections[i].size <= MMIO_BASE)
            && (forall i, j :: 0 <= i < j < |sections| && IsLoaded(sections[i]) && IsLoaded(sections[j]) ==>
                  Value(at[i]) + sections[i].size <= Value(at[j]))
            && (forall i :: 0 <= i < |sections| && IsLoaded(sections[i]) ==>
                  FlatMemory.Slice(st'.bytes, Value(at[i]), sections[i].size) == Payload(sections[i], file))
            && st'.events == st.events
  {
    hide FromNat, Value, Image, Layout, End;
    FirstAddress();
    PlacementIsSound(sections, file, 0x1_0000);
    ImageBelow(st, sections, file, 0x1_0000, 0);
    var at := Layout(sections, FIRST_ADDRESS);
    var st' := Image(st, sections, file, FIRST_ADDRESS);
    forall i | 0 <= i < |sections| && IsLoaded(sections[i])
      ensures FlatMemory.Slice(st'.bytes, Value(at[i]), sections[i].size) == Payload(sections[i], file)
    {
      SectionReadsBack(st, sections, file, i);
    }
  }

  lemma FirstAddress()
    ensures FromNat(0x1_0000) == FIRST_ADDRESS
  {
    hide FromNat;
    FromNatValue(0x1_0000);
    ValueIsInjective(FromNat(0x1_0000), 0x1_0000);
  }

  // ---- Sections with fixed addresses ----

  /** The section covers `x` with bytes of the file. */
  predicate Covers(s: Section, x: int) {
    s.size > 0 && (s.alloc || s.kind == 1) && s.kind != 8 && s.addr <= x < s.addr + s.size
  }

  /** A linked object: every loaded section has an address below the device window and its bytes in the file. */
  ghost predicate Linked(sections: seq<Section>, file: seq<bv8>) {
    forall i :: 0 <= i < |sections| && sections[i].size > 0 && (sections[i].alloc || sections[i].kind == 1) ==>
      && sections[i].addr != 0 && sections[i].addr + sections[i].size <= 0xFFFF_0000
      && (sections[i].kind != 8 ==> sections[i].offset + sections[i].size <= |file|)
  }

  /** One section of a linked object stays where it is, and placement goes on from where it was. */
  lemma FixedHead(st: Store, sections: seq<Section>, file: seq<bv8>, current: bv32)
    requires sections != [] && Linked(sections, file)
    ensures var s := sections[0];
            && Layout(sections, current) == [if IsLoaded(s) then FromNat(s.addr)
               else 0] + Layout(sections[1..], current)
            && Image(st, sections, file, current) == Image(AfterHead(st, s, file, s.addr), sections[1..], file, current)
            && (IsLoaded(s) ==> Value(FromNat(s.addr)) == s.addr)
            && Linked(sections[1..], file)
  {
    hide FromNat, Value, ByteStores, Overlay, AlignUp, Plus, Layout, Image;
    var s := sections[0];
    LoadTurn(st, sections, file, current);
    if IsLoaded(s) {
      FromNatValue(s.addr);
    }
    if HasBytes(s, file) {
      StoresAreOverlay(st, s.addr, Bytes(s, file));
    }
  }

  /** Fixed addresses are kept. */
  lemma {:induction false} FixedLayout(sections: seq<Section>, file: seq<bv8>, current: bv32, i: nat)
    requires Linked(sections, file) && i < |sections|
    requires sections[i].size > 0 && (sections[i].alloc || sections[i].kind == 1)
    ensures Value(Layout(sections, current)[i]) == sections[i].addr
    decreases |sections|
  {
    hide FromNat, Value, Layout, Image, Linked, AfterHead;
    FixedHead(Store(imap[], 0, 0, []), sections, file, current);
    if i == 0 {
    } else {
      FixedLayout(sections[1..], file, current, i - 1);
    }
  }

  /** A byte that no section covers keeps its value. */
  lemma {:induction false} FixedOutside(st: Store, sections: seq<Section>, file: seq<bv8>, current: bv32, x: int)
    requires Linked(sections, file) && forall i :: 0 <= i < |sections| ==> !Covers(sections[i], x)
    ensures At(Image(st, sections, file, current).bytes, x) == At(st.bytes, x)
    decreases |sections|
  {
    hide FromNat, Value, Layout, Image, Linked, At, Overlay;
    if sections == [] {
      LoadEnds(st, sections, file, current);
    } else {
      var s := sections[0];
      FixedHead(st, sections, file, current);
      FixedOutside(AfterHead(st, s, file, s.addr), sections[1..], file, current, x);
      if HasBytes(s, file) {
        OverlayAt(st.bytes, s.addr, Bytes(s, file), x);
      }
    }
  }

  /** A byte that one section alone covers is that section's byte in the file. */
  lemma {:induction false} FixedByte(st: Store, sections: seq<Section>, file: seq<bv8>, current: bv32, i: nat, x: int)
    requires Linked(sections, file) && i < |sections| && Covers(sections[i], x)
    requires forall j :: 0 <= j < |sections| && j != i ==> !Covers(sections[j], x)
    ensures 0 <= sections[i].offset + x - sections[i].addr < |file|
    ensures At(Image(st, sections, file, current).bytes, x) == file[sections[i].offset + x - sections[i].addr]
    decreases |sections|
  {
    InFile(sections, file, i);
    hide FromNat, Value, Layout, Image, Linked, At, Overlay;
    var s := sections[0];
    FixedHead(st, sections, file, current);
    if i == 0 {
      FixedOutside(AfterHead(st, s, file, s.addr), sections[1..], file, current, x);
      OverlayAt(st.bytes, s.addr, Bytes(s, file), x);
    } else {
      FixedByte(AfterHead(st, s, file, s.addr), sections[1..], file, current, i - 1, x);
    }
  }

  lemma InFile(sections: seq<Section>, file: seq<bv8>, i: nat)
    requires Linked(sections, file) && i < |sections|
    ensures sections[i].size > 0 && (sections[i].alloc || sections[i].kind == 1) && sections[i].kind != 8 ==>
              sections[i].offset + sections[i].size <= |file|
  {
  }
}
