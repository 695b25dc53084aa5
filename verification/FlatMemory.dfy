/**
 * Memory as the guest sees it: one byte per address below the device window, and
 * a device call for every access that starts inside it.
 *
 * The `Byte...` functions are the default methods of the `MemoryOps` trait,
 * which do everything one byte at a time. `Load...` and `Store...` are the
 * accesses the CPU makes.
 */
module FlatMemory {
  import opened Bits
  import opened HostImports

  const MMIO_BASE: int := 0xFFFF_0000

  /** Byte contents. A byte never written reads as zero. */
  type Flat = imap<int, bv8>

  function At(bytes: Flat, a: int): bv8 { if a in bytes then bytes[a] else 0 }

  /** Contents, heap break and the trace of host calls so far. */
  datatype Store = Store(bytes: Flat, brk: bv32, initialBrk: bv32, events: seq<Event>)

  datatype Read<T> = Read(val: T, st: Store)

  /** `wrapping_add` on addresses. */
  function Wrap(a: int): U32 { a % WORD }

  /** `a.wrapping_add(1)`. */
  function Next(a: U32): U32 { if a == WORD - 1 then 0 else a + 1 }

  function DeviceRead(o: Oracle, s: Store, a: U32, size: nat): Read<bv32> {
    Read(o.mmioRead(s.events, a, size), s.(events := s.events + [MmioRead(a, size)]))
  }

  function DeviceWrite(s: Store, a: U32, size: nat, val: bv32): Store {
    s.(events := s.events + [MmioWrite(a, size, val)])
  }

  function Load8(o: Oracle, s: Store, a: U32): Read<bv8> {
    if a >= MMIO_BASE then
      var r := DeviceRead(o, s, a, 1);
      Read((r.val & 0xFF) as bv8, r.st)
    else
      Read(At(s.bytes, a), s)
  }

  function Store8(s: Store, a: U32, val: bv8): Store {
    if a >= MMIO_BASE then DeviceWrite(s, a, 1, val as bv32)
    else s.(bytes := s.bytes[a := val])
  }

  // ---- The default methods of the trait ----

  function ByteLoad16(o: Oracle, s: Store, a: U32): Read<bv16> {
    var b0 := Load8(o, s, a);
    var b1 := Load8(o, b0.st, Next(a));
    Read(Half(b0.val, b1.val), b1.st)
  }

  function ByteStore16(s: Store, a: U32, val: bv16): Store {
    Store8(Store8(s, a, Byte16(val, 0)), Next(a), Byte16(val, 1))
  }

  function ByteLoad32(o: Oracle, s: Store, a: U32): Read<bv32> {
    var b0 := Load8(o, s, a);
    var b1 := Load8(o, b0.st, Next(a));
    var b2 := Load8(o, b1.st, Next(Next(a)));
    var b3 := Load8(o, b2.st, Next(Next(Next(a))));
    Read(Word(b0.val, b1.val, b2.val, b3.val), b3.st)
  }

  function ByteStore32(s: Store, a: U32, val: bv32): Store {
    var s1 := Store8(s, a, Byte(val, 0));
    var s2 := Store8(s1, Next(a), Byte(val, 1));
    var s3 := Store8(s2, Next(Next(a)), Byte(val, 2));
    Store8(s3, Next(Next(Next(a))), Byte(val, 3))
  }

  function ByteLoads(o: Oracle, s: Store, a: U32, n: nat): (r: Read<seq<bv8>>)
    ensures |r.val| == n
    ensures r.st == s.(events := r.st.events)
    decreases n
  {
    if n == 0 then Read([], s)
    else
      var first := Load8(o, s, a);
      var rest := ByteLoads(o, first.st, Next(a), n - 1);
      Read([first.val] + rest.val, rest.st)
  }

  function ByteStores(s: Store, a: U32, data: seq<bv8>): Store
    decreases |data|
  {
    if data == [] then s
    else ByteStores(Store8(s, a, data[0]), Next(a), data[1..])
  }

  // ---- What the CPU performs ----

  function Load16(o: Oracle, s: Store, a: U32): Read<bv16> {
    if a >= MMIO_BASE then
      var r := DeviceRead(o, s, a, 2);
      Read(LowHalf(r.val), r.st)
    else
      ByteLoad16(o, s, a)
  }

  function Load32(o: Oracle, s: Store, a: U32): Read<bv32> {
    if a >= MMIO_BASE then DeviceRead(o, s, a, 4) else ByteLoad32(o, s, a)
  }

  function Store16(s: Store, a: U32, val: bv16): Store {
    if a >= MMIO_BASE then DeviceWrite(s, a, 2, val as bv32) else ByteStore16(s, a, val)
  }

  function Store32(s: Store, a: U32, val: bv32): Store {
    if a >= MMIO_BASE then DeviceWrite(s, a, 4, val) else ByteStore32(s, a, val)
  }

  // ---- Instruction fetch ----

  /** An instruction halfword or word, and the memory after fetching it. */
  datatype Fetched = Fetched(compressed: bool, raw: bv32, st: Store)

  predicate IsCompressed(half: bv16) { half & 0x3 != 0x3 }

  /**
   * Fetch as two plain reads: a halfword to classify the instruction and, when
   * it is 32 bits wide, a word to decode it.
   */
  function TwoReadFetch(o: Oracle, s: Store, a: U32): Fetched {
    var half := Load16(o, s, a);
    if IsCompressed(half.val) then Fetched(true, ZeroExtend16(half.val), half.st)
    else
      var word := Load32(o, half.st, a);
      Fetched(false, word.val, word.st)
  }

  lemma FetchOfHalf(o: Oracle, s: Store, a: U32)
    requires IsCompressed(Load16(o, s, a).val)
    ensures TwoReadFetch(o, s, a) == Fetched(true, ZeroExtend16(Load16(o, s, a).val), Load16(o, s, a).st)
  {
    hide Load16, Load32, IsCompressed, ZeroExtend16;
  }

  lemma FetchOfWord(o: Oracle, s: Store, a: U32)
    requires !IsCompressed(Load16(o, s, a).val)
    ensures var word := Load32(o, Load16(o, s, a).st, a);
            TwoReadFetch(o, s, a) == Fetched(false, word.val, word.st)
  {
    hide Load16, Load32, IsCompressed, ZeroExtend16;
  }

  /** `set_brk`: out-of-range requests leave the break alone. */
  function SetBrk(s: Store, val: bv32): Store {
    if !Below(val, s.initialBrk) && Below(val, 0xFFFF_0000) then s.(brk := val) else s
  }

  // ---- Bulk accesses that stay below the device window ----

  /** The contents of `[a, a+n)`. */
  function Slice(bytes: Flat, a: int, n: nat): seq<bv8> {
    seq(n, i => At(bytes, a + i))
  }

  /** `bytes` with `data` laid over it from `a`. */
  function Overlay(bytes: Flat, a: int, data: seq<bv8>): Flat
    decreases |data|
  {
    if data == [] then bytes else Overlay(bytes[a := data[0]], a + 1, data[1..])
  }

  /** `Overlay` byte by byte: the data inside its range, the old contents outside. */
  lemma {:induction false} OverlayAt(bytes: Flat, a: int, data: seq<bv8>, x: int)
    ensures At(Overlay(bytes, a, data), x) == if a <= x < a + |data| then data[x - a] else At(bytes, x)
    ensures x in Overlay(bytes, a, data) <==> x in bytes || a <= x < a + |data|
    decreases |data|
  {
    if data == [] {
    } else {
      OverlayAt(bytes[a := data[0]], a + 1, data[1..], x);
    }
  }

  lemma FirstLoad(o: Oracle, s: Store, a: U32, n: nat)
    requires a < MMIO_BASE && n > 0
    ensures var rest := ByteLoads(o, s, a + 1, n - 1);
            ByteLoads(o, s, a, n) == Read([At(s.bytes, a)] + rest.val, rest.st)
  {
  }

  /** A byte loop over ordinary memory collects its contents and calls no device. */
  lemma {:induction false} LoadsBelowMmio(o: Oracle, s: Store, a: U32, n: nat, more: nat)
    requires a + n <= MMIO_BASE
    ensures ByteLoads(o, s, a, n + more).val == Slice(s.bytes, a, n) + ByteLoads(o, s, a + n, more).val
    ensures ByteLoads(o, s, a, n + more).st == ByteLoads(o, s, a + n, more).st
    decreases n
  {
    hide ByteLoads, At;
    if n == 0 {
      assert Slice(s.bytes, a, 0) == [];
    } else {
      FirstLoad(o, s, a, n + more);
      LoadsBelowMmio(o, s, a + 1, n - 1, more);
      assert Slice(s.bytes, a, n) == [At(s.bytes, a)] + Slice(s.bytes, a + 1, n - 1);
    }
  }

  /** A byte loop writing ordinary memory lays the data over it and calls no device. */
  lemma {:induction false} StoresBelowMmio(s: Store, a: U32, data: seq<bv8>, more: seq<bv8>)
    requires a + |data| <= MMIO_BASE
    ensures ByteStores(s, a, data + more) ==
            ByteStores(s.(bytes := Overlay(s.bytes, a, data)), a + |data|, more)
    decreases |data|
  {
    if data == [] {
      assert data + more == more;
    } else {
      var s1 := Store8(s, a, data[0]);
      StoresBelowMmio(s1, a + 1, data[1..], more);
      assert (data + more)[1..] == data[1..] + more;
    }
  }

  lemma StoresAreOverlay(s: Store, a: U32, data: seq<bv8>)
    requires a + |data| <= MMIO_BASE
    ensures ByteStores(s, a, data) == s.(bytes := Overlay(s.bytes, a, data))
  {
    hide Overlay;
    StoresBelowMmio(s, a, data, []);
    assert data + [] == data;
    assert ByteStores(s.(bytes := Overlay(s.bytes, a, data)), a + |data|, []) == s.(bytes := Overlay(s.bytes, a, data));
  }

  // ---- Bulk accesses anywhere, the device window and wrap-around included ----

  /** The device calls of a byte loop that reads `n` bytes from `a`, in order. */
  function DeviceReads(a: U32, n: nat): seq<Event>
    decreases n
  {
    if n == 0 then []
    else ReadCall(a) + DeviceReads(Next(a), n - 1)
  }

  /** The device call of a byte read at `a`, if there is one. */
  function ReadCall(a: U32): seq<Event> { if a >= MMIO_BASE then [MmioRead(a, 1)] else [] }

  function WriteCall(a: U32, v: bv8): seq<Event> {
    if a >= MMIO_BASE then [MmioWrite(a, 1, v as bv32)] else []
  }

  function DeviceWrites(a: U32, data: seq<bv8>): seq<Event>
    decreases |data|
  {
    if data == [] then []
    else WriteCall(a, data[0]) + DeviceWrites(Next(a), data[1..])
  }

  lemma LoadsTurn(o: Oracle, s: Store, a: U32, n: nat)
    requires n > 0
    ensures var first := Load8(o, s, a);
            var rest := ByteLoads(o, first.st, Next(a), n - 1);
            ByteLoads(o, s, a, n) == Read([first.val] + rest.val, rest.st)
  {
    hide Load8, Next;
  }

  lemma OneLoad(o: Oracle, s: Store, a: U32)
    ensures Load8(o, s, a).st == s.(events := s.events + ReadCall(a))
    ensures a < MMIO_BASE ==> Load8(o, s, a).val == At(s.bytes, a)
  {
    assert s.events + [] == s.events;
  }

  /** A byte loop changes nothing but the trace, where it leaves its device calls in order. */
  lemma {:induction false} LoadsAnywhere(o: Oracle, s: Store, a: U32, n: nat)
    ensures ByteLoads(o, s, a, n).st == s.(events := s.events + DeviceReads(a, n))
    decreases n
  {
    if n == 0 {
      NoLoads(o, s, a);
      assert s.events + [] == s.events;
    } else {
      assert DeviceReads(a, n) == ReadCall(a) + DeviceReads(Next(a), n - 1);
      hide Load8, Next, ByteLoads, DeviceReads, ReadCall;
      LoadsTurn(o, s, a, n);
      OneLoad(o, s, a);
      var s1 := Load8(o, s, a).st;
      LoadsAnywhere(o, s1, Next(a), n - 1);
      Regroup(s.events, ReadCall(a), DeviceReads(Next(a), n - 1));
    }
  }

  lemma Regroup<T>(x: seq<T>, y: seq<T>, z: seq<T>)
    ensures (x + y) + z == x + (y + z)
  {
  }

  lemma NoLoads(o: Oracle, s: Store, a: U32)
    ensures ByteLoads(o, s, a, 0) == Read([], s)
  {
  }

  lemma NextWraps(a: U32, i: nat)
    ensures Wrap(a + 0) == a && Wrap(Next(a) + i) == Wrap(a + i + 1)
  {
  }

  /** And it finds every ordinary byte. */
  lemma {:induction false} LoadedAt(o: Oracle, s: Store, a: U32, n: nat, i: nat)
    requires i < n && Wrap(a + i) < MMIO_BASE
    ensures ByteLoads(o, s, a, n).val[i] == At(s.bytes, Wrap(a + i))
    decreases n
  {
    hide Load8, Next, ByteLoads, Wrap, At;
    LoadsTurn(o, s, a, n);
    OneLoad(o, s, a);
    if i == 0 {
      NextWraps(a, 0);
    } else {
      NextWraps(a, i - 1);
      LoadedAt(o, Load8(o, s, a).st, Next(a), n - 1, i - 1);
    }
  }

  /** The offset of `x` in a buffer at `a`, counting past the end of the address space. */
  function Offset(a: U32, x: U32): U32 { Wrap(x - a) }

  lemma OffsetSteps(a: U32, x: U32)
    ensures x == a ==> Offset(a, x) == 0 && Offset(Next(a), x) == WORD - 1
    ensures x != a ==> Offset(a, x) == Offset(Next(a), x) + 1
  {
  }

  /** What a byte loop that writes `data` at `a` leaves at `x`. */
  function Written(s: Store, a: U32, data: seq<bv8>, x: U32): bv8 {
    if x < MMIO_BASE && Offset(a, x) < |data| then data[Offset(a, x)] else At(s.bytes, x)
  }

  lemma StoresTurn(s: Store, a: U32, data: seq<bv8>)
    requires data != []
    ensures ByteStores(s, a, data) == ByteStores(Store8(s, a, data[0]), Next(a), data[1..])
  {
    hide Store8, Next;
  }

  lemma OneStore(s: Store, a: U32, v: bv8)
    ensures var s' := Store8(s, a, v);
            && s' == s.(bytes := s'.bytes, events := s.events + WriteCall(a, v))
            && forall x: int :: At(s'.bytes, x) == if x == a < MMIO_BASE then v else At(s.bytes, x)
  {
    assert s.events + [] == s.events;
  }

  /** A byte loop changes memory and the trace, where it leaves its device calls in order. */
  lemma {:induction false} StoresAnywhere(s: Store, a: U32, data: seq<bv8>)
    ensures var s' := ByteStores(s, a, data);
            s' == s.(bytes := s'.bytes, events := s.events + DeviceWrites(a, data))
    decreases |data|
  {
    if data == [] {
      NoStores(s, a);
      assert s.events + [] == s.events;
    } else {
      assert DeviceWrites(a, data) == WriteCall(a, data[0]) + DeviceWrites(Next(a), data[1..]);
      hide Store8, Next, ByteStores, At, DeviceWrites, WriteCall;
      var s1 := Store8(s, a, data[0]);
      StoresTurn(s, a, data);
      OneStore(s, a, data[0]);
      StoresAnywhere(s1, Next(a), data[1..]);
      Regroup(s.events, WriteCall(a, data[0]), DeviceWrites(Next(a), data[1..]));
    }
  }

  lemma NoStores(s: Store, a: U32)
    ensures ByteStores(s, a, []) == s
  {
  }

  /** It puts its data into every ordinary byte of its range, and changes no other. */
  lemma {:induction false} StoredAt(s: Store, a: U32, data: seq<bv8>, x: U32)
    requires |data| <= WORD
    ensures At(ByteStores(s, a, data).bytes, x) == Written(s, a, data, x)
    decreases |data|
  {
    hide Store8, Next, ByteStores, At, Offset;
    if data == [] {
      NoStores(s, a);
    } else {
      StoresTurn(s, a, data);
      OneStore(s, a, data[0]);
      StoredAt(Store8(s, a, data[0]), Next(a), data[1..], x);
      OffsetSteps(a, x);
    }
  }

  /** Below the device window there is nobody to tell. */
  lemma {:induction false} NoDeviceCalls(a: U32, data: seq<bv8>)
    requires a + |data| <= MMIO_BASE
    ensures DeviceReads(a, |data|) == [] && DeviceWrites(a, data) == []
    decreases |data|
  {
    if data == [] {
    } else {
      NoDeviceCalls(Next(a), data[1..]);
    }
  }
}
