/**
 Two encodings the kernel module and the daemon share: page handles, and the layout
 of the memory both of them map.
 */
module Layout {
  import opened Bits
  import opened Pages

  // ------------------------------------------------------------ page handles

  const OFFSET_BITS: nat := 56

  /** `backend << 56 | offset`; an offset that does not fit makes the source panic. */
  function Pack(backend: nat, offset: nat): nat
    requires backend < 256 && offset < Pow2(OFFSET_BITS)
  {
    Or(backend * Pow2(OFFSET_BITS), offset)
  }

  /** `raw >> 56`, cut to eight bits. */
  function BackendOf(raw: nat): nat {
    raw / Pow2(OFFSET_BITS) % 256
  }

  function OffsetOf(raw: nat): nat {
    And(raw, Pow2(OFFSET_BITS) - 1)
  }

  /** Packing loses nothing and stays a 64-bit word. */
  lemma HandleRoundTrip(backend: nat, offset: nat)
    requires backend < 256 && offset < Pow2(56)
    ensures BackendOf(Pack(backend, offset)) == backend && OffsetOf(Pack(backend, offset)) == offset
    ensures Pack(backend, offset) < 256 * Pow2(56)
  {
    hide And, Or, Pow2;
    var p := Pow2(OFFSET_BITS);
    OrShifted(backend, offset, OFFSET_BITS);
    AndMask(backend * p + offset, OFFSET_BITS);
    DivModUnique(backend * p + offset, p, backend, offset);
    MulStep(backend, 256, p);
  }

  /** And every 64-bit word is the handle of exactly one pair. */
  lemma HandleOnto(raw: nat)
    requires raw < 256 * Pow2(56)
    ensures BackendOf(raw) < 256 && OffsetOf(raw) < Pow2(56)
    ensures Pack(BackendOf(raw), OffsetOf(raw)) == raw
  {
    hide And, Or, Pow2;
    var p := Pow2(OFFSET_BITS);
    AndMask(raw, OFFSET_BITS);
    var q := raw / p;
    assert raw == q * p + raw % p;
    if q >= 256 { MulStep(255, q, p); assert false; }
    OrShifted(q, raw % p, OFFSET_BITS);
  }

  // ------------------------------------------------------------ rounding up

  /** `(val + align - 1) & !(align - 1)` on 64-bit words. */
  function AlignUp(val: nat, align: nat): nat
    requires 0 < align < Pow2(64)
  {
    And(val + align - 1, Not64(align - 1))
  }

  /** The least multiple of `align` that is at least `val`. */
  predicate LeastMultiple(r: nat, val: nat, align: nat)
    requires align > 0
  {
    r % align == 0 && val <= r < val + align
  }

  lemma Pow2Step(k: nat)
    ensures Pow2(k + 1) == 2 * Pow2(k)
  {
  }

  lemma AlignUpIsLeast(val: nat, k: nat)
    requires k < 64 && val + Pow2(k) <= Pow2(64)
    ensures Pow2(k) < Pow2(64) && LeastMultiple(AlignUp(val, Pow2(k)), val, Pow2(k))
  {
    hide And, Pow2;
    Pow2Monotone(k, 63);
    Pow2Step(63);
    var p, x := Pow2(k), val + Pow2(k) - 1;
    AndHigh(x, k, 64);
    var q := x / p;
    assert x - x % p == q * p;
    DivModUnique(q * p, p, q, 0);
  }

  // ------------------------------------------------------------ the shared mapping

  const ENTRY: nat := 64

  /** Byte offsets of the four regions, and the size of the whole. */
  datatype Regions = Regions(requests: nat, completions: nat, staging: nat, total: nat)

  /** As the driver lays it out: whole pages, the entries rounded up. */
  function KernelLayout(capacity: nat, stagingPages: nat): Regions {
    var entries := (capacity * ENTRY + PAGE_SIZE - 1) / PAGE_SIZE * PAGE_SIZE;
    Regions(PAGE_SIZE, PAGE_SIZE + entries, PAGE_SIZE + entries + entries,
            PAGE_SIZE + entries + entries + stagingPages * PAGE_SIZE)
  }

  /** As the daemon computes it again from the capacity and staging size in the header. */
  function DaemonLayout(capacity: nat, stagingPages: nat): Regions
    requires PAGE_SIZE < Pow2(64)
  {
    var reqSize := AlignUp(capacity * ENTRY, PAGE_SIZE);
    var compSize := AlignUp(capacity * ENTRY, PAGE_SIZE);
    Regions(PAGE_SIZE, PAGE_SIZE + reqSize, PAGE_SIZE + reqSize + compSize,
            PAGE_SIZE + reqSize + compSize + stagingPages * PAGE_SIZE)
  }

  lemma PageSizeIsPow2()
    ensures PAGE_SIZE == Pow2(12)
  {
    assert Pow2(4) == 16;
    assert Pow2(8) == 256;
  }

  /** The two sides agree on where everything is, for every capacity and staging size. */
  lemma LayoutsAgree(capacity: nat, stagingPages: nat)
    requires capacity < 0x1_0000_0000 && stagingPages < 0x1_0000_0000
    ensures PAGE_SIZE < Pow2(64)
    ensures KernelLayout(capacity, stagingPages) == DaemonLayout(capacity, stagingPages)
  {
    hide And, AlignUp;
    PageSizeIsPow2();
    WordSize();
    AlignUpIsLeast(capacity * ENTRY, 12);
  }

  lemma WordSize()
    ensures Pow2(64) >= 0x100_0000_0000
  {
    assert Pow2(8) == 0x100;
    assert Pow2(16) == 0x1_0000;
    assert Pow2(24) == 0x100_0000;
    assert Pow2(32) == 0x1_0000_0000;
    assert Pow2(40) == 0x100_0000_0000;
    Pow2Monotone(40, 64);
  }

  /**
   The numbers, for a ring of whole pages: the header takes one page, each ring 64 bytes
   an entry, each staged page 4096.
   */
  lemma WholePages(k: nat, stagingPages: nat)
    ensures KernelLayout(64 * k, stagingPages) ==
      Regions(4096, 4096 + 4096 * k, 4096 + 8192 * k, 4096 + 8192 * k + 4096 * stagingPages)
  {
    assert 64 * k * ENTRY == PAGE_SIZE * k;
    assert (PAGE_SIZE * k + PAGE_SIZE - 1) / PAGE_SIZE == k;
  }

  /** The bytes of one object in the mapping: a header field, a ring entry, or a staged page. */
  datatype Place = Field(at: nat) | Request(i: nat) | Completion(i: nat) | Staged(slot: nat)

  /** The header's fields: four indices on cache lines of their own, then the parameters. */
  predicate IsField(at: nat) {
    at in {0, 64, 128, 192, 256, 260, 264}
  }

  predicate Exists(p: Place, capacity: nat, stagingPages: nat) {
    match p
    case Field(at) => IsField(at)
    case Request(i) => i < capacity
    case Completion(i) => i < capacity
    case Staged(slot) => slot < stagingPages
  }

  function Start(p: Place, r: Regions): nat {
    match p
    case Field(at) => at
    case Request(i) => r.requests + i * ENTRY
    case Completion(i) => r.completions + i * ENTRY
    case Staged(slot) => r.staging + slot * PAGE_SIZE
  }

  function Size(p: Place): nat {
    match p
    case Field(_) => 4
    case Request(_) => ENTRY
    case Completion(_) => ENTRY
    case Staged(_) => PAGE_SIZE
  }

  /** No two objects of the mapping share a byte, and all lie inside it. */
  lemma NoOverlap(capacity: nat, stagingPages: nat, p: Place, q: Place)
    requires Exists(p, capacity, stagingPages) && Exists(q, capacity, stagingPages)
    ensures var r := KernelLayout(capacity, stagingPages);
      && Start(p, r) + Size(p) <= r.total
      && (p != q ==> Start(p, r) + Size(p) <= Start(q, r) || Start(q, r) + Size(q) <= Start(p, r))
  {
    var r := KernelLayout(capacity, stagingPages);
    Inside(capacity, stagingPages, p);
    Inside(capacity, stagingPages, q);
  }

  /** Each object lies in its own region, and the regions follow one another. */
  lemma Inside(capacity: nat, stagingPages: nat, p: Place)
    requires Exists(p, capacity, stagingPages)
    ensures var r := KernelLayout(capacity, stagingPages);
      && PAGE_SIZE == r.requests <= r.completions <= r.staging <= r.total
      && (match p
          case Field(_) => Start(p, r) + Size(p) <= r.requests
          case Request(_) => r.requests <= Start(p, r) && Start(p, r) + Size(p) <= r.completions
          case Completion(_) => r.completions <= Start(p, r) && Start(p, r) + Size(p) <= r.staging
          case Staged(_) => r.staging <= Start(p, r) && Start(p, r) + Size(p) <= r.total)
  {
    var e := capacity * ENTRY;
    assert (e + PAGE_SIZE - 1) / PAGE_SIZE * PAGE_SIZE >= e;
  }
}
