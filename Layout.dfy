/** Word, tag and layout arithmetic of the low-level bindings: alignment
    rounding, reading an object's type from its tagged header, field
    descriptors of three widths, the generational write barrier and the
    store into an array of pointers. A 64-bit target is modelled: `usize`
    and pointers are words below 2^64, and bitwise operations are stated on
    natural numbers, bit by bit. */
module Layout {
  import opened Common

  const WORD_MODULUS: nat := 0x1_0000_0000_0000_0000
  /** `usize`, and every pointer, on a 64-bit target. */
  type Word = x: nat | x < WORD_MODULUS
  const NULL: Word := 0
  /** size_of::<jl_taggedvalue_t>(): the one header word in front of every object. */
  const TAGGED_SIZE: Word := 8
  /** size_of::<jl_sym_t>(): the links `left`, `right` and the `hash` word. */
  const SYM_SIZE: Word := 24
  /** size_of::<*mut c_void>(). */
  const POINTER_SIZE: Word := 8

  type Byte = b: nat | b < 256

  function Pow2(k: nat): (r: nat)
    ensures r >= 1
  {
    if k == 0 then 1 else 2 * Pow2(k - 1)
  }

  function Pow256(n: nat): (r: nat)
    ensures r >= 1
  {
    if n == 0 then 1 else 256 * Pow256(n - 1)
  }

  /** Reduction modulo 2^64: `usize` arithmetic as a build without overflow
      checks computes it. With overflow checks on, the operations that would
      wrap panic instead. */
  function WrapWord(x: int): Word
  {
    x % WORD_MODULUS
  }

  /** `a & b` on unsigned integers, computed from the least significant bit. */
  function BitAnd(a: nat, b: nat): (r: nat)
    ensures r <= a && r <= b
    decreases a
  {
    if a == 0 || b == 0 then 0
    else 2 * BitAnd(a / 2, b / 2) + (if a % 2 == 1 && b % 2 == 1 then 1 else 0)
  }

  /** `!a` on a 64-bit word. */
  function WordNot(a: Word): Word
  {
    WORD_MODULUS - 1 - a
  }

  // ---------------------------------------------------------------------
  // Arithmetic facts about masks

  lemma Pow2Is2To64()
    ensures Pow2(64) == WORD_MODULUS
  {
    assert Pow2(1) == 2 && Pow2(2) == 4;
    Pow2Add(2, 2);
    Pow2Add(4, 4);
    Pow2Add(8, 8);
    Pow2Add(16, 16);
    Pow2Add(32, 32);
  }

  lemma {:induction false} Pow2Add(a: nat, b: nat)
    ensures Pow2(a + b) == Pow2(a) * Pow2(b)
  {
    if a > 0 {
      Pow2Add(a - 1, b);
      assert Pow2(a + b) == 2 * Pow2(a - 1 + b);
    }
  }

  lemma {:induction false} Pow2Monotone(a: nat, b: nat)
    requires a < b
    ensures Pow2(a) < Pow2(b)
  {
    if b - 1 > a {
      Pow2Monotone(a, b - 1);
    }
  }

  /** `2^n - 2^k`, the mask of bits k to n - 1. */
  function HighMask(n: nat, k: nat): (m: nat)
    requires k <= n
    ensures m == Pow2(n) - Pow2(k)
  {
    if k < n then Pow2Monotone(k, n); Pow2(n) - Pow2(k) else 0
  }

  lemma MulStep(a: nat, b: nat, d: nat)
    requires a < b
    ensures a * d + d <= b * d
  {
    var c := b - a - 1;
    assert b * d == a * d + d + c * d;
  }

  /** Division with remainder has one answer. */
  lemma DivModUnique(y: nat, d: nat, q: nat, r: nat)
    requires d > 0 && r < d && y == q * d + r
    ensures y / d == q && y % d == r
  {
    var q', r' := y / d, y % d;
    assert y == q' * d + r';
    if q' > q {
      MulStep(q, q', d);
      assert false;
    }
    if q' < q {
      MulStep(q', q, d);
      assert false;
    }
  }

  /** Two distinct multiples of d are at least d apart. */
  lemma MultiplesSpaced(m: nat, r: nat, d: nat)
    requires d > 0 && m % d == 0 && r % d == 0 && m < r
    ensures m + d <= r
  {
    assert m == (m / d) * d && r == (r / d) * d;
    if m / d >= r / d {
      MulStep(r / d, m / d, d);
      assert false;
    }
    MulStep(m / d, r / d, d);
  }

  /** The remainder modulo 2p is the lowest bit and, above it, the remainder of y / 2 modulo p. */
  lemma ModDoubleSplit(y: nat, p: nat)
    requires p >= 1
    ensures y % (2 * p) == y % 2 + 2 * ((y / 2) % p)
  {
    var q, r := (y / 2) / p, (y / 2) % p;
    assert y / 2 == q * p + r;
    assert y == q * (2 * p) + (2 * r + y % 2);
    DivModUnique(y, 2 * p, q, 2 * r + y % 2);
  }

  /** Unfolding `&` once against an odd mask keeps the lowest bit of y. */
  lemma BitAndOddMask(y: nat, p: nat)
    requires p >= 1 && y > 0
    ensures BitAnd(y, 2 * p - 1) == 2 * BitAnd(y / 2, p - 1) + y % 2
  {
    var m := 2 * p - 1;
    assert m / 2 == p - 1 && m % 2 == 1;
  }

  /** One step of the low-mask induction, stated for any p. */
  lemma LowMaskStep(y: nat, p: nat)
    requires p >= 1 && y > 0
    requires BitAnd(y / 2, p - 1) == (y / 2) % p
    ensures BitAnd(y, 2 * p - 1) == y % (2 * p)
  {
    BitAndOddMask(y, p);
    ModDoubleSplit(y, p);
  }

  /** `y & (2^k - 1)` keeps the low k bits. */
  lemma {:induction false} BitAndLowMask(y: nat, k: nat)
    ensures BitAnd(y, Pow2(k) - 1) == y % Pow2(k)
  {
    if k == 0 {
      assert Pow2(0) - 1 == 0;
    } else if y == 0 {
      assert 0 % Pow2(k) == 0;
    } else {
      BitAndLowMask(y / 2, k - 1);
      LowMaskStep(y, Pow2(k - 1));
      assert Pow2(k) == 2 * Pow2(k - 1);
    }
  }

  /** For y below 2^n, `y & (2^n - 2^k)` clears the low k bits. */
  lemma {:induction false} BitAndHighMask(y: nat, n: nat, k: nat)
    requires k <= n && y < Pow2(n)
    ensures BitAnd(y, HighMask(n, k)) == y - y % Pow2(k)
  {
    if k == 0 {
      BitAndAllBits(y, n);
    } else if n == k {
      DivModUnique(y, Pow2(n), 0, y);
    } else if y == 0 {
      assert 0 % Pow2(k) == 0;
    } else {
      assert y / 2 < Pow2(n - 1) by {
        assert Pow2(n) == 2 * Pow2(n - 1);
      }
      BitAndHighMask(y / 2, n - 1, k - 1);
      HighMaskHalves(n, k);
      HighMaskStep(y, HighMask(n, k), Pow2(k - 1));
      assert Pow2(k) == 2 * Pow2(k - 1);
    }
  }

  /** For y below 2^n, `y & (2^n - 1)` is y. */
  lemma BitAndAllBits(y: nat, n: nat)
    requires y < Pow2(n)
    ensures BitAnd(y, HighMask(n, 0)) == y - y % Pow2(0)
  {
    BitAndLowMask(y, n);
    DivModUnique(y, Pow2(n), 0, y);
    assert HighMask(n, 0) == Pow2(n) - 1;
  }

  /** One step of the high-mask induction, stated for any even mask h and any p. */
  lemma HighMaskStep(y: nat, h: nat, p: nat)
    requires y > 0 && h > 0 && h % 2 == 0 && p >= 1
    requires BitAnd(y / 2, h / 2) == y / 2 - (y / 2) % p
    ensures BitAnd(y, h) == y - y % (2 * p)
  {
    BitAndEvenMask(y, h);
    ModDoubleSplit(y, p);
  }

  /** Unfolding `&` once against an even mask drops the lowest bit of y. */
  lemma BitAndEvenMask(y: nat, h: nat)
    requires y > 0 && h > 0 && h % 2 == 0
    ensures BitAnd(y, h) == 2 * BitAnd(y / 2, h / 2)
  {
  }

  /** The mask of bits k to n - 1 is twice the mask of bits k - 1 to n - 2. */
  lemma HighMaskHalves(n: nat, k: nat)
    requires 0 < k < n
    ensures HighMask(n, k) > 0 && HighMask(n, k) % 2 == 0
    ensures HighMask(n, k) / 2 == HighMask(n - 1, k - 1)
  {
    Pow2Monotone(k, n);
  }

  /** `!(2^k - 1)` on a word is the mask of every bit from k up. */
  lemma WordNotLowMask(k: nat)
    requires k < 64
    ensures Pow2(k) - 1 < WORD_MODULUS
    ensures WordNot(Pow2(k) - 1) == HighMask(64, k)
  {
    Pow2Is2To64();
    Pow2Monotone(k, 64);
  }

  lemma Pow2Is16()
    ensures Pow2(4) == 16 && Pow2(3) == 8 && Pow2(2) == 4 && Pow2(1) == 2
  {
    assert Pow2(1) == 2;
    assert Pow2(2) == 4;
    assert Pow2(3) == 8;
  }

  // ---------------------------------------------------------------------
  // Alignment

  predicate IsPow2(n: nat)
    decreases n
  {
    n == 1 || (n >= 2 && n % 2 == 0 && IsPow2(n / 2))
  }

  function Log2(n: nat): (k: nat)
    requires IsPow2(n)
    ensures Pow2(k) == n
    decreases n
  {
    if n == 1 then 0 else 1 + Log2(n / 2)
  }

  /** `llt_align(x, sz)`: `(x + sz - 1) & !(sz - 1)` in wrapping `usize` arithmetic.
      Its callers pass a power of two. */
  function LltAlign(x: Word, sz: Word): (r: Word)
    requires IsPow2(sz)
    ensures r % sz == 0
    ensures r <= WrapWord(x + sz - 1) < r + sz
  {
    var y := WrapWord(x + sz - 1);
    MaskClearsLowBits(y, sz);
    RemainderCleared(y, sz);
    BitAnd(y, WordNot(sz - 1))
  }

  /** On a word, `& !(sz - 1)` clears the remainder modulo the power of two sz. */
  lemma MaskClearsLowBits(y: Word, sz: Word)
    requires IsPow2(sz)
    ensures BitAnd(y, WordNot(sz - 1)) == y - y % sz
  {
    var k := Log2(sz);
    Log2Below64(sz);
    WordNotLowMask(k);
    Pow2Is2To64();
    BitAndHighMask(y, 64, k);
  }

  /** Clearing the remainder gives the multiple of d just at or below y. */
  lemma RemainderCleared(y: nat, d: nat)
    requires d > 0
    ensures (y - y % d) % d == 0 && y - y % d <= y < y - y % d + d
  {
    assert y == (y / d) * d + y % d;
    DivModUnique(y - y % d, d, y / d, 0);
  }

  /** Without overflow, `llt_align` rounds x up to the next multiple of sz:
      the result is a multiple of sz, lies in [x, x + sz), and no multiple
      of sz at or above x is smaller. */
  lemma LltAlignRoundsUp(x: Word, sz: Word)
    requires IsPow2(sz) && x + sz - 1 < WORD_MODULUS
    ensures LltAlign(x, sz) % sz == 0
    ensures x <= LltAlign(x, sz) < x + sz
    ensures forall m: nat :: m % sz == 0 && x <= m ==> LltAlign(x, sz) <= m
  {
    var r := LltAlign(x, sz);
    assert WrapWord(x + sz - 1) == x + sz - 1;
    forall m: nat | m % sz == 0 && x <= m
      ensures r <= m
    {
      if m < r {
        MultiplesSpaced(m, r, sz);
      }
    }
  }

  lemma Log2Below64(sz: Word)
    requires IsPow2(sz)
    ensures Log2(sz) < 64
  {
    Pow2Is2To64();
    var k := Log2(sz);
    if k >= 64 {
      if k > 64 {
        Pow2Monotone(64, k);
      }
      assert false;
    }
  }

  /** Aligning a value that is already aligned leaves it unchanged. */
  lemma LltAlignIdempotent(x: Word, sz: Word)
    requires IsPow2(sz) && x + sz - 1 < WORD_MODULUS && x % sz == 0
    ensures LltAlign(x, sz) == x
  {
    LltAlignRoundsUp(x, sz);
  }

  /** Near the top of the address space the addition wraps and the result
      falls below x: the rounding above needs x + sz - 1 to fit in a word. */
  lemma LltAlignWrapsAtTop()
    ensures LltAlign(WORD_MODULUS - 1, 8) == 0
  {
    assert IsPow2(8) && Log2(8) == 3;
    WordNotLowMask(3);
    assert WrapWord(WORD_MODULUS - 1 + 8 - 1) == 6;
    BitAndHighMask(6, 64, 3);
  }

  /** `jl_symbol_name_`: a symbol's name starts at the first pointer-aligned
      offset after the symbol header, which is right after the header. */
  function SymbolName(s: Word): (r: Word)
    ensures s + SYM_SIZE < WORD_MODULUS ==> r == s + SYM_SIZE && (r - s) % POINTER_SIZE == 0
  {
    LltAlignIdempotent(SYM_SIZE, POINTER_SIZE);
    WrapWord(s + LltAlign(SYM_SIZE, POINTER_SIZE))
  }

  // ---------------------------------------------------------------------
  // Tagged headers

  /** `jl_astaggedvalue`: the header word sits right in front of the object. */
  function AsTaggedValue(v: Word): (r: Word)
    ensures v >= TAGGED_SIZE ==> r + TAGGED_SIZE == v
    ensures v < TAGGED_SIZE ==> r == v + WORD_MODULUS - TAGGED_SIZE
  {
    WrapWord(v - TAGGED_SIZE)
  }

  /** `jl_typeof`: the header word with its low four tag bits cleared. */
  function TypeOf(words: map<Word, Word>, v: Word): (r: Word)
    requires AsTaggedValue(v) in words
    ensures var h := words[AsTaggedValue(v)];
      r == h - h % 16 && r % 16 == 0 && r <= h < r + 16
  {
    var h := words[AsTaggedValue(v)];
    WordNotLowMask(4);
    BitAndHighMask(h, 64, 4);
    Pow2Is2To64();
    DivModUnique(h - h % 16, 16, h / 16, 0);
    BitAnd(h, WordNot(15))
  }

  /** The two garbage-collector bits of a header (`bits.gc()`). */
  function GcBits(header: Word): (r: nat)
    ensures r == header % 4
  {
    BitAndLowMask(header, 2);
    BitAnd(header, 3)
  }

  /** The test of `jl_gc_wb`: the parent is old and marked (gc bits 3) and
      the child is not marked (gc bit 0 clear). */
  function BarrierQueues(parentHeader: Word, childHeader: Word): (r: bool)
    ensures r <==> parentHeader % 4 == 3 && childHeader % 2 == 0
  {
    var cb := GcBits(childHeader);
    BitAndLowMask(cb, 1);
    GcBits(parentHeader) == 3 && BitAnd(cb, 1) == 0
  }

  predicate Headed(words: map<Word, Word>, v: Word)
  {
    AsTaggedValue(v) in words
  }

  /** What `jl_gc_wb(parent, ptr)` passes to `jl_gc_queue_root`. */
  function BarrierQueued(words: map<Word, Word>, parent: Word, ptr: Word): (q: seq<Word>)
    requires Headed(words, parent) && Headed(words, ptr)
    ensures q == [parent] || q == []
    ensures q != [] <==> words[AsTaggedValue(parent)] % 4 == 3 && words[AsTaggedValue(ptr)] % 2 == 0
  {
    if BarrierQueues(words[AsTaggedValue(parent)], words[AsTaggedValue(ptr)]) then [parent] else []
  }

  /** The memory the barrier reads, and the roots queued so far. */
  class GcHeap {
    var words: map<Word, Word>
    var queued: seq<Word>

    constructor (words: map<Word, Word>)
      ensures this.words == words && queued == []
    {
      this.words := words;
      queued := [];
    }

    /** `jl_gc_wb`. */
    method WriteBarrier(parent: Word, ptr: Word)
      requires Headed(words, parent) && Headed(words, ptr)
      modifies this`queued
      ensures queued == old(queued) + BarrierQueued(words, parent, ptr)
    {
      if BarrierQueues(words[AsTaggedValue(parent)], words[AsTaggedValue(ptr)]) {
        queued := queued + [parent];
      }
    }
  }

  // ---------------------------------------------------------------------
  // Arrays of pointers

  /** The header fields of an array that the store reads. `how == 3` means
      the data is owned by another object, whose pointer is stored at
      `ownerOffset` bytes into the array (the offset comes from
      `jlrs_array_data_owner_offset`, which is C code outside this model). */
  datatype ArrayHeader = ArrayHeader(addr: Word, ptrarray: bool, how: nat, ownerOffset: Word)

  function OwnerSlot(a: ArrayHeader): Word
  {
    WrapWord(a.addr + a.ownerOffset)
  }

  /** `jl_array_data_owner` as written: the ADDRESS of the owner slot,
      `ownerOffset` bytes into the array, and not the word stored there. */
  function DataOwnerAsWritten(a: ArrayHeader): (r: Word)
    ensures a.addr + a.ownerOffset < WORD_MODULUS ==> r == a.addr + a.ownerOffset
    ensures a.addr + a.ownerOffset >= WORD_MODULUS ==> r == a.addr + a.ownerOffset - WORD_MODULUS
  {
    OwnerSlot(a)
  }

  /** The data owner as the engine's own header defines it: the pointer
      stored in the owner slot. */
  function DataOwner(words: map<Word, Word>, a: ArrayHeader): Word
    requires OwnerSlot(a) in words
  {
    words[OwnerSlot(a)]
  }

  /** The object whose write barrier a store runs: the data owner, read
      from its slot, for an owned buffer (how == 3), the array otherwise. */
  function BarrierParent(words: map<Word, Word>, a: ArrayHeader): Word
    requires a.how == 3 ==> OwnerSlot(a) in words
  {
    if a.how == 3 then DataOwner(words, a) else a.addr
  }

  /** The barrier's parent as written, with the owner slot's address taken
      for the owner. */
  function BarrierParentAsWritten(a: ArrayHeader): Word
  {
    if a.how == 3 then DataOwnerAsWritten(a) else a.addr
  }

  /** The words a store of a non-null x reads: the header of x and, for an
      owned buffer, the owner slot and the owner's header, otherwise the
      array's header. */
  predicate PtrSetReadable(words: map<Word, Word>, a: ArrayHeader, x: Word)
  {
    x != NULL ==>
      && Headed(words, x)
      && (a.how == 3 ==> OwnerSlot(a) in words)
      && Headed(words, BarrierParent(words, a))
  }

  /** The words the store as written reads for a non-null x. */
  predicate PtrSetReadableAsWritten(words: map<Word, Word>, a: ArrayHeader, x: Word)
  {
    x != NULL ==> Headed(words, x) && Headed(words, BarrierParentAsWritten(a))
  }

  /** What the store queues: nothing for a null x, and otherwise the
      barrier's parent exactly when it is old and marked and x is not marked. */
  function PtrSetQueued(words: map<Word, Word>, a: ArrayHeader, x: Word): (q: seq<Word>)
    requires PtrSetReadable(words, a, x)
    ensures x == NULL ==> q == []
    ensures q == [] || q == [BarrierParent(words, a)]
    ensures x != NULL ==>
      (q != [] <==> words[AsTaggedValue(BarrierParent(words, a))] % 4 == 3 && words[AsTaggedValue(x)] % 2 == 0)
  {
    if x == NULL then [] else BarrierQueued(words, BarrierParent(words, a), x)
  }

  /** What the store queues as written. */
  function PtrSetQueuedAsWritten(words: map<Word, Word>, a: ArrayHeader, x: Word): (q: seq<Word>)
    requires PtrSetReadableAsWritten(words, a, x)
    ensures x == NULL ==> q == []
    ensures q == [] || q == [BarrierParentAsWritten(a)]
    ensures x != NULL ==>
      (q != [] <==> words[AsTaggedValue(BarrierParentAsWritten(a))] % 4 == 3 && words[AsTaggedValue(x)] % 2 == 0)
  {
    if x == NULL then [] else BarrierQueued(words, BarrierParentAsWritten(a), x)
  }

  /** With an owned buffer (how == 3), the store's barrier tests the owner's
      header, and queues the owner exactly when the owner is old and marked
      and x is not marked. */
  lemma PtrSetBarrierOnOwner(words: map<Word, Word>, a: ArrayHeader, x: Word)
    requires PtrSetReadable(words, a, x) && a.how == 3 && x != NULL
    ensures var o := DataOwner(words, a);
      PtrSetQueued(words, a, x) == (if words[AsTaggedValue(o)] % 4 == 3 && words[AsTaggedValue(x)] % 2 == 0 then [o] else [])
  {
  }

  /** As written, a store into an array whose buffer is owned by an old,
      marked object queues nothing when x is young: the barrier reads the
      word in front of the owner slot instead of the owner's header. */
  lemma MissedBarrierAsWritten()
    ensures var words := map[0x1028 := 0x2000, 0x1020 := 0, 0x1ff8 := 3, 0xff8 := 3, 0x2ff8 := 0];
      var a := ArrayHeader(0x1000, true, 3, 0x28);
      PtrSetReadable(words, a, 0x3000) && PtrSetReadableAsWritten(words, a, 0x3000)
      && PtrSetQueued(words, a, 0x3000) == [0x2000]
      && PtrSetQueuedAsWritten(words, a, 0x3000) == []
  {
    var words := map[0x1028 := 0x2000, 0x1020 := 0, 0x1ff8 := 3, 0xff8 := 3, 0x2ff8 := 0];
    var a := ArrayHeader(0x1000, true, 3, 0x28);
    assert AsTaggedValue(0x2000) == 0x1ff8 && AsTaggedValue(0x3000) == 0x2ff8;
    assert AsTaggedValue(0x1028) == 0x1020 && AsTaggedValue(0x1000) == 0xff8;
    assert OwnerSlot(a) == 0x1028;
  }

  /** A Julia array of pointers: its header and its slots. */
  class JlArray {
    const header: ArrayHeader
    const data: array<Word>

    constructor (header: ArrayHeader, slots: nat)
      ensures this.header == header && fresh(data) && data.Length == slots
    {
      this.header := header;
      data := new Word[slots];
    }
  }

  /** `jl_array_ptr_set(a, i, x)`: on a pointer array, stores x in slot i
      only, runs the write barrier of the data owner (how == 3) or of the
      array itself when x is not null, and returns x. On an array that does
      not hold pointers the assertion fails (None) and nothing changes. */
  method ArrayPtrSet(a: JlArray, i: nat, x: Word, heap: GcHeap) returns (r: Option<Word>)
    requires i < a.data.Length
    requires a.header.ptrarray ==> PtrSetReadable(heap.words, a.header, x)
    modifies a.data, heap`queued
    ensures !a.header.ptrarray ==> r == None && a.data[..] == old(a.data[..]) && heap.queued == old(heap.queued)
    ensures a.header.ptrarray ==> r == Some(x) && a.data[..] == old(a.data[..])[i := x]
    ensures a.header.ptrarray ==> heap.queued == old(heap.queued) + PtrSetQueued(heap.words, a.header, x)
  {
    if !a.header.ptrarray {
      return None;
    }
    a.data[i] := x;
    if x != NULL {
      if a.header.how == 3 {
        heap.WriteBarrier(DataOwner(heap.words, a.header), x);
      } else {
        heap.WriteBarrier(a.header.addr, x);
      }
    }
    r := Some(x);
  }

  // ---------------------------------------------------------------------
  // Array dimensions

  /** `ndims as i32` for a `u32`. */
  function AsI32(n: nat): int
    requires n < 0x1_0000_0000
  {
    if n < 0x8000_0000 then n else n - 0x1_0000_0000
  }

  /** Wrapping `i32` arithmetic. */
  function WrapI32(x: int): int
  {
    (x + 0x8000_0000) % 0x1_0000_0000 - 0x8000_0000
  }

  /** `jl_array_ndimwords`: the dimensions beyond the two stored inline each take one extra word. */
  function NdimWords(ndims: nat): (r: int)
    requires ndims < 0x1_0000_0000
    ensures -0x8000_0000 <= r < 0x8000_0000
    ensures ndims < 3 ==> r == 0
    ensures 3 <= ndims < 0x8000_0000 ==> r == ndims - 2 && 0 < r < ndims
  {
    if ndims < 3 then 0 else WrapI32(AsI32(ndims) - 2)
  }

  /** For every rank an array header can hold (a 16-bit field), the count is
      never negative and is the number of dimensions beyond two. */
  lemma NdimWordsForArrayRank(ndims: nat)
    requires ndims < 0x1_0000
    ensures NdimWords(ndims) >= 0
    ensures NdimWords(ndims) == if ndims < 3 then 0 else ndims - 2
  {
  }

  /** Above `i32::MAX` the signed cast wraps and the count turns negative. */
  lemma NdimWordsWrapsAboveI32Max()
    ensures NdimWords(0xFFFF_FFFF) == -3
  {
  }

  // ---------------------------------------------------------------------
  // Field descriptors

  /** The three descriptor layouts. Each descriptor is a packed member
      (`isptr` in the lowest bit, `size` above it) followed by an `offset`
      member of the same width. */
  datatype DescWidth = Desc8 | Desc16 | Desc32

  /** The dispatch of `jl_field_size` and `jl_field_offset` on `fielddesc_type`. */
  function DescWidthOf(fielddescType: nat): DescWidth
  {
    if fielddescType == 0 then Desc8 else if fielddescType == 1 then Desc16 else Desc32
  }

  /** Bytes of one member of a descriptor of the given width. */
  function MemberBytes(w: DescWidth): nat
  {
    match w
    case Desc8 => 1
    case Desc16 => 2
    case Desc32 => 4
  }

  /** `jl_fielddesc_size(t)`: `2u32 << t`; a shift by a negative amount or
      by 32 or more is an overflow. */
  function FielddescSize(t: int): (r: nat)
    requires 0 <= t < 32
    ensures r < 0x1_0000_0000
    ensures t <= 2 ==> r == 2 * MemberBytes(DescWidthOf(t))
  {
    (2 * Pow2(t)) % 0x1_0000_0000
  }

  datatype FieldDesc = FieldDesc(isptr: bool, size: nat, offset: nat)

  /** The layout part of a datatype: field count, descriptor kind (a two-bit
      field; the engine sets it to 0, 1 or 2) and the descriptor bytes. */
  datatype DatatypeLayout = DatatypeLayout(nfields: nat, fielddescType: nat, descs: seq<Byte>)

  function DescStride(ly: DatatypeLayout): nat
  {
    2 * MemberBytes(DescWidthOf(ly.fielddescType))
  }

  predicate WellFormedLayout(ly: DatatypeLayout)
  {
    && ly.fielddescType <= 3
    && ly.nfields < 0x1_0000_0000
    && |ly.descs| >= ly.nfields * DescStride(ly)
  }

  /** A little-endian unsigned integer of n bytes. */
  function ReadLE(bytes: seq<Byte>, start: nat, n: nat): (r: nat)
    requires start + n <= |bytes|
    ensures r < Pow256(n)
    ensures n > 0 ==> r % 2 == bytes[start] % 2
    decreases n
  {
    if n == 0 then 0 else bytes[start] + 256 * ReadLE(bytes, start + 1, n - 1)
  }

  /** The unsigned integer of two little-endian bytes, written out. */
  function Le16(b0: Byte, b1: Byte): nat
  {
    b0 + 256 * b1
  }

  /** The unsigned integer of four little-endian bytes, written out. */
  function Le32(b0: Byte, b1: Byte, b2: Byte, b3: Byte): nat
  {
    Le16(b0, b1) + 0x1_0000 * Le16(b2, b3)
  }

  lemma ReadLE2(bytes: seq<Byte>, start: nat)
    requires start + 2 <= |bytes|
    ensures ReadLE(bytes, start, 2) == Le16(bytes[start], bytes[start + 1])
  {
    assert ReadLE(bytes, start + 1, 1) == bytes[start + 1] + 256 * ReadLE(bytes, start + 2, 0);
  }

  lemma ReadLE4(bytes: seq<Byte>, start: nat)
    requires start + 4 <= |bytes|
    ensures ReadLE(bytes, start, 4) == Le32(bytes[start], bytes[start + 1], bytes[start + 2], bytes[start + 3])
  {
    ReadLE2(bytes, start + 2);
    assert ReadLE(bytes, start, 4) == bytes[start] + 256 * (bytes[start + 1] + 256 * ReadLE(bytes, start + 2, 2));
  }

  /** The two members of a descriptor of w-byte members, written out. */
  lemma ReadMembers(bytes: seq<Byte>, start: nat, w: nat)
    requires start + 2 * w <= |bytes|
    ensures w == 2 ==> ReadLE(bytes, start, 2) == Le16(bytes[start], bytes[start + 1])
    ensures w == 2 ==> ReadLE(bytes, start + 2, 2) == Le16(bytes[start + 2], bytes[start + 3])
    ensures w == 4 ==> ReadLE(bytes, start, 4) == Le32(bytes[start], bytes[start + 1], bytes[start + 2], bytes[start + 3])
    ensures w == 4 ==> ReadLE(bytes, start + 4, 4) == Le32(bytes[start + 4], bytes[start + 5], bytes[start + 6], bytes[start + 7])
  {
    if w == 2 {
      ReadLE2(bytes, start);
      ReadLE2(bytes, start + 2);
    } else if w == 4 {
      ReadLE4(bytes, start);
      ReadLE4(bytes, start + 4);
    }
  }

  lemma DescInBounds(ly: DatatypeLayout, i: nat)
    requires WellFormedLayout(ly) && i < ly.nfields
    ensures DescStride(ly) * i + DescStride(ly) <= |ly.descs|
  {
    assert DescStride(ly) * i + DescStride(ly) == DescStride(ly) * (i + 1);
    assert DescStride(ly) * (i + 1) <= DescStride(ly) * ly.nfields;
  }

  /** Byte j of descriptor i. */
  function DescByte(ly: DatatypeLayout, i: nat, j: nat): Byte
    requires WellFormedLayout(ly) && i < ly.nfields && j < DescStride(ly)
  {
    DescInBounds(ly, i);
    ly.descs[DescStride(ly) * i + j]
  }

  /** Descriptor i, decoded at the width the layout selects: 8-bit members
      for type 0, 16-bit for type 1 and 32-bit otherwise, each member little
      endian, `isptr` the lowest bit of the first member and `size` the
      bits above it. */
  function DescAt(ly: DatatypeLayout, i: nat): (d: FieldDesc)
    requires WellFormedLayout(ly) && i < ly.nfields
    ensures d.isptr <==> DescByte(ly, i, 0) % 2 == 1
    ensures ly.fielddescType == 0 ==>
      d.size == DescByte(ly, i, 0) / 2 && d.offset == DescByte(ly, i, 1)
    ensures ly.fielddescType == 1 ==>
      && d.size == Le16(DescByte(ly, i, 0), DescByte(ly, i, 1)) / 2
      && d.offset == Le16(DescByte(ly, i, 2), DescByte(ly, i, 3))
    ensures ly.fielddescType >= 2 ==>
      && d.size == Le32(DescByte(ly, i, 0), DescByte(ly, i, 1), DescByte(ly, i, 2), DescByte(ly, i, 3)) / 2
      && d.offset == Le32(DescByte(ly, i, 4), DescByte(ly, i, 5), DescByte(ly, i, 6), DescByte(ly, i, 7))
    ensures var w := MemberBytes(DescWidthOf(ly.fielddescType));
      2 * d.size < Pow256(w) && d.offset < Pow256(w)
  {
    var w := MemberBytes(DescWidthOf(ly.fielddescType));
    var start := DescStride(ly) * i;
    DescInBounds(ly, i);
    ReadMembers(ly.descs, start, w);
    var packed := ReadLE(ly.descs, start, w);
    FieldDesc(packed % 2 == 1, packed / 2, ReadLE(ly.descs, start + w, w))
  }

  /** The bounds test that the field queries assert. */
  predicate FieldIndexOk(ly: DatatypeLayout, i: int)
  {
    0 <= i < ly.nfields
  }

  /** `jl_field_isptr(st, i)` for an `i32` index: the lowest bit of the
      first byte of descriptor i, found at the stride `jl_fielddesc_size`
      gives. None is the failed assertion. It agrees with the isptr bit of
      the descriptor decoded at its own width. */
  function FieldIsptr(ly: DatatypeLayout, i: int): (r: Option<bool>)
    requires WellFormedLayout(ly) && ly.fielddescType <= 2
    ensures r.Some? <==> FieldIndexOk(ly, i)
    ensures r.Some? ==> r.value == DescAt(ly, i).isptr
  {
    if FieldIndexOk(ly, i) then
      DescInBounds(ly, i);
      Some(ly.descs[FielddescSize(ly.fielddescType) * i] % 2 == 1)
    else None
  }

  /** `jl_field_size(st, i)`: the size member of descriptor i, read as an
      8-bit, 16-bit or 32-bit little-endian member with its lowest (isptr)
      bit dropped. None is the failed assertion. */
  function FieldSize(ly: DatatypeLayout, i: int): (r: Option<nat>)
    requires WellFormedLayout(ly)
    ensures r.Some? <==> FieldIndexOk(ly, i)
    ensures r.Some? && ly.fielddescType == 0 ==> r.value == DescByte(ly, i, 0) / 2
    ensures r.Some? && ly.fielddescType == 1 ==> r.value == Le16(DescByte(ly, i, 0), DescByte(ly, i, 1)) / 2
    ensures r.Some? && ly.fielddescType >= 2 ==>
      r.value == Le32(DescByte(ly, i, 0), DescByte(ly, i, 1), DescByte(ly, i, 2), DescByte(ly, i, 3)) / 2
  {
    if FieldIndexOk(ly, i) then Some(DescAt(ly, i).size) else None
  }

  /** `jl_field_offset(st, i)`: the offset member of descriptor i, the
      second member at the selected width. None is the failed assertion. */
  function FieldOffset(ly: DatatypeLayout, i: int): (r: Option<nat>)
    requires WellFormedLayout(ly)
    ensures r.Some? <==> FieldIndexOk(ly, i)
    ensures r.Some? && ly.fielddescType == 0 ==> r.value == DescByte(ly, i, 1)
    ensures r.Some? && ly.fielddescType == 1 ==> r.value == Le16(DescByte(ly, i, 2), DescByte(ly, i, 3))
    ensures r.Some? && ly.fielddescType >= 2 ==>
      r.value == Le32(DescByte(ly, i, 4), DescByte(ly, i, 5), DescByte(ly, i, 6), DescByte(ly, i, 7))
  {
    if FieldIndexOk(ly, i) then Some(DescAt(ly, i).offset) else None
  }

  // The engine's side of the descriptors: how it lays them out.

  /** n little-endian bytes of v. */
  function EncodeLE(v: nat, n: nat): (bs: seq<Byte>)
    ensures |bs| == n
  {
    if n == 0 then [] else [v % 256] + EncodeLE(v / 256, n - 1)
  }

  /** Reading n bytes depends only on those bytes. */
  lemma {:induction false} ReadLEShift(pre: seq<Byte>, bs: seq<Byte>, post: seq<Byte>, n: nat)
    requires n <= |bs|
    ensures ReadLE(pre + bs + post, |pre|, n) == ReadLE(bs, 0, n)
    decreases n
  {
    if n > 0 {
      var pre', bs' := pre + [bs[0]], bs[1..];
      assert pre' + bs' + post == pre + bs + post;
      ReadLEShift(pre', bs', post, n - 1);
      assert [bs[0]] + bs' + [] == bs;
      ReadLEShift([bs[0]], bs', [], n - 1);
    }
  }

  /** Reading back n encoded bytes gives the value, when it fits. */
  lemma {:induction false} ReadEncodeLE(v: nat, n: nat)
    requires v < Pow256(n)
    ensures ReadLE(EncodeLE(v, n), 0, n) == v
    decreases n
  {
    if n > 0 {
      var rest := EncodeLE(v / 256, n - 1);
      assert v / 256 < Pow256(n - 1);
      ReadEncodeLE(v / 256, n - 1);
      assert [v % 256] + rest + [] == EncodeLE(v, n);
      ReadLEShift([v % 256], rest, [], n - 1);
    }
  }

  /** A descriptor whose members fit the given width. */
  predicate DescFits(w: DescWidth, d: FieldDesc)
  {
    2 * d.size + 1 < Pow256(MemberBytes(w)) && d.offset < Pow256(MemberBytes(w))
  }

  /** One descriptor as the engine stores it: the packed member, then the offset. */
  function EncodeDesc(w: DescWidth, d: FieldDesc): (bs: seq<Byte>)
    ensures |bs| == 2 * MemberBytes(w)
  {
    EncodeLE(2 * d.size + (if d.isptr then 1 else 0), MemberBytes(w)) + EncodeLE(d.offset, MemberBytes(w))
  }

  /** The descriptors one after the other. */
  function EncodeDescs(w: DescWidth, ds: seq<FieldDesc>): (bs: seq<Byte>)
  {
    if ds == [] then [] else EncodeDesc(w, ds[0]) + EncodeDescs(w, ds[1..])
  }

  lemma {:induction false} EncodeDescsLength(w: DescWidth, ds: seq<FieldDesc>)
    ensures |EncodeDescs(w, ds)| == |ds| * (2 * MemberBytes(w))
  {
    if ds != [] {
      EncodeDescsLength(w, ds[1..]);
      assert |ds| * (2 * MemberBytes(w)) == 2 * MemberBytes(w) + (|ds| - 1) * (2 * MemberBytes(w));
    }
  }

  /** Encoding a concatenation is concatenating the encodings. */
  lemma {:induction false} EncodeDescsAppend(w: DescWidth, a: seq<FieldDesc>, b: seq<FieldDesc>)
    ensures EncodeDescs(w, a + b) == EncodeDescs(w, a) + EncodeDescs(w, b)
  {
    if a == [] {
      assert a + b == b;
    } else {
      assert (a + b)[0] == a[0] && (a + b)[1..] == a[1..] + b;
      EncodeDescsAppend(w, a[1..], b);
    }
  }

  /** Descriptor i sits after the i descriptors before it. */
  lemma EncodeDescsAt(w: DescWidth, ds: seq<FieldDesc>, i: nat)
    requires i < |ds|
    ensures EncodeDescs(w, ds) == EncodeDescs(w, ds[..i]) + EncodeDesc(w, ds[i]) + EncodeDescs(w, ds[i + 1..])
  {
    var rest := [ds[i]] + ds[i + 1..];
    assert ds == ds[..i] + rest;
    EncodeDescsAppend(w, ds[..i], rest);
    assert rest[0] == ds[i] && rest[1..] == ds[i + 1..];
  }

  /** The layout the engine builds for descriptors of kind t. */
  function EncodedLayout(t: nat, ds: seq<FieldDesc>): DatatypeLayout
  {
    DatatypeLayout(|ds|, t, EncodeDescs(DescWidthOf(t), ds))
  }

  /** A member encoded in m bytes is read back from wherever it sits. */
  lemma MemberReadBack(pre: seq<Byte>, v: nat, m: nat, post: seq<Byte>)
    requires v < Pow256(m)
    ensures ReadLE(pre + EncodeLE(v, m) + post, |pre|, m) == v
  {
    ReadLEShift(pre, EncodeLE(v, m), post, m);
    ReadEncodeLE(v, m);
  }

  /** Descriptor i is decoded from the two members at its position. */
  lemma DescAtMembers(ly: DatatypeLayout, i: nat)
    requires WellFormedLayout(ly) && i < ly.nfields
    ensures DescStride(ly) * i + DescStride(ly) <= |ly.descs|
    ensures var w, start := MemberBytes(DescWidthOf(ly.fielddescType)), DescStride(ly) * i;
      var packed := ReadLE(ly.descs, start, w);
      DescAt(ly, i) == FieldDesc(packed % 2 == 1, packed / 2, ReadLE(ly.descs, start + w, w))
  {
    DescInBounds(ly, i);
  }

  /** In an encoded layout, descriptor i's bytes start at i strides, after
      the descriptors before it. */
  lemma EncodedPosition(t: nat, ds: seq<FieldDesc>, i: nat)
    requires t <= 3 && |ds| < 0x1_0000_0000 && i < |ds|
    ensures var ly, w := EncodedLayout(t, ds), DescWidthOf(t);
      && WellFormedLayout(ly)
      && |EncodeDescs(w, ds[..i])| == DescStride(ly) * i
      && ly.descs == EncodeDescs(w, ds[..i]) + EncodeDesc(w, ds[i]) + EncodeDescs(w, ds[i + 1..])
  {
    var w := DescWidthOf(t);
    EncodeDescsLength(w, ds);
    EncodeDescsLength(w, ds[..i]);
    EncodeDescsAt(w, ds, i);
  }

  /** In an encoded layout, the two members at descriptor i's position are
      descriptor i's packed member and offset. */
  lemma EncodedMembers(t: nat, ds: seq<FieldDesc>, i: nat)
    requires t <= 3 && |ds| < 0x1_0000_0000 && i < |ds|
    requires forall k :: 0 <= k < |ds| ==> DescFits(DescWidthOf(t), ds[k])
    ensures var ly, m := EncodedLayout(t, ds), MemberBytes(DescWidthOf(t));
      && WellFormedLayout(ly)
      && DescStride(ly) * i + 2 * m <= |ly.descs|
      && ReadLE(ly.descs, DescStride(ly) * i, m) == 2 * ds[i].size + (if ds[i].isptr then 1 else 0)
      && ReadLE(ly.descs, DescStride(ly) * i + m, m) == ds[i].offset
  {
    var w := DescWidthOf(t);
    assert DescFits(w, ds[i]);
    EncodedPosition(t, ds, i);
    DescReadBack(EncodeDescs(w, ds[..i]), ds[i], w, EncodeDescs(w, ds[i + 1..]));
  }

  /** An encoded descriptor's two members are read back from wherever it sits. */
  lemma DescReadBack(pre: seq<Byte>, d: FieldDesc, w: DescWidth, post: seq<Byte>)
    requires DescFits(w, d)
    ensures var bytes, m := pre + EncodeDesc(w, d) + post, MemberBytes(w);
      && |pre| + 2 * m <= |bytes|
      && ReadLE(bytes, |pre|, m) == 2 * d.size + (if d.isptr then 1 else 0)
      && ReadLE(bytes, |pre| + m, m) == d.offset
  {
    var m := MemberBytes(w);
    var packed := 2 * d.size + (if d.isptr then 1 else 0);
    var a, b := EncodeLE(packed, m), EncodeLE(d.offset, m);
    assert pre + EncodeDesc(w, d) + post == pre + a + (b + post);
    MemberReadBack(pre, packed, m, b + post);
    assert pre + EncodeDesc(w, d) + post == (pre + a) + b + post;
    MemberReadBack(pre + a, d.offset, m, post);
  }

  /** Decoding descriptor i of an encoded layout gives descriptor i back. */
  lemma DescAtEncoded(t: nat, ds: seq<FieldDesc>, i: nat)
    requires t <= 3 && |ds| < 0x1_0000_0000 && i < |ds|
    requires forall k :: 0 <= k < |ds| ==> DescFits(DescWidthOf(t), ds[k])
    ensures WellFormedLayout(EncodedLayout(t, ds)) && DescAt(EncodedLayout(t, ds), i) == ds[i]
  {
    var d := ds[i];
    var bit := if d.isptr then 1 else 0;
    EncodedMembers(t, ds, i);
    DescAtMembers(EncodedLayout(t, ds), i);
    DivModUnique(2 * d.size + bit, 2, d.size, bit);
  }

  /** The field queries read back what the engine stored: for every index
      in range, the size, the offset and (for the kinds the engine sets)
      the isptr bit of that field; for every other index, the failed
      assertion. */
  lemma FieldQueriesReadEncoded(t: nat, ds: seq<FieldDesc>, i: int)
    requires t <= 3 && |ds| < 0x1_0000_0000
    requires forall k :: 0 <= k < |ds| ==> DescFits(DescWidthOf(t), ds[k])
    ensures var ly := EncodedLayout(t, ds);
      && WellFormedLayout(ly)
      && FieldSize(ly, i) == (if 0 <= i < |ds| then Some(ds[i].size) else None)
      && FieldOffset(ly, i) == (if 0 <= i < |ds| then Some(ds[i].offset) else None)
      && (t <= 2 ==> FieldIsptr(ly, i) == (if 0 <= i < |ds| then Some(ds[i].isptr) else None))
  {
    var ly := EncodedLayout(t, ds);
    EncodeDescsLength(DescWidthOf(t), ds);
    assert |ly.descs| == ly.nfields * DescStride(ly);
    if 0 <= i < |ds| {
      DescAtEncoded(t, ds, i);
    }
  }

  /** The assertion of `jl_field_size` and `jl_field_offset` as written for
      an `isize` index: `i >= 0 && (i as u32) < nfields`, the cast keeping
      the low 32 bits. */
  predicate FieldIndexGuardAsWritten(ly: DatatypeLayout, i: int)
  {
    i >= 0 && i % 0x1_0000_0000 < ly.nfields
  }

  /** The truncating cast lets index 2^32 through on any layout with a
      field, past the end of its descriptors. */
  lemma TruncatedGuardAdmitsOutOfRange(ly: DatatypeLayout)
    requires 1 <= ly.nfields < 0x1_0000_0000
    ensures FieldIndexGuardAsWritten(ly, 0x1_0000_0000) && !FieldIndexOk(ly, 0x1_0000_0000)
  {
  }

  /** `jl_get_fieldtypes`: the cached field types, or, when none are cached,
      what the engine computes. */
  function GetFieldtypes(types: Word, computed: Word): (r: Word)
    ensures r == NULL ==> types == NULL && computed == NULL
    ensures types != NULL ==> r == types
    ensures types == NULL ==> r == computed
  {
    if types == NULL then computed else types
  }

  /** The engine's computation is consulted only when nothing is cached:
      with cached types the answer does not depend on it, and without them
      it is the answer. */
  lemma GetFieldtypesCacheFirst(types: Word, computed: Word, computed': Word)
    ensures types != NULL ==> GetFieldtypes(types, computed) == GetFieldtypes(types, computed')
    ensures types == NULL ==> GetFieldtypes(types, computed) == computed
  {
  }
}
