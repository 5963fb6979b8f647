/** The public IPv4 internet as CIDR blocks: interval subtraction followed by
    greedy splitting into aligned blocks (crates/openshell-driver-lxd/src/egress.rs).

    The list of excluded blocks is a parameter; the driver passes its constant
    table. Addresses and sizes are unbounded integers here; the contracts and
    invariants bound every value the algorithm forms by 2^33, so the source's u64
    arithmetic is exact. */
module Cidr {
  import opened Sorting

  // ----- powers of two and trailing zeros

  function Pow2(n: nat): (p: nat)
    ensures p >= 1
  {
    if n == 0 then 1 else 2 * Pow2(n - 1)
  }

  /** `u64::trailing_zeros` of a non-zero value. */
  function TrailingZeros(n: nat): nat
    requires n > 0
  {
    if n % 2 == 1 then 0 else 1 + TrailingZeros(n / 2)
  }

  const SPACE: nat := 0x1_0000_0000

  lemma SpaceIsPow2()
    ensures Pow2(32) == SPACE
  {
    assert Pow2(8) == 256;
    Pow2Add(8, 8);
    Pow2Add(16, 16);
  }

  lemma {:induction false} Pow2Add(a: nat, b: nat)
    ensures Pow2(a + b) == Pow2(a) * Pow2(b)
  {
    if a > 0 {
      Pow2Add(a - 1, b);
      assert Pow2(a + b) == 2 * Pow2(a - 1 + b);
      assert 2 * (Pow2(a - 1) * Pow2(b)) == (2 * Pow2(a - 1)) * Pow2(b);
    }
  }

  lemma {:induction false} Pow2Monotone(a: nat, b: nat)
    requires a < b
    ensures Pow2(a) < Pow2(b)
    decreases b - a
  {
    if a + 1 < b {
      Pow2Monotone(a + 1, b);
    }
  }

  lemma Pow2WithinSpace(k: nat)
    requires k <= 32
    ensures Pow2(k) <= SPACE
  {
    SpaceIsPow2();
    if k < 32 { Pow2Monotone(k, 32); }
  }

  lemma {:induction false} TrailingZerosOfPow2(k: nat)
    ensures TrailingZeros(Pow2(k)) == k
  {
    if k > 0 {
      TrailingZerosOfPow2(k - 1);
      assert Pow2(k) / 2 == Pow2(k - 1);
    }
  }

  /** A multiple of `n`, without division. */
  ghost predicate Multiple(x: int, n: nat) {
    exists q: int {:trigger Times(q, n)} :: x == Times(q, n)
  }

  ghost function Times(q: int, n: nat): int { q * n }

  lemma MultipleIntro(x: int, q: int, n: nat)
    requires x == q * n
    ensures Multiple(x, n)
  {
    assert x == Times(q, n);
  }

  /** The lowest set bit of `n` is the largest power of two dividing it. */
  lemma {:induction false} TrailingZerosAlign(n: nat, k: nat)
    requires n > 0
    ensures Multiple(n, Pow2(k)) <==> k <= TrailingZeros(n)
    decreases n
  {
    if k == 0 {
      MultipleIntro(n, n, 1);
    } else if n % 2 == 1 {
      OddIsNoMultiple(n, Pow2(k - 1));
    } else {
      TrailingZerosAlign(n / 2, k - 1);
      Halve(n / 2, Pow2(k - 1));
    }
  }

  lemma OddIsNoMultiple(n: nat, p: nat)
    requires n % 2 == 1
    ensures !Multiple(n, 2 * p)
  {
    forall q: int ensures n != Times(q, 2 * p) {
      assert Times(q, 2 * p) == 2 * (q * p);
    }
  }

  lemma Halve(m: nat, p: nat)
    ensures Multiple(2 * m, 2 * p) <==> Multiple(m, p)
  {
    if Multiple(2 * m, 2 * p) {
      var q :| 2 * m == Times(q, 2 * p);
      MulAssociates(q, 2, p);
      MulAssociates(2, q, p);
      MultipleIntro(m, q, p);
    }
    if Multiple(m, p) {
      var q :| m == Times(q, p);
      MulAssociates(q, 2, p);
      MulAssociates(2, q, p);
      MultipleIntro(2 * m, q, 2 * p);
    }
  }

  // ----- blocks and ranges

  /** `address/prefix`. An excluded block need not be aligned: the source takes
      the addresses from `address` on, whatever its host bits. */
  datatype Block = Block(address: Address, prefix: Prefix) {
    function Size(): nat { Pow2(32 - prefix) }
    ghost predicate Has(a: int) { address <= a < address + Size() }
    /** Prefix notation of section 3.1 of RFC 4632: no host bits set. */
    ghost predicate IsCidr() { Multiple(address, Size()) }
  }

  type Address = a: int | 0 <= a < SPACE
  type Prefix = p: int | 0 <= p <= 32

  /** An inclusive range of addresses. */
  datatype Range = Range(lo: int, hi: int)

  ghost predicate Covered(blocks: seq<Block>, a: int) {
    exists i :: 0 <= i < |blocks| && blocks[i].Has(a)
  }

  ghost predicate InRanges(ranges: seq<Range>, a: int) {
    exists i :: 0 <= i < |ranges| && ranges[i].lo <= a <= ranges[i].hi
  }

  /** Non-empty, ascending, inside the address space, and never adjacent: each
      range is a maximal run of addresses. */
  ghost predicate Separated(ranges: seq<Range>) {
    && (forall i :: 0 <= i < |ranges| ==> 0 <= ranges[i].lo <= ranges[i].hi < SPACE)
    && (forall i, j :: 0 <= i < j < |ranges| ==> ranges[i].hi + 1 < ranges[j].lo)
  }

  /** Two aligned blocks are nested or disjoint. */
  lemma NestedOrDisjoint(small: Block, large: Block)
    requires small.IsCidr() && large.IsCidr() && large.prefix <= small.prefix
    ensures || (large.address <= small.address && small.address + small.Size() <= large.address + large.Size())
            || small.address + small.Size() <= large.address
            || large.address + large.Size() <= small.address
  {
    Pow2Add(small.prefix - large.prefix, 32 - small.prefix);
    NestedAligned(small.address, large.address, Pow2(small.prefix - large.prefix), small.Size(), large.Size());
  }

  lemma NestedAligned(a: int, b: int, f: nat, n: nat, m: nat)
    requires Multiple(a, n) && Multiple(b, m) && m == f * n
    ensures (b <= a && a + n <= b + m) || a + n <= b || b + m <= a
  {
    var p :| a == Times(p, n);
    var q :| b == Times(q, m);
    MulAssociates(q, f, n);
    NestedMultiples(p, q * f, f, n);
  }

  lemma MulAssociates(a: int, b: int, c: int)
    ensures a * (b * c) == (a * b) * c
  {
  }

  lemma NestedMultiples(p: int, lo: int, f: nat, n: nat)
    ensures || (lo * n <= p * n && p * n + n <= lo * n + f * n)
            || p * n + n <= lo * n
            || lo * n + f * n <= p * n
  {
    if p < lo {
      MulMonotone(p + 1, lo, n);
    } else if p < lo + f {
      MulMonotone(p + 1, lo + f, n);
      MulMonotone(lo, p, n);
    } else {
      MulMonotone(lo + f, p, n);
    }
  }

  lemma MulMonotone(a: int, b: int, n: nat)
    requires a <= b
    ensures a * n <= b * n
  {
    assert 0 <= (b - a) * n;
  }

  // ----- subtracting one block

  /** The last address of an excluded block, past 2^32 if its host bits are set. */
  function LastAddress(b: Block): (end: int)
    ensures b.address <= end < 2 * SPACE
  {
    Pow2WithinSpace(32 - b.prefix);
    b.address + b.Size() - 1
  }

  /** What the source's `flat_map` closure keeps of one range. */
  function Pieces(r: Range, start: int, end: int): (pieces: seq<Range>)
    requires 0 <= r.lo <= r.hi < SPACE && start <= end
    ensures Separated(pieces) && forall k :: 0 <= k < |pieces| ==> r.lo <= pieces[k].lo <= pieces[k].hi <= r.hi
  {
    if end < r.lo || start > r.hi then [r]
    else (if start > r.lo then [Range(r.lo, start - 1)] else [])
         + (if end < r.hi then [Range(end + 1, r.hi)] else [])
  }

  lemma PiecesAre(r: Range, b: Block, a: int)
    requires 0 <= r.lo <= r.hi < SPACE
    ensures InRanges(Pieces(r, b.address, LastAddress(b)), a) <==> r.lo <= a <= r.hi && !b.Has(a)
  {
    var pieces := Pieces(r, b.address, LastAddress(b));
    if r.lo <= a <= r.hi && !b.Has(a) {
      if a < b.address {
        assert pieces[0].lo <= a <= pieces[0].hi;
      } else {
        assert pieces[|pieces| - 1].lo <= a <= pieces[|pieces| - 1].hi;
      }
    }
  }

  lemma SeparatedConcat(kept: seq<Range>, pieces: seq<Range>, r: Range)
    requires Separated(kept) && Separated(pieces)
    requires forall k :: 0 <= k < |kept| ==> kept[k].hi + 1 < r.lo
    requires forall k :: 0 <= k < |pieces| ==> r.lo <= pieces[k].lo
    ensures Separated(kept + pieces)
  {
  }

  lemma KeptSoFar(ranges: seq<Range>, i: nat, b: Block, kept: seq<Range>, pieces: seq<Range>)
    requires Separated(ranges) && i < |ranges| && pieces == Pieces(ranges[i], b.address, LastAddress(b))
    requires forall a :: InRanges(kept, a) <==> InRanges(ranges[..i], a) && !b.Has(a)
    ensures forall a :: InRanges(kept + pieces, a) <==> InRanges(ranges[..i + 1], a) && !b.Has(a)
  {
    forall a ensures InRanges(kept + pieces, a) <==> InRanges(ranges[..i + 1], a) && !b.Has(a) {
      InRangesConcat(kept, pieces, a);
      PiecesAre(ranges[i], b, a);
      InRangesTake(ranges, i, a);
    }
  }

  /** One excluded block taken out of every range. */
  method SubtractBlock(ranges: seq<Range>, b: Block) returns (kept: seq<Range>)
    requires Separated(ranges)
    ensures Separated(kept)
    ensures forall a :: InRanges(kept, a) <==> InRanges(ranges, a) && !b.Has(a)
  {
    var end := LastAddress(b);
    kept := [];
    for i := 0 to |ranges|
      invariant Separated(kept)
      invariant forall k, j :: 0 <= k < |kept| && i <= j < |ranges| ==> kept[k].hi + 1 < ranges[j].lo
      invariant forall a :: InRanges(kept, a) <==> InRanges(ranges[..i], a) && !b.Has(a)
    {
      var pieces := Pieces(ranges[i], b.address, end);
      KeptSoFar(ranges, i, b, kept, pieces);
      SeparatedConcat(kept, pieces, ranges[i]);
      kept := kept + pieces;
    }
    assert ranges[..|ranges|] == ranges;
  }

  lemma InRangesTake(ranges: seq<Range>, i: nat, a: int)
    requires i < |ranges|
    ensures InRanges(ranges[..i + 1], a) <==> InRanges(ranges[..i], a) || ranges[i].lo <= a <= ranges[i].hi
  {
    assert ranges[..i + 1] == ranges[..i] + [ranges[i]];
    InRangesConcat(ranges[..i], [ranges[i]], a);
    if ranges[i].lo <= a <= ranges[i].hi {
      assert [ranges[i]][0] == ranges[i];
    }
  }

  lemma InRangesConcat(s: seq<Range>, t: seq<Range>, a: int)
    ensures InRanges(s + t, a) <==> InRanges(s, a) || InRanges(t, a)
  {
    if InRanges(s, a) {
      var i :| 0 <= i < |s| && s[i].lo <= a <= s[i].hi;
      assert (s + t)[i] == s[i];
    }
    if InRanges(t, a) {
      var i :| 0 <= i < |t| && t[i].lo <= a <= t[i].hi;
      assert (s + t)[|s| + i] == t[i];
    }
  }

  // ----- splitting one range

  ghost predicate AlignedTo(start: nat, k: nat) { forall j: nat :: j <= k ==> Multiple(start, Pow2(j)) }

  /** No aligned block larger than 2^k fits. */
  ghost predicate NoneLarger(start: nat, end: nat, k: nat) {
    forall j: nat :: k < j <= 32 ==> !Multiple(start, Pow2(j)) || start + Pow2(j) - 1 > end
  }

  /** The source's `aligned`. */
  method AlignedSize(start: nat, ghost end: nat) returns (size: nat, ghost k: nat)
    requires start <= end < SPACE
    ensures Multiple(start, size) && size <= SPACE
    ensures k <= 32 && size == Pow2(k) && AlignedTo(start, k) && NoneLarger(start, end, k)
  {
    SpaceIsPow2();
    if start == 0 {
      size := Pow2(32);
      k := 32;
    } else {
      size := Pow2(TrailingZeros(start));
      k := TrailingZeros(start);
      TrailingZerosAlign(start, k);
      if k > 32 { MultipleAtLeast(start, Pow2(k)); Pow2Monotone(32, k); }
    }
    AlignedUpTo(start, k);
    Pow2WithinSpace(k);
  }

  lemma Halved(start: nat, end: nat, k: nat)
    requires k > 0 && AlignedTo(start, k) && NoneLarger(start, end, k) && Pow2(k) > end - start + 1
    ensures AlignedTo(start, k - 1) && NoneLarger(start, end, k - 1)
  {
  }

  lemma NoShorterPrefix(start: Address, end: nat, prefix: Prefix)
    requires NoneLarger(start, end, 32 - prefix)
    ensures forall p: nat :: p < prefix && Block(start, p).IsCidr() ==> start + Pow2(32 - p) - 1 > end
  {
    forall p: nat | p < prefix && Block(start, p).IsCidr() ensures start + Pow2(32 - p) - 1 > end {
      assert Multiple(start, Pow2(32 - p));
    }
  }

  /** The largest block that starts at `start` and ends by `end`: the source's
      halving loop. */
  method LargestBlock(start: nat, end: nat) returns (size: nat, prefix: nat)
    requires start <= end < SPACE
    ensures prefix <= 32 && size == Pow2(32 - prefix) && size <= SPACE
    ensures Block(start, prefix).IsCidr() && start + size - 1 <= end
    ensures forall p: nat :: p < prefix && Block(start, p).IsCidr() ==> start + Pow2(32 - p) - 1 > end
  {
    ghost var k;
    size, k := AlignedSize(start, end);
    while size > end - start + 1
      invariant size <= SPACE
      invariant k <= 32 && size == Pow2(k) && AlignedTo(start, k) && NoneLarger(start, end, k)
    {
      Halved(start, end, k);
      size := size / 2;
      k := k - 1;
    }
    TrailingZerosOfPow2(k);
    prefix := 32 - TrailingZeros(size);
    assert Multiple(start, Pow2(k));
    NoShorterPrefix(start, end, prefix);
  }

  lemma AlignedUpTo(start: nat, k: nat)
    requires start == 0 || k == TrailingZeros(start)
    ensures forall j: nat :: j <= k ==> Multiple(start, Pow2(j))
    ensures start > 0 ==> forall j: nat :: k < j ==> !Multiple(start, Pow2(j))
  {
    forall j: nat ensures j <= k ==> Multiple(start, Pow2(j))
                  ensures start > 0 && k < j ==> !Multiple(start, Pow2(j)) {
      if start == 0 { MultipleIntro(0, 0, Pow2(j)); } else { TrailingZerosAlign(start, j); }
    }
  }

  lemma MultipleAtLeast(x: nat, n: nat)
    requires x > 0 && Multiple(x, n)
    ensures x >= n
  {
    var q :| x == Times(q, n);
    assert q >= 1;
    assert q * n >= n;
  }

  /** No CIDR block inside `space` that meets `b` sticks out of it. */
  ghost predicate Maximal(b: Block, space: iset<int>) {
    forall c: Block ::
      c.IsCidr() && (forall a :: c.Has(a) ==> a in space) && (exists a :: c.Has(a) && b.Has(a)) ==>
        b.address <= c.address && c.address + c.Size() <= b.address + b.Size()
  }

  ghost predicate Ascending(blocks: seq<Block>) {
    forall i, j :: 0 <= i < j < |blocks| ==> blocks[i].address + blocks[i].Size() <= blocks[j].address
  }

  /** One iteration of the source's outer `for`: the blocks of one range. */
  method SplitRange(r: Range, ghost space: iset<int>) returns (blocks: seq<Block>)
    requires 0 <= r.lo <= r.hi < SPACE
    requires forall a :: r.lo <= a <= r.hi ==> a in space
    requires r.lo - 1 !in space && r.hi + 1 !in space
    ensures forall i :: 0 <= i < |blocks| ==>
      blocks[i].IsCidr() && r.lo <= blocks[i].address && blocks[i].address + blocks[i].Size() - 1 <= r.hi
    ensures Ascending(blocks)
    ensures forall a :: Covered(blocks, a) <==> r.lo <= a <= r.hi
    ensures forall i :: 0 <= i < |blocks| ==> Maximal(blocks[i], space)
  {
    blocks := [];
    var start := r.lo;
    while start <= r.hi
      invariant r.lo <= start <= r.hi + 1 <= SPACE
      invariant forall i :: 0 <= i < |blocks| ==>
        blocks[i].IsCidr() && r.lo <= blocks[i].address && blocks[i].address + blocks[i].Size() <= start
      invariant Ascending(blocks)
      invariant forall a :: Covered(blocks, a) <==> r.lo <= a < start
      invariant forall i :: 0 <= i < |blocks| ==> Maximal(blocks[i], space)
      decreases r.hi - start
    {
      var size, prefix := LargestBlock(start, r.hi);
      var next := Block(start, prefix);
      NextIsMaximal(r, blocks, next, space);
      forall a ensures Covered(blocks + [next], a) <==> r.lo <= a < start + size {
        CoveredSnoc(blocks, next, a);
      }
      blocks := blocks + [next];
      start := start + size;
    }
  }

  lemma CoveredSnoc(blocks: seq<Block>, b: Block, a: int)
    ensures Covered(blocks + [b], a) <==> Covered(blocks, a) || b.Has(a)
  {
    if Covered(blocks, a) {
      var i :| 0 <= i < |blocks| && blocks[i].Has(a);
      assert (blocks + [b])[i].Has(a);
    }
    if b.Has(a) { assert (blocks + [b])[|blocks|].Has(a); }
  }

  /** A CIDR block of the same space that meets the greedy block `next` cannot
      be larger: one starting earlier would meet, and so lie inside, an earlier
      greedy block; one starting at the same address would have been taken. */
  lemma NextIsMaximal(r: Range, blocks: seq<Block>, next: Block, space: iset<int>)
    requires r.lo <= next.address <= r.hi && r.lo - 1 !in space && r.hi + 1 !in space
    requires forall i :: 0 <= i < |blocks| ==>
      blocks[i].IsCidr() && blocks[i].address + blocks[i].Size() <= next.address
    requires forall a :: Covered(blocks, a) <==> r.lo <= a < next.address
    requires forall i :: 0 <= i < |blocks| ==> Maximal(blocks[i], space)
    requires next.IsCidr() && next.address + next.Size() - 1 <= r.hi
    requires forall p: nat :: p < next.prefix && Block(next.address, p).IsCidr() ==>
      next.address + Pow2(32 - p) - 1 > r.hi
    ensures Maximal(next, space)
  {
    forall c: Block | c.IsCidr() && (forall a :: c.Has(a) ==> a in space) && (exists a :: c.Has(a) && next.Has(a))
      ensures next.address <= c.address && c.address + c.Size() <= next.address + next.Size()
    {
      if c.prefix >= next.prefix {
        NestedOrDisjoint(c, next);
      } else {
        NestedOrDisjoint(next, c);
        assert c.Has(next.address) && !c.Has(r.hi + 1);
        StartsNoEarlier(r, blocks, next.address, c, space);
      }
    }
  }

  lemma StartsNoEarlier(r: Range, blocks: seq<Block>, start: int, c: Block, space: iset<int>)
    requires r.lo - 1 !in space && r.lo <= start
    requires forall i :: 0 <= i < |blocks| ==>
      blocks[i].address + blocks[i].Size() <= start && Maximal(blocks[i], space)
    requires forall a :: Covered(blocks, a) <==> r.lo <= a < start
    requires c.IsCidr() && c.Has(start) && forall a :: c.Has(a) ==> a in space
    ensures c.address == start
  {
    forall i | 0 <= i < |blocks| ensures !blocks[i].Has(c.address) {
      assert Maximal(blocks[i], space) && c.Has(c.address);
    }
    assert !Covered(blocks, c.address) && !c.Has(r.lo - 1);
  }

  // ----- the whole function

  /** Ascending maximal blocks that cover `space` exactly. */
  ghost predicate Division(cidrs: seq<Block>, space: iset<int>) {
    && Ascending(cidrs)
    && (forall i :: 0 <= i < |cidrs| ==> cidrs[i].IsCidr() && Maximal(cidrs[i], space))
    && (forall a :: Covered(cidrs, a) <==> a in space)
  }

  ghost function Complement(excluded: seq<Block>): iset<int>
  {
    iset a | 0 <= a < SPACE && !Covered(excluded, a)
  }

  /** `public_ipv4_cidrs`, for any list of excluded blocks. */
  method PublicCidrs(excluded: seq<Block>) returns (cidrs: seq<Block>)
    ensures forall i :: 0 <= i < |cidrs| ==> cidrs[i].IsCidr()
    ensures Ascending(cidrs)
    ensures forall a :: Covered(cidrs, a) <==> 0 <= a < SPACE && !Covered(excluded, a)
    ensures forall family: seq<Block> ::
              && (forall i :: 0 <= i < |family| ==> family[i].IsCidr())
              && (forall a :: Covered(family, a) <==> Covered(cidrs, a))
              ==> |cidrs| <= |family|
    ensures Division(cidrs, Complement(excluded))
  {
    var ranges := [Range(0, SPACE - 1)];
    forall a ensures InRanges(ranges, a) <==> 0 <= a < SPACE && !Covered(excluded[..0], a) {
      assert ranges[0] == Range(0, SPACE - 1);
    }
    for i := 0 to |excluded|
      invariant Separated(ranges)
      invariant forall a :: InRanges(ranges, a) <==> 0 <= a < SPACE && !Covered(excluded[..i], a)
    {
      ghost var before := ranges;
      ranges := SubtractBlock(ranges, excluded[i]);
      forall a ensures Covered(excluded[..i + 1], a) <==> Covered(excluded[..i], a) || excluded[i].Has(a) {
        assert excluded[..i + 1] == excluded[..i] + [excluded[i]];
        CoveredSnoc(excluded[..i], excluded[i], a);
      }
    }
    assert excluded[..|excluded|] == excluded;
    cidrs := SplitRanges(ranges, Complement(excluded));
    forall family: seq<Block> |
      && (forall i :: 0 <= i < |family| ==> family[i].IsCidr())
      && (forall a :: Covered(family, a) <==> Covered(cidrs, a))
      ensures |cidrs| <= |family|
    {
      MaximalIsMinimal(cidrs, family, Complement(excluded));
    }
  }

  method SplitRanges(ranges: seq<Range>, ghost space: iset<int>) returns (cidrs: seq<Block>)
    requires Separated(ranges) && forall a :: a in space <==> InRanges(ranges, a)
    ensures forall i :: 0 <= i < |cidrs| ==> cidrs[i].IsCidr()
    ensures Ascending(cidrs)
    ensures forall a :: Covered(cidrs, a) <==> a in space
    ensures forall i :: 0 <= i < |cidrs| ==> Maximal(cidrs[i], space)
  {
    cidrs := [];
    for i := 0 to |ranges|
      invariant forall k :: 0 <= k < |cidrs| ==> cidrs[k].IsCidr() && Maximal(cidrs[k], space)
      invariant Ascending(cidrs)
      invariant forall k, j :: 0 <= k < |cidrs| && i <= j < |ranges| ==>
        cidrs[k].address + cidrs[k].Size() <= ranges[j].lo
      invariant forall a :: Covered(cidrs, a) <==> InRanges(ranges[..i], a)
    {
      var r := ranges[i];
      assert forall a :: r.lo <= a <= r.hi ==> InRanges(ranges, a);
      assert !InRanges(ranges, r.lo - 1) && !InRanges(ranges, r.hi + 1);
      var blocks := SplitRange(r, space);
      forall a ensures Covered(cidrs + blocks, a) <==> InRanges(ranges[..i + 1], a) {
        CoveredConcat(cidrs, blocks, a);
        InRangesTake(ranges, i, a);
      }
      assert forall k, j :: 0 <= k < |blocks| && i < j < |ranges| ==>
        blocks[k].address + blocks[k].Size() <= ranges[j].lo;
      cidrs := cidrs + blocks;
    }
    assert ranges[..|ranges|] == ranges;
  }

  lemma CoveredConcat(s: seq<Block>, t: seq<Block>, a: int)
    ensures Covered(s + t, a) <==> Covered(s, a) || Covered(t, a)
  {
    if Covered(s, a) {
      var i :| 0 <= i < |s| && s[i].Has(a);
      assert (s + t)[i].Has(a);
    }
    if Covered(t, a) {
      var i :| 0 <= i < |t| && t[i].Has(a);
      assert (s + t)[|s| + i].Has(a);
    }
  }

  /** Disjoint maximal blocks are the fewest: any other family needs, for each of
      them, a member of its own, starting at the same address. */
  lemma MaximalIsMinimal(cidrs: seq<Block>, family: seq<Block>, space: iset<int>)
    requires forall i :: 0 <= i < |cidrs| ==> cidrs[i].IsCidr() && Maximal(cidrs[i], space)
    requires Ascending(cidrs)
    requires forall a :: Covered(cidrs, a) <==> a in space
    requires forall i :: 0 <= i < |family| ==> family[i].IsCidr()
    requires forall a :: Covered(family, a) <==> Covered(cidrs, a)
    ensures |cidrs| <= |family|
  {
    forall a | a in Starts(cidrs) ensures a in Starts(family) {
      StartsHas(cidrs, a);
      var i :| 0 <= i < |cidrs| && cidrs[i].address == a;
      assert cidrs[i].Has(a);
      assert Covered(cidrs, a);
      var j :| 0 <= j < |family| && family[j].Has(a);
      assert forall x :: family[j].Has(x) ==> Covered(family, x);
      assert Maximal(cidrs[i], space);
      StartsHas(family, a);
    }
    SubsetCard(Starts(cidrs), Starts(family));
    DistinctStarts(cidrs);
    StartsCard(family);
  }

  ghost function Starts(blocks: seq<Block>): set<int> {
    if blocks == [] then {} else Starts(blocks[..|blocks| - 1]) + {blocks[|blocks| - 1].address}
  }

  lemma {:induction false} StartsHas(blocks: seq<Block>, a: int)
    ensures a in Starts(blocks) <==> exists i :: 0 <= i < |blocks| && blocks[i].address == a
  {
    if blocks != [] {
      StartsHas(blocks[..|blocks| - 1], a);
    }
  }

  lemma {:induction false} StartsCard(blocks: seq<Block>)
    ensures |Starts(blocks)| <= |blocks|
  {
    if blocks != [] {
      StartsCard(blocks[..|blocks| - 1]);
    }
  }

  lemma {:induction false} DistinctStarts(blocks: seq<Block>)
    requires Ascending(blocks)
    ensures |Starts(blocks)| == |blocks|
  {
    if blocks != [] {
      DistinctStarts(blocks[..|blocks| - 1]);
      StartsHas(blocks[..|blocks| - 1], blocks[|blocks| - 1].address);
    }
  }

  lemma {:induction false} SubsetCard<T>(s: set<T>, t: set<T>)
    requires s <= t
    ensures |s| <= |t|
  {
    if s != {} {
      var x :| x in s;
      SubsetCard(s - {x}, t - {x});
    }
  }

  // ----- there is only one such division

  predicate StartsBefore(b: Block, c: Block) { b.address < c.address }

  lemma MaximalMeet(b: Block, c: Block, space: iset<int>, x: int)
    requires b.IsCidr() && c.IsCidr() && Maximal(b, space) && Maximal(c, space) && b.Has(x) && c.Has(x)
    requires (forall a :: b.Has(a) ==> a in space) && (forall a :: c.Has(a) ==> a in space)
    ensures b == c
  {
    SameSpan(b, c);
  }

  lemma InOther(a: seq<Block>, b: seq<Block>, space: iset<int>, x: Block)
    requires Division(a, space) && Division(b, space) && x in a
    ensures x in b
  {
    assert x.Has(x.address);
    assert Covered(a, x.address) && Covered(b, x.address);
    var j :| 0 <= j < |b| && b[j].Has(x.address);
    assert forall y :: x.Has(y) ==> Covered(a, y);
    assert forall y :: b[j].Has(y) ==> Covered(b, y);
    MaximalMeet(x, b[j], space, x.address);
  }

  lemma SameSpan(b: Block, c: Block)
    requires b.address == c.address && b.Size() == c.Size()
    ensures b == c
  {
    if b.prefix < c.prefix { Pow2Monotone(32 - c.prefix, 32 - b.prefix); }
    if c.prefix < b.prefix { Pow2Monotone(32 - b.prefix, 32 - c.prefix); }
  }

  /** A set of addresses divides into ascending maximal blocks in one way only. */
  lemma DivisionUnique(a: seq<Block>, b: seq<Block>, space: iset<int>)
    requires Division(a, space) && Division(b, space)
    ensures a == b
  {
    forall x ensures x in a <==> x in b {
      if x in a { InOther(a, b, space, x); }
      if x in b { InOther(b, a, space, x); }
    }
    AscendingUnique(StartsBefore, a, b);
  }

  /** The blocks that hold an address, by its leading bits. */
  lemma HasByBits(b: Block, a: nat)
    requires b.IsCidr()
    ensures b.Has(a) <==> a / b.Size() == b.address / b.Size()
  {
    var n := b.Size();
    var q :| b.address == Times(q, n);
    QuotientOf(b.address, q, 0, n);
    QuotientOf(a, a / n, a % n, n);
    QuotientRange(a, q, n);
  }

  lemma QuotientOf(x: nat, q: int, r: nat, n: nat)
    requires n > 0 && x == q * n + r && r < n
    ensures x / n == q
  {
    DivUnique(x / n, x % n, q, r, n);
  }

  lemma DivUnique(p: int, r: nat, q: int, t: nat, n: nat)
    requires r < n && t < n && p * n + r == q * n + t
    ensures p == q
  {
    if p < q {
      MulMonotone(p + 1, q, n);
    } else if q < p {
      MulMonotone(q + 1, p, n);
    }
  }

  lemma QuotientRange(a: nat, q: int, n: nat)
    requires n > 0
    ensures q * n <= a < q * n + n <==> a / n == q
  {
    if q * n <= a < q * n + n { QuotientOf(a, q, a - q * n, n); }
  }
}
