/** The bump arena: a list of blocks, of which the current one is filled from the left. */
module Arenas {
  import opened Json
  import opened Bits

  const DEFAULT_BLOCK: nat := 65536
  /** The bytes of the block header in front of the data. */
  const HEADER: nat := 32

  /** A block: `capacity` bytes of data from address `base`, of which the first `used` are taken. */
  datatype Block = Block(base: nat, capacity: nat, used: nat)

  /** `size` bytes granted from address `start`, in block number `home` of the list. */
  datatype Region = Region(home: nat, start: nat, size: nat, align: nat)

  function Sizes(regions: seq<Region>): nat {
    if regions == [] then 0 else Sizes(regions[..|regions| - 1]) + regions[|regions| - 1].size
  }

  /** `align_up` in 64-bit arithmetic. */
  function AlignUp(offset: nat, align: nat): nat
    requires 0 < align <= SIZE_MAX
  {
    And(Mod(offset + align - 1, SIZE_MAX + 1), SIZE_MAX + 1 - align)
  }

  /** The first multiple of `m` from `x` on. */
  function RoundUp(x: nat, m: nat): (r: nat)
    requires m > 0
    ensures x <= r < x + m
  {
    var over := Mod(x, m);
    if over == 0 then x else x + (m - over)
  }

  lemma RoundUpAligned(x: nat, m: nat)
    requires m > 0
    ensures Mod(RoundUp(x, m), m) == 0
  {
    if x % m != 0 {
      Remainder(RoundUp(x, m), m, x / m + 1, 0);
    }
  }

  lemma RoundDownIsUp(x: nat, m: nat)
    requires m > 0
    ensures x + m - 1 - Mod(x + m - 1, m) == RoundUp(x, m)
  {
    var q, r := x / m, Mod(x, m);
    if r == 0 {
      Remainder(x + m - 1, m, q, m - 1);
    } else {
      Remainder(x + m - 1, m, q + 1, r - 1);
    }
  }

  /** The bit trick rounds up, as long as nothing wraps. */
  lemma AlignUpRounds(offset: nat, align: nat)
    requires 0 < align <= SIZE_MAX && IsPow2(align) && offset + align <= SIZE_MAX + 1
    ensures AlignUp(offset, align) == RoundUp(offset, align)
  {
    var k: nat :| align == Pow2(k);
    Pow2At64();
    if k > 64 { Monotone(64, k); }
    hide And, Pow2, Mod;
    var x := offset + align - 1;
    ClearIsRoundDown(x, k, 64);
    Small(x, SIZE_MAX + 1);
    RoundDownIsUp(offset, align);
  }

  lemma Small(x: nat, m: nat)
    requires x < m
    ensures Mod(x, m) == x
  {
    Remainder(x, m, 0, x);
  }

  lemma Carry(x: nat, m: nat)
    requires m <= x < 2 * m
    ensures Mod(x, m) == x - m
  {
    Remainder(x, m, 1, x - m);
  }

  /** A sum in 64-bit arithmetic. */
  function Word(x: nat): (w: nat)
    ensures w <= SIZE_MAX
  {
    Mod(x, SIZE_MAX + 1)
  }

  lemma WordCases(x: nat)
    requires x <= 2 * SIZE_MAX + 1
    ensures Word(x) == if x <= SIZE_MAX then x else x - (SIZE_MAX + 1)
  {
    hide Mod;
    if x <= SIZE_MAX { Small(x, SIZE_MAX + 1); } else { Carry(x, SIZE_MAX + 1); }
  }

  /** Where the bit trick wraps, it gives zero. */
  lemma AlignUpWraps(offset: nat, align: nat)
    requires offset <= SIZE_MAX && 0 < align <= SIZE_MAX && IsPow2(align) && offset + align > SIZE_MAX + 1
    ensures AlignUp(offset, align) == 0
  {
    var k: nat :| align == Pow2(k);
    Pow2At64();
    if k > 64 { Monotone(64, k); }
    hide And, Pow2, Mod;
    var x := offset + align - 1 - (SIZE_MAX + 1);
    Carry(offset + align - 1, SIZE_MAX + 1);
    ClearIsRoundDown(x, k, 64);
    Small(x, align);
  }

  /** Two blocks, headers included, share no byte. */
  predicate Separate(a: Block, b: Block) {
    a.base + a.capacity + HEADER <= b.base || b.base + b.capacity + HEADER <= a.base
  }

  /** Two regions share no byte. */
  predicate Disjoint(a: Region, b: Region) {
    a.start + a.size <= b.start || b.start + b.size <= a.start
  }

  /** A byte of a block or of its header of 32 bytes. */
  predicate OfBlock(x: int, b: Block) {
    b.base - 32 <= x < b.base + b.capacity
  }

  predicate OfRegion(x: int, r: Region) {
    r.start <= x < r.start + r.size
  }

  lemma SeparateMeans(a: Block, b: Block)
    ensures Separate(a, b) <==> forall x :: !(OfBlock(x, a) && OfBlock(x, b))
  {
    var x := if a.base < b.base then b.base - 32 else a.base - 32;
    assert !Separate(a, b) ==> OfBlock(x, a) && OfBlock(x, b);
  }

  /** No byte belongs to two of the regions. */
  lemma ApartMeans(regions: seq<Region>)
    requires Apart(regions)
    ensures forall i, j, x | 0 <= i < j < |regions| && OfRegion(x, regions[i]) :: !OfRegion(x, regions[j])
  {
    assert forall i, j | 0 <= i < j < |regions| :: Disjoint(regions[i], regions[j]);
  }

  predicate InMemory(b: Block) {
    HEADER <= b.base && b.base + b.capacity <= SIZE_MAX && b.used <= b.capacity
  }

  /** The aligned offset in a block, from where the next region starts. */
  function Offset(b: Block, align: nat): (offset: nat)
    requires 0 < align <= SIZE_MAX && b.base <= SIZE_MAX
    ensures offset <= SIZE_MAX
  {
    Word(AlignUp(b.base + b.used, align) + (SIZE_MAX + 1 - b.base))
  }

  /** Either the offset is that of the next aligned address, or it wraps and points to address zero. */
  lemma OffsetCases(b: Block, align: nat)
    requires InMemory(b) && 0 < align <= SIZE_MAX && IsPow2(align)
    ensures b.base + b.used + align <= SIZE_MAX + 1 ==> b.base + Offset(b, align) == RoundUp(b.base + b.used, align)
    ensures b.base + b.used + align > SIZE_MAX + 1 ==> b.base + Offset(b, align) == SIZE_MAX + 1
  {
    hide AlignUp, RoundUp, Word, IsPow2;
    var x := b.base + b.used;
    if x + align <= SIZE_MAX + 1 {
      AlignUpRounds(x, align);
      WordCases(RoundUp(x, align) + (SIZE_MAX + 1 - b.base));
    } else {
      AlignUpWraps(x, align);
      WordCases(SIZE_MAX + 1 - b.base);
    }
  }

  /** The blocks lie apart in memory, and those after the current one are unused. */
  ghost predicate Placed(blocks: seq<Block>, current: nat) {
    && (forall i | 0 <= i < |blocks| :: InMemory(blocks[i]))
    && (forall i, j | 0 <= i < j < |blocks| :: Separate(blocks[i], blocks[j]))
    && (forall i | current < i < |blocks| :: blocks[i].used == 0)
  }

  /** The region is aligned and lies in the used part of its block. */
  predicate Lies(r: Region, blocks: seq<Block>) {
    && r.home < |blocks|
    && 0 < r.size && 0 < r.align && Mod(r.start, r.align) == 0
    && blocks[r.home].base <= r.start
    && r.start + r.size <= blocks[r.home].base + blocks[r.home].used
  }

  /** Every region lies in a block up to the current one; within a block the regions follow one another. */
  ghost predicate Granted(regions: seq<Region>, blocks: seq<Block>, current: nat) {
    && (forall i | 0 <= i < |regions| :: regions[i].home <= current && Lies(regions[i], blocks))
    && (forall i, j | 0 <= i < j < |regions| && regions[i].home == regions[j].home ::
          regions[i].start + regions[i].size <= regions[j].start)
  }

  /** Any two regions handed out are disjoint. */
  ghost predicate Apart(regions: seq<Region>) {
    forall i, j | 0 <= i < j < |regions| :: Disjoint(regions[i], regions[j])
  }

  lemma RegionsApart(regions: seq<Region>, blocks: seq<Block>, current: nat)
    requires Placed(blocks, current) && Granted(regions, blocks, current)
    ensures Apart(regions)
  {
    hide Mod;
    forall i, j | 0 <= i < j < |regions| ensures Disjoint(regions[i], regions[j]) {
      assert Lies(regions[i], blocks) && Lies(regions[j], blocks);
      var g, h := regions[i].home, regions[j].home;
      if g < h {
        assert Separate(blocks[g], blocks[h]);
      } else if h < g {
        assert Separate(blocks[h], blocks[g]);
      }
    }
  }

  function Inserted(blocks: seq<Block>, at: nat, block: Block): seq<Block>
    requires at < |blocks|
  {
    blocks[..at + 1] + [block] + blocks[at + 1..]
  }

  /** Block number `at` with its first `used` bytes taken. */
  function WithUsed(blocks: seq<Block>, at: nat, used: nat): seq<Block>
    requires at < |blocks|
  {
    blocks[at := blocks[at].(used := used)]
  }

  lemma InsertedKeeps(regions: seq<Region>, blocks: seq<Block>, at: nat, block: Block)
    requires at < |blocks| && Placed(blocks, at) && Granted(regions, blocks, at)
    requires InMemory(block) && block.used == 0 && forall i | 0 <= i < |blocks| :: Separate(block, blocks[i])
    ensures Placed(Inserted(blocks, at, block), at + 1)
    ensures Granted(regions, Inserted(blocks, at, block), at + 1)
  {
  }

  lemma GrantKeeps(regions: seq<Region>, blocks: seq<Block>, at: nat, r: Region)
    requires at < |blocks| && Placed(blocks, at) && Granted(regions, blocks, at)
    requires r.home == at && r.size > 0 && r.align > 0 && Mod(r.start, r.align) == 0
    requires blocks[at].base + blocks[at].used <= r.start
    requires r.start + r.size <= blocks[at].base + blocks[at].capacity
    ensures var after := WithUsed(blocks, at, r.start + r.size - blocks[at].base);
      Placed(after, at) && Granted(regions + [r], after, at)
  {
    hide Mod;
    var after := WithUsed(blocks, at, r.start + r.size - blocks[at].base);
    forall i | 0 <= i < |regions| ensures Lies(regions[i], after) {
      assert Lies(regions[i], blocks);
    }
  }

  /** The request ends inside the block, without any sum wrapping. */
  predicate Whole(b: Block, size: nat, align: nat)
    requires 0 < align <= SIZE_MAX && b.base <= SIZE_MAX
  {
    Offset(b, align) + size <= b.capacity
  }

  /** The region that is handed out at the aligned offset of a block. */
  function RegionIn(b: Block, home: nat, size: nat, align: nat): Region
    requires 0 < align <= SIZE_MAX && b.base <= SIZE_MAX
  {
    Region(home, Word(b.base + Offset(b, align)), size, align)
  }

  /** After a grant the regions still lie apart in their blocks, exactly if the request ends inside the block. */
  lemma GrantExact(regions: seq<Region>, blocks: seq<Block>, at: nat, size: nat, align: nat)
    requires at < |blocks| && Placed(blocks, at) && Granted(regions, blocks, at)
    requires 0 < size <= SIZE_MAX && 0 < align <= SIZE_MAX && IsPow2(align)
    ensures blocks[at].base <= SIZE_MAX
    ensures var b := blocks[at];
      var after := WithUsed(blocks, at, Word(Offset(b, align) + size));
      Whole(b, size, align) <==>
        Placed(after, at) && Granted(regions + [RegionIn(b, at, size, align)], after, at)
    ensures Whole(blocks[at], size, align) ==>
      RegionIn(blocks[at], at, size, align).start == RoundUp(blocks[at].base + blocks[at].used, align)
  {
    hide IsPow2, Word, Mod, Offset, RoundUp;
    var b := blocks[at];
    var offset, r := Offset(b, align), RegionIn(b, at, size, align);
    OffsetCases(b, align);
    WordCases(b.base + offset);
    WordCases(offset + size);
    RoundUpAligned(b.base + b.used, align);
    if Whole(b, size, align) {
      GrantKeeps(regions, blocks, at, r);
    } else {
      var after := WithUsed(blocks, at, Word(offset + size));
      NotGranted(regions, r, after, at);
    }
  }

  lemma NotGranted(regions: seq<Region>, r: Region, blocks: seq<Block>, at: nat)
    requires at < |blocks| && r.home == at && (InMemory(blocks[at]) ==> !Lies(r, blocks))
    ensures !(Placed(blocks, at) && Granted(regions + [r], blocks, at))
  {
    var all := regions + [r];
    assert all[|regions|] == r;
  }

  lemma SizesGrow(regions: seq<Region>, r: Region)
    ensures Word(Sizes(regions + [r])) == Word(Word(Sizes(regions)) + r.size)
  {
    assert (regions + [r])[..|regions|] == regions;
    WordSum(Sizes(regions), r.size);
  }

  lemma WordSum(x: nat, y: nat)
    ensures Word(Word(x) + y) == Word(x + y)
  {
    var m := SIZE_MAX + 1;
    var q, r := (Word(x) + y) / m, Mod(Word(x) + y, m);
    assert x + y == (x / m + q) * m + r;
    Remainder(x + y, m, x / m + q, r);
  }

  /** In the current block the room test decides, as long as its sum does not wrap. */
  lemma AcceptedIsWhole(b: Block, size: nat, align: nat)
    requires InMemory(b) && size <= SIZE_MAX && 0 < align <= SIZE_MAX
    requires Word(Offset(b, align) + size) <= b.capacity
    ensures Whole(b, size, align) <==> Offset(b, align) + size <= SIZE_MAX
  {
    hide Word, Offset;
    WordCases(Offset(b, align) + size);
  }

  /** A request that passes the room test of a block with 16 bytes in use and moves its mark back to 7. */
  lemma WrappedRequest()
    ensures var b, size := Block(4096, DEFAULT_BLOCK, 16), SIZE_MAX - 8;
      Word(Offset(b, 1) + size) == 7 < b.used && !Whole(b, size, 1)
  {
    var b, size := Block(4096, DEFAULT_BLOCK, 16), SIZE_MAX - 8;
    assert Pow2(0) == 1;
    hide Offset, Word, IsPow2;
    OffsetCases(b, 1);
    WordCases(Offset(b, 1) + size);
  }

  /** A new block has room for the request it is made for, if no sum wraps. */
  lemma NewBlockFits(b: Block, blockSize: nat, size: nat, align: nat)
    requires size <= SIZE_MAX && 0 < align <= SIZE_MAX && IsPow2(align) && blockSize + HEADER <= SIZE_MAX
    requires b.used == 0 && b.base <= SIZE_MAX
    requires b.capacity == if Word(size + align) > blockSize then Word(size + align) else blockSize
    ensures size + align + HEADER <= SIZE_MAX && InMemory(b) ==> Whole(b, size, align)
    ensures size + align + HEADER <= SIZE_MAX ==> b.capacity + HEADER <= SIZE_MAX
    ensures b.capacity <= SIZE_MAX
  {
    hide Word, Offset, IsPow2, RoundUp;
    WordCases(size + align);
    if InMemory(b) { OffsetCases(b, align); }
  }

  lemma NotPlaced(blocks: seq<Block>, at: nat)
    requires at < |blocks| && !InMemory(blocks[at])
    ensures !Placed(blocks, at)
  {
  }

  class Arena {
    /** The blocks in list order, and the one being filled. */
    var blocks: seq<Block>
    var current: nat
    var blockSize: nat
    var totalAllocated: nat
    /** What was handed out since the last reset, oldest first. */
    ghost var regions: seq<Region>

    ghost predicate Valid()
      reads this
    {
      && current < |blocks| && blockSize + HEADER <= SIZE_MAX
      && Placed(blocks, current) && Granted(regions, blocks, current) && Apart(regions)
      && totalAllocated == Word(Sizes(regions))
    }

    /** `malloc` was asked for a header and `capacity` bytes, and answers with a range inside the address
        space and outside every block. The number of bytes wraps. */
    ghost predicate Answered(base: nat, capacity: nat)
      reads this
    {
      var bytes := Word(HEADER + capacity);
      && HEADER <= base <= SIZE_MAX && base - HEADER + bytes <= SIZE_MAX
      && (bytes >= HEADER ==> forall i | 0 <= i < |blocks| :: Separate(Block(base, bytes - HEADER, 0), blocks[i]))
    }

    /** If nothing wraps, that is a range for the block and its header, in memory and apart from the others. */
    lemma AnswerMeans(base: nat, capacity: nat)
      requires capacity + 32 <= SIZE_MAX
      ensures Answered(base, capacity) <==>
        32 <= base && base + capacity <= SIZE_MAX
        && forall i | 0 <= i < |blocks| :: Separate(Block(base, capacity, 0), blocks[i])
    {
      WordCases(32 + capacity);
    }

    /** The test the code makes: the current block has room behind its used part, if nothing wraps. */
    predicate Accepts(size: nat, align: nat)
      requires current < |blocks| && blocks[current].base <= SIZE_MAX && 0 < align <= SIZE_MAX
      reads this
    {
      Word(Offset(blocks[current], align) + size) <= blocks[current].capacity
    }

    /** The capacity asked for when the current block is too full. */
    function NewCapacity(size: nat, align: nat): nat
      reads this
    {
      if Word(size + align) > blockSize then Word(size + align) else blockSize
    }

    /** The blocks once there is one to grant from: a new one is linked behind the current one. */
    function BlocksFor(size: nat, align: nat, place: Option<nat>): seq<Block>
      requires current < |blocks| && blocks[current].base <= SIZE_MAX && 0 < align <= SIZE_MAX
      reads this
    {
      if Accepts(size, align) || place.None? then blocks
      else Inserted(blocks, current, Block(place.value, NewCapacity(size, align), 0))
    }

    function HomeFor(size: nat, align: nat, place: Option<nat>): nat
      requires current < |blocks| && blocks[current].base <= SIZE_MAX && 0 < align <= SIZE_MAX
      reads this
    {
      if Accepts(size, align) || place.None? then current else current + 1
    }

    constructor (size: nat, base: nat)
      requires InMemory(Block(base, if size == 0 then DEFAULT_BLOCK else size, 0))
      ensures Valid() && regions == [] && current == 0
      ensures blockSize == if size == 0 then 65536 else size
      ensures blocks == [Block(base, blockSize, 0)]
    {
      WordCases(0);
      var capacity := if size == 0 then DEFAULT_BLOCK else size;
      blocks, current, blockSize, totalAllocated := [Block(base, capacity, 0)], 0, capacity, 0;
      regions := [];
    }

    /** `oas_arena_alloc`, over all 64-bit sizes and alignments. If a new block is needed, `place` is what
        `malloc` answers. The regions handed out stay apart exactly if the request ends inside its block:
        for the current block that is if the sum in the room test does not wrap. */
    method Alloc(size: nat, align: nat, place: Option<nat>) returns (ptr: Option<nat>)
      requires Valid() && size <= SIZE_MAX && align <= SIZE_MAX
      requires place.Some? ==> Answered(place.value, NewCapacity(size, align))
      modifies this
      ensures blockSize == old(blockSize)
      ensures old(blocks[current].base) <= SIZE_MAX
      ensures ptr.Some? <==> size > 0 && align > 0 && IsPow2(align) && (old(Accepts(size, align)) || place.Some?)
      ensures ptr.None? ==>
        Valid() && blocks == old(blocks) && current == old(current) && regions == old(regions)
      ensures ptr.Some? ==>
        var before, home := old(BlocksFor(size, align, place)), old(HomeFor(size, align, place));
        && home == current < |before| && before[home].base <= SIZE_MAX
        && ptr.value == RegionIn(before[home], home, size, align).start
        && regions == old(regions) + [RegionIn(before[home], home, size, align)]
        && blocks == WithUsed(before, home, Word(Offset(before[home], align) + size))
        && (Valid() <==> InMemory(before[home]) && Whole(before[home], size, align))
        && (Valid() ==> ptr.value == RoundUp(before[home].base + before[home].used, align))
      ensures ptr.Some? && old(Accepts(size, align)) ==>
        (Valid() <==> Offset(old(blocks[current]), align) + size <= SIZE_MAX)
      ensures ptr.Some? && !old(Accepts(size, align)) && size + align + 32 <= 0xFFFF_FFFF_FFFF_FFFF ==> Valid()
    {
      hide Placed, Granted, Apart, IsPow2, RoundUp, Mod, Sizes, Inserted, Word, Offset, WithUsed;
      CurrentInMemory();
      if size == 0 || align == 0 {
        return None;
      }
      var aligned := IsPowerOfTwo(align);
      if !aligned {
        return None;
      }
      var offset := Offset(blocks[current], align);
      if Word(offset + size) > blocks[current].capacity {
        if place.None? {
          return None;
        }
        ghost var capacity := NewCapacity(size, align);
        NewBlockFits(Block(place.value, capacity, 0), blockSize, size, align);
        WordCases(HEADER + capacity);
        Extend(place.value, NewCapacity(size, align));
      } else {
        AcceptedIsWhole(blocks[current], size, align);
      }
      var start := Grant(size, align);
      ptr := Some(start);
    }

    lemma CurrentInMemory()
      requires Valid()
      ensures InMemory(blocks[current])
    {
    }

    /** The bit test for a power of two. */
    static method IsPowerOfTwo(n: nat) returns (yes: bool)
      requires n > 0
      ensures yes == IsPow2(n)
    {
      PowerTest(n);
      yes := And(n, n - 1) == 0;
    }

    /** Takes the aligned rest of the current block, up to the end of the request. */
    method Grant(size: nat, align: nat) returns (start: nat)
      requires current < |blocks| && blocks[current].base <= SIZE_MAX
      requires 0 < size <= SIZE_MAX && 0 < align <= SIZE_MAX && IsPow2(align)
      modifies this`blocks, this`totalAllocated, this`regions
      ensures var b, r := old(blocks[current]), RegionIn(old(blocks[current]), current, size, align);
        && start == r.start && regions == old(regions) + [r]
        && blocks == WithUsed(old(blocks), current, Word(Offset(b, align) + size))
        && (old(Valid()) ==>
              && (Valid() <==> Whole(b, size, align))
              && (Valid() ==> start == RoundUp(b.base + b.used, align)))
        && (b.base + b.capacity > SIZE_MAX ==> !Valid())
    {
      hide Placed, Granted, Apart, Sizes, Mod, RoundUp, Offset, Word, IsPow2;
      ghost var r := RegionIn(blocks[current], current, size, align);
      ghost var before, earlier := blocks, regions;
      if Placed(before, current) && Granted(earlier, before, current) {
        GrantExact(regions, blocks, current, size, align);
      }
      SizesGrow(regions, r);
      var offset := Offset(blocks[current], align);
      start := Word(blocks[current].base + offset);
      blocks := WithUsed(blocks, current, Word(offset + size));
      totalAllocated := Word(totalAllocated + size);
      regions := regions + [r];
      if Placed(blocks, current) && Granted(regions, blocks, current) {
        RegionsApart(regions, blocks, current);
      }
      if !InMemory(blocks[current]) { NotPlaced(blocks, current); }
    }

    /** Links a fresh block after the current one and makes it current. */
    method Extend(base: nat, capacity: nat)
      requires Valid() && Answered(base, capacity) && capacity <= SIZE_MAX
      modifies this`blocks, this`current
      ensures current == old(current) + 1 < |blocks| && blocks[current] == Block(base, capacity, 0)
      ensures blocks == Inserted(old(blocks), old(current), Block(base, capacity, 0))
      ensures Valid() <==> InMemory(Block(base, capacity, 0))
    {
      hide Placed, Granted, Apart, Word;
      var block := Block(base, capacity, 0);
      WordCases(HEADER + capacity);
      if InMemory(block) {
        InsertedKeeps(regions, blocks, current, block);
      } else {
        NotPlaced(Inserted(blocks, current, block), current + 1);
      }
      blocks := blocks[..current + 1] + [block] + blocks[current + 1..];
      current := current + 1;
    }

    /** `oas_arena_reset`: the blocks stay, whatever was handed out from them. */
    method Reset()
      requires 0 < |blocks| && blockSize + HEADER <= SIZE_MAX && Placed(blocks, current)
      modifies this
      ensures Valid() && regions == [] && current == 0 && totalAllocated == 0
      ensures blockSize == old(blockSize) && |blocks| == old(|blocks|)
      ensures forall i | 0 <= i < |blocks| :: blocks[i] == old(blocks[i]).(used := 0)
    {
      regions := [];
      for i := 0 to |blocks|
        invariant |blocks| == old(|blocks|) && regions == [] && blockSize == old(blockSize)
        invariant forall k | 0 <= k < |blocks| ::
          blocks[k] == if k < i then old(blocks[k]).(used := 0) else old(blocks[k])
      {
        blocks := blocks[i := blocks[i].(used := 0)];
      }
      current, totalAllocated := 0, 0;
      assert forall k | 0 <= k < |blocks| :: InMemory(old(blocks[k]));
      assert forall i, j | 0 <= i < j < |blocks| :: Separate(old(blocks[i]), old(blocks[j]));
    }
  }
}
