/** EvrCardG2Prom: erases the PROM, writes an MCS file into it in blocks of 256
    words and reads it back. */
module PromLoader {
  import opened Bits
  import opened IntelHex
  import opened McsReader
  import opened Wrappers

  const ERASE_STEP := 0x4000   // PROM_BLOCK_SIZE
  const BLOCK := 256

  type U16 = x: int | 0 <= x < 0x1_0000

  const ONES: U16 := 0xFFFF

  /** One word of a buffered program command. */
  datatype Cmd = Cmd(addr: nat, data: U16)

  function And16(a: U16, b: U16): U16 {
    AndBound(a, b);
    And(a, b)
  }

  lemma {:induction false} AndBound(a: nat, b: nat)
    ensures And(a, b) <= a
  {
    if a > 0 {
      AndBound(a / 2, b / 2);
    }
  }

  lemma AndLaws(w: U16)
    ensures And16(ONES, w) == w && And16(w, ONES) == w && And16(w, w) == w
  {
    hide Pow2;
    PowValues();
    AndOnes(w, 16);
    AndSelf(w);
  }

  /** Programming can only clear bits. */
  function Programmed(mem: seq<U16>, c: Cmd): (r: seq<U16>)
    ensures |r| == |mem|
  {
    if c.addr < |mem| then mem[c.addr := And16(mem[c.addr], c.data)] else mem
  }

  function ProgramAll(mem: seq<U16>, cmds: seq<Cmd>): (r: seq<U16>)
    ensures |r| == |mem|
    decreases |cmds|
  {
    if cmds == [] then mem else Programmed(ProgramAll(mem, cmds[..|cmds| - 1]), cmds[|cmds| - 1])
  }

  lemma ProgramSnoc(mem: seq<U16>, cmds: seq<Cmd>, c: Cmd)
    ensures ProgramAll(mem, cmds + [c]) == Programmed(ProgramAll(mem, cmds), c)
  {
    assert (cmds + [c])[..|cmds|] == cmds;
  }

  lemma {:induction false} ProgramConcat(mem: seq<U16>, a: seq<Cmd>, b: seq<Cmd>)
    ensures ProgramAll(mem, a + b) == ProgramAll(ProgramAll(mem, a), b)
    decreases |b|
  {
    hide Programmed;
    if b == [] {
      assert a + b == a;
    } else {
      assert (a + b)[..|a + b| - 1] == a + b[..|b| - 1];
      ProgramConcat(mem, a, b[..|b| - 1]);
    }
  }

  /** What programming does to word a: the old value and all data for it. */
  function Mask(cmds: seq<Cmd>, a: nat): U16
    decreases |cmds|
  {
    if cmds == [] then ONES
    else
      var pre, c := Mask(cmds[..|cmds| - 1], a), cmds[|cmds| - 1];
      if c.addr == a then And16(pre, c.data) else pre
  }

  lemma {:induction false} ProgramMasks(mem: seq<U16>, cmds: seq<Cmd>, a: nat)
    requires a < |mem|
    ensures ProgramAll(mem, cmds)[a] == And16(mem[a], Mask(cmds, a))
    decreases |cmds|
  {
    hide And;
    if cmds == [] {
      AndLaws(mem[a]);
    } else {
      var pre, c := cmds[..|cmds| - 1], cmds[|cmds| - 1];
      ProgramMasks(mem, pre, a);
      AndAssociates(mem[a], Mask(pre, a), c.data);
    }
  }

  /** A word on its way from `was` to `full`: it has lost some of the bits it is to
      lose, and no others. */
  predicate Between(was: U16, now: U16, full: U16) {
    And16(was, now) == now && And16(now, full) == full
  }

  lemma BetweenProgrammed(was: U16, now: U16, mask: U16)
    requires Between(was, now, And16(was, mask))
    ensures And16(now, mask) == And16(was, mask)
  {
    hide And;
    AndCommutes(was, now);
    AndAssociates(now, was, mask);
  }

  /** Programming after an attempt that has failed half-way gives what programming
      at once gives. */
  lemma AttemptHarmless(mem: seq<U16>, cmds: seq<Cmd>, now: seq<U16>)
    requires |now| == |mem| && forall a :: 0 <= a < |mem| ==> Between(mem[a], now[a], ProgramAll(mem, cmds)[a])
    ensures ProgramAll(now, cmds) == ProgramAll(mem, cmds)
  {
    hide And16, ProgramAll, Mask, Between;
    forall a | 0 <= a < |mem| ensures ProgramAll(now, cmds)[a] == ProgramAll(mem, cmds)[a] {
      ProgramMasks(mem, cmds, a);
      ProgramMasks(now, cmds, a);
      BetweenProgrammed(mem[a], now[a], Mask(cmds, a));
    }
  }

  /** The words of one command lie in one range of 256. */
  predicate OneRange(cmds: seq<Cmd>) {
    forall i :: 0 <= i < |cmds| ==> cmds[i].addr / BLOCK == cmds[0].addr / BLOCK
  }

  /** A word of memory after a command that the device is not made for. */
  type Garble = (seq<U16>, seq<Cmd>, nat) -> U16

  /** What a buffered program command does: a device that cannot program `anywhere`
      needs all words in one range. */
  function Outcome(anywhere: bool, garble: Garble, mem: seq<U16>, cmds: seq<Cmd>): (r: seq<U16>)
    ensures |r| == |mem|
  {
    if anywhere || OneRange(cmds) then ProgramAll(mem, cmds)
    else seq(|mem|, a requires 0 <= a < |mem| => garble(mem, cmds, a))
  }

  /** The flash: erasing sets a block's words to ones, blocks are no smaller than
      the erase step. `failures` counts the attempts of a command that fail, and
      `partial` is what one leaves of word a. */
  class Flash {
    const blockSize: nat
    const anywhere: bool
    const garble: Garble
    const failures: (seq<U16>, seq<Cmd>) -> nat
    const partial: (seq<U16>, seq<Cmd>, nat) -> U16
    var mem: seq<U16>

    ghost predicate Valid()
    {
      && blockSize > 0 && blockSize % ERASE_STEP == 0
      && forall was, cmds, a :: 0 <= a < |was| ==> Between(was[a], partial(was, cmds, a), ProgramAll(was, cmds)[a])
    }

    constructor (blockSize: nat, anywhere: bool, garble: Garble, failures: (seq<U16>, seq<Cmd>) -> nat,
                 partial: (seq<U16>, seq<Cmd>, nat) -> U16, mem: seq<U16>)
      requires blockSize > 0 && blockSize % ERASE_STEP == 0
      requires forall was, cmds, a :: 0 <= a < |was| ==>
                 Between(was[a], partial(was, cmds, a), ProgramAll(was, cmds)[a])
      ensures Valid() && this.blockSize == blockSize && this.anywhere == anywhere && this.mem == mem
    {
      this.blockSize, this.anywhere, this.garble, this.mem := blockSize, anywhere, garble, mem;
      this.failures, this.partial := failures, partial;
    }

    /** eraseCommand */
    method Erase(address: nat)
      requires Valid()
      modifies this`mem
      ensures |mem| == |old(mem)|
      ensures forall a :: 0 <= a < |mem| ==> mem[a] == if SameBlock(a, address, blockSize) then ONES else old(mem)[a]
    {
      mem := seq(|mem|, a requires 0 <= a < |mem| reads this =>
        if SameBlock(a, address, blockSize) then ONES else mem[a]);
    }

    /** The chip erase of the newer PROM. */
    method EraseChip()
      modifies this`mem
      ensures |mem| == |old(mem)| && forall a :: 0 <= a < |mem| ==> mem[a] == ONES
    {
      mem := seq(|mem|, _ => ONES);
    }

    /** bufferedProgramCommand, with its retry loop. */
    method Program(address: array<nat>, data: array<U16>, size: nat)
      requires Valid() && size <= address.Length && size <= data.Length
      modifies this`mem
      ensures mem == Outcome(anywhere, garble, old(mem), Commands(address[..size], data[..size]))
    {
      var cmds := Commands(address[..size], data[..size]);
      if !anywhere && !OneRange(cmds) {
        mem := seq(|mem|, a requires 0 <= a < |mem| reads this => garble(mem, cmds, a));
        return;
      }
      for k := 0 to failures(mem, cmds)
        invariant |mem| == |old(mem)| && ProgramAll(mem, cmds) == ProgramAll(old(mem), cmds)
      {
        ghost var was := mem;
        mem := seq(|mem|, a requires 0 <= a < |mem| reads this => partial(mem, cmds, a));
        AttemptHarmless(was, cmds, mem);
      }
      Load(cmds);
    }

    /** The attempt that succeeds. */
    method Load(cmds: seq<Cmd>)
      modifies this`mem
      ensures mem == ProgramAll(old(mem), cmds)
    {
      for i := 0 to |cmds|
        invariant mem == ProgramAll(old(mem), cmds[..i])
      {
        mem := Programmed(mem, cmds[i]);
        ProgramSnoc(old(mem), cmds[..i], cmds[i]);
        assert cmds[..i] + [cmds[i]] == cmds[..i + 1];
      }
      assert cmds[..|cmds|] == cmds;
    }

    /** readWordCommand; beyond the device there is nothing. */
    function ReadWord(address: nat): U16
      reads this`mem
    {
      if address < |mem| then mem[address] else ONES
    }
  }

  predicate SameBlock(a: nat, b: nat, blockSize: nat)
    requires blockSize > 0
  {
    a / blockSize == b / blockSize
  }

  function Commands(addrs: seq<nat>, data: seq<U16>): (r: seq<Cmd>)
    requires |addrs| == |data|
    ensures |r| == |addrs|
  {
    seq(|addrs|, i requires 0 <= i < |addrs| => Cmd(addrs[i], data[i]))
  }

  /** eraseBootProm: the blocks up to the one with word promSize are erased and no
      others; the newer PROM is erased as a whole. */
  method EraseBootProm(flash: Flash, promType: bool, promSize: nat)
    requires flash.Valid() && promSize < 0xFFFF_C000
    modifies flash`mem
    ensures flash.Valid() && |flash.mem| == |old(flash.mem)|
    ensures forall a :: 0 <= a < |flash.mem| ==>
              flash.mem[a] == if !promType || a / flash.blockSize <= promSize / flash.blockSize then ONES
                else old(flash.mem)[a]
  {
    hide Erased;
    if promType {
      var address := 0;
      NothingErased(flash.mem, flash.blockSize);
      while address <= promSize
        invariant address % ERASE_STEP == 0 && address <= promSize + ERASE_STEP
        invariant flash.mem == Erased(old(flash.mem), address, flash.blockSize)
        decreases promSize + ERASE_STEP - address
      {
        ghost var was := flash.mem;
        flash.Erase(address);
        BlockErased(old(flash.mem), was, flash.mem, address, flash.blockSize);
        address := address + ERASE_STEP;
      }
      AllErased(old(flash.mem), address, promSize, flash.blockSize);
    } else {
      flash.EraseChip();
    }
  }

  /** The memory after all erase commands below `address`. */
  function Erased(mem: seq<U16>, address: nat, blockSize: nat): (r: seq<U16>)
    requires blockSize > 0
    ensures |r| == |mem|
  {
    seq(|mem|, a requires 0 <= a < |mem| => if Reached(a, address, blockSize) then ONES else mem[a])
  }

  lemma NothingErased(mem: seq<U16>, blockSize: nat)
    requires blockSize > 0
    ensures Erased(mem, 0, blockSize) == mem
  {
    forall a | 0 <= a < |mem| ensures !Reached(a, 0, blockSize) {
      QuotientBound(0, a, blockSize);
    }
  }

  lemma BlockErased(mem: seq<U16>, was: seq<U16>, now: seq<U16>, address: nat, blockSize: nat)
    requires blockSize > 0 && blockSize % ERASE_STEP == 0 && address % ERASE_STEP == 0
    requires was == Erased(mem, address, blockSize) && |now| == |was|
    requires forall a :: 0 <= a < |was| ==> now[a] == if SameBlock(a, address, blockSize) then ONES else was[a]
    ensures now == Erased(mem, address + ERASE_STEP, blockSize)
  {
    hide Reached, SameBlock;
    forall a | 0 <= a < |mem| ensures now[a] == Erased(mem, address + ERASE_STEP, blockSize)[a] {
      OneMoreBlock(a, address, blockSize);
    }
  }

  lemma AllErased(mem: seq<U16>, address: nat, promSize: nat, blockSize: nat)
    requires blockSize > 0 && blockSize % ERASE_STEP == 0 && address % ERASE_STEP == 0
    requires promSize < address <= promSize + ERASE_STEP
    ensures forall a :: 0 <= a < |mem| ==>
              Erased(mem, address, blockSize)[a] == if a / blockSize <= promSize / blockSize then ONES else mem[a]
  {
    hide Reached;
    forall a | 0 <= a < |mem| ensures Reached(a, address, blockSize) <==> a / blockSize <= promSize / blockSize {
      LastBlock(a, address, promSize, blockSize);
    }
  }

  /** Some erase command below `address` has hit the block of word a. */
  predicate Reached(a: nat, address: nat, blockSize: nat)
    requires blockSize > 0
  {
    a / blockSize * blockSize < address
  }

  lemma BlockStart(a: nat, blockSize: nat)
    requires blockSize > 0 && blockSize % ERASE_STEP == 0
    ensures (a / blockSize * blockSize) % ERASE_STEP == 0
  {
    var q, t := a / blockSize, blockSize / ERASE_STEP;
    assert q * blockSize == q * (t * ERASE_STEP) == (q * t) * ERASE_STEP;
  }

  /** q is at most n / d iff q blocks of size d fit into n. */
  lemma QuotientBound(q: nat, n: nat, d: nat)
    requires d > 0
    ensures q <= n / d <==> q * d <= n
  {
    var r := n / d;
    assert n == r * d + n % d;
    if q <= r {
      assert q * d <= r * d;
    } else {
      assert q * d >= (r + 1) * d == r * d + d;
    }
  }

  lemma OneMoreBlock(a: nat, address: nat, blockSize: nat)
    requires blockSize > 0 && blockSize % ERASE_STEP == 0 && address % ERASE_STEP == 0
    ensures Reached(a, address + ERASE_STEP, blockSize)
            <==> Reached(a, address, blockSize) || SameBlock(a, address, blockSize)
  {
    var q := a / blockSize;
    BlockStart(a, blockSize);
    QuotientBound(q, address, blockSize);
    QuotientBound(q + 1, address, blockSize);
    assert (q + 1) * blockSize == q * blockSize + blockSize;
  }

  lemma LastBlock(a: nat, address: nat, promSize: nat, blockSize: nat)
    requires blockSize > 0 && blockSize % ERASE_STEP == 0 && address % ERASE_STEP == 0
    requires promSize < address <= promSize + ERASE_STEP
    ensures Reached(a, address, blockSize) <==> a / blockSize <= promSize / blockSize
  {
    BlockStart(a, blockSize);
    QuotientBound(a / blockSize, promSize, blockSize);
    StepsApart(a / blockSize * blockSize, address, promSize);
  }

  /** Among the multiples of the erase step `address` is the first behind n. */
  lemma StepsApart(x: nat, address: nat, n: nat)
    requires x % ERASE_STEP == 0 && address % ERASE_STEP == 0 && n < address <= n + ERASE_STEP
    ensures x < address <==> x <= n
  {}

  /** The second byte joins the first one, which is in the low half. */
  function Joined(fileData: U16, hi: Word): U16 {
    OrBound16(fileData, hi * 0x100 % 0x1_0000);
    Or(fileData, hi * 0x100 % 0x1_0000)
  }

  /** The word that a pair of file bytes makes. */
  function Merge(lo: Word, hi: Word): U16 {
    Joined(lo % 0x1_0000, hi)
  }

  lemma OrBound16(a: nat, b: nat)
    requires a < 0x1_0000 && b < 0x1_0000
    ensures Or(a, b) < 0x1_0000
  {
    hide Pow2;
    PowValues();
    OrBound(a, b, 16);
  }

  lemma MergeBytes(lo: Byte, hi: Byte)
    ensures Merge(lo, hi) == lo + 0x100 * hi
  {
    hide Or, Pow2;
    PowValues();
    OrAdds(hi, lo, 8);
    OrCommutes(lo, hi * 0x100);
  }

  lemma {:induction false} OrCommutes(a: nat, b: nat)
    ensures Or(a, b) == Or(b, a)
  {
    if a > 0 && b > 0 {
      OrCommutes(a / 2, b / 2);
    } else {
      OrZero(a);
      OrZero(b);
    }
  }

  /** The words that the loaders make of a file's bytes. At the end of a file of odd
      length they take its last byte a second time. */
  function WordsOf(bytes: seq<Word>): (r: seq<U16>)
    ensures |r| == (|bytes| + 1) / 2
  {
    seq((|bytes| + 1) / 2, i requires 0 <= i < (|bytes| + 1) / 2 =>
      Merge(bytes[2 * i], bytes[if 2 * i + 1 < |bytes| then 2 * i + 1 else 2 * i]))
  }

  /** In a file of odd length the last word is that of a file padded with ones
      exactly if the last byte is 0xFF: the last byte fills both halves. */
  lemma OddLength(image: seq<Byte>)
    requires |image| % 2 == 1
    ensures var n := |image| / 2;
            && WordsOf(image)[..n] == WordsOf(image + [0xFF])[..n]
            && |WordsOf(image)| == |WordsOf(image + [0xFF])| == n + 1
            && WordsOf(image)[n] == Both(image[2 * n], image[2 * n])
            && (WordsOf(image) == WordsOf(image + [0xFF]) <==> image[2 * n] == 0xFF)
  {
    hide Merge;
    var n, z := |image| / 2, image[|image| - 1];
    var padded := image + [0xFF];
    MergeBytes(z, z);
    MergeBytes(z, 0xFF);
    assert WordsOf(image)[n] == Merge(z, z) && WordsOf(padded)[n] == Merge(z, 0xFF);
    assert WordsOf(image)[..n] == WordsOf(padded)[..n];
    assert WordsOf(image) == WordsOf(image)[..n] + [WordsOf(image)[n]];
    assert WordsOf(padded) == WordsOf(padded)[..n] + [WordsOf(padded)[n]];
  }

  /** The program commands for the first n words, each at its own address. */
  function Order(words: seq<U16>, n: nat): (r: seq<Cmd>)
    requires n <= |words|
    ensures |r| == n
  {
    seq(n, i requires 0 <= i < n => Cmd(i, words[i]))
  }

  /** Words before the block in progress. */
  function Blocks(n: nat): (b: nat)
    ensures b <= n < b + BLOCK && (n % BLOCK == n - b)
  {
    n / BLOCK * BLOCK
  }

  /** The block buffers after n words: the words of the block in progress, and behind
      them what is left of the block before, if there was one. */
  ghost predicate Buffered(addrs: seq<nat>, data: seq<U16>, words: seq<U16>, n: nat)
    requires n <= |words|
  {
    && |addrs| == |data| == BLOCK
    && var base := Blocks(n);
       && (forall j :: 0 <= j < n - base ==> addrs[j] == base + j && data[j] == words[base + j])
       && (base >= BLOCK ==>
             forall j :: n - base <= j < BLOCK ==> addrs[j] == base - BLOCK + j && data[j] == words[base - BLOCK + j])
  }

  lemma NextBlock(n: nat)
    ensures if n % BLOCK == BLOCK - 1 then Blocks(n + 1) == Blocks(n) + BLOCK == n + 1 else Blocks(n + 1) == Blocks(n)
  {}

  /** A word goes into the buffer; a full buffer is programmed. */
  method Latch(flash: Flash, bufAddr: array<nat>, bufData: array<U16>, bufSize: nat, address: nat, fileData: U16,
               ghost words: seq<U16>, ghost mem0: seq<U16>)
    returns (size: nat)
    requires flash.Valid() && address < |words| && Buffered(bufAddr[..], bufData[..], words, address)
    requires bufSize == address - Blocks(address) && fileData == words[address]
    requires flash.mem == ProgramAll(mem0, Order(words, Blocks(address)))
    modifies flash`mem, bufAddr, bufData
    ensures Buffered(bufAddr[..], bufData[..], words, address + 1) && size == address + 1 - Blocks(address + 1)
    ensures flash.mem == ProgramAll(mem0, Order(words, Blocks(address + 1)))
  {
    hide ProgramAll, Commands, Order, Blocks, OneRange, Buffered, Flash.Valid, Outcome;
    ghost var base := Blocks(address);
    NextBlock(address);
    BufferPut(bufAddr[..], bufData[..], words, address);
    bufAddr[bufSize] := address;
    bufData[bufSize] := fileData;
    size := bufSize + 1;
    if size == BLOCK {
      assert bufAddr[..size] == bufAddr[..] && bufData[..size] == bufData[..];
      flash.Program(bufAddr, bufData, size);
      FullBlock(bufAddr[..], bufData[..], words, address + 1);
      InRange(flash.anywhere, flash.garble, old(flash.mem), bufAddr[..], bufData[..], address);
      BlockOrder(bufAddr[..], bufData[..], words, base);
      ProgramConcat(mem0, Order(words, base), Commands(bufAddr[..], bufData[..]));
      size := 0;
    }
  }

  lemma BufferPut(addrs: seq<nat>, data: seq<U16>, words: seq<U16>, n: nat)
    requires n < |words| && Buffered(addrs, data, words, n)
    ensures var k := n - Blocks(n);
            k < |addrs| == |data| == BLOCK && Buffered(addrs[k := n], data[k := words[n]], words, n + 1)
  {
    hide Blocks;
    NextBlock(n);
  }

  lemma FullBlock(addrs: seq<nat>, data: seq<U16>, words: seq<U16>, n: nat)
    requires 0 < n <= |words| && Blocks(n) == n && Buffered(addrs, data, words, n)
    ensures |addrs| == |data| == BLOCK <= n
    ensures forall j :: 0 <= j < BLOCK ==> addrs[j] == n - BLOCK + j && data[j] == words[n - BLOCK + j]
  {}

  lemma InRange(anywhere: bool, garble: Garble, mem: seq<U16>, addrs: seq<nat>, data: seq<U16>, n: nat)
    requires |addrs| == |data| == BLOCK && forall j :: 0 <= j < BLOCK ==> addrs[j] == Blocks(n) + j
    ensures Outcome(anywhere, garble, mem, Commands(addrs, data)) == ProgramAll(mem, Commands(addrs, data))
  {
    hide Commands, ProgramAll, OneRange;
    BlockInRange(addrs, data, n);
  }

  lemma BlockInRange(addrs: seq<nat>, data: seq<U16>, n: nat)
    requires |addrs| == |data| == BLOCK && forall j :: 0 <= j < BLOCK ==> addrs[j] == Blocks(n) + j
    ensures OneRange(Commands(addrs, data))
  {
    var q := n / BLOCK;
    forall j | 0 <= j < BLOCK ensures addrs[j] / BLOCK == q {
      assert addrs[j] == BLOCK * q + j;
    }
  }

  lemma BlockOrder(addrs: seq<nat>, data: seq<U16>, words: seq<U16>, base: nat)
    requires |addrs| == |data| == BLOCK && base + BLOCK <= |words|
    requires forall j :: 0 <= j < BLOCK ==> addrs[j] == base + j && data[j] == words[base + j]
    ensures Order(words, base) + Commands(addrs, data) == Order(words, base + BLOCK)
  {
    forall i | 0 <= i < base + BLOCK
      ensures (Order(words, base) + Commands(addrs, data))[i] == Order(words, base + BLOCK)[i]
    {
      if i >= base {
        assert addrs[i - base] == i;
      }
    }
  }

  /** A byte of the file goes into the half word or completes a word. */
  method Latched(flash: Flash, bufAddr: array<nat>, bufData: array<U16>, bufSize: nat, address: nat, toggle: bool,
                 fileData: U16, data: Word, ghost words: seq<U16>, ghost mem0: seq<U16>)
    returns (size: nat, next: nat, merged: U16)
    requires flash.Valid() && address <= |words| && Buffered(bufAddr[..], bufData[..], words, address)
    requires bufSize == address - Blocks(address)
    requires toggle ==> address < |words| && Joined(fileData, data) == words[address]
    requires flash.mem == ProgramAll(mem0, Order(words, Blocks(address)))
    modifies flash`mem, bufAddr, bufData
    ensures next == (if toggle then address + 1 else address) <= |words|
    ensures merged == if toggle then Joined(fileData, data) else data % 0x1_0000
    ensures Buffered(bufAddr[..], bufData[..], words, next) && size == next - Blocks(next)
    ensures flash.mem == ProgramAll(mem0, Order(words, Blocks(next)))
  {
    hide ProgramAll, Order, Blocks, Joined, Buffered, Flash.Valid;
    if toggle {
      merged := Joined(fileData, data);
      size := Latch(flash, bufAddr, bufData, bufSize, address, merged, words, mem0);
      next := address + 1;
    } else {
      size, next, merged := bufSize, address, data % 0x1_0000;
    }
  }

  /** What the program command for a short last block really contains: only the
      first of the missing slots is padded, the others are what they were. */
  ghost predicate ShortBlock(tail: seq<Cmd>, words: seq<U16>) {
    var base := Blocks(|words|);
    var b := |words| - base;
    if b == 0 then tail == []
    else
      && |tail| == BLOCK && tail[b].data == ONES
      && (forall j :: 0 <= j < b ==> tail[j] == Cmd(base + j, words[base + j]))
      && (base >= BLOCK ==>
            && tail[b].addr == base - BLOCK + b
            && forall j :: b < j < BLOCK ==> tail[j] == Cmd(base - BLOCK + j, words[base - BLOCK + j]))
  }

  lemma NoCommand(anywhere: bool, garble: Garble, mem: seq<U16>)
    ensures Outcome(anywhere, garble, mem, []) == mem
  {}

  /** The end of bufferedWriteBootProm. */
  method Flush(flash: Flash, bufAddr: array<nat>, bufData: array<U16>, bufSize: nat, ghost words: seq<U16>,
               ghost mem0: seq<U16>)
    returns (ghost tail: seq<Cmd>)
    requires flash.Valid() && Buffered(bufAddr[..], bufData[..], words, |words|) && bufSize == |words| - Blocks(|words|)
    requires flash.mem == ProgramAll(mem0, Order(words, Blocks(|words|)))
    modifies flash`mem, bufData
    ensures ShortBlock(tail, words)
    ensures flash.mem == Outcome(flash.anywhere, flash.garble, ProgramAll(mem0, Order(words, Blocks(|words|))), tail)
  {
    hide ProgramAll, Order, Blocks, Outcome;
    tail := [];
    if bufSize != 0 {
      ghost var data := bufData[..];
      for i := bufSize to BLOCK
        invariant bufData[..] == (if i == bufSize then data else data[bufSize := ONES]) && flash.mem == old(flash.mem)
      {
        bufData[bufSize] := ONES;
      }
      assert bufAddr[..BLOCK] == bufAddr[..] && bufData[..BLOCK] == bufData[..];
      tail := Commands(bufAddr[..BLOCK], bufData[..BLOCK]);
      flash.Program(bufAddr, bufData, BLOCK);
    } else {
      NoCommand(flash.anywhere, flash.garble, flash.mem);
    }
  }

  function DataOf(cells: seq<Cell>): (r: seq<Word>)
    ensures |r| == |cells|
  {
    seq<Word>(|cells|, i requires 0 <= i < |cells| => cells[i].data)
  }

  /** Where the loop over the file stands, k bytes in: the word count, the half word
      waiting for its partner, and the byte last read. */
  ghost predicate Midway(bytes: seq<Word>, k: nat, ended: bool, toggle: bool, fileData: U16, last: Word, address: nat) {
    && k <= |bytes|
    && (ended ==> k == |bytes| && address == (k + 1) / 2)
    && (!ended ==> address == k / 2 && (toggle <==> k % 2 == 1) && (toggle ==> fileData == bytes[k - 1] % 0x1_0000))
    && (k > 0 ==> last == bytes[k - 1])
  }

  lemma WordDone(bytes: seq<Word>, k: nat, fileData: U16, address: nat, data: Word, ended: bool)
    requires 0 < k <= |bytes| && Midway(bytes, k, false, true, fileData, bytes[k - 1], address)
    requires if ended then k == |bytes| && data == bytes[k - 1] else k < |bytes| && data == bytes[k]
    ensures address < |WordsOf(bytes)| && Joined(fileData, data) == WordsOf(bytes)[address]
  {
    hide Or;
    assert 2 * address + 1 == k;
  }

  /** How a loader ends: it returns, or an exception of the reader passes through. */
  datatype End = Returned(ok: bool) | Thrown

  function EndOf(fin: Status): End {
    if fin == OutOfRange then Thrown else Returned(fin == EofRead)
  }

  /** The bytes of a file, in the file's order. */
  function BytesOf(scan: Scan, file: seq<string>): seq<Word> {
    DataOf(Contents(scan, file, 0))
  }

  /** What the loop over an open file does to the flash: all words and what the last
      command carries or, if the file fails, the full blocks before the failure. */
  ghost predicate Written(anywhere: bool, garble: Garble, mem0: seq<U16>, bytes: seq<Word>, whole: bool,
                          tail: seq<Cmd>, mem: seq<U16>) {
    var words := WordsOf(bytes);
    if whole then
      && ShortBlock(tail, words)
      && mem == Outcome(anywhere, garble, ProgramAll(mem0, Order(words, Blocks(|words|))), tail)
    else mem == ProgramAll(mem0, Order(words, Blocks(|bytes| / 2)))
  }

  /** The loop of bufferedWriteBootProm. */
  method WriteFrom(reader: McsRead, flash: Flash) returns (end: End, ghost tail: seq<Cmd>)
    requires flash.Valid() && reader.Valid() && reader.promPntr == 16
    modifies reader, reader.promData, reader.promAddr, flash`mem
    ensures end == EndOf(old(reader.Ending()))
    ensures Written(flash.anywhere, flash.garble, old(flash.mem), DataOf(old(reader.Left())), end == Returned(true),
                    tail, flash.mem)
  {
    hide ProgramAll, Commands, Order, Blocks, WordsOf, Joined, Buffered, ShortBlock, Midway, Contents, Finish, Outcome,
         Flash.Valid, McsRead.Valid, McsRead.Left;
    var bufAddr, bufData := new nat[BLOCK], new U16[BLOCK];
    var bufSize, address, toggle, fileData: U16 := 0, 0, false, 0;
    var mem := McsData(0, 0, false);
    ghost var cells, fin, mem0, k := reader.Left(), reader.Ending(), flash.mem, 0;
    ghost var bytes := DataOf(cells);
    ghost var words := WordsOf(bytes);
    Start(bufAddr[..], bufData[..], words, mem0);
    Outset(bytes);
    while !mem.endOfFile
      invariant flash.Valid() && reader.Valid() && k <= |cells| && address <= |words|
      invariant if mem.endOfFile then fin == EofRead && address == |words|
                else reader.Left() == cells[k..] && reader.Ending() == fin
      invariant Midway(bytes, k, mem.endOfFile, toggle, fileData, mem.data, address)
      invariant Buffered(bufAddr[..], bufData[..], words, address) && bufSize == address - Blocks(address)
      invariant flash.mem == ProgramAll(mem0, Order(words, Blocks(address)))
      decreases |cells| - k, !mem.endOfFile
    {
      var status;
      ghost var last := mem.data;
      status, mem := reader.Read(mem);
      if status == Failed || status == OutOfRange {
        CutOff(bytes, k, toggle, fileData, last, address);
        return EndOf(status), [];
      }
      HalfWord(bytes, k, toggle, fileData, last, mem.data, address, mem.endOfFile);
      bufSize, address, fileData := Latched(flash, bufAddr, bufData, bufSize, address, toggle, fileData, mem.data,
                                            words, mem0);
      toggle := !toggle;
      k := if mem.endOfFile then k else k + 1;
    }
    tail := Flush(flash, bufAddr, bufData, bufSize, words, mem0);
    end := Returned(true);
  }

  /** bufferedWriteBootProm; None is a file that cannot be opened. */
  method BufferedWriteBootProm(scan: Scan, file: Option<seq<string>>, flash: Flash)
    returns (end: End, ghost tail: seq<Cmd>)
    requires flash.Valid()
    modifies flash`mem
    ensures end == if file.None? then Returned(false) else EndOf(Finish(scan, file.value))
    ensures if file.None? then flash.mem == old(flash.mem)
            else Written(flash.anywhere, flash.garble, old(flash.mem), BytesOf(scan, file.value),
                         end == Returned(true), tail, flash.mem)
  {
    hide Written, Flash.Valid, Contents, Finish;
    if file.None? {
      return Returned(false), [];
    }
    var reader := new McsRead(scan, file.value);
    FromTheTop(reader);
    end, tail := WriteFrom(reader, flash);
  }

  lemma CutOff(bytes: seq<Word>, k: nat, toggle: bool, fileData: U16, last: Word, address: nat)
    requires k == |bytes| && Midway(bytes, k, false, toggle, fileData, last, address)
    ensures address == |bytes| / 2
  {}

  lemma Outset(bytes: seq<Word>)
    ensures Midway(bytes, 0, false, false, 0, 0, 0)
  {}

  /** One turn of the loop: `data` is byte k or, at the end, still the last byte. */
  lemma HalfWord(bytes: seq<Word>, k: nat, toggle: bool, fileData: U16, last: Word, data: Word, address: nat,
                 ended: bool)
    requires k <= |bytes| && Midway(bytes, k, false, toggle, fileData, last, address)
    requires if ended then k == |bytes| && data == last else k < |bytes| && data == bytes[k]
    ensures toggle ==> address < |WordsOf(bytes)| && Joined(fileData, data) == WordsOf(bytes)[address]
    ensures Midway(bytes, if ended then k else k + 1, ended, !toggle,
                   if toggle then Joined(fileData, data) else data % 0x1_0000,
                   data, if toggle then address + 1 else address)
    ensures ended && !toggle ==> address == |WordsOf(bytes)|
    ensures ended && toggle ==> address + 1 == |WordsOf(bytes)|
  {
    hide Joined;
    if toggle {
      WordDone(bytes, k, fileData, address, data, ended);
    }
  }

  lemma Start(addrs: seq<nat>, data: seq<U16>, words: seq<U16>, mem: seq<U16>)
    requires |addrs| == |data| == BLOCK
    ensures Buffered(addrs, data, words, 0) && Blocks(0) == 0 && ProgramAll(mem, Order(words, 0)) == mem
  {}

  /** The words that verification has compared by the time the file ends. */
  function Compared(fin: Status, bytes: seq<Word>): (n: nat)
    ensures n <= |WordsOf(bytes)|
  {
    if fin == EofRead then |WordsOf(bytes)| else |bytes| / 2
  }

  /** verifyBootProm: false at the first word that differs, and true for a file that
      cannot be opened. */
  method VerifyBootProm(scan: Scan, file: Option<seq<string>>, flash: Flash) returns (end: End)
    ensures file.None? ==> end == Returned(true)
    ensures file.Some? ==>
              var fin, bytes := Finish(scan, file.value), BytesOf(scan, file.value);
              end ==
              if forall i :: 0 <= i < Compared(fin, bytes) ==> flash.ReadWord(i) == WordsOf(bytes)[i] then EndOf(fin)
              else Returned(false)
  {
    hide WordsOf, Joined, Midway, Contents, Finish, Compared, McsRead.Valid, McsRead.Left;
    if file.None? {
      return Returned(true);
    }
    var reader := new McsRead(scan, file.value);
    FromTheTop(reader);
    var address, toggle, fileData: U16 := 0, false, 0;
    var mem := McsData(0, 0, false);
    ghost var cells, fin, k := reader.Left(), reader.Ending(), 0;
    ghost var bytes := DataOf(cells);
    ghost var words := WordsOf(bytes);
    Outset(bytes);
    Comparisons(fin, bytes);
    while !mem.endOfFile
      invariant fresh(reader) && fresh(reader.promData) && fresh(reader.promAddr)
      invariant reader.Valid() && k <= |cells| && address <= |words|
      invariant if mem.endOfFile then fin == EofRead && address == |words|
                else reader.Left() == cells[k..] && reader.Ending() == fin
      invariant Midway(bytes, k, mem.endOfFile, toggle, fileData, mem.data, address)
      invariant forall i :: 0 <= i < address ==> flash.ReadWord(i) == words[i]
      decreases |cells| - k, !mem.endOfFile
    {
      var status;
      ghost var last := mem.data;
      status, mem := reader.Read(mem);
      if status == Failed || status == OutOfRange {
        CutOff(bytes, k, toggle, fileData, last, address);
        return EndOf(status);
      }
      HalfWord(bytes, k, toggle, fileData, last, mem.data, address, mem.endOfFile);
      if !toggle {
        toggle, fileData := true, mem.data % 0x1_0000;
      } else {
        InTime(bytes, k, toggle, fileData, last, address, mem.endOfFile, fin);
        toggle, fileData := false, Joined(fileData, mem.data);
        var promData := flash.ReadWord(address);
        if fileData != promData {
          return Returned(false);
        }
        address := address + 1;
      }
      k := if mem.endOfFile then k else k + 1;
    }
    end := Returned(true);
  }

  lemma Comparisons(fin: Status, bytes: seq<Word>)
    ensures Compared(fin, bytes) == if fin == EofRead then |WordsOf(bytes)| else |bytes| / 2
  {}

  lemma InTime(bytes: seq<Word>, k: nat, toggle: bool, fileData: U16, last: Word, address: nat, ended: bool,
               fin: Status)
    requires toggle && Midway(bytes, k, false, toggle, fileData, last, address)
    requires if ended then k == |bytes| && fin == EofRead else k < |bytes|
    ensures address < Compared(fin, bytes)
  {}

  /** A command that programs a word of the file at its place, or changes nothing. */
  predicate Faithful(c: Cmd, words: seq<U16>) {
    c.data == ONES || (c.addr < |words| && c.data == words[c.addr])
  }

  /** Programming faithful commands into erased flash leaves the words that the
      commands carry, and never anything else. */
  lemma {:induction false} ProgramFaithful(mem: seq<U16>, cmds: seq<Cmd>, words: seq<U16>, a: nat)
    requires forall i :: 0 <= i < |cmds| ==> Faithful(cmds[i], words)
    requires |words| <= |mem| && forall i :: 0 <= i < |words| ==> mem[i] == ONES
    requires a < |mem|
    ensures var m := ProgramAll(mem, cmds)[a];
            if a < |words| then m in {ONES, words[a]} && (Cmd(a, words[a]) in cmds ==> m == words[a]) else m == mem[a]
    decreases |cmds|
  {
    if cmds != [] {
      var pre, c := cmds[..|cmds| - 1], cmds[|cmds| - 1];
      ProgramFaithful(mem, pre, words, a);
      assert cmds == pre + [c];
      var m := ProgramAll(mem, pre);
      AndLaws(m[a]);
      AndLaws(c.data);
    }
  }

  lemma CommandsFaithful(words: seq<U16>, tail: seq<Cmd>)
    requires ShortBlock(tail, words)
    requires |words| % BLOCK == 0 || |words| >= BLOCK - 1
    ensures var cmds := Order(words, Blocks(|words|)) + tail;
            && (forall i :: 0 <= i < |cmds| ==> Faithful(cmds[i], words))
            && forall a :: 0 <= a < |words| ==> Cmd(a, words[a]) in cmds
  {
    var base := Blocks(|words|);
    var cmds := Order(words, base) + tail;
    forall a | 0 <= a < |words| ensures Cmd(a, words[a]) in cmds {
      assert cmds[a] == Cmd(a, words[a]);
    }
  }

  /** The flash holds the words, whatever a short last block carries with it. */
  ghost predicate Holds(anywhere: bool, garble: Garble, mem: seq<U16>, words: seq<U16>, tail: seq<Cmd>)
    requires |words| <= |mem|
  {
    var now := Outcome(anywhere, garble, ProgramAll(mem, Order(words, Blocks(|words|))), tail);
    forall a :: 0 <= a < |words| ==> now[a] == words[a]
  }

  /** Whole blocks are safe on any device. A short last block is safe on a device that
      programs anywhere if the buffers hold a block or all but one slot of one. */
  predicate Safe(anywhere: bool, n: nat) {
    n % BLOCK == 0 || (anywhere && n >= BLOCK - 1)
  }

  lemma WordsWritten(anywhere: bool, garble: Garble, mem: seq<U16>, words: seq<U16>, tail: seq<Cmd>)
    requires |words| <= |mem| && forall i :: 0 <= i < |words| ==> mem[i] == ONES
    requires ShortBlock(tail, words) && Safe(anywhere, |words|)
    ensures Holds(anywhere, garble, mem, words, tail)
    ensures var now := Outcome(anywhere, garble, ProgramAll(mem, Order(words, Blocks(|words|))), tail);
            forall a :: |words| <= a < |mem| ==> now[a] == mem[a]
  {
    hide ProgramAll, Order, Programmed, Blocks;
    var order := Order(words, Blocks(|words|));
    var cmds := order + tail;
    CommandsFaithful(words, tail);
    ProgramConcat(mem, order, tail);
    if |words| % BLOCK == 0 {
      WholeBlocks(tail, words);
      NoCommand(anywhere, garble, ProgramAll(mem, order));
      assert cmds == order;
    }
    forall a | 0 <= a < |mem|
      ensures var m := ProgramAll(mem, cmds)[a];
              if a < |words| then m in {ONES, words[a]} && (Cmd(a, words[a]) in cmds ==> m == words[a]) else m == mem[a]
    {
      ProgramFaithful(mem, cmds, words, a);
    }
  }

  lemma WholeBlocks(tail: seq<Cmd>, words: seq<U16>)
    requires ShortBlock(tail, words) && |words| % BLOCK == 0
    ensures tail == []
  {}

  /** Fewer than 255 words: one of the uninitialised slots may clear a word. */
  lemma StaleSlot(garble: Garble, mem: seq<U16>, words: seq<U16>, a: nat) returns (tail: seq<Cmd>)
    requires 0 < |words| < BLOCK - 1 && |words| <= |mem| && a < |words| && words[a] != 0
    ensures ShortBlock(tail, words) && !Holds(true, garble, mem, words, tail)
  {
    hide And16;
    var b := |words|;
    var stale: U16 := 0;
    tail := seq(BLOCK, j requires 0 <= j < BLOCK =>
      if j < b then Cmd(j, words[j]) else if j == b then Cmd(a, ONES) else Cmd(a, stale));
    assert Blocks(b) == 0 && Order(words, 0) == [];
    assert tail[|tail| - 1] == Cmd(a, stale);
    AllCleared(ProgramAll(mem, tail[..|tail| - 1])[a]);
  }

  lemma AllCleared(w: U16)
    ensures And16(w, 0) == 0
  {
    AndZero(w);
  }

  /** Where a short block may name two ranges, a device that needs one range may do
      anything. */
  lemma TwoRanges(mem: seq<U16>, words: seq<U16>, a: nat) returns (tail: seq<Cmd>, garble: Garble)
    requires |words| % BLOCK != 0 && |words| <= |mem| && a < |words| && words[a] != 0
    ensures ShortBlock(tail, words) && !Holds(false, garble, mem, words, tail)
  {
    hide ProgramAll, Order;
    var base := Blocks(|words|);
    var b := |words| - base;
    tail := seq(BLOCK, j requires 0 <= j < BLOCK =>
      if j < b then Cmd(base + j, words[base + j])
      else if base < BLOCK then Cmd(BLOCK, ONES)
      else Cmd(base - BLOCK + j, if j == b then ONES else words[base - BLOCK + j]));
    garble := (m, c, i) => 0;
    var q := |words| / BLOCK;
    assert tail[0].addr == BLOCK * q && (q > 0 ==> tail[b].addr == BLOCK * (q - 1) + b);
    assert tail[0].addr / BLOCK == q && tail[b].addr / BLOCK != q;
  }

  /** When the padding of the last block is harmless, whatever the buffers hold and
      whatever a device does with a command that it is not made for: exactly then. */
  lemma PaddingHarmless(anywhere: bool, mem: seq<U16>, words: seq<U16>, a: nat)
    requires |words| <= |mem| && forall i :: 0 <= i < |words| ==> mem[i] == ONES
    requires a < |words| && words[a] != 0
    ensures (forall garble: Garble, tail :: ShortBlock(tail, words) ==> Holds(anywhere, garble, mem, words, tail))
            <==> Safe(anywhere, |words|)
  {
    hide Holds, ShortBlock;
    if Safe(anywhere, |words|) {
      forall garble: Garble, tail | ShortBlock(tail, words) ensures Holds(anywhere, garble, mem, words, tail) {
        WordsWritten(anywhere, garble, mem, words, tail);
      }
    } else if anywhere {
      var garble: Garble := (m, c, i) => 0;
      var tail := StaleSlot(garble, mem, words, a);
    } else {
      var tail, garble := TwoRanges(mem, words, a);
    }
  }

  /** The words of an image: pairs of bytes, low byte first; an odd last byte fills
      both halves. */
  function ImageWord(image: seq<Byte>, i: nat): nat
    requires i < (|image| + 1) / 2
  {
    Both(image[if 2 * i + 1 < |image| then 2 * i + 1 else 2 * i], image[2 * i])
  }

  /** The file of an image that fits the memory and the erased blocks. */
  ghost predicate GoodFile(file: seq<string>, image: seq<Byte>, rest: seq<string>, flash: Flash, promType: bool,
                           promSize: nat)
    requires flash.blockSize > 0
    reads flash`mem
  {
    var n := (|image| + 1) / 2;
    && |image| < 0x1_0000_0000 && file == PrintAll(ImageRecords(image, 0)) + rest
    && n <= |flash.mem| && Safe(flash.anywhere, n)
    && (promType ==> n <= (promSize / flash.blockSize + 1) * flash.blockSize)
  }

  /** PromLoad: erase, write, verify. Success means that the flash holds every word of
      the file; the file of an image is always a success, and the flash then holds the
      image. */
  method PromLoad(flash: Flash, promType: bool, promSize: nat, scan: Scan, file: seq<string>, ghost image: seq<Byte>,
                  ghost rest: seq<string>)
    returns (end: End)
    requires flash.Valid() && promSize < 0xFFFF_C000
    modifies flash`mem
    ensures |flash.mem| == |old(flash.mem)|
    ensures end == Returned(true) ==>
              && Finish(scan, file) == EofRead
              && var words := WordsOf(BytesOf(scan, file));
                 forall i :: 0 <= i < |words| ==> flash.ReadWord(i) == words[i]
    ensures ScansHex(scan) && GoodFile(file, image, rest, flash, promType, promSize) ==>
              && end == Returned(true)
              && forall i :: 0 <= i < (|image| + 1) / 2 ==> flash.mem[i] == ImageWord(image, i)
  {
    hide ProgramAll, Order, ShortBlock, Contents, Finish, Joined, ScansHex, ImageRecords, PrintAll, Outcome, Safe,
         Holds, WordsOf, Blocks, ImageWord, BytesOf;
    ghost var words := WordsOf(BytesOf(scan, file));
    ghost var good := ScansHex(scan) && GoodFile(file, image, rest, flash, promType, promSize);
    if good {
      ImageWords(scan, file, image, rest);
    }
    EraseBootProm(flash, promType, promSize);
    ghost var mem := flash.mem;
    var write, tail := BufferedWriteBootProm(scan, Some(file), flash);
    if write != Returned(true) {
      return write;
    }
    end := VerifyBootProm(scan, Some(file), flash);
    Comparisons(EofRead, BytesOf(scan, file));
    if good {
      AllBlank(mem, words, promType, promSize, flash.blockSize);
      WordsWritten(flash.anywhere, flash.garble, mem, words, tail);
      Stored(flash.anywhere, flash.garble, mem, words, tail);
    }
  }

  lemma AllBlank(mem: seq<U16>, words: seq<U16>, promType: bool, promSize: nat, blockSize: nat)
    requires blockSize > 0 && |words| <= |mem| && (promType ==> |words| <= (promSize / blockSize + 1) * blockSize)
    requires forall a :: 0 <= a < |mem| && (!promType || a / blockSize <= promSize / blockSize) ==> mem[a] == ONES
    ensures forall i :: 0 <= i < |words| ==> mem[i] == ONES
  {
    forall a | 0 <= a < |words| ensures mem[a] == ONES {
      QuotientBound(promSize / blockSize + 1, a, blockSize);
    }
  }

  lemma Stored(anywhere: bool, garble: Garble, mem: seq<U16>, words: seq<U16>, tail: seq<Cmd>)
    requires |words| <= |mem| && Holds(anywhere, garble, mem, words, tail)
    ensures var now := Outcome(anywhere, garble, ProgramAll(mem, Order(words, Blocks(|words|))), tail);
            forall a :: 0 <= a < |words| ==> now[a] == words[a]
  {}

  lemma FromTheTop(reader: McsRead)
    requires reader.Valid() && reader.pos == 0 && reader.promPntr == 16 && !reader.endOfFile
    ensures reader.Left() == Contents(reader.scan, reader.file, reader.promBaseAddr)
    ensures reader.Ending() == Finish(reader.scan, reader.file)
  {
    assert reader.file[0..] == reader.file;
  }

  lemma ImageWords(scan: Scan, file: seq<string>, image: seq<Byte>, rest: seq<string>)
    requires ScansHex(scan) && |image| < 0x1_0000_0000 && file == PrintAll(ImageRecords(image, 0)) + rest
    ensures Finish(scan, file) == EofRead
    ensures var words := WordsOf(BytesOf(scan, file));
            |words| == (|image| + 1) / 2 && forall i :: 0 <= i < |words| ==> words[i] == ImageWord(image, i)
  {
    hide ScansHex, Contents, Finish, ImageRecords, PrintAll, WordsOf;
    ReadInvertsPrint(scan, image, rest);
    var bytes := BytesOf(scan, file);
    assert |bytes| == |image| && forall i :: 0 <= i < |image| ==> bytes[i] == image[i];
    assert bytes == image;
    forall i | 0 <= i < |WordsOf(image)| ensures WordsOf(image)[i] == ImageWord(image, i) {
      WordAt(image, i);
    }
  }

  lemma WordAt(image: seq<Byte>, i: nat)
    requires i < (|image| + 1) / 2
    ensures WordsOf(image)[i] == ImageWord(image, i)
  {
    hide Merge;
    MergeBytes(image[2 * i], image[if 2 * i + 1 < |image| then 2 * i + 1 else 2 * i]);
  }
}
