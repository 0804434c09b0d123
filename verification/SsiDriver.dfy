/** SsiPcie user calls, interrupt handler and hardware around the two buffer
    rings. A user call is three steps (work on the head buffer, post it, advance),
    and interrupts and hardware activity may fall between any two. */
module SsiDriver {
  import opened Bits
  import opened BufferRing
  import opened Wrappers

  /** A buffer's bus address: dword aligned, so bits 1:0 are free for flags. */
  type BusAddr = a: int | 0 <= a < 0x1_0000_0000 && a % 4 == 0

  ghost predicate DistinctAddrs(dma: seq<BusAddr>) {
    forall i, j :: 0 <= i < j < |dma| ==> dma[i] != dma[j]
  }

  /** The descriptor word with lane, virtual channel and length in dwords. */
  function PackDesc(lane: nat, vc: nat, length: nat): Word {
    lane % 0x10 * 0x1000_0000 + vc % 0x10 * 0x100_0000 + length % 0x100_0000
  }

  /** What the interrupt handler reads out of a receive descriptor. */
  datatype Info = Info(lane: nat, vc: nat, length: nat, error: nat)

  function UnpackInfo(descA: Word, descB: Word): Info {
    Info(descA / 0x1000_0000, descA / 0x100_0000 % 0x10, descA % 0x100_0000, descB / 2 % 2)
  }

  predicate InfoOk(i: Info) {
    i.lane < 0x10 && i.vc < 0x10 && i.length < 0x100_0000 && i.error < 2
  }

  /** The done entry as the hardware presents it: address, error flag, valid flag. */
  function PackAddr(a: BusAddr, error: nat): Word
    requires error < 2
  {
    a + 2 * error + 1
  }

  lemma AddrRoundTrip(a: BusAddr, error: nat)
    requires error < 2
    ensures PackAddr(a, error) / 4 * 4 == a && PackAddr(a, error) % 2 == 1 && PackAddr(a, error) / 2 % 2 == error
  {
    var q := a / 4;
    var v := PackAddr(a, error);
    assert v == 4 * q + (2 * error + 1);
    assert v / 4 == q;
    assert v == 2 * (2 * q + error) + 1;
    assert v / 2 == 2 * q + error;
  }

  /** Unpacking is the inverse of packing. */
  lemma DescRoundTrip(i: Info, a: BusAddr)
    requires InfoOk(i)
    ensures UnpackInfo(PackDesc(i.lane, i.vc, i.length), PackAddr(a, i.error)) == i
    ensures PackAddr(a, i.error) / 4 * 4 == a && PackAddr(a, i.error) % 2 == 1
  {
    hide PackAddr, PackDesc;
    AddrRoundTrip(a, i.error);
    PackedFields(i.lane, i.vc, i.length);
  }

  lemma PackedFields(lane: nat, vc: nat, length: nat)
    requires lane < 0x10 && vc < 0x10 && length < 0x100_0000
    ensures var d := PackDesc(lane, vc, length);
            d / 0x1000_0000 == lane && d / 0x100_0000 % 0x10 == vc && d % 0x100_0000 == length
  {
    var x := lane * 0x10 + vc;
    assert lane % 0x10 == lane && vc % 0x10 == vc && length % 0x100_0000 == length;
    Fields(x, length);
    assert x / 0x10 == lane && x % 0x10 == vc;
  }

  lemma Fields(x: nat, length: nat)
    requires x < 0x100 && length < 0x100_0000
    ensures var d := x * 0x100_0000 + length;
            d / 0x100_0000 == x && d % 0x100_0000 == length && d / 0x1000_0000 == x / 0x10
  {
    var q, r := x / 0x10, x % 0x10;
    var d := x * 0x100_0000 + length;
    assert d == q * 0x1000_0000 + (r * 0x100_0000 + length) && r * 0x100_0000 + length < 0x1000_0000;
  }

  /** The handler's search for the buffer with address `a`; |dma| if there is none. */
  method Find(dma: seq<BusAddr>, a: int) returns (idx: nat)
    ensures idx <= |dma|
    ensures idx < |dma| ==> dma[idx] == a
    ensures idx == |dma| ==> a !in dma
  {
    idx := 0;
    while idx < |dma|
      invariant idx <= |dma| && a !in dma[..idx]
    {
      if dma[idx] == a {
        break;
      }
      idx := idx + 1;
    }
  }

  // ---- Transmit ----

  /** A write size in dwords is multiplied by four in 32 bits. */
  function SizeBytes(size: Word): Word {
    4 * size % 0x1_0000_0000
  }

  /** The driver's size check. */
  predicate Refused(size: Word, buffSize: Word) {
    SizeBytes(size) > buffSize
  }

  /** Dwords that copy_from_user moves, and the length field of the descriptor. */
  function Copied(size: Word): nat { SizeBytes(size) / 4 }
  function Length24(size: Word): nat { size % 0x100_0000 }

  lemma CopiedIsLow(size: Word)
    ensures SizeBytes(size) == 4 * (size % 0x4000_0000) && Copied(size) == size % 0x4000_0000
  {
    var q, r := size / 0x4000_0000, size % 0x4000_0000;
    assert 4 * size == 0x1_0000_0000 * q + 4 * r;
  }

  lemma LengthWithin(size: Word)
    ensures Length24(size) <= Copied(size)
  {
    CopiedIsLow(size);
  }

  /** When the check does what it is for, that is, refuses exactly the writes that
      do not fit the buffer: unless the product wraps to something that fits. */
  lemma RefusalExact(size: Word, buffSize: Word)
    ensures (Refused(size, buffSize) <==> 4 * size > buffSize)
            <==> size < 0x4000_0000 || 4 * (size % 0x4000_0000) > buffSize
  {
    CopiedIsLow(size);
  }

  /** Four giga-dwords divided by four pass the check of any buffer, and neither a
      dword is copied nor one announced. */
  lemma WrappedSize(lane: nat, vc: nat, buffSize: Word)
    ensures !Refused(0x4000_0000, buffSize) && Copied(0x4000_0000) == 0
    ensures PackDesc(lane, vc, 0x4000_0000) == PackDesc(lane, vc, 0)
    ensures !Refused(0x4000_0001, 4) && Copied(0x4000_0001) == 1
  {}

  /** Of an accepted write all dwords are sent iff their number fits the length
      field. */
  lemma SentWhole(user: seq<int>)
    requires |user| < 0x1_0000_0000
    ensures Length24(|user|) <= |user|
    ensures user[..Length24(|user|)] == user <==> |user| < 0x100_0000
  {}

  datatype WriteResult = TooLarge | Again | Fault | BadLane | Ready

  /** A descriptor the driver wrote to lane `lane`. */
  datatype TxDesc = TxDesc(lane: nat, descA: Word, descB: Word)

  /** Buffers that the hardware may complete now: its own, each once. */
  ghost predicate Completes(hw: set<nat>, done: seq<nat>) {
    Distinct(done) && forall b :: b in done ==> b in hw
  }

  /** Completions that may arrive before each read of the interrupt loop, as long
      as the loop goes on: it takes the oldest one out of the hardware's hands. */
  ghost predicate Arrivals(hw: set<nat>, done: seq<nat>, late: seq<seq<nat>>)
    decreases |late|
  {
    late != [] ==>
      var now := done + late[0];
      Completes(hw, now) && (now != [] ==> Arrivals(hw - {now[0]}, now[1..], late[1..]))
  }

  lemma FlatNext<T>(batches: seq<seq<T>>, n: nat)
    requires n < |batches|
    ensures Flat(batches[..n + 1]) == Flat(batches[..n]) + batches[n]
  {
    assert batches[..n + 1][..n] == batches[..n];
  }

  lemma Grow<T>(back: seq<T>, done: seq<T>, start: seq<T>, seen: seq<T>, more: seq<T>)
    requires back + done == start + seen
    ensures back + (done + more) == start + (seen + more)
  {
    Append(back, done, more);
    Append(start, seen, more);
  }

  lemma NoBatches<T>(batches: seq<seq<T>>)
    ensures batches[0..] == batches && Flat(batches[..0]) == []
  {}

  lemma Shift<T>(back: seq<T>, queue: seq<T>)
    requires queue != []
    ensures back + [queue[0]] + queue[1..] == back + queue
  {}

  lemma Append<T>(a: seq<T>, b: seq<T>, c: seq<T>)
    ensures a + b + c == a + (b + c)
  {}

  class Transmit {
    const ring: Ring
    const dma: seq<BusAddr>
    const data: array<seq<int>>    // contents of the DMA buffers
    const buffSize: Word
    const dmaSize: nat
    var descs: seq<TxDesc>         // descriptors written so far
    var done: seq<nat>             // completed, not yet collected by the handler
    ghost var inFlight: map<nat, seq<int>>  // what was posted, for each buffer of the hardware

    ghost predicate Valid()
      reads this, ring, ring.queue, data
    {
      && ring.Valid() && |dma| == ring.cnt == data.Length && DistinctAddrs(dma)
      && Completes(ring.hw, done)
      && (forall b :: 0 <= b < data.Length ==> |data[b]| == buffSize / 4)
      && inFlight.Keys == ring.hw && (forall b :: b in ring.hw ==> b < data.Length && inFlight[b] <= data[b])
    }

    constructor (dma: seq<BusAddr>, buffSize: Word, dmaSize: nat)
      requires 0 < |dma| && DistinctAddrs(dma)
      ensures Valid() && |ring.items| == |dma| && !ring.posted && fresh(ring) && fresh(ring.queue) && fresh(data)
      ensures this.dma == dma && this.buffSize == buffSize && this.dmaSize == dmaSize
    {
      ring := new Ring.Full(|dma|);
      data := new seq<int>[|dma|](_ => seq(buffSize / 4, _ => 0));
      this.dma, this.buffSize, this.dmaSize := dma, buffSize, dmaSize;
      descs, done, inFlight := [], [], map[];
    }

    /** SsiPcie_Write up to the descriptor: copy the user's dwords into the head
        buffer. Buffers in the hardware's hands are not touched. */
    method Begin(lane: nat, size: Word, user: seq<int>, copyOk: bool) returns (r: WriteResult)
      requires Valid() && !ring.posted && |user| == size
      modifies data
      ensures Valid()
      ensures forall b :: b in ring.hw ==> data[b] == old(data[b])
      ensures r == if Refused(size, buffSize) then TooLarge else if ring.items == [] then Again
                   else if !copyOk then Fault else if lane >= dmaSize then BadLane else Ready
      ensures r == Ready ==>
                && ring.items != [] && ring.items[0] < data.Length
                && Copied(size) <= size && Copied(size) <= buffSize / 4
                && data[ring.items[0]] == user[..Copied(size)] + old(data[ring.items[0]])[Copied(size)..]
    {
      hide Split, RingHolds, Distinct, DistinctAddrs, SizeBytes;
      CopiedIsLow(size);
      if SizeBytes(size) > buffSize {
        return TooLarge;
      }
      var empty := ring.IsEmpty();
      if empty {
        return Again;
      }
      var b := ring.Head();
      if !copyOk {
        return Fault;
      }
      var n := SizeBytes(size) / 4;
      data[b] := user[..n] + data[b][n..];
      r := if lane < dmaSize then Ready else BadLane;
    }

    /** Writing txWrA and txWrB hands the buffer to the hardware, which is to send
        as many dwords of it as the descriptor says. */
    method Post(lane: nat, vc: nat, size: Word)
      requires Valid() && !ring.posted && ring.items != [] && !Refused(size, buffSize)
      modifies this`descs, this`inFlight, ring`posted, ring`hw
      ensures Valid() && ring.posted && ring.hw == old(ring.hw) + {ring.items[0]}
      ensures ring.items[0] < |dma| && Length24(size) <= |data[ring.items[0]]|
      ensures inFlight == old(inFlight)[ring.items[0] := data[ring.items[0]][..Length24(size)]]
      ensures descs == old(descs) + [TxDesc(lane, PackDesc(lane, vc, size), dma[ring.items[0]])]
    {
      hide Split, RingHolds, Distinct, DistinctAddrs, PackDesc, Length24;
      LengthWithin(size);
      var b := ring.Head();
      descs := descs + [TxDesc(lane, PackDesc(lane, vc, size), dma[b])];
      ring.Post();
      inFlight := inFlight[b := data[b][..Length24(size)]];
    }

    method Advance()
      requires Valid() && ring.posted
      modifies ring`read, ring`items, ring`posted
      ensures Valid() && !ring.posted && ring.items == old(ring.items)[1..]
    {
      ring.Advance();
    }

    /** The three steps of SsiPcie_Write in a row. The hardware is to send the
        user's dwords, as many of them as the length field can say. */
    method Write(lane: nat, vc: nat, size: Word, user: seq<int>, copyOk: bool) returns (r: WriteResult)
      requires Valid() && !ring.posted && |user| == size
      modifies data, this`descs, this`inFlight, ring`read, ring`items, ring`posted, ring`hw
      ensures Valid() && !ring.posted
      ensures r == if Refused(size, buffSize) then TooLarge else if old(ring.items) == [] then Again
                   else if !copyOk then Fault else if lane >= dmaSize then BadLane else Ready
      ensures r == Ready ==>
                && var b := old(ring.items)[0];
                && ring.items == old(ring.items)[1..] && ring.hw == old(ring.hw) + {b} && b !in old(ring.hw)
                && Length24(size) <= |user| && inFlight == old(inFlight)[b := user[..Length24(size)]]
      ensures r != Ready ==> ring.items == old(ring.items) && ring.hw == old(ring.hw) && inFlight == old(inFlight)
    {
      hide Split, RingHolds, Distinct, DistinctAddrs, PackDesc, Length24, SizeBytes, Refused, Copied;
      r := Begin(lane, size, user, copyOk);
      if r == Ready {
        LengthWithin(size);
        var b := ring.Head();
        var m, n := Length24(size), Copied(size);
        assert (user[..n] + old(data[b])[n..])[..m] == user[..m];
        Post(lane, vc, size);
        Advance();
      }
    }

    /** The hardware has read a buffer; until it reports, the contents are those
        of the write that posted it. */
    method HwComplete(b: nat, length: nat) returns (sent: seq<int>)
      requires Valid() && b in ring.hw && b !in done && length == |inFlight[b]|
      modifies this`done
      ensures Valid() && done == old(done) + [b]
      ensures sent == inFlight[b]
    {
      sent := data[b][..length];
      done := done + [b];
    }

    method HwCompleteAll(batch: seq<nat>)
      requires Valid() && Completes(ring.hw, done + batch)
      modifies this`done
      ensures Valid() && done == old(done) + batch
    {
      done := done + batch;
    }

    /** Reading register txRead: the oldest completed address with its valid
        flag, which leaves the hardware's FIFO, or zero. */
    method ReadTxDone() returns (stat: Word)
      requires Valid()
      modifies this`done
      ensures Valid()
      ensures stat % 2 == (if old(done) == [] then 0 else 1)
      ensures old(done) == [] ==> stat == 0 && done == []
      ensures old(done) != [] ==> done == old(done)[1..] && old(done)[0] in ring.hw && old(done)[0] !in done
                                  && old(done)[0] < |dma| && stat == PackAddr(dma[old(done)[0]], 0)
    {
      if done == [] {
        return 0;
      }
      assert done[0] in ring.hw;
      AddrRoundTrip(dma[done[0]], 0);
      stat := PackAddr(dma[done[0]], 0);
      done := done[1..];
    }

    /** The handler finds the buffer by its address and returns it. */
    method Collect(stat: Word, ghost b: nat)
      requires Valid() && b in ring.hw && b !in done && b < |dma| && stat == PackAddr(dma[b], 0)
      modifies this`inFlight, ring`write, ring`items, ring`hw, ring.queue
      ensures Valid() && ring.items == old(ring.items) + [b] && ring.hw == old(ring.hw) - {b}
    {
      AddrRoundTrip(dma[b], 0);
      var idx := Find(dma, stat / 4 * 4);
      if idx < |dma| {
        assert idx == b;
        var collision := ring.Return(idx);
        inFlight := inFlight - {b};
      }
    }

    /** The transmit half of the interrupt handler: read txRead until its valid flag
        is clear; each buffer goes back into the queue, in order. The hardware
        completes the buffers of late[n] before read n. */
    method Irq(late: seq<seq<nat>>) returns (polls: nat)
      requires Valid() && Arrivals(ring.hw, done, late)
      modifies this`done, this`inFlight, ring`write, ring`items, ring`hw, ring.queue
      ensures Valid() && done == [] && polls <= |late|
      ensures ring.items == old(ring.items) + old(done) + Flat(late[..polls])
    {
      hide PackAddr, Split, RingHolds, DistinctAddrs, Arrivals, Completes, Transmit.Valid, Flat;
      polls := 0;
      ghost var back := [];
      NoBatches(late);
      while true
        invariant Valid() && polls <= |late| && Arrivals(ring.hw, done, late[polls..])
        invariant ring.items == old(ring.items) + back
        invariant back + done == old(done) + Flat(late[..polls])
        decreases |late| - polls, |done|
      {
        NextArrival(ring.hw, done, late, polls);
        if polls < |late| {
          Grow(back, done, old(done), Flat(late[..polls]), late[polls]);
          HwCompleteAll(late[polls]);
          polls := polls + 1;
        }
        ghost var before := done;
        var stat := ReadTxDone();
        if stat % 2 == 0 {
          break;
        }
        Collect(stat, before[0]);
        Append(old(ring.items), back, [before[0]]);
        Shift(back, before);
        back := back + [before[0]];
      }
      assert back + [] == back;
      Append(old(ring.items), old(done), Flat(late[..polls]));
    }
  }

  /** What arrives before a read leaves legal completions, also for the next one. */
  lemma NextArrival(hw: set<nat>, done: seq<nat>, late: seq<seq<nat>>, n: nat)
    requires n <= |late| && Arrivals(hw, done, late[n..])
    ensures n < |late| ==>
              var now := done + late[n];
              && Completes(hw, now) && (now != [] ==> Arrivals(hw - {now[0]}, now[1..], late[n + 1..]))
              && Flat(late[..n + 1]) == Flat(late[..n]) + late[n]
    ensures n == |late| && done != [] ==> Arrivals(hw - {done[0]}, done[1..], late[n..])
  {
    hide Completes;
    if n < |late| {
      assert late[n..][0] == late[n] && late[n..][1..] == late[n + 1..];
      FlatNext(late, n);
    }
  }

  // ---- Receive ----

  /** A received frame, as the user is to see it. */
  datatype Frame = Frame(info: Info, words: seq<int>)

  predicate FrameOk(f: Frame) {
    InfoOk(f.info) && f.info.length == |f.words|
  }

  datatype ReadResult = NoData | BadCopy | Got(ret: int, info: Info, words: seq<int>)

  /** A completion in the hardware's done FIFO. */
  datatype Done = Done(b: nat, frame: Frame)

  /** An rxFree write: buffer `addr` offered to lane `lane`. */
  datatype RxFree = RxFree(lane: nat, addr: BusAddr)

  function FramesOf(done: seq<Done>): seq<Frame> {
    seq(|done|, i requires 0 <= i < |done| => done[i].frame)
  }

  /** The buffers the driver holds contain the unread frames, oldest first. */
  ghost predicate HeldFrames(held: seq<nat>, info: seq<Info>, data: seq<seq<int>>, arrived: seq<Frame>) {
    && |held| == |arrived| && |info| == |data|
    && forall i :: 0 <= i < |held| ==>
         held[i] < |data| && Frame(info[held[i]], data[held[i]]) == arrived[i] && FrameOk(arrived[i])
  }

  /** The done FIFO names distinct buffers of the hardware, with their frames. */
  ghost predicate DoneOk(done: seq<Done>, hw: set<nat>, data: seq<seq<int>>) {
    && (forall i, j :: 0 <= i < j < |done| ==> done[i].b != done[j].b)
    && forall i :: 0 <= i < |done| ==>
         done[i].b in hw && done[i].b < |data| && data[done[i].b] == done[i].frame.words && FrameOk(done[i].frame)
  }

  /** Buffers that the hardware may have filled: its own, each once. */
  ghost predicate Fills(hw: set<nat>, done: seq<Done>) {
    && (forall i, j :: 0 <= i < j < |done| ==> done[i].b != done[j].b)
    && forall i :: 0 <= i < |done| ==> done[i].b in hw && FrameOk(done[i].frame)
  }

  /** Frames that may arrive before each read of the interrupt loop. A buffer that is
      collected leaves the hardware, unless the device is not open. */
  ghost predicate Incoming(isOpen: bool, hw: set<nat>, done: seq<Done>, late: seq<seq<Done>>)
    decreases |late|
  {
    late != [] ==>
      var now := done + late[0];
      Fills(hw, now) && (now != [] ==> Incoming(isOpen, if isOpen then hw - {now[0].b} else hw, now[1..], late[1..]))
  }

  lemma NextIncoming(isOpen: bool, hw: set<nat>, done: seq<Done>, late: seq<seq<Done>>, n: nat)
    requires n <= |late| && Incoming(isOpen, hw, done, late[n..])
    ensures n < |late| ==>
              var now := done + late[n];
              && Fills(hw, now)
              && (now != [] ==> Incoming(isOpen, if isOpen then hw - {now[0].b} else hw, now[1..], late[n + 1..]))
              && Flat(late[..n + 1]) == Flat(late[..n]) + late[n]
    ensures n == |late| && done != [] ==>
              Incoming(isOpen, if isOpen then hw - {done[0].b} else hw, done[1..], late[n..])
  {
    hide Fills;
    if n < |late| {
      assert late[n..][0] == late[n] && late[n..][1..] == late[n + 1..];
      FlatNext(late, n);
    }
  }

  lemma FramesSnoc(ds: seq<Done>, d: Done)
    ensures FramesOf(ds + [d]) == FramesOf(ds) + [d.frame]
  {}

  lemma NoFrames()
    ensures FramesOf([]) == []
  {}

  class Receive {
    const ring: Ring
    const dma: seq<BusAddr>
    const data: array<seq<int>>
    const info: array<Info>
    var isOpen: bool
    var done: seq<Done>
    var freed: seq<RxFree>           // rxFree writes so far
    ghost var arrived: seq<Frame>    // collected while open, not yet handed to the user

    ghost predicate Valid()
      reads this, ring, ring.queue, data, info
    {
      && ring.Valid() && |dma| == ring.cnt == data.Length == info.Length && DistinctAddrs(dma)
      && DoneOk(done, ring.hw, data[..])
      && HeldFrames(Held(ring.items, ring.posted), info[..], data[..], arrived)
    }

    constructor (dma: seq<BusAddr>)
      requires 0 < |dma| && DistinctAddrs(dma)
      ensures Valid() && ring.hw == Below(|dma|) && arrived == [] && !ring.posted
      ensures this.dma == dma && !isOpen && done == [] && freed == []
      ensures fresh(ring) && fresh(ring.queue) && fresh(data) && fresh(info)
    {
      ring := new Ring.Empty(|dma|);
      data := new seq<int>[|dma|](_ => []);
      info := new Info[|dma|](_ => Info(0, 0, 0, 0));
      this.dma, isOpen, done, freed, arrived := dma, false, [], [], [];
    }

    /** SsiPcie_Open: the device can be open once. */
    method Open() returns (ok: bool)
      requires Valid()
      modifies this`isOpen
      ensures Valid() && isOpen && ok == !old(isOpen)
    {
      ok := !isOpen;
      isOpen := true;
    }

    /** SsiPcie_Release: unread frames stay queued for whoever opens it next. */
    method Release() returns (ok: bool)
      requires Valid()
      modifies this`isOpen
      ensures Valid() && !isOpen && ok == old(isOpen)
    {
      ok := isOpen;
      isOpen := false;
    }

    /** The hardware fills one of its buffers and reports it. */
    method HwReceive(b: nat, frame: Frame)
      requires Valid() && b in ring.hw && b < |dma| && FrameOk(frame) && forall i :: 0 <= i < |done| ==> done[i].b != b
      modifies this`done, data
      ensures Valid() && done == old(done) + [Done(b, frame)]
      ensures data[..] == old(data[..])[b := frame.words]
    {
      hide Split, RingHolds, DistinctAddrs, InfoOk;
      HeldIsNotHw(ring.cnt, ring.items, ring.posted, ring.hw, b);
      data[b] := frame.words;
      done := done + [Done(b, frame)];
    }

    method HwReceiveAll(batch: seq<Done>)
      requires Valid() && Fills(ring.hw, done + batch)
      modifies this`done, data
      ensures Valid() && done == old(done) + batch
    {
      hide Split, RingHolds, DistinctAddrs, FrameOk, HeldFrames, DoneOk;
      for n := 0 to |batch|
        invariant Valid() && done == old(done) + batch[..n]
      {
        FillFits(ring.cnt, ring.items, ring.posted, ring.hw, old(done), batch, n);
        HwReceive(batch[n].b, batch[n].frame);
        assert batch[..n + 1] == batch[..n] + [batch[n]];
      }
      assert batch[..|batch|] == batch;
    }

    /** SsiPcie_Read up to giving the buffer back: the oldest unread frame, cut to
        what the user has room for. */
    method Begin(maxSize: nat, copyOk: bool, structOk: bool) returns (r: ReadResult)
      requires Valid() && !ring.posted
      modifies this`arrived, info
      ensures Valid()
      ensures r == NoData <==> ring.items == []
      ensures ring.items == [] ==> arrived == old(arrived)
      ensures ring.items != [] ==>
                && |old(arrived)| > 0
                && var f := old(arrived)[0];
                   var short := maxSize < f.info.length;
                   var seen := if short then f.info.(error := 1) else f.info;
                   && arrived == old(arrived)[0 := f.(info := seen)]
                   && r == if !structOk then BadCopy
                           else Got(if !copyOk then -1 else if short then maxSize else f.info.length, seen,
                                    f.words[..if short then maxSize else |f.words|])
    {
      hide Split, RingHolds, DistinctAddrs;
      var empty := ring.IsEmpty();
      if empty {
        return NoData;
      }
      var b := ring.Head();
      var copyLength := info[b].length;
      HeldDistinct(ring.cnt, ring.items, ring.posted, ring.hw);
      if maxSize < info[b].length {
        copyLength := maxSize;
        info[b] := info[b].(error := 1);  // error | 1, error being one bit
        arrived := arrived[0 := arrived[0].(info := info[b])];
      }
      if !structOk {
        return BadCopy;
      }
      r := Got(if copyOk then copyLength else -1, info[b], data[b][..copyLength]);
    }

    /** Writing rxFree hands the buffer to the hardware again. */
    method Post()
      requires Valid() && !ring.posted && ring.items != []
      modifies this`freed, this`arrived, ring`posted, ring`hw
      ensures Valid() && ring.posted && ring.items == old(ring.items) && ring.hw == old(ring.hw) + {ring.items[0]}
      ensures |old(arrived)| > 0 && arrived == old(arrived)[1..]
      ensures ring.items[0] < |dma| && freed == old(freed) + [RxFree(old(arrived)[0].info.lane, dma[ring.items[0]])]
    {
      hide RingHolds, DistinctAddrs, FrameOk, HeldFrames, Split;
      var b := ring.Head();
      HeldTail(ring.items, info[..], data[..], arrived);
      freed := freed + [RxFree(info[b].lane, dma[b])];
      ring.Post();
      arrived := arrived[1..];
    }

    method Advance()
      requires Valid() && ring.posted
      modifies ring`read, ring`items, ring`posted
      ensures Valid() && !ring.posted && ring.items == old(ring.items)[1..]
    {
      ring.Advance();
    }

    /** The paired reads of rxRead: the oldest completion, which leaves the
        hardware's FIFO, or a word without the valid flag. */
    method ReadRxDone() returns (descA: Word, descB: Word)
      requires Valid()
      modifies this`done
      ensures Valid()
      ensures descB % 2 == (if old(done) == [] then 0 else 1)
      ensures old(done) == [] ==> done == []
      ensures old(done) != [] ==>
                && done == old(done)[1..]
                && var d := old(done)[0];
                   && d.b < |dma| && d.b in ring.hw && data[d.b] == d.frame.words && FrameOk(d.frame)
                   && (forall i :: 0 <= i < |done| ==> done[i].b != d.b)
                   && descA == PackDesc(d.frame.info.lane, d.frame.info.vc, d.frame.info.length)
                   && descB == PackAddr(dma[d.b], d.frame.info.error)
    {
      hide Split, RingHolds, DistinctAddrs, PackDesc, PackAddr, Held;
      if done == [] {
        return 0, 0;
      }
      var d := done[0];
      descA := PackDesc(d.frame.info.lane, d.frame.info.vc, d.frame.info.length);
      descB := PackAddr(dma[d.b], d.frame.info.error);
      AddrRoundTrip(dma[d.b], d.frame.info.error);
      done := done[1..];
    }

    /** The handler's reaction to one completion: queue the frame for the user, or
        give the buffer straight back if the device is not open. */
    method Collect(descA: Word, descB: Word, ghost d: Done)
      requires Valid() && d.b < |dma| && d.b in ring.hw && data[d.b] == d.frame.words && FrameOk(d.frame)
      requires forall i :: 0 <= i < |done| ==> done[i].b != d.b
      requires descA == PackDesc(d.frame.info.lane, d.frame.info.vc, d.frame.info.length)
      requires descB == PackAddr(dma[d.b], d.frame.info.error)
      modifies this`freed, this`arrived, info, ring`write, ring`items, ring`hw, ring.queue
      ensures Valid()
      ensures if isOpen then
                arrived == old(arrived) + [d.frame] && freed == old(freed)
                && ring.items == old(ring.items) + [d.b] && ring.hw == old(ring.hw) - {d.b}
              else
                arrived == old(arrived) && ring.items == old(ring.items) && ring.hw == old(ring.hw)
                && freed == old(freed) + [RxFree(d.frame.info.lane, dma[d.b])]
    {
      hide Split, RingHolds, PackDesc, PackAddr, InfoOk, UnpackInfo;
      DescRoundTrip(d.frame.info, dma[d.b]);
      var idx := Find(dma, descB / 4 * 4);
      if idx < |dma| {
        assert idx == d.b;
        var i := UnpackInfo(descA, descB);
        if isOpen {
          HeldIsNotHw(ring.cnt, ring.items, ring.posted, ring.hw, idx);
          HeldSnoc(ring.cnt, ring.items, ring.posted, ring.hw, idx);
          info[idx] := i;
          var collision := ring.Return(idx);
          arrived := arrived + [Frame(i, data[idx])];
        } else {
          freed := freed + [RxFree(i.lane, dma[idx])];
        }
      }
    }

    /** The receive half of the interrupt handler: every completion is collected
        once, in order. The hardware fills the buffers of late[n] before read n. */
    method Irq(late: seq<seq<Done>>) returns (polls: nat)
      requires Valid() && Incoming(isOpen, ring.hw, done, late)
      modifies this`done, this`freed, this`arrived, data, info, ring`write, ring`items, ring`hw, ring.queue
      ensures Valid() && done == [] && polls <= |late|
      ensures arrived == if isOpen then old(arrived) + FramesOf(old(done) + Flat(late[..polls])) else old(arrived)
      ensures isOpen ==> freed == old(freed)
    {
      hide Split, RingHolds, Distinct, DistinctAddrs, PackDesc, PackAddr, FrameOk, Held, DoneOk, HeldFrames,
           Incoming, Fills, Receive.Valid, Flat, FramesOf;
      polls := 0;
      ghost var got: seq<Done> := [];
      NoBatches(late);
      NoFrames();
      while true
        invariant Valid() && polls <= |late| && Incoming(isOpen, ring.hw, done, late[polls..])
        invariant got + done == old(done) + Flat(late[..polls])
        invariant arrived == if isOpen then old(arrived) + FramesOf(got) else old(arrived)
        invariant isOpen ==> freed == old(freed)
        decreases |late| - polls, |done|
      {
        NextIncoming(isOpen, ring.hw, done, late, polls);
        if polls < |late| {
          Grow(got, done, old(done), Flat(late[..polls]), late[polls]);
          HwReceiveAll(late[polls]);
          polls := polls + 1;
        }
        ghost var before := done;
        var descA, descB := ReadRxDone();
        if descB % 2 == 0 {
          break;
        }
        Collect(descA, descB, before[0]);
        Shift(got, before);
        FramesSnoc(got, before[0]);
        Append(old(arrived), FramesOf(got), [before[0].frame]);
        got := got + [before[0]];
      }
      assert got + [] == got;
    }
  }

  lemma HeldTail(items: seq<nat>, info: seq<Info>, data: seq<seq<int>>, arrived: seq<Frame>)
    requires HeldFrames(items, info, data, arrived) && items != []
    ensures |arrived| > 0 && items[0] < |info| && info[items[0]] == arrived[0].info
    ensures HeldFrames(items[1..], info, data, arrived[1..])
  {}

  lemma FillFits(cnt: nat, items: seq<nat>, posted: bool, hw: set<nat>, done: seq<Done>, batch: seq<Done>, n: nat)
    requires Split(cnt, items, posted, hw) && Fills(hw, done + batch) && n < |batch|
    ensures batch[n].b in hw && batch[n].b < cnt && FrameOk(batch[n].frame)
    ensures var now := done + batch[..n]; forall i :: 0 <= i < |now| ==> now[i].b != batch[n].b
  {
    hide FrameOk;
    var all := done + batch;
    assert all[|done| + n] == batch[n];
    forall i | 0 <= i < |done| + n ensures (done + batch[..n])[i].b != batch[n].b {
      assert (done + batch[..n])[i] == all[i];
    }
  }

  lemma HeldIsNotHw(cnt: nat, items: seq<nat>, posted: bool, hw: set<nat>, b: nat)
    requires Split(cnt, items, posted, hw) && b in hw
    ensures forall i :: 0 <= i < |Held(items, posted)| ==> Held(items, posted)[i] != b
  {
    forall i | 0 <= i < |Held(items, posted)| ensures Held(items, posted)[i] != b {
      assert Held(items, posted)[i] in Held(items, posted);
    }
  }

  lemma HeldDistinct(cnt: nat, items: seq<nat>, posted: bool, hw: set<nat>)
    requires Split(cnt, items, posted, hw)
    ensures Distinct(Held(items, posted))
  {}

  lemma HeldSnoc(cnt: nat, items: seq<nat>, posted: bool, hw: set<nat>, b: nat)
    requires Split(cnt, items, posted, hw)
    ensures Held(items + [b], posted) == Held(items, posted) + [b]
  {}
}
