/** The hardware's done FIFO and the driver's receive side together: the interrupt
    handler reads the register pair while frames go on being recorded. */
module RxReadout {
  import opened Bits
  import opened Streams
  import opened Wrappers
  import opened RxDesc
  import opened SsiDriver

  /** The record and the completion are of the same frame. */
  ghost predicate Tells(e: Report, d: Done, dma: seq<BusAddr>) {
    && d.b < |dma| && FrameOk(d.frame)
    && e.addr * 4 == dma[d.b] && e.dmaCh == d.frame.info.lane && e.subCh == d.frame.info.vc
    && e.length == d.frame.info.length && (e.frameErr || e.eofe <==> d.frame.info.error == 1)
  }

  ghost predicate Mirror(es: seq<Report>, ds: seq<Done>, dma: seq<BusAddr>) {
    |es| == |ds| && forall i :: 0 <= i < |es| ==> Tells(es[i], ds[i], dma)
  }

  /** The words read are those that the driver takes apart. */
  lemma SameWords(e: Report, d: Done, dma: seq<BusAddr>)
    requires Tells(e, d, dma)
    ensures HighWord(e) == PackDesc(d.frame.info.lane, d.frame.info.vc, d.frame.info.length)
    ensures LowWord(e) + 1 == PackAddr(dma[d.b], d.frame.info.error)
  {
    assert LowWord(e) == 4 * e.addr + 2 * d.frame.info.error;
  }

  lemma MirrorTail(es: seq<Report>, ds: seq<Done>, dma: seq<BusAddr>, more: seq<Report>, batch: seq<Done>)
    requires Mirror(es, ds, dma) && Mirror(more, batch, dma)
    ensures es == [] <==> ds == []
    ensures es != [] ==> Tells(es[0], ds[0], dma) && Mirror(es[1..] + more, ds[1..] + batch, dma)
    ensures es == [] ==> Mirror(es + more, ds + batch, dma)
  {
    hide Tells;
  }

  /** All that is recorded in the four clocks of a paired read. */
  function Recorded4(p: Meanwhile): seq<Report> {
    Pushed(p.w0) + Pushed(p.w1) + Pushed(p.w2) + Pushed(p.w3)
  }

  lemma InFour(pushed: seq<Report>, p: Meanwhile)
    ensures pushed + Pushed(p.w0) + Pushed(p.w1) + Pushed(p.w2) + Pushed(p.w3) == pushed + Recorded4(p)
  {}

  /** What is queued after a paired read. */
  lemma QueueAfter(taken: seq<Report>, queue: seq<Report>, more: seq<Report>, taken': seq<Report>, queue': seq<Report>)
    requires taken' + queue' == taken + queue + more
    requires taken' == if queue == [] then taken else taken + [queue[0]]
    ensures queue' == if queue == [] then more else queue[1..] + more
  {
    var all := taken + queue + more;
    assert queue' == all[|taken'|..];
  }

  /** Frames that may be recorded during each paired read of the interrupt loop. */
  ghost predicate FilledMeanwhile(isOpen: bool, hw: set<nat>, done: seq<Done>, late: seq<seq<Done>>)
    decreases |late|
  {
    late != [] ==>
      && Fills(hw, done + late[0])
      && (done != [] ==> FilledMeanwhile(isOpen, if isOpen then hw - {done[0].b} else hw, done[1..] + late[0],
                                         late[1..]))
  }

  lemma NextRound(isOpen: bool, hw: set<nat>, done: seq<Done>, late: seq<seq<Done>>, n: nat)
    requires n <= |late| && FilledMeanwhile(isOpen, hw, done, late[n..])
    ensures n < |late| ==> Fills(hw, done + late[n]) && Flat(late[..n + 1]) == Flat(late[..n]) + late[n]
    ensures n < |late| && done != [] ==>
              FilledMeanwhile(isOpen, if isOpen then hw - {done[0].b} else hw, done[1..] + late[n], late[n + 1..])
    ensures n == |late| && done != [] ==>
              FilledMeanwhile(isOpen, if isOpen then hw - {done[0].b} else hw, done[1..], late[n..])
  {
    hide Fills;
    if n < |late| {
      assert late[n..][0] == late[n] && late[n..][1..] == late[n + 1..];
      FlatNext(late, n);
    }
  }

  /** The buffer just collected is not among those filled meanwhile. */
  lemma FillsRest(isOpen: bool, hw: set<nat>, done: seq<Done>, batch: seq<Done>)
    requires Fills(hw, done + batch) && done != []
    ensures Fills(if isOpen then hw - {done[0].b} else hw, done[1..] + batch)
    ensures Fills(hw, done + batch)
  {
    hide FrameOk;
    var all, rest := done + batch, done[1..] + batch;
    assert forall i :: 0 <= i < |rest| ==> rest[i] == all[i + 1];
    assert all[0] == done[0];
  }

  class Readout {
    const fifo: DoneFifo
    const rx: Receive

    ghost predicate Valid()
      reads this, fifo, rx, rx.ring, rx.ring.queue, rx.data, rx.info
    {
      && fifo.Valid() && !fifo.r.rdDone && !fifo.r.rFifoRd && rx.Valid()
      && Mirror(fifo.queue, rx.done, rx.dma)
    }

    constructor (dma: seq<BusAddr>)
      requires 0 < |dma| && DistinctAddrs(dma)
      ensures Valid() && fresh(fifo) && fresh(rx) && fresh(rx.ring) && fresh(rx.ring.queue) && fresh(rx.data)
              && fresh(rx.info)
      ensures rx.arrived == [] && rx.dma == dma
    {
      hide Receive.Valid;
      fifo := new DoneFifo();
      rx := new Receive(dma);
    }

    /** One round of the loop: the register pair, then what the handler does with it.
        `p` and `fills` are the records and the filled buffers of the same frames. */
    method Round(p: Meanwhile, fills: seq<Done>) returns (more: bool)
      requires Valid() && Mirror(Recorded4(p), fills, rx.dma) && Fills(rx.ring.hw, rx.done + fills)
      modifies fifo, rx`done, rx`freed, rx`arrived, rx.data, rx.info, rx.ring`write, rx.ring`items, rx.ring`hw,
               rx.ring.queue
      ensures Valid() && more == (old(rx.done) != [])
      ensures fifo.pushed == old(fifo.pushed) + Recorded4(p)
      ensures rx.done == (if more then old(rx.done)[1..] else []) + fills
      ensures rx.arrived == if more && rx.isOpen then old(rx.arrived) + [old(rx.done)[0].frame] else old(rx.arrived)
      ensures rx.ring.hw == if more && rx.isOpen then old(rx.ring.hw) - {old(rx.done)[0].b} else old(rx.ring.hw)
      ensures rx.isOpen ==> rx.freed == old(rx.freed)
    {
      hide Receive.Valid, DoneFifo.Valid, HighWord, LowWord, PackDesc, PackAddr, Tells, Fills, DistinctAddrs, FrameOk,
           Mirror, DoneOk, HeldFrames, Recorded4;
      ghost var before, queue, taken, pushed := rx.done, fifo.queue, fifo.taken, fifo.pushed;
      NothingLost(fifo);
      MirrorTail(queue, before, rx.dma, Recorded4(p), fills);
      var a, b := ReadPair(fifo, p.w0, p.w1, p.w2, p.w3);
      NothingLost(fifo);
      InFour(pushed, p);
      QueueAfter(taken, queue, Recorded4(p), fifo.taken, fifo.queue);
      more := b % 2 == 1;
      if more {
        SameWords(queue[0], before[0], rx.dma);
        FillsRest(rx.isOpen, rx.ring.hw, before, fills);
        var descA, descB := rx.ReadRxDone();
        rx.Collect(a, b, before[0]);
      }
      rx.HwReceiveAll(fills);
      assert [] + fills == fills;
    }

    lemma AlreadyFilled()
      requires Valid()
      ensures Fills(rx.ring.hw, rx.done + [])
    {
      hide DoneFifo.Valid, Mirror, FrameOk, HeldFrames, DistinctAddrs;
      assert rx.done + [] == rx.done;
    }

    /** The receive half of the interrupt handler. It collects, in order, every frame
        recorded before and those recorded during its first rounds; the records and
        the driver's completions stay in step, whatever arrives in any clock. */
    method Irq(late: seq<Meanwhile>, fills: seq<seq<Done>>) returns (rounds: nat, ghost got: seq<Done>)
      requires Valid() && |late| == |fills| && FilledMeanwhile(rx.isOpen, rx.ring.hw, rx.done, fills)
      requires forall i :: 0 <= i < |late| ==> Mirror(Recorded4(late[i]), fills[i], rx.dma)
      modifies fifo, rx`done, rx`freed, rx`arrived, rx.data, rx.info, rx.ring`write, rx.ring`items, rx.ring`hw,
               rx.ring.queue
      ensures Valid() && rounds <= |late|
      ensures old(rx.done) <= got && got + rx.done == old(rx.done) + Flat(fills[..rounds])
      ensures rx.arrived == if rx.isOpen then old(rx.arrived) + FramesOf(got) else old(rx.arrived)
      ensures rx.isOpen ==> rx.freed == old(rx.freed)
      ensures late == [] ==> rx.done == []
    {
      hide Receive.Valid, DoneFifo.Valid, Mirror, Recorded4, FilledMeanwhile, Fills, Flat, FramesOf, DistinctAddrs,
           Readout.Valid;
      rounds, got := 0, [];
      NoBatches(fills);
      NoFrames();
      var more := true;
      while more
        invariant Valid() && rounds <= |late|
        invariant more ==> FilledMeanwhile(rx.isOpen, rx.ring.hw, rx.done, fills[rounds..])
        invariant got + rx.done == old(rx.done) + Flat(fills[..rounds])
        invariant rx.arrived == if rx.isOpen then old(rx.arrived) + FramesOf(got) else old(rx.arrived)
        invariant rx.isOpen ==> rx.freed == old(rx.freed)
        invariant !more ==> old(rx.done) <= got && (late == [] ==> rx.done == [])
        decreases |late| - rounds, |rx.done|, more
      {
        ghost var before := rx.done;
        NextRound(rx.isOpen, rx.ring.hw, before, fills, rounds);
        AlreadyFilled();
        NothingRecorded(rx.dma);
        var p, batch := Quad(None, None, None, None), [];
        if rounds < |late| {
          p, batch := late[rounds], fills[rounds];
        }
        more := Round(p, batch);
        Collected(got, before, old(rx.done), Flat(fills[..rounds]), batch);
        if more {
          FramesSnoc(got, before[0]);
          Append(old(rx.arrived), FramesOf(got), [before[0].frame]);
          got := got + [before[0]];
        }
        rounds := if rounds < |late| then rounds + 1 else rounds;
      }
    }
  }

  lemma NothingRecorded(dma: seq<BusAddr>)
    ensures Mirror(Recorded4(Quad(None, None, None, None)), [], dma)
  {}

  /** One round of accounting. */
  lemma Collected(got: seq<Done>, before: seq<Done>, start: seq<Done>, seen: seq<Done>, batch: seq<Done>)
    requires got + before == start + seen
    ensures before != [] ==> got + [before[0]] + (before[1..] + batch) == start + (seen + batch)
    ensures before == [] ==> got + ([] + batch) == start + (seen + batch) && start <= got
    ensures batch == [] ==> seen + batch == seen && [] + batch == []
    ensures batch == [] && before != [] ==> before[1..] + batch == before[1..]
  {
    if before != [] {
      assert got + [before[0]] + before[1..] == start + seen;
      Associate(got + [before[0]], before[1..], batch);
      Associate(start, seen, batch);
    } else {
      assert got == start + seen;
    }
  }
}
