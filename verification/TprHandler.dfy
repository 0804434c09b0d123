/** The bottom half of the tpr driver from the DMA buffers to the clients: what the
    messages of a buffer say decides whose flag is set. */
module TprHandler {
  import opened Bits
  import opened TprTypes
  import opened TprQueues
  import opened TprDma
  import opened TprClients
  import opened TprWake

  /** The message is for the clients on list l: an event for those of the channels it
      names, a BSA message for those of the BSA list. */
  ghost predicate IsFor(x: Item, l: nat) {
    match x
    case EventItem(m) => l < CHANNELS && Addressed(m, l)
    case BsaItem(_) => l == BSA
  }

  ghost predicate AnyFor(items: seq<Item>, l: nat) {
    exists k :: 0 <= k < |items| && IsFor(items[k], l)
  }

  /** The clients that some message is for. */
  ghost function Readers(home: seq<nat>, items: seq<Item>): set<nat> {
    set x | 0 <= x < |home| && AnyFor(items, home[x]) :: x
  }

  /** wmask as the set of its bits. */
  function BitsOf(wmask: nat): set<nat> {
    set l: nat | l <= BSA_BIT && Bit(wmask, l)
  }

  lemma BitOfList(items: seq<Item>, l: nat)
    requires l < FREE
    ensures Wanted(items, BitOf(l)) <==> AnyFor(items, l)
  {
    hide Addressed;
    if Wanted(items, BitOf(l)) {
      var k :| 0 <= k < |items| && Concerns(items[k], BitOf(l));
      if items[k].EventItem? {
        OnlyChannels(items[k].msg, BitOf(l));
      }
      assert IsFor(items[k], l);
    }
    if AnyFor(items, l) {
      var k :| 0 <= k < |items| && IsFor(items[k], l);
      assert Concerns(items[k], BitOf(l));
    }
  }

  lemma OnlyChannels(m: Message, l: nat)
    ensures Addressed(m, l) ==> l < CHANNELS
  {}

  /** The bits that the messages have set are those by which the wake loops find their
      readers. */
  lemma MaskFindsReaders(home: seq<nat>, items: seq<Item>, wmask: nat)
    requires forall l: nat :: HasBit(wmask, l) <==> Wanted(items, l)
    requires forall x :: 0 <= x < |home| ==> home[x] < LISTS
    ensures Members(home, BitsOf(wmask)) == Readers(home, items)
  {
    hide HasBit, Bit, Wanted, AnyFor;
    NobodyFree(items);
    forall x | 0 <= x < |home| ensures Marked(home[x], BitsOf(wmask)) <==> AnyFor(items, home[x]) {
      if home[x] != FREE {
        BitExact(wmask, BitOf(home[x]));
        BitOfList(items, home[x]);
      }
    }
  }

  lemma NobodyFree(items: seq<Item>)
    ensures !AnyFor(items, FREE)
  {}

  /** The waking half, left alone: exactly the members of the lists concerned get their
      flag set. */
  method WakeAll(w: Waker, mask: set<nat>)
    requires w.Valid() && w.s.phase == Resting
    modifies w
    ensures w.Valid() && w.s.phase == Resting && w.s.lists == old(w.s.lists) && w.s.home == old(w.s.home)
    ensures w.s.pending == old(w.s.pending) + Members(w.s.home, mask)
    ensures w.unseen == old(w.unseen) + Members(w.s.home, mask)
  {
    hide Waker.Valid, Members;
    w.StartHandler();
    w.Publish(mask);
    assert w.s.wmask == mask;
    w.StartWaking();
    w.FinishWaking();
  }

  /** tpr_handle_dma and the clients it wakes. */
  class Handler {
    const dev: Device
    const wake: Waker

    /** What the device consists of. */
    ghost function Parts(): set<object> {
      {dev, dev.q} + dev.q.Repr() + set b | b in dev.rxBuffer
    }

    ghost predicate Valid()
      reads this, dev, dev.q, dev.q.Repr(), set b | b in dev.rxBuffer
      reads wake
    {
      dev.Aligned(dev.rxPend) && wake !in Parts() && wake.Valid() && wake.s.phase == Resting
    }

    constructor (n: nat)
      requires 0 < n
      ensures Valid() && dev.fills == [] && wake.unseen == {}
    {
      hide RingOk, Device.Shape, Device.LogOk, Queues.Valid, Waker.Valid;
      dev := new Device(n);
      wake := new Waker();
    }

    /** One call of the handler, while no client comes or goes. The flags set are those
        of the readers of the messages in the buffers it consumes, and no others. */
    method Handle(late: seq<seq<seq<Word>>>)
      requires Valid()
      requires forall n, i :: 0 <= n < |late| && 0 <= i < |late[n]| ==> GoodFill(late[n][i])
      modifies dev, set b | b in dev.rxBuffer
      modifies dev.q`events, dev.q`bsas, dev.q`gwp, dev.q`bsawp, dev.q`fifofull
      modifies dev.q.allq, dev.q.bsaq, dev.q.allwp, set a | a in dev.q.allrp
      modifies wake
      ensures Valid() && old(dev.fills) <= dev.fills && dev.processed == |dev.fills|
      ensures old(dev.processed) <= |dev.fills|
      ensures var items := ItemsOf(dev.fills[old(dev.processed)..]);
              && wake.s.pending == old(wake.s.pending) + Readers(wake.s.home, items)
              && wake.unseen == old(wake.unseen) + Readers(wake.s.home, items)
      ensures wake.s.lists == old(wake.s.lists) && wake.s.home == old(wake.s.home)
    {
      hide GoodFill, ItemsOf, HasBit, Wanted, AnyFor, Waker.Valid, Device.Aligned, Readers, Members;
      var wmask := dev.HandleDma(late);
      ghost var items := ItemsOf(dev.fills[old(dev.processed)..]);
      Homes(wake);
      MaskFindsReaders(wake.s.home, items, wmask);
      WakeAll(wake, BitsOf(wmask));
    }
  }

  lemma Homes(w: Waker)
    requires w.Valid()
    ensures forall x :: 0 <= x < |w.s.home| ==> w.s.home[x] < LISTS
  {}
}
