/** A receiver and the inbound arbiter clocked together: what the host sees behind the
    arbiter, with the packets of all sources interleaved. */
module RxMerge {
  import opened PcieTypes
  import opened Streams
  import opened Wrappers
  import Dma = RxDma
  import Mem = HostMemory
  import Arb = TlpInbound
  import opened RxPath
  import opened RxDesc
  import opened RxDelivery

  /** The packets of one source, in order. */
  function From(ps: seq<Arb.Packet>, src: Arb.Source): seq<Arb.Packet>
    decreases |ps|
  {
    if ps == [] then []
    else
      var p := ps[|ps| - 1];
      From(ps[..|ps| - 1], src) + (if p.src == src then [p] else [])
  }

  /** What the packets say, dword by dword. */
  function Contents(ps: seq<Arb.Packet>): (r: seq<seq<Dword>>)
    ensures |r| == |ps|
  {
    seq(|ps|, i requires 0 <= i < |ps| => Words(ps[i].beats))
  }

  lemma ContentsSnoc(ps: seq<Arb.Packet>, p: Arb.Packet)
    ensures Contents(ps + [p]) == Contents(ps) + [Words(p.beats)]
  {}

  ghost predicate AllWhole(ps: seq<Arb.Packet>) {
    forall k :: 0 <= k < |ps| ==> Arb.Whole(ps[k])
  }

  /** The beats of one source, deframed, are its packets. */
  lemma {:induction false} SourcePackets(ps: seq<Arb.Packet>, src: Arb.Source)
    requires AllWhole(ps)
    ensures Deframe(Arb.FlatOf(ps, src)).pkts == Contents(From(ps, src)) && Deframe(Arb.FlatOf(ps, src)).part == []
    decreases |ps|
  {
    hide Words, Deframe;
    if ps == [] {
      EmptyView();
    } else {
      var pre, p := ps[..|ps| - 1], ps[|ps| - 1];
      SourcePackets(pre, src);
      if p.src == src {
        assert Arb.Whole(p);
        DeframeGroup(Arb.FlatOf(pre, src), p.beats);
        assert [] + Words(p.beats) == Words(p.beats);
        ContentsSnoc(From(pre, src), p);
      } else {
        assert Arb.FlatOf(pre, src) + [] == Arb.FlatOf(pre, src);
        assert From(pre, src) + [] == From(pre, src);
      }
    }
  }

  // ---- Writes that stay away from each other ----

  /** A packet that does not write into the region. */
  ghost predicate Avoids(pkt: seq<Dword>, region: set<nat>) {
    Mem.MemoryWrite(pkt) ==> forall a :: pkt[2] / 4 <= a < pkt[2] / 4 + |pkt| - 3 ==> a !in region
  }

  ghost predicate SameOn(region: set<nat>, a: Mem.Memory, b: Mem.Memory) {
    forall k :: k in region ==> (k in a <==> k in b) && (k in a ==> a[k] == b[k])
  }

  lemma WriteAvoids(mem: Mem.Memory, pkt: seq<Dword>, region: set<nat>)
    requires Avoids(pkt, region)
    ensures SameOn(region, Mem.HostWrite(mem, pkt), mem)
  {}

  lemma WriteSame(a: Mem.Memory, b: Mem.Memory, pkt: seq<Dword>, region: set<nat>)
    requires SameOn(region, a, b)
    ensures SameOn(region, Mem.HostWrite(a, pkt), Mem.HostWrite(b, pkt))
  {
    hide Mem.Swapped, Mem.MemoryWrite;
  }

  /** Packets of other sources that stay out of the region might as well not be there. */
  lemma {:induction false} Interleaved(mem: Mem.Memory, ps: seq<Arb.Packet>, src: Arb.Source, region: set<nat>)
    requires forall k :: 0 <= k < |ps| && ps[k].src != src ==> Avoids(Words(ps[k].beats), region)
    ensures SameOn(region, Mem.HostWrites(mem, Contents(ps)), Mem.HostWrites(mem, Contents(From(ps, src))))
    decreases |ps|
  {
    hide Mem.HostWrite, Words, Avoids;
    if ps != [] {
      var pre, p := ps[..|ps| - 1], ps[|ps| - 1];
      Interleaved(mem, pre, src, region);
      var a, b := Mem.HostWrites(mem, Contents(pre)), Mem.HostWrites(mem, Contents(From(pre, src)));
      assert ps == pre + [p];
      ContentsSnoc(pre, p);
      OneMore(mem, Contents(pre), Words(p.beats));
      if p.src == src {
        ContentsSnoc(From(pre, src), p);
        OneMore(mem, Contents(From(pre, src)), Words(p.beats));
        WriteSame(a, b, Words(p.beats), region);
      } else {
        assert From(pre, src) + [] == From(pre, src);
        WriteAvoids(a, Words(p.beats), region);
      }
    }
  }

  lemma OneMore(mem: Mem.Memory, pkts: seq<seq<Dword>>, pkt: seq<Dword>)
    ensures Mem.HostWrites(mem, pkts + [pkt]) == Mem.HostWrite(Mem.HostWrites(mem, pkts), pkt)
  {
    assert (pkts + [pkt])[..|pkts|] == pkts;
  }

  /** The receiver of channel rx.ch in front of the arbiter, among all other sources. */
  class Merged {
    const rx: Receiver
    const arb: Arb.Arbiter

    ghost predicate Valid()
      reads this, rx, rx.path, rx.path.cutter, rx.path.engine, rx.ctl, rx.ctl.fifo, arb
    {
      && rx.Valid() && arb.Valid() && rx.ch < arb.n
      && Arb.Accepted(arb.r.chPntr, arb.h, Arb.DmaRx(rx.ch)) == rx.path.engine.sent
    }

    constructor (ids: TlpIds, dmaSize: nat, ch: nat, ghost ports: seq<Port>)
      requires ch < dmaSize == |ports| && ports[ch] == Dma.REG_INIT.desc
      requires forall i :: 0 <= i < |ports| ==> !ports[i].newReq && !ports[i].doneReq
      ensures Valid() && fresh(rx) && fresh(arb) && rx.path.cutter.taken == [] && arb.sent == []
    {
      hide Receiver.Valid, Arb.Agree;
      rx := new Receiver(ids, dmaSize, ch, ports);
      arb := new Arb.Arbiter(dmaSize);
    }

    /** One clock. `rxs` are the receive engines' outputs, this one's among them; the
        engine sees tReady when the arbiter takes its beat. */
    method Clock(sValid: bool, s: Beat, dataReady: bool, tranAFull: bool, rxVisible: bool, tranVisible: bool,
                 maxFrame: Len24, ports: seq<Port>, ghost next: seq<Port>, rFifoAFull: bool,
                   write: Option<(nat, Addr)>, access: Access,
                 reg: Arb.Master, txs: seq<Arb.Master>, rxs: seq<Arb.Master>, ready: bool)
      returns (sReady: bool)
      requires Valid() && ports == rx.ctl.shown && |next| == |ports|
      requires sValid ==> !s.eot && SourceOk(rx.path.cutter.taken + [s])
      requires HostOk(rx.path.engine.r, rx.path.engine.h, tranVisible && rx.path.tranQ != [], FirstTran(rx.path.tranQ),
                      rx.Desc(maxFrame))
      requires forall i :: 0 <= i < |ports| && i != rx.ch ==>
                 NextPort(ports[i], rx.ctl.r.chans[i].newAck, rx.ctl.r.chans[i].doneAck, next[i])
      requires |txs| == |rxs| == arb.n && rxs[rx.ch] == Arb.Master(rx.path.engine.r.txValid, rx.path.engine.r.tx)
      requires (reg.valid ==> reg.beat.last) && forall i :: 0 <= i < arb.n && txs[i].valid ==> txs[i].beat.last
      modifies rx, rx.path, rx.path.cutter, rx.path.engine, rx.ctl, rx.ctl.fifo, arb
      ensures Valid()
      ensures rx.path.cutter.taken == if sReady then old(rx.path.cutter.taken) + [s] else old(rx.path.cutter.taken)
      ensures arb.sent == if ready then old(arb.Emitted()) else old(arb.sent)
      ensures Appends(old(rx.ctl.freed), write, rx.ctl.freed)
    {
      hide Appends, AllAnswer, NextCnt, CutterMoves, Dma.Progress, Dma.Sized, Receiver.Valid,
           Arb.Agree, Arb.Accepted, HostOk, SourceOk, NextPort, Polled;
      ghost var src := Arb.DmaRx(rx.ch);
      var taken := arb.Clock(reg, txs, rxs, ready);
      sReady := rx.Clock(sValid, s, dataReady, tranAFull, rxVisible, tranVisible, taken == Some(Arb.DmaRx(rx.ch)),
                         maxFrame, ports, next, rFifoAFull, write, access);
    }
  }

  /** The engine's packets are those of its channel behind the arbiter. */
  lemma ChannelPackets(t: Merged)
    requires t.Valid() && !t.rx.path.engine.r.txValid
    ensures t.rx.path.engine.Out().pkts == Contents(From(t.arb.h.packets, Arb.DmaRx(t.rx.ch)))
  {
    hide Receiver.Valid, Deframe, Words, Arb.Whole;
    var src, h, sent := Arb.DmaRx(t.rx.ch), t.arb.h, t.rx.path.engine.sent;
    var flat := Arb.FlatOf(h.packets, src);
    SourcePackets(h.packets, src);
    DeframeInside(flat, h.part, |h.part|);
    assert h.part[..|h.part|] == h.part;
    assert flat + [] == flat;
  }

  lemma Chosen(t: Merged)
    requires t.Valid()
    ensures t.rx.ch < |t.rx.ctl.r.chans|
  {
    hide Arb.Agree, Arb.Accepted;
  }

  /** What the host has received through the arbiter, whatever the other sources have
      sent in between, as long as they do not write into `region`: there, whenever the
      engine is between frames and its last beat has been taken, memory is what it was
      with frame k of the link copied to the k-th address freed. */
  lemma AtHost(t: Merged, mem: Mem.Memory, region: set<nat>)
    requires t.Valid() && Pausing(t.rx.path.engine.r.state, t.rx.path.engine.h) && !t.rx.path.engine.r.txValid
    requires var ps := t.arb.h.packets;
             forall k :: 0 <= k < |ps| && ps[k].src != Arb.DmaRx(t.rx.ch) ==> Avoids(Words(ps[k].beats), region)
    ensures |t.rx.ctl.freed| == |t.rx.ctl.r.chans| && t.rx.ch < |t.rx.ctl.freed|
    ensures var frames, freed := Deframe(t.rx.path.cutter.taken).pkts, t.rx.ctl.freed[t.rx.ch];
            var n := |t.rx.path.engine.h.finished|;
            && n <= |frames| && n <= |freed|
            && SameOn(region, Mem.HostWrites(mem, Contents(t.arb.h.packets)), CopyAll(mem, freed[..n], frames[..n]))
  {
    hide Receiver.Valid, Arb.Agree, Arb.Accepted, Deframe, Words, Mem.HostWrites, CopyAll, Avoids, SameOn;
    Chosen(t);
    Delivered(t.rx, mem);
    ChannelPackets(t);
    Interleaved(mem, t.arb.h.packets, Arb.DmaRx(t.rx.ch), region);
  }
}
