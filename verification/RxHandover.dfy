/** A receive engine and the descriptor controller clocked together: every frame
    goes to the next address that the driver has freed, and is reported once. */
module RxHandover {
  import opened PcieTypes
  import opened Streams
  import opened Wrappers
  import opened Transactions
  import Dma = RxDma
  import opened RxDesc

  /** Reports are those of the finished frames; the addresses taken are those of the
      finished frames and of the frame in progress. */
  ghost predicate Books(ch: nat, busy: bool, base: nat, finished: seq<Dma.Job>, popped: seq<Addr>,
                        reports: seq<Report>) {
    var n := |finished|;
    && |reports| == n && (forall k :: 0 <= k < n ==> Describes(reports[k], ch, finished[k]))
    && |popped| == n + (if busy then 1 else 0)
    && (forall k :: 0 <= k < n ==> popped[k] == finished[k].base)
    && (busy ==> popped[n] == base)
  }

  ghost predicate Served(ch: nat, r: Dma.Reg, h: Dma.Hist, c: Channel, a: Account) {
    Books(ch, Dma.Busy(r.state), h.base, h.finished, Popped(c, a), a.reports)
  }

  /** The beat that ends a frame. */
  function EndBeat(gs: seq<Group>): Beat {
    if gs == [] || gs[|gs| - 1] == [] then NO_BEAT
    else
      var g := gs[|gs| - 1];
      g[|g| - 1]
  }

  ghost predicate Describes(p: Report, ch: nat, j: Dma.Job) {
    && j.groups != [] && p.dmaCh == ch
    && p.addr == j.base && p.length == |Dma.FrameWords(j.groups)|
    && p.subCh == EndBeat(j.groups).dest % 16 && p.eofe == EndBeat(j.groups).eofe
    && !p.frameErr
  }

  /** The engine's report in TR_DONE describes the frame just finished. */
  lemma ReportDescribes(ids: TlpIds, r: Dma.Reg, h: Dma.Hist, out: View)
    requires Dma.Agree(ids, r, h, out) && r.state == Dma.TrDone
    ensures h.finished != [] && Describes(ReportOf(r.desc), r.desc.doneDmaCh, h.finished[|h.finished| - 1])
  {
    hide Dma.FrameWords, Dma.Accounted, Dma.Ready;
  }

  /** One clock of both keeps the books. */
  lemma ServedKept(ids: TlpIds, ch: nat, r: Dma.Reg, h: Dma.Hist, desc: Dma.DescFromPcie, r': Dma.Reg, h': Dma.Hist,
                   out': View, c: Channel, a: Account, v: Channel, din: Addr)
    requires Served(ch, r, h, c, a) && Granted(c, r.desc, a) && r'.desc.doneDmaCh == ch
    requires Dma.Handshake(r) && Dma.Handshake(r')
    requires Dma.Agree(ids, r', h', out') && Dma.Answered(r.desc, desc, r'.desc)
    requires Dma.Turned(r.state, h.base, desc, r'.state, h'.base)
    requires Dma.Finishes(r.state, h.base, h.finished, desc, r'.state, h'.finished)
    requires desc.newAck == c.newAck && desc.newAddr == c.newAddr
    requires Granted(v, r'.desc, Episodes(AfterGrant(c, v, a, din), r.desc, r'.desc))
    ensures Served(ch, r', h', v, Episodes(AfterGrant(c, v, a, din), r.desc, r'.desc))
  {
    hide Dma.Agree, ReportOf, Describes, Edge, Dma.InTlp, Books;
    if r'.state == Dma.TrDone {
      ReportDescribes(ids, r', h', out');
    }
    var a' := Episodes(AfterGrant(c, v, a, din), r.desc, r'.desc);
    assert v.newAck ==> !c.newAck;
    assert Popped(v, a') == a.granted;
    assert a.granted == Popped(c, a) + (if c.newAck then [c.newAddr] else []);
    assert c.newAck ==> r.state == Dma.AckWait;
    BooksKept(ch, Dma.Busy(r.state), h.base, h.finished, Popped(c, a), a.reports,
              Dma.Busy(r'.state), h'.base, h'.finished, Popped(v, a'), a'.reports);
  }

  /** A frame in progress is finished, or another one begins, or neither. */
  lemma BooksKept(ch: nat, busy: bool, base: nat, finished: seq<Dma.Job>, popped: seq<Addr>, reports: seq<Report>,
                  busy': bool, base': nat, finished': seq<Dma.Job>, popped': seq<Addr>, reports': seq<Report>)
    requires Books(ch, busy, base, finished, popped, reports)
    requires
      || (busy && !busy' && popped' == popped && |finished'| == |finished| + 1 && finished <= finished'
          && finished'[|finished|].base == base
          && |reports'| == |reports| + 1 && reports <= reports'
             && Describes(reports'[|reports|], ch, finished'[|finished|]))
      || (!busy && busy' && popped' == popped + [base'] && finished' == finished && reports' == reports)
      || (busy == busy' && popped' == popped && (busy ==> base' == base) && finished' == finished
          && reports' == reports)
    ensures Books(ch, busy', base', finished', popped', reports')
  {
    hide Describes;
  }

  lemma PortKept(ids: TlpIds, r: Dma.Reg, h: Dma.Hist, out: View, desc: Dma.DescFromPcie,
                 r': Dma.Reg, h': Dma.Hist, out': View)
    requires Dma.Agree(ids, r, h, out) && Dma.Agree(ids, r', h', out')
    requires Dma.Handshake(r) && Dma.Handshake(r') && Dma.Answered(r.desc, desc, r'.desc)
    requires Dma.Turned(r.state, h.base, desc, r'.state, h'.base)
    requires Dma.Finishes(r.state, h.base, h.finished, desc, r'.state, h'.finished)
    requires r.desc.doneReq ==> r'.desc.doneDmaCh == r.desc.doneDmaCh
    ensures NextPort(r.desc, desc.newAck, desc.doneAck, r'.desc)
  {
    hide Dma.Agree, Dma.Answered, NextPort;
    EngineIsPort(ids, r, h, out, desc, r', h', out');
  }

  lemma ChannelGranted(chans: seq<Channel>, ports: seq<Port>, acc: seq<Account>, log: seq<Rec>, rFifoWr: bool, ch: nat)
    requires AllOk(chans, ports, acc, log, rFifoWr) && ch < |chans|
    ensures Granted(chans[ch], ports[ch], acc[ch])
    ensures Recorded(chans[ch], ports[ch], acc[ch], Of(log, ch))
  {
    hide Granted, Recorded;
    assert ChannelOk(chans[ch], ports[ch], acc[ch], Of(log, ch), rFifoWr);
  }

  /** The engine of channel `ch`, the controller, and any other engines. */
  class Handover {
    const engine: Dma.Engine
    const ctl: Controller
    const ch: nat

    ghost predicate Valid()
      reads this, engine, ctl, ctl.fifo
    {
      && engine.Valid() && engine.legal && ctl.Valid()
      && ch < |ctl.r.chans| && ctl.shown[ch] == engine.r.desc
      && engine.dmaChannel == ch && Served(ch, engine.r, engine.h, ctl.r.chans[ch], ctl.acc[ch])
    }

    constructor (ids: TlpIds, dmaSize: nat, ch: nat, ghost ports: seq<Port>)
      requires ch < dmaSize == |ports| && ports[ch] == Dma.REG_INIT.desc
      requires forall i :: 0 <= i < |ports| ==> !ports[i].newReq && !ports[i].doneReq
      ensures Valid() && fresh(engine) && fresh(ctl) && fresh(ctl.fifo)
    {
      this.ch := ch;
      engine := new Dma.Engine(ids, ch);
      ctl := new Controller(dmaSize, ports);
    }

    /** What the controller shows the engine. */
    function Desc(maxFrame: Len24): Dma.DescFromPcie
      requires ch < |ctl.r.chans|
      reads this, ctl
    {
      var c := ctl.r.chans[ch];
      Dma.DescFromPcie(c.newAck, c.newAddr, c.doneAck, maxFrame)
    }

    /** One clock of both. ports and next are the lines of all engines now and in the
        following clock; entry `ch` of next is this engine's own doing. */
    method Clock(rxValid: bool, rx: Beat, tranValid: bool, tran: Tran, txReady: bool, maxFrame: Len24,
                 ports: seq<Port>, ghost next: seq<Port>, rFifoAFull: bool, write: Option<(nat, Addr)>, access: Access)
      returns (rxReady: bool)
      requires Valid() && ports == ctl.shown && |next| == |ports|
      requires Dma.LegalInput(engine.r.state, engine.h, rxValid, rx, tranValid, tran, Desc(maxFrame))
      requires forall i :: 0 <= i < |ports| && i != ch ==>
                 NextPort(ports[i], ctl.r.chans[i].newAck, ctl.r.chans[i].doneAck, next[i])
      modifies engine, ctl, ctl.fifo
      ensures Valid() && ctl.shown == next[ch := engine.r.desc]
      ensures engine.sent == if txReady then WithPending(old(engine.sent), old(engine.r.txValid), old(engine.r.tx))
                             else old(engine.sent)
      ensures ctl.log == Polled(old(ctl.log), ports, !rFifoAFull && !old(ctl.r.rFifoWr), old(ctl.r.doneCnt))
      ensures Appends(old(ctl.freed), write, ctl.freed)
    {
      hide Appends, Dma.Agree, Dma.Flow, Dma.Finishes, Dma.Ledger, Dma.Answered, Dma.Turned, Dma.LegalInput,
           Dma.Handshake, Served, AllOk, DoneFifo.Valid, Episodes, AfterGrant, NextPort, Polled, Reports, Granted,
           Recorded;
      var desc := Desc(maxFrame);
      ghost var r, h, out, c, a, din := engine.r, engine.h, engine.Out(), ctl.r.chans[ch], ctl.acc[ch], ctl.r.dFifoDin;
      ChannelGranted(ctl.r.chans, ctl.shown, ctl.acc, ctl.log, ctl.r.rFifoWr, ch);
      rxReady := engine.Clock(rxValid, rx, tranValid, tran, desc, txReady);
      Dma.FinishedFrames(r, h, desc, rxReady, engine.r, engine.h);
      PortKept(engine.ids, r, h, out, desc, engine.r, engine.h, engine.Out());
      ghost var next' := next[ch := engine.r.desc];
      assert forall i :: 0 <= i < |ports| ==>
               NextPort(ports[i], ctl.r.chans[i].newAck, ctl.r.chans[i].doneAck, next'[i]);
      ctl.Clock(ports, next', rFifoAFull, write, access);
      ChannelGranted(ctl.r.chans, ctl.shown, ctl.acc, ctl.log, ctl.r.rFifoWr, ch);
      ServedKept(engine.ids, ch, r, h, desc, engine.r, engine.h, engine.Out(), c, a, ctl.r.chans[ch], din);
    }
  }

  /** In any run: the k-th frame of a channel is written to the k-th address that the
      driver has written for the channel, and the k-th record of the channel
      reports that frame; at most the frame in TR_DONE is not recorded yet. */
  lemma EachFrameOnce(t: Handover)
    requires t.Valid()
    ensures |t.ctl.freed| == |t.ctl.r.chans|
    ensures var jobs, freed, records := t.engine.h.finished, t.ctl.freed[t.ch], Of(t.ctl.log, t.ch);
            && |jobs| <= |freed| && (forall k :: 0 <= k < |jobs| ==> jobs[k].base == freed[k])
            && |records| <= |jobs| && (forall k :: 0 <= k < |records| ==> Describes(records[k], t.ch, jobs[k]))
            && |jobs| - |records| <= (if t.engine.r.state == Dma.TrDone then 1 else 0)
  {
    hide Describes, Dma.Agree, Dma.Ledger, Of, Reports, DoneFifo.Valid, AllOk, FreedOk;
    FreedOf(t.ctl, t.ch);
    ChannelGranted(t.ctl.r.chans, t.ctl.shown, t.ctl.acc, t.ctl.log, t.ctl.r.rFifoWr, t.ch);
  }
}
