/** The receive side does not stop: with a descriptor controller that has enough free
    addresses, every frame of a stream ends up in memory and in the records. */
module RxService {
  import opened PcieTypes
  import opened Streams
  import opened Wrappers
  import opened Transactions
  import Dma = RxDma
  import Mem = HostMemory
  import opened RxPath
  import opened RxDesc
  import opened RxHandover
  import opened RxDelivery
  import Path = RxProgress
  import RxCutter

  // ---- Waiting for the controller ----

  /** Polls until it is channel `ch`'s turn. */
  function Ahead(n: nat, at: nat, ch: nat): nat
    requires at < n && ch < n
  {
    if at <= ch then ch - at else n - at + ch
  }

  lemma Nearer(n: nat, at: nat, ch: nat)
    requires at < n && ch < n && at != ch
    ensures NextCnt(n, at, true) < n && Ahead(n, NextCnt(n, at, true), ch) == Ahead(n, at, ch) - 1
  {}

  /** Clocks until the engine's request is answered. */
  function Wait(s: Dma.State, r: Reg, ch: nat): nat
    requires r.doneCnt < |r.chans| && ch < |r.chans|
  {
    var c := r.chans[ch];
    match s
    case AckWait => if c.newAck then 0 else if c.free != [] then 1 else 2
    case TrDone =>
      if c.doneAck then 0 else 1 + 2 * Ahead(|r.chans|, r.doneCnt, ch) + (if r.rFifoWr then 1 else 0)
    case _ => 0
  }

  /** More clocks than any request waits. */
  function Turn(n: nat): nat {
    2 * n + 3
  }

  lemma WaitBounded(s: Dma.State, r: Reg, ch: nat)
    requires r.doneCnt < |r.chans| && ch < |r.chans|
    ensures Wait(s, r, ch) < Turn(|r.chans|)
  {}

  /** The engine has its answer. */
  predicate Answered(s: Dma.State, c: Channel) {
    (s.AckWait? ==> c.newAck) && (s.TrDone? ==> c.doneAck)
  }

  /** A clock in which the engine waits on: the answer comes nearer, unless the done
      FIFO is almost full. */
  lemma WaitLess(s: Dma.State, r: Reg, ports: seq<Port>, write: Option<(nat, Addr)>, rFifoAFull: bool, v: Reg, ch: nat)
    requires |ports| == |r.chans| == |v.chans| && r.doneCnt < |r.chans| && ch < |r.chans|
    requires (ports[ch].newReq <==> s.AckWait?) && (ports[ch].doneReq <==> s.TrDone?)
    requires !Answered(s, r.chans[ch])
    requires s.AckWait? ==> r.chans[ch].free != [] || r.chans[ch].dFifoWr
    requires var poll := !rFifoAFull && !r.rFifoWr;
             && v.doneCnt == NextCnt(|ports|, r.doneCnt, poll) && v.rFifoWr == (poll && ports[r.doneCnt].doneReq)
             && AllAnswer(r.chans, ports, v.chans, write, r.dFifoDin, poll, r.doneCnt)
    ensures v.doneCnt < |v.chans| && Wait(s, v, ch) <= Wait(s, r, ch)
    ensures !rFifoAFull || s.AckWait? ==> Wait(s, v, ch) < Wait(s, r, ch)
  {
    hide Ahead;
    var poll := !rFifoAFull && !r.rFifoWr;
    assert Answers(r.chans[ch], ports[ch], v.chans[ch], WritesTo(write, ch), r.dFifoDin, poll && ch == r.doneCnt);
    if r.doneCnt != ch {
      Nearer(|ports|, r.doneCnt, ch);
    }
  }

  /** The driver has freed an address for the frame that asks for one. */
  lemma AddressThere(rx: Receiver)
    requires rx.Valid() && rx.path.engine.r.state.AckWait? && !rx.ctl.r.chans[rx.ch].newAck
    requires rx.ch < |rx.ctl.freed| && |rx.path.engine.h.finished| < |rx.ctl.freed[rx.ch]|
    ensures rx.ctl.r.chans[rx.ch].free != [] || rx.ctl.r.chans[rx.ch].dFifoWr
  {
    hide Describes, Dma.Agree, Dma.Ledger, Of, Reports, DoneFifo.Valid, AllOk, FreedOk, ReceivePath.Valid, SourceOk;
    ChannelGranted(rx.ctl.r.chans, rx.ctl.shown, rx.ctl.acc, rx.ctl.log, rx.ctl.r.rFifoWr, rx.ch);
    FreedOf(rx.ctl, rx.ch);
  }

  // ---- Frames that fit ----

  /** Every frame of a stream, and what there is of the next, leaves five dwords of a
      buffer of `maxFrame` free. */
  predicate Fit(v: View, maxFrame: nat) {
    (forall k :: 0 <= k < |v.pkts| ==> |v.pkts[k]| + 5 <= maxFrame) && |v.part| + 5 <= maxFrame
  }

  lemma {:induction false} FitBefore(bs: seq<Beat>, n: nat, maxFrame: nat)
    requires n <= |bs| && Fit(Deframe(bs), maxFrame)
    ensures Fit(Deframe(bs[..n]), maxFrame)
    decreases |bs|
  {
    hide Kept, PackedBeat;
    assert bs[..|bs|] == bs;
    if n < |bs| {
      var pre := bs[..|bs| - 1];
      var v, w := Deframe(pre), Deframe(bs);
      assert forall k :: 0 <= k < |v.pkts| ==> w.pkts[k] == v.pkts[k];
      if bs[|bs| - 1].last {
        assert w.pkts[|v.pkts|] == v.part + Kept(bs[|bs| - 1]);
      }
      assert pre[..n] == bs[..n];
      FitBefore(pre, n, maxFrame);
    } else {
      assert bs[..n] == bs;
    }
  }

  lemma SwappedFits(taken: seq<Beat>, emitted: seq<Beat>, maxFrame: nat)
    requires RxCutter.SameBeats(taken, emitted) && Fit(Deframe(taken), maxFrame)
    ensures Fit(Deframe(emitted), maxFrame)
  {
    hide Deframe, Mem.Swapped, RxCutter.SameBeats;
    SwappedView(taken, emitted);
    var v, w := Deframe(taken), Deframe(emitted);
    assert forall k :: 0 <= k < |w.pkts| ==> |w.pkts[k]| == |v.pkts[k]|;
  }

  /** The transaction to be sent next, and where it stands in the stream. */
  lemma HeadView(c: RxCutter.Cut, taken: seq<Beat>, h: Dma.Hist) returns (n: nat)
    requires RxCutter.CutOk(c) && RxCutter.SameBeats(taken, Flat(c.groups) + c.open) && SourceOk(taken)
    requires c.groups == h.done + h.todo && h.todo != [] && Dma.Ledger(h)
    ensures n <= |taken| && Words(h.todo[0]) != []
    ensures var v, w := Deframe((Flat(c.groups) + c.open)[..n]), Dma.FrameWords(h.sofar) + Words(h.todo[0]);
            if Dma.EndsFrame(h.todo[0]) then v.pkts == Frames(h.finished) + [w] else v.pkts == Frames(h.finished)
                                                                                     && v.part == w
  {
    hide Closed, Flat, Deframe, RxCutter.SameBeats, RxCutter.Open, Words, Dma.Ledger, Dma.Ready;
    var all, g := Flat(c.groups) + c.open, h.todo[0];
    var m := |h.done|;
    assert c.groups[..m] == h.done && c.groups[m] == g && c.groups[..m + 1] == h.done + [g];
    SwappedView(taken, all);
    ClosedIsReady(c.groups, c.open, m);
    Dma.FirstDword(g);
    SentView(h);
    ClosedInside(g);
    FlatSnoc(h.done, g);
    FlatPrefix(c.groups, m + 1);
    SameLength(taken, all);
    n := |Flat(h.done + [g])|;
    assert all[..n] == Flat(h.done) + g;
    DeframeGroup(Flat(h.done), g);
  }

  lemma SameLength(taken: seq<Beat>, emitted: seq<Beat>)
    requires RxCutter.SameBeats(taken, emitted)
    ensures |taken| == |emitted|
  {}

  /** There is room in the buffer for the transaction to be sent next. */
  lemma RoomForNext(c: RxCutter.Cut, taken: seq<Beat>, h: Dma.Hist, maxFrame: nat)
    requires RxCutter.CutOk(c) && RxCutter.SameBeats(taken, Flat(c.groups) + c.open) && SourceOk(taken)
    requires c.groups == h.done + h.todo && h.todo != [] && Dma.Ledger(h) && Fit(Deframe(taken), maxFrame)
    ensures |Dma.FrameWords(h.sofar)| + |Words(h.todo[0])| + 5 <= maxFrame
  {
    hide RxCutter.CutOk, Flat, Deframe, RxCutter.SameBeats, Words, Dma.Ledger, Dma.FrameWords, Dma.EndsFrame, SourceOk;
    var all := Flat(c.groups) + c.open;
    var n := HeadView(c, taken, h);
    SwappedFits(taken, all, maxFrame);
    SameLength(taken, all);
    FitBefore(all, n, maxFrame);
    if Dma.EndsFrame(h.todo[0]) {
      var v := Deframe(all[..n]);
      assert v.pkts[|v.pkts| - 1] == Dma.FrameWords(h.sofar) + Words(h.todo[0]);
    }
  }

  /** A stream that ends with a frame completes every frame that it has begun. */
  lemma {:induction false} Completes(bs: seq<Beat>, n: nat)
    requires n <= |bs| && Deframe(bs).part == [] && Deframe(bs[..n]).part != []
    ensures |Deframe(bs[..n]).pkts| < |Deframe(bs).pkts|
    decreases |bs|
  {
    hide Kept, PackedBeat;
    assert bs[..|bs|] == bs;
    if n < |bs| {
      var pre := bs[..|bs| - 1];
      assert pre[..n] == bs[..n];
      DeframeMonotone(pre, n);
      if !bs[|bs| - 1].last {
        Completes(pre, n);
      }
    }
  }

  /** A frame with a transaction still to be sent is one more than the finished ones. */
  lemma OneMoreFrame(c: RxCutter.Cut, taken: seq<Beat>, h: Dma.Hist, whole: seq<Beat>)
    requires RxCutter.CutOk(c) && RxCutter.SameBeats(taken, Flat(c.groups) + c.open) && SourceOk(taken)
    requires c.groups == h.done + h.todo && h.todo != [] && Dma.Ledger(h)
    requires taken <= whole && Deframe(whole).part == []
    ensures |h.finished| < |Deframe(whole).pkts|
  {
    hide RxCutter.CutOk, Flat, Deframe, RxCutter.SameBeats, Words, Dma.Ledger, Dma.FrameWords, Dma.EndsFrame, SourceOk,
         Mem.Swapped;
    var all := Flat(c.groups) + c.open;
    var n := HeadView(c, taken, h);
    FrameCount(h.finished);
    SameLength(taken, all);
    SameBefore(taken, all, n);
    SwappedView(taken[..n], all[..n]);
    assert whole[..n] == taken[..n];
    DeframeMonotone(whole, n);
    if !Dma.EndsFrame(h.todo[0]) {
      Completes(whole, n);
    }
  }

  lemma SameBefore(taken: seq<Beat>, emitted: seq<Beat>, n: nat)
    requires RxCutter.SameBeats(taken, emitted) && n <= |taken|
    ensures |taken| == |emitted| && RxCutter.SameBeats(taken[..n], emitted[..n])
  {
    hide Reversed;
  }

  // ---- One clock ----

  /** The neighbours' part of a clock: the source, the FIFOs, the sink, the driver's
      accesses, and the lines that the other engines would like to show. */
  datatype Tick = Tick(sValid: bool, dataReady: bool, tranAFull: bool, rxVisible: bool, tranVisible: bool,
                       txReady: bool, rFifoAFull: bool, write: Option<(nat, Addr)>, access: Access, wants: seq<Port>)

  /** Neither the source nor a FIFO nor the sink holds the receive side up. */
  predicate Open(t: Tick) {
    t.sValid && t.dataReady && !t.tranAFull && t.rxVisible && t.tranVisible && t.txReady && !t.rFifoAFull
  }

  function PathTick(t: Tick, desc: Dma.DescFromPcie): Path.Tick {
    Path.Tick(t.sValid, t.dataReady, t.tranAFull, t.rxVisible, t.tranVisible, desc, t.txReady)
  }

  /** An engine's lines, as far as the handshake lets it show them. */
  function Heed(p: Port, c: Channel, want: Port): Port {
    var q := if p.doneReq && !c.doneAck then p else want.(doneReq := !p.doneReq && want.doneReq);
    q.(newReq := if p.newReq then !c.newAck else want.newReq)
  }

  lemma Heeds(p: Port, c: Channel, want: Port)
    ensures NextPort(p, c.newAck, c.doneAck, Heed(p, c, want))
  {}

  /** The lines of all engines in the next clock. */
  function Lines(ports: seq<Port>, chans: seq<Channel>, wants: seq<Port>): (next: seq<Port>)
    requires |chans| == |ports|
    ensures |next| == |ports|
  {
    seq(|ports|, i requires 0 <= i < |ports| => Heed(ports[i], chans[i], if i < |wants| then wants[i] else ports[i]))
  }

  lemma LinesHeed(ports: seq<Port>, chans: seq<Channel>, wants: seq<Port>)
    requires |chans| == |ports|
    ensures var next := Lines(ports, chans, wants);
            forall i :: 0 <= i < |ports| ==> NextPort(ports[i], chans[i].newAck, chans[i].doneAck, next[i])
  {
    hide Heed, NextPort;
    forall i | 0 <= i < |ports|
      ensures NextPort(ports[i], chans[i].newAck, chans[i].doneAck, Lines(ports, chans, wants)[i])
    {
      Heeds(ports[i], chans[i], if i < |wants| then wants[i] else ports[i]);
    }
  }

  /** The frame in progress has the room that every frame gets. */
  predicate Roomy(s: Dma.State, h: Dma.Hist, maxFrame: nat) {
    Dma.Busy(s) ==> h.maxFrame == maxFrame
  }

  lemma StaysRoomy(r: Dma.Reg, h: Dma.Hist, rxValid: bool, tranValid: bool, desc: Dma.DescFromPcie, free: bool,
                   s': Dma.State, h': Dma.Hist)
    requires Roomy(r.state, h, desc.maxFrame) && Dma.Sized(r.state, h.maxFrame, desc, h'.maxFrame)
    requires Dma.Progress(r, h, rxValid, tranValid, desc, free, s', h'.done, h'.pos) && r.state != Dma.DataDump
    ensures Roomy(s', h', desc.maxFrame)
  {
    hide Dma.EndsFrame;
  }

  ghost predicate Below(freed: seq<Addr>, maxFrame: nat) {
    forall k :: 0 <= k < |freed| ==> freed[k] + maxFrame <= 0x4000_0000
  }

  /** The address handed over is one that the driver has freed. */
  lemma GrantedBelow(c: Channel, p: Port, a: Account, freed: seq<Addr>, din: Addr, maxFrame: nat)
    requires Granted(c, p, a) && freed == a.written + (if c.dFifoWr then [din] else []) && Below(freed, maxFrame)
    ensures c.newAck ==> c.newAddr + maxFrame <= 0x4000_0000
  {
    if c.newAck {
      var k := |Popped(c, a)|;
      assert a.written[k] == c.free[0] && freed[k] == a.written[k];
    }
  }

  /** The head of the transaction FIFO is the transaction to be sent next. */
  lemma HeadTran(path: ReceivePath)
    requires Path.Good(path) && path.engine.r.state.ReadTrans? && path.tranQ != []
    ensures path.engine.h.todo != [] && FirstTran(path.tranQ).length == |Words(path.engine.h.todo[0])|
  {
    hide Dma.Agree, Dma.Ledger, RxCutter.CutOk, RxCutter.SameBeats, Flat, Words, Path.Good;
    Path.GoodIs(path);
    var h, c := path.engine.h, path.cutter.cut;
    var m := |h.done|;
    assert path.tranQ[0] == path.cutter.transSent[m];
    assert c.groups[m] == h.todo[0];
  }

  /** The host respects what the receive path relies on, if frames fit and addresses do. */
  lemma HostRespects(rx: Receiver, tranVisible: bool, maxFrame: Len24)
    requires rx.Valid() && Roomy(rx.path.engine.r.state, rx.path.engine.h, maxFrame)
    requires Fit(Deframe(rx.path.cutter.taken), maxFrame)
    requires rx.ch < |rx.ctl.freed| && Below(rx.ctl.freed[rx.ch], maxFrame)
    ensures HostOk(rx.path.engine.r, rx.path.engine.h, tranVisible && rx.path.tranQ != [], FirstTran(rx.path.tranQ),
                   rx.Desc(maxFrame))
  {
    hide Dma.Agree, Dma.Ledger, RxCutter.CutOk, RxCutter.SameBeats, Flat, Words, Deframe, Wired, Path.Good, Fit,
         Granted, Served, DoneFifo.Valid, AllOk, FreedOk, Reports, ReceivePath.Valid, SourceOk, Below, Dma.FrameWords;
    GoodPath(rx);
    FreedOf(rx.ctl, rx.ch);
    ChannelGranted(rx.ctl.r.chans, rx.ctl.shown, rx.ctl.acc, rx.ctl.log, rx.ctl.r.rFifoWr, rx.ch);
    GrantedBelow(rx.ctl.r.chans[rx.ch], rx.ctl.shown[rx.ch], rx.ctl.acc[rx.ch], rx.ctl.freed[rx.ch], rx.ctl.r.dFifoDin,
                 maxFrame);
    if rx.path.engine.r.state.ReadTrans? && rx.path.tranQ != [] {
      HeadTran(rx.path);
      Path.GoodIs(rx.path);
      Path.GoodSource(rx.path);
      RoomForNext(rx.path.cutter.cut, rx.path.cutter.taken, rx.path.engine.h, maxFrame);
    }
  }

  lemma GoodPath(rx: Receiver)
    requires rx.Valid()
    ensures Path.Good(rx.path)
  {
    hide ReceivePath.Valid, SourceOk, Controller.Valid, Served;
  }

  /** The engine's lines say what it waits for. */
  lemma LinesShow(rx: Receiver)
    requires rx.Valid()
    ensures var p, s := rx.ctl.shown[rx.ch], rx.path.engine.r.state;
            (p.newReq <==> s.AckWait?) && (p.doneReq <==> s.TrDone?)
  {
    hide ReceivePath.Valid, SourceOk, Controller.Valid, Served, Dma.Agree;
    InStep(rx.path);
  }

  /** What the engine still waits for when it has no answer. */
  ghost predicate Nearing(s: Dma.State, r: Reg, n: nat, ch: nat, rFifoAFull: bool, v: Reg)
    requires r.doneCnt < |r.chans| && ch < |r.chans|
  {
    !Answered(s, r.chans[ch]) && (s.AckWait? ==> r.chans[ch].free != [] || r.chans[ch].dFifoWr) ==>
      && v.doneCnt < |v.chans| == n && ch < n
      && Wait(s, v, ch) <= Wait(s, r, ch)
      && (!rFifoAFull ==> Wait(s, v, ch) < Wait(s, r, ch))
  }

  lemma Polling(rx: Receiver)
    requires rx.Valid()
    ensures rx.ctl.r.doneCnt < |rx.ctl.r.chans| == |rx.ctl.shown| == |rx.ctl.freed| && rx.ch < |rx.ctl.r.chans|
  {
    hide ReceivePath.Valid, SourceOk, Served, AllOk, DoneFifo.Valid, Reports;
  }

  /** The registers and histories before a clock, with what the FIFOs show. */
  datatype Before = Before(r: Dma.Reg, h: Dma.Hist, cr: RxCutter.Reg, c: RxCutter.Cut, g: Reg, rxValid: bool,
                           tranValid: bool, desc: Dma.DescFromPcie)

  ghost function Now(rx: Receiver, t: Tick, maxFrame: Len24): Before
    requires rx.ch < |rx.ctl.r.chans|
    reads rx, rx.path, rx.path.cutter, rx.path.engine, rx.ctl
  {
    Before(rx.path.engine.r, rx.path.engine.h, rx.path.cutter.r, rx.path.cutter.cut, rx.ctl.r,
           t.rxVisible && rx.path.dataQ != [], t.tranVisible && rx.path.tranQ != [], rx.Desc(maxFrame))
  }

  /** What the machines have done in a clock. */
  ghost predicate Moved(b: Before, t: Tick, sValid: bool, ports: seq<Port>, rx: Receiver, sReady: bool)
    reads rx, rx.path, rx.path.cutter, rx.path.engine, rx.ctl
  {
    var e, k, v := rx.path.engine, rx.path.cutter, rx.ctl.r;
    var poll := !t.rFifoAFull && !b.g.rFifoWr;
    && Dma.Progress(b.r, b.h, b.rxValid, b.tranValid, b.desc, t.txReady || !b.r.txValid, e.r.state, e.h.done, e.h.pos)
    && Dma.Sized(b.r.state, b.h.maxFrame, b.desc, e.h.maxFrame)
    && CutterMoves(b.cr, b.c, sValid, t.dataReady, t.tranAFull, k.r, k.cut, sReady)
    && |ports| == |b.g.chans| == |v.chans| && b.g.doneCnt < |b.g.chans|
    && v.doneCnt == NextCnt(|ports|, b.g.doneCnt, poll) && v.rFifoWr == (poll && ports[b.g.doneCnt].doneReq)
    && AllAnswer(b.g.chans, ports, v.chans, t.write, b.g.dFifoDin, poll, b.g.doneCnt)
  }

  /** One clock of the receive side, with the lines that the other engines show next. */
  method ClockAll(rx: Receiver, ports: seq<Port>, sValid: bool, s: Beat, t: Tick, maxFrame: Len24)
    returns (sReady: bool, next: seq<Port>)
    requires rx.Valid() && ports == rx.ctl.shown && rx.ch < |rx.ctl.r.chans|
    requires sValid ==> !s.eot && SourceOk(rx.path.cutter.taken + [s])
    requires HostOk(rx.path.engine.r, rx.path.engine.h, t.tranVisible && rx.path.tranQ != [], FirstTran(rx.path.tranQ),
                    rx.Desc(maxFrame))
    modifies rx.path, rx.path.cutter, rx.path.engine, rx.ctl, rx.ctl.fifo
    ensures rx.Valid() && next == rx.ctl.shown && (sReady ==> sValid)
    ensures rx.path.cutter.taken == if sReady then old(rx.path.cutter.taken) + [s] else old(rx.path.cutter.taken)
    ensures Appends(old(rx.ctl.freed), t.write, rx.ctl.freed)
    ensures Moved(old(Now(rx, t, maxFrame)), t, sValid, ports, rx, sReady)
  {
    hide Dma.Agree, Dma.Progress, CutterMoves, SourceOk, HostOk, Dma.Sized, AllAnswer, NextCnt, Appends, Receiver.Valid,
         NextPort, Polled, Lines, WithPending;
    Polling(rx);
    next := Lines(ports, rx.ctl.r.chans, t.wants);
    LinesHeed(ports, rx.ctl.r.chans, t.wants);
    sReady := rx.Clock(sValid, s, t.dataReady, t.tranAFull, t.rxVisible, t.tranVisible, t.txReady, maxFrame, ports,
                       next, t.rFifoAFull, t.write, t.access);
    next := next[rx.ch := rx.path.engine.r.desc];
  }

  /** What the engine gets in a clock in which nobody holds it up. */
  ghost predicate Fed(b: Before, t: Tick) {
    && b.c.groups == b.h.done + b.h.todo && b.r.state != Dma.DataDump
    && (Path.Open(PathTick(t, b.desc)) && Path.Acked(b.r.state, b.desc) && Path.Lag(b.cr) == 0
        && (b.h.todo != [] || b.r.state == Dma.TrDone) ==>
          Path.Gets(b.r, b.rxValid, b.tranValid, b.desc, true))
  }

  lemma WellFed(rx: Receiver, t: Tick, maxFrame: Len24)
    requires rx.Valid() && rx.ch < |rx.ctl.r.chans|
    ensures Fed(Now(rx, t, maxFrame), t)
  {
    hide Dma.Agree, Dma.Ledger, RxCutter.Agree, Wired, Path.Gets, Path.Good, Path.Open, Path.Acked, Receiver.Valid;
    GoodPath(rx);
    Path.GoodIs(rx.path);
    var b, pt := Now(rx, t, maxFrame), PathTick(t, rx.Desc(maxFrame));
    if Path.Open(pt) && Path.Acked(b.r.state, pt.desc) && Path.Lag(b.cr) == 0
       && (b.h.todo != [] || b.r.state == Dma.TrDone) {
      Path.Prepared(rx.path, pt);
    }
  }

  /** What a clock has done for what is left, for the room of a frame, for the answer. */
  ghost predicate Clocked(b: Before, t: Tick, sValid: bool, sReady: bool, rx: Receiver)
    reads rx, rx.path, rx.path.cutter, rx.path.engine, rx.ctl
  {
    && |b.h.done| <= |b.c.groups|
    && Path.Lessened(PathTick(t, b.desc), b.r.state, sValid, sReady,
                     Path.CutLoad(b.cr, b.c, |b.h.done|) + Path.Lead(b.r.state, b.h.pos), b.h.todo, rx.path)
    && (Roomy(b.r.state, b.h, b.desc.maxFrame) ==>
          Roomy(rx.path.engine.r.state, rx.path.engine.h, b.desc.maxFrame))
    && b.g.doneCnt < |b.g.chans| && rx.ch < |b.g.chans| == |rx.ctl.r.chans|
    && (b.r.state.AckWait? || b.r.state.TrDone? ==>
          Path.Acked(b.r.state, b.desc) ==> rx.path.engine.r.state != b.r.state)
    && Nearing(b.r.state, b.g, |rx.ctl.r.chans|, rx.ch, t.rFifoAFull, rx.ctl.r)
  }

  lemma AfterClock(b: Before, t: Tick, sValid: bool, ports: seq<Port>, rx: Receiver, sReady: bool)
    requires Fed(b, t) && Moved(b, t, sValid, ports, rx, sReady) && rx.Valid() && rx.ch < |b.g.chans|
    requires (ports[rx.ch].newReq <==> b.r.state.AckWait?) && (ports[rx.ch].doneReq <==> b.r.state.TrDone?)
    ensures Clocked(b, t, sValid, sReady, rx)
  {
    hide Dma.Agree, Dma.Ledger, RxCutter.Agree, Wired, Dma.Progress, CutterMoves, Dma.Sized, AllAnswer, NextCnt,
         Path.Gets, Path.CutLoad, Path.Lead, Path.Lessened, Path.Good, Path.Open, Path.Acked, Receiver.Valid, Answered,
         Wait, Nearing, Roomy;
    GoodPath(rx);
    Path.Clocked(b.r, b.h, b.cr, b.c, PathTick(t, b.desc), sValid, b.rxValid, b.tranValid, rx.path, sReady);
    RoomAfter(b.r, b.h, b.rxValid, b.tranValid, b.desc, t.txReady || !b.r.txValid, rx.path.engine.r.state,
              rx.path.engine.h);
    WaitAfter(b.r.state, b.g, ports, t.write, t.rFifoAFull, rx.ctl.r, rx.ch);
    AnswerMoves(b.r, b.h, b.rxValid, b.tranValid, b.desc, t.txReady || !b.r.txValid, rx.path.engine.r.state,
                rx.path.engine.h);
  }

  lemma AnswerMoves(r: Dma.Reg, h: Dma.Hist, rxValid: bool, tranValid: bool, desc: Dma.DescFromPcie, free: bool,
                    s': Dma.State, h': Dma.Hist)
    requires Dma.Progress(r, h, rxValid, tranValid, desc, free, s', h'.done, h'.pos)
    ensures (r.state.AckWait? || r.state.TrDone?) && Path.Acked(r.state, desc) ==> s' != r.state
  {
    hide Dma.EndsFrame;
  }

  /** One clock of the receive side. */
  method Clock(rx: Receiver, ports: seq<Port>, sValid: bool, s: Beat, t: Tick, maxFrame: Len24)
    returns (sReady: bool, next: seq<Port>)
    requires rx.Valid() && ports == rx.ctl.shown && rx.ch < |rx.ctl.r.chans|
    requires sValid ==> !s.eot && SourceOk(rx.path.cutter.taken + [s])
    requires HostOk(rx.path.engine.r, rx.path.engine.h, t.tranVisible && rx.path.tranQ != [], FirstTran(rx.path.tranQ),
                    rx.Desc(maxFrame))
    modifies rx.path, rx.path.cutter, rx.path.engine, rx.ctl, rx.ctl.fifo
    ensures rx.Valid() && next == rx.ctl.shown && (sReady ==> sValid)
    ensures rx.path.cutter.taken == if sReady then old(rx.path.cutter.taken) + [s] else old(rx.path.cutter.taken)
    ensures Appends(old(rx.ctl.freed), t.write, rx.ctl.freed)
    ensures Clocked(old(Now(rx, t, maxFrame)), t, sValid, sReady, rx)
  {
    hide Dma.Agree, SourceOk, HostOk, Appends, Receiver.Valid, Moved, Fed, Clocked;
    LinesShow(rx);
    WellFed(rx, t, maxFrame);
    ghost var b := Now(rx, t, maxFrame);
    sReady, next := ClockAll(rx, ports, sValid, s, t, maxFrame);
    AfterClock(b, t, sValid, ports, rx, sReady);
  }

  lemma RoomAfter(r: Dma.Reg, h: Dma.Hist, rxValid: bool, tranValid: bool, desc: Dma.DescFromPcie, free: bool,
                  s': Dma.State, h': Dma.Hist)
    requires Dma.Sized(r.state, h.maxFrame, desc, h'.maxFrame) && r.state != Dma.DataDump
    requires Dma.Progress(r, h, rxValid, tranValid, desc, free, s', h'.done, h'.pos)
    ensures Roomy(r.state, h, desc.maxFrame) ==> Roomy(s', h', desc.maxFrame)
  {
    hide Dma.Progress, Dma.Sized, Roomy;
    if Roomy(r.state, h, desc.maxFrame) {
      StaysRoomy(r, h, rxValid, tranValid, desc, free, s', h');
    }
  }

  lemma WaitAfter(s: Dma.State, r: Reg, ports: seq<Port>, write: Option<(nat, Addr)>, rFifoAFull: bool, v: Reg, ch: nat)
    requires |ports| == |r.chans| == |v.chans| && r.doneCnt < |r.chans| && ch < |r.chans|
    requires (ports[ch].newReq <==> s.AckWait?) && (ports[ch].doneReq <==> s.TrDone?)
    requires var poll := !rFifoAFull && !r.rFifoWr;
             && v.doneCnt == NextCnt(|ports|, r.doneCnt, poll) && v.rFifoWr == (poll && ports[r.doneCnt].doneReq)
             && AllAnswer(r.chans, ports, v.chans, write, r.dFifoDin, poll, r.doneCnt)
    ensures Nearing(s, r, |v.chans|, ch, rFifoAFull, v)
  {
    hide AllAnswer, NextCnt, Wait, Answered;
    if !Answered(s, r.chans[ch]) && (s.AckWait? ==> r.chans[ch].free != [] || r.chans[ch].dFifoWr) {
      WaitLess(s, r, ports, write, rFifoAFull, v, ch);
    }
  }

  // ---- Any run ----

  /** What was left before a clock, in clocks of the path. */
  function LoadOf(b: Before): int
    requires |b.h.done| <= |b.c.groups|
  {
    Path.CutLoad(b.cr, b.c, |b.h.done|) + Path.Lead(b.r.state, b.h.pos)
  }

  /** Nothing is left to do: all that has been cut has been sent, and reported. */
  predicate Over(s: Dma.State, todo: seq<Group>, rem: nat) {
    rem == 0 && todo == [] && s != Dma.TrDone
  }

  /** One clock, `rem` beats of the stream being left: the path has less to do, or the
      engine waits on and its answer comes nearer. */
  lemma Less(b: Before, t: Tick, sValid: bool, sReady: bool, rx: Receiver, rem: nat)
    requires Clocked(b, t, sValid, sReady, rx) && (sReady ==> sValid) && (sValid <==> t.sValid && rem > 0)
    requires b.desc.newAck == b.g.chans[rx.ch].newAck && b.desc.doneAck == b.g.chans[rx.ch].doneAck
    requires b.r.state.AckWait? && b.h.todo != [] && !b.desc.newAck ==>
               b.g.chans[rx.ch].free != [] || b.g.chans[rx.ch].dFifoWr
    requires rx.ctl.r.doneCnt < |rx.ctl.r.chans|
    ensures var rem' := if sReady then rem - 1 else rem;
            var work, work' := 8 * rem + LoadOf(b), 8 * rem' + Path.Load(rx.path);
            var wait, wait' := Wait(b.r.state, b.g, rx.ch), Wait(rx.path.engine.r.state, rx.ctl.r, rx.ch);
            && (work' < work || (work' == work && wait' <= wait))
            && (Open(t) && !Over(b.r.state, b.h.todo, rem) ==> work' < work || (work' == work && wait' < wait))
            && (Over(b.r.state, b.h.todo, rem) ==> Over(rx.path.engine.r.state, rx.path.engine.h.todo, rem'))
  {
    hide Path.CutLoad, Path.Lead, Path.Load, Ahead, Roomy;
  }

  lemma AtLeastOnce(k: nat, turn: nat)
    requires k > 0
    ensures k * turn >= turn
  {}

  /** Clocks so weighed that every clock of the path outweighs the longest wait. */
  lemma Weighed(work: int, wait: nat, work': int, wait': nat, turn: nat, less: nat)
    requires wait' < turn && less <= 1
    requires work' < work || (work' == work && wait' + less <= wait)
    ensures work' * turn + wait' + less <= work * turn + wait
  {
    if work' < work {
      assert work * turn == work' * turn + (work - work') * turn;
      AtLeastOnce(work - work', turn);
    }
  }

  function Opens(ticks: seq<Tick>): nat
    decreases |ticks|
  {
    if ticks == [] then 0 else Opens(ticks[..|ticks| - 1]) + if Open(ticks[|ticks| - 1]) then 1 else 0
  }

  lemma OpensNext(ticks: seq<Tick>, n: nat)
    requires n < |ticks|
    ensures Opens(ticks[..n + 1]) == Opens(ticks[..n]) + if Open(ticks[n]) then 1 else 0
  {
    assert ticks[..n + 1][..n] == ticks[..n];
  }

  /** What the driver and the source are asked for: an address for every frame of the
      whole stream, all of them with `maxFrame` dwords behind them, and frames that fit
      there. */
  ghost predicate Supplied(rx: Receiver, whole: seq<Beat>, maxFrame: nat)
    reads rx, rx.path, rx.path.cutter, rx.path.engine, rx.ctl
  {
    && rx.path.cutter.taken <= whole && SourceOk(whole) && Deframe(whole).part == [] && Fit(Deframe(whole), maxFrame)
    && rx.ch < |rx.ctl.freed| && |Deframe(whole).pkts| <= |rx.ctl.freed[rx.ch]| && Below(rx.ctl.freed[rx.ch], maxFrame)
    && Roomy(rx.path.engine.r.state, rx.path.engine.h, maxFrame)
  }

  lemma {:induction false} SourceBefore(bs: seq<Beat>, n: nat)
    requires n <= |bs| && SourceOk(bs)
    ensures SourceOk(bs[..n])
    decreases |bs|
  {
    hide SourceOk;
    if n == |bs| {
      assert bs[..n] == bs;
    } else {
      var k := |bs| - 1;
      SourceOkBefore(bs[..k], bs[k]);
      assert bs == bs[..k] + [bs[k]] && bs[..k][..n] == bs[..n];
      SourceBefore(bs[..k], n);
    }
  }

  /** Before a clock: the source's next beat, the host, and the address. */
  lemma Supply(rx: Receiver, whole: seq<Beat>, maxFrame: Len24, tranVisible: bool)
    requires rx.Valid() && Supplied(rx, whole, maxFrame)
    ensures rx.ch < |rx.ctl.r.chans| && rx.ctl.r.doneCnt < |rx.ctl.r.chans|
    ensures |rx.path.cutter.taken| < |whole| ==> SourceOk(rx.path.cutter.taken + [whole[|rx.path.cutter.taken|]])
    ensures HostOk(rx.path.engine.r, rx.path.engine.h, tranVisible && rx.path.tranQ != [], FirstTran(rx.path.tranQ),
                   rx.Desc(maxFrame))
    ensures rx.path.engine.r.state.AckWait? && rx.path.engine.h.todo != [] && !rx.ctl.r.chans[rx.ch].newAck ==>
              rx.ctl.r.chans[rx.ch].free != [] || rx.ctl.r.chans[rx.ch].dFifoWr
  {
    hide Deframe, Fit, Below, Roomy, SourceOk, Receiver.Valid, HostOk, Path.Good, Dma.Agree, RxCutter.CutOk,
         RxCutter.SameBeats, Flat, Wired, Dma.Ledger;
    var taken := rx.path.cutter.taken;
    Polling(rx);
    assert whole[..|taken|] == taken;
    FitBefore(whole, |taken|, maxFrame);
    HostRespects(rx, tranVisible, maxFrame);
    if |taken| < |whole| {
      SourceBefore(whole, |taken| + 1);
      assert whole[..|taken| + 1] == taken + [whole[|taken|]];
    }
    if rx.path.engine.r.state.AckWait? && rx.path.engine.h.todo != [] && !rx.ctl.r.chans[rx.ch].newAck {
      GoodPath(rx);
      Path.GoodIs(rx.path);
      Path.GoodSource(rx.path);
      OneMoreFrame(rx.path.cutter.cut, taken, rx.path.engine.h, whole);
      AddressThere(rx);
    }
  }

  /** ... and after it. */
  lemma StillSupplied(rx: Receiver, whole: seq<Beat>, maxFrame: nat, freed: seq<seq<Addr>>, write: Option<(nat, Addr)>)
    requires Appends(freed, write, rx.ctl.freed) && rx.ch < |freed|
    requires |Deframe(whole).pkts| <= |freed[rx.ch]| && Below(freed[rx.ch], maxFrame)
    requires write.Some? && write.value.0 == rx.ch ==> write.value.1 + maxFrame <= 0x4000_0000
    requires SourceOk(whole) && Deframe(whole).part == [] && Fit(Deframe(whole), maxFrame)
    requires rx.path.cutter.taken <= whole && Roomy(rx.path.engine.r.state, rx.path.engine.h, maxFrame)
    ensures Supplied(rx, whole, maxFrame)
  {
    hide Deframe, Fit, Roomy, SourceOk;
  }

  /** Every frame of the stream is finished and recorded. */
  ghost predicate Complete(rx: Receiver)
    reads rx, rx.path, rx.path.cutter, rx.path.engine, rx.ctl
  {
    Path.Caught(rx.path) && rx.path.engine.r.state != Dma.TrDone
  }

  lemma OverIsComplete(rx: Receiver)
    requires rx.Valid() && Over(rx.path.engine.r.state, rx.path.engine.h.todo, 0)
    ensures Complete(rx)
  {
    hide Receiver.Valid, Path.Good, Path.Caught;
    GoodPath(rx);
    Path.NothingLeft(rx.path);
  }

  /** Something left to do takes at least a clock. */
  lemma SomeLeft(rx: Receiver, rem: nat)
    requires rx.Valid()
    ensures 8 * rem + Path.Load(rx.path) >= if Over(rx.path.engine.r.state, rx.path.engine.h.todo, rem) then 0 else 1
  {
    hide Receiver.Valid, Path.Good, Path.Load;
    GoodPath(rx);
    Path.LoadIs(rx.path);
  }

  /** What is left to do, weighed with the longest wait, and the wait itself. */
  ghost function Budget(rx: Receiver, rem: nat): int
    requires rx.ctl.r.doneCnt < |rx.ctl.r.chans| && rx.ch < |rx.ctl.r.chans|
    reads rx, rx.path, rx.path.cutter, rx.path.engine, rx.ctl
  {
    (8 * rem + Path.Load(rx.path)) * Turn(|rx.ctl.r.chans|) + Wait(rx.path.engine.r.state, rx.ctl.r, rx.ch)
  }

  /** The budget after a clock, in which `open` says that nobody held the receive side up. */
  ghost predicate Spent(rx: Receiver, rem: nat, before: int, over: bool, open: bool)
    reads rx, rx.path, rx.path.cutter, rx.path.engine, rx.ctl
  {
    && rx.ctl.r.doneCnt < |rx.ctl.r.chans| && rx.ch < |rx.ctl.r.chans|
    && Budget(rx, rem) + (if open && !over then 1 else 0) <= before
    && (over ==> Over(rx.path.engine.r.state, rx.path.engine.h.todo, rem))
  }

  lemma BudgetSpent(b: Before, t: Tick, sValid: bool, sReady: bool, rx: Receiver, rem: nat)
    requires Clocked(b, t, sValid, sReady, rx) && (sReady ==> sValid) && (sValid <==> t.sValid && rem > 0)
    requires b.desc.newAck == b.g.chans[rx.ch].newAck && b.desc.doneAck == b.g.chans[rx.ch].doneAck
    requires b.r.state.AckWait? && b.h.todo != [] && !b.desc.newAck ==>
               b.g.chans[rx.ch].free != [] || b.g.chans[rx.ch].dFifoWr
    requires rx.ctl.r.doneCnt < |rx.ctl.r.chans|
    ensures Spent(rx, if sReady then rem - 1 else rem,
                  (8 * rem + LoadOf(b)) * Turn(|b.g.chans|) + Wait(b.r.state, b.g, rx.ch),
                  Over(b.r.state, b.h.todo, rem), Open(t))
  {
    hide Path.Load, Wait, Turn, LoadOf, Open, Over;
    Less(b, t, sValid, sReady, rx, rem);
    WaitBounded(rx.path.engine.r.state, rx.ctl.r, rx.ch);
    var rem' := if sReady then rem - 1 else rem;
    Weighed(8 * rem + LoadOf(b), Wait(b.r.state, b.g, rx.ch), 8 * rem' + Path.Load(rx.path),
            Wait(rx.path.engine.r.state, rx.ctl.r, rx.ch), Turn(|b.g.chans|),
            if Open(t) && !Over(b.r.state, b.h.todo, rem) then 1 else 0);
  }

  lemma LoadOfNow(rx: Receiver, t: Tick, maxFrame: Len24)
    requires rx.Valid() && rx.ch < |rx.ctl.r.chans|
    ensures var b := Now(rx, t, maxFrame);
            && |b.h.done| <= |b.c.groups| && LoadOf(b) == Path.Load(rx.path)
            && b.desc.newAck == b.g.chans[rx.ch].newAck && b.desc.doneAck == b.g.chans[rx.ch].doneAck
  {
    hide Receiver.Valid, Path.Good, Path.CutLoad, Path.Lead;
    GoodPath(rx);
    Path.GoodIs(rx.path);
  }

  /** One clock; the source offers the next beat of the stream, if it offers any. */
  method Advance(rx: Receiver, ports: seq<Port>, s: Beat, t: Tick, maxFrame: Len24, ended: bool,
                 ghost whole: seq<Beat>)
    returns (sReady: bool, next: seq<Port>)
    requires rx.Valid() && ports == rx.ctl.shown && Supplied(rx, whole, maxFrame)
    requires ended <==> |rx.path.cutter.taken| == |whole|
    requires !ended ==> s == whole[|rx.path.cutter.taken|] && !s.eot
    requires t.write.Some? && t.write.value.0 == rx.ch ==> t.write.value.1 + maxFrame <= 0x4000_0000
    requires rx.ctl.r.doneCnt < |rx.ctl.r.chans| && rx.ch < |rx.ctl.r.chans|
    modifies rx.path, rx.path.cutter, rx.path.engine, rx.ctl, rx.ctl.fifo
    ensures rx.Valid() && next == rx.ctl.shown && Supplied(rx, whole, maxFrame) && (sReady ==> !ended)
    ensures rx.path.cutter.taken == if sReady then old(rx.path.cutter.taken) + [s] else old(rx.path.cutter.taken)
    ensures |rx.path.cutter.taken| <= |whole|
    ensures var rem := |whole| - old(|rx.path.cutter.taken|);
            Spent(rx, |whole| - |rx.path.cutter.taken|, old(Budget(rx, rem)),
                  old(Over(rx.path.engine.r.state, rx.path.engine.h.todo, rem)), Open(t))
  {
    hide Deframe, Fit, Below, Roomy, SourceOk, Receiver.Valid, HostOk, Clocked, LoadOf, Wait, Turn, Over, Open, Spent,
         Appends;
    Supply(rx, whole, maxFrame, t.tranVisible);
    LoadOfNow(rx, t, maxFrame);
    ghost var b, freed, rem := Now(rx, t, maxFrame), rx.ctl.freed, |whole| - |rx.path.cutter.taken|;
    ghost var taken := rx.path.cutter.taken;
    var sValid := t.sValid && !ended;
    sReady, next := Clock(rx, ports, sValid, s, t, maxFrame);
    Polling(rx);
    BudgetSpent(b, t, sValid, sReady, rx, rem);
    ClockedRoomy(b, t, sValid, sReady, rx);
    if sReady {
      assert whole[..|taken| + 1] == taken + [s];
    }
    StillSupplied(rx, whole, maxFrame, freed, t.write);
  }

  lemma ClockedRoomy(b: Before, t: Tick, sValid: bool, sReady: bool, rx: Receiver)
    requires Clocked(b, t, sValid, sReady, rx)
    ensures Roomy(b.r.state, b.h, b.desc.maxFrame) ==>
              Roomy(rx.path.engine.r.state, rx.path.engine.h, b.desc.maxFrame)
  {
    hide Roomy;
  }

  /** Every frame is served: under any stalls, after as many open clocks as the budget of
      the stream says, the source has got rid of the whole stream, and all of its frames
      are finished and recorded. */
  method Drive(rx: Receiver, lines: seq<Port>, stream: seq<Beat>, maxFrame: Len24, ticks: seq<Tick>)
    returns (taken: nat)
    requires rx.Valid() && lines == rx.ctl.shown && forall i :: 0 <= i < |stream| ==> !stream[i].eot
    requires Supplied(rx, rx.path.cutter.taken + stream, maxFrame)
    requires forall n :: 0 <= n < |ticks| && ticks[n].write.Some? && ticks[n].write.value.0 == rx.ch ==>
               ticks[n].write.value.1 + maxFrame <= 0x4000_0000
    requires rx.ctl.r.doneCnt < |rx.ctl.r.chans| && rx.ch < |rx.ctl.r.chans|
    modifies rx.path, rx.path.cutter, rx.path.engine, rx.ctl, rx.ctl.fifo
    ensures rx.Valid() && taken <= |stream| && rx.path.cutter.taken == old(rx.path.cutter.taken) + stream[..taken]
    ensures Opens(ticks) >= old(Budget(rx, |stream|)) ==> taken == |stream| && Complete(rx)
  {
    hide Receiver.Valid, Supplied, Budget, Over, Spent, Complete, Open, Opens;
    ghost var whole := rx.path.cutter.taken + stream;
    ghost var budget := Budget(rx, |stream|);
    ghost var over := Over(rx.path.engine.r.state, rx.path.engine.h.todo, |stream|);
    taken := 0;
    var ports := lines;
    NoneOpen();
    for n := 0 to |ticks|
      invariant rx.Valid() && ports == rx.ctl.shown && taken <= |stream| && Supplied(rx, whole, maxFrame)
      invariant rx.path.cutter.taken == old(rx.path.cutter.taken) + stream[..taken]
      invariant rx.ctl.r.doneCnt < |rx.ctl.r.chans| && rx.ch < |rx.ctl.r.chans|
      invariant over == Over(rx.path.engine.r.state, rx.path.engine.h.todo, |stream| - taken)
      invariant over || Budget(rx, |stream| - taken) + Opens(ticks[..n]) <= budget
    {
      assert ticks[..0] == [];
      var ended, k := taken == |stream|, taken;
      ghost var before := Budget(rx, |stream| - taken);
      var sReady;
      sReady, ports := Advance(rx, ports, if ended then NO_BEAT else stream[taken], ticks[n], maxFrame, ended, whole);
      taken := if sReady then taken + 1 else taken;
      Polling(rx);
      Spending(rx, |stream| - taken, before, over, Open(ticks[n]));
      over := Over(rx.path.engine.r.state, rx.path.engine.h.todo, |stream| - taken);
      OpensNext(ticks, n);
    }
    assert ticks[..|ticks|] == ticks;
    if Opens(ticks) >= budget {
      Finish(rx, |stream| - taken, budget, Opens(ticks));
    }
  }

  lemma NoneOpen()
    ensures Opens([]) == 0
  {}

  lemma Spending(rx: Receiver, rem: nat, before: int, over: bool, open: bool)
    requires Spent(rx, rem, before, over, open) && rx.ctl.r.doneCnt < |rx.ctl.r.chans| && rx.ch < |rx.ctl.r.chans|
    ensures Budget(rx, rem) + (if open && !over then 1 else 0) <= before
    ensures over ==> Over(rx.path.engine.r.state, rx.path.engine.h.todo, rem)
  {
    hide Budget, Over;
  }

  lemma Finish(rx: Receiver, rem: nat, budget: int, opens: nat)
    requires rx.Valid() && rx.ctl.r.doneCnt < |rx.ctl.r.chans| && rx.ch < |rx.ctl.r.chans| && opens >= budget
    requires Over(rx.path.engine.r.state, rx.path.engine.h.todo, rem) || Budget(rx, rem) + opens <= budget
    ensures rem == 0 && Complete(rx)
  {
    hide Receiver.Valid, Complete, Path.Load, Wait;
    SomeLeft(rx, rem);
    if !Over(rx.path.engine.r.state, rx.path.engine.h.todo, rem) {
      AtLeastOnce(8 * rem + Path.Load(rx.path), Turn(|rx.ctl.r.chans|));
      assert false;
    }
    OverIsComplete(rx);
  }

  /** ... and in memory, each at the address that the driver freed for it. */
  lemma CompleteIsDelivered(rx: Receiver, mem: Mem.Memory)
    requires rx.Valid() && Complete(rx) && Deframe(rx.path.cutter.taken).part == []
    ensures |rx.ctl.freed| == |rx.ctl.r.chans|
    ensures var taken, freed, records := rx.path.cutter.taken, rx.ctl.freed[rx.ch], Of(rx.ctl.log, rx.ch);
            var frames, ends := Deframe(taken).pkts, EndBeats(taken);
            && |frames| == |records| <= |freed| && |frames| <= |ends|
            && Mem.HostWrites(mem, rx.path.engine.Out().pkts) == CopyAll(mem, freed[..|frames|], frames)
            && forall k :: 0 <= k < |records| ==> Names(records[k], rx.ch, freed[k], frames[k], ends[k])
  {
    hide Receiver.Valid, Deframe, Mem.HostWrites, CopyAll, Of, Pausing, Names, EndBeats;
    Delivered(rx, mem);
    var frames := Deframe(rx.path.cutter.taken).pkts;
    assert frames[..|frames|] == frames;
  }
}
