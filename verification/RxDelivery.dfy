/** The receive path and the descriptor controller clocked together: from the
    frames on the link to the frames in memory and the records that report them. */
module RxDelivery {
  import opened PcieTypes
  import opened Streams
  import opened Wrappers
  import Dma = RxDma
  import Mem = HostMemory
  import opened RxPath
  import opened RxDesc
  import opened RxHandover
  import opened Transactions
  import RxCutter

  // ---- The beats that end the frames ----

  /** The last beats of the frames of a stream. */
  function EndBeats(bs: seq<Beat>): seq<Beat>
    decreases |bs|
  {
    if bs == [] then []
    else
      var b := bs[|bs| - 1];
      EndBeats(bs[..|bs| - 1]) + (if b.last then [b] else [])
  }

  lemma EndBeatsSnoc(bs: seq<Beat>, b: Beat)
    ensures EndBeats(bs + [b]) == EndBeats(bs) + if b.last then [b] else []
  {
    assert (bs + [b])[..|bs|] == bs;
  }

  lemma {:induction false} EndBeatsInside(bs: seq<Beat>, g: Group, n: nat)
    requires n <= |g| && forall i :: 0 <= i < n ==> !g[i].last
    ensures EndBeats(bs + g[..n]) == EndBeats(bs)
    decreases n
  {
    if n == 0 {
      assert bs + g[..0] == bs;
    } else {
      hide EndBeats;
      EndBeatsInside(bs, g, n - 1);
      assert bs + g[..n] == bs + g[..n - 1] + [g[n - 1]];
      EndBeatsSnoc(bs + g[..n - 1], g[n - 1]);
    }
  }

  lemma EndBeatsGroup(bs: seq<Beat>, g: Group)
    requires g != [] && forall i :: 0 <= i < |g| - 1 ==> !g[i].last
    ensures EndBeats(bs + g) == EndBeats(bs) + if Dma.EndsFrame(g) then [g[|g| - 1]] else []
  {
    hide EndBeats;
    var n := |g| - 1;
    EndBeatsInside(bs, g, n);
    assert bs + g == bs + g[..n] + [g[n]];
    EndBeatsSnoc(bs + g[..n], g[n]);
  }

  lemma {:induction false} EndBeatsSofar(gs: seq<Group>, more: seq<Group>)
    requires AllClosed(more) && forall i :: 0 <= i < |more| ==> !Dma.EndsFrame(more[i])
    ensures EndBeats(Flat(gs + more)) == EndBeats(Flat(gs))
    decreases |more|
  {
    hide Closed, EndBeats;
    if more == [] {
      assert gs + more == gs;
    } else {
      var m, g := more[..|more| - 1], more[|more| - 1];
      EndBeatsSofar(gs, m);
      assert gs + more == gs + m + [g];
      FlatSnoc(gs + m, g);
      ClosedInside(g);
      EndBeatsGroup(Flat(gs + m), g);
    }
  }

  function EndsOf(jobs: seq<Dma.Job>): (r: seq<Beat>)
    ensures |r| == |jobs|
  {
    seq(|jobs|, i requires 0 <= i < |jobs| => EndBeat(jobs[i].groups))
  }

  lemma {:induction false} EndBeatsJobs(jobs: seq<Dma.Job>)
    requires AllWhole(jobs)
    ensures EndBeats(Flat(Dma.JobGroups(jobs))) == EndsOf(jobs)
    decreases |jobs|
  {
    hide Closed, EndBeats, Flat;
    if jobs == [] {
      NoEnds();
    } else {
      var js, gs := jobs[..|jobs| - 1], jobs[|jobs| - 1].groups;
      var pre, m, g := Dma.JobGroups(js), gs[..|gs| - 1], gs[|gs| - 1];
      EndBeatsJobs(js);
      EndBeatsSofar(pre, m);
      assert pre + gs == pre + m + [g];
      FlatSnoc(pre + m, g);
      ClosedInside(g);
      EndBeatsGroup(Flat(pre + m), g);
      assert EndsOf(jobs) == EndsOf(js) + [g[|g| - 1]];
    }
  }

  lemma NoEnds()
    ensures EndBeats([]) == [] && Flat<Beat>([]) == []
  {}

  lemma {:induction false} EndBeatsBefore(bs: seq<Beat>, n: nat)
    requires n <= |bs|
    ensures EndBeats(bs[..n]) <= EndBeats(bs)
    decreases |bs|
  {
    if n < |bs| {
      assert bs[..|bs| - 1][..n] == bs[..n];
      EndBeatsBefore(bs[..|bs| - 1], n);
    } else {
      assert bs[..n] == bs;
    }
  }

  /** The cutter leaves destination and error flag alone. */
  lemma {:induction false} SameEnds(taken: seq<Beat>, emitted: seq<Beat>)
    requires RxCutter.SameBeats(taken, emitted)
    ensures |EndBeats(taken)| == |EndBeats(emitted)|
    ensures forall k :: 0 <= k < |EndBeats(taken)| ==>
              && EndBeats(emitted)[k].dest == EndBeats(taken)[k].dest
              && EndBeats(emitted)[k].eofe == EndBeats(taken)[k].eofe
    decreases |taken|
  {
    hide ByteSwap;
    if taken != [] {
      var n := |taken| - 1;
      SameEnds(taken[..n], emitted[..n]);
    }
  }

  /** Sub-channel and error flag of the finished frames are those of the frames' last
      beats on the link. */
  lemma EndsTaken(c: RxCutter.Cut, taken: seq<Beat>, h: Dma.Hist)
    requires RxCutter.CutOk(c) && RxCutter.SameBeats(taken, Flat(c.groups) + c.open)
    requires h.done <= c.groups && Dma.Ledger(h)
    ensures |h.finished| <= |EndBeats(taken)|
    ensures forall k :: 0 <= k < |h.finished| ==>
              && EndBeat(h.finished[k].groups).dest == EndBeats(taken)[k].dest
              && EndBeat(h.finished[k].groups).eofe == EndBeats(taken)[k].eofe
  {
    hide Closed, EndBeats, Flat, RxCutter.SameBeats, Dma.WholeFrame, Dma.EndsFrame, EndBeat;
    var all, n := Flat(c.groups) + c.open, |h.done|;
    assert c.groups[..n] == h.done;
    FlatPrefix(c.groups, n);
    assert all[..|Flat(h.done)|] == Flat(h.done);
    EndBeatsBefore(all, |Flat(h.done)|);
    var before := Dma.JobGroups(h.finished);
    assert forall i :: 0 <= i < |before| ==> before[i] == h.done[i];
    assert forall i :: 0 <= i < |h.sofar| ==> h.sofar[i] == h.done[|before| + i];
    JobGroupsClosed(h.finished);
    EndBeatsJobs(h.finished);
    EndBeatsSofar(before, h.sofar);
    SameEnds(taken, all);
    assert forall k :: 0 <= k < |h.finished| ==> EndsOf(h.finished)[k] == EndBeat(h.finished[k].groups);
  }

  // ---- Path and controller ----

  /** The receive path of channel `ch`, the controller, and any other engines. */
  class Receiver {
    const path: ReceivePath
    const ctl: Controller
    const ch: nat

    ghost predicate Valid()
      reads this, path, path.cutter, path.engine, ctl, ctl.fifo
    {
      && path.Valid() && path.hostOk && SourceOk(path.cutter.taken) && ctl.Valid()
      && ch < |ctl.r.chans| && ctl.shown[ch] == path.engine.r.desc
      && path.engine.dmaChannel == ch && Served(ch, path.engine.r, path.engine.h, ctl.r.chans[ch], ctl.acc[ch])
    }

    constructor (ids: TlpIds, dmaSize: nat, ch: nat, ghost ports: seq<Port>)
      requires ch < dmaSize == |ports| && ports[ch] == Dma.REG_INIT.desc
      requires forall i :: 0 <= i < |ports| ==> !ports[i].newReq && !ports[i].doneReq
      ensures Valid() && fresh(path) && fresh(path.cutter) && fresh(path.engine) && fresh(ctl) && fresh(ctl.fifo)
      ensures this.ch == ch && path.cutter.taken == [] && path.engine.sent == []
    {
      hide AllOk, FreedOk, Agree, DoneFifo.Valid, ReceivePath.Valid;
      this.ch := ch;
      path := new ReceivePath(ids, ch);
      ctl := new Controller(dmaSize, ports);
      new;
      NothingYet(ch);
    }

    /** What the controller shows the engine. */
    function Desc(maxFrame: Len24): Dma.DescFromPcie
      requires ch < |ctl.r.chans|
      reads this, ctl
    {
      var c := ctl.r.chans[ch];
      Dma.DescFromPcie(c.newAck, c.newAddr, c.doneAck, maxFrame)
    }

    /** One clock of all machines. The source keeps to the frame format, and the host
        gives buffers with room for their frames. */
    method Clock(sValid: bool, s: Beat, dataReady: bool, tranAFull: bool, rxVisible: bool, tranVisible: bool,
                 txReady: bool, maxFrame: Len24, ports: seq<Port>, ghost next: seq<Port>, rFifoAFull: bool,
                   write: Option<(nat, Addr)>,
                 access: Access)
      returns (sReady: bool)
      requires Valid() && ports == ctl.shown && |next| == |ports|
      requires sValid ==> !s.eot && SourceOk(path.cutter.taken + [s])
      requires HostOk(path.engine.r, path.engine.h, tranVisible && path.tranQ != [], FirstTran(path.tranQ),
                      Desc(maxFrame))
      requires forall i :: 0 <= i < |ports| && i != ch ==>
                 NextPort(ports[i], ctl.r.chans[i].newAck, ctl.r.chans[i].doneAck, next[i])
      modifies path, path.cutter, path.engine, ctl, ctl.fifo
      ensures Valid() && ctl.shown == next[ch := path.engine.r.desc] && (sReady ==> sValid)
      ensures path.cutter.taken == if sReady then old(path.cutter.taken) + [s] else old(path.cutter.taken)
      ensures path.engine.sent ==
              if txReady then WithPending(old(path.engine.sent), old(path.engine.r.txValid), old(path.engine.r.tx))
              else old(path.engine.sent)
      ensures ctl.log == Polled(old(ctl.log), ports, !rFifoAFull && !old(ctl.r.rFifoWr), old(ctl.r.doneCnt))
      ensures Appends(old(ctl.freed), write, ctl.freed)
      ensures Dma.Progress(old(path.engine.r), old(path.engine.h), rxVisible && old(path.dataQ) != [],
                           tranVisible && old(path.tranQ) != [], old(Desc(maxFrame)),
                           txReady || !old(path.engine.r.txValid), path.engine.r.state, path.engine.h.done,
                           path.engine.h.pos)
      ensures Dma.Sized(old(path.engine.r.state), old(path.engine.h.maxFrame), old(Desc(maxFrame)),
                        path.engine.h.maxFrame)
      ensures CutterMoves(old(path.cutter.r), old(path.cutter.cut), sValid, dataReady, tranAFull, path.cutter.r,
                          path.cutter.cut, sReady)
      ensures |ctl.r.chans| == old(|ctl.r.chans|)
      ensures var poll := !rFifoAFull && !old(ctl.r.rFifoWr);
              && ctl.r.doneCnt == NextCnt(|ports|, old(ctl.r.doneCnt), poll)
              && ctl.r.rFifoWr == (poll && ports[old(ctl.r.doneCnt)].doneReq)
              && AllAnswer(old(ctl.r.chans), ports, ctl.r.chans, write, old(ctl.r.dFifoDin), poll, old(ctl.r.doneCnt))
    {
      hide Dma.Progress, Dma.Sized, CutterMoves, AllAnswer, NextCnt, Appends, Dma.Agree, Dma.Finishes, Dma.Ledger,
           Dma.Answered, Dma.Turned, Dma.Handshake, Served, AllOk, DoneFifo.Valid,
           Episodes, AfterGrant, NextPort, Polled, Reports, Granted, Recorded, ReceivePath.Valid, SourceOk, HostOk,
           WithPending, Dma.Engine.Valid;
      var desc := Desc(maxFrame);
      ghost var r, h, out, c, a, din := path.engine.r, path.engine.h, path.engine.Out(), ctl.r.chans[ch], ctl.acc[ch],
        ctl.r.dFifoDin;
      ChannelGranted(ctl.r.chans, ctl.shown, ctl.acc, ctl.log, ctl.r.rFifoWr, ch);
      InStep(path);
      sReady := path.Clock(sValid, s, dataReady, tranAFull, rxVisible, tranVisible, desc, txReady);
      InStep(path);
      var e := path.engine;
      PortKept(e.ids, r, h, out, desc, e.r, e.h, e.Out());
      ghost var next' := next[ch := e.r.desc];
      assert forall i :: 0 <= i < |ports| ==>
               NextPort(ports[i], ctl.r.chans[i].newAck, ctl.r.chans[i].doneAck, next'[i]);
      ctl.Clock(ports, next', rFifoAFull, write, access);
      ChannelGranted(ctl.r.chans, ctl.shown, ctl.acc, ctl.log, ctl.r.rFifoWr, ch);
      ServedKept(e.ids, ch, r, h, desc, e.r, e.h, e.Out(), c, a, ctl.r.chans[ch], din);
    }
  }

  lemma NothingYet(ch: nat)
    ensures SourceOk([]) && Served(ch, Dma.REG_INIT, Dma.HIST_INIT, CHANNEL_INIT, ACCOUNT_INIT)
  {}

  /** What a receive path in good order says of its engine. */
  lemma InStep(path: ReceivePath)
    requires path.Valid() && path.hostOk && SourceOk(path.cutter.taken)
    ensures var e := path.engine;
            && Dma.Agree(e.ids, e.r, e.h, e.Out()) && Dma.Handshake(e.r)
            && (e.r.desc.doneReq ==> e.r.desc.doneDmaCh == e.dmaChannel)
  {
    hide Dma.Agree, Dma.Handshake;
  }

  /** The addresses of the finished frames, and the records made of them. */
  lemma Recordings(t: Receiver)
    requires t.Valid()
    ensures |t.ctl.freed| == |t.ctl.r.chans| && |Of(t.ctl.log, t.ch)| <= |t.path.engine.h.finished|
    ensures var jobs, freed, records := t.path.engine.h.finished, t.ctl.freed[t.ch], Of(t.ctl.log, t.ch);
            && |jobs| <= |freed| && Bases(jobs) == freed[..|jobs|]
            && |jobs| <= |records| + (if t.path.engine.r.state == Dma.TrDone then 1 else 0)
            && forall k :: 0 <= k < |records| ==> Describes(records[k], t.ch, jobs[k])
  {
    hide Describes, Dma.Agree, Dma.Ledger, Of, Reports, DoneFifo.Valid, AllOk, FreedOk, ReceivePath.Valid, SourceOk;
    ChannelGranted(t.ctl.r.chans, t.ctl.shown, t.ctl.acc, t.ctl.log, t.ctl.r.rFifoWr, t.ch);
    FreedOf(t.ctl, t.ch);
    InStep(t.path);
    var jobs := t.path.engine.h.finished;
    forall k | 0 <= k < |jobs| ensures Bases(jobs)[k] == t.ctl.freed[t.ch][k] {}
  }

  /** A record names the frame's channels, its error flag, its length and its address. */
  predicate Names(record: Report, ch: nat, addr: nat, frame: seq<Dword>, end: Beat) {
    && record.dmaCh == ch && record.subCh == end.dest % 16 && record.eofe == end.eofe && !record.frameErr
    && record.length == |frame| && record.addr == addr
  }

  lemma FrameNamed(pkts: seq<seq<Dword>>, mem: Mem.Memory, jobs: seq<Dma.Job>, frames: seq<seq<Dword>>, r: Dma.Reg,
                   ch: nat, record: Report, k: nat, end: Beat)
    requires Memcpy(mem, pkts, jobs, frames, r) && k < |jobs| && Describes(record, ch, jobs[k])
    requires end.dest == EndBeat(jobs[k].groups).dest && end.eofe == EndBeat(jobs[k].groups).eofe
    ensures k < |frames| && Names(record, ch, jobs[k].base, frames[k], end)
  {
    hide Dma.FrameWords, Mem.HostWrites, CopyAll, EndBeat;
  }

  lemma EndsNamed(t: Receiver)
    requires t.Valid()
    ensures var jobs, ends := t.path.engine.h.finished, EndBeats(t.path.cutter.taken);
            && |jobs| <= |ends|
            && forall k :: 0 <= k < |jobs| ==>
                 EndBeat(jobs[k].groups).dest == ends[k].dest && EndBeat(jobs[k].groups).eofe == ends[k].eofe
  {
    hide Dma.Agree, Dma.Ledger, RxCutter.CutOk, RxCutter.SameBeats, SourceOk, EndBeats, EndBeat, Served,
         Controller.Valid, Flat;
    var path := t.path;
    path.Opened();
    DoneFirst(path.cutter.cut.groups, path.cutter.sent, path.cutter.transSent, path.engine.r, path.engine.h, path.dataQ,
              path.tranQ);
    EndsTaken(path.cutter.cut, path.cutter.taken, path.engine.h);
  }

  /** The whole receive side, in any run, whenever the engine is between frames, and
      for any memory before: frame k of the link is in memory at the k-th address that
      the driver has freed, nothing else has changed, and the k-th record names the
      frame's channels, error flag, length and address; at most the frame in TR_DONE has
      no record yet. */
  lemma Delivered(t: Receiver, mem: Mem.Memory)
    requires t.Valid() && Pausing(t.path.engine.r.state, t.path.engine.h)
    ensures |t.ctl.freed| == |t.ctl.r.chans|
    ensures var taken, freed, records := t.path.cutter.taken, t.ctl.freed[t.ch], Of(t.ctl.log, t.ch);
            var frames, ends, n := Deframe(taken).pkts, EndBeats(taken), |t.path.engine.h.finished|;
            && n <= |frames| && n <= |freed| && n <= |ends|
            && Mem.HostWrites(mem, t.path.engine.Out().pkts) == CopyAll(mem, freed[..n], frames[..n])
            && |records| <= n <= |records| + (if t.path.engine.r.state == Dma.TrDone then 1 else 0)
            && forall k :: 0 <= k < |records| ==> Names(records[k], t.ch, freed[k], frames[k], ends[k])
  {
    hide Of, Reports, Controller.Valid, ReceivePath.Valid, SourceOk, Deframe, Mem.HostWrites, CopyAll, Describes,
         Pausing, Served, Names, EndBeats, EndBeat;
    Recordings(t);
    EndsNamed(t);
    t.path.Copied(mem);
    var jobs, frames, freed, records := t.path.engine.h.finished, Deframe(t.path.cutter.taken).pkts,
      t.ctl.freed[t.ch], Of(t.ctl.log, t.ch);
    var ends := EndBeats(t.path.cutter.taken);
    assert |jobs| <= |frames|;
    forall k | 0 <= k < |records| ensures Names(records[k], t.ch, freed[k], frames[k], ends[k]) {
      FrameNamed(t.path.engine.Out().pkts, mem, jobs, frames, t.path.engine.r, t.ch, records[k], k, ends[k]);
      assert Bases(jobs)[k] == jobs[k].base;
    }
  }
}
