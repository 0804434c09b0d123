/** SsiPcieRxDesc: hands free buffer addresses to the receive engines and records
    the frames they finish, for any number of DMA channels. */
module RxDesc {
  import opened Bits
  import opened PcieTypes
  import opened Streams
  import opened Wrappers
  import RxDma
  import SsiDriver

  type Port = RxDma.DescToPcie

  /** What an engine reports with doneReq. */
  datatype Report = Report(frameErr: bool, eofe: bool, dmaCh: nat, subCh: nat, length: Len24, addr: Addr)

  function ReportOf(p: Port): Report {
    Report(p.doneFrameErr, p.doneTranEofe, p.doneDmaCh, p.doneSubCh, p.doneLength, p.doneAddr)
  }

  /** The engines' side: a request line stays up until it is acknowledged, and the
      report holds still meanwhile. */
  ghost predicate NextPort(p: Port, newAck: bool, doneAck: bool, p': Port) {
    && (p.newReq ==> (p'.newReq <==> !newAck))
    && (p.doneReq ==> (p'.doneReq <==> !doneAck))
    && (p.doneReq && p'.doneReq ==> ReportOf(p') == ReportOf(p))
  }

  /** The receive engine is such a port. */
  lemma EngineIsPort(ids: TlpIds, r: RxDma.Reg, h: RxDma.Hist, out: View, desc: RxDma.DescFromPcie,
                     r': RxDma.Reg, h': RxDma.Hist, out': View)
    requires RxDma.Agree(ids, r, h, out) && RxDma.Agree(ids, r', h', out')
    requires RxDma.Handshake(r) && RxDma.Handshake(r') && RxDma.Answered(r.desc, desc, r'.desc)
    requires r.desc.doneReq ==> h'.finished == h.finished && r'.desc.doneDmaCh == r.desc.doneDmaCh
    ensures NextPort(r.desc, desc.newAck, desc.doneAck, r'.desc)
    ensures r.desc.doneReq ==> h.finished != []
    ensures r.desc.doneReq ==> ReportOf(r.desc).addr == h.finished[|h.finished| - 1].base
    ensures r.desc.doneReq ==> ReportOf(r.desc).length == |RxDma.FrameWords(h.finished[|h.finished| - 1].groups)|
  {
    hide RxDma.Accounted, RxDma.FrameWords, RxDma.Ready, RxDma.Claimed, RxDma.Collecting, RxDma.InFrame;
  }

  /** The registers of one channel, and its FIFO of free addresses. */
  datatype Channel = Channel(newAck: bool, newAddr: Addr, dFifoWr: bool, dFifoRd: bool, doneAck: bool, free: seq<Addr>)

  const CHANNEL_INIT := Channel(false, 0, false, false, false, [])

  /** Ghost account of one channel.
        written  addresses put into the free FIFO
        granted  addresses handed over with newAck
        asked    episodes of newReq so far
        reports  what each episode of doneReq has reported */
  datatype Account = Account(written: seq<Addr>, granted: seq<Addr>, asked: nat, reports: seq<Report>)

  const ACCOUNT_INIT := Account([], [], 0, [])

  /** Addresses handed over and already out of the FIFO. */
  function Popped(c: Channel, a: Account): seq<Addr> {
    if c.newAck && a.granted != [] then a.granted[..|a.granted| - 1] else a.granted
  }

  /** One address for each episode, in the order written, none lost or given twice. */
  ghost predicate Granted(c: Channel, p: Port, a: Account) {
    && (c.newAck <==> c.dFifoRd)
    && (c.newAck ==> p.newReq && c.free != [] && c.newAddr == c.free[0]
                     && a.granted != [] && a.granted[|a.granted| - 1] == c.newAddr)
    && a.written == Popped(c, a) + c.free
    && a.asked == |a.granted| + (if p.newReq && !c.newAck then 1 else 0)
  }

  /** One entry for each report; only an unanswered one is not yet recorded. */
  ghost predicate Recorded(c: Channel, p: Port, a: Account, entries: seq<Report>) {
    && (c.doneAck ==> p.doneReq)
    && (p.doneReq ==> a.reports != [] && a.reports[|a.reports| - 1] == ReportOf(p))
    && a.reports == entries + (if p.doneReq && !c.doneAck then [ReportOf(p)] else [])
  }

  /** New episodes that begin as the ports go from p to p'. */
  function Episodes(a: Account, p: Port, p': Port): Account {
    a.(asked := a.asked + (if p'.newReq && !p.newReq then 1 else 0),
       reports := a.reports + (if p'.doneReq && !p.doneReq then [ReportOf(p')] else []))
  }

  /** One pass of the allocation loop. dout is the head of the free FIFO; an empty
      FIFO shows no particular address. */
  method Allocate(c: Channel, newReq: bool) returns (v: Channel)
    ensures v == c.(newAck := v.newAck, dFifoRd := v.newAck, newAddr := v.newAddr)
    ensures v.newAck <==> !c.newAck && !c.dFifoRd && newReq && c.free != []
    ensures v.newAck ==> v.newAddr == c.free[0]
  {
    v := c.(newAck := false, dFifoRd := false);
    if !c.newAck && !c.dFifoRd {
      if c.free != [] {
        v := v.(newAddr := c.free[0]);
        if newReq {
          v := v.(newAck := true, dFifoRd := true);
        }
      }
    }
  }

  /** The free FIFO takes the read and write strobes of the last clock. */
  function Edge(free: seq<Addr>, rd: bool, wr: bool, din: Addr): seq<Addr> {
    (if rd && free != [] then free[1..] else free) + (if wr then [din] else [])
  }

  function AfterGrant(c: Channel, v: Channel, a: Account, din: Addr): Account {
    a.(written := a.written + (if c.dFifoWr then [din] else []),
       granted := a.granted + (if v.newAck then [v.newAddr] else []))
  }

  lemma GrantKept(c: Channel, p: Port, a: Account, v: Channel, p': Port, din: Addr)
    requires Granted(c, p, a) && NextPort(p, c.newAck, c.doneAck, p')
    requires v.newAck == v.dFifoRd == (!c.newAck && p.newReq && c.free != [])
    requires v.newAck ==> v.newAddr == c.free[0]
    requires v.free == Edge(c.free, c.dFifoRd, c.dFifoWr, din)
    ensures Granted(v, p', Episodes(AfterGrant(c, v, a, din), p, p'))
  {
    var a' := Episodes(AfterGrant(c, v, a, din), p, p');
    if c.newAck {
      assert a.granted == Popped(c, a) + [c.newAddr];
      assert c.free == [c.newAddr] + c.free[1..];
      assert a.written == a.granted + c.free[1..];
    } else if v.newAck {
      assert a'.granted[..|a'.granted| - 1] == a.granted;
    }
  }

  lemma RecordKept(c: Channel, p: Port, a: Account, entries: seq<Report>, v: Channel, p': Port, polled: bool)
    requires Recorded(c, p, a, entries) && NextPort(p, c.newAck, c.doneAck, p')
    requires polled ==> !c.doneAck
    requires v.doneAck == (polled && p.doneReq)
    ensures Recorded(v, p', Episodes(a, p, p'), entries + (if v.doneAck then [ReportOf(p)] else []))
  {}

  /** The two words of a done entry: bits 63:32, and bits 31:0 without the flag. */
  function HighWord(e: Report): Word {
    SsiDriver.PackDesc(e.dmaCh, e.subCh, e.length)
  }

  lemma Even(half: nat)
    ensures 2 * half % 2 == 0
  {}

  function LowWord(e: Report): (w: Word)
    ensures w % 2 == 0
  {
    var half: nat := 2 * e.addr + (if e.frameErr || e.eofe then 1 else 0);
    Even(half);
    2 * half
  }

  /** The register that is being read, if any. */
  datatype Access = NoAccess | Read43 | Read44

  datatype ReadReg = ReadReg(rdDone: bool, rdata: Word, descData: Word, rFifoRd: bool)

  /** The first word read announces the head; the read strobe pops the head that
      was announced, and only after its second word has been read. */
  ghost predicate Announces(r: ReadReg, queue: seq<Report>) {
    && (r.rFifoRd ==> queue != [] && r.rdDone && r.descData % 2 == 0)
    && (r.descData % 2 == 1 ==> queue != [] && r.descData == LowWord(queue[0]) + 1)
  }

  /** The queue once the pending read strobe has acted. */
  function Left(r: ReadReg, queue: seq<Report>): seq<Report> {
    if r.rFifoRd && queue != [] then queue[1..] else queue
  }

  function Pushed(push: Option<Report>): seq<Report> {
    if push.Some? then [push.value] else []
  }

  /** The AXI-Lite read logic for the two registers. */
  method ReadStep(r: ReadReg, queue: seq<Report>, access: Access) returns (v: ReadReg)
    requires Announces(r, queue)
    ensures v.rdDone <==> access != NoAccess
    ensures if access == Read43 && !r.rdDone then
              v.descData == (if queue == [] then 0 else LowWord(queue[0]) + 1)
              && v.rdata == (if queue == [] then 0 else HighWord(queue[0]))
            else if access == Read44 && !r.rdDone then v.rdata == r.descData && v.descData % 2 == 0
            else v.descData == r.descData && (access != NoAccess ==> v.rdata == r.rdata)
    ensures v.rFifoRd <==> access == Read44 && !r.rdDone && r.descData % 2 == 1
    ensures Announces(v, Left(r, queue))
  {
    hide HighWord, LowWord;
    v := r.(rFifoRd := false, rdDone := access != NoAccess);
    match access {
      case NoAccess =>
      case Read43 =>
        if !r.rdDone {
          if queue != [] {
            v := v.(rdata := HighWord(queue[0]), descData := LowWord(queue[0]) + 1);
          } else {
            v := v.(rdata := 0, descData := 0);
          }
        }
      case Read44 =>
        if !r.rdDone {
          v := v.(rdata := r.descData);
          if r.descData % 2 == 1 {
            v := v.(descData := r.descData - 1, rFifoRd := true);
          }
        }
    }
  }

  lemma PushKeeps(r: ReadReg, queue: seq<Report>, push: Option<Report>)
    requires Announces(r, queue)
    ensures Announces(r, queue + Pushed(push))
    ensures Left(r, queue + Pushed(push)) == Left(r, queue) + Pushed(push)
  {}

  /** The done FIFO behind the registers 0x43 and 0x44. */
  class DoneFifo {
    var r: ReadReg
    var queue: seq<Report>
    ghost var pushed: seq<Report>   // everything ever recorded
    ghost var taken: seq<Report>    // entries whose second word has been read

    ghost predicate Valid()
      reads this
    {
      Announces(r, queue) && pushed == taken + Left(r, queue)
    }

    constructor ()
      ensures Valid() && queue == [] && pushed == [] && taken == [] && r == ReadReg(false, 0, 0, false)
    {
      r, queue, pushed, taken := ReadReg(false, 0, 0, false), [], [], [];
    }

    /** One clock. A register access lasts one or more clocks and is separated from
        the next by a clock without; only its first clock has an effect. `push` is
        the write strobe of the last clock. */
    method Clock(push: Option<Report>, access: Access)
      requires Valid()
      modifies this
      ensures Valid()
      ensures pushed == old(pushed) + Pushed(push)
      ensures queue == Left(old(r), old(queue)) + Pushed(push)
      ensures r.rdDone <==> access != NoAccess
      ensures if access == Read43 && !old(r.rdDone) then
                r.descData == (if old(queue) == [] then 0 else LowWord(old(queue[0])) + 1)
                && r.rdata == (if old(queue) == [] then 0 else HighWord(old(queue[0])))
              else if access == Read44 && !old(r.rdDone) then r.rdata == old(r.descData) && r.descData % 2 == 0
              else r.descData == old(r.descData) && (access != NoAccess ==> r.rdata == old(r.rdata))
      ensures r.rFifoRd <==> access == Read44 && !old(r.rdDone) && old(r.descData) % 2 == 1
      ensures taken == if r.rFifoRd then old(taken) + [old(queue[0])] else old(taken)
    {
      hide HighWord, LowWord;
      var v := ReadStep(r, queue, access);
      var next := if r.rFifoRd then queue[1..] else queue;
      PushKeeps(v, next, push);
      if v.rFifoRd {
        assert queue == [queue[0]] + queue[1..];
        taken := taken + [queue[0]];
      }
      r, queue, pushed := v, next + Pushed(push), pushed + Pushed(push);
    }
  }

  /** The fields the driver unpacks are the fields the hardware packed. */
  lemma WordsUnpack(e: Report)
    requires e.dmaCh < 0x10 && e.subCh < 0x10
    ensures SsiDriver.UnpackInfo(HighWord(e), LowWord(e) + 1)
            == SsiDriver.Info(e.dmaCh, e.subCh, e.length, if e.frameErr || e.eofe then 1 else 0)
    ensures (LowWord(e) + 1) / 4 * 4 == e.addr * 4
  {
    var err := if e.frameErr || e.eofe then 1 else 0;
    var a: SsiDriver.BusAddr := e.addr * 4;
    SsiDriver.DescRoundTrip(SsiDriver.Info(e.dmaCh, e.subCh, e.length, err), a);
    assert SsiDriver.PackAddr(a, err) == LowWord(e) + 1;
  }

  /** The driver's paired reads take the oldest entry out, once, or find none;
      frames may be recorded in any of the clocks meanwhile. */
  method ReadPair(f: DoneFifo, p0: Option<Report>, p1: Option<Report>, p2: Option<Report>, p3: Option<Report>)
    returns (a: Word, b: Word)
    requires f.Valid() && !f.r.rdDone && !f.r.rFifoRd
    modifies f
    ensures f.Valid() && !f.r.rdDone && !f.r.rFifoRd
    ensures f.pushed == old(f.pushed) + Pushed(p0) + Pushed(p1) + Pushed(p2) + Pushed(p3)
    ensures if old(f.queue) == [] then b % 2 == 0 && f.taken == old(f.taken)
            else
              var e := old(f.queue[0]);
              a == HighWord(e) && b == LowWord(e) + 1 && f.taken == old(f.taken) + [e]
  {
    hide HighWord, LowWord;
    f.Clock(p0, Read43);
    a := f.r.rdata;
    f.Clock(p1, NoAccess);
    f.Clock(p2, Read44);
    b := f.r.rdata;
    f.Clock(p3, NoAccess);
  }

  function WordsOf(es: seq<Report>): (r: seq<(Word, Word)>)
    ensures |r| == |es|
  {
    seq(|es|, i requires 0 <= i < |es| => (HighWord(es[i]), LowWord(es[i]) + 1))
  }

  lemma WordsSnoc(es: seq<Report>, e: Report)
    ensures WordsOf(es + [e]) == WordsOf(es) + [(HighWord(e), LowWord(e) + 1)]
  {}

  /** Frames recorded in the four clocks of a paired read. */
  type Meanwhile = Quad<Option<Report>>

  /** The interrupt loop: pairs are read until one comes without the valid flag. It
      reads, in order, everything that was queued, and what is recorded during its
      first reads; the rest is still queued when it stops. */
  method Drain(f: DoneFifo, late: seq<Meanwhile>) returns (words: seq<(Word, Word)>)
    requires f.Valid() && !f.r.rdDone && !f.r.rFifoRd
    modifies f
    ensures f.Valid() && !f.r.rdDone && !f.r.rFifoRd && f.pushed == f.taken + f.queue
    ensures old(f.pushed) <= f.taken && old(f.pushed) <= f.pushed
    ensures |old(f.taken)| <= |f.taken| && words == WordsOf(f.taken[|old(f.taken)|..])
    ensures late == [] ==> f.queue == []
  {
    hide HighWord, LowWord, WordsOf, DoneFifo.Valid;
    words := [];
    NoWords();
    NothingLost(f);
    var more := true;
    var n := 0;
    while more
      invariant f.Valid() && !f.r.rdDone && !f.r.rFifoRd && n <= |late| && f.pushed == f.taken + f.queue
      invariant old(f.taken) <= f.taken && old(f.pushed) <= f.pushed
      invariant words == WordsOf(f.taken[|old(f.taken)|..])
      invariant !more ==> |old(f.pushed)| <= |f.taken| && (late == [] ==> f.queue == [])
      decreases |late| - n, |f.queue|, more
    {
      ghost var was, k := f.taken, |old(f.taken)|;
      var p := if n < |late| then late[n] else Quad(None, None, None, None);
      var a, b := ReadPair(f, p.w0, p.w1, p.w2, p.w3);
      NothingLost(f);
      n := if n < |late| then n + 1 else n;
      more := b % 2 == 1;
      if more {
        words := words + [(a, b)];
        WordsSnoc(was[k..], f.taken[|was|]);
        assert f.taken[k..] == was[k..] + [f.taken[|was|]];
      }
    }
  }

  lemma NothingLost(f: DoneFifo)
    requires f.Valid() && !f.r.rFifoRd
    ensures f.pushed == f.taken + f.queue
  {}

  lemma NoWords()
    ensures WordsOf([]) == []
  {}

  /** A record in the done FIFO, with the channel whose report it is. */
  datatype Rec = Rec(ch: nat, report: Report)

  function Reports(log: seq<Rec>): (r: seq<Report>)
    ensures |r| == |log|
  {
    seq(|log|, i requires 0 <= i < |log| => log[i].report)
  }

  /** The records of one channel. */
  function Of(log: seq<Rec>, ch: nat): seq<Report>
    decreases |log|
  {
    if log == [] then []
    else
      var l := log[|log| - 1];
      Of(log[..|log| - 1], ch) + (if l.ch == ch then [l.report] else [])
  }

  lemma LogSnoc(log: seq<Rec>, l: Rec, ch: nat)
    ensures Of(log + [l], ch) == Of(log, ch) + (if l.ch == ch then [l.report] else [])
    ensures Reports(log + [l]) == Reports(log) + [l.report]
  {
    assert (log + [l])[..|log|] == log;
  }

  /** Everything that holds of one channel between clocks. */
  ghost predicate ChannelOk(c: Channel, p: Port, a: Account, entries: seq<Report>, rFifoWr: bool) {
    Granted(c, p, a) && Recorded(c, p, a, entries) && (c.doneAck ==> rFifoWr)
  }

  /** What a clock answers on one channel: an address at once if one is free, a record
      when it is the channel's turn; `wr` says that the driver writes an address, `din`
      is the one that it wrote last. */
  ghost predicate Answers(c: Channel, p: Port, v: Channel, wr: bool, din: Addr, polled: bool) {
    && (v.newAck <==> !c.newAck && p.newReq && c.free != [])
    && (v.newAck ==> v.newAddr == c.free[0])
    && (v.doneAck <==> polled && p.doneReq)
    && (v.dFifoWr <==> wr) && (c.dFifoWr ==> v.free != [] && v.free[|v.free| - 1] == din)
  }

  /** One channel's part of a clock: allocation, the strobes, the free FIFO. */
  method ClockChannel(c: Channel, p: Port, wr: bool, din: Addr, polled: bool, ghost rFifoWr: bool,
                      ghost p': Port, ghost a: Account, ghost entries: seq<Report>)
    returns (v: Channel)
    requires ChannelOk(c, p, a, entries, rFifoWr) && NextPort(p, c.newAck, c.doneAck, p')
    requires polled ==> !rFifoWr
    ensures Answers(c, p, v, wr, din, polled)
    ensures Granted(v, p', Episodes(AfterGrant(c, v, a, din), p, p'))
    ensures Recorded(v, p', Episodes(AfterGrant(c, v, a, din), p, p'),
                     entries + (if v.doneAck then [ReportOf(p)] else []))
  {
    v := Allocate(c, p.newReq);
    v := v.(dFifoWr := wr, doneAck := polled && p.doneReq, free := Edge(c.free, c.dFifoRd, c.dFifoWr, din));
    GrantKept(c, p, a, v, p', din);
    RecordKept(c, p, AfterGrant(c, v, a, din), entries, v, p', polled);
  }

  /** The channels' lines and accounts fit their records. */
  ghost predicate AllOk(chans: seq<Channel>, ports: seq<Port>, acc: seq<Account>, log: seq<Rec>, rFifoWr: bool) {
    && |chans| == |ports| == |acc|
    && forall i :: 0 <= i < |chans| ==> ChannelOk(chans[i], ports[i], acc[i], Of(log, i), rFifoWr)
  }

  /** The record, if any, that a clock makes. */
  function Polled(log: seq<Rec>, ports: seq<Port>, poll: bool, doneCnt: nat): seq<Rec>
    requires doneCnt < |ports|
  {
    if poll && ports[doneCnt].doneReq then log + [Rec(doneCnt, ReportOf(ports[doneCnt]))] else log
  }

  lemma PolledOf(log: seq<Rec>, ports: seq<Port>, poll: bool, doneCnt: nat, i: nat)
    requires doneCnt < |ports| && i < |ports|
    ensures Of(Polled(log, ports, poll, doneCnt), i)
            == Of(log, i) + (if poll && i == doneCnt && ports[i].doneReq then [ReportOf(ports[i])] else [])
    ensures Reports(Polled(log, ports, poll, doneCnt))
            == Reports(log) + (if poll && ports[doneCnt].doneReq then [ReportOf(ports[doneCnt])] else [])
  {
    LogSnoc(log, Rec(doneCnt, ReportOf(ports[doneCnt])), i);
  }

  /** The record made goes to the FIFO one clock later. */
  lemma RecordsPushed(log: seq<Rec>, pushed: seq<Report>, wr: bool, din: Report, ports: seq<Port>, poll: bool,
                      doneCnt: nat)
    requires doneCnt < |ports| && Reports(log) == pushed + (if wr then [din] else [])
    ensures Reports(Polled(log, ports, poll, doneCnt))
            == pushed + Pushed(if wr then Some(din) else None)
               + (if poll && ports[doneCnt].doneReq then [ReportOf(ports[doneCnt])] else [])
  {
    hide Reports, Polled, ReportOf;
    PolledOf(log, ports, poll, doneCnt, 0);
  }

  /** Every account has grown by the channel's part of a clock. */
  ghost predicate Grown(chans: seq<Channel>, vs: seq<Channel>, acc: seq<Account>, as': seq<Account>, din: Addr,
                        ports: seq<Port>, next: seq<Port>) {
    && |vs| == |as'| == |chans| == |acc| == |ports| == |next|
    && forall i :: 0 <= i < |vs| ==> as'[i] == Episodes(AfterGrant(chans[i], vs[i], acc[i], din), ports[i], next[i])
  }

  predicate WritesTo(write: Option<(nat, Addr)>, i: nat) {
    write.Some? && write.value.0 == i
  }

  ghost predicate AllAnswer(chans: seq<Channel>, ports: seq<Port>, vs: seq<Channel>, write: Option<(nat, Addr)>,
                            din: Addr, poll: bool, doneCnt: nat) {
    && |chans| == |ports| == |vs|
    && forall i :: 0 <= i < |vs| ==> Answers(chans[i], ports[i], vs[i], WritesTo(write, i), din, poll && i == doneCnt)
  }

  /** The loop over the channels. */
  method ClockChannels(chans: seq<Channel>, ports: seq<Port>, write: Option<(nat, Addr)>, din: Addr, poll: bool,
                       doneCnt: nat, ghost rFifoWr: bool, ghost next: seq<Port>, ghost acc: seq<Account>,
                         ghost log: seq<Rec>)
    returns (vs: seq<Channel>, ghost as': seq<Account>)
    requires AllOk(chans, ports, acc, log, rFifoWr) && |next| == |ports| && doneCnt < |ports| && (poll ==> !rFifoWr)
    requires forall i :: 0 <= i < |ports| ==> NextPort(ports[i], chans[i].newAck, chans[i].doneAck, next[i])
    ensures AllOk(vs, next, as', Polled(log, ports, poll, doneCnt), poll && ports[doneCnt].doneReq)
    ensures |vs| == |as'| == |chans| && Grown(chans, vs, acc, as', din, ports, next)
    ensures AllAnswer(chans, ports, vs, write, din, poll, doneCnt)
  {
    hide Granted, Answers, WritesTo, Recorded, NextPort, ReportOf, Of, Polled, Episodes, AfterGrant;
    vs, as' := [], [];
    for i := 0 to |chans|
      invariant |vs| == |as'| == i
      invariant forall k :: 0 <= k < i ==>
                  ChannelOk(vs[k], next[k], as'[k], Of(Polled(log, ports, poll, doneCnt), k),
                            poll && ports[doneCnt].doneReq)
      invariant forall k :: 0 <= k < i ==>
                  as'[k] == Episodes(AfterGrant(chans[k], vs[k], acc[k], din), ports[k], next[k])
      invariant forall k :: 0 <= k < i ==>
                  Answers(chans[k], ports[k], vs[k], WritesTo(write, k), din, poll && k == doneCnt)
    {
      AnswerGives(chans[i], ports[i], WritesTo(write, i), din, poll && i == doneCnt);
      var v := ClockChannel(chans[i], ports[i], WritesTo(write, i), din, poll && i == doneCnt, rFifoWr, next[i], acc[i],
                            Of(log, i));
      PolledOf(log, ports, poll, doneCnt, i);
      vs, as' := vs + [v], as' + [Episodes(AfterGrant(chans[i], v, acc[i], din), ports[i], next[i])];
    }
  }

  lemma AnswerGives(c: Channel, p: Port, wr: bool, din: Addr, polled: bool)
    ensures forall v: Channel :: Answers(c, p, v, wr, din, polled) ==> v.doneAck == (polled && p.doneReq)
  {}

  /** What the driver has freed: written to the channel's FIFO, or about to be. */
  ghost predicate FreedOk(freed: seq<seq<Addr>>, chans: seq<Channel>, acc: seq<Account>, din: Addr) {
    && |freed| == |chans| == |acc|
    && forall i :: 0 <= i < |freed| ==> freed[i] == acc[i].written + (if chans[i].dFifoWr then [din] else [])
  }

  /** The driver's write joins the list of its channel and of no other. */
  ghost predicate Appends(freed: seq<seq<Addr>>, write: Option<(nat, Addr)>, freed': seq<seq<Addr>>) {
    && |freed'| == |freed|
    && forall i :: 0 <= i < |freed| ==>
         freed'[i] == freed[i] + (if write.Some? && write.value.0 == i then [write.value.1] else [])
  }

  function WithWrite(freed: seq<seq<Addr>>, write: Option<(nat, Addr)>): (freed': seq<seq<Addr>>)
    ensures Appends(freed, write, freed')
  {
    if write.Some? && write.value.0 < |freed| then
      freed[write.value.0 := freed[write.value.0] + [write.value.1]]
    else freed
  }

  lemma FreedKept(freed: seq<seq<Addr>>, chans: seq<Channel>, acc: seq<Account>, din: Addr, ports: seq<Port>,
                  next: seq<Port>, write: Option<(nat, Addr)>, poll: bool, doneCnt: nat, vs: seq<Channel>,
                  as': seq<Account>, freed': seq<seq<Addr>>, din': Addr)
    requires FreedOk(freed, chans, acc, din) && AllAnswer(chans, ports, vs, write, din, poll, doneCnt)
    requires Grown(chans, vs, acc, as', din, ports, next)
    requires Appends(freed, write, freed')
    requires write.Some? && write.value.0 < |chans| ==> din' == write.value.1
    ensures FreedOk(freed', vs, as', din')
  {
    forall i | 0 <= i < |freed|
      ensures freed'[i] == as'[i].written + (if vs[i].dFifoWr then [din'] else [])
    {
      assert Answers(chans[i], ports[i], vs[i], WritesTo(write, i), din, poll && i == doneCnt);
      assert as'[i] == Episodes(AfterGrant(chans[i], vs[i], acc[i], din), ports[i], next[i]);
      assert freed[i] + [] == freed[i];
    }
  }

  /** The registers beside the two read registers. */
  datatype Reg = Reg(chans: seq<Channel>, dFifoDin: Addr, doneCnt: nat, rFifoWr: bool, rFifoDin: Report)

  /** The registers fit the lines shown and the accounts. */
  ghost predicate Agree(r: Reg, shown: seq<Port>, freed: seq<seq<Addr>>, acc: seq<Account>, log: seq<Rec>,
                        pushed: seq<Report>) {
    && |r.chans| == |shown| == |acc| && r.doneCnt < |r.chans|
    && AllOk(r.chans, shown, acc, log, r.rFifoWr) && FreedOk(freed, r.chans, acc, r.dFifoDin)
    && Reports(log) == pushed + (if r.rFifoWr then [r.rFifoDin] else [])
  }

  /** Polling goes on to the next channel. */
  function NextCnt(n: nat, doneCnt: nat, poll: bool): nat {
    if !poll then doneCnt else if doneCnt + 1 == n then 0 else doneCnt + 1
  }

  /** The combinatorial process, but for the two read registers. */
  method Step(r: Reg, ports: seq<Port>, rFifoAFull: bool, write: Option<(nat, Addr)>, ghost next: seq<Port>,
              ghost freed: seq<seq<Addr>>, ghost acc: seq<Account>, ghost log: seq<Rec>, ghost pushed: seq<Report>)
    returns (v: Reg, ghost freed': seq<seq<Addr>>, ghost as': seq<Account>)
    requires Agree(r, ports, freed, acc, log, pushed) && |next| == |ports|
    requires forall i :: 0 <= i < |ports| ==> NextPort(ports[i], r.chans[i].newAck, r.chans[i].doneAck, next[i])
    ensures |v.chans| == |r.chans| && Appends(freed, write, freed')
    ensures var poll := !rFifoAFull && !r.rFifoWr;
            && r.doneCnt < |ports|
            && v.doneCnt == NextCnt(|ports|, r.doneCnt, poll) && v.rFifoWr == (poll && ports[r.doneCnt].doneReq)
            && AllAnswer(r.chans, ports, v.chans, write, r.dFifoDin, poll, r.doneCnt)
            && Agree(v, next, freed', as', Polled(log, ports, poll, r.doneCnt),
                     pushed + Pushed(if r.rFifoWr then Some(r.rFifoDin) else None))
    ensures Grown(r.chans, v.chans, acc, as', r.dFifoDin, ports, next)
  {
    hide AllOk, Grown, NextPort, ReportOf, Episodes, AfterGrant, Polled, Reports, Pushed, FreedOk, Appends, AllAnswer;
    var poll := !rFifoAFull && !r.rFifoWr;
    var record := poll && ports[r.doneCnt].doneReq;
    var vs;
    vs, as' := ClockChannels(r.chans, ports, write, r.dFifoDin, poll, r.doneCnt, r.rFifoWr, next, acc, log);
    RecordsPushed(log, pushed, r.rFifoWr, r.rFifoDin, ports, poll, r.doneCnt);
    v := r.(chans := vs, rFifoWr := record);
    if record {
      v := v.(rFifoDin := ReportOf(ports[r.doneCnt]));
    }
    if poll {
      v := v.(doneCnt := if r.doneCnt == |r.chans| - 1 then 0 else r.doneCnt + 1);
    }
    if write.Some? && write.value.0 < |r.chans| {
      v := v.(dFifoDin := write.value.1);
    }
    freed' := WithWrite(freed, write);
    FreedKept(freed, r.chans, acc, r.dFifoDin, ports, next, write, poll, r.doneCnt, vs, as', freed', v.dFifoDin);
  }

  class Controller {
    const fifo: DoneFifo
    var r: Reg
    ghost var shown: seq<Port>       // the engines' lines in this clock
    ghost var freed: seq<seq<Addr>>  // what the driver has written, channel by channel
    ghost var acc: seq<Account>
    ghost var log: seq<Rec>

    ghost predicate Valid()
      reads this, fifo
    {
      fifo.Valid() && Agree(r, shown, freed, acc, log, fifo.pushed)
    }

    constructor (dmaSize: nat, ghost ports: seq<Port>)
      requires 0 < dmaSize == |ports| && forall i :: 0 <= i < |ports| ==> !ports[i].newReq && !ports[i].doneReq
      ensures Valid() && fresh(fifo) && shown == ports && |acc| == dmaSize && log == []
      ensures |r.chans| == dmaSize
      ensures forall i :: 0 <= i < dmaSize ==> acc[i] == ACCOUNT_INIT && r.chans[i] == CHANNEL_INIT
      ensures |freed| == dmaSize && forall i :: 0 <= i < dmaSize ==> freed[i] == []
    {
      fifo := new DoneFifo();
      r := Reg(seq(dmaSize, i => CHANNEL_INIT), 0, 0, false, Report(false, false, 0, 0, 0, 0));
      shown, acc, log := ports, seq(dmaSize, i => ACCOUNT_INIT), [];
      freed := seq(dmaSize, i => []);
    }

    /** One clock. ports are the engines' lines now, next those of the following
        clock; write is a free address the driver writes for a channel. */
    method Clock(ports: seq<Port>, ghost next: seq<Port>, rFifoAFull: bool, write: Option<(nat, Addr)>, access: Access)
      requires Valid() && ports == shown && |next| == |ports|
      requires forall i :: 0 <= i < |ports| ==> NextPort(ports[i], r.chans[i].newAck, r.chans[i].doneAck, next[i])
      modifies this, fifo
      ensures Valid() && shown == next && |r.chans| == old(|r.chans|)
      ensures Appends(old(freed), write, freed)
      ensures var poll := !rFifoAFull && !old(r.rFifoWr);
              && r.doneCnt == NextCnt(|ports|, old(r.doneCnt), poll)
              && r.rFifoWr == (poll && ports[old(r.doneCnt)].doneReq)
              && AllAnswer(old(r.chans), ports, r.chans, write, old(r.dFifoDin), poll, old(r.doneCnt))
              && log == Polled(old(log), ports, poll, old(r.doneCnt))
      ensures Grown(old(r.chans), r.chans, old(acc), acc, old(r.dFifoDin), ports, next)
    {
      hide AllOk, FreedOk, Grown, NextPort, Polled, Reports, DoneFifo.Valid, Left, HighWord, LowWord, Pushed, Appends,
           AllAnswer, NextCnt;
      var v;
      ghost var freed', as';
      v, freed', as' := Step(r, ports, rFifoAFull, write, next, freed, acc, log, fifo.pushed);
      ghost var log' := Polled(log, ports, !rFifoAFull && !r.rFifoWr, r.doneCnt);
      fifo.Clock(if r.rFifoWr then Some(r.rFifoDin) else None, access);
      r, shown, freed, acc, log := v, next, freed', as', log';
    }
  }

  lemma FreedOf(d: Controller, i: nat)
    requires d.Valid() && i < |d.r.chans|
    ensures |d.freed| == |d.acc| == |d.r.chans|
    ensures d.freed[i] == d.acc[i].written + (if d.r.chans[i].dFifoWr then [d.r.dFifoDin] else [])
  {
    hide AllOk, Reports, DoneFifo.Valid;
  }

  /** Exactly once: on every channel the k-th episode of newReq receives the k-th
      address that the driver has written, each episode of doneReq is recorded by one
      entry, and the driver has read the oldest of all records. */
  lemma ExactlyOnce(d: Controller, i: nat)
    requires d.Valid() && i < |d.r.chans|
    ensures var a, p, recorded := d.acc[i], d.shown[i], Of(d.log, i);
            && |d.freed| == |d.acc| && a.granted <= d.freed[i]
            && a.asked == |a.granted| + (if p.newReq && !d.r.chans[i].newAck then 1 else 0)
            && recorded <= a.reports && (!p.doneReq ==> recorded == a.reports)
            && |a.reports| <= |recorded| + 1
    ensures d.fifo.taken <= Reports(d.log)
  {
    hide Of, Reports, Announces;
    FreedOf(d, i);
    var c, a := d.r.chans[i], d.acc[i];
    assert ChannelOk(c, d.shown[i], a, Of(d.log, i), d.r.rFifoWr);
    if c.newAck {
      assert a.granted == Popped(c, a) + [c.free[0]];
    }
  }
}
