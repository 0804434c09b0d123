/** The transmit engine: requester, completion collector and serialiser side by
    side, between the host's completions and the 32-bit output. */
module TxPath {
  import opened PcieTypes
  import opened Streams
  import opened Wrappers
  import opened HostReads
  import Req = TxRequester
  import Col = TxCollector
  import Ser = TxSerialiser

  /** Dwords as a 32-bit frame: SOF on the first, EOF on the last once the frame
      is complete. */
  function Tagged(part: seq<Dword>, whole: bool): seq<Ser.OutWord> {
    seq(|part|, i requires 0 <= i < |part| => Ser.OutWord(part[i], i == 0, whole && i == |part| - 1))
  }

  function TaggedFrames(frames: seq<seq<Dword>>): seq<Ser.OutWord>
    decreases |frames|
  {
    if frames == [] then [] else TaggedFrames(frames[..|frames| - 1]) + Tagged(frames[|frames| - 1], true)
  }

  lemma TaggedSnoc(frames: seq<seq<Dword>>, f: seq<Dword>)
    ensures TaggedFrames(frames + [f]) == TaggedFrames(frames) + Tagged(f, true)
  {
    assert (frames + [f])[..|frames|] == frames;
  }

  /** The serialiser adds a beat's dwords to the frame in progress. SOF survives
      because a beat that carries it has one dword. */
  lemma SerialTagged(part: seq<Dword>, b: Beat)
    requires Col.LoneSof(b) && (b.sof <==> part == [])
    ensures Tagged(part, false) + Ser.Serial(b) == Tagged(part + Kept(b), b.last)
  {}

  lemma TaggedNone()
    ensures Tagged([], false) == []
  {}

  lemma Regroup(a: seq<Ser.OutWord>, b: seq<Ser.OutWord>, c: seq<Ser.OutWord>)
    ensures a + b + c == a + (b + c) && a + b + [] == a + b
  {}

  lemma SerialAbsorbed(v: View, b: Beat)
    requires Absorb(v, b).framed && Col.LoneSof(b)
    ensures TaggedFrames(v.pkts) + Tagged(v.part, false) + Ser.Serial(b)
            == TaggedFrames(Absorb(v, b).pkts) + Tagged(Absorb(v, b).part, false)
  {
    hide Ser.Serial, Col.LoneSof, Kept, Tagged, TaggedFrames, PackedBeat;
    SerialTagged(v.part, b);
    TaggedNone();
    Regroup(TaggedFrames(v.pkts), Tagged(v.part, false), Ser.Serial(b));
    if b.last {
      TaggedSnoc(v.pkts, v.part + Kept(b));
      Regroup(TaggedFrames(v.pkts), Tagged(v.part + Kept(b), true), []);
    }
  }

  lemma {:induction false} SerialIsFramed(bs: seq<Beat>)
    requires Deframe(bs).framed && Col.AllLone(bs)
    ensures Ser.SerialAll(bs) == TaggedFrames(Deframe(bs).pkts) + Tagged(Deframe(bs).part, false)
    decreases |bs|
  {
    hide Ser.Serial, Col.LoneSof, Kept, Tagged, PackedBeat;
    if bs == [] {
      TaggedNone();
    } else {
      var pre, b := bs[..|bs| - 1], bs[|bs| - 1];
      assert Deframe(bs) == Absorb(Deframe(pre), b) && Deframe(pre).framed;
      SerialIsFramed(pre);
      SerialAbsorbed(Deframe(pre), b);
    }
  }

  function FetchEach(mem: Memory, jobs: seq<Req.Read>): (r: seq<seq<Dword>>)
    ensures |r| == |jobs|
  {
    seq(|jobs|, k requires 0 <= k < |jobs| => Fetch(mem, jobs[k]))
  }

  lemma {:induction false} FetchAllPrefix(mem: Memory, jobs: seq<Req.Read>, n: nat)
    requires n <= |jobs|
    ensures FetchAll(mem, jobs[..n]) <= FetchAll(mem, jobs)
    decreases |jobs|
  {
    hide Fetch;
    if n < |jobs| {
      var pre := jobs[..|jobs| - 1];
      FetchAllPrefix(mem, pre, n);
      assert pre[..n] == jobs[..n];
    } else {
      assert jobs[..n] == jobs;
    }
  }

  /** Frames as long as the descriptors, whose dwords in a row are what the
      descriptors fetch, are what each descriptor fetches. */
  lemma {:induction false} FramesAreFetched(mem: Memory, frames: seq<seq<Dword>>, jobs: seq<Req.Read>)
    requires |frames| == |jobs| && forall k :: 0 <= k < |frames| ==> |frames[k]| == jobs[k].len
    requires Flat(frames) <= FetchAll(mem, jobs)
    ensures frames == FetchEach(mem, jobs)
    decreases |frames|
  {
    hide Fetch;
    if frames != [] {
      var n := |frames| - 1;
      var a, f := Flat(frames[..n]), frames[n];
      var b, g := FetchAll(mem, jobs[..n]), Fetch(mem, jobs[n]);
      SameLength(mem, frames, jobs);
      SameLength(mem, frames[..n], jobs[..n]);
      assert a + f == b + g;
      assert a == (a + f)[..|a|] && b == (b + g)[..|b|];
      assert f == (a + f)[|a|..] && g == (b + g)[|b|..];
      FramesAreFetched(mem, frames[..n], jobs[..n]);
    }
  }

  lemma {:induction false} SameLength(mem: Memory, frames: seq<seq<Dword>>, jobs: seq<Req.Read>)
    requires |frames| == |jobs| && forall k :: 0 <= k < |frames| ==> |frames[k]| == jobs[k].len
    ensures |Flat(frames)| == |FetchAll(mem, jobs)|
    decreases |frames|
  {
    if frames != [] {
      var n := |frames| - 1;
      SameLength(mem, frames[..n], jobs[..n]);
    }
  }

  lemma ServedGrows(mem: Memory, sent: seq<Beat>, q: Req.Reg)
    ensures Served(mem, sent) <= Served(mem, WithPending(sent, q.txValid, q.tx))
  {
    hide Fetch;
    assert (sent + [q.tx])[..|sent|] == sent;
  }

  /** The length shown to the collector is that of the last descriptor. */
  ghost predicate Announced(q: Req.Reg, h: Req.Hist) {
    && (Req.Busy(q) ==> h.jobs != [] && q.newLength == h.jobs[|h.jobs| - 1].len)
    && (q.start ==> Req.Busy(q) && h.left == q.newLength > 0)
  }

  lemma LengthAnnounced(ids: TlpIds, q: Req.Reg, h: Req.Hist, out: seq<Beat>)
    requires Req.Agree(ids, q, h, out)
    ensures Announced(q, h)
  {
    hide Req.Accounted;
  }

  lemma CollectorCounts(c: Col.Reg, g: Col.Hist, out: View)
    requires Col.Agree(c, g, out)
    ensures Col.Counted(c, g)
  {}

  /** The read TLPs ask for the dwords of the descriptors, but for those of the last
      descriptor that are not asked for yet. */
  lemma AllAsked(mem: Memory, ids: TlpIds, q: Req.Reg, h: Req.Hist, sent: seq<Beat>)
    requires Req.Agree(ids, q, h, WithPending(sent, q.txValid, q.tx))
    ensures Served(mem, sent) <= FetchAll(mem, h.issued) <= FetchAll(mem, h.jobs)
    ensures |FetchAll(mem, h.issued)| + q.reqLength == |FetchAll(mem, h.jobs)|
  {
    hide Fetch, Req.Pieces, Req.Tlps, Req.Throttled, Asked;
    var rest := Req.Read(q.newAddr, q.reqLength);
    ServedGrows(mem, sent, q);
    ServedIsFetched(mem, ids, h.issued);
    FetchConcat(mem, h.issued, Req.Pieces(rest));
    AllPiecesPartition(mem, h.jobs);
    PiecesPartition(mem, rest);
  }

  /** Dwords the host has returned are dwords of the descriptors, and those of
      the last descriptor not asked for yet are still to come. */
  lemma WithinDescriptors(mem: Memory, ids: TlpIds, q: Req.Reg, h: Req.Hist, sent: seq<Beat>, got: seq<Dword>)
    requires Req.Agree(ids, q, h, WithPending(sent, q.txValid, q.tx))
    requires got <= Served(mem, sent)
    ensures got <= FetchAll(mem, h.jobs)
    ensures |got| + q.reqLength <= |FetchAll(mem, h.jobs)|
  {
    hide Req.Agree, FetchAll, Served;
    AllAsked(mem, ids, q, h, sent);
  }

  /** The handshakes between requester and collector, and the frames so far. */
  ghost predicate Linked(q: Req.Reg, h: Req.Hist, c: Col.Reg, g: Col.Hist) {
    && (q.start ==> c.state.Idle? && !c.done)
    && (c.done ==> Req.Busy(q) && !q.start && c.state.Idle? && c.remLength == 0)
    && (c.state.Collect? ==> Req.Busy(q) && !q.start && g.len == q.newLength)
    && (Req.Busy(q) && !q.start ==> (c.state.Collect? || c.done) && c.remLength <= h.left)
    && |g.frames| + (if Req.Busy(q) && !c.done then 1 else 0) == |h.jobs|
    && forall k :: 0 <= k < |g.frames| ==> |g.frames[k]| == h.jobs[k].len
  }

  /** What the descriptors still lack is what the collector still counts, or all of
      the last descriptor in the clock in which it is started. */
  lemma Missing(mem: Memory, q: Req.Reg, h: Req.Hist, c: Col.Reg, g: Col.Hist, out: View)
    requires Linked(q, h, c, g) && Col.Agree(c, g, out) && Announced(q, h)
    ensures |FetchAll(mem, h.jobs)| == |g.input| + if q.start then q.newLength else c.remLength
  {
    hide Fetch;
    var k := |g.frames|;
    if Req.Busy(q) && !c.done {
      SameLength(mem, g.frames, h.jobs[..k]);
      assert h.jobs[..|h.jobs| - 1] == h.jobs[..k];
    } else {
      SameLength(mem, g.frames, h.jobs);
    }
  }

  /** What the collector has not received it has not received of what is asked:
      remLength never falls below the part still to be requested. */
  lemma NeverAhead(mem: Memory, q: Req.Reg, h: Req.Hist, c: Col.Reg, g: Col.Hist, out: View, n: nat)
    requires Linked(q, h, c, g) && Col.Agree(c, g, out) && Announced(q, h)
    requires |g.input| + n + q.reqLength <= |FetchAll(mem, h.jobs)|
    ensures !q.start ==> n + q.reqLength <= c.remLength
  {
    hide Linked, Col.Agree, Announced, FetchAll;
    Missing(mem, q, h, c, g, out);
  }

  /** What the neighbours of the transmit engine have to respect: descriptors are not
      empty, and the completions carry what the host owes for the read TLPs it has
      accepted, cut into beats in any legal way. */
  ghost predicate LegalInput(mem: Memory, sent: seq<Beat>, q: Req.Reg, c: Col.Reg, g: Col.Hist, newAck: bool,
                             job: Req.Read, rxValid: bool, rx: Beat) {
    && (q.state.Idle? && newAck ==> 0 < job.len)
    && (c.state.Collect? && rxValid ==>
          && (c.remLength == g.len ==> rx.sof) && (!rx.sof ==> KeepsPrefix(rx))
          && g.input + Col.Payload(rx) <= Served(mem, sent))
  }

  /** The two machines are good neighbours to each other. */
  lemma Respected(mem: Memory, ids: TlpIds, q: Req.Reg, h: Req.Hist, sent: seq<Beat>, c: Col.Reg, g: Col.Hist,
                  out: View, newAck: bool, job: Req.Read, rxValid: bool, rx: Beat)
    requires Req.Agree(ids, q, h, WithPending(sent, q.txValid, q.tx)) && Col.Agree(c, g, out) && Linked(q, h, c, g)
    requires g.input <= Served(mem, sent) && LegalInput(mem, sent, q, c, g, newAck, job, rxValid, rx)
    ensures Req.LegalInput(q, h.left, newAck, job, c.done, c.remLength)
    ensures Col.LegalInput(c, g.len, q.start, q.newLength, rxValid, rx)
  {
    hide Req.Agree, Col.Agree, Fetch, Served, KeepsPrefix, Col.Payload, Col.Counted;
    var more := c.state.Collect? && rxValid;
    var got := if more then g.input + Col.Payload(rx) else g.input;
    LengthAnnounced(ids, q, h, WithPending(sent, q.txValid, q.tx));
    WithinDescriptors(mem, ids, q, h, sent, got);
    NeverAhead(mem, q, h, c, g, out, |got| - |g.input|);
  }

  /** Fewer than 384 dwords are outstanding: asked for in a read TLP, sent or about to
      be sent, and not received. */
  lemma Outstanding(t: TransmitPath)
    requires t.Valid() && t.legal
    ensures 0 <= |FetchAll(t.mem, t.req.h.issued)| - |t.col.h.input| < 384
  {
    var q, h, c, g, out := t.req.r, t.req.h, t.col.r, t.col.h, Deframe(t.col.Emitted());
    hide Fetch, Served, Deframe, Col.Agree, Col.AllLone, Req.Agree, Ser.Serialiser.Valid;
    LengthAnnounced(t.req.ids, q, h, t.req.Emitted());
    Missing(t.mem, q, h, c, g, out);
    AllAsked(t.mem, t.req.ids, q, h, t.req.sent);
    Bounded(t.req.ids, q, h, t.req.Emitted());
  }

  lemma Bounded(ids: TlpIds, q: Req.Reg, h: Req.Hist, out: seq<Beat>)
    requires Req.Agree(ids, q, h, out)
    ensures Req.Busy(q) ==> h.left - q.reqLength < 384
    ensures q.start ==> q.reqLength == q.newLength
    ensures !Req.Busy(q) ==> q.reqLength == 0
  {
    hide Req.Accounted;
  }

  /** A clock of the collector, in its registers and its history. */
  ghost predicate Collects(legal: bool, c: Col.Reg, g: Col.Hist, start: bool, newLength: nat, rxValid: bool, rx: Beat,
                           c': Col.Reg, g': Col.Hist, rxReady: bool) {
    && (c.state.Idle? ==> g' == if start then g.(len := newLength) else g)
    && (c.state.Collect? ==> (rxReady ==> rxValid) && g' == if rxReady then Col.AfterBeat(g, rx, c'.done) else g)
    && (c'.state.Collect? <==> if c.state.Collect? then !c'.done else start)
    && (legal ==> (c'.done <==> |g'.frames| == |g.frames| + 1))
    && (legal && c'.done ==> |g'.frames[|g'.frames| - 1]| == g.len && c'.remLength == 0)
  }

  lemma CollectsWeaker(l: bool, m: bool, c: Col.Reg, g: Col.Hist, start: bool, newLength: nat, rxValid: bool, rx: Beat,
                       c': Col.Reg, g': Col.Hist, rxReady: bool)
    requires Collects(l, c, g, start, newLength, rxValid, rx, c', g', rxReady) && (m ==> l)
    ensures Collects(m, c, g, start, newLength, rxValid, rx, c', g', rxReady)
  {
    hide Col.AfterBeat;
  }

  /** A clock of the two keeps them in step. */
  lemma StillLinked(q: Req.Reg, h: Req.Hist, c: Col.Reg, g: Col.Hist, q': Req.Reg, h': Req.Hist, c': Col.Reg,
                    g': Col.Hist, job: Req.Read, rxValid: bool, rx: Beat, rxReady: bool)
    requires Linked(q, h, c, g) && Announced(q, h) && Col.Counted(c, g)
    requires Announced(q', h') && Col.Counted(c', g')
    requires q'.start ==> !Req.Busy(q)
    requires Req.Busy(q') <==> q'.start || (Req.Busy(q) && !c.done)
    requires h'.jobs == if q'.start then h.jobs + [job] else h.jobs
    requires h'.left == if q'.start then job.len else if Req.Busy(q) && !q.start then c.remLength else h.left
    requires Collects(true, c, g, q.start, q.newLength, rxValid, rx, c', g', rxReady)
    ensures Linked(q', h', c', g')
  {
    hide Col.Payload;
  }

  /** The dwords received are still a beginning of what the host owes. */
  lemma Received(mem: Memory, sent: seq<Beat>, q: Req.Reg, c: Col.Reg, g: Col.Hist, newAck: bool, job: Req.Read,
                 rxValid: bool, rx: Beat, c': Col.Reg, g': Col.Hist, rxReady: bool)
    requires g.input <= Served(mem, sent) && LegalInput(mem, sent, q, c, g, newAck, job, rxValid, rx)
    requires Collects(true, c, g, q.start, q.newLength, rxValid, rx, c', g', rxReady)
    ensures g'.input <= Served(mem, sent)
  {
    hide Served, Col.Payload, KeepsPrefix;
  }

  /** What a clock of the two means for the memory, once both are known to agree
      with their histories again. */
  lemma StillServed(mem: Memory, ids: TlpIds, q: Req.Reg, h: Req.Hist, sent: seq<Beat>, c: Col.Reg, g: Col.Hist,
                    out: View, q': Req.Reg, h': Req.Hist, sent': seq<Beat>, put': seq<Beat>, c': Col.Reg, g': Col.Hist,
                      out': View,
                    newAck: bool, job: Req.Read, rxValid: bool, rx: Beat, rxReady: bool)
    requires Req.Agree(ids, q, h, WithPending(sent, q.txValid, q.tx)) && Col.Agree(c, g, out) && Linked(q, h, c, g)
    requires g.input <= Served(mem, sent) && LegalInput(mem, sent, q, c, g, newAck, job, rxValid, rx)
    requires Req.Agree(ids, q', h', put') && Col.Agree(c', g', out')
    requires sent' == sent || sent' == WithPending(sent, q.txValid, q.tx)
    requires q'.start ==> q.state.Idle?
    requires Req.Busy(q') <==> q'.start || (Req.Busy(q) && !c.done)
    requires h'.jobs == if q'.start then h.jobs + [job] else h.jobs
    requires h'.left == if q'.start then job.len else if Req.Busy(q) && !q.start then c.remLength else h.left
    requires Collects(true, c, g, q.start, q.newLength, rxValid, rx, c', g', rxReady)
    ensures Linked(q', h', c', g') && g'.input <= Served(mem, sent')
  {
    hide Req.Agree, Col.Agree, Linked, Announced, Col.Counted, Served, LegalInput, Collects;
    LengthAnnounced(ids, q, h, WithPending(sent, q.txValid, q.tx));
    LengthAnnounced(ids, q', h', put');
    CollectorCounts(c, g, out);
    CollectorCounts(c', g', out');
    ServedGrows(mem, sent, q);
    Received(mem, sent, q, c, g, newAck, job, rxValid, rx, c', g', rxReady);
    StillLinked(q, h, c, g, q', h', c', g', job, rxValid, rx, rxReady);
  }

  lemma HandedOver(sent: seq<Beat>, c: Col.Reg, txReady: bool)
    requires txReady ==> c.txValid
    ensures Col.SentAfter(sent, c, txReady) == if txReady then sent + [c.tx] else sent
  {}

  lemma Agreed(req: Req.Requester, col: Col.Collector)
    requires req.Valid() && col.Valid() && req.legal && col.legal
    ensures Req.Agree(req.ids, req.r, req.h, WithPending(req.sent, req.r.txValid, req.r.tx))
    ensures Col.Agree(col.r, col.h, Deframe(col.Emitted()))
  {}

  /** How beats move on through collector and serialiser: the serialiser takes one when
      it owes nothing and its output is free, the collector when it has room. */
  ghost predicate Drains(c: Col.Reg, s: Ser.Reg, rxValid: bool, outReady: bool, c': Col.Reg, s': Ser.Reg,
                         rxReady: bool) {
    var moves := outReady || !s.txValid;
    var taken := c.txValid && Ser.Owed(s) == [] && moves;
    && (c.state.Collect? ==> rxReady == (rxValid && (taken || !c.txValid)))
    && c'.txValid == ((c.txValid && !taken) || (c.state.Collect? && rxReady))
    && if taken then |Ser.Owed(s')| <= 3
       else |Ser.Owed(s')| == |Ser.Owed(s)| - if Ser.Owed(s) != [] && moves then 1 else 0
  }

  class TransmitPath {
    const mem: Memory
    const req: Req.Requester
    const col: Col.Collector
    const ser: Ser.Serialiser
    ghost var legal: bool  // the neighbours have been well-behaved so far

    ghost predicate Valid()
      reads this, req, col, ser
    {
      && req.Valid() && col.Valid() && ser.Valid()
      && ser.taken == col.sent
      && (legal ==> req.legal && col.legal)
      && (legal ==> Linked(req.r, req.h, col.r, col.h) && col.h.input <= Served(mem, req.sent))
    }

    constructor (mem: Memory, ids: TlpIds)
      ensures Valid() && fresh(req) && fresh(col) && fresh(ser) && this.mem == mem && legal && req.r == Req.REG_INIT
    {
      this.mem, legal := mem, true;
      req := new Req.Requester(ids);
      col := new Col.Collector();
      ser := new Ser.Serialiser();
    }

    /** Collector and serialiser in one clock. */
    method ClockStages(start: bool, newLength: Len24, rxValid: bool, rx: Beat, outReady: bool) returns (rxReady: bool)
      requires col.Valid() && ser.Valid() && ser.taken == col.sent
      modifies col, ser
      ensures col.Valid() && ser.Valid() && ser.taken == col.sent
      ensures col.legal == (old(col.legal) && Col.LegalInput(old(col.r), old(col.h.len), start, newLength, rxValid, rx))
      ensures ser.sent == if outReady then Ser.Emit(old(ser.sent), old(ser.r)) else old(ser.sent)
      ensures Collects(col.legal, old(col.r), old(col.h), start, newLength, rxValid, rx, col.r, col.h, rxReady)
      ensures Drains(old(col.r), old(ser.r), rxValid, outReady, col.r, ser.r, rxReady)
    {
      hide Col.Agree, Col.AllLone, Col.AfterBeat, Col.LegalInput, Col.SentAfter, Deframe, Ser.Serial, Ser.Owed,
           Ser.SerialAll, Ser.Emit, WithPending;
      ghost var c := col.r;
      OwesNothing(ser.r);
      var txReady := ser.Clock(col.r.txValid, col.r.tx, outReady);
      HandedOver(col.sent, col.r, txReady);
      rxReady := col.Clock(start, newLength, rxValid, rx, txReady);
    }

    /** One clock of all three machines; the link has the bytes of each dword in the
        opposite order. */
    method Clock(newAck: bool, job: Req.Read, doneAck: bool, reqReady: bool, pause: bool,
                 rxValid: bool, axis: Beat, outReady: bool) returns (rxReady: bool)
      requires Valid() && job.len < 0x100_0000
      modifies this`legal, req, col, ser
      ensures Valid()
      ensures legal == (old(legal) && LegalInput(mem, old(req.sent), old(req.r), old(col.r), old(col.h), newAck, job,
                                                 rxValid, Reversed(axis)))
      ensures ser.sent == if outReady then Ser.Emit(old(ser.sent), old(ser.r)) else old(ser.sent)
      ensures req.sent == if reqReady then old(req.Emitted()) else old(req.sent)
      ensures req.h.jobs == if req.r.start then old(req.h.jobs) + [job] else old(req.h.jobs)
      ensures Collects(legal, old(col.r), old(col.h), old(req.r.start), old(req.r.newLength), rxValid, Reversed(axis),
                       col.r, col.h, rxReady)
      ensures Req.Goes(old(req.r), old(req.r.txValid) && !reqReady, newAck, doneAck, pause, old(col.r.done), req.r)
      ensures legal && old(req.r.state).SendIoReqHdr? ==>
                Req.Read(req.r.newAddr, req.r.reqLength)
                == if old(req.r.txValid) && !reqReady then old(Req.Read(req.r.newAddr, req.r.reqLength))
                   else Req.Rest(old(Req.Read(req.r.newAddr, req.r.reqLength)))
      ensures req.h.left == if req.r.start then job.len
                            else if old(Req.Busy(req.r) && !req.r.start) then old(col.r.remLength) else old(req.h.left)
      ensures Drains(old(col.r), old(ser.r), rxValid, outReady, col.r, ser.r, rxReady)
    {
      hide Req.Goes, Collects, Drains, Served, Fetch, FetchAll, Reversed, Req.Agree, Col.Agree, Ser.SerialAll,
           Ser.Serial, Ser.Owed, Deframe,
           Col.AllLone, Col.Payload, KeepsPrefix, Ser.Emit, Ser.Serialiser.Valid, Req.LegalInput, Col.LegalInput,
           Req.FirstRequest, Linked, Col.AfterBeat, LegalInput, Col.SentAfter, WithPending, Req.Busy,
             Req.Requester.Valid, Col.Collector.Valid;
      var q, c := req.r, col.r;
      ghost var h, g, sent, out := req.h, col.h, req.sent, Deframe(col.Emitted());
      var rx := Reversed(axis);
      legal := legal && LegalInput(mem, req.sent, q, c, col.h, newAck, job, rxValid, rx);
      if legal {
        Agreed(req, col);
        Respected(mem, req.ids, q, h, req.sent, c, g, out, newAck, job, rxValid, rx);
      }
      rxReady := ClockStages(q.start, q.newLength, rxValid, rx, outReady);
      req.Clock(newAck, job, doneAck, reqReady, pause, c.done, c.remLength);
      CollectsWeaker(col.legal, legal, c, g, q.start, q.newLength, rxValid, rx, col.r, col.h, rxReady);
      if legal {
        Agreed(req, col);
        StillServed(mem, req.ids, q, h, sent, c, g, out, req.r, req.h, req.sent, req.Emitted(), col.r, col.h,
                    Deframe(col.Emitted()), newAck, job, rxValid, rx, rxReady);
      }
    }
  }

  lemma OwesNothing(s: Ser.Reg)
    ensures Ser.Owed(s) == [] <==> s.state == Ser.Word0
  {}

  /** Frames as long as the first descriptors and one in progress, together a
      beginning of what the descriptors fetch, are frame by frame what they fetch. */
  lemma PrefixFramed(mem: Memory, frames: seq<seq<Dword>>, got: seq<Dword>, jobs: seq<Req.Read>)
    requires |frames| <= |jobs| && forall k :: 0 <= k < |frames| ==> |frames[k]| == jobs[k].len
    requires |frames| < |jobs| ==> |got| <= jobs[|frames|].len
    requires Flat(frames) + got <= FetchAll(mem, jobs)
    ensures frames == FetchEach(mem, jobs[..|frames|])
    ensures if |frames| == |jobs| then got == [] else got <= Fetch(mem, jobs[|frames|])
  {
    hide Fetch, Flat, FetchAll;
    var n := |frames|;
    var a, b, all := Flat(frames), FetchAll(mem, jobs[..n]), FetchAll(mem, jobs);
    SameLength(mem, frames, jobs[..n]);
    FetchAllPrefix(mem, jobs, n);
    assert a == (a + got)[..|a|] == all[..|a|] == b;
    FramesAreFetched(mem, frames, jobs[..n]);
    if n < |jobs| {
      FetchAllPrefix(mem, jobs, n + 1);
      assert jobs[..n + 1] == jobs[..n] + [jobs[n]];
      FetchSnoc(mem, jobs[..n], jobs[n]);
      Beginning(a, got, Fetch(mem, jobs[n]), all);
    } else {
      assert jobs[..n] == jobs;
    }
  }

  lemma Beginning<T>(a: seq<T>, x: seq<T>, y: seq<T>, all: seq<T>)
    requires a + x <= all && a + y <= all && |x| <= |y|
    ensures x <= y
  {
    assert x == all[|a|..|a| + |x|] && y == all[|a|..|a| + |y|];
  }

  /** Dword for dword: the frames collected are what their descriptors fetch, and
      the frame in progress is the beginning of what the last one fetches. */
  lemma FramesAreDescriptors(mem: Memory, q: Req.Reg, h: Req.Hist, c: Col.Reg, g: Col.Hist, out: View)
    requires Linked(q, h, c, g) && Col.Agree(c, g, out) && Announced(q, h)
    requires g.input <= FetchAll(mem, h.jobs)
    ensures |g.frames| <= |h.jobs| && g.frames == FetchEach(mem, h.jobs[..|g.frames|])
    ensures if |g.frames| == |h.jobs| then g.got == [] else g.got <= Fetch(mem, h.jobs[|g.frames|])
  {
    hide Fetch, FetchEach, FetchAll, Flat;
    PrefixFramed(mem, g.frames, g.got, h.jobs);
  }

  /** Every dword on its way out: sent, in the serialiser, in the collector. */
  ghost function Output(t: TransmitPath): seq<Ser.OutWord>
    reads t.col, t.ser
  {
    Ser.Emit(t.ser.sent, t.ser.r) + Ser.Owed(t.ser.r)
    + (if t.col.r.txValid then Ser.Serial(t.col.r.tx) else [])
  }

  /** The output of any run is the descriptors' dwords in order, SOF on the first
      dword of each and EOF on its last. */
  lemma Reassembled(t: TransmitPath)
    requires t.Valid() && t.legal
    ensures var jobs, n, got := t.req.h.jobs, |t.col.h.frames|, t.col.h.got;
            && n <= |jobs|
            && Output(t) == TaggedFrames(FetchEach(t.mem, jobs[..n])) + Tagged(got, false)
            && if n == |jobs| then got == [] else got <= Fetch(t.mem, jobs[n])
  {
    hide Served, Fetch, FetchEach, FetchAll, Req.Agree, Ser.Serial, Ser.Owed, Ser.Emit, Deframe, Col.AllLone,
         Tagged, TaggedFrames, Linked;
    LengthAnnounced(t.req.ids, t.req.r, t.req.h, t.req.Emitted());
    WithinDescriptors(t.mem, t.req.ids, t.req.r, t.req.h, t.req.sent, t.col.h.input);
    FramesAreDescriptors(t.mem, t.req.r, t.req.h, t.col.r, t.col.h, Deframe(t.col.Emitted()));
    SerialIsFramed(t.col.Emitted());
    Ser.SerialSnoc(t.col.sent, t.col.r.tx);
    Regroup(Ser.Emit(t.ser.sent, t.ser.r), Ser.Owed(t.ser.r), []);
  }
}
