/** The transmit engine does not stop: how many clocks in which nobody holds it up a
    descriptor takes. */
module TxProgress {
  import opened PcieTypes
  import opened Streams
  import opened Wrappers
  import opened HostReads
  import opened TxPath
  import Req = TxRequester
  import Col = TxCollector
  import Ser = TxSerialiser

  // ---- What is left to do ----

  /** Read TLPs for so many dwords. */
  function Count(len: nat): nat {
    (len + 255) / 256
  }

  lemma {:induction false} CountIsPieces(q: Req.Read)
    ensures |Req.Pieces(q)| == Count(q.len)
    decreases q.len
  {
    hide Add30;
    if q.len > 0 {
      CountIsPieces(Req.Rest(q));
      CountRest(q);
    }
  }

  lemma CountRest(q: Req.Read)
    requires q.len > 0
    ensures Count(q.len) == 1 + Count(Req.Rest(q).len)
  {
    hide Add30;
  }

  /** The requester's clocks: 21 for each read TLP, less those that have passed. */
  function Asking(q: Req.Reg): int {
    match q.state
    case CheckThresh => 21 * Count(q.reqLength)
    case SendIoReqHdr => 21 * Count(q.reqLength) - 1
    case CalcPipelineDly => 21 * Count(q.reqLength) + 17 - q.cnt
    case CheckLength => 21 * Count(q.reqLength) + 1
    case Idle => 0
    case TrDone => 0
  }

  /** A read TLP is in the output register. */
  function Held(q: Req.Reg): nat {
    if q.txValid then 1 else 0
  }

  /** The requester looks at a difference that is out of date. */
  function Lagging(q: Req.Reg, h: Req.Hist, c: Col.Reg): nat {
    if q.state.CheckThresh? && !q.start && h.left != c.remLength then 1 else 0
  }

  /** Dwords between the collector and the output. */
  function Stage(c: Col.Reg, s: Ser.Reg): nat {
    |Ser.Owed(s)| + (if c.txValid then 4 else 0)
  }

  /** Dwords that have not come yet. */
  function Missed(q: Req.Reg, c: Col.Reg): nat {
    if q.start then q.newLength else c.remLength
  }

  function Left(q: Req.Reg, h: Req.Hist, c: Col.Reg, s: Ser.Reg): int {
    9 * Missed(q, c) + Asking(q) + Held(q) + Lagging(q, h, c) + Stage(c, s)
  }

  // ---- The machines one by one ----

  /** The requester waits for completions. */
  predicate Blocked(q: Req.Reg) {
    || (q.state.CheckThresh? && q.pendLength >= Req.MAX_READ / 2)
    || (q.state.CheckLength? && q.reqLength == 0)
  }

  lemma RequesterAdvances(q: Req.Reg, left: nat, jobs: seq<Req.Read>, left': nat, jobs': seq<Req.Read>, held: bool,
                          doneAck: bool, pause: bool, q': Req.Reg)
    requires Req.Steady(q, left, jobs) && Req.Steady(q', left', jobs') && Req.Busy(q) && (held ==> q.txValid)
    requires Req.Goes(q, held, false, doneAck, pause, false, q')
    requires q.state.SendIoReqHdr? ==>
               Req.Read(q'.newAddr, q'.reqLength)
               == if held then Req.Read(q.newAddr, q.reqLength) else Req.Rest(Req.Read(q.newAddr, q.reqLength))
    ensures Asking(q') + Held(q') <= Asking(q) + Held(q)
    ensures !held && !pause && (!Blocked(q) || q.txValid) ==> Asking(q') + Held(q') < Asking(q) + Held(q)
  {
    hide Count, Add30;
    if q.state.SendIoReqHdr? {
      CountRest(Req.Read(q.newAddr, q.reqLength));
    }
  }

  lemma StagesAdvance(c: Col.Reg, s: Ser.Reg, rxValid: bool, outReady: bool, c': Col.Reg, s': Ser.Reg, rxReady: bool)
    requires Drains(c, s, rxValid, outReady, c', s', rxReady)
    ensures Stage(c', s') <= Stage(c, s) + if c.state.Collect? && rxReady then 7 else 0
    ensures outReady && !(c.state.Collect? && rxReady) ==> Stage(c, s) == 0 || Stage(c', s') < Stage(c, s)
    ensures outReady && c.state.Collect? && rxValid && Stage(c, s) == 0 ==> rxReady
  {
    hide Ser.Owed;
  }

  lemma PayloadIsSome(rx: Beat)
    requires !rx.sof ==> KeepsPrefix(rx)
    ensures |Col.Payload(rx)| >= 1
  {}

  /** Every dword received is one missed less. */
  lemma Counts(mem: Memory, q: Req.Reg, h: Req.Hist, c: Col.Reg, g: Col.Hist, out: View, q': Req.Reg, h': Req.Hist,
               c': Col.Reg, g': Col.Hist, out': View, start: bool, newLength: nat, rxValid: bool, rx: Beat,
               rxReady: bool)
    requires Linked(q, h, c, g) && Col.Agree(c, g, out) && Announced(q, h)
    requires Linked(q', h', c', g') && Col.Agree(c', g', out') && Announced(q', h') && h'.jobs == h.jobs
    requires Collects(true, c, g, start, newLength, rxValid, rx, c', g', rxReady)
    requires c.state.Collect? && rxReady ==> !rx.sof ==> KeepsPrefix(rx)
    ensures Missed(q', c') == Missed(q, c) - if c.state.Collect? && rxReady then |Col.Payload(rx)| else 0
    ensures c.state.Collect? && rxReady ==> Missed(q', c') < Missed(q, c)
  {
    hide Linked, Col.Agree, Announced, FetchAll, Col.Payload, KeepsPrefix;
    Missing(mem, q, h, c, g, out);
    Missing(mem, q', h', c', g', out');
    if c.state.Collect? && rxReady {
      PayloadIsSome(rx);
    }
  }

  /** If the host owes nothing, all that is missed has not been asked for. */
  lemma NothingOwed(mem: Memory, ids: TlpIds, q: Req.Reg, h: Req.Hist, sent: seq<Beat>, c: Col.Reg, g: Col.Hist,
                    out: View)
    requires Req.Agree(ids, q, h, WithPending(sent, q.txValid, q.tx)) && Col.Agree(c, g, out) && Linked(q, h, c, g)
    requires g.input <= Served(mem, sent) && |Served(mem, sent)| <= |g.input| && !q.txValid && !q.start
    ensures c.remLength == q.reqLength
  {
    hide Fetch, Served, Col.Agree, Linked, Announced, FetchAll, Req.Pieces;
    LengthAnnounced(ids, q, h, sent);
    Missing(mem, q, h, c, g, out);
    AllAsked(mem, ids, q, h, sent);
    ServedIsFetched(mem, ids, h.issued);
  }

  // ---- A clock of the engine ----

  /** The machines' part of a clock while a descriptor is served. */
  ghost predicate Serving(q: Req.Reg, h: Req.Hist, c: Col.Reg, g: Col.Hist, s: Ser.Reg, q': Req.Reg, h': Req.Hist,
                          c': Col.Reg, g': Col.Hist, s': Ser.Reg, doneAck: bool, reqReady: bool, pause: bool,
                          rxValid: bool, rx: Beat, outReady: bool, rxReady: bool) {
    && Req.Busy(q) && !c.done && !c'.done && h'.jobs == h.jobs && !q'.start
    && Req.Goes(q, q.txValid && !reqReady, false, doneAck, pause, false, q')
    && (q.state.SendIoReqHdr? ==>
          Req.Read(q'.newAddr, q'.reqLength)
          == if q.txValid && !reqReady then Req.Read(q.newAddr, q.reqLength)
             else Req.Rest(Req.Read(q.newAddr, q.reqLength)))
    && h'.left == (if q.start then h.left else c.remLength)
    && Collects(true, c, g, q.start, q.newLength, rxValid, rx, c', g', rxReady)
    && Drains(c, s, rxValid, outReady, c', s', rxReady)
  }

  /** Nobody holds the engine up: its outputs are free, the completion FIFO has room, and
      the host answers if it owes anything. */
  ghost predicate Unhindered(mem: Memory, sent: seq<Beat>, c: Col.Reg, g: Col.Hist, reqReady: bool, pause: bool,
                             rxValid: bool, outReady: bool) {
    && reqReady && !pause && outReady
    && (c.state.Collect? && |g.input| < |Served(mem, sent)| ==> rxValid)
  }

  /** The requester's state and the collector's, as far as the clocks depend on them. */
  lemma Standing(ids: TlpIds, q: Req.Reg, h: Req.Hist, sent: seq<Beat>, c: Col.Reg, g: Col.Hist, out: View)
    requires Req.Agree(ids, q, h, sent) && Col.Agree(c, g, out) && Linked(q, h, c, g)
    ensures Req.Steady(q, h.left, h.jobs) && Announced(q, h)
    ensures Req.Busy(q) && !c.done ==> if q.start then c.state.Idle? else c.state.Collect? && 0 < c.remLength
    ensures q.start ==> q.pendLength == 0 && q.state.CheckThresh?
    ensures q.state.CheckThresh? && !q.start ==> q.pendLength == h.left - q.reqLength
  {
    hide Req.Accounted;
    LengthAnnounced(ids, q, h, sent);
  }

  /** Blocked, with nothing on its way: only a difference out of date can be the cause,
      and it will not be out of date in the next clock. */
  lemma OnlyLagging(mem: Memory, ids: TlpIds, q: Req.Reg, h: Req.Hist, sent: seq<Beat>, c: Col.Reg, g: Col.Hist,
                    out: View)
    requires Req.Agree(ids, q, h, WithPending(sent, q.txValid, q.tx)) && Col.Agree(c, g, out) && Linked(q, h, c, g)
    requires g.input <= Served(mem, sent) && |Served(mem, sent)| <= |g.input|
    requires Req.Busy(q) && !c.done && !q.start && !q.txValid && Blocked(q)
    ensures Lagging(q, h, c) == 1
  {
    hide Req.Agree, Col.Agree, Served, Linked;
    Standing(ids, q, h, WithPending(sent, q.txValid, q.tx), c, g, out);
    NothingOwed(mem, ids, q, h, sent, c, g, out);
  }

  /** One clock: nothing is added to what is left, and something is taken off if nobody
      holds the engine up. */
  lemma LeftLess(mem: Memory, ids: TlpIds, q: Req.Reg, h: Req.Hist, sent: seq<Beat>, c: Col.Reg, g: Col.Hist,
                 out: View, s: Ser.Reg, q': Req.Reg, h': Req.Hist, put': seq<Beat>, c': Col.Reg, g': Col.Hist,
                 out': View, s': Ser.Reg, newAck: bool, job: Req.Read, doneAck: bool, reqReady: bool, pause: bool,
                 rxValid: bool, rx: Beat, outReady: bool, rxReady: bool)
    requires Req.Agree(ids, q, h, WithPending(sent, q.txValid, q.tx)) && Col.Agree(c, g, out) && Linked(q, h, c, g)
    requires Req.Agree(ids, q', h', put') && Col.Agree(c', g', out') && Linked(q', h', c', g')
    requires g.input <= Served(mem, sent) && LegalInput(mem, sent, q, c, g, newAck, job, rxValid, rx)
    requires Serving(q, h, c, g, s, q', h', c', g', s', doneAck, reqReady, pause, rxValid, rx, outReady, rxReady)
    ensures Left(q', h', c', s') <= Left(q, h, c, s)
    ensures Unhindered(mem, sent, c, g, reqReady, pause, rxValid, outReady) ==>
              Left(q', h', c', s') < Left(q, h, c, s)
  {
    hide Req.Agree, Col.Agree, Linked, Served, Collects, Drains, Req.Goes, Asking, Stage, KeepsPrefix, Req.Steady,
         Announced, Col.Payload;
    Standing(ids, q, h, WithPending(sent, q.txValid, q.tx), c, g, out);
    Standing(ids, q', h', put', c', g', out');
    RequesterAdvances(q, h.left, h.jobs, h'.left, h'.jobs, q.txValid && !reqReady, doneAck, pause, q');
    StagesAdvance(c, s, rxValid, outReady, c', s', rxReady);
    TakenIsValid(c, g, q.start, q.newLength, rxValid, rx, c', g', rxReady);
    if q.start {
      NotBlocked(q, q.txValid && !reqReady, doneAck, pause, q');
    }
    Counts(mem, q, h, c, g, out, q', h', c', g', out', q.start, q.newLength, rxValid, rx, rxReady);
    if !(c.state.Collect? && rxReady) && Stage(c, s) == 0 && Blocked(q) && !q.txValid
       && Unhindered(mem, sent, c, g, reqReady, pause, rxValid, outReady) {
      OnlyLagging(mem, ids, q, h, sent, c, g, out);
    }
  }

  lemma NotBlocked(q: Req.Reg, held: bool, doneAck: bool, pause: bool, q': Req.Reg)
    requires q.state.CheckThresh? && q.pendLength == 0 && Req.Goes(q, held, false, doneAck, pause, false, q')
    ensures q'.state.SendIoReqHdr?
  {}

  lemma TakenIsValid(c: Col.Reg, g: Col.Hist, start: bool, newLength: nat, rxValid: bool, rx: Beat, c': Col.Reg,
                     g': Col.Hist, rxReady: bool)
    requires Collects(true, c, g, start, newLength, rxValid, rx, c', g', rxReady)
    ensures c.state.Collect? && rxReady ==> rxValid
  {
    hide Col.AfterBeat;
  }

  // ---- Any run ----

  /** Clocks in which nobody holds the engine up that are enough for a descriptor. */
  function Budget(len: nat): nat {
    9 * len + 21 * Count(len) + 8
  }

  lemma AtStart(ids: TlpIds, q: Req.Reg, h: Req.Hist, out: seq<Beat>, c: Col.Reg, s: Ser.Reg)
    requires Req.Agree(ids, q, h, out) && q.start
    ensures Left(q, h, c, s) <= Budget(q.newLength)
  {
    hide Req.Accounted, Count;
    Ser.OwedSize(s, NO_BEAT);
    LengthAnnounced(ids, q, h, out);
  }

  /** A descriptor that is being served was being served before or is new. */
  lemma StillBusy(q: Req.Reg, held: bool, newAck: bool, doneAck: bool, pause: bool, done: bool, q': Req.Reg)
    requires Req.Goes(q, held, newAck, doneAck, pause, done, q') && Req.Busy(q') && !q'.start
    ensures Req.Busy(q) && !done && Req.Goes(q, held, false, doneAck, pause, false, q')
  {}

  lemma SameJob(ids: TlpIds, q: Req.Reg, h: Req.Hist, out: seq<Beat>, q': Req.Reg, h': Req.Hist, out': seq<Beat>)
    requires Req.Agree(ids, q, h, out) && Req.Agree(ids, q', h', out') && Req.Busy(q) && Req.Busy(q')
    requires h'.jobs == h.jobs
    ensures q'.newLength == q.newLength
  {
    hide Req.Accounted;
  }

  lemma StillServing(mem: Memory, ids: TlpIds, q: Req.Reg, h: Req.Hist, sent: seq<Beat>, c: Col.Reg, g: Col.Hist,
                     out: View, s: Ser.Reg, q': Req.Reg, h': Req.Hist, put': seq<Beat>, c': Col.Reg, g': Col.Hist,
                     out': View, s': Ser.Reg, newAck: bool, job: Req.Read, doneAck: bool, reqReady: bool, pause: bool,
                     rxValid: bool, rx: Beat, outReady: bool, rxReady: bool)
    requires Req.Agree(ids, q, h, WithPending(sent, q.txValid, q.tx)) && Col.Agree(c, g, out) && Linked(q, h, c, g)
    requires Req.Agree(ids, q', h', put') && Col.Agree(c', g', out') && Linked(q', h', c', g')
    requires g.input <= Served(mem, sent) && LegalInput(mem, sent, q, c, g, newAck, job, rxValid, rx)
    requires Req.Busy(q') && !q'.start && !c'.done && h'.jobs == h.jobs
    requires Req.Goes(q, q.txValid && !reqReady, newAck, doneAck, pause, c.done, q')
    requires q.state.SendIoReqHdr? ==>
               Req.Read(q'.newAddr, q'.reqLength)
               == if q.txValid && !reqReady then Req.Read(q.newAddr, q.reqLength)
                  else Req.Rest(Req.Read(q.newAddr, q.reqLength))
    requires h'.left == if Req.Busy(q) && !q.start then c.remLength else h.left
    requires Collects(true, c, g, q.start, q.newLength, rxValid, rx, c', g', rxReady)
    requires Drains(c, s, rxValid, outReady, c', s', rxReady)
    ensures Req.Busy(q) && !c.done && q'.newLength == q.newLength
    ensures Left(q', h', c', s') <= Left(q, h, c, s)
    ensures Unhindered(mem, sent, c, g, reqReady, pause, rxValid, outReady) ==>
              Left(q', h', c', s') < Left(q, h, c, s)
  {
    hide Req.Agree, Col.Agree, Linked, Served, Collects, Drains, Req.Goes, LegalInput, Unhindered, Left, Add30,
         Req.Busy;
    StillBusy(q, q.txValid && !reqReady, newAck, doneAck, pause, c.done, q');
    SameJob(ids, q, h, WithPending(sent, q.txValid, q.tx), q', h', put');
    LeftLess(mem, ids, q, h, sent, c, g, out, s, q', h', put', c', g', out', s', newAck, job, doneAck, reqReady, pause,
             rxValid, rx, outReady, rxReady);
  }

  /** A transmit engine, and the clocks in which nobody has held it up. */
  class Watched {
    const t: TransmitPath
    ghost var clear: nat  // such clocks so far
    ghost var began: nat  // ... when the last descriptor was taken

    ghost predicate Valid()
      reads this, t, t.req, t.col, t.ser
    {
      && t.Valid() && began <= clear
      && (t.legal && Req.Busy(t.req.r) && !t.col.r.done ==>
            clear - began + Left(t.req.r, t.req.h, t.col.r, t.ser.r) <= Budget(t.req.r.newLength))
    }

    constructor (mem: Memory, ids: TlpIds)
      ensures Valid() && t.legal && t.mem == mem && clear == 0
    {
      hide TransmitPath.Valid, Left, Budget;
      t := new TransmitPath(mem, ids);
      clear, began := 0, 0;
    }

    /** One clock. */
    method Clock(newAck: bool, job: Req.Read, doneAck: bool, reqReady: bool, pause: bool, rxValid: bool, axis: Beat,
                 outReady: bool)
      returns (rxReady: bool)
      requires Valid() && job.len < 0x100_0000
      modifies this, t, t.req, t.col, t.ser
      ensures Valid()
      ensures t.legal == (old(t.legal) && LegalInput(t.mem, old(t.req.sent), old(t.req.r), old(t.col.r), old(t.col.h),
                                                     newAck, job, rxValid, Reversed(axis)))
      ensures t.req.h.jobs == if t.req.r.start then old(t.req.h.jobs) + [job] else old(t.req.h.jobs)
      ensures clear == old(clear) + if Unhindered(t.mem, old(t.req.sent), old(t.col.r), old(t.col.h), reqReady, pause,
                                                  rxValid, outReady) then 1 else 0
      ensures began == if t.req.r.start then clear else old(began)
    {
      hide TransmitPath.Valid, Linked, Req.Agree, Col.Agree, Collects, Drains, Req.Goes, LegalInput, Unhindered, Left,
           Reversed, Budget, Served, Req.Busy;
      ghost var q, h, sent, c, g, s := t.req.r, t.req.h, t.req.sent, t.col.r, t.col.h, t.ser.r;
      ghost var was, out := t.legal, Deframe(t.col.Emitted());
      if was {
        Legal(t);
      }
      rxReady := t.Clock(newAck, job, doneAck, reqReady, pause, rxValid, axis, outReady);
      if Unhindered(t.mem, sent, c, g, reqReady, pause, rxValid, outReady) {
        clear := clear + 1;
      }
      if t.req.r.start {
        began := clear;
      }
      if t.legal && Req.Busy(t.req.r) && !t.col.r.done {
        Legal(t);
        if t.req.r.start {
          AtStart(t.req.ids, t.req.r, t.req.h, t.req.Emitted(), t.col.r, t.ser.r);
        } else {
          StillServing(t.mem, t.req.ids, q, h, sent, c, g, out, s, t.req.r, t.req.h, t.req.Emitted(), t.col.r,
                       t.col.h, Deframe(t.col.Emitted()), t.ser.r, newAck, job, doneAck, reqReady, pause, rxValid,
                       Reversed(axis), outReady, rxReady);
        }
      }
    }
  }

  lemma Legal(t: TransmitPath)
    requires t.Valid() && t.legal
    ensures Req.Agree(t.req.ids, t.req.r, t.req.h, t.req.Emitted())
    ensures Col.Agree(t.col.r, t.col.h, Deframe(t.col.Emitted()))
    ensures Linked(t.req.r, t.req.h, t.col.r, t.col.h) && t.col.h.input <= Served(t.mem, t.req.sent)
  {
    hide Req.Agree, Col.Agree, Linked, Served, Deframe;
  }

  lemma LeftIsSome(ids: TlpIds, q: Req.Reg, h: Req.Hist, put: seq<Beat>, c: Col.Reg, g: Col.Hist, out: View,
                   s: Ser.Reg)
    requires Req.Agree(ids, q, h, put) && Col.Agree(c, g, out) && Linked(q, h, c, g) && Req.Busy(q) && !c.done
    ensures Left(q, h, c, s) > 0
  {
    hide Linked, Col.Agree, Req.Accounted, Count, Ser.Owed;
    Standing(ids, q, h, put, c, g, out);
    if q.state.SendIoReqHdr? {
      CountRest(Req.Read(0, q.reqLength));
    }
  }

  /** With the last frame complete, nothing is left to be asked for. */
  lemma AllOver(mem: Memory, ids: TlpIds, q: Req.Reg, h: Req.Hist, sent: seq<Beat>, c: Col.Reg, g: Col.Hist, out: View)
    requires Req.Agree(ids, q, h, WithPending(sent, q.txValid, q.tx)) && Col.Agree(c, g, out) && Linked(q, h, c, g)
    requires g.input <= Served(mem, sent) && (Req.Busy(q) ==> c.done)
    ensures h.issued == Req.AllPieces(h.jobs) && |g.frames| == |h.jobs|
  {
    hide Fetch, Served, FetchAll, Col.Agree, Req.Tlps, Req.AllPieces;
    LengthAnnounced(ids, q, h, WithPending(sent, q.txValid, q.tx));
    WithinDescriptors(mem, ids, q, h, sent, g.input);
    NeverAhead(mem, q, h, c, g, out, 0);
    assert Req.Pieces(Req.Read(q.newAddr, 0)) == [];
  }

  /** Every descriptor ends: after as many clear clocks as its budget says, 9 for each
      dword and 21 for each read TLP, all of it has been asked for, received and handed
      on as a frame. */
  lemma EveryDescriptorEnds(w: Watched)
    requires w.Valid() && w.t.legal
    requires Req.Busy(w.t.req.r) && !w.t.col.r.done ==> w.clear - w.began >= Budget(w.t.req.r.newLength)
    ensures var jobs := w.t.req.h.jobs;
            && w.t.col.h.frames == FetchEach(w.t.mem, jobs) && w.t.col.h.got == []
            && w.t.req.h.issued == Req.AllPieces(jobs)
            && Output(w.t) == TaggedFrames(FetchEach(w.t.mem, jobs))
  {
    hide TransmitPath.Valid, Req.Agree, Col.Agree, Served, Deframe, Fetch, FetchEach, FetchAll, TaggedFrames,
         Budget, Left, Linked, Output;
    Legal(w.t);
    var q, h, c, g := w.t.req.r, w.t.req.h, w.t.col.r, w.t.col.h;
    if Req.Busy(q) && !c.done {
      LeftIsSome(w.t.req.ids, q, h, w.t.req.Emitted(), c, g, Deframe(w.t.col.Emitted()), w.t.ser.r);
    } else {
      AllOver(w.t.mem, w.t.req.ids, q, h, w.t.req.sent, c, g, Deframe(w.t.col.Emitted()));
      Reassembled(w.t);
      FramesAre(w.t);
      assert h.jobs[..|h.jobs|] == h.jobs;
      TaggedNone();
      Regroup(TaggedFrames(FetchEach(w.t.mem, h.jobs)), [], []);
    }
  }

  lemma FramesAre(t: TransmitPath)
    requires t.Valid() && t.legal && |t.col.h.frames| == |t.req.h.jobs|
    ensures t.col.h.frames == FetchEach(t.mem, t.req.h.jobs)
  {
    hide Served, Fetch, FetchEach, FetchAll, Req.Agree, Deframe, Col.AllLone, Linked;
    LengthAnnounced(t.req.ids, t.req.r, t.req.h, t.req.Emitted());
    WithinDescriptors(t.mem, t.req.ids, t.req.r, t.req.h, t.req.sent, t.col.h.input);
    FramesAreDescriptors(t.mem, t.req.r, t.req.h, t.col.r, t.col.h, Deframe(t.col.Emitted()));
    assert t.req.h.jobs[..|t.req.h.jobs|] == t.req.h.jobs;
  }
}
