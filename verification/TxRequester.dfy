/** SsiPcieTxDmaMemReq: splits a transmit descriptor into memory-read TLPs and
    holds them back while too many words are still to come. */
module TxRequester {
  import opened PcieTypes
  import opened Streams

  const MAX_READ := 256   // PCIE_MAX_TX_TRANS_LENGTH_C

  datatype State = Idle | CheckThresh | SendIoReqHdr | CalcPipelineDly | CheckLength | TrDone

  /** A run of `len` dwords of host memory from dword address `addr` on: what a
      descriptor asks for, and what one memory-read TLP asks for. */
  datatype Read = Read(addr: Addr, len: nat)

  datatype Reg = Reg(start: bool, cnt: nat, tranLength: Len9, newLength: Len24, pendLength: Len24, reqLength: Len24,
                     newAddr: Addr, newReq: bool, doneReq: bool, doneAddr: Addr, txValid: bool, tx: Beat, state: State)

  const REG_INIT := Reg(false, 0, 0, 0, 0, 0, 0, false, false, 0, false, NO_BEAT, Idle)

  predicate Busy(r: Reg) {
    r.state != Idle && r.state != TrDone
  }

  /** The memory-read TLP: header only, three of the four lanes. */
  function ReadTlp(ids: TlpIds, q: Read): Beat
    requires q.len < 0x200
  {
    NO_BEAT.(data := Quad(q.len, ids.locId * 0x1_0000 + ids.tag * 0x100 + (if q.len == 1 then 0x0F else 0xFF),
                          q.addr * 4, 0),
             keep := Quad(true, true, true, false), last := true)
  }

  function Piece(q: Read): Read {
    Read(q.addr, if q.len < MAX_READ then q.len else MAX_READ)
  }

  function Rest(q: Read): Read {
    Read(Add30(q.addr, Piece(q).len), q.len - Piece(q).len)
  }

  /** A descriptor cut into reads of 256 dwords and a shorter last one. */
  function Pieces(q: Read): seq<Read>
    decreases q.len
  {
    if q.len == 0 then [] else [Piece(q)] + Pieces(Rest(q))
  }

  function AllPieces(jobs: seq<Read>): seq<Read>
    decreases |jobs|
  {
    if jobs == [] then [] else AllPieces(jobs[..|jobs| - 1]) + Pieces(jobs[|jobs| - 1])
  }

  lemma AllPiecesSnoc(jobs: seq<Read>, q: Read)
    ensures AllPieces(jobs + [q]) == AllPieces(jobs) + Pieces(q)
  {
    assert (jobs + [q])[..|jobs|] == jobs;
  }

  function Tlps(ids: TlpIds, issued: seq<Read>): seq<Beat>
    requires forall i :: 0 <= i < |issued| ==> issued[i].len < 0x200
  {
    seq(|issued|, i requires 0 <= i < |issued| => ReadTlp(ids, issued[i]))
  }

  /** jobs: descriptors taken; issued: read TLPs put out; left: words of the last
      descriptor that the collector had not received one clock ago. */
  datatype Hist = Hist(jobs: seq<Read>, issued: seq<Read>, left: nat)

  const HIST_INIT := Hist([], [], 0)

  /** The fields that the requester never sets. */
  predicate Plain(b: Beat) {
    b == NO_BEAT.(data := b.data, keep := b.keep, last := b.last)
  }

  /** Read TLPs put out and reads to come make up the descriptors taken. */
  ghost predicate Accounted(ids: TlpIds, rest: Read, issued: seq<Read>, jobs: seq<Read>, out: seq<Beat>) {
    && issued + Pieces(rest) == AllPieces(jobs)
    && (forall i :: 0 <= i < |issued| ==> 1 <= issued[i].len <= MAX_READ)
    && out == Tlps(ids, issued)
  }

  /** The words asked for and not received: `pendLength` lags by a clock, but in
      the state that reads it it is no less than the true number. */
  ghost predicate Throttled(r: Reg, left: nat) {
    match r.state
    case Idle => r.reqLength == 0
    case TrDone => r.reqLength == 0
    case CheckThresh =>
      && 0 < r.reqLength <= left
      && if r.start then r.pendLength == 0 && left == r.reqLength == r.newLength else r.pendLength == left - r.reqLength
    case SendIoReqHdr =>
      && 0 < r.reqLength <= left < r.reqLength + MAX_READ / 2
      && r.tranLength == Piece(Read(r.newAddr, r.reqLength)).len
    case CalcPipelineDly => r.cnt > 0 ==> r.reqLength <= left && r.pendLength == left - r.reqLength
    case CheckLength => r.reqLength <= left && r.pendLength == left - r.reqLength
  }

  /** Between states: the handshakes, the delay counter, and the bound. */
  ghost predicate Steady(r: Reg, left: nat, jobs: seq<Read>) {
    && Throttled(r, left)
    && (r.doneReq <==> r.state == TrDone) && (r.newReq ==> r.state == Idle) && (r.start ==> r.state == CheckThresh)
    && r.cnt < 16 && (Busy(r) && r.state != CalcPipelineDly ==> r.cnt == 0)
    && (Busy(r) ==> r.reqLength <= left <= r.newLength && left - r.reqLength < MAX_READ / 2 + MAX_READ)
    && (r.state != Idle ==>
          jobs != [] && r.doneAddr == jobs[|jobs| - 1].addr && r.newLength == jobs[|jobs| - 1].len)
  }

  ghost predicate Agree(ids: TlpIds, r: Reg, h: Hist, out: seq<Beat>) {
    Accounted(ids, Read(r.newAddr, r.reqLength), h.issued, h.jobs, out) && Steady(r, h.left, h.jobs)
  }

  /** A descriptor is taken when the last one has been requested in full. */
  lemma JobTaken(ids: TlpIds, rest: Read, h: Hist, out: seq<Beat>, job: Read)
    requires Accounted(ids, rest, h.issued, h.jobs, out) && rest.len == 0
    ensures Accounted(ids, job, h.issued, h.jobs + [job], out)
  {
    hide Tlps;
    AllPiecesSnoc(h.jobs, job);
    assert Pieces(rest) == [];
    assert h.issued + [] == h.issued;
  }

  lemma PieceSent(ids: TlpIds, q: Read, h: Hist, out: seq<Beat>)
    requires Accounted(ids, q, h.issued, h.jobs, out) && q.len > 0
    ensures Accounted(ids, Rest(q), h.issued + [Piece(q)], h.jobs, out + [ReadTlp(ids, Piece(q))])
  {
    hide Add30, ReadTlp;
    assert Pieces(q) == [Piece(q)] + Pieces(Rest(q));
    assert h.issued + Pieces(q) == h.issued + [Piece(q)] + Pieces(Rest(q));
  }

  /** What the neighbours of the requester have to respect: a descriptor asks for at
      least one dword; `remLength` and `done` are the collector's registers: it counts
      down from newLength as it receives words that were asked for, and pulses `done`
      with the last of them. */
  ghost predicate LegalInput(r: Reg, left: nat, newAck: bool, job: Read, done: bool, remLength: nat) {
    && (r.state == Idle && newAck ==> 0 < job.len)
    && (Busy(r) && !r.start ==> r.reqLength <= remLength <= left)
    && (done ==> Busy(r) && !r.start && remLength == 0)
  }

  /** State SEND_IO_REQ_HDR with the output register free: the TLP asks for the
      tranLength dwords at newAddr. */
  method SendHeader(ids: TlpIds, r: Reg) returns (v: Reg)
    requires Plain(r.tx)
    ensures Plain(v.tx) && v.tx == ReadTlp(ids, Read(r.newAddr, r.tranLength))
    ensures 0 < r.reqLength && r.tranLength == Piece(Read(r.newAddr, r.reqLength)).len ==>
              Read(v.newAddr, v.reqLength) == Rest(Read(r.newAddr, r.reqLength))
    ensures v == r.(txValid := true, tx := v.tx, newAddr := v.newAddr, reqLength := v.reqLength,
                    state := CalcPipelineDly)
  {
    var be := if r.tranLength == 1 then 0x0F else 0xFF;
    var data := Quad(r.tranLength, ids.locId * 0x1_0000 + ids.tag * 0x100 + be, r.newAddr * 4, 0);
    v := r.(txValid := true, tx := r.tx.(data := data, keep := Quad(true, true, true, false), last := true),
            newAddr := Add30(r.newAddr, r.tranLength), reqLength := Sub24(r.reqLength, r.tranLength),
            state := CalcPipelineDly);
  }

  /** The way of a descriptor's first request, of any length, through the states;
      `held` says that the output register is still occupied. */
  ghost predicate FirstRequest(ids: TlpIds, r: Reg, held: bool, newAck: bool, job: Read, done: bool, v: Reg) {
    && (r.state == Idle && newAck && !done ==>
          v.state == CheckThresh && v.newAddr == job.addr && v.reqLength == job.len && v.pendLength == 0)
    && (r.state == CheckThresh && r.pendLength < MAX_READ / 2 && !done ==>
          v.state == SendIoReqHdr && v.newAddr == r.newAddr && v.tranLength == Piece(Read(r.newAddr, r.reqLength)).len)
    && (r.state == SendIoReqHdr && !held ==> v.txValid && v.tx == ReadTlp(ids, Read(r.newAddr, r.tranLength)))
    && (r.state != SendIoReqHdr || held ==> v.txValid == held && v.tx == r.tx)
  }

  /** Where every state goes on to, and what it waits for; `held` says that the output
      register is still occupied. */
  ghost predicate Goes(r: Reg, held: bool, newAck: bool, doneAck: bool, pause: bool, done: bool, v: Reg) {
    && v.state == (if done then TrDone else match r.state
         case Idle => if newAck then CheckThresh else Idle
         case CheckThresh => if r.pendLength < MAX_READ / 2 then SendIoReqHdr else CheckThresh
         case SendIoReqHdr => if held then SendIoReqHdr else CalcPipelineDly
         case CalcPipelineDly => if r.cnt == 15 then CheckLength else CalcPipelineDly
         case CheckLength => if r.reqLength != 0 && !pause then CheckThresh else CheckLength
         case TrDone => if doneAck then Idle else TrDone)
    && v.txValid == (held || r.state == SendIoReqHdr) && (v.start <==> r.state == Idle && newAck)
    && (r.state == CalcPipelineDly && r.cnt < 15 ==> v.cnt == r.cnt + 1)
    && (Busy(r) && r.state != SendIoReqHdr ==> v.reqLength == r.reqLength)
  }

  /** The states that neither take a descriptor nor send a header. */
  method Wait(r: Reg, u: Reg, doneAck: bool, pause: bool, ghost left: nat, ghost jobs: seq<Read>, ghost legal: bool,
              ghost remLength: nat)
    returns (v: Reg)
    requires r.state != Idle && r.state != SendIoReqHdr && remLength < 0x100_0000
    requires u == r.(start := false, pendLength := Sub24(remLength, r.reqLength), txValid := u.txValid)
    requires legal ==> Steady(r, left, jobs) && (Busy(r) && !r.start ==> r.reqLength <= remLength <= left)
    ensures v == u.(state := v.state, cnt := v.cnt, tranLength := v.tranLength, doneReq := v.doneReq)
    ensures legal ==> Steady(v, if Busy(r) && !r.start then remLength else left, jobs)
    ensures Busy(v) <==> Busy(r)
    ensures r.state == CheckThresh && r.pendLength < MAX_READ / 2 ==>
              v.state == SendIoReqHdr && v.tranLength == Piece(Read(r.newAddr, r.reqLength)).len
    ensures r.state == TrDone ==> (v.doneReq <==> !doneAck)
    ensures Goes(r, u.txValid, false, doneAck, pause, false, v)
  {
    v := u;
    match r.state {
      case CheckThresh =>
        if r.pendLength < MAX_READ / 2 {
          v := v.(tranLength := if r.reqLength < MAX_READ then r.reqLength else MAX_READ, state := SendIoReqHdr);
        }
      case CalcPipelineDly =>
        v := v.(cnt := (r.cnt + 1) % 16);
        if r.cnt == 0xF {
          v := v.(state := CheckLength);
        }
      case CheckLength =>
        if r.reqLength != 0 && !pause {
          v := v.(state := CheckThresh);
        }
      case TrDone =>
        v := v.(doneReq := true);
        if doneAck {
          v := v.(doneReq := false, state := Idle);
        }
    }
  }

  /** The state machine, once the output register has been released into `u`.
      Yields the new history and, if a header went out, the beats put out. */
  method Advance(ids: TlpIds, r: Reg, u: Reg, newAck: bool, job: Read, doneAck: bool, pause: bool, done: bool,
                 remLength: Len24, ghost legal: bool, ghost h: Hist, ghost out: seq<Beat>)
    returns (v: Reg, ghost g: Hist, ghost put: seq<Beat>)
    requires Plain(r.tx) && job.len < 0x100_0000
    requires legal ==> Agree(ids, r, h, out) && LegalInput(r, h.left, newAck, job, done, remLength)
    requires u == r.(start := false, pendLength := Sub24(remLength, r.reqLength), txValid := u.txValid)
    ensures Plain(v.tx) && (legal ==> Agree(ids, v, g, put))
    ensures put == if v.txValid && !u.txValid then out + [v.tx] else out
    ensures u.txValid ==> v.txValid && v.tx == u.tx
    ensures v.start <==> r.state == Idle && newAck
    ensures g.jobs == if v.start then h.jobs + [job] else h.jobs
    ensures g.left == if v.start then job.len else if Busy(r) && !r.start then remLength else h.left
    ensures h.issued <= g.issued
    ensures r.state == Idle ==> (v.newReq <==> !newAck)
    ensures r.state == TrDone && !done ==> (v.doneReq <==> !doneAck)
    ensures legal ==> (Busy(v) <==> v.start || (Busy(r) && !done))
    ensures FirstRequest(ids, r, u.txValid, newAck, job, done, v)
    ensures Goes(r, u.txValid, newAck, doneAck, pause, done, v)
    ensures legal && r.state == SendIoReqHdr ==>
              Read(v.newAddr, v.reqLength) == if u.txValid then Read(r.newAddr, r.reqLength)
                                              else Rest(Read(r.newAddr, r.reqLength))
  {
    hide Accounted, ReadTlp, Add30, Sub24, Plain, Pieces, AllPieces, Tlps;
    v, put := u, out;
    g := if Busy(r) && !r.start then h.(left := remLength) else h;
    match r.state {
      case Idle =>
        v := v.(newReq := true);
        if newAck {
          v := v.(newReq := false, start := true, doneAddr := job.addr, newLength := job.len, newAddr := job.addr,
                  reqLength := job.len, pendLength := 0, cnt := 0, state := CheckThresh);
          if legal {
            JobTaken(ids, Read(r.newAddr, r.reqLength), h, out, job);
          }
          g := g.(jobs := h.jobs + [job], left := job.len);
        }
      case SendIoReqHdr =>
        if !v.txValid {
          v := SendHeader(ids, v);
          if legal {
            PieceSent(ids, Read(r.newAddr, r.reqLength), h, out);
          }
          g := g.(issued := h.issued + [Read(r.newAddr, r.tranLength)]);
          put := out + [v.tx];
        }
      case _ =>
        v := Wait(r, u, doneAck, pause, h.left, h.jobs, legal, remLength);
    }
    if done {
      v := v.(doneReq := true, state := TrDone);
    }
  }

  class Requester {
    const ids: TlpIds
    var r: Reg
    ghost var h: Hist
    ghost var sent: seq<Beat>
    ghost var legal: bool  // the neighbours have been well-behaved so far

    ghost function Emitted(): seq<Beat>
      reads this
    {
      WithPending(sent, r.txValid, r.tx)
    }

    ghost predicate Valid()
      reads this
    {
      Plain(r.tx) && (legal ==> Agree(ids, r, h, Emitted()))
    }

    constructor (ids: TlpIds)
      ensures Valid() && legal && this.ids == ids && r == REG_INIT && h == HIST_INIT && sent == []
    {
      this.ids, r, h, sent, legal := ids, REG_INIT, HIST_INIT, [], true;
    }

    /** One clock. */
    method Clock(newAck: bool, job: Read, doneAck: bool, ready: bool, pause: bool, done: bool, remLength: Len24)
      requires Valid() && job.len < 0x100_0000
      modifies this
      ensures Valid()
      ensures legal == (old(legal) && LegalInput(old(r), old(h.left), newAck, job, done, remLength))
      ensures sent == if ready then old(Emitted()) else old(sent)
      ensures r.start <==> old(r.state) == Idle && newAck
      ensures h.jobs == if r.start then old(h.jobs) + [job] else old(h.jobs)
      ensures h.left == if r.start then job.len else if old(Busy(r) && !r.start) then remLength else old(h.left)
      ensures old(h.issued) <= h.issued
      ensures old(r.state) == Idle ==> (r.newReq <==> !newAck)
      ensures old(r.state) == TrDone && !done ==> (r.doneReq <==> !doneAck)
      ensures legal ==> (Busy(r) <==> r.start || (old(Busy(r)) && !done))
      ensures FirstRequest(ids, old(r), old(r.txValid) && !ready, newAck, job, done, r)
      ensures Goes(old(r), old(r.txValid) && !ready, newAck, doneAck, pause, done, r)
      ensures legal && old(r.state) == SendIoReqHdr ==>
                Read(r.newAddr, r.reqLength) == if old(r.txValid) && !ready then old(Read(r.newAddr, r.reqLength))
                                                else Rest(old(Read(r.newAddr, r.reqLength)))
    {
      hide Agree, Busy, Plain, LegalInput, ReadTlp, FirstRequest, Goes;
      var u := r.(start := false, pendLength := Sub24(remLength, r.reqLength));
      if ready {
        sent := Emitted();
        u := u.(txValid := false);
      }
      legal := legal && LegalInput(r, h.left, newAck, job, done, remLength);
      ghost var put;
      r, h, put := Advance(ids, r, u, newAck, job, doneAck, pause, done, remLength, legal, h, old(Emitted()));
    }
  }

  /** Why a descriptor of no dwords is not legal: it is turned into a request all the
      same, one with length field 0. */
  method AskForNothing(ids: TlpIds, addr: Addr) returns (q: Requester)
    ensures fresh(q) && !q.legal && q.Emitted() == [ReadTlp(ids, Read(addr, 0))]
  {
    hide ReadTlp, Agree;
    q := new Requester(ids);
    var job := Read(addr, 0);
    q.Clock(true, job, false, false, false, false, 0);
    q.Clock(false, job, false, false, false, false, 0);
    q.Clock(false, job, false, false, false, false, 0);
  }
}
