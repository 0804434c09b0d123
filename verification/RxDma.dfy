/** SsiPcieRxDma: turns the transactions of a frame into memory-write TLPs.
    The 3-DW header takes three lanes of the first beat, so the payload moves up
    by one lane and every later beat joins two input beats. */
module RxDma {
  import opened PcieTypes
  import opened Streams
  import opened Transactions

  datatype State = Idle | DataDump | AckWait | ReadTrans | SendIoReqHdr | Collect | TrDone

  /** dmaDescToPci: what the engine shows the descriptor controller. */
  datatype DescToPcie = DescToPcie(newReq: bool, doneReq: bool, doneFrameErr: bool, doneTranEofe: bool,
                                   doneDmaCh: nat, doneSubCh: nat, doneAddr: Addr, doneLength: Len24)

  /** dmaDescFromPci: the controller's answer. */
  datatype DescFromPcie = DescFromPcie(newAck: bool, newAddr: Addr, doneAck: bool, maxFrame: Len24)

  datatype Reg = Reg(tranRd: bool, frameErr: bool, tranEofe: bool, tranSubId: nat, tranLength: Len10,
                     tranCnt: Len10, cnt: Len10, dumpCnt: Len10, newAddr: Addr, maxFrameCheck: Quad<Len24>,
                     desc: DescToPcie, txValid: bool, tx: Beat, history: Beat, state: State)

  const REG_INIT := Reg(false, false, false, 0, 0, 0, 0, 0, 0, Quad(0, 0, 0, 0),
                        DescToPcie(false, false, false, false, 0, 0, 0, 0), false, NO_BEAT, NO_BEAT, Idle)

  /** A transaction as the engine needs it: full beats up to the marked one. */
  ghost predicate Ready(g: Group) {
    && g != [] && |Words(g)| <= MAX_WORDS
    && (forall i :: 0 <= i < |g| - 1 ==> g[i].keep == ALL && !g[i].eot && !g[i].last)
    && g[|g| - 1].eot && KeepsPrefix(g[|g| - 1])
  }

  function FrameWords(gs: seq<Group>): seq<Dword>
    decreases |gs|
  {
    if gs == [] then [] else FrameWords(gs[..|gs| - 1]) + Words(gs[|gs| - 1])
  }

  /** Header dwords of a memory write of `len` dwords to dword address `addr`:
      format and type, IDs and byte enables, address. */
  function Header(ids: TlpIds, addr: Addr, len: Len10): seq<Dword> {
    [0x4000_0000 + len, ids.locId * 0x1_0000 + ids.tag * 0x100 + (if len == 1 then 0x0F else 0xFF), addr * 4]
  }

  function TlpFor(ids: TlpIds, at: nat, payload: seq<Dword>): seq<Dword> {
    Header(ids, at % 0x4000_0000, |payload| % 0x400) + payload
  }

  /** The TLPs of one frame written to `base`: one for each transaction. */
  function FramePackets(ids: TlpIds, base: nat, gs: seq<Group>): seq<seq<Dword>>
    decreases |gs|
  {
    if gs == [] then []
    else
      var pre := gs[..|gs| - 1];
      FramePackets(ids, base, pre) + [TlpFor(ids, base + |FrameWords(pre)|, Words(gs[|gs| - 1]))]
  }

  /** A frame written to host memory at the descriptor's dword address. */
  datatype Job = Job(base: nat, groups: seq<Group>)

  function JobPackets(ids: TlpIds, jobs: seq<Job>): seq<seq<Dword>>
    decreases |jobs|
  {
    if jobs == [] then []
    else JobPackets(ids, jobs[..|jobs| - 1]) + FramePackets(ids, jobs[|jobs| - 1].base, jobs[|jobs| - 1].groups)
  }

  lemma FrameSnoc(ids: TlpIds, base: nat, gs: seq<Group>, g: Group)
    ensures FrameWords(gs + [g]) == FrameWords(gs) + Words(g)
    ensures FramePackets(ids, base, gs + [g])
            == FramePackets(ids, base, gs) + [TlpFor(ids, base + |FrameWords(gs)|, Words(g))]
  {
    hide Words, TlpFor;
    assert (gs + [g])[|gs|] == g;
    assert (gs + [g])[..|gs|] == gs;
  }

  lemma JobSnoc(ids: TlpIds, jobs: seq<Job>, j: Job)
    ensures JobPackets(ids, jobs + [j]) == JobPackets(ids, jobs) + FramePackets(ids, j.base, j.groups)
  {
    assert (jobs + [j])[..|jobs|] == jobs;
  }

  /** Ghost account of a run.
        todo      transactions whose last beat has not been taken yet
        pos       beats already taken of todo[0]
        sofar     transactions of the current frame already sent
        base      address and maxFrame size given for the current frame
        finished  the frames completed so far
        done      all transactions sent so far */
  datatype Hist = Hist(todo: seq<Group>, pos: nat, sofar: seq<Group>, base: nat, maxFrame: nat,
                       finished: seq<Job>, done: seq<Group>)

  const HIST_INIT := Hist([], 0, [], 0, 0, [], [])

  predicate EndsFrame(g: Group) {
    g != [] && g[|g| - 1].last
  }

  function JobGroups(jobs: seq<Job>): seq<Group>
    decreases |jobs|
  {
    if jobs == [] then [] else JobGroups(jobs[..|jobs| - 1]) + jobs[|jobs| - 1].groups
  }

  /** The finished frames and the current one account for every transaction sent,
      and a frame ends exactly where its last transaction says so. */
  ghost predicate Ledger(h: Hist) {
    && h.done == JobGroups(h.finished) + h.sofar
    && (forall i :: 0 <= i < |h.finished| ==> WholeFrame(h.finished[i].groups))
    && (forall i :: 0 <= i < |h.sofar| ==> !EndsFrame(h.sofar[i]))
  }

  ghost predicate WholeFrame(gs: seq<Group>) {
    gs != [] && forall i :: 0 <= i < |gs| ==> (EndsFrame(gs[i]) <==> i == |gs| - 1)
  }

  /** Registers between the descriptor's arrival and the end of the frame, when
      `n` dwords of the frame have been sent and `m` claimed by a header. */
  ghost predicate InFrame(r: Reg, h: Hist, n: nat, m: nat) {
    && r.desc.doneAddr == h.base && r.desc.doneLength == n
    && r.newAddr == h.base + m
    && !r.frameErr && n <= m && m + 5 <= h.maxFrame < 0x100_0000 && h.base + h.maxFrame <= 0x4000_0000
    && r.maxFrameCheck == Quad(h.maxFrame - 1, h.maxFrame - 2, h.maxFrame - 3, h.maxFrame - 4)
  }

  ghost predicate Claimed(r: Reg, h: Hist) {
    && h.todo != []
    && r.tranLength == |Words(h.todo[0])|
    && r.tranSubId == TranOf(h.todo[0]).subId && r.tranEofe == TranOf(h.todo[0]).eofe
  }

  /** The status fields are a clock behind but settle before the frame ends. */
  ghost predicate StatusSettled(r: Reg) {
    !r.desc.doneFrameErr && r.desc.doneSubCh == r.tranSubId && r.desc.doneTranEofe == r.tranEofe
  }

  /** The TLPs put out are those of the finished frames and of the current one. */
  ghost predicate Accounted(ids: TlpIds, finished: seq<Job>, base: nat, sofar: seq<Group>, pkts: seq<seq<Dword>>) {
    && pkts == JobPackets(ids, finished) + FramePackets(ids, base, sofar)
    && forall i :: 0 <= i < |finished| ==> Fits(finished[i])
  }

  /** The frame lies below 4 GB. */
  ghost predicate Fits(j: Job) {
    j.base + |FrameWords(j.groups)| <= 0x4000_0000
  }

  /** Inside a TLP: cnt of its dwords are out, the last beat taken is saved. */
  ghost predicate Collecting(ids: TlpIds, r: Reg, h: Hist, part: seq<Dword>) {
    && Claimed(r, h)
    && var n := |FrameWords(h.sofar)|;
       var g := h.todo[0];
       && 1 <= h.pos <= |g| && r.history == g[h.pos - 1]
       && r.cnt == 4 * h.pos - 3 < r.tranLength
       && InFrame(r, h, n + r.cnt, n + r.tranLength)
       && part == Header(ids, h.base + n, r.tranLength) + Words(g)[..r.cnt]
  }

  ghost predicate Agree(ids: TlpIds, r: Reg, h: Hist, out: View) {
    && out.packed && (!r.txValid ==> !r.tx.last)
    && (forall i :: 0 <= i < |h.todo| ==> Ready(h.todo[i]))
    && Accounted(ids, h.finished, h.base, h.sofar, out.pkts)
    && var n := |FrameWords(h.sofar)|;
       match r.state
       case Idle => h.pos == 0 && out.part == [] && h.sofar == []
       case DataDump => false
       case AckWait => h.pos == 0 && out.part == [] && h.sofar == []
       case ReadTrans => h.pos == 0 && out.part == [] && (n + 5 <= h.maxFrame ==> InFrame(r, h, n, n))
       case SendIoReqHdr => h.pos == 0 && out.part == [] && InFrame(r, h, n, n) && Claimed(r, h)
                            && n + r.tranLength + 5 <= h.maxFrame && r.cnt == 1
       case Collect => Collecting(ids, r, h, out.part)
       case TrDone => h.pos == 0 && out.part == [] && h.sofar == [] && Reported(r, h)
                      && StatusSettled(r) && !r.frameErr
  }

  /** The done report describes the frame just finished. */
  ghost predicate Reported(r: Reg, h: Hist) {
    && h.finished != []
    && var j := h.finished[|h.finished| - 1];
       && j.groups != []
       && r.desc.doneAddr == j.base && r.desc.doneLength == |FrameWords(j.groups)|
       && !r.desc.doneFrameErr
       && r.desc.doneSubCh == TranOf(j.groups[|j.groups| - 1]).subId
       && r.desc.doneTranEofe == TranOf(j.groups[|j.groups| - 1]).eofe
  }

  /** The transaction at the head has been sent completely. */
  function GroupSent(h: Hist): Hist
    requires h.todo != []
  {
    var g := h.todo[0];
    var h1 := h.(todo := h.todo[1..], pos := 0, sofar := h.sofar + [g], done := h.done + [g]);
    if EndsFrame(g) then h1.(sofar := [], finished := h.finished + [Job(h.base, h1.sofar)]) else h1
  }

  lemma JobGroupsSnoc(jobs: seq<Job>, j: Job)
    ensures JobGroups(jobs + [j]) == JobGroups(jobs) + j.groups
  {
    assert (jobs + [j])[..|jobs|] == jobs;
  }

  lemma LedgerKept(h: Hist)
    requires h.todo != [] && Ledger(h)
    ensures Ledger(GroupSent(h))
  {
    hide JobGroups, EndsFrame;
    var g := h.todo[0];
    var gs := h.sofar + [g];
    assert JobGroups(h.finished) + gs == h.done + [g];
    if EndsFrame(g) {
      JobGroupsSnoc(h.finished, Job(h.base, gs));
      assert JobGroups(h.finished) + gs + [] == JobGroups(h.finished) + gs;
    }
  }

  lemma {:induction false} FullPrefix(g: Group, i: nat)
    requires Ready(g) && i < |g|
    ensures |Words(g[..i])| == 4 * i
    decreases i
  {
    if i > 0 {
      FullPrefix(g, i - 1);
      assert g[..i][..i - 1] == g[..i - 1];
    }
  }

  /** Where beat `i` of a transaction stands among its dwords. */
  lemma GroupWords(g: Group, i: nat)
    requires Ready(g) && i < |g|
    ensures var k := |Kept(g[i])|;
            && 4 * i + k <= |Words(g)| && Words(g)[4 * i..4 * i + k] == Kept(g[i])
            && (i == |g| - 1 ==> |Words(g)| == 4 * i + k)
  {
    hide Words, Kept;
    FullPrefix(g, i);
    WordsSnoc(g[..i], g[i]);
    WordsConcat(g[..i + 1], g[i + 1..]);
    assert g == g[..i + 1] + g[i + 1..] && g[..i + 1] == g[..i] + [g[i]];
    assert i == |g| - 1 ==> g == g[..i + 1];
  }

  lemma FirstDword(g: Group)
    requires Ready(g)
    ensures |Words(g)| >= 1 && Words(g)[..1] == [g[0].data.w0]
    ensures |Words(g)| == 1 ==> |g| == 1
  {
    hide Words;
    GroupWords(g, 0);
    GroupWords(g, |g| - 1);
    assert Kept(g[0])[0] == g[0].data.w0;
  }

  /** Sending the TLP of the head transaction keeps the account. */
  lemma GroupDone(ids: TlpIds, h: Hist, pkts: seq<seq<Dword>>)
    requires h.todo != [] && Ready(h.todo[0]) && Accounted(ids, h.finished, h.base, h.sofar, pkts)
    requires h.base + |FrameWords(h.sofar)| + |Words(h.todo[0])| <= 0x4000_0000
    ensures var n := |FrameWords(h.sofar)|;
            var h' := GroupSent(h);
            && Accounted(ids, h'.finished, h'.base, h'.sofar, pkts + [TlpFor(ids, h.base + n, Words(h.todo[0]))])
            && var gs := h.sofar + [h.todo[0]];
               |FrameWords(gs)| == n + |Words(h.todo[0])|
  {
    hide Words, JobPackets, FramePackets, TlpFor;
    var g := h.todo[0];
    var gs := h.sofar + [g];
    var tlp := TlpFor(ids, h.base + |FrameWords(h.sofar)|, Words(g));
    FrameSnoc(ids, h.base, h.sofar, g);
    assert pkts + [tlp] == JobPackets(ids, h.finished) + FramePackets(ids, h.base, gs);
    if g[|g| - 1].last {
      JobSnoc(ids, h.finished, Job(h.base, gs));
      NoPackets(ids, h.base);
    }
  }

  lemma NoPackets(ids: TlpIds, base: nat)
    ensures FrameWords([]) == [] && FramePackets(ids, base, []) == []
  {}

  /** The three header dwords and the first payload dword, in lane order. */
  function HeaderData(ids: TlpIds, addr: Addr, length: Len10, lastBe: nat, d0: Dword): Quad<Dword>
    requires lastBe == 0x00 || lastBe == 0xF0
  {
    Quad(0x4000_0000 + length, ids.locId * 0x1_0000 + ids.tag * 0x100 + lastBe + 0x0F, addr * 4, d0)
  }

  lemma HeaderKept(ids: TlpIds, addr: Addr, length: Len10, b: Beat, d0: Dword)
    requires b.keep == ALL && b.data == HeaderData(ids, addr, length, if length == 1 then 0x00 else 0xF0, d0)
    ensures Kept(b) == Header(ids, addr, length) + [d0]
  {}

  lemma WholeTlp(ids: TlpIds, at: Addr, w: seq<Dword>)
    requires |w| < 0x400
    ensures Header(ids, at, |w|) + w == TlpFor(ids, at, w)
  {}

  /** After the last beat of a TLP. */
  lemma TlpComplete(ids: TlpIds, v: Reg, h: Hist, pkts: seq<seq<Dword>>, out: View, n: nat, at: Addr)
    requires n == |FrameWords(h.sofar)| && at == h.base + n
    requires forall i :: 0 <= i < |h.todo| ==> Ready(h.todo[i])
    requires Claimed(v, h) && StatusSettled(v) && v.txValid
    requires Accounted(ids, h.finished, h.base, h.sofar, pkts)
    requires InFrame(v, h, n + v.tranLength, n + v.tranLength)
    requires out.pkts == pkts + [Header(ids, at, v.tranLength) + Words(h.todo[0])]
    requires out.part == [] && out.packed
    requires h.todo[0] != [] && v.state == AfterTlp(EndsFrame(h.todo[0]))
    ensures Agree(ids, v, GroupSent(h), out)
  {
    hide Words, FrameWords, JobPackets, FramePackets, Header, TlpFor, IdsOk;
    WholeTlp(ids, at, Words(h.todo[0]));
    GroupDone(ids, h, pkts);
    NoPackets(ids, h.base);
  }

  /** The frame has run into the end of its buffer. */
  predicate Overrun(r: Reg) {
    r.frameErr || r.desc.doneLength == r.maxFrameCheck.w0
  }

  predicate Checked(check: Quad<Len24>, length: nat) {
    exists i: nat :: i < 4 && length == LaneOf(check, i)
  }

  /** Lanes 1 to 3 of the saved beat, then lane 0 of the next unless the saved
      beat ends the transaction. */
  predicate Joins(tx: Beat, m: Beat, rx: Beat) {
    && tx.data == Quad(m.data.w1, m.data.w2, m.data.w3, rx.data.w0)
    && tx.keep == Quad(m.keep.w1, m.keep.w2, m.keep.w3, !m.eot && rx.keep.w0)
  }

  /** The state reached once the last beat of a TLP is out. */
  function AfterTlp(endOfFrame: bool): State {
    if endOfFrame then TrDone else ReadTrans
  }

  /** The effect of state SEND_IO_REQ_HDR when a beat is taken. In a frame that has
      run into the end of its buffer the packet has one dword, is complete with it,
      and ends the frame with the error flag. */
  ghost predicate HeaderTaken(r: Reg, v: Reg, ids: TlpIds, b: Beat) {
    var length: Len10 := if Overrun(r) then 1 else r.tranLength;
    && v.tx.keep == ALL && v.tx.last == (r.tx.last || length == 1)
    && v.tx.data == HeaderData(ids, r.newAddr, length, if length == 1 then 0x00 else 0xF0, b.data.w0)
    && v == r.(history := b, txValid := true, tx := v.tx, frameErr := Overrun(r),
               newAddr := Add30(r.newAddr, r.tranLength),
               desc := r.desc.(doneLength := Add24(r.desc.doneLength, 1), doneReq := v.desc.doneReq),
               state := if Overrun(r) then TrDone else if length == 1 then AfterTlp(b.last) else Collect)
    && v.desc.doneReq == (r.desc.doneReq || v.state == TrDone)
  }

  /** State SEND_IO_REQ_HDR: the header and the first dword. */
  method SendHeader(r: Reg, ids: TlpIds, b: Beat) returns (v: Reg)
    ensures HeaderTaken(r, v, ids, b)
  {
    hide HeaderData, IdsOk, Add24, Add30;
    var overrun := Overrun(r);
    var length: Len10 := if overrun then 1 else r.tranLength;
    var lastBe := if r.tranLength == 1 || overrun then 0x00 else 0xF0;
    var tx := r.tx.(data := HeaderData(ids, r.newAddr, length, lastBe, b.data.w0), keep := ALL);
    var desc := r.desc.(doneLength := Add24(r.desc.doneLength, 1));
    var state := Collect;
    if overrun {
      tx, desc, state := tx.(last := true), desc.(doneReq := true), TrDone;
    } else if r.tranLength == 1 {
      tx := tx.(last := true);
      if b.last {
        desc, state := desc.(doneReq := true), TrDone;
      } else {
        state := ReadTrans;
      }
    }
    v := r.(history := b, txValid := true, tx := tx, desc := desc, state := state,
            newAddr := Add30(r.newAddr, r.tranLength),
            frameErr := r.frameErr || r.desc.doneLength == r.maxFrameCheck.w0);
  }

  /** A header that finds the limit reached sends one well-formed packet of one dword,
      at the address that it has reached, and ends the frame with the error flag.
      `RxLimit.OverLong` says when this address is still in the buffer. */
  lemma OverrunEnds(ids: TlpIds, r: Reg, v: Reg, b: Beat)
    requires HeaderTaken(r, v, ids, b) && Overrun(r)
    ensures Kept(v.tx) == TlpFor(ids, r.newAddr, [b.data.w0]) && v.tx.last
    ensures v.state == TrDone && v.desc.doneReq && v.frameErr
  {
    HeaderKept(ids, r.newAddr, 1, v.tx, b.data.w0);
  }

  /** The header beat keeps the account. */
  lemma HeaderSent(ids: TlpIds, r: Reg, v: Reg, h: Hist, out: View, b: Beat)
    requires r.state == SendIoReqHdr && !r.txValid && StatusSettled(r) && Agree(ids, r, h, out) && b == h.todo[0][0]
    requires HeaderTaken(r, v, ids, b)
    ensures Agree(ids, v, if r.tranLength == 1 then GroupSent(h) else h.(pos := 1), Absorb(out, v.tx))
    ensures v.tranRd == r.tranRd && v.state == if r.tranLength == 1 then AfterTlp(EndsFrame(h.todo[0])) else Collect
  {
    hide Words, FrameWords, Accounted, Kept, Header, HeaderData, IdsOk, TranOf, GroupSent;
    HeaderKept(ids, r.newAddr, r.tranLength, v.tx, b.data.w0);
    assert out.part + Kept(v.tx) == Kept(v.tx);
    FirstDword(h.todo[0]);
    if r.tranLength == 1 {
      assert Words(h.todo[0]) == [b.data.w0];
      TlpComplete(ids, v, h, out.pkts, Absorb(out, v.tx), |FrameWords(h.sofar)|, r.newAddr);
    }
  }

  method CheckLength(check: Quad<Len24>, length: Len24) returns (tooLong: bool)
    ensures tooLong == Checked(check, length)
  {
    tooLong := false;
    for i := 0 to 4
      invariant tooLong <==> exists j: nat :: j < i && length == LaneOf(check, j)
    {
      if length == LaneOf(check, i) {
        tooLong := true;
      }
    }
  }

  /** The effect of state COLLECT when a beat is put out. */
  ghost predicate BeatTaken(r: Reg, v: Reg, rx: Beat) {
    && Joins(v.tx, r.history, rx) && v.tx.last == (r.tx.last || v.cnt == r.tranLength)
    && v == r.(txValid := true, tx := v.tx, cnt := Add10(r.cnt, CountOf(v.tx.keep)),
               desc := r.desc.(doneLength := Add24(r.desc.doneLength, CountOf(v.tx.keep)), doneReq := v.desc.doneReq),
               frameErr := r.frameErr || Checked(r.maxFrameCheck, v.desc.doneLength),
               history := if r.history.eot then r.history else rx,
               state := if v.cnt == r.tranLength then AfterTlp(if r.history.eot then r.history.last else rx.last)
                        else Collect)
    && v.desc.doneReq == (r.desc.doneReq || v.state == TrDone)
  }

  /** State COLLECT: three lanes of the saved beat and the next one's first. */
  method CollectBeat(r: Reg, rx: Beat) returns (v: Reg, accept: bool)
    requires r.state == Collect
    ensures BeatTaken(r, v, rx) && accept == !r.history.eot
  {
    hide CountOf, Checked, LaneOf, Add24, Add10;
    var m := r.history;
    var tx := r.tx.(data := Quad(m.data.w1, m.data.w2, m.data.w3, rx.data.w0),
                    keep := Quad(m.keep.w1, m.keep.w2, m.keep.w3, rx.keep.w0));
    var history, desc, state := m, r.desc, r.state;
    accept := !m.eot;
    if m.eot {
      tx := tx.(keep := tx.keep.(w3 := false));
    } else {
      history := rx;
    }
    var increment := CountKeeps(tx.keep);
    desc := desc.(doneLength := Add24(desc.doneLength, increment));
    var cnt: Len10 := Add10(r.cnt, increment);
    var tooLong := CheckLength(r.maxFrameCheck, desc.doneLength);
    if cnt == r.tranLength {
      tx := tx.(last := true);
      if (m.eot && m.last) || (!m.eot && rx.last) {
        desc, state := desc.(doneReq := true), TrDone;
      } else {
        state := ReadTrans;
      }
    }
    v := r.(txValid := true, tx := tx, history := history, desc := desc, cnt := cnt,
            frameErr := r.frameErr || tooLong, state := state);
  }

  /** Which dwords of the transaction a joined beat carries: inside it. */
  lemma JoinedInside(g: Group, pos: nat, tx: Beat)
    requires Ready(g) && 1 <= pos < |g| && Joins(tx, g[pos - 1], g[pos])
    ensures var cnt := 4 * pos - 3;
            && tx.keep == ALL && |Kept(tx)| == 4 && !g[pos - 1].eot
            && cnt + 4 <= |Words(g)| && Kept(tx) == Words(g)[cnt..cnt + 4]
            && (cnt + 4 == |Words(g)| ==> pos == |g| - 1)
  {
    hide Words, Kept;
    GroupWords(g, pos - 1);
    GroupWords(g, pos);
    GroupWords(g, |g| - 1);
    KeptAll(g[pos - 1]);
    KeptAll(tx);
    KeptFirst(g[pos]);
    KeptFirst(g[|g| - 1]);
    var w, m := Words(g), g[pos - 1];
    var seen := w[4 * pos - 4..4 * pos];
    assert seen == [m.data.w0, m.data.w1, m.data.w2, m.data.w3];
    assert w[4 * pos - 3] == seen[1] && w[4 * pos - 2] == seen[2] && w[4 * pos - 1] == seen[3];
    assert w[4 * pos] == w[4 * pos..4 * pos + |Kept(g[pos])|][0] == g[pos].data.w0;
    assert w[4 * pos - 3..4 * pos + 1] == [seen[1], seen[2], seen[3], w[4 * pos]];
  }

  /** ... and at its end. */
  lemma JoinedLast(g: Group, tx: Beat, rx: Beat)
    requires Ready(g) && Joins(tx, g[|g| - 1], rx)
    requires 4 * |g| - 3 < |Words(g)|
    ensures var cnt := 4 * |g| - 3;
            && KeepsPrefix(tx) && cnt + |Kept(tx)| == |Words(g)| && Kept(tx) == Words(g)[cnt..]
  {
    hide Words, Kept;
    GroupWords(g, |g| - 1);
    var m := g[|g| - 1];
    KeptShift(m, tx);
    var w := Words(g);
    assert w[4 * |g| - 4..][1..] == w[4 * |g| - 3..];
  }

  lemma InBounds(check: Quad<Len24>, maxFrame: nat, length: nat)
    requires length + 5 <= maxFrame < 0x100_0000
    requires check == Quad(maxFrame - 1, maxFrame - 2, maxFrame - 3, maxFrame - 4)
    ensures !Checked(check, length) && length != check.w0
  {}

  lemma Longer(head: seq<Dword>, w: seq<Dword>, cnt: nat, k: nat)
    requires cnt + k <= |w|
    ensures head + w[..cnt] + w[cnt..cnt + k] == head + w[..cnt + k]
    ensures cnt + k == |w| ==> head + w[..cnt + k] == head + w
  {
    assert w[..cnt] + w[cnt..cnt + k] == w[..cnt + k];
  }

  /** A joined beat, wherever it falls in the transaction. */
  lemma JoinedBeat(g: Group, pos: nat, tx: Beat, rx: Beat)
    requires Ready(g) && 1 <= pos <= |g| && 4 * pos - 3 < |Words(g)|
    requires Joins(tx, g[pos - 1], rx) && (pos < |g| ==> rx == g[pos])
    ensures g[pos - 1].eot <==> pos == |g|
    ensures var cnt := 4 * pos - 3;
            var k := CountOf(tx.keep);
            && k == |Kept(tx)| <= 4
            && cnt + k <= |Words(g)| && Kept(tx) == Words(g)[cnt..cnt + k]
            && (cnt + k == |Words(g)| ==> KeepsPrefix(tx) && pos >= |g| - 1)
            && (cnt + k < |Words(g)| ==> tx.keep == ALL && k == 4 && pos < |g|)
  {
    hide Words, Kept, CountOf, Joins;
    KeptCount(tx);
    if pos < |g| {
      JoinedInside(g, pos, tx);
    } else {
      JoinedLast(g, tx, rx);
    }
  }

  /** BeatTaken when no counter overflows. */
  ghost predicate Collected(r: Reg, v: Reg, rx: Beat, cnt: Len10, doneLength: Len24) {
    && Joins(v.tx, r.history, rx) && v.tx.last == (v.cnt == r.tranLength)
    && v == r.(txValid := true, tx := v.tx, cnt := cnt,
               desc := r.desc.(doneLength := doneLength, doneReq := v.desc.doneReq),
               history := if r.history.eot then r.history else rx,
               state := if cnt == r.tranLength then AfterTlp(if r.history.eot then r.history.last else rx.last)
                        else Collect)
  }

  lemma NoOverflow(r: Reg, v: Reg, h: Hist, rx: Beat, n: nat, m: nat)
    requires !r.txValid && !r.tx.last && InFrame(r, h, n, m) && r.cnt < r.tranLength <= MAX_WORDS
    requires BeatTaken(r, v, rx) && n + CountOf(v.tx.keep) <= m
    ensures Collected(r, v, rx, r.cnt + CountOf(v.tx.keep), n + CountOf(v.tx.keep))
  {
    hide Joins, Checked, CountOf;
    KeptCount(v.tx);
    InBounds(r.maxFrameCheck, h.maxFrame, n + CountOf(v.tx.keep));
  }

  /** One COLLECT beat cannot get past the four comparisons: it adds at most four
      dwords, so from below the last four dwords of the buffer it meets one of them
      or stays below. A header can; for whole frames see module RxLimit. */
  lemma LimitCaught(check: Quad<Len24>, maxFrame: nat, length: nat, k: nat)
    requires 4 <= maxFrame < 0x100_0000 && k <= 4 && length + 4 < maxFrame
    requires check == Quad(maxFrame - 1, maxFrame - 2, maxFrame - 3, maxFrame - 4)
    ensures Checked(check, length + k) <==> length + k + 4 >= maxFrame
    ensures length + k < maxFrame
  {
    if length + k + 4 >= maxFrame {
      var i := maxFrame - 1 - (length + k);
      assert length + k == LaneOf(check, i);
    }
  }

  /** A joined beat that does not end the TLP. */
  lemma TlpContinues(ids: TlpIds, r: Reg, v: Reg, h: Hist, part: seq<Dword>, rx: Beat)
    requires Collecting(ids, r, h, part) && h.pos < |h.todo[0]| && rx == h.todo[0][h.pos]
    requires r.cnt + 4 < r.tranLength && !r.history.eot
    requires Collected(r, v, rx, r.cnt + 4, |FrameWords(h.sofar)| + r.cnt + 4)
    requires Kept(v.tx) == Words(h.todo[0])[r.cnt..r.cnt + 4]
    ensures Collecting(ids, v, h.(pos := h.pos + 1), part + Kept(v.tx))
  {
    hide Words, FrameWords, Kept, Header, TranOf, Joins;
    Longer(Header(ids, h.base + |FrameWords(h.sofar)|, r.tranLength), Words(h.todo[0]), r.cnt, 4);
  }

  /** A joined beat keeps the account. */
  lemma BeatCollected(ids: TlpIds, r: Reg, v: Reg, h: Hist, out: View, rx: Beat)
    requires r.state == Collect && !r.txValid && StatusSettled(r) && Agree(ids, r, h, out)
    requires h.pos < |h.todo[0]| ==> rx == h.todo[0][h.pos]
    requires BeatTaken(r, v, rx)
    ensures Agree(ids, v, if v.cnt == r.tranLength then GroupSent(h)
                          else h.(pos := h.pos + (if r.history.eot then 0 else 1)), Absorb(out, v.tx))
    ensures |h.todo[0]| >= h.pos + (if r.history.eot then 0 else 1)
    ensures v.cnt == r.tranLength ==> |h.todo[0]| == h.pos + (if r.history.eot then 0 else 1)
    ensures v.cnt == r.tranLength ==> v.state == AfterTlp(EndsFrame(h.todo[0]))
    ensures r.history.eot ==> v.cnt == r.tranLength
  {
    hide Words, FrameWords, Accounted, Kept, CountOf, Header, TranOf, GroupSent, Joins, BeatTaken, Collecting;
    Unpack(ids, r, v, h, out.part, rx);
    var g := h.todo[0];
    var n := |FrameWords(h.sofar)|;
    BeatPlaced(r, v, h, g, Words(g), n, rx, |Kept(v.tx)|);
    if v.cnt == r.tranLength {
      Longer(Header(ids, h.base + n, r.tranLength), Words(g), r.cnt, |Kept(v.tx)|);
      TlpComplete(ids, v, h, out.pkts, Absorb(out, v.tx), n, h.base + n);
    } else {
      TlpContinues(ids, r, v, h, out.part, rx);
    }
  }

  /** Where a joined beat stands in its transaction, with the counters after it. */
  lemma BeatPlaced(r: Reg, v: Reg, h: Hist, g: Group, w: seq<Dword>, n: nat, rx: Beat, k: nat)
    requires !r.txValid && !r.tx.last && Ready(g) && w == Words(g) && k == |Kept(v.tx)|
    requires 1 <= h.pos <= |g| && r.history == g[h.pos - 1] && (h.pos < |g| ==> rx == g[h.pos])
    requires r.cnt == 4 * h.pos - 3 < r.tranLength == |w| && InFrame(r, h, n + r.cnt, n + r.tranLength)
    requires Joins(v.tx, r.history, rx) && BeatTaken(r, v, rx)
    ensures k <= 4 && r.cnt + k <= |w| <= MAX_WORDS && Kept(v.tx) == w[r.cnt..r.cnt + k]
    ensures Collected(r, v, rx, r.cnt + k, n + r.cnt + k)
    ensures r.history.eot <==> h.pos == |g|
    ensures r.cnt + k == |w| ==> KeepsPrefix(v.tx) && h.pos >= |g| - 1
    ensures r.cnt + k < |w| ==> v.tx.keep == ALL && k == 4 && h.pos < |g|
  {
    hide Words, Kept, CountOf, Joins, BeatTaken, Ready, Collected, InFrame;
    JoinedBeat(g, h.pos, v.tx, rx);
    NotTooLong(g);
    NoOverflow(r, v, h, rx, n + r.cnt, n + r.tranLength);
  }

  lemma NotTooLong(g: Group)
    requires Ready(g)
    ensures |Words(g)| <= MAX_WORDS
  {
    hide Words;
  }

  lemma Unpack(ids: TlpIds, r: Reg, v: Reg, h: Hist, part: seq<Dword>, rx: Beat)
    requires Collecting(ids, r, h, part) && BeatTaken(r, v, rx)
    ensures Joins(v.tx, r.history, rx)
    ensures var n := |FrameWords(h.sofar)|;
            && h.todo != [] && Claimed(r, h) && InFrame(r, h, n + r.cnt, n + r.tranLength)
            && var g := h.todo[0];
               && 1 <= h.pos <= |g| && r.history == g[h.pos - 1] && r.cnt == 4 * h.pos - 3 < r.tranLength
               && part == Header(ids, h.base + n, r.tranLength) + Words(g)[..r.cnt]
  {
    hide Words, FrameWords, CountOf, Header, TranOf, Joins, Checked;
  }

  /** Which beat the data FIFO has to deliver next. */
  lemma NextBeat(ids: TlpIds, r: Reg, h: Hist, out: View)
    requires Agree(ids, r, h, out) && r.state in {SendIoReqHdr, Collect}
    ensures h.todo != [] && h.pos <= |h.todo[0]|
    ensures r.state == SendIoReqHdr ==> h.pos == 0 < |h.todo[0]|
    ensures r.state == Collect ==> (r.history.eot <==> h.pos == |h.todo[0]|)
    ensures r.state == SendIoReqHdr && r.tranLength == 1 ==> |h.todo[0]| == 1
    ensures r.state == Collect ==> r.cnt == 4 * h.pos - 3 < r.tranLength == |Words(h.todo[0])|
  {
    hide Words, FrameWords, Accounted, Header;
    FirstDword(h.todo[0]);
  }

  /** The data FIFO delivers the beats of the pending transactions in order. */
  ghost predicate LegalData(h: Hist, rxValid: bool, rx: Beat) {
    rxValid && h.todo != [] && h.pos < |h.todo[0]| ==> rx == h.todo[0][h.pos]
  }

  /** The transaction FIFO delivers their descriptors, and not before there is
      one; a frame starts with SOF and, up to the transaction now read, leaves
      five dwords of its buffer free; the buffer lies below 4 GB. */
  ghost predicate LegalControl(state: State, h: Hist, rxValid: bool, rx: Beat, tranValid: bool, tran: Tran,
                               desc: DescFromPcie) {
    && (state == Idle && tranValid && rxValid ==> rx.sof)
    && (state == ReadTrans && tranValid ==>
          && h.todo != [] && tran == TranOf(h.todo[0])
          && |FrameWords(h.sofar)| + tran.length + 5 <= h.maxFrame)
    && (state == AckWait && desc.newAck ==> desc.newAddr + desc.maxFrame <= 0x4000_0000)
  }

  /** What the neighbours of the engine have to respect. */
  ghost predicate LegalInput(state: State, h: Hist, rxValid: bool, rx: Beat, tranValid: bool, tran: Tran,
                             desc: DescFromPcie) {
    LegalData(h, rxValid, rx) && LegalControl(state, h, rxValid, rx, tranValid, tran, desc)
  }

  /** The request lines the descriptor controller watches. */
  ghost predicate Handshake(r: Reg) {
    (r.desc.newReq <==> r.state == AckWait) && (r.desc.doneReq <==> r.state == TrDone)
  }

  /** A request line stays up until the clock in which it is acknowledged, and
      the report stays the same as long as its line is up. */
  ghost predicate Answered(p: DescToPcie, desc: DescFromPcie, p': DescToPcie) {
    && (p.newReq ==> (p'.newReq <==> !desc.newAck))
    && (p.doneReq ==> (p'.doneReq <==> !desc.doneAck))
    && (p.doneReq ==> p'.doneAddr == p.doneAddr && p'.doneLength == p.doneLength)
  }

  predicate Busy(s: State) {
    s == ReadTrans || s == SendIoReqHdr || s == Collect
  }

  /** Where a frame begins: only an acknowledged request leads to it, and its buffer
      is the one that came with the acknowledgement. */
  ghost predicate Turned(s: State, base: nat, desc: DescFromPcie, s': State, base': nat) {
    && base' == (if s == AckWait && desc.newAck then desc.newAddr else base)
    && (!InTlp(s) ==>
          && (s' == TrDone ==> s == TrDone)
          && (Busy(s') <==> s == ReadTrans || (s == AckWait && desc.newAck)))
  }

  /** The room for a frame is what came with its buffer. */
  predicate Sized(s: State, maxFrame: nat, desc: DescFromPcie, maxFrame': nat) {
    maxFrame' == if s == AckWait && desc.newAck then desc.maxFrame else maxFrame
  }

  /** The part of a clock that every state shares: strobes cleared, the status
      outputs refreshed, the output register released. */
  function Ticked(r: Reg, dmaChannel: nat, txReady: bool): Reg {
    var v := r.(tranRd := false,
                desc := r.desc.(doneFrameErr := r.frameErr, doneTranEofe := r.tranEofe,
                                doneDmaCh := dmaChannel, doneSubCh := r.tranSubId));
    if txReady then v.(txValid := false, tx := r.tx.(last := false)) else v
  }

  lemma TickKeeps(ids: TlpIds, r: Reg, dmaChannel: nat, txReady: bool, h: Hist, out: View)
    requires Agree(ids, r, h, out)
    ensures Agree(ids, Ticked(r, dmaChannel, txReady), h, out)
    ensures r.state in {SendIoReqHdr, Collect} ==> StatusSettled(Ticked(r, dmaChannel, txReady))
  {
    hide Words, FrameWords, Accounted, Header, TranOf;
  }

  lemma ArrivalKeeps(ids: TlpIds, r: Reg, h: Hist, out: View, gs: seq<Group>)
    requires Agree(ids, r, h, out) && forall i :: 0 <= i < |gs| ==> Ready(gs[i])
    ensures Agree(ids, r, h.(todo := h.todo + gs), out)
  {
    hide Words, FrameWords, Accounted, Header, TranOf, Ready;
  }

  /** What latching a descriptor is for: the frame starts empty at its address, with
      the checks set for its size, or is in error if there is no room for a beat. */
  lemma FrameStarts(r: Reg, desc: DescFromPcie, v: Reg, h: Hist)
    requires v == Latched(r, desc)
    ensures v.frameErr <==> desc.maxFrame < 4
    ensures 5 <= desc.maxFrame && desc.newAddr + desc.maxFrame <= 0x4000_0000 ==>
              InFrame(v, h.(base := desc.newAddr, maxFrame := desc.maxFrame), 0, 0)
    ensures 4 <= desc.maxFrame ==>
              forall length: nat ::
                Checked(v.maxFrameCheck, length) <==> desc.maxFrame - 4 <= length < desc.maxFrame
  {
    if 4 <= desc.maxFrame {
      forall length: nat | desc.maxFrame - 4 <= length < desc.maxFrame ensures Checked(v.maxFrameCheck, length) {
        var i := desc.maxFrame - 1 - length;
        assert length == LaneOf(v.maxFrameCheck, i);
      }
    }
  }

  function Latched(r: Reg, desc: DescFromPcie): Reg {
    r.(desc := r.desc.(newReq := false, doneAddr := desc.newAddr, doneLength := 0),
       frameErr := desc.maxFrame < 4, newAddr := desc.newAddr, state := ReadTrans,
       maxFrameCheck := if desc.maxFrame < 4 then r.maxFrameCheck
                        else Quad(desc.maxFrame - 1, desc.maxFrame - 2, desc.maxFrame - 3, desc.maxFrame - 4))
  }

  lemma LatchedLines(u: Reg, desc: DescFromPcie)
    requires u.state == AckWait && Handshake(u) && !u.tranRd && desc.newAck
    ensures var v := Latched(u, desc);
            && Handshake(v) && Answered(u.desc, desc, v.desc) && v.desc.doneDmaCh == u.desc.doneDmaCh
            && v.state == ReadTrans && !v.tranRd && v.txValid == u.txValid && v.tx == u.tx
  {}

  /** State ACK_WAIT: the descriptor for a new frame is here. */
  method LatchDescriptor(r: Reg, desc: DescFromPcie) returns (v: Reg)
    ensures v == Latched(r, desc)
  {
    var frameErr, check := false, r.maxFrameCheck;
    if desc.maxFrame == 0 || desc.maxFrame == 1 || desc.maxFrame == 2 || desc.maxFrame == 3 {
      frameErr := true;
    } else {
      check := Quad(desc.maxFrame - 1, desc.maxFrame - 2, desc.maxFrame - 3, desc.maxFrame - 4);
    }
    v := r.(desc := r.desc.(newReq := false, doneAddr := desc.newAddr, doneLength := 0),
            frameErr := frameErr, maxFrameCheck := check, newAddr := desc.newAddr, state := ReadTrans);
  }

  /** The states that put out nothing keep the account. */
  lemma ControlKeeps(ids: TlpIds, u: Reg, v: Reg, h: Hist, h': Hist, out: View, tran: Tran, desc: DescFromPcie)
    requires Agree(ids, u, h, out) && !u.tranRd
    requires match u.state
             case Idle => v == u || v == u.(desc := u.desc.(newReq := true), state := AckWait)
             case AckWait =>
               v == u || (desc.newAddr + desc.maxFrame <= 0x4000_0000 && v == Latched(u, desc))
             case ReadTrans =>
               v == u || (h.todo != [] && tran == TranOf(h.todo[0])
                 && |FrameWords(h.sofar)| + tran.length + 5 <= h.maxFrame
                 && v == u.(tranRd := true, tranSubId := tran.subId, tranEofe := tran.eofe,
                            tranLength := tran.length % 0x200, tranCnt := tran.count % 0x200, cnt := 1,
                            state := SendIoReqHdr))
             case TrDone => v == u || v == u.(desc := u.desc.(doneReq := false), state := Idle)
             case DataDump => true
             case SendIoReqHdr => false
             case Collect => false
    requires h' == if u.state == AckWait && v != u then h.(base := desc.newAddr, maxFrame := desc.maxFrame) else h
    ensures Agree(ids, v, h', out) && u.state != DataDump
  {
    hide Words, FrameWords, JobPackets, FramePackets, Header;
    NoPackets(ids, h.base);
    NoPackets(ids, desc.newAddr);
  }

  predicate InTlp(state: State) {
    state == SendIoReqHdr || state == Collect
  }

  /** How one clock consumes the two FIFOs: at most one beat, in order, and the
      transaction descriptor is popped once for each transaction sent. */
  ghost predicate Flow(inTlp: bool, h: Hist, r': Reg, h': Hist, rxReady: bool) {
    var took := if rxReady then 1 else 0;
    if h'.done == h.done then
      && h' == h.(pos := h.pos + took, base := h'.base, maxFrame := h'.maxFrame)
      && (InTlp(r'.state) <==> inTlp || r'.tranRd) && !(inTlp && r'.tranRd)
    else
      && h.todo != [] && |h.todo[0]| == h.pos + took && h' == GroupSent(h)
      && inTlp && r'.state == AfterTlp(EndsFrame(h.todo[0])) && !r'.tranRd
  }

  /** What a clock does to the frames finished: the one in progress joins them as the
      engine enters TR_DONE, and only an acknowledged request begins another. */
  ghost predicate Finishes(s: State, base: nat, finished: seq<Job>, desc: DescFromPcie, s': State,
                           finished': seq<Job>) {
    if s' == TrDone && s != TrDone then
      Busy(s) && |finished'| == |finished| + 1 && finished <= finished' && finished'[|finished|].base == base
    else
      finished' == finished && (Busy(s') <==> Busy(s) || (s == AckWait && desc.newAck))
  }

  lemma FinishedFrames(r: Reg, h: Hist, desc: DescFromPcie, rxReady: bool, r': Reg, h': Hist)
    requires Turned(r.state, h.base, desc, r'.state, h'.base)
    requires Flow(InTlp(r.state), h, r', h', rxReady)
    ensures Finishes(r.state, h.base, h.finished, desc, r'.state, h'.finished)
  {
    hide FrameWords;
    if h'.done != h.done {
      var gs := h.sofar + [h.todo[0]];
      assert EndsFrame(h.todo[0]) ==> h'.finished == h.finished + [Job(h.base, gs)];
    }
  }

  lemma FlowKeepsLedger(inTlp: bool, h: Hist, r': Reg, h': Hist, rxReady: bool)
    requires Ledger(h) && Flow(inTlp, h, r', h', rxReady)
    ensures Ledger(h') && (r'.tranRd ==> InTlp(r'.state))
  {
    if h'.done != h.done {
      LedgerKept(h);
    }
  }

  /** The view after a clock that turned registers u into v. */
  function ViewAfter(out: View, u: Reg, v: Reg): View {
    if v.txValid && !u.txValid then Absorb(out, v.tx) else out
  }

  /** A state's part of a clock, from the ticked registers u to v. */
  ghost predicate Stepped(ids: TlpIds, legal: bool, u: Reg, h: Hist, out: View, v: Reg, h': Hist, rxReady: bool) {
    && Handshake(v) && (u.txValid ==> v.txValid && v.tx == u.tx)
    && v.desc.doneDmaCh == u.desc.doneDmaCh
    && (legal ==> Agree(ids, v, h', ViewAfter(out, u, v)) && Flow(InTlp(u.state), h, v, h', rxReady))
  }

  /** State SEND_IO_REQ_HDR in one clock. */
  ghost predicate HeaderClock(ids: TlpIds, u: Reg, rxValid: bool, rx: Beat, v: Reg, rxReady: bool) {
    && rxReady == (!u.txValid && rxValid)
    && if rxReady then HeaderTaken(u, v, ids, rx) else v == u
  }

  /** State COLLECT in one clock. */
  ghost predicate BeatClock(u: Reg, rxValid: bool, rx: Beat, v: Reg, rxReady: bool) {
    var moves := !u.txValid && (u.history.eot || rxValid);
    && rxReady == (moves && !u.history.eot)
    && if moves then BeatTaken(u, v, rx) else v == u
  }

  /** The other states in one clock. */
  function Controlled(u: Reg, tranRd: bool, rxValid: bool, rx: Beat, tranValid: bool, tran: Tran,
                      desc: DescFromPcie): Reg {
    match u.state
    case Idle =>
      if !(tranValid && !tranRd && !u.txValid && rxValid) then u
      else if rx.sof then u.(desc := u.desc.(newReq := true), state := AckWait) else u.(state := DataDump)
    case DataDump =>
      if !rxValid then u
      else if u.dumpCnt == tran.count || rx.last then u.(dumpCnt := 0, tranRd := true, state := Idle)
      else u.(dumpCnt := Add10(u.dumpCnt, 1))
    case AckWait => if desc.newAck then Latched(u, desc) else u
    case ReadTrans =>
      if !tranValid then u
      else u.(tranRd := true, tranSubId := tran.subId, tranEofe := tran.eofe, tranLength := tran.length % 0x200,
              tranCnt := tran.count % 0x200, cnt := 1, state := SendIoReqHdr)
    case TrDone => if desc.doneAck then u.(desc := u.desc.(doneReq := false), state := Idle) else u
    case SendIoReqHdr => u
    case Collect => u
  }

  /** The registers after one clock, whatever the neighbours do. */
  ghost predicate Moved(ids: TlpIds, dmaChannel: nat, r: Reg, rxValid: bool, rx: Beat, tranValid: bool, tran: Tran,
                        desc: DescFromPcie, txReady: bool, v: Reg, rxReady: bool) {
    var u := Ticked(r, dmaChannel, txReady);
    match r.state
    case SendIoReqHdr => HeaderClock(ids, u, rxValid, rx, v, rxReady)
    case Collect => BeatClock(u, rxValid, rx, v, rxReady)
    case _ => v == Controlled(u, r.tranRd, rxValid, rx, tranValid, tran, desc) && rxReady == (r.state == DataDump)
  }

  method StepSendIoReqHdr(u: Reg, ids: TlpIds, rxValid: bool, rx: Beat, ghost legal: bool, ghost h: Hist,
                          ghost out: View)
    returns (v: Reg, rxReady: bool, ghost h': Hist)
    requires u.state == SendIoReqHdr && Handshake(u) && !u.tranRd
    requires legal ==> Agree(ids, u, h, out) && StatusSettled(u)
    requires legal ==> LegalData(h, rxValid, rx)
    ensures h'.base == h.base && h'.maxFrame == h.maxFrame
    ensures Stepped(ids, legal, u, h, out, v, h', rxReady)
    ensures (rxReady ==> rxValid) && (legal ==> !v.tranRd)
    ensures HeaderClock(ids, u, rxValid, rx, v, rxReady)
  {
    hide Agree, HeaderData, Absorb, Words, FrameWords, Add24, Add30;
    v, rxReady, h' := u, false, h;
    if !u.txValid && rxValid {
      rxReady := true;
      v := SendHeader(u, ids, rx);
      if legal {
        NextBeat(ids, u, h, out);
        HeaderSent(ids, u, v, h, out, rx);
        h' := if u.tranLength == 1 then GroupSent(h) else h.(pos := 1);
      }
    }
  }

  method StepCollect(u: Reg, ids: TlpIds, rxValid: bool, rx: Beat, ghost legal: bool, ghost h: Hist, ghost out: View)
    returns (v: Reg, rxReady: bool, ghost h': Hist)
    requires u.state == Collect && Handshake(u) && !u.tranRd
    requires legal ==> Agree(ids, u, h, out) && StatusSettled(u)
    requires legal ==> LegalData(h, rxValid, rx)
    ensures h'.base == h.base && h'.maxFrame == h.maxFrame
    ensures Stepped(ids, legal, u, h, out, v, h', rxReady)
    ensures (rxReady ==> rxValid) && (legal ==> !v.tranRd)
    ensures BeatClock(u, rxValid, rx, v, rxReady)
  {
    hide Agree, Joins, Checked, Absorb, Words, FrameWords, CountOf, Add24, Add10;
    v, rxReady, h' := u, false, h;
    if !u.txValid && (u.history.eot || rxValid) {
      v, rxReady := CollectBeat(u, rx);
      if legal {
        NextBeat(ids, u, h, out);
        BeatCollected(ids, u, v, h, out, rx);
        h' := if v.cnt == u.tranLength then GroupSent(h) else h.(pos := h.pos + (if rxReady then 1 else 0));
      }
    }
  }

  method Control(u: Reg, tranRd: bool, rxValid: bool, rx: Beat, tranValid: bool, tran: Tran, desc: DescFromPcie)
    returns (v: Reg, rxReady: bool)
    requires !InTlp(u.state)
    ensures v == Controlled(u, tranRd, rxValid, rx, tranValid, tran, desc) && rxReady == (u.state == DataDump)
  {
    hide Add10, Latched;
    v, rxReady := u, false;
    match u.state {
      case Idle =>
        if tranValid && !tranRd && !u.txValid && rxValid {
          if rx.sof {
            v := u.(desc := u.desc.(newReq := true), state := AckWait);
          } else {
            v := u.(state := DataDump);
          }
        }
      case DataDump =>
        rxReady := true;
        if rxValid {
          v := u.(dumpCnt := Add10(u.dumpCnt, 1));
          if u.dumpCnt == tran.count || rx.last {
            v := u.(dumpCnt := 0, tranRd := true, state := Idle);
          }
        }
      case AckWait =>
        if desc.newAck {
          v := LatchDescriptor(u, desc);
        }
      case ReadTrans =>
        if tranValid {
          v := u.(tranRd := true, tranSubId := tran.subId, tranEofe := tran.eofe,
                  tranLength := tran.length % 0x200, tranCnt := tran.count % 0x200, cnt := 1, state := SendIoReqHdr);
        }
      case TrDone =>
        if desc.doneAck {
          v := u.(desc := u.desc.(doneReq := false), state := Idle);
        }
    }
  }

  /** The descriptor of the frame now in progress. */
  function Given(u: Reg, h: Hist, desc: DescFromPcie): Hist {
    if u.state == AckWait && desc.newAck then h.(base := desc.newAddr, maxFrame := desc.maxFrame) else h
  }

  /** The lines that the neighbours of the engine watch. */
  lemma ControlledLines(u: Reg, tranRd: bool, rxValid: bool, rx: Beat, tranValid: bool, tran: Tran, desc: DescFromPcie,
                        h: Hist)
    requires !InTlp(u.state) && Handshake(u) && !u.tranRd
    ensures var v := Controlled(u, tranRd, rxValid, rx, tranValid, tran, desc);
            && Handshake(v) && v.txValid == u.txValid && v.tx == u.tx && v.desc.doneDmaCh == u.desc.doneDmaCh
            && Answered(u.desc, desc, v.desc) && Turned(u.state, h.base, desc, v.state, Given(u, h, desc).base)
            && (u.state == ReadTrans && v.tranRd ==> tranValid)
  {
    hide Add10, Latched;
    if u.state == AckWait && desc.newAck {
      LatchedLines(u, desc);
    }
  }

  lemma ControlledKeeps(ids: TlpIds, u: Reg, tranRd: bool, rxValid: bool, rx: Beat, tranValid: bool, tran: Tran,
                        desc: DescFromPcie, h: Hist, out: View)
    requires !InTlp(u.state) && Handshake(u) && !u.tranRd
    requires Agree(ids, u, h, out) && LegalControl(u.state, h, rxValid, rx, tranValid, tran, desc)
    ensures var v, h' := Controlled(u, tranRd, rxValid, rx, tranValid, tran, desc), Given(u, h, desc);
            && Agree(ids, v, h', out) && Flow(InTlp(u.state), h, v, h', false)
            && u.state != DataDump && (v.tranRd ==> tranValid)
  {
    hide Agree, FrameWords, TranOf, Add10, Ready, Latched;
    var v, h' := Controlled(u, tranRd, rxValid, rx, tranValid, tran, desc), Given(u, h, desc);
    ControlledLines(u, tranRd, rxValid, rx, tranValid, tran, desc, h);
    if u.state == AckWait && desc.newAck {
      LatchedLines(u, desc);
    }
    ControlKeeps(ids, u, v, h, h', out, tran, desc);
  }

  method StepControl(u: Reg, ids: TlpIds, tranRd: bool, rxValid: bool, rx: Beat, tranValid: bool, tran: Tran,
                     desc: DescFromPcie, ghost legal: bool, ghost h: Hist, ghost out: View)
    returns (v: Reg, rxReady: bool, ghost h': Hist)
    requires !InTlp(u.state) && Handshake(u) && !u.tranRd
    requires legal ==> Agree(ids, u, h, out) && LegalControl(u.state, h, rxValid, rx, tranValid, tran, desc)
    ensures Stepped(ids, legal, u, h, out, v, h', rxReady)
    ensures legal ==> !rxReady && (v.tranRd ==> tranValid)
    ensures Answered(u.desc, desc, v.desc) && Turned(u.state, h.base, desc, v.state, h'.base)
    ensures Sized(u.state, h.maxFrame, desc, h'.maxFrame)
    ensures v == Controlled(u, tranRd, rxValid, rx, tranValid, tran, desc) && rxReady == (u.state == DataDump)
  {
    hide Agree, Absorb, Controlled, Flow, Answered, Turned, LegalControl, Handshake;
    v, rxReady := Control(u, tranRd, rxValid, rx, tranValid, tran, desc);
    h' := Given(u, h, desc);
    ControlledLines(u, tranRd, rxValid, rx, tranValid, tran, desc, h);
    if legal {
      ControlledKeeps(ids, u, tranRd, rxValid, rx, tranValid, tran, desc, h, out);
    }
  }

  /** The combinatorial process: next registers and tReady from the current ones. */
  method Step(r: Reg, ids: TlpIds, dmaChannel: nat, rxValid: bool, rx: Beat, tranValid: bool, tran: Tran,
              desc: DescFromPcie, txReady: bool, ghost legal: bool, ghost h: Hist, ghost out: View)
    returns (v: Reg, rxReady: bool, ghost h': Hist)
    requires Handshake(r)
    requires legal ==> Agree(ids, r, h, out) && LegalInput(r.state, h, rxValid, rx, tranValid, tran, desc)
    ensures Stepped(ids, legal, Ticked(r, dmaChannel, txReady), h, out, v, h', rxReady)
    ensures legal ==> (rxReady ==> rxValid) && (v.tranRd ==> tranValid)
    ensures Answered(r.desc, desc, v.desc) && Turned(r.state, h.base, desc, v.state, h'.base)
    ensures Sized(r.state, h.maxFrame, desc, h'.maxFrame)
    ensures Moved(ids, dmaChannel, r, rxValid, rx, tranValid, tran, desc, txReady, v, rxReady)
  {
    hide Agree, Absorb, LegalData, LegalControl, Stepped, HeaderClock, BeatClock, Controlled;
    var u := Ticked(r, dmaChannel, txReady);
    if legal {
      TickKeeps(ids, r, dmaChannel, txReady, h, out);
    }
    match r.state {
      case SendIoReqHdr =>
        v, rxReady, h' := StepSendIoReqHdr(u, ids, rxValid, rx, legal, h, out);
      case Collect =>
        v, rxReady, h' := StepCollect(u, ids, rxValid, rx, legal, h, out);
      case _ =>
        v, rxReady, h' := StepControl(u, ids, r.tranRd, rxValid, rx, tranValid, tran, desc, legal, h, out);
    }
  }

  /** The output register and its sink: a clock's effect on the beats put out. */
  lemma PutOut(ids: TlpIds, legal: bool, r: Reg, dmaChannel: nat, txReady: bool, h: Hist, sent: seq<Beat>, v: Reg,
               h': Hist, rxReady: bool)
    requires Stepped(ids, legal, Ticked(r, dmaChannel, txReady), h, Deframe(WithPending(sent, r.txValid, r.tx)), v, h',
                     rxReady)
    ensures Handshake(v) && v.desc.doneDmaCh == dmaChannel
    ensures legal ==> Flow(InTlp(r.state), h, v, h', rxReady)
    ensures var sent' := if txReady then WithPending(sent, r.txValid, r.tx) else sent;
            legal ==> Agree(ids, v, h', Deframe(WithPending(sent', v.txValid, v.tx)))
  {
    hide Agree, Absorb, Deframe, Flow, Handshake;
    DeframeSnoc(if txReady then WithPending(sent, r.txValid, r.tx) else sent, v.tx);
  }

  /** The head transaction is further on: its packet is complete, or one more of its
      beats has been taken. */
  ghost predicate Further(h: Hist, s': State, done': seq<Group>, pos': nat) {
    && h.todo != [] && h.pos <= |h.todo[0]|
    && if done' == h.done then s' == Collect && pos' == h.pos + 1 <= |h.todo[0]|
       else done' == h.done + [h.todo[0]] && pos' == 0 && s' == AfterTlp(EndsFrame(h.todo[0]))
  }

  ghost predicate Still(s: State, h: Hist, s': State, done': seq<Group>, pos': nat) {
    s' == s && done' == h.done && pos' == h.pos
  }

  /** Nothing but the signals that a state waits for holds the engine up; `free` says
      that the output register is free. */
  ghost predicate Progress(r: Reg, h: Hist, rxValid: bool, tranValid: bool, desc: DescFromPcie, free: bool,
                           s': State, done': seq<Group>, pos': nat) {
    match r.state
    case Idle => Still(if tranValid && rxValid && free then AckWait else Idle, h, s', done', pos')
    case AckWait => Still(if desc.newAck then ReadTrans else AckWait, h, s', done', pos')
    case ReadTrans => Still(if tranValid then SendIoReqHdr else ReadTrans, h, s', done', pos')
    case SendIoReqHdr =>
      if rxValid && free then Further(h, s', done', pos') else Still(SendIoReqHdr, h, s', done', pos')
    case Collect =>
      if (rxValid || r.history.eot) && free then Further(h, s', done', pos')
      else Still(Collect, h, s', done', pos')
    case TrDone => Still(if desc.doneAck then Idle else TrDone, h, s', done', pos')
    case DataDump => true
  }

  /** A transaction in hand: where its end is. */
  lemma InHand(ids: TlpIds, r: Reg, h: Hist, out: View)
    requires Agree(ids, r, h, out) && InTlp(r.state)
    ensures h.todo != [] && h.pos <= |h.todo[0]|
    ensures r.state == SendIoReqHdr ==> h.pos == 0 < |h.todo[0]| && !Overrun(r)
    ensures r.state == Collect ==> (r.history.eot <==> h.pos == |h.todo[0]|)
  {
    hide Words, FrameWords, Accounted, Header, Ready;
    NextBeat(ids, r, h, out);
  }

  /** The last beat of a transaction completes its packet. */
  lemma LastBeatEnds(ids: TlpIds, u: Reg, v: Reg, h: Hist, out: View, rx: Beat)
    requires u.state == Collect && !u.txValid && StatusSettled(u) && Agree(ids, u, h, out) && u.history.eot
    requires BeatTaken(u, v, rx)
    ensures v.cnt == u.tranLength
  {
    hide Agree, BeatTaken, StatusSettled;
    NextBeat(ids, u, h, out);
    BeatCollected(ids, u, v, h, out, rx);
  }

  lemma TlpMovesOn(ids: TlpIds, u: Reg, h: Hist, out: View, rxValid: bool, rx: Beat, v: Reg, h': Hist, rxReady: bool)
    requires Agree(ids, u, h, out) && InTlp(u.state) && StatusSettled(u) && !u.tranRd
    requires if u.state == SendIoReqHdr then HeaderClock(ids, u, rxValid, rx, v, rxReady)
             else BeatClock(u, rxValid, rx, v, rxReady)
    requires Flow(true, h, v, h', rxReady)
    ensures if (rxValid || (u.state == Collect && u.history.eot)) && !u.txValid then
              Further(h, v.state, h'.done, h'.pos)
            else Still(u.state, h, v.state, h'.done, h'.pos)
  {
    hide Agree, Joins, Checked, HeaderData, CountOf, Add10, Add24, Add30, EndsFrame, StatusSettled;
    InHand(ids, u, h, out);
    if u.state == Collect && !u.txValid && u.history.eot {
      LastBeatEnds(ids, u, v, h, out, rx);
    }
  }

  lemma ControlMovesOn(u: Reg, tranRd: bool, h: Hist, rxValid: bool, rx: Beat, tranValid: bool, tran: Tran,
                       desc: DescFromPcie, v: Reg, h': Hist, rxReady: bool)
    requires !InTlp(u.state) && u.state != DataDump && !tranRd && !u.tranRd
    requires LegalControl(u.state, h, rxValid, rx, tranValid, tran, desc)
    requires v == Controlled(u, tranRd, rxValid, rx, tranValid, tran, desc) && Flow(false, h, v, h', rxReady)
    requires !rxReady
    ensures Progress(u, h, rxValid, tranValid, desc, !u.txValid, v.state, h'.done, h'.pos)
  {
    hide Latched, EndsFrame, Add10, FrameWords;
    LatchedState(u, desc);
  }

  lemma MovesOn(ids: TlpIds, dmaChannel: nat, r: Reg, h: Hist, out: View, rxValid: bool, rx: Beat, tranValid: bool,
                tran: Tran, desc: DescFromPcie, txReady: bool, v: Reg, h': Hist, rxReady: bool)
    requires Agree(ids, r, h, out) && LegalInput(r.state, h, rxValid, rx, tranValid, tran, desc)
    requires r.tranRd ==> InTlp(r.state)
    requires Moved(ids, dmaChannel, r, rxValid, rx, tranValid, tran, desc, txReady, v, rxReady)
    requires Flow(InTlp(r.state), h, v, h', rxReady) && (rxReady ==> rxValid)
    ensures Progress(r, h, rxValid, tranValid, desc, txReady || !r.txValid, v.state, h'.done, h'.pos)
  {
    hide Agree, Further, Still, HeaderClock, BeatClock, StatusSettled, Controlled, LegalData, LegalControl, Flow;
    TickKeeps(ids, r, dmaChannel, txReady, h, out);
    var u := Ticked(r, dmaChannel, txReady);
    if InTlp(r.state) {
      TlpMovesOn(ids, u, h, out, rxValid, rx, v, h', rxReady);
    } else {
      NeverDumps(ids, r, h, out);
      ControlMovesOn(u, r.tranRd, h, rxValid, rx, tranValid, tran, desc, v, h', rxReady);
    }
  }

  lemma LatchedState(u: Reg, desc: DescFromPcie)
    ensures Latched(u, desc).state == ReadTrans
  {}

  lemma NeverDumps(ids: TlpIds, r: Reg, h: Hist, out: View)
    requires Agree(ids, r, h, out)
    ensures r.state != DataDump
  {}

  class Engine {
    const ids: TlpIds
    const dmaChannel: nat
    var r: Reg
    ghost var h: Hist
    ghost var sent: seq<Beat>
    ghost var legal: bool  // the neighbours have been well-behaved so far

    ghost function Out(): View
      reads this
    {
      Deframe(WithPending(sent, r.txValid, r.tx))
    }

    ghost predicate Valid()
      reads this
    {
      && Handshake(r) && (r.desc.doneReq ==> r.desc.doneDmaCh == dmaChannel)
      && (legal ==> Agree(ids, r, h, Out()) && Ledger(h) && (r.tranRd ==> InTlp(r.state)))
    }

    constructor (ids: TlpIds, dmaChannel: nat)
      ensures Valid() && legal && this.ids == ids && this.dmaChannel == dmaChannel
      ensures r == REG_INIT && h == HIST_INIT && sent == []
    {
      this.ids, this.dmaChannel := ids, dmaChannel;
      r, h, sent, legal := REG_INIT, HIST_INIT, [], true;
    }

    /** Transactions have been cut and are on their way through the FIFOs. */
    ghost method Arrive(gs: seq<Group>)
      requires Valid() && forall i :: 0 <= i < |gs| ==> Ready(gs[i])
      modifies this`h
      ensures Valid() && h == old(h).(todo := old(h.todo) + gs)
    {
      hide Agree, Ready, Deframe;
      if legal {
        ArrivalKeeps(ids, r, h, Out(), gs);
      }
      h := h.(todo := h.todo + gs);
    }

    /** One clock. Returns the tReady given to the data FIFO. */
    method Clock(rxValid: bool, rx: Beat, tranValid: bool, tran: Tran, desc: DescFromPcie, txReady: bool)
      returns (rxReady: bool)
      requires Valid()
      modifies this
      ensures Valid()
      ensures legal == (old(legal) && LegalInput(old(r.state), old(h), rxValid, rx, tranValid, tran, desc))
      ensures sent == if txReady then WithPending(old(sent), old(r.txValid), old(r.tx)) else old(sent)
      ensures r.desc.doneDmaCh == dmaChannel
      ensures Answered(old(r.desc), desc, r.desc) && Turned(old(r.state), old(h.base), desc, r.state, h.base)
      ensures Sized(old(r.state), old(h.maxFrame), desc, h.maxFrame)
      ensures legal ==> (rxReady ==> rxValid) && (r.tranRd ==> tranValid)
      ensures legal ==> Flow(InTlp(old(r.state)), old(h), r, h, rxReady)
      ensures Moved(ids, dmaChannel, old(r), rxValid, rx, tranValid, tran, desc, txReady, r, rxReady)
      ensures legal ==>
                Progress(old(r), old(h), rxValid, tranValid, desc, txReady || !old(r.txValid), r.state, h.done, h.pos)
    {
      hide Agree, Absorb, Deframe, LegalInput, Flow, Ledger, Turned, Answered, Handshake, InTlp, Stepped, Ticked,
           WithPending, Moved, Progress;
      legal := legal && LegalInput(r.state, h, rxValid, rx, tranValid, tran, desc);
      ghost var was, out := sent, Out();
      if txReady {
        sent := WithPending(sent, r.txValid, r.tx);
      }
      var v;
      v, rxReady, h := Step(r, ids, dmaChannel, rxValid, rx, tranValid, tran, desc, txReady, legal, h, out);
      PutOut(ids, legal, r, dmaChannel, txReady, old(h), was, v, h, rxReady);
      if legal {
        FlowKeepsLedger(InTlp(r.state), old(h), v, h, rxReady);
        MovesOn(ids, dmaChannel, r, old(h), out, rxValid, rx, tranValid, tran, desc, txReady, v, h, rxReady);
      }
      r := v;
    }
  }
}
