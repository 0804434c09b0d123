/** The receive path as the firmware wires it: transaction cutter, data FIFO,
    transaction FIFO, engine. Every clock the FIFOs may stall or delay at will. */
module RxPath {
  import opened Streams
  import opened Wrappers
  import opened Transactions
  import opened PcieTypes
  import opened RxDma
  import opened HostMemory
  import RxCutter

  /** The source keeps to the frame format: SOF on the first beat of a frame
      only, full beats up to the last. */
  ghost predicate SourceOk(taken: seq<Beat>) {
    Deframe(taken).packed && Deframe(taken).framed
  }

  // ---- From beats to transactions ----

  /** Beats without a frame end extend the frame in progress. */
  lemma {:induction false} DeframeInside(bs: seq<Beat>, g: Group, n: nat)
    requires n <= |g| && forall i :: 0 <= i < n ==> !g[i].last
    ensures Deframe(bs + g[..n]).pkts == Deframe(bs).pkts
    ensures Deframe(bs + g[..n]).part == Deframe(bs).part + Words(g[..n])
    decreases n
  {
    hide Kept;
    if n == 0 {
      assert bs + g[..0] == bs && g[..0] == [];
    } else {
      hide Deframe, Words;
      DeframeInside(bs, g, n - 1);
      assert g[..n] == g[..n - 1] + [g[n - 1]];
      Associate(bs, g[..n - 1], [g[n - 1]]);
      DeframeSnoc(bs + g[..n - 1], g[n - 1]);
      WordsSnoc(g[..n - 1], g[n - 1]);
      Associate(Deframe(bs).part, Words(g[..n - 1]), Kept(g[n - 1]));
    }
  }

  /** A transaction ends a frame iff its last beat does. */
  lemma DeframeGroup(bs: seq<Beat>, g: Group)
    requires g != [] && forall i :: 0 <= i < |g| - 1 ==> !g[i].last
    ensures var v := Deframe(bs);
            var w := Deframe(bs + g);
            if EndsFrame(g) then w.pkts == v.pkts + [v.part + Words(g)] && w.part == []
            else w.pkts == v.pkts && w.part == v.part + Words(g)
  {
    hide Kept, Words;
    var n := |g| - 1;
    DeframeInside(bs, g, n);
    assert bs + g == bs + g[..n] + [g[n]] && g == g[..n] + [g[n]];
    DeframeSnoc(bs + g[..n], g[n]);
    WordsSnoc(g[..n], g[n]);
    var part, w, k := Deframe(bs).part, Words(g[..n]), Kept(g[n]);
    assert part + w + k == part + (w + k);
  }

  ghost predicate AllClosed(gs: seq<Group>) {
    forall i :: 0 <= i < |gs| ==> Closed(gs[i])
  }

  /** Transactions that stay inside a frame. */
  lemma {:induction false} DeframeSofar(gs: seq<Group>, more: seq<Group>)
    requires AllClosed(more) && forall i :: 0 <= i < |more| ==> !EndsFrame(more[i])
    ensures Deframe(Flat(gs + more)).pkts == Deframe(Flat(gs)).pkts
    ensures Deframe(Flat(gs + more)).part == Deframe(Flat(gs)).part + FrameWords(more)
    decreases |more|
  {
    hide Words, Closed, Deframe;
    if more == [] {
      assert gs + more == gs;
    } else {
      var m, g := more[..|more| - 1], more[|more| - 1];
      DeframeSofar(gs, m);
      assert gs + more == gs + m + [g];
      FlatSnoc(gs + m, g);
      ClosedInside(g);
      DeframeGroup(Flat(gs + m), g);
    }
  }

  lemma ClosedInside(g: Group)
    requires Closed(g)
    ensures g != [] && forall i :: 0 <= i < |g| - 1 ==> !g[i].last
  {}

  /** The frames of a run of jobs. */
  function Frames(jobs: seq<Job>): seq<seq<Dword>>
    decreases |jobs|
  {
    if jobs == [] then [] else Frames(jobs[..|jobs| - 1]) + [FrameWords(jobs[|jobs| - 1].groups)]
  }

  ghost predicate AllWhole(jobs: seq<Job>) {
    forall i :: 0 <= i < |jobs| ==> WholeFrame(jobs[i].groups) && AllClosed(jobs[i].groups)
  }

  /** Deframing the transactions of finished jobs gives back their frames. */
  lemma {:induction false} DeframeJobs(jobs: seq<Job>)
    requires AllWhole(jobs)
    ensures Deframe(Flat(JobGroups(jobs))).pkts == Frames(jobs)
    ensures Deframe(Flat(JobGroups(jobs))).part == []
    decreases |jobs|
  {
    hide Words, Closed, Deframe, FrameWords, Flat, FramePackets;
    if jobs == [] {
      EmptyView();
    } else {
      var js, gs := jobs[..|jobs| - 1], jobs[|jobs| - 1].groups;
      var pre, m, g := JobGroups(js), gs[..|gs| - 1], gs[|gs| - 1];
      DeframeJobs(js);
      DeframeSofar(pre, m);
      assert pre + gs == pre + m + [g];
      FlatSnoc(pre + m, g);
      ClosedInside(g);
      DeframeGroup(Flat(pre + m), g);
      FrameSnoc(Ids(0, 0), 0, m, g);
      assert gs == m + [g];
      assert [] + FrameWords(m) + Words(g) == FrameWords(m) + Words(g);
    }
  }

  lemma EmptyView()
    ensures Deframe([]) == EMPTY_VIEW && Flat<Beat>([]) == []
  {}

  // ---- The byte order ----

  function AllSwapped(pkts: seq<seq<Dword>>): seq<seq<Dword>> {
    seq(|pkts|, i requires 0 <= i < |pkts| => Swapped(pkts[i]))
  }

  lemma SwappedLanes(k: bool, a: Dword, l: bool, b: Dword)
    ensures Swapped(Lane(k, a) + Lane(l, b)) == Lane(k, ByteSwap(a)) + Lane(l, ByteSwap(b))
  {
    hide ByteSwap;
  }

  lemma SwappedBeat(b: Beat, e: Beat)
    requires e == Reversed(b).(eot := e.eot)
    ensures Kept(e) == Swapped(Kept(b)) && PackedBeat(e) == PackedBeat(b) && e.last == b.last && e.sof == b.sof
  {
    hide ByteSwap, Swapped, Lane;
    SwappedLanes(b.keep.w0, b.data.w0, b.keep.w1, b.data.w1);
    SwappedLanes(b.keep.w2, b.data.w2, b.keep.w3, b.data.w3);
    SwappedConcat(LowerHalf(b.keep, b.data), UpperHalf(b.keep, b.data));
  }

  lemma {:induction false} SwappedView(taken: seq<Beat>, emitted: seq<Beat>)
    requires RxCutter.SameBeats(taken, emitted)
    ensures var v, w := Deframe(taken), Deframe(emitted);
            && w.packed == v.packed && w.framed == v.framed
            && w.part == Swapped(v.part) && w.pkts == AllSwapped(v.pkts)
    decreases |taken|
  {
    hide Reversed, Kept, ByteSwap, Swapped, PackedBeat;
    if taken != [] {
      var n := |taken| - 1;
      SwappedView(taken[..n], emitted[..n]);
      SwappedBeat(taken[n], emitted[n]);
      var v := Deframe(taken[..n]);
      SwappedConcat(v.part, Kept(taken[n]));
      NoSwap();
    } else {
      NoSwap();
    }
  }

  lemma NoSwap()
    ensures Swapped([]) == []
    ensures forall ws: seq<Dword> :: |Swapped(ws)| == |ws|
  {}

  // ---- What the cutter hands to the engine ----

  lemma {:induction false} BeatShape(bs: seq<Beat>, i: nat)
    requires Deframe(bs).packed && Deframe(bs).framed && i < |bs|
    ensures PackedBeat(bs[i])
    ensures bs[i].sof <==> Deframe(bs[..i]).part == []
    decreases |bs|
  {
    hide Kept, PackedBeat;
    var n := |bs| - 1;
    if i < n {
      BeatShape(bs[..n], i);
      assert bs[..n][..i] == bs[..i];
    }
  }

  lemma {:induction false} FlatAt(gs: seq<Group>, k: nat, j: nat)
    requires k < |gs| && j < |gs[k]|
    ensures |Flat(gs[..k])| + j < |Flat(gs)|
    ensures Flat(gs)[|Flat(gs[..k])| + j] == gs[k][j]
    decreases |gs|
  {
    var n := |gs| - 1;
    if k < n {
      FlatAt(gs[..n], k, j);
      assert gs[..n][..k] == gs[..k];
    }
  }

  lemma {:induction false} FlatPrefix(gs: seq<Group>, k: nat)
    requires k <= |gs|
    ensures Flat(gs[..k]) <= Flat(gs)
    decreases |gs|
  {
    if k == |gs| {
      assert gs[..k] == gs;
    } else {
      FlatPrefix(gs[..|gs| - 1], k);
      assert gs[..|gs| - 1][..k] == gs[..k];
    }
  }

  /** A transaction cut from well-formed frames is what the engine needs. */
  lemma ClosedIsReady(gs: seq<Group>, open: Group, k: nat)
    requires Deframe(Flat(gs) + open).packed && Deframe(Flat(gs) + open).framed
    requires k < |gs| && Closed(gs[k])
    ensures Ready(gs[k])
  {
    hide Words, Deframe, Flat;
    var g := gs[k];
    forall j | 0 <= j < |g| ensures PackedBeat(g[j]) {
      FlatAt(gs, k, j);
      BeatShape(Flat(gs) + open, |Flat(gs[..k])| + j);
    }
  }

  lemma CutIsReady(cr: RxCutter.Reg, c: RxCutter.Cut, taken: seq<Beat>, emitted: seq<Beat>, trans: seq<Tran>,
                   before: seq<Group>, more: seq<Group>)
    requires RxCutter.Agree(cr, c, taken, emitted, trans) && SourceOk(taken) && c.groups == before + more
    ensures AllReady(more)
  {
    hide Closed, RxCutter.Open, Flat, Deframe, Reversed, Ready, RxCutter.SameBeats, Swapped, AllSwapped;
    SwappedView(taken, emitted);
    forall i | 0 <= i < |more| ensures Ready(more[i]) {
      assert more[i] == c.groups[|before| + i];
      ClosedIsReady(c.groups, c.open, |before| + i);
    }
  }

  /** The FIFOs between cutter and engine hold exactly what the one has put out
      and the other has not taken. */
  ghost predicate Wired(groups: seq<Group>, sent: seq<Beat>, transSent: seq<Tran>, r: Reg, h: Hist,
                        dataQ: seq<Beat>, tranQ: seq<Tran>) {
    && groups == h.done + h.todo
    && (r.tranRd ==> tranQ != [])
    && |Flat(h.done)| + h.pos <= |sent| && dataQ == sent[|Flat(h.done)| + h.pos..]
    && var p := |h.done| + (if InTlp(r.state) && !r.tranRd then 1 else 0);
       p <= |transSent| && tranQ == transSent[p..]
  }

  lemma DoneFirst(groups: seq<Group>, sent: seq<Beat>, transSent: seq<Tran>, r: Reg, h: Hist, dataQ: seq<Beat>,
                  tranQ: seq<Tran>)
    requires Wired(groups, sent, transSent, r, h, dataQ, tranQ)
    ensures h.done <= groups
  {}

  /** One engine clock takes from the heads of the FIFOs. */
  lemma TakeKeepsWired(groups: seq<Group>, sent: seq<Beat>, transSent: seq<Tran>, r: Reg, h: Hist, dataQ: seq<Beat>,
                       tranQ: seq<Tran>, rxReady: bool, r': Reg, h': Hist)
    requires Wired(groups, sent, transSent, r, h, dataQ, tranQ)
    requires (r.tranRd ==> InTlp(r.state)) && Flow(InTlp(r.state), h, r', h', rxReady)
    requires (rxReady ==> dataQ != []) && (r'.tranRd ==> tranQ != [])
    ensures Wired(groups, sent, transSent, r', h', if rxReady then dataQ[1..] else dataQ,
                  if r.tranRd then tranQ[1..] else tranQ)
  {
    hide Flow, Flat, InTlp;
    Counted(InTlp(r.state), h, r', h', rxReady);
    DropFirst(sent, |Flat(h.done)| + h.pos);
    DropFirst(transSent, |h.done| + (if InTlp(r.state) && !r.tranRd then 1 else 0));
  }

  /** A clock of the engine against the two FIFOs. */
  lemma Counted(inTlp: bool, h: Hist, r': Reg, h': Hist, rxReady: bool)
    requires Flow(inTlp, h, r', h', rxReady)
    ensures h'.done + h'.todo == h.done + h.todo
    ensures |Flat(h'.done)| + h'.pos == |Flat(h.done)| + h.pos + (if rxReady then 1 else 0)
    ensures |h'.done| + (if InTlp(r'.state) && !r'.tranRd then 1 else 0) == |h.done| + (if inTlp then 1 else 0)
    ensures !(inTlp && r'.tranRd)
  {
    hide EndsFrame, Flat;
    if h'.done != h.done {
      FlatSnoc(h.done, h.todo[0]);
    }
  }

  lemma DropFirst<T>(s: seq<T>, n: nat)
    ensures n < |s| ==> s[n..] != [] && s[n..][1..] == s[n + 1..]
    ensures n <= |s| && s[n..] != [] ==> n < |s|
  {}

  lemma {:induction false} JobGroupsClosed(jobs: seq<Job>)
    requires AllClosed(JobGroups(jobs))
    requires forall i :: 0 <= i < |jobs| ==> WholeFrame(jobs[i].groups)
    ensures AllWhole(jobs)
    decreases |jobs|
  {
    hide Closed, WholeFrame;
    if jobs != [] {
      var pre, gs := JobGroups(jobs[..|jobs| - 1]), jobs[|jobs| - 1].groups;
      assert forall i :: 0 <= i < |pre| ==> pre[i] == (pre + gs)[i];
      assert forall i :: 0 <= i < |gs| ==> gs[i] == (pre + gs)[|pre| + i];
      JobGroupsClosed(jobs[..|jobs| - 1]);
    }
  }

  /** The beats of the transactions sent so far form the finished frames and the
      beginning of the current one. */
  lemma SentView(h: Hist)
    requires Ledger(h) && AllClosed(h.done)
    ensures Deframe(Flat(h.done)).pkts == Frames(h.finished) && Deframe(Flat(h.done)).part == FrameWords(h.sofar)
  {
    hide Closed, Deframe, Flat, WholeFrame, FrameWords, EndsFrame;
    var before := JobGroups(h.finished);
    assert forall i :: 0 <= i < |before| ==> before[i] == h.done[i];
    assert forall i :: 0 <= i < |h.sofar| ==> h.sofar[i] == h.done[|before| + i];
    JobGroupsClosed(h.finished);
    DeframeJobs(h.finished);
    DeframeSofar(before, h.sofar);
    assert [] + FrameWords(h.sofar) == FrameWords(h.sofar);
  }

  /** Between frames, all beats taken so far form whole frames. */
  lemma BetweenFrames(h: Hist)
    requires Ledger(h) && h.sofar == [] && AllClosed(h.done)
    ensures Deframe(Flat(h.done)).part == [] && Deframe(Flat(h.done)).pkts == Frames(h.finished)
  {
    hide Closed, Deframe, Flat, Ledger;
    SentView(h);
  }

  /** The beat at the head of the data FIFO. */
  lemma HeadBeat(c: RxCutter.Cut, sent: seq<Beat>, transSent: seq<Tran>, r: Reg, h: Hist, dataQ: seq<Beat>,
                 tranQ: seq<Tran>)
    requires RxCutter.CutOk(c) && sent <= Flat(c.groups) + c.open
    requires Wired(c.groups, sent, transSent, r, h, dataQ, tranQ)
    requires dataQ != [] && h.todo != [] && h.pos < |h.todo[0]|
    ensures dataQ[0] == h.todo[0][h.pos]
  {
    hide Closed, RxCutter.Open, Flat;
    assert c.groups[..|h.done|] == h.done && c.groups[|h.done|] == h.todo[0];
    FlatAt(c.groups, |h.done|, h.pos);
  }

  /** ... and where a frame has to start. */
  lemma HeadStarts(c: RxCutter.Cut, sent: seq<Beat>, transSent: seq<Tran>, r: Reg, h: Hist, dataQ: seq<Beat>,
                   tranQ: seq<Tran>)
    requires RxCutter.CutOk(c) && sent <= Flat(c.groups) + c.open
    requires Deframe(Flat(c.groups) + c.open).packed && Deframe(Flat(c.groups) + c.open).framed
    requires Wired(c.groups, sent, transSent, r, h, dataQ, tranQ)
    requires Ledger(h) && h.sofar == [] && h.pos == 0 && dataQ != []
    ensures dataQ[0].sof
  {
    hide Closed, RxCutter.Open, Flat, Deframe;
    var n := |Flat(h.done)|;
    assert c.groups[..|h.done|] == h.done;
    FlatPrefix(c.groups, |h.done|);
    assert (Flat(c.groups) + c.open)[..n] == Flat(h.done);
    BeatShape(Flat(c.groups) + c.open, n);
    BetweenFrames(h);
  }

  /** What the FIFOs show: their heads, and nothing in particular when empty. */
  function FirstBeat(q: seq<Beat>): Beat { if q == [] then NO_BEAT else q[0] }
  function FirstTran(q: seq<Tran>): Tran { if q == [] then Tran(0, false, 0, 0) else q[0] }

  /** What the host has to respect: a buffer below 4 GB, and room in it for the
      frame and five dwords more. */
  ghost predicate HostOk(r: Reg, h: Hist, tranValid: bool, tran: Tran, desc: DescFromPcie) {
    && (r.state == AckWait && desc.newAck ==> desc.newAddr + desc.maxFrame <= 0x4000_0000)
    && (r.state == ReadTrans && tranValid ==> |FrameWords(h.sofar)| + tran.length + 5 <= h.maxFrame)
  }

  /** The FIFOs present to the engine what it relies on. */
  lemma HeadsAreLegal(ids: TlpIds, c: RxCutter.Cut, taken: seq<Beat>, emitted: seq<Beat>, trans: seq<Tran>,
                      sent: seq<Beat>, transSent: seq<Tran>, cr: RxCutter.Reg, r: Reg, h: Hist, out: View,
                      dataQ: seq<Beat>, tranQ: seq<Tran>, rxValid: bool, tranValid: bool, desc: DescFromPcie)
    requires RxCutter.Agree(cr, c, taken, emitted, trans) && sent <= emitted && transSent <= trans
    requires SourceOk(taken) && Agree(ids, r, h, out) && Ledger(h) && (r.tranRd ==> InTlp(r.state))
    requires Wired(c.groups, sent, transSent, r, h, dataQ, tranQ)
    requires (rxValid ==> dataQ != []) && (tranValid ==> tranQ != [])
    requires HostOk(r, h, tranValid, FirstTran(tranQ), desc)
    ensures LegalInput(r.state, h, rxValid, FirstBeat(dataQ), tranValid,
                       FirstTran(tranQ), desc)
  {
    hide Closed, RxCutter.Open, Flat, Deframe, Ledger, RxCutter.SameBeats, FrameWords, Words, TranOf, Ready, Accounted,
         RxCutter.CutOk, Collecting, InFrame, Reported, Claimed;
    SwappedView(taken, emitted);
    if rxValid && h.todo != [] && h.pos < |h.todo[0]| {
      HeadBeat(c, sent, transSent, r, h, dataQ, tranQ);
    }
    if r.state == Idle && rxValid {
      HeadStarts(c, sent, transSent, r, h, dataQ, tranQ);
    }
  }

  // ---- Receiving is copying ----

  /** Frame i stored at base i, in order. */
  function CopyAll(mem: Memory, bases: seq<nat>, frames: seq<seq<Dword>>): Memory
    requires |bases| == |frames|
    decreases |bases|
  {
    if bases == [] then mem
    else
      var n := |bases| - 1;
      Stored(CopyAll(mem, bases[..n], frames[..n]), bases[n], frames[n])
  }

  function Bases(jobs: seq<Job>): seq<nat> {
    seq(|jobs|, i requires 0 <= i < |jobs| => jobs[i].base)
  }

  ghost predicate AllSound(jobs: seq<Job>) {
    forall i :: 0 <= i < |jobs| ==> AllReady(jobs[i].groups) && Fits(jobs[i])
  }

  lemma {:induction false} FrameCount(jobs: seq<Job>)
    ensures |Frames(jobs)| == |jobs|
    decreases |jobs|
  {
    if jobs != [] {
      FrameCount(jobs[..|jobs| - 1]);
    }
  }

  lemma {:induction false} JobsAreCopied(mem: Memory, ids: TlpIds, jobs: seq<Job>)
    requires AllSound(jobs)
    ensures |Frames(jobs)| == |jobs|
    ensures HostWrites(mem, JobPackets(ids, jobs)) == CopyAll(mem, Bases(jobs), AllSwapped(Frames(jobs)))
    decreases |jobs|
  {
    hide Stored, HostWrite, FrameWords, Swapped, Ready, FramePackets;
    FrameCount(jobs);
    if jobs != [] {
      var n := |jobs| - 1;
      var j := jobs[n];
      JobsAreCopied(mem, ids, jobs[..n]);
      HostWritesConcat(mem, JobPackets(ids, jobs[..n]), FramePackets(ids, j.base, j.groups));
      FrameIsCopied(HostWrites(mem, JobPackets(ids, jobs[..n])), ids, j.base, j.groups);
      FrameCount(jobs[..n]);
      assert Bases(jobs)[..n] == Bases(jobs[..n]);
      assert AllSwapped(Frames(jobs))[..n] == AllSwapped(Frames(jobs[..n]));
    }
  }

  lemma {:induction false} DeframeMonotone(bs: seq<Beat>, n: nat)
    requires n <= |bs|
    ensures Deframe(bs[..n]).pkts <= Deframe(bs).pkts
    decreases |bs|
  {
    hide Kept;
    if n < |bs| {
      assert bs[..|bs| - 1][..n] == bs[..n];
      DeframeMonotone(bs[..|bs| - 1], n);
    } else {
      assert bs[..n] == bs;
    }
  }

  /** The frames sent are the first ones taken, in the link's byte order. */
  lemma FramesTaken(c: RxCutter.Cut, taken: seq<Beat>, h: Hist)
    requires RxCutter.CutOk(c) && RxCutter.SameBeats(taken, Flat(c.groups) + c.open)
    requires h.done <= c.groups && Ledger(h) && h.sofar == []
    ensures |Frames(h.finished)| == |h.finished| <= |Deframe(taken).pkts|
    ensures AllSwapped(Frames(h.finished)) == Deframe(taken).pkts[..|h.finished|]
  {
    hide Closed, RxCutter.Open, Flat, Deframe, Reversed, Ledger, Swapped;
    var emitted := Flat(c.groups) + c.open;
    var n := |h.done|;
    assert c.groups[..n] == h.done;
    FlatPrefix(c.groups, n);
    assert emitted[..|Flat(h.done)|] == Flat(h.done);
    DeframeMonotone(emitted, |Flat(h.done)|);
    BetweenFrames(h);
    FrameCount(h.finished);
    SwappedView(taken, emitted);
    forall i | 0 <= i < |h.finished|
      ensures AllSwapped(Frames(h.finished))[i] == Deframe(taken).pkts[i]
    {
      assert Frames(h.finished)[i] == Deframe(emitted).pkts[i];
      SwappedTwice(Deframe(taken).pkts[i]);
    }
  }

  lemma {:induction false} JobGroupsReady(jobs: seq<Job>)
    requires AllReady(JobGroups(jobs))
    ensures forall i :: 0 <= i < |jobs| ==> AllReady(jobs[i].groups)
    decreases |jobs|
  {
    hide Ready;
    if jobs != [] {
      var pre, gs := JobGroups(jobs[..|jobs| - 1]), jobs[|jobs| - 1].groups;
      assert forall i :: 0 <= i < |pre| ==> pre[i] == (pre + gs)[i];
      assert forall i :: 0 <= i < |gs| ==> gs[i] == (pre + gs)[|pre| + i];
      JobGroupsReady(jobs[..|jobs| - 1]);
    }
  }

  /** The packets have left in memory the frames of the finished jobs, each at the
      base its descriptor gave, and nothing else; the report is that of the last. */
  ghost predicate Memcpy(mem: Memory, pkts: seq<seq<Dword>>, jobs: seq<Job>, frames: seq<seq<Dword>>, r: Reg) {
    && |jobs| <= |frames|
    && (forall k :: 0 <= k < |jobs| ==> |FrameWords(jobs[k].groups)| == |frames[k]|)
    && HostWrites(mem, pkts) == CopyAll(mem, Bases(jobs), frames[..|jobs|])
    && (r.state == TrDone ==>
          && 0 < |jobs| && r.desc.doneAddr == jobs[|jobs| - 1].base && r.desc.doneLength == |frames[|jobs| - 1]|)
  }

  /** The engine is between frames. */
  predicate Pausing(s: State, h: Hist) {
    s == Idle || s == AckWait || s == TrDone || (s == ReadTrans && h.sofar == [])
  }

  /** Between frames, the write TLPs put out so far have copied the frames taken so
      far. */
  lemma ReceiveIsMemcpy(mem: Memory, ids: TlpIds, c: RxCutter.Cut, taken: seq<Beat>, r: Reg, h: Hist, out: View)
    requires RxCutter.CutOk(c) && RxCutter.SameBeats(taken, Flat(c.groups) + c.open) && SourceOk(taken)
    requires Agree(ids, r, h, out) && Ledger(h) && h.done <= c.groups
    requires Pausing(r.state, h)
    ensures out.part == [] && Memcpy(mem, out.pkts, h.finished, Deframe(taken).pkts, r)
  {
    hide Closed, RxCutter.Open, Flat, Deframe, Reversed, Ready, HostWrites, JobPackets, FrameWords, RxCutter.SameBeats,
         WholeFrame, Swapped, Stored;
    SwappedView(taken, Flat(c.groups) + c.open);
    FramesTaken(c, taken, h);
    forall i | 0 <= i < |h.done| ensures Ready(h.done[i]) {
      ClosedIsReady(c.groups, c.open, i);
    }
    assert JobGroups(h.finished) == h.done;
    JobGroupsReady(h.finished);
    JobsAreCopied(mem, ids, h.finished);
    NoPackets(ids, h.base);
    assert out.pkts == JobPackets(ids, h.finished);
    forall k | 0 <= k < |h.finished| ensures |FrameWords(h.finished[k].groups)| == |Deframe(taken).pkts[k]| {
      FrameAt(h.finished, k);
      assert AllSwapped(Frames(h.finished))[k] == Deframe(taken).pkts[k];
    }
    if r.state == TrDone {
      var n := |h.finished| - 1;
      LastFrame(h.finished);
      assert AllSwapped(Frames(h.finished))[n] == Deframe(taken).pkts[n];
    }
  }

  lemma {:induction false} FrameAt(jobs: seq<Job>, k: nat)
    requires k < |jobs|
    ensures |Frames(jobs)| == |jobs| && Frames(jobs)[k] == FrameWords(jobs[k].groups)
    decreases |jobs|
  {
    FrameCount(jobs);
    FrameCount(jobs[..|jobs| - 1]);
    if k < |jobs| - 1 {
      FrameAt(jobs[..|jobs| - 1], k);
    }
  }

  lemma LastFrame(jobs: seq<Job>)
    requires jobs != []
    ensures |Frames(jobs)| > 0 && Frames(jobs)[|Frames(jobs)| - 1] == FrameWords(jobs[|jobs| - 1].groups)
  {}

  /** The cutter's latest beat joins the FIFOs, its latest transaction the account. */
  lemma PutKeepsWired(groups: seq<Group>, sent: seq<Beat>, transSent: seq<Tran>, r: Reg, h: Hist, dataQ: seq<Beat>,
                      tranQ: seq<Tran>, more: seq<Group>, beats: seq<Beat>, trans: seq<Tran>)
    requires Wired(groups, sent, transSent, r, h, dataQ, tranQ)
    ensures Wired(groups + more, sent + beats, transSent + trans, r, h.(todo := h.todo + more),
                  dataQ + beats, tranQ + trans)
  {
    hide Flat, InTlp;
    Associate(h.done, h.todo, more);
    DropAppend(sent, |Flat(h.done)| + h.pos, beats);
    DropAppend(transSent, |h.done| + (if InTlp(r.state) && !r.tranRd then 1 else 0), trans);
  }

  lemma DropAppend<T>(a: seq<T>, n: nat, b: seq<T>)
    requires n <= |a|
    ensures (a + b)[n..] == a[n..] + b
  {}

  lemma Taken(groups: seq<Group>, sent: seq<Beat>, transSent: seq<Tran>, r: Reg, h: Hist, dataQ: seq<Beat>,
              tranQ: seq<Tran>, desc: DescFromPcie, rxReady: bool, rxValid: bool, r': Reg, h': Hist, dataQ': seq<Beat>,
                tranQ': seq<Tran>)
    requires Wired(groups, sent, transSent, r, h, dataQ, tranQ)
    requires (r.tranRd ==> InTlp(r.state)) && Flow(InTlp(r.state), h, r', h', rxReady)
    requires (rxReady ==> rxValid && dataQ != []) && (r'.tranRd ==> tranQ != [])
    requires Turned(r.state, h.base, desc, r'.state, h'.base)
    requires dataQ' == if rxReady && rxValid then dataQ[1..] else dataQ
    requires tranQ' == if r.tranRd && tranQ != [] then tranQ[1..] else tranQ
    ensures Wired(groups, sent, transSent, r', h', dataQ', tranQ')
    ensures Finishes(r.state, h.base, h.finished, desc, r'.state, h'.finished)
  {
    hide Flow, Turned, Finishes, Flat, InTlp;
    TakeKeepsWired(groups, sent, transSent, r, h, dataQ, tranQ, rxReady, r', h');
    FinishedFrames(r, h, desc, rxReady, r', h');
  }

  lemma SourceOkBefore(taken: seq<Beat>, s: Beat)
    ensures SourceOk(taken + [s]) ==> SourceOk(taken)
  {
    DeframeSnoc(taken, s);
  }

  /** The cutter's part of a clock: it takes a beat whenever it has room for one and has
      not just cut. */
  ghost predicate CutterMoves(r: RxCutter.Reg, c: RxCutter.Cut, sValid: bool, ready: bool, tranAFull: bool,
                              r': RxCutter.Reg, c': RxCutter.Cut, sReady: bool) {
    && (sReady <==> sValid && (ready || !r.txValid) && !tranAFull && !r.tranWr)
    && (r'.txValid <==> sReady || (r.txValid && !ready))
    && (r'.tranWr ==> sReady)
    && if sReady then RxCutter.Extended(c, Reversed(r'.tx), r'.tranWr, c') else c' == c
  }

  class ReceivePath {
    const cutter: RxCutter.Cutter
    const engine: Engine
    var dataQ: seq<Beat>
    var tranQ: seq<Tran>
    ghost var hostOk: bool  // every descriptor so far had room for its frame

    ghost predicate Valid()
      reads this, cutter, engine
    {
      && cutter.Valid() && engine.Valid()
      && (hostOk && SourceOk(cutter.taken) ==>
            && engine.legal
            && Wired(cutter.cut.groups, cutter.sent, cutter.transSent, engine.r, engine.h, dataQ, tranQ))
    }

    constructor (ids: TlpIds, dmaChannel: nat)
      ensures Valid() && hostOk && fresh(cutter) && fresh(engine)
      ensures cutter.taken == [] && engine.sent == [] && dataQ == [] && tranQ == []
      ensures engine.r == REG_INIT && engine.h == HIST_INIT && engine.ids == ids && engine.dmaChannel == dmaChannel
    {
      cutter := new RxCutter.Cutter();
      engine := new Engine(ids, dmaChannel);
      dataQ, tranQ, hostOk := [], [], true;
    }

    lemma Opened()
      requires Valid()
      ensures cutter.Valid() && engine.Valid()
      ensures hostOk && SourceOk(cutter.taken) ==>
                engine.legal && Wired(cutter.cut.groups, cutter.sent, cutter.transSent, engine.r, engine.h, dataQ,
                                      tranQ)
    {
      hide Wired, SourceOk, Engine.Valid, RxCutter.Cutter.Valid;
    }

    lemma Restored()
      requires cutter.Valid() && engine.Valid()
      requires hostOk && SourceOk(cutter.taken) ==>
                 engine.legal && Wired(cutter.cut.groups, cutter.sent, cutter.transSent, engine.r, engine.h, dataQ,
                                       tranQ)
      ensures Valid()
    {
      hide Wired, SourceOk, Engine.Valid, RxCutter.Cutter.Valid;
    }

    /** The engine in one clock, with the heads of the FIFOs before it. */
    method ClockEngine(rxValid: bool, tranValid: bool, desc: DescFromPcie, txReady: bool,
                       ghost good: bool) returns (rxReady: bool)
      requires cutter.Valid() && engine.Valid()
      requires good ==>
                 && engine.legal && SourceOk(cutter.taken)
                 && Wired(cutter.cut.groups, cutter.sent, cutter.transSent, engine.r, engine.h, dataQ, tranQ)
                 && (rxValid ==> dataQ != []) && (tranValid ==> tranQ != [])
                 && HostOk(engine.r, engine.h, tranValid, FirstTran(tranQ), desc)
      modifies engine
      ensures engine.Valid()
      ensures engine.sent == if txReady then WithPending(old(engine.sent), old(engine.r.txValid), old(engine.r.tx))
                             else old(engine.sent)
      ensures engine.r.desc.doneDmaCh == engine.dmaChannel && Answered(old(engine.r.desc), desc, engine.r.desc)
      ensures Turned(old(engine.r.state), old(engine.h.base), desc, engine.r.state, engine.h.base)
      ensures Sized(old(engine.r.state), old(engine.h.maxFrame), desc, engine.h.maxFrame)
      ensures good ==>
                && engine.legal && (rxReady ==> rxValid) && (engine.r.tranRd ==> tranValid)
                && (old(engine.r.tranRd) ==> InTlp(old(engine.r.state)))
                && Flow(InTlp(old(engine.r.state)), old(engine.h), engine.r, engine.h, rxReady)
                && Progress(old(engine.r), old(engine.h), rxValid, tranValid, desc, txReady || !old(engine.r.txValid),
                            engine.r.state, engine.h.done, engine.h.pos)
    {
      hide Progress, Agree, Wired, RxCutter.Agree, SourceOk, HostOk, Deframe, LegalInput, Flow, Ledger, Handshake,
           InTlp,
           WithPending, RxCutter.Emit, RxCutter.EmitTrans, Answered, Turned, Engine.Valid, RxCutter.Cutter.Valid,
           FirstBeat, FirstTran;
      if good {
        Heads(rxValid, tranValid, desc);
      }
      rxReady := engine.Clock(rxValid, FirstBeat(dataQ), tranValid, FirstTran(tranQ), desc, txReady);
    }

    /** The engine's half of a clock: it takes from the heads of the FIFOs. */
    method Take(rxVisible: bool, tranVisible: bool, desc: DescFromPcie, txReady: bool)
      requires Valid()
      modifies this, engine
      ensures Valid()
      ensures engine.sent == if txReady then WithPending(old(engine.sent), old(engine.r.txValid), old(engine.r.tx))
                             else old(engine.sent)
      ensures hostOk == (old(hostOk) && HostOk(old(engine.r), old(engine.h), tranVisible && old(tranQ) != [],
                                               FirstTran(old(tranQ)), desc))
      ensures engine.r.desc.doneDmaCh == engine.dmaChannel && Answered(old(engine.r.desc), desc, engine.r.desc)
      ensures Turned(old(engine.r.state), old(engine.h.base), desc, engine.r.state, engine.h.base)
      ensures Sized(old(engine.r.state), old(engine.h.maxFrame), desc, engine.h.maxFrame)
      ensures hostOk && SourceOk(cutter.taken) ==>
                Finishes(old(engine.r.state), old(engine.h.base), old(engine.h.finished), desc, engine.r.state,
                         engine.h.finished)
      ensures hostOk && SourceOk(cutter.taken) ==>
                Progress(old(engine.r), old(engine.h), rxVisible && old(dataQ) != [], tranVisible && old(tranQ) != [],
                         desc, txReady || !old(engine.r.txValid), engine.r.state, engine.h.done, engine.h.pos)
    {
      hide Progress, Agree, Wired, RxCutter.Agree, SourceOk, HostOk, Deframe, LegalInput, Flow, Ledger, Handshake,
           InTlp,
           WithPending, RxCutter.Emit, RxCutter.EmitTrans, Answered, Turned, Finishes, Engine.Valid,
             RxCutter.Cutter.Valid,
           FirstBeat, FirstTran, ReceivePath.Valid;
      Opened();
      var rxValid, tranValid := rxVisible && dataQ != [], tranVisible && tranQ != [];
      ghost var ok := hostOk && HostOk(engine.r, engine.h, tranValid, FirstTran(tranQ), desc);
      ghost var good := ok && SourceOk(cutter.taken);
      ghost var groups, sent, transSent, r, h := cutter.cut.groups, cutter.sent, cutter.transSent, engine.r, engine.h;
      var tranQ' := if engine.r.tranRd && tranQ != [] then tranQ[1..] else tranQ;
      var rxReady := ClockEngine(rxValid, tranValid, desc, txReady, good);
      var dataQ' := if rxReady && rxValid then dataQ[1..] else dataQ;
      if good {
        Taken(groups, sent, transSent, r, h, dataQ, tranQ, desc, rxReady, rxValid, engine.r, engine.h, dataQ', tranQ');
      }
      hostOk, dataQ, tranQ := ok, dataQ', tranQ';
      Restored();
    }

    /** The cutter in one clock; `beats` and `trans` are what it puts into the FIFOs. */
    method ClockCutter(sValid: bool, s: Beat, dataReady: bool, tranAFull: bool, ghost beats: seq<Beat>,
                       ghost trans: seq<Tran>)
      returns (sReady: bool, ghost more: seq<Group>)
      requires cutter.Valid() && (sValid ==> !s.eot)
      requires beats == if dataReady && cutter.r.txValid then [Reversed(cutter.r.tx)] else []
      requires trans == if cutter.r.tranWr then [cutter.r.tran] else []
      modifies cutter
      ensures cutter.Valid() && (sReady ==> sValid)
      ensures cutter.taken == if sReady then old(cutter.taken) + [s] else old(cutter.taken)
      ensures cutter.sent == old(cutter.sent) + beats && cutter.transSent == old(cutter.transSent) + trans
      ensures cutter.cut.groups == old(cutter.cut.groups) + more
      ensures CutterMoves(old(cutter.r), old(cutter.cut), sValid, dataReady, tranAFull, cutter.r, cutter.cut, sReady)
    {
      hide RxCutter.Extended, RxCutter.Agree, Reversed;
      sReady, more := cutter.Clock(sValid, s, dataReady, tranAFull);
    }

    /** The cutter's half: it puts its output registers into the FIFOs. */
    method Put(sValid: bool, s: Beat, dataReady: bool, tranAFull: bool) returns (sReady: bool)
      requires Valid()
      requires sValid ==> !s.eot
      modifies this, cutter, engine`h
      ensures Valid() && hostOk == old(hostOk) && engine.h == old(engine.h).(todo := engine.h.todo)
      ensures sReady ==> sValid
      ensures cutter.taken == if sReady then old(cutter.taken) + [s] else old(cutter.taken)
      ensures CutterMoves(old(cutter.r), old(cutter.cut), sValid, dataReady, tranAFull, cutter.r, cutter.cut, sReady)
    {
      hide CutterMoves, Agree, Wired, SourceOk, Deframe, Ledger, Handshake, RxCutter.Agree, Reversed, Ready,
           Engine.Valid, ReceivePath.Valid;
      Opened();
      ghost var groups, sent, transSent := cutter.cut.groups, cutter.sent, cutter.transSent;
      ghost var taken := cutter.taken;
      var beats := if dataReady && cutter.r.txValid then [Reversed(cutter.r.tx)] else [];
      var trans := if cutter.r.tranWr then [cutter.r.tran] else [];
      ghost var more;
      sReady, more := ClockCutter(sValid, s, dataReady, tranAFull, beats, trans);
      if hostOk && SourceOk(cutter.taken) {
        SourceOkBefore(taken, s);
        PutKeepsWired(groups, sent, transSent, engine.r, engine.h, dataQ, tranQ, more, beats, trans);
        CutIsReady(cutter.r, cutter.cut, cutter.taken, RxCutter.Emit(cutter.sent, cutter.r),
                   RxCutter.EmitTrans(cutter.transSent, cutter.r), groups, more);
        engine.Arrive(more);
      }
      dataQ, tranQ := dataQ + beats, tranQ + trans;
      Restored();
    }

    /** One clock of the whole path. `dataReady`, `tranAFull`, `rxVisible` and
        `tranVisible` are the FIFOs' stalls and delays, `txReady` the sink's. */
    method Clock(sValid: bool, s: Beat, dataReady: bool, tranAFull: bool, rxVisible: bool, tranVisible: bool,
                 desc: DescFromPcie, txReady: bool) returns (sReady: bool)
      requires Valid()
      requires sValid ==> !s.eot
      modifies this, cutter, engine
      ensures Valid()
      ensures sReady ==> sValid
      ensures cutter.taken == if sReady then old(cutter.taken) + [s] else old(cutter.taken)
      ensures engine.sent == if txReady then WithPending(old(engine.sent), old(engine.r.txValid), old(engine.r.tx))
                             else old(engine.sent)
      ensures hostOk == (old(hostOk) && HostOk(old(engine.r), old(engine.h), tranVisible && old(tranQ) != [],
                                               FirstTran(old(tranQ)), desc))
      ensures engine.r.desc.doneDmaCh == engine.dmaChannel && Answered(old(engine.r.desc), desc, engine.r.desc)
      ensures Turned(old(engine.r.state), old(engine.h.base), desc, engine.r.state, engine.h.base)
      ensures Sized(old(engine.r.state), old(engine.h.maxFrame), desc, engine.h.maxFrame)
      ensures hostOk && SourceOk(cutter.taken) ==>
                Finishes(old(engine.r.state), old(engine.h.base), old(engine.h.finished), desc, engine.r.state,
                         engine.h.finished)
      ensures hostOk && SourceOk(cutter.taken) ==>
                Progress(old(engine.r), old(engine.h), rxVisible && old(dataQ) != [], tranVisible && old(tranQ) != [],
                         desc, txReady || !old(engine.r.txValid), engine.r.state, engine.h.done, engine.h.pos)
      ensures CutterMoves(old(cutter.r), old(cutter.cut), sValid, dataReady, tranAFull, cutter.r, cutter.cut, sReady)
    {
      hide Valid, SourceOk, HostOk, Answered, Turned, Finishes, Progress, CutterMoves;
      Take(rxVisible, tranVisible, desc, txReady);
      SourceOkBefore(cutter.taken, s);
      sReady := Put(sValid, s, dataReady, tranAFull);
    }

    /** Between frames, for any memory before: the TLPs put out so far have
        copied the frames taken so far. */
    lemma Copied(mem: Memory)
      requires Valid() && hostOk && SourceOk(cutter.taken) && Pausing(engine.r.state, engine.h)
      ensures Memcpy(mem, engine.Out().pkts, engine.h.finished, Deframe(cutter.taken).pkts, engine.r)
    {
      hide Agree, Deframe, Ledger, Handshake, RxCutter.SameBeats, Flat, RxCutter.CutOk, Reversed, SourceOk, Wired,
           RxCutter.Emit, RxCutter.EmitTrans, Memcpy;
      DoneFirst(cutter.cut.groups, cutter.sent, cutter.transSent, engine.r, engine.h, dataQ, tranQ);
      ReceiveIsMemcpy(mem, engine.ids, cutter.cut, cutter.taken, engine.r, engine.h, engine.Out());
    }

    lemma Heads(rxValid: bool, tranValid: bool, desc: DescFromPcie)
      requires cutter.Valid() && engine.Valid() && engine.legal && SourceOk(cutter.taken)
      requires Wired(cutter.cut.groups, cutter.sent, cutter.transSent, engine.r, engine.h, dataQ, tranQ)
      requires (rxValid ==> dataQ != []) && (tranValid ==> tranQ != [])
      requires HostOk(engine.r, engine.h, tranValid, FirstTran(tranQ), desc)
      ensures engine.r.tranRd ==> InTlp(engine.r.state)
      ensures LegalInput(engine.r.state, engine.h, rxValid, FirstBeat(dataQ), tranValid,
                         FirstTran(tranQ), desc)
    {
      hide Agree, RxCutter.Agree, Deframe, Ledger, Handshake, Reversed, Wired, HostOk;
      HeadsAreLegal(engine.ids, cutter.cut, cutter.taken, RxCutter.Emit(cutter.sent, cutter.r),
                    RxCutter.EmitTrans(cutter.transSent, cutter.r), cutter.sent, cutter.transSent, cutter.r,
                    engine.r, engine.h, engine.Out(), dataQ, tranQ, rxValid, tranValid, desc);
    }
  }
}
