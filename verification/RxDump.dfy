/** Frames without SOF: what the engine throws away, and when the two FIFOs are still in
    step afterwards. */
module RxDump {
  import opened PcieTypes
  import opened Streams
  import opened Wrappers
  import opened Transactions
  import opened RxDma
  import opened PcieRules

  const BEATS := 8  // of a full transaction

  /** The beats and the transactions of a frame without SOF. */
  ghost predicate Headless(bs: seq<Beat>, trans: seq<Tran>) {
    && bs != [] && (forall i :: 0 <= i < |bs| ==> !bs[i].sof && (bs[i].last <==> i == |bs| - 1))
    && trans != [] && BEATS * (|trans| - 1) < |bs| <= BEATS * |trans|
    && forall i :: 0 <= i < |trans| ==>
         trans[i].count == if i < |trans| - 1 then BEATS else |bs| - BEATS * (|trans| - 1)
  }

  /** Descriptors that a frame of n beats uses up: each pass takes one beat too many. */
  function Passes(n: nat): nat {
    (n + BEATS) / (BEATS + 1)
  }

  lemma PassCount(n: nat, p: nat)
    requires (BEATS + 1) * p < n <= (BEATS + 1) * (p + 1)
    ensures Passes(n) == p + 1
  {}

  /** All descriptors of the frame are used up exactly if its last transaction has as many
      beats as the frame has transactions. */
  lemma InStepExact(bs: seq<Beat>, trans: seq<Tran>)
    requires Headless(bs, trans)
    ensures 1 <= Passes(|bs|) <= |trans|
    ensures Passes(|bs|) == |trans| <==> |bs| - BEATS * (|trans| - 1) >= |trans|
  {}

  /** A frame of 33 dwords without SOF leaves its second descriptor behind. */
  lemma StaleTransaction(bs: seq<Beat>, trans: seq<Tran>)
    requires Headless(bs, trans) && |bs| == 9
    ensures |trans| == 2 && Passes(|bs|) == 1
  {}

  /** The engine's registers and the FIFOs after `taken` beats and `passes` descriptors. */
  ghost predicate Dumping(r: Reg, taken: nat, passes: nat, n: nat) {
    && taken < n
    && match r.state
       case Idle => r.dumpCnt == 0 && taken == (BEATS + 1) * passes
       case DataDump => !r.tranRd && r.dumpCnt <= BEATS && taken == (BEATS + 1) * passes + r.dumpCnt
       case _ => false
  }

  /** What the FIFO of descriptors holds once the pending read has acted. */
  function Popped(tranRd: bool, tranQ: seq<Tran>): seq<Tran> {
    if tranRd && tranQ != [] then tranQ[1..] else tranQ
  }

  /** One clock of the dumping engine. */
  lemma DumpClock(r: Reg, dmaChannel: nat, rxValid: bool, rx: Beat, tranValid: bool, tran: Tran, desc: DescFromPcie,
                  ids: TlpIds, txReady: bool, v: Reg, rxReady: bool, bs: seq<Beat>, trans: seq<Tran>, taken: nat,
                  passes: nat)
    requires Headless(bs, trans) && Dumping(r, taken, passes, |bs|)
    requires Moved(ids, dmaChannel, r, rxValid, rx, tranValid, tran, desc, txReady, v, rxReady)
    requires rxValid ==> rx == bs[taken]
    requires passes < |trans| && (r.state == DataDump || (tranValid && !r.tranRd) ==> tran == trans[passes])
    ensures !(rxReady && rxValid) ==> Dumping(v, taken, passes, |bs|) && !v.tranRd
    ensures rxReady && rxValid && taken + 1 < |bs| ==>
              Dumping(v, taken + 1, if v.tranRd then passes + 1 else passes, |bs|)
    ensures rxReady && rxValid && taken + 1 == |bs| ==>
              v.state == Idle && v.tranRd && v.dumpCnt == 0 && Passes(|bs|) == passes + 1
  {
    hide Latched, Passes;
    if rxReady && rxValid && taken + 1 == |bs| {
      PassCount(|bs|, passes);
    }
  }

  /** The stalls of a clock, the controller's lines and the sink. */
  datatype Tick = Tick(rxVisible: bool, tranVisible: bool, desc: DescFromPcie, txReady: bool)

  /** Any run that begins with a frame without SOF at the heads of the FIFOs and ends no
      later than its last beat has been taken: the frame is thrown away and no beat behind
      it, with as many descriptors as `Passes` says. */
  method Dump(e: Engine, bs: seq<Beat>, trans: seq<Tran>, rest: seq<Beat>, more: seq<Tran>, ticks: seq<Tick>)
    returns (dataQ: seq<Beat>, tranQ: seq<Tran>, over: bool)
    requires e.Valid() && e.r.state == Idle && !e.r.tranRd && e.r.dumpCnt == 0 && Headless(bs, trans)
    modifies e
    ensures e.Valid() && exists taken: nat :: taken <= |bs| && dataQ == bs[taken..] + rest && (over <==> taken == |bs|)
    ensures over ==> e.r.state == Idle && e.r.dumpCnt == 0 && Passes(|bs|) <= |trans|
                     && Popped(e.r.tranRd, tranQ) == trans[Passes(|bs|)..] + more
  {
    hide Engine.Valid, Headless, Passes, Moved, Dumping;
    dataQ, tranQ, over := bs + rest, trans + more, false;
    ghost var taken, passes := 0, 0;
    Begins(e.r, bs, trans);
    assert bs[0..] == bs && trans[0..] == trans;
    var n := 0;
    while n < |ticks| && !over
      invariant e.Valid() && taken <= |bs| && dataQ == bs[taken..] + rest && (over <==> taken == |bs|)
      invariant n <= |ticks| && passes <= |trans| && Popped(e.r.tranRd, tranQ) == trans[passes..] + more
      invariant !over ==> Dumping(e.r, taken, passes, |bs|)
      invariant over ==> e.r.state == Idle && e.r.dumpCnt == 0 && passes == Passes(|bs|)
      decreases |ticks| - n
    {
      var t := ticks[n];
      Within(e.r, bs, trans, taken, passes);
      Heads(e.r, bs, trans, rest, more, taken, passes, tranQ);
      ghost var r := e.r;
      var rx, tran := dataQ[0], tranQ[0];
      var popped := Popped(e.r.tranRd, tranQ);
      var rxReady := e.Clock(t.rxVisible, rx, t.tranVisible, tran, t.desc, t.txReady);
      DumpClock(r, e.dmaChannel, t.rxVisible, rx, t.tranVisible, tran, t.desc, e.ids, t.txReady, e.r, rxReady, bs,
                trans, taken, passes);
      if rxReady && t.rxVisible {
        dataQ := dataQ[1..];
        taken := taken + 1;
        over := |dataQ| == |rest|;
      }
      tranQ := popped;
      if e.r.tranRd {
        passes := passes + 1;
      }
      n := n + 1;
    }
  }

  lemma Begins(r: Reg, bs: seq<Beat>, trans: seq<Tran>)
    requires r.state == Idle && r.dumpCnt == 0 && Headless(bs, trans)
    ensures Dumping(r, 0, 0, |bs|)
  {}

  lemma Within(r: Reg, bs: seq<Beat>, trans: seq<Tran>, taken: nat, passes: nat)
    requires Headless(bs, trans) && Dumping(r, taken, passes, |bs|)
    ensures passes < |trans| && taken < |bs| && (r.state == DataDump ==> !r.tranRd)
  {}

  lemma Heads(r: Reg, bs: seq<Beat>, trans: seq<Tran>, rest: seq<Beat>, more: seq<Tran>, taken: nat, passes: nat,
              tranQ: seq<Tran>)
    requires taken < |bs| && passes < |trans| && Popped(r.tranRd, tranQ) == trans[passes..] + more
    ensures bs[taken..] + rest != [] && (bs[taken..] + rest)[0] == bs[taken]
    ensures (bs[taken..] + rest)[1..] == bs[taken + 1..] + rest
    ensures tranQ != [] && (!r.tranRd ==> tranQ[0] == trans[passes])
    ensures (trans[passes..] + more)[1..] == trans[passes + 1..] + more
  {}

  // ---- Where such frames come from ----

  lemma {:induction false} LastFlat(gs: seq<Group>, i: nat)
    requires i < |Flat(gs)| && gs != [] && forall k :: 0 <= k < |gs| ==> ClosedGroup(gs[k], k == |gs| - 1)
    ensures Flat(gs)[i].last <==> i == |Flat(gs)| - 1
    decreases |gs|
  {
    var n := |gs| - 1;
    assert ClosedGroup(gs[n], true);
    if i < |Flat(gs[..n])| {
      NoneLast(gs[..n], i);
    }
  }

  /** A group whose only frame end, if any, is at its end. */
  ghost predicate ClosedGroup(g: Group, ends: bool) {
    g != [] && forall i :: 0 <= i < |g| ==> (g[i].last <==> ends && i == |g| - 1)
  }

  lemma {:induction false} NoneLast(gs: seq<Group>, i: nat)
    requires i < |Flat(gs)| && forall k :: 0 <= k < |gs| ==> ClosedGroup(gs[k], false)
    ensures !Flat(gs)[i].last
    decreases |gs|
  {
    var n := |gs| - 1;
    assert ClosedGroup(gs[n], false);
    if i < |Flat(gs[..n])| {
      NoneLast(gs[..n], i);
    }
  }

  lemma {:induction false} FlatCount(gs: seq<Group>)
    requires forall k :: 0 <= k < |gs| ==> |gs[k]| == BEATS
    ensures |Flat(gs)| == BEATS * |gs|
    decreases |gs|
  {
    if gs != [] {
      FlatCount(gs[..|gs| - 1]);
    }
  }

  lemma BeatCount(g: Group)
    requires Closed(g) && PackedGroup(g)
    ensures if EndsFrame(g) then 1 <= |g| <= BEATS else |g| == BEATS
    ensures ClosedGroup(g, EndsFrame(g)) && TranOf(g).count == |g|
  {
    hide Words, Kept;
    var n := |g| - 1;
    GroupSize(g);
    if EndsFrame(g) {
      FullBeats(g, n);
      WordsLast(g);
      LastKept(g[n]);
    } else {
      FullBeats(g, |g|);
      assert g[..|g|] == g;
    }
  }

  /** The cutter makes such a run of every frame whose beats are full but for the last and
      do not carry SOF. */
  lemma CutIsHeadless(gs: seq<Group>, trans: seq<Tran>)
    requires WholeFrame(gs) && forall k :: 0 <= k < |gs| ==> Closed(gs[k]) && PackedGroup(gs[k])
    requires |trans| == |gs| && forall k :: 0 <= k < |gs| ==> trans[k] == TranOf(gs[k])
    requires forall i :: 0 <= i < |Flat(gs)| ==> !Flat(gs)[i].sof
    ensures Headless(Flat(gs), trans)
  {
    hide Closed, PackedGroup, TranOf, EndsFrame, ClosedGroup, Flat;
    var n := |gs| - 1;
    forall k | 0 <= k < |gs|
      ensures ClosedGroup(gs[k], k == n) && trans[k].count == |gs[k]| <= BEATS && (k < n ==> |gs[k]| == BEATS)
    {
      BeatCount(gs[k]);
    }
    forall i | 0 <= i < |Flat(gs)| ensures Flat(gs)[i].last <==> i == |Flat(gs)| - 1 {
      LastFlat(gs, i);
    }
    FlatCount(gs[..n]);
    FlatSnoc(gs[..n], gs[n]);
    assert gs == gs[..n] + [gs[n]];
    BeatCount(gs[n]);
  }
}
