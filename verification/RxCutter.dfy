/** SsiPcieRxDmaTransFifo: cuts the inbound stream into transactions small
    enough for one memory-write TLP, and queues one descriptor for each. */
module RxCutter {
  import opened Streams
  import opened Transactions
  import opened Wrappers

  datatype Reg = Reg(tranWr: bool, tran: Tran, wordCnt: nat, cnt: nat, txValid: bool, tx: Beat)

  const REG_INIT := Reg(false, Tran(0, false, 0, 0), 0, 0, false, NO_BEAT)

  ghost predicate Open(g: Group) {
    && |Words(g)| <= MAX_WORDS - 4
    && forall i :: 0 <= i < |g| ==> !g[i].eot && !g[i].last
  }

  /** The transactions cut so far and the beats of the next one. */
  datatype Cut = Cut(groups: seq<Group>, open: Group)

  ghost predicate CutOk(c: Cut) {
    Open(c.open) && forall i :: 0 <= i < |c.groups| ==> Closed(c.groups[i])
  }

  /** The output is the input, byte-swapped, with only the end marks added. */
  ghost predicate SameBeats(taken: seq<Beat>, emitted: seq<Beat>) {
    && |taken| == |emitted|
    && forall i :: 0 <= i < |taken| ==> emitted[i] == Reversed(taken[i]).(eot := emitted[i].eot)
  }

  ghost predicate TransOf(groups: seq<Group>, trans: seq<Tran>) {
    |trans| == |groups| && forall i :: 0 <= i < |groups| ==> trans[i] == TranOf(groups[i])
  }

  ghost predicate Agree(r: Reg, c: Cut, taken: seq<Beat>, emitted: seq<Beat>, trans: seq<Tran>) {
    && CutOk(c)
    && SameBeats(taken, emitted)
    && emitted == Flat(c.groups) + c.open
    && TransOf(c.groups, trans)
    && r.wordCnt == |Words(c.open)| && r.cnt == |c.open| % 512
  }

  function Emit(sent: seq<Beat>, r: Reg): seq<Beat> {
    WithPending(sent, r.txValid, Reversed(r.tx))
  }

  function EmitTrans(sent: seq<Tran>, r: Reg): seq<Tran> {
    if r.tranWr then sent + [r.tran] else sent
  }

  lemma EmptyIsOpen()
    ensures Open([]) && Words([]) == []
  {}

  /** One more beat ends the transaction, or leaves room for another. */
  lemma Extend(g: Group, b: Beat)
    requires Open(g)
    ensures |Words(g + [b])| == |Words(g)| + |Kept(b)|
    ensures !b.eot && !b.last && |Words(g + [b])| <= MAX_WORDS - 4 ==> Open(g + [b])
    ensures b.eot && (b.last || |Words(g + [b])| > MAX_WORDS - 4) && |Kept(b)| <= 4 ==> Closed(g + [b])
  {
    hide Kept;
    WordsSnoc(g, b);
  }

  /** No room for another full beat? */
  method CheckCount(wordCnt: nat) returns (maxCntDet: bool)
    ensures maxCntDet <==> MAX_WORDS - 4 < wordCnt <= MAX_WORDS
  {
    maxCntDet := false;
    for i := 0 to 4
      invariant maxCntDet <==> MAX_WORDS - i < wordCnt <= MAX_WORDS
    {
      if wordCnt == MAX_WORDS - i {
        maxCntDet := true;
      }
    }
  }

  /** Accept one beat into the output register and account for it. */
  method TakeBeat(r: Reg, b: Beat, ghost c: Cut) returns (v: Reg, ghost c': Cut)
    requires !r.tranWr && !b.eot
    requires CutOk(c) && r.wordCnt == |Words(c.open)| && r.cnt == |c.open| % 512
    ensures v.txValid && v.tx == b.(eot := v.tx.eot)
    ensures CutOk(c') && v.wordCnt == |Words(c'.open)| && v.cnt == |c'.open| % 512
    ensures var all := c.open + [Reversed(v.tx)];
            if v.tranWr then c' == Cut(c.groups + [all], []) && v.tran == TranOf(all)
            else c' == Cut(c.groups, all)
    ensures v.tranWr <==> v.tx.eot
  {
    hide Reversed, Kept, Words, Closed, CountOf;
    v := r.(txValid := true, tx := b);
    ReversedKept(b, true);
    var increment := CountKeeps(b.keep);
    KeptCount(b);
    v := v.(wordCnt := r.wordCnt + increment, cnt := (r.cnt + 1) % 512);
    var maxCntDet := CheckCount(v.wordCnt);
    if maxCntDet || b.last {
      v := v.(tranWr := true,
              tran := Tran(b.dest % 16, b.eofe, v.wordCnt, v.cnt),
              tx := v.tx.(eot := true), wordCnt := 0, cnt := 0);
      ReversedKept(v.tx, true);
      c' := Cut(c.groups + [c.open + [Reversed(v.tx)]], []);
      EmptyIsOpen();
    } else {
      c' := Cut(c.groups, c.open + [Reversed(v.tx)]);
    }
    Extend(c.open, Reversed(v.tx));
  }

  /** One more beat, in and out. */
  lemma Account(c: Cut, taken: seq<Beat>, emitted: seq<Beat>, s: Beat, eot: bool)
    requires SameBeats(taken, emitted) && emitted == Flat(c.groups) + c.open
    ensures var out := Reversed(s.(eot := eot));
            && SameBeats(taken + [s], emitted + [out])
            && emitted + [out] == Flat(c.groups) + (c.open + [out])
            && emitted + [out] == Flat(c.groups + [c.open + [out]]) + []
  {
    hide Reversed, Flat;
    ReversedKept(s, eot);
    FlatSnoc(c.groups, c.open + [Reversed(s.(eot := eot))]);
  }

  /** The open transaction has got one beat more, and is closed if it has been cut. */
  ghost predicate Extended(c: Cut, b: Beat, tranWr: bool, c': Cut) {
    var all := c.open + [b];
    c' == if tranWr then Cut(c.groups + [all], []) else Cut(c.groups, all)
  }

  class Cutter {
    var r: Reg
    ghost var cut: Cut
    ghost var taken: seq<Beat>
    ghost var sent: seq<Beat>        // accepted by the data FIFO
    ghost var transSent: seq<Tran>   // written to the transaction FIFO

    ghost predicate Valid()
      reads this
    {
      Agree(r, cut, taken, Emit(sent, r), EmitTrans(transSent, r))
    }

    constructor ()
      ensures Valid() && r == REG_INIT && cut == Cut([], []) && taken == [] && sent == [] && transSent == []
    {
      hide Reversed;
      r, cut, taken, sent, transSent := REG_INIT, Cut([], []), [], [], [];
    }

    /** One clock. The source leaves tUser(0) of the beats it offers clear;
        `tranAFull` is the transaction FIFO's programmable full flag. */
    method Clock(sValid: bool, s: Beat, ready: bool, tranAFull: bool)
      returns (sReady: bool, ghost more: seq<Group>)
      requires Valid()
      requires sValid ==> !s.eot
      modifies this
      ensures Valid()
      ensures sReady <==> sValid && (ready || !old(r.txValid)) && !tranAFull && !old(r.tranWr)
      ensures taken == if sReady then old(taken) + [s] else old(taken)
      ensures sent == if ready then Emit(old(sent), old(r)) else old(sent)
      ensures transSent == EmitTrans(old(transSent), old(r))
      ensures cut.groups == old(cut.groups) + more && |more| == if r.tranWr then 1 else 0
      ensures r.txValid <==> sReady || (old(r.txValid) && !ready)
      ensures r.tranWr ==> sReady
      ensures if sReady then Extended(old(cut), Reversed(r.tx), r.tranWr, cut) else cut == old(cut)
    {
      hide CutOk, Flat, Closed, Open, Words, TranOf, Kept, Reversed, SameBeats;
      var v := r.(tranWr := false);
      sReady := false;
      transSent := EmitTrans(transSent, r);
      if ready {
        sent := Emit(sent, r);
        v := v.(txValid := false, tx := v.tx.(eot := false));
      }
      if sValid && !v.txValid && !tranAFull && !r.tranWr {
        sReady := true;
        ghost var c;
        v, c := TakeBeat(v, s, cut);
        Account(cut, taken, Emit(sent, r.(txValid := r.txValid && !ready)), s, v.tx.eot);
        cut, taken := c, taken + [s];
      }
      more := cut.groups[|old(cut).groups|..];
      r := v;
    }
  }
}
