/** SsiPcieTlpCtrl: gives every packet coming from the PCIe core its own beats.
    The core may start a packet in the upper half of the beat in which the
    previous packet ends; downstream every packet must start in lane 0. */
module TlpCtrl {
  import opened Streams
  import opened Wrappers

  datatype State = Sof00 | Sof10 | Eof10

  datatype Reg = Reg(txValid: bool, tx: Beat, master: Beat, state: State)

  const REG_INIT := Reg(false, NO_BEAT, NO_BEAT, Sof00)

  predicate Straddles(b: Beat) {
    b.sof && b.sofPos != 0
  }

  /** The beats so far are ones the core may produce. */
  predicate Legal(v: View) {
    v.packed && v.framed
  }

  /** How the core's beats are to be read. A straddling beat ends the open
      packet in its lower half, as its keep says, and opens the next packet with
      its two upper lanes. */
  function AbsorbCore(v: View, b: Beat): (w: View)
    ensures Legal(w) ==> Legal(v)
  {
    if Straddles(b) then
      View(v.pkts + [v.part + LowerHalf(b.keep, b.data)],
           [b.data.w2, b.data.w3],
           v.packed && b.last && b.keep.w0 && !b.keep.w2 && !b.keep.w3,
           v.framed && v.part != [])
    else
      var a := Absorb(v, b);
      a.(packed := a.packed && (b.last ==> (b.eofPos >= 8 <==> b.keep.w2)))
  }

  function CoreView(bs: seq<Beat>): View
    decreases |bs|
  {
    if bs == [] then EMPTY_VIEW else AbsorbCore(CoreView(bs[..|bs| - 1]), bs[|bs| - 1])
  }

  lemma CoreViewSnoc(bs: seq<Beat>, b: Beat)
    ensures CoreView(bs + [b]) == AbsorbCore(CoreView(bs), b)
  {
    assert (bs + [b])[..|bs|] == bs;
  }

  /** What the machine owes downstream in each state; `out` is what it has put
      out, its output register included. */
  predicate Agree(r: Reg, core: View, out: View) {
    && Legal(out)
    && match r.state
       case Sof00 => core.pkts == out.pkts && core.part == out.part
       case Sof10 =>
         && core.pkts == out.pkts && core.part == out.part + UpperHalf(r.master.keep, r.master.data)
         && r.master.keep.w2 && r.master.keep.w3 && !r.master.last
         && (r.master.sof <==> out.part == [])
       case Eof10 =>
         && core.pkts == out.pkts + [out.part + UpperHalf(r.master.keep, r.master.data)]
         && core.part == [] && out.part != []
         && r.master.keep.w2 && !r.master.sof
  }

  /** The saved upper half moved down, under the lower half of the next beat. */
  function Realigned(m: Beat, keep: Quad<bool>, data: Quad<Dword>): Beat {
    m.(data := Quad(m.data.w2, m.data.w3, data.w0, data.w1),
       keep := Quad(m.keep.w2, m.keep.w3, keep.w0, keep.w1))
  }

  lemma RealignedKept(part: seq<Dword>, m: Beat, keep: Quad<bool>, data: Quad<Dword>)
    ensures part + Kept(Realigned(m, keep, data)) == part + UpperHalf(m.keep, m.data) + LowerHalf(keep, data)
  {
    var t := Realigned(m, keep, data);
    assert LowerHalf(t.keep, t.data) == UpperHalf(m.keep, m.data);
    assert UpperHalf(t.keep, t.data) == LowerHalf(keep, data);
  }

  /** A beat that ends in its lower half: all its dwords are there. */
  lemma LowerOnly(part: seq<Dword>, b: Beat)
    requires !b.keep.w2 && !b.keep.w3
    ensures part + Kept(b) == part + LowerHalf(b.keep, b.data)
  {}

  /** State SOF_00: pass the beat on; a straddling beat loses its upper half,
      which is kept for the next clock. */
  method PassBeat(r: Reg, b: Beat, ghost core: View, ghost out: View) returns (v: Reg)
    requires r.state == Sof00
    requires Legal(AbsorbCore(core, b)) ==> Agree(r, core, out)
    ensures v.txValid
    ensures Legal(AbsorbCore(core, b)) ==> Agree(v, AbsorbCore(core, b), Absorb(out, v.tx))
  {
    v := r.(txValid := true, tx := b, master := b);
    if b.sof && b.sofPos != 0 {
      v := v.(tx := v.tx.(last := true, sof := false),
              master := v.master.(last := false, keep := ALL),
              state := Sof10);
      if Legal(AbsorbCore(core, b)) {
        LowerOnly(out.part, b);
        assert AbsorbCore(core, b).part == UpperHalf(ALL, b.data);
      }
    }
  }

  /** State SOF_10: emit the saved upper half under the new lower half. */
  method ShiftBeat(r: Reg, b: Beat, ghost core: View, ghost out: View) returns (v: Reg)
    requires r.state == Sof10
    requires Legal(AbsorbCore(core, b)) ==> Agree(r, core, out)
    ensures v.txValid
    ensures Legal(AbsorbCore(core, b)) ==> Agree(v, AbsorbCore(core, b), Absorb(out, v.tx))
  {
    v := r.(txValid := true, tx := Realigned(r.master, b.keep, b.data), master := b);
    if b.sof && b.sofPos != 0 {
      v := v.(tx := v.tx.(last := true), master := v.master.(last := false, keep := ALL));
    } else if b.last {
      if b.eofPos >= 8 {
        v := v.(state := Eof10);
      } else {
        v := v.(tx := v.tx.(last := true), state := Sof00);
      }
    }
    if Legal(AbsorbCore(core, b)) {
      RealignedKept(out.part, r.master, b.keep, b.data);
      assert core.part + Kept(b) == core.part + LowerHalf(b.keep, b.data) + UpperHalf(b.keep, b.data);
      if !b.keep.w2 && !b.keep.w3 {
        LowerOnly(core.part, b);
      }
    }
  }

  /** State EOF_10: emit the saved upper half alone. */
  method FlushBeat(r: Reg, ghost core: View, ghost out: View) returns (v: Reg)
    requires r.state == Eof10
    requires Legal(core) ==> Agree(r, core, out)
    ensures v.txValid && v.state == Sof00
    ensures Legal(core) ==> Agree(v, core, Absorb(out, v.tx))
  {
    v := r.(txValid := true,
            tx := Realigned(r.master, NO_BEAT.keep, NO_BEAT.data).(last := true),
            state := Sof00);
    RealignedKept(out.part, r.master, NO_BEAT.keep, NO_BEAT.data);
    ghost var all := out.part + UpperHalf(r.master.keep, r.master.data);
    assert all + [] == all;
  }

  class Controller {
    var r: Reg
    ghost var taken: seq<Beat>
    ghost var sent: seq<Beat>

    ghost function Emitted(): seq<Beat>
      reads this
    {
      WithPending(sent, r.txValid, r.tx)
    }

    ghost predicate Valid()
      reads this
    {
      Legal(CoreView(taken)) ==> Agree(r, CoreView(taken), Deframe(Emitted()))
    }

    constructor ()
      ensures Valid() && r == REG_INIT && taken == [] && sent == []
    {
      r, taken, sent := REG_INIT, [], [];
    }

    /** One clock: `core` is the beat the PCIe core offers, `ready` the sink's
        tReady; `rxReady` is the tReady returned to the core. */
    method Clock(core: Option<Beat>, ready: bool) returns (rxReady: bool)
      requires Valid()
      modifies this
      ensures Valid()
      ensures rxReady <==> core.Some? && old(r.state) != Eof10 && (ready || !old(r.txValid))
      ensures taken == if rxReady then old(taken) + [core.value] else old(taken)
      ensures sent == if ready && old(r.txValid) then old(sent) + [old(r.tx)] else old(sent)
      ensures old(r.txValid) && !ready ==> r == old(r)
      ensures ready || !old(r.txValid) ==> (r.txValid <==> rxReady || old(r.state) == Eof10)
      ensures old(r.state) == Eof10 && (ready || !old(r.txValid)) ==> r.state == Sof00
      ensures old(r.state) != Eof10 && !rxReady ==> r.state == old(r.state)
    {
      hide LowerHalf, UpperHalf, Absorb, AbsorbCore;
      ghost var inView, outView := CoreView(taken), Deframe(Emitted());
      var v := r;
      rxReady := false;
      if ready {
        sent := Emitted();
        v := v.(txValid := false);
      }
      if !v.txValid {
        match v.state {
          case Sof00 =>
            if core.Some? {
              rxReady := true;
              v := PassBeat(v, core.value, inView, outView);
            }
          case Sof10 =>
            if core.Some? {
              rxReady := true;
              v := ShiftBeat(v, core.value, inView, outView);
            }
          case Eof10 =>
            v := FlushBeat(v, inView, outView);
        }
        DeframeSnoc(sent, v.tx);
      }
      if rxReady {
        CoreViewSnoc(taken, core.value);
        taken := taken + [core.value];
      }
      r := v;
    }
  }

  /** A packet in flight is at most one in the output register and one saved half. */
  lemma InFlight(r: Reg, core: View, sent: seq<Beat>)
    requires Agree(r, core, Deframe(WithPending(sent, r.txValid, r.tx)))
    ensures Legal(Deframe(sent))
    ensures Deframe(sent).pkts <= core.pkts
    ensures |core.pkts| <= |Deframe(sent).pkts| + 2
    ensures !r.txValid && r.state == Sof00 ==> Deframe(sent).pkts == core.pkts
  {
    DeframeSnoc(sent, r.tx);
  }

  /** Once the last packet has ended, nothing is saved but the end of that packet. */
  lemma NothingOpen(r: Reg, core: View, out: View)
    requires Agree(r, core, out) && core.part == []
    ensures r.state != Sof10
  {}

  /** The core pauses for two clocks at the end, and the sink takes what it is shown. */
  predicate Drains(offers: seq<Option<Beat>>, readies: seq<bool>)
    requires |offers| == |readies|
  {
    |offers| >= 2 && forall n :: |offers| - 2 <= n < |offers| ==> offers[n].None? && readies[n]
  }

  /** Any number of clocks after reset, with any offers and any back-pressure:
      the packets that left are the packets that came, dword for dword and in
      order, each with one start and one end. Two clocks after the last packet has
      ended, all of them have left. */
  method Run(offers: seq<Option<Beat>>, readies: seq<bool>) returns (taken: seq<Beat>, sent: seq<Beat>, idle: bool)
    requires |offers| == |readies|
    ensures Legal(CoreView(taken)) ==>
              && Legal(Deframe(sent))
              && Deframe(sent).pkts <= CoreView(taken).pkts
              && |CoreView(taken).pkts| <= |Deframe(sent).pkts| + 2
              && (idle ==> Deframe(sent).pkts == CoreView(taken).pkts)
              && (Drains(offers, readies) && CoreView(taken).part == [] ==> idle)
  {
    hide Agree, CoreView, Deframe;
    var c := new Controller();
    taken, sent := [], [];
    for n := 0 to |offers|
      invariant c.Valid() && fresh(c)
      invariant taken == c.taken && sent == c.sent
      invariant n >= 1 && offers[n - 1].None? && readies[n - 1] ==> c.r.state != Eof10
      invariant n >= 2 && offers[n - 2].None? && readies[n - 2] && offers[n - 1].None? && readies[n - 1] ==>
                  !c.r.txValid
    {
      if readies[n] {
        sent := WithPending(sent, c.r.txValid, c.r.tx);
      }
      var accepted := c.Clock(offers[n], readies[n]);
      if accepted {
        taken := taken + [offers[n].value];
      }
    }
    idle := !c.r.txValid && c.r.state == Sof00;
    if Legal(CoreView(taken)) {
      InFlight(c.r, CoreView(taken), sent);
      if CoreView(taken).part == [] {
        NothingOpen(c.r, CoreView(taken), Deframe(c.Emitted()));
      }
    }
  }
}
