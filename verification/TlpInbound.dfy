/** SsiPcieTlpInbound: merges register replies, memory-read requests and the
    receive engines' packets into one stream towards the PCIe core. */
module TlpInbound {
  import opened Streams
  import opened Wrappers

  datatype Source = RegIb | DmaTx(ch: nat) | DmaRx(ch: nat)

  /** A source's side of a stream. */
  datatype Master = Master(valid: bool, beat: Beat)

  datatype State = Idle | Locked   // DMA_RX_S

  datatype Reg = Reg(trnPending: bool, arbCnt: nat, chPntr: nat, txValid: bool, tx: Beat, state: State)

  const REG_INIT := Reg(false, 0, 0, false, NO_BEAT, Idle)

  /** A packet that has gone through, and where it came from. */
  datatype Packet = Packet(src: Source, beats: seq<Beat>)

  ghost predicate Whole(p: Packet) {
    p.beats != [] && forall i :: 0 <= i < |p.beats| ==> (p.beats[i].last <==> i == |p.beats| - 1)
  }

  function Flat(ps: seq<Packet>): seq<Beat>
    decreases |ps|
  {
    if ps == [] then [] else Flat(ps[..|ps| - 1]) + ps[|ps| - 1].beats
  }

  /** The beats of one source, in the order they have gone through. */
  function FlatOf(ps: seq<Packet>, src: Source): seq<Beat>
    decreases |ps|
  {
    if ps == [] then []
    else
      var p := ps[|ps| - 1];
      FlatOf(ps[..|ps| - 1], src) + (if p.src == src then p.beats else [])
  }

  lemma FlatSnoc(ps: seq<Packet>, p: Packet, src: Source)
    ensures Flat(ps + [p]) == Flat(ps) + p.beats
    ensures FlatOf(ps + [p], src) == FlatOf(ps, src) + (if p.src == src then p.beats else [])
  {
    assert (ps + [p])[..|ps|] == ps;
  }

  /** packets: those that have gone through; part: the beginning of the packet that
      holds the lock. */
  datatype Hist = Hist(packets: seq<Packet>, part: seq<Beat>)

  /** The beats accepted from a source so far. */
  function Accepted(chPntr: nat, h: Hist, src: Source): seq<Beat> {
    FlatOf(h.packets, src) + (if src == DmaRx(chPntr) then h.part else [])
  }

  /** The output is whole packets one after the other, then the beginning of one. */
  ghost predicate Agree(locked: bool, h: Hist, out: seq<Beat>) {
    && out == Flat(h.packets) + h.part
    && (forall k :: 0 <= k < |h.packets| ==> Whole(h.packets[k]))
    && (forall k :: 0 <= k < |h.part| ==> !h.part[k].last)
    && (locked <==> h.part != [])
  }

  function ValueOf(reg: Master, txs: seq<Master>, rxs: seq<Master>, src: Source): Master
    requires src.DmaTx? ==> src.ch < |txs|
    requires src.DmaRx? ==> src.ch < |rxs|
  {
    match src
    case RegIb => reg
    case DmaTx(i) => txs[i]
    case DmaRx(i) => rxs[i]
  }

  /** A source's beat goes out: it ends a packet or starts or continues the one
      that holds the lock. */
  function AfterBeat(h: Hist, src: Source, b: Beat): Hist {
    if b.last then Hist(h.packets + [Packet(src, h.part + [b])], []) else Hist(h.packets, h.part + [b])
  }

  lemma BeatAccepted(r: Reg, h: Hist, v: Reg, src: Source, b: Beat, o: Source)
    requires (r.state == Locked) <==> h.part != []
    requires r.state == Locked ==> src == DmaRx(r.chPntr) && v.chPntr == r.chPntr
    requires src.DmaRx? ==> v.chPntr == src.ch
    requires !src.DmaRx? ==> b.last
    ensures Accepted(v.chPntr, AfterBeat(h, src, b), o)
            == Accepted(r.chPntr, h, o) + if o == src then [b] else []
  {
    hide FlatOf;
    FlatSnoc(h.packets, Packet(src, h.part + [b]), o);
    Associate(FlatOf(h.packets, o), h.part, [b]);
  }

  lemma BeatPlaced(r: Reg, h: Hist, out: seq<Beat>, v: Reg, src: Source, b: Beat)
    requires Agree(r.state == Locked, h, out) && (v.state == Idle <==> b.last)
    ensures Agree(v.state == Locked, AfterBeat(h, src, b), out + [b])
  {
    hide Flat, FlatOf;
    FlatSnoc(h.packets, Packet(src, h.part + [b]), src);
    Associate(Flat(h.packets), h.part, [b]);
  }

  lemma BeatKept(r: Reg, h: Hist, out: seq<Beat>, v: Reg, src: Source, b: Beat)
    requires Agree(r.state == Locked, h, out)
    requires r.state == Locked ==> src == DmaRx(r.chPntr) && v.chPntr == r.chPntr
    requires src.DmaRx? ==> v.chPntr == src.ch
    requires !src.DmaRx? ==> b.last
    requires v.state == Idle <==> b.last
    ensures Agree(v.state == Locked, AfterBeat(h, src, b), out + [b])
    ensures Accepted(v.chPntr, AfterBeat(h, src, b), src) == Accepted(r.chPntr, h, src) + [b]
    ensures forall o: Source :: o != src ==> Accepted(v.chPntr, AfterBeat(h, src, b), o) == Accepted(r.chPntr, h, o)
  {
    BeatPlaced(r, h, out, v, src, b);
    hide Accepted, AfterBeat;
    BeatAccepted(r, h, v, src, b, src);
    forall o: Source | o != src
      ensures Accepted(v.chPntr, AfterBeat(h, src, b), o) == Accepted(r.chPntr, h, o)
    {
      BeatAccepted(r, h, v, src, b, o);
      assert Accepted(r.chPntr, h, o) + [] == Accepted(r.chPntr, h, o);
    }
  }

  /** Is any source waiting? */
  method Pending(reg: Master, txs: seq<Master>, rxs: seq<Master>) returns (any: bool)
    requires |txs| == |rxs|
    ensures any <==> reg.valid || exists i :: 0 <= i < |txs| && (txs[i].valid || rxs[i].valid)
  {
    any := reg.valid;
    for i := 0 to |txs|
      invariant any <==> reg.valid || exists k :: 0 <= k < i && (txs[k].valid || rxs[k].valid)
    {
      if txs[i].valid {
        any := true;
      }
      if rxs[i].valid {
        any := true;
      }
    }
  }

  /** The arbitration proper, on registers whose output has been released. */
  method Choose(r: Reg, reg: Master, txs: seq<Master>, rxs: seq<Master>) returns (v: Reg, taken: Option<Source>)
    requires |txs| == |rxs| && r.arbCnt < |txs| && r.chPntr < |txs|
    requires reg.valid ==> reg.beat.last
    requires forall i :: 0 <= i < |txs| && txs[i].valid ==> txs[i].beat.last
    ensures v.arbCnt < |txs| && v.chPntr < |txs| && v.trnPending == r.trnPending
    ensures taken.None? ==> v == r.(arbCnt := v.arbCnt)
    ensures taken.Some? ==>
              && var src := taken.value;
              && (src.RegIb? || src.ch < |txs|)
              && var m := ValueOf(reg, txs, rxs, src);
              && m.valid && !r.txValid && v.txValid && v.tx == m.beat
              && (r.state == Locked ==> src == DmaRx(r.chPntr) && v.chPntr == r.chPntr)
              && (src.DmaRx? ==> v.chPntr == src.ch)
              && (!src.DmaRx? ==> m.beat.last)
              && (v.state == Idle <==> m.beat.last)
    ensures r.state == Idle && !r.txValid ==>
              taken == if reg.valid then Some(RegIb)
                       else if txs[r.arbCnt].valid then Some(DmaTx(r.arbCnt))
                       else if rxs[r.arbCnt].valid then Some(DmaRx(r.arbCnt)) else None
    ensures r.state == Locked && !r.txValid ==> (taken.Some? <==> rxs[r.chPntr].valid)
    ensures r.txValid ==> taken.None?
    ensures v.arbCnt == if r.state == Idle && !r.txValid && !reg.valid && !txs[r.arbCnt].valid
                        then (if r.arbCnt == |txs| - 1 then 0 else r.arbCnt + 1) else r.arbCnt
  {
    taken, v := None, r;
    match r.state {
      case Idle =>
        if !r.txValid {
          if reg.valid {
            taken := Some(RegIb);
            v := v.(txValid := true, tx := reg.beat);
          } else if txs[r.arbCnt].valid {
            taken := Some(DmaTx(r.arbCnt));
            v := v.(txValid := true, tx := txs[r.arbCnt].beat);
          } else {
            if rxs[r.arbCnt].valid {
              taken := Some(DmaRx(r.arbCnt));
              v := v.(txValid := true, tx := rxs[r.arbCnt].beat, chPntr := r.arbCnt);
              if !v.tx.last {
                v := v.(state := Locked);
              }
            }
            v := v.(arbCnt := if r.arbCnt == |txs| - 1 then 0 else r.arbCnt + 1);
          }
        }
      case Locked =>
        if !r.txValid && rxs[r.chPntr].valid {
          taken := Some(DmaRx(r.chPntr));
          v := v.(txValid := true, tx := rxs[r.chPntr].beat);
          if v.tx.last {
            v := v.(state := Idle);
          }
        }
    }
  }

  class Arbiter {
    const n: nat
    var r: Reg
    ghost var h: Hist
    ghost var sent: seq<Beat>

    ghost function Emitted(): seq<Beat>
      reads this
    {
      WithPending(sent, r.txValid, r.tx)
    }

    ghost predicate Valid()
      reads this
    {
      r.arbCnt < n && r.chPntr < n && Agree(r.state == Locked, h, Emitted())
    }

    constructor (dmaSize: nat)
      requires 0 < dmaSize
      ensures Valid() && n == dmaSize && r == REG_INIT && h == Hist([], []) && sent == []
    {
      n, r, h, sent := dmaSize, REG_INIT, Hist([], []), [];
    }

    /** One clock. At most one source sees tReady: `taken`. Register replies and
        memory-read requests are packets of one beat. */
    method Clock(reg: Master, txs: seq<Master>, rxs: seq<Master>, ready: bool) returns (taken: Option<Source>)
      requires Valid() && |txs| == |rxs| == n
      requires reg.valid ==> reg.beat.last
      requires forall i :: 0 <= i < n && txs[i].valid ==> txs[i].beat.last
      modifies this
      ensures Valid()
      ensures sent == if ready then old(Emitted()) else old(sent)
      ensures taken.None? ==> h == old(h)
      ensures taken.None? ==> forall o: Source :: Accepted(r.chPntr, h, o) == old(Accepted(r.chPntr, h, o))
      ensures taken.Some? ==>
                && var src := taken.value;
                && (src.RegIb? || src.ch < n)
                && var m := ValueOf(reg, txs, rxs, src);
                && m.valid && Accepted(r.chPntr, h, src) == old(Accepted(r.chPntr, h, src)) + [m.beat]
                && forall o: Source :: o != src ==> Accepted(r.chPntr, h, o) == old(Accepted(r.chPntr, h, o))
      ensures old(r.state) == Locked && taken.Some? ==> taken.value == DmaRx(old(r.chPntr))
      ensures var at := old(r.arbCnt);
              && at < n
              && (old(r.state) == Idle && (ready || !old(r.txValid)) ==>
                    && taken == (if reg.valid then Some(RegIb) else if txs[at].valid then Some(DmaTx(at))
                                 else if rxs[at].valid then Some(DmaRx(at)) else None)
                    && r.arbCnt == if reg.valid || txs[at].valid then at else if at == n - 1 then 0 else at + 1)
              && (old(r.state) == Locked || !(ready || !old(r.txValid)) ==> r.arbCnt == at)
      ensures old(r.state) == Locked && (ready || !old(r.txValid)) ==>
                old(r.chPntr) < n && (taken.Some? <==> rxs[old(r.chPntr)].valid)
      ensures !(ready || !old(r.txValid)) ==> taken.None?
      ensures r.trnPending <==> reg.valid || exists i :: 0 <= i < n && (txs[i].valid || rxs[i].valid)
    {
      hide Agree, Accepted, AfterBeat;
      var pending := Pending(reg, txs, rxs);
      var u := r.(trnPending := pending);
      if ready {
        sent := Emitted();
        u := u.(txValid := false);
      }
      var v;
      v, taken := Choose(u, reg, txs, rxs);
      if taken.Some? {
        BeatKept(r, h, old(Emitted()), v, taken.value, v.tx);
        h := AfterBeat(h, taken.value, v.tx);
      }
      r := v;
    }
  }
}
