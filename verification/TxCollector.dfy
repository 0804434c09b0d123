/** SsiPcieTxDma: rebuilds the requested dwords from the completion TLPs, however
    the host has split them, and frames them with SOF, EOF and `done`. */
module TxCollector {
  import opened PcieTypes
  import opened Streams
  import opened Wrappers

  datatype State = Idle | Collect

  datatype Reg = Reg(done: bool, remLength: Len24, txValid: bool, tx: Beat, state: State)

  const REG_INIT := Reg(false, 0, false, NO_BEAT, Idle)

  /** The payload a beat brings: the beat with the 3-DW header has one dword. */
  function Payload(rx: Beat): seq<Dword> {
    if rx.sof then [rx.data.w3] else Kept(rx)
  }

  /** The payload of a run of beats. */
  function Payloads(bs: seq<Beat>): seq<Dword>
    decreases |bs|
  {
    if bs == [] then [] else Payloads(bs[..|bs| - 1]) + Payload(bs[|bs| - 1])
  }

  /** A completion TLP, laid out from lane 0 on with SOF on its first beat: three header
      dwords, then data. Its payload is the data. */
  lemma {:induction false} PayloadIsData(bs: seq<Beat>, header: seq<Dword>, data: seq<Dword>)
    requires bs != [] && bs[0].keep == ALL && forall i :: 0 <= i < |bs| ==> (bs[i].sof <==> i == 0)
    requires |header| == 3 && Words(bs) == header + data
    ensures Payloads(bs) == data
    decreases |bs|
  {
    hide Kept, Words, Payload;
    var n := |bs| - 1;
    var pre := bs[..n];
    WordsLast(bs);
    if n == 0 {
      FirstPayload(bs[0], header, data);
      assert pre == [];
    } else {
      FirstFull(pre);
      var k := |Words(pre)| - 3;
      HeaderOff(header, data, Words(pre), Kept(bs[n]), k);
      PayloadIsData(pre, header, data[..k]);
      NoHeader(bs[n]);
    }
  }

  lemma FirstPayload(b: Beat, header: seq<Dword>, data: seq<Dword>)
    requires b.keep == ALL && b.sof && |header| == 3 && Words([]) + Kept(b) == header + data
    ensures Payload(b) == data
  {
    KeptAll(b);
    assert data == (header + data)[3..];
  }

  lemma NoHeader(b: Beat)
    requires !b.sof
    ensures Payload(b) == Kept(b)
  {}

  lemma HeaderOff(header: seq<Dword>, data: seq<Dword>, words: seq<Dword>, last: seq<Dword>, k: nat)
    requires |header| == 3 && |words| == k + 3 && words + last == header + data
    ensures k <= |data| && words == header + data[..k] && data == data[..k] + last
  {
    assert words == (words + last)[..k + 3];
    assert last == (words + last)[k + 3..];
  }

  lemma {:induction false} FirstFull(bs: seq<Beat>)
    requires bs != [] && bs[0].keep == ALL
    ensures |Words(bs)| >= 4
    decreases |bs|
  {
    hide Kept;
    if |bs| == 1 {
      KeptAll(bs[0]);
      assert bs[..0] == [];
    } else {
      FirstFull(bs[..|bs| - 1]);
    }
  }

  /** A beat of the completions of a request of `len` dwords, `rem` of them still
      to come: a request starts with a header beat, payload lanes fill up from
      lane 0, and the completions bring no more than was asked for. */
  ghost predicate LegalBeat(rx: Beat, rem: nat, len: nat) {
    && (rem == len ==> rx.sof)
    && (!rx.sof ==> KeepsPrefix(rx))
    && |Payload(rx)| <= rem
  }

  /** got: dwords of the request in progress; frames: the requests completed;
      input: all payload accepted while collecting. */
  datatype Hist = Hist(len: nat, got: seq<Dword>, frames: seq<seq<Dword>>, input: seq<Dword>)

  const HIST_INIT := Hist(0, [], [], [])

  /** remLength counts what is left of the request. */
  ghost predicate Counted(r: Reg, h: Hist) {
    match r.state
    case Idle => h.got == [] && r.remLength == 0
    case Collect => |h.got| + r.remLength == h.len < 0x100_0000 && 0 < r.remLength
  }

  ghost predicate Agree(r: Reg, h: Hist, out: View) {
    && out.framed && out.pkts == h.frames && out.part == h.got
    && h.input == Flat(h.frames) + h.got
    && Counted(r, h)
  }

  /** SOF travels on a beat of one dword only: the serialiser keeps it. */
  ghost predicate LoneSof(b: Beat) {
    KeepsPrefix(b) && (b.sof ==> !b.keep.w1)
  }

  /** What a beat that goes to the output does when it is legal. */
  ghost predicate Delivered(r: Reg, rx: Beat, v: Reg) {
    && Kept(v.tx) == Payload(rx) && LoneSof(v.tx)
    && v.remLength == r.remLength - |Payload(rx)|
    && v.done == (v.remLength == 0)
  }

  /** The beat with the 3-DW header: its fourth dword is payload. */
  method TakeHeader(r: Reg, rx: Beat) returns (v: Reg)
    requires rx.sof && !r.tx.last && !r.done && r.state == Collect
    ensures v.txValid == r.txValid && v.tx.sof == r.tx.sof && v.tx.last == v.done
    ensures v.state == if v.done then Idle else Collect
    ensures 0 < r.remLength ==> Delivered(r, rx, v)
  {
    v := r.(tx := r.tx.(keep := Quad(true, false, false, false), data := r.tx.data.(w0 := rx.data.w3)),
            remLength := Sub24(r.remLength, 1));
    if r.remLength == 1 {
      v := v.(done := true, tx := v.tx.(last := true), state := Idle);
    }
  }

  /** A beat of payload. */
  method TakePayload(r: Reg, rx: Beat) returns (v: Reg)
    requires !rx.sof && !r.tx.last && !r.done && r.state == Collect
    ensures v.txValid == r.txValid && v.tx.sof == r.tx.sof && v.tx.last == v.done
    ensures v.state == if v.done then Idle else Collect
    ensures KeepsPrefix(rx) && CountOf(rx.keep) <= r.remLength && !r.tx.sof ==> Delivered(r, rx, v)
  {
    var n := if rx.keep.w3 then 4 else if rx.keep.w2 then 3 else if rx.keep.w1 then 2 else 1;
    v := r.(tx := r.tx.(keep := rx.keep, data := rx.data), remLength := Sub24(r.remLength, n));
    var whole := match r.remLength
      case 1 => true
      case 2 => rx.keep.w0 && rx.keep.w1
      case 3 => rx.keep.w0 && rx.keep.w1 && rx.keep.w2
      case 4 => rx.keep == ALL
      case _ => false;
    if whole {
      v := v.(tx := v.tx.(keep := Quad(true, r.remLength >= 2, r.remLength >= 3, r.remLength >= 4), last := true),
              done := true, state := Idle);
    }
    if KeepsPrefix(rx) && CountOf(rx.keep) <= r.remLength {
      KeptCount(rx);
      assert v.tx.keep == rx.keep && v.tx.data == rx.data;
    }
  }

  /** State COLLECT: one beat from the completions goes to the output. */
  method TakeBeat(r: Reg, rx: Beat, dmaSof: bool) returns (v: Reg)
    requires r.state == Collect && !r.txValid && !r.tx.last && !r.done
    ensures v.txValid && v.tx.sof == dmaSof && v.tx.last == v.done
    ensures v.state == if v.done then Idle else Collect
    ensures 0 < r.remLength && LegalBeat(rx, r.remLength, if dmaSof then r.remLength else 0) ==> Delivered(r, rx, v)
  {
    hide Delivered, Kept, KeepsPrefix, CountOf;
    KeptCount(rx);
    v := r.(txValid := true, tx := r.tx.(sof := dmaSof));
    if rx.sof {
      v := TakeHeader(v, rx);
    } else {
      v := TakePayload(v, rx);
    }
    SameDelivery(r, r.(txValid := true, tx := r.tx.(sof := dmaSof)), rx, v);
  }

  lemma SameDelivery(r: Reg, u: Reg, rx: Beat, v: Reg)
    requires u.remLength == r.remLength
    ensures Delivered(u, rx, v) == Delivered(r, rx, v)
  {}

  lemma BeatAbsorbed(r: Reg, v: Reg, h: Hist, out: View, rx: Beat)
    requires Agree(r, h, out) && r.state == Collect && LegalBeat(rx, r.remLength, h.len)
    requires v.txValid && Kept(v.tx) == Payload(rx) && v.tx.sof == (r.remLength == h.len)
    requires v.remLength == r.remLength - |Payload(rx)| && v.tx.last == (v.remLength == 0)
    requires v.state == if v.remLength == 0 then Idle else Collect
    ensures Agree(v, AfterBeat(h, rx, v.remLength == 0), Absorb(out, v.tx))
  {
    hide Kept, Flat, PackedBeat, KeepsPrefix;
    var got := h.got + Payload(rx);
    FlatSnoc(h.frames, got);
    assert Flat(h.frames) + h.got + Payload(rx) == Flat(h.frames) + got;
    assert Flat(h.frames) + got + [] == Flat(h.frames) + got;
  }

  function AfterBeat(h: Hist, rx: Beat, whole: bool): Hist {
    var got := h.got + Payload(rx);
    var h1 := h.(input := h.input + Payload(rx));
    if whole then h1.(got := [], frames := h.frames + [got]) else h1.(got := got)
  }

  /** What the neighbours of the collector have to respect: a request is for at least
      one dword, its length stays up while it is served, and the completions are legal. */
  ghost predicate LegalInput(r: Reg, len: nat, start: bool, newLength: nat, rxValid: bool, rx: Beat) {
    match r.state
    case Idle => start ==> 0 < newLength
    case Collect => newLength == len && (rxValid ==> LegalBeat(rx, r.remLength, len))
  }

  /** The combinatorial process after the output register has been released. */
  method Step(u: Reg, dmaSof: bool, start: bool, newLength: Len24, rxValid: bool, rx: Beat, ghost legal: bool,
              ghost h: Hist, ghost out: View)
    returns (v: Reg, rxReady: bool, ghost h': Hist)
    requires !u.done && (!u.txValid ==> !u.tx.sof && !u.tx.last) && dmaSof == (u.remLength == newLength)
    requires legal ==> Agree(u, h, out) && LegalInput(u, h.len, start, newLength, rxValid, rx)
    ensures u.txValid ==> v.txValid && v.tx == u.tx
    ensures !v.txValid ==> !v.tx.sof && !v.tx.last
    ensures v.state == Collect <==> if u.state == Collect then !v.done else start
    ensures u.state == Idle ==> rxReady == !start && h' == (if start then h.(len := newLength) else h) && !v.done
    ensures v.txValid == (u.txValid || (u.state == Collect && rxReady))
    ensures u.state == Collect ==>
              rxReady == (rxValid && !u.txValid) && h' == (if rxReady then AfterBeat(h, rx, v.done) else h)
    ensures legal ==>
              && Agree(v, h', if v.txValid && !u.txValid then Absorb(out, v.tx) else out)
              && (v.txValid && !u.txValid ==> LoneSof(v.tx))
              && (v.done <==> |h'.frames| == |h.frames| + 1)
              && (v.done ==> |h'.frames[|h'.frames| - 1]| == h.len && v.remLength == 0)
  {
    hide Absorb, Flat, Payload, Kept, LoneSof, LegalBeat;
    v, rxReady, h' := u, false, h;
    match u.state {
      case Idle =>
        if start {
          v := u.(remLength := newLength, state := Collect);
          h' := h.(len := newLength);
        } else {
          rxReady := true;
        }
      case Collect =>
        if !u.txValid && rxValid {
          rxReady := true;
          v := TakeBeat(u, rx, dmaSof);
          if legal {
            SameRequest(u, h, rx, dmaSof);
            BeatAbsorbed(u, v, h, out, rx);
          }
          h' := AfterBeat(h, rx, v.done);
        }
    }
  }

  ghost predicate AllLone(bs: seq<Beat>) {
    forall i :: 0 <= i < |bs| ==> LoneSof(bs[i])
  }

  /** The registers once the sink has taken the output beat, if it has. */
  function Released(r: Reg, txReady: bool): Reg {
    var u := r.(done := false);
    if txReady then u.(txValid := false, tx := u.tx.(last := false, sof := false)) else u
  }

  function SentAfter(sent: seq<Beat>, r: Reg, txReady: bool): seq<Beat> {
    if txReady then WithPending(sent, r.txValid, r.tx) else sent
  }

  /** A new beat, if any, joins the beats put out. */
  lemma PutOut(sent: seq<Beat>, r: Reg, txReady: bool, v: Reg)
    requires var u := Released(r, txReady);
             && (u.txValid ==> v.txValid && v.tx == u.tx) && (v.txValid && !u.txValid ==> LoneSof(v.tx))
    requires AllLone(WithPending(sent, r.txValid, r.tx))
    ensures var out, now := Deframe(WithPending(sent, r.txValid, r.tx)),
            WithPending(SentAfter(sent, r, txReady), v.txValid, v.tx);
            && Deframe(now) == (if v.txValid && !Released(r, txReady).txValid then Absorb(out, v.tx) else out)
            && AllLone(now)
  {
    hide Deframe, Absorb, LoneSof;
    DeframeSnoc(SentAfter(sent, r, txReady), v.tx);
  }

  lemma ReleaseKeeps(r: Reg, txReady: bool, h: Hist, out: View, start: bool, newLength: Len24, rxValid: bool, rx: Beat)
    requires !r.txValid ==> !r.tx.sof && !r.tx.last
    ensures var u := Released(r, txReady);
            && !u.done && (!u.txValid ==> !u.tx.sof && !u.tx.last) && u.remLength == r.remLength && u.state == r.state
            && u.txValid == (r.txValid && !txReady)
    ensures Agree(Released(r, txReady), h, out) == Agree(r, h, out)
    ensures LegalInput(Released(r, txReady), h.len, start, newLength, rxValid, rx)
            == LegalInput(r, h.len, start, newLength, rxValid, rx)
  {}

  /** The combinatorial process. */
  method Turn(r: Reg, start: bool, newLength: Len24, rxValid: bool, rx: Beat, txReady: bool, ghost legal: bool,
              ghost h: Hist, ghost sent: seq<Beat>)
    returns (v: Reg, rxReady: bool, ghost h': Hist)
    requires !r.txValid ==> !r.tx.sof && !r.tx.last
    requires var out := WithPending(sent, r.txValid, r.tx);
             legal ==> Agree(r, h, Deframe(out)) && AllLone(out)
    requires legal ==> LegalInput(r, h.len, start, newLength, rxValid, rx)
    ensures !v.txValid ==> !v.tx.sof && !v.tx.last
    ensures var now := WithPending(SentAfter(sent, r, txReady), v.txValid, v.tx);
            legal ==> Agree(v, h', Deframe(now)) && AllLone(now)
    ensures r.state == Idle ==> rxReady == !start && h' == if start then h.(len := newLength) else h
    ensures r.state == Collect ==>
              && rxReady == (rxValid && (txReady || !r.txValid))
              && h' == if rxReady then AfterBeat(h, rx, v.done) else h
    ensures legal ==> (v.done <==> |h'.frames| == |h.frames| + 1)
    ensures legal && v.done ==> |h'.frames[|h'.frames| - 1]| == h.len && v.remLength == 0
    ensures v.state == Collect <==> if r.state == Collect then !v.done else start
    ensures v.txValid == ((r.txValid && !txReady) || (r.state == Collect && rxReady))
  {
    hide Absorb, Deframe, Agree, AllLone, LoneSof, LegalInput, AfterBeat, Payload, WithPending, Released, SentAfter;
    ReleaseKeeps(r, txReady, h, Deframe(WithPending(sent, r.txValid, r.tx)), start, newLength, rxValid, rx);
    var u := Released(r, txReady);
    v, rxReady, h' := Step(u, u.remLength == newLength, start, newLength, rxValid, rx, legal, h,
                           Deframe(WithPending(sent, r.txValid, r.tx)));
    if legal {
      PutOut(sent, r, txReady, v);
    }
  }

  class Collector {
    var r: Reg
    ghost var h: Hist
    ghost var sent: seq<Beat>
    ghost var legal: bool  // the neighbours have been well-behaved so far

    ghost function Emitted(): seq<Beat>
      reads this
    {
      WithPending(sent, r.txValid, r.tx)
    }

    ghost predicate Valid()
      reads this
    {
      && (!r.txValid ==> !r.tx.sof && !r.tx.last)
      && (legal ==> Agree(r, h, Deframe(Emitted())) && AllLone(Emitted()))
    }

    constructor ()
      ensures Valid() && legal && r == REG_INIT && h == HIST_INIT && sent == []
    {
      r, h, sent, legal := REG_INIT, HIST_INIT, [], true;
    }

    /** One clock. `start` and `newLength` come from the requester; rx is the head of
        the completion FIFO. Beats that arrive with no request pending are dropped. */
    method Clock(start: bool, newLength: Len24, rxValid: bool, rx: Beat, txReady: bool) returns (rxReady: bool)
      requires Valid()
      modifies this
      ensures Valid()
      ensures legal == (old(legal) && LegalInput(old(r), old(h.len), start, newLength, rxValid, rx))
      ensures sent == SentAfter(old(sent), old(r), txReady)
      ensures old(r.state) == Idle ==>
                rxReady == !start && h == if start then old(h).(len := newLength) else old(h)
      ensures old(r.state) == Collect ==>
                && rxReady == (rxValid && (txReady || !old(r.txValid)))
                && h == if rxReady then AfterBeat(old(h), rx, r.done) else old(h)
      ensures legal ==> (r.done <==> |h.frames| == |old(h.frames)| + 1)
      ensures legal && r.done ==> |h.frames[|h.frames| - 1]| == old(h.len) && r.remLength == 0
      ensures r.state == Collect <==> if old(r.state) == Collect then !r.done else start
      ensures r.txValid == ((old(r.txValid) && !txReady) || (old(r.state) == Collect && rxReady))
    {
      hide Absorb, Deframe, Agree, AllLone, LoneSof, LegalInput, AfterBeat, Payload, WithPending, SentAfter;
      legal := legal && LegalInput(r, h.len, start, newLength, rxValid, rx);
      var v;
      v, rxReady, h := Turn(r, start, newLength, rxValid, rx, txReady, legal, h, sent);
      sent := SentAfter(sent, r, txReady);
      r := v;
    }
  }

  /** dmaSof marks the first beat of the request. */
  lemma SameRequest(r: Reg, h: Hist, rx: Beat, dmaSof: bool)
    requires LegalBeat(rx, r.remLength, h.len) && dmaSof == (r.remLength == h.len)
    ensures LegalBeat(rx, r.remLength, if dmaSof then r.remLength else 0)
  {}
}
