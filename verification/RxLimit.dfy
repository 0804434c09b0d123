/** Frames that may be too long for their buffer: which of them the receive engine
    reports as errors, and how far it writes, for frames cut into transactions of 32
    dwords. */
module RxLimit {
  import opened PcieTypes
  import opened Streams
  import opened Transactions
  import opened RxDma
  import opened HostMemory

  // ---- Lengths ----

  /** The comparison registers for a buffer of `maxFrame` dwords. */
  function Limits(maxFrame: nat): Quad<Len24>
    requires 4 <= maxFrame < 0x100_0000
  {
    Quad(maxFrame - 1, maxFrame - 2, maxFrame - 3, maxFrame - 4)
  }

  lemma LimitsMet(maxFrame: nat, n: nat)
    requires 4 <= maxFrame < 0x100_0000
    ensures Checked(Limits(maxFrame), n) <==> n < maxFrame <= n + 4
  {
    if n < maxFrame <= n + 4 {
      assert n == LaneOf(Limits(maxFrame), maxFrame - 1 - n);
    }
  }

  /** The error flag is set once n dwords of a frame are out: they reach the last
      four dwords of the buffer, and COLLECT has stopped at one of these. It stops
      1 + 4k dwords into a transaction, for k > 0, at its 32nd, and at the last of
      the frame: never 1 into it, where only the header has been. */
  predicate Flagged(n: nat, maxFrame: nat) {
    || maxFrame < 4
    || (n + 4 >= maxFrame
        && !(maxFrame % 32 == 5 && (n + 4 == maxFrame || n >= maxFrame))
        && !(maxFrame == 4 && (n <= 1 || n >= 4)))
  }

  lemma AtHeader(n: nat, maxFrame: nat)
    requires n % 32 == 0
    ensures n + 1 == maxFrame ==> Flagged(n, maxFrame)
    ensures !Flagged(n, maxFrame) ==> !Flagged(n + 1, maxFrame)
  {}

  /** A COLLECT beat from c to d dwords of a transaction. */
  lemma AtBeat(n: nat, c: nat, d: nat, maxFrame: nat)
    requires n % 32 == 0 && c % 4 == 1 && c < d <= c + 4 && d <= 32 && !Flagged(n, maxFrame)
    ensures Flagged(n + d, maxFrame) <==> Flagged(n + c, maxFrame) || n + d < maxFrame <= n + d + 4
  {}

  /** Once set, the flag stays. */
  lemma StaysFlagged(n: nat, maxFrame: nat, length: nat)
    requires n % 32 == 0 && Flagged(n, maxFrame) && n < length
    ensures Flagged(length, maxFrame)
  {}

  // ---- The limit is all that is different ----

  /** The registers without their limit, as if the frame's buffer had `room` dwords. */
  function Unlimited(r: Reg, room: nat): Reg {
    r.(frameErr := false, desc := r.desc.(doneFrameErr := false),
       maxFrameCheck := if 4 <= room < 0x100_0000 then Limits(room) else Quad(0, 0, 0, 0))
  }

  lemma TickErased(r: Reg, room: nat, dmaChannel: nat, txReady: bool)
    ensures Ticked(Unlimited(r, room), dmaChannel, txReady) == Unlimited(Ticked(r, dmaChannel, txReady), room)
  {}

  lemma HeaderErased(ids: TlpIds, u: Reg, v: Reg, b: Beat, room: nat)
    requires HeaderTaken(u, v, ids, b) && !Overrun(u) && !Overrun(Unlimited(u, room))
    ensures HeaderTaken(Unlimited(u, room), Unlimited(v, room), ids, b)
  {
    hide HeaderData, Add30, Add24;
  }

  lemma BeatErased(u: Reg, v: Reg, rx: Beat, room: nat)
    requires BeatTaken(u, v, rx) && !Checked(Unlimited(u, room).maxFrameCheck, v.desc.doneLength)
    ensures BeatTaken(Unlimited(u, room), Unlimited(v, room), rx)
  {
    hide Joins, Add24, Add10, CountOf, Checked;
  }

  lemma LatchErased(u: Reg, desc: DescFromPcie, before: nat, room: Len24)
    requires 4 <= room
    ensures Latched(Unlimited(u, before), desc.(maxFrame := room)) == Unlimited(Latched(u, desc), room)
  {}

  lemma ControlErased(u: Reg, tranRd: bool, rxValid: bool, rx: Beat, tranValid: bool, tran: Tran, desc: DescFromPcie,
                      before: nat, room: Len24)
    requires !InTlp(u.state) && (u.state == AckWait && desc.newAck ==> 4 <= room)
    ensures Controlled(Unlimited(u, before), tranRd, rxValid, rx, tranValid, tran, desc.(maxFrame := room))
            == Unlimited(Controlled(u, tranRd, rxValid, rx, tranValid, tran, desc),
                         if u.state == AckWait && desc.newAck then room else before)
  {
    hide Add10, Latched, Limits;
    if u.state == AckWait {
      if desc.newAck {
        LatchErased(u, desc, before, room);
      }
    } else if u.state == Idle {
    } else if u.state == DataDump {
    } else if u.state == ReadTrans {
    } else {
    }
  }

  /** The history after a clock. */
  function After(u: Reg, v: Reg, h: Hist, rxReady: bool, desc: DescFromPcie): Hist {
    if u.state == SendIoReqHdr then
      if !rxReady || h.todo == [] then h else if u.tranLength == 1 then GroupSent(h) else h.(pos := 1)
    else if u.state == Collect then
      if v == u || h.todo == [] then h
      else if v.cnt == u.tranLength then GroupSent(h) else h.(pos := h.pos + (if rxReady then 1 else 0))
    else Given(u, h, desc)
  }

  /** Where a frame in progress stands, whatever its limit. */
  lemma Erased(ids: TlpIds, r: Reg, dmaChannel: nat, txReady: bool, h: Hist, out: View)
    requires Agree(ids, Unlimited(r, h.maxFrame), h, out)
    ensures var w := Unlimited(Ticked(r, dmaChannel, txReady), h.maxFrame);
            Agree(ids, w, h, out) && (r.state in {SendIoReqHdr, Collect} ==> StatusSettled(w))
  {
    hide Agree, Ticked, Unlimited, StatusSettled;
    TickErased(r, h.maxFrame, dmaChannel, txReady);
    TickKeeps(ids, Unlimited(r, h.maxFrame), dmaChannel, txReady, h, out);
    SameState(r, h.maxFrame);
  }

  lemma SameState(r: Reg, room: nat)
    ensures var w := Unlimited(r, room);
            && w.state == r.state && w.txValid == r.txValid && w.tx == r.tx && w.tranLength == r.tranLength
            && w.history == r.history && w.cnt == r.cnt && w.tranRd == r.tranRd && w.newAddr == r.newAddr
            && w.desc.doneAddr == r.desc.doneAddr && w.desc.doneLength == r.desc.doneLength
            && w.desc.newReq == r.desc.newReq && w.desc.doneReq == r.desc.doneReq
            && !w.frameErr
  {}

  /** A header that the limit does not stop. */
  lemma HeaderGoesOn(ids: TlpIds, u: Reg, v: Reg, h: Hist, out: View, rx: Beat)
    requires u.state == SendIoReqHdr && !u.txValid && HeaderTaken(u, v, ids, rx) && !Overrun(u)
    requires var w := Unlimited(u, h.maxFrame); Agree(ids, w, h, out) && StatusSettled(w)
    requires LegalData(h, true, rx)
    ensures h.todo != []
    ensures var h' := if u.tranLength == 1 then GroupSent(h) else h.(pos := 1);
            Agree(ids, Unlimited(v, h.maxFrame), h', Absorb(out, v.tx))
  {
    hide Agree, HeaderTaken, Unlimited, Overrun, StatusSettled, Absorb, GroupSent;
    var w := Unlimited(u, h.maxFrame);
    SameState(u, h.maxFrame);
    SameState(v, h.maxFrame);
    NextBeat(ids, w, h, out);
    RoomLeft(ids, w, h, out);
    HeaderErased(ids, u, v, rx, h.maxFrame);
    HeaderSent(ids, w, Unlimited(v, h.maxFrame), h, out, rx);
  }

  lemma RoomLeft(ids: TlpIds, w: Reg, h: Hist, out: View)
    requires Agree(ids, w, h, out) && w.state == SendIoReqHdr
    ensures !Overrun(w)
  {
    hide Words, FrameWords, Accounted, Ready, TranOf;
  }

  /** Inside a transaction. */
  lemma Inside(ids: TlpIds, w: Reg, h: Hist, out: View)
    requires Agree(ids, w, h, out) && w.state == Collect
    ensures var n := |FrameWords(h.sofar)|;
            && h.todo != [] && Ready(h.todo[0])
            && var g := h.todo[0];
               && 1 <= h.pos <= |g| && w.history == g[h.pos - 1] && w.cnt == 4 * h.pos - 3 < w.tranLength == |Words(g)|
               && w.desc.doneLength == n + w.cnt && n + w.tranLength + 5 <= h.maxFrame < 0x100_0000
               && w.maxFrameCheck == Limits(h.maxFrame)
  {
    hide Words, FrameWords, Accounted, Header, TranOf, Ready;
  }

  /** What a beat does to the counters. */
  lemma BeatCounts(ids: TlpIds, u: Reg, v: Reg, h: Hist, out: View, rx: Beat)
    requires u.state == Collect && BeatTaken(u, v, rx) && Agree(ids, Unlimited(u, h.maxFrame), h, out)
    requires LegalData(h, true, rx)
    ensures h.todo != [] && Ready(h.todo[0])
    ensures var n := |FrameWords(h.sofar)|;
            && u.cnt % 4 == 1 && u.cnt < v.cnt <= u.cnt + 4 && v.cnt <= u.tranLength == |Words(h.todo[0])| <= MAX_WORDS
            && u.desc.doneLength == n + u.cnt && v.desc.doneLength == n + v.cnt
            && n + u.tranLength + 5 <= h.maxFrame < 0x100_0000
            && v.frameErr == (u.frameErr || Checked(u.maxFrameCheck, n + v.cnt))
  {
    hide Agree, FrameWords, Words, Joins, Checked, CountOf, Unlimited, Limits, BeatTaken, Add10, Add24, Ready,
         LegalData, KeepsPrefix;
    SameState(u, h.maxFrame);
    Inside(ids, Unlimited(u, h.maxFrame), h, out);
    NextOffered(h, rx);
    BeatFields(u, v, rx);
    JoinedBeat(h.todo[0], h.pos, v.tx, rx);
    SomeKept(v.tx);
    WithinMax(h.todo[0]);
    NoWrap(u.cnt, CountOf(v.tx.keep));
    NoWrap(u.desc.doneLength, CountOf(v.tx.keep));
  }

  lemma BeatFields(u: Reg, v: Reg, rx: Beat)
    requires BeatTaken(u, v, rx)
    ensures Joins(v.tx, u.history, rx) && v.txValid
    ensures v.cnt == Add10(u.cnt, CountOf(v.tx.keep))
            && v.desc.doneLength == Add24(u.desc.doneLength, CountOf(v.tx.keep))
    ensures v.frameErr == (u.frameErr || Checked(u.maxFrameCheck, v.desc.doneLength))
    ensures v.cnt != u.tranLength ==> v.state == Collect
  {}

  lemma NoWrap(a: nat, b: nat)
    ensures a + b < 0x400 ==> Add10(a, b) == a + b
    ensures a + b < 0x100_0000 ==> Add24(a, b) == a + b
  {}

  lemma SomeKept(b: Beat)
    ensures KeepsPrefix(b) ==> CountOf(b.keep) >= 1
  {}

  lemma WithinMax(g: Group)
    requires Ready(g)
    ensures |Words(g)| <= MAX_WORDS
  {}

  lemma BeatGoesOn(ids: TlpIds, u: Reg, v: Reg, h: Hist, out: View, rx: Beat)
    requires u.state == Collect && !u.txValid && BeatTaken(u, v, rx)
    requires var w := Unlimited(u, h.maxFrame); Agree(ids, w, h, out) && StatusSettled(w)
    requires LegalData(h, true, rx)
    ensures h.todo != []
    ensures var h' := if v.cnt == u.tranLength then GroupSent(h)
            else h.(pos := h.pos + (if u.history.eot then 0 else 1));
            Agree(ids, Unlimited(v, h.maxFrame), h', Absorb(out, v.tx))
    ensures v.cnt == u.tranLength ==> v.state == AfterTlp(EndsFrame(h.todo[0]))
    ensures v.cnt != u.tranLength ==> v.state == Collect
  {
    hide Agree, BeatTaken, Unlimited, StatusSettled, Absorb, GroupSent, Checked, Words, FrameWords, Ready, EndsFrame,
         LegalData;
    NextOffered(h, rx);
    var w := Unlimited(u, h.maxFrame);
    SameState(u, h.maxFrame);
    SameState(v, h.maxFrame);
    BeatCounts(ids, u, v, h, out, rx);
    NotLimited(u, h.maxFrame, v.desc.doneLength);
    BeatErased(u, v, rx, h.maxFrame);
    BeatCollected(ids, w, Unlimited(v, h.maxFrame), h, out, rx);
    BeatFields(u, v, rx);
  }

  lemma NextOffered(h: Hist, rx: Beat)
    ensures LegalData(h, true, rx) && h.todo != [] && h.pos < |h.todo[0]| ==> rx == h.todo[0][h.pos]
  {}

  lemma NotLimited(u: Reg, room: nat, n: nat)
    requires n + 5 <= room < 0x100_0000
    ensures !Checked(Unlimited(u, room).maxFrameCheck, n)
  {
    LimitsMet(room, n);
  }

  /** The other states do not look at the limit. */
  lemma ControlGoesOn(ids: TlpIds, u: Reg, tranRd: bool, rxValid: bool, rx: Beat, tranValid: bool, tran: Tran,
                      desc: DescFromPcie, room: Len24, h: Hist, out: View)
    requires !InTlp(u.state) && Handshake(u) && !u.tranRd && (u.state == AckWait && desc.newAck ==> 4 <= room)
    requires Agree(ids, Unlimited(u, h.maxFrame), h, out)
    requires LegalControl(u.state, h, rxValid, rx, tranValid, tran, desc.(maxFrame := room))
    ensures var v, h' := Controlled(u, tranRd, rxValid, rx, tranValid, tran, desc),
            Given(u, h, desc.(maxFrame := room));
            Agree(ids, Unlimited(v, h'.maxFrame), h', out) && u.state != DataDump
  {
    hide Agree, Controlled, Unlimited, LegalControl;
    SameState(u, h.maxFrame);
    ControlErased(u, tranRd, rxValid, rx, tranValid, tran, desc, h.maxFrame, room);
    ControlledKeeps(ids, Unlimited(u, h.maxFrame), tranRd, rxValid, rx, tranValid, tran, desc.(maxFrame := room), h,
                    out);
  }

  // ---- The error flag ----

  /** Transactions of 32 dwords, but for the last one of a frame. */
  ghost predicate Regular(gs: seq<Group>) {
    forall i :: 0 <= i < |gs| ==> EndsFrame(gs[i]) || |Words(gs[i])| == MAX_WORDS
  }

  /** The flag is a function of the dwords put out, at a multiple of 32. */
  ghost predicate Fresh(frameErr: bool, n: nat, maxFrame: nat) {
    && n % 32 == 0 && (frameErr <==> Flagged(n, maxFrame))
    && (n > 0 ==> n >= 32 && !Flagged(n - 32, maxFrame))
  }

  /** A frame that has been sent as a whole: its last header was not stopped. */
  ghost predicate Whole(frameErr: bool, length: nat, maxFrame: nat) {
    && length > 0 && (frameErr <==> Flagged(length, maxFrame))
    && !Flagged((length - 1) / 32 * 32, maxFrame)
  }

  ghost predicate Watch(r: Reg, h: Hist, maxFrame: nat) {
    var n := |FrameWords(h.sofar)|;
    && Regular(h.todo) && AllReady(h.sofar)
    && (Busy(r.state) ==> n % 32 == 0 && maxFrame < 0x100_0000)
    && (Busy(r.state) && 4 <= maxFrame ==> r.maxFrameCheck == Limits(maxFrame))
    && match r.state
       case ReadTrans => Fresh(r.frameErr, n, maxFrame)
       case SendIoReqHdr => Fresh(r.frameErr, n, maxFrame)
       case Collect => !Flagged(n, maxFrame) && (r.frameErr <==> Flagged(n + r.cnt, maxFrame))
       case TrDone =>
         && h.finished != []
         && var gs := h.finished[|h.finished| - 1].groups;
            AllReady(gs) && Whole(r.frameErr, |FrameWords(gs)|, maxFrame)
       case _ => true
  }

  lemma WatchTick(r: Reg, dmaChannel: nat, txReady: bool, h: Hist, maxFrame: nat)
    ensures Watch(Ticked(r, dmaChannel, txReady), h, maxFrame) == Watch(r, h, maxFrame)
  {
    hide FrameWords, Regular, AllReady, Fresh, Whole, Flagged, Limits;
  }

  /** The head transaction has gone out in full. */
  lemma WatchSent(v: Reg, h: Hist, maxFrame: nat)
    requires h.todo != [] && Ready(h.todo[0]) && Regular(h.todo) && AllReady(h.sofar)
    requires var n, k := |FrameWords(h.sofar)|, |Words(h.todo[0])|;
             && n % 32 == 0 && !Flagged(n, maxFrame) && (v.frameErr <==> Flagged(n + k, maxFrame))
                && 1 <= k <= MAX_WORDS
             && maxFrame < 0x100_0000 && (4 <= maxFrame ==> v.maxFrameCheck == Limits(maxFrame))
    requires v.state == AfterTlp(EndsFrame(h.todo[0]))
    ensures Watch(v, GroupSent(h), maxFrame)
  {
    hide FrameWords, Words, Ready, Limits, Flagged, EndsFrame;
    var g := h.todo[0];
    var gs := h.sofar + [g];
    FrameSnoc(Ids(0, 0), 0, h.sofar, g);
    NoPackets(Ids(0, 0), 0);
    var n, k := |FrameWords(h.sofar)|, |Words(g)|;
    Rounded(n, k);
    assert Regular(h.todo[1..]);
    assert AllReady(gs);
  }

  lemma Rounded(n: nat, k: nat)
    requires n % 32 == 0 && 1 <= k <= 32
    ensures (n + k - 1) / 32 * 32 == n && (n + 32) % 32 == 0
  {
    var q := n / 32;
    assert n == 32 * q && (n + k - 1) / 32 == q;
  }

  /** A header that is not stopped does not set the flag. */
  lemma WatchHeader(ids: TlpIds, u: Reg, v: Reg, h: Hist, out: View, rx: Beat, maxFrame: nat)
    requires u.state == SendIoReqHdr && HeaderTaken(u, v, ids, rx) && !Overrun(u) && Watch(u, h, maxFrame)
    requires Agree(ids, Unlimited(u, h.maxFrame), h, out) && LegalData(h, true, rx)
    ensures Watch(v, if u.tranLength == 1 then GroupSent(h) else h.(pos := 1), maxFrame)
  {
    hide Agree, FrameWords, Words, Ready, Limits, Flagged, Unlimited, HeaderData, Add24, Add30, TranOf, AllReady,
         Regular;
    SameState(u, h.maxFrame);
    Starting(ids, Unlimited(u, h.maxFrame), h, out);
    var n := |FrameWords(h.sofar)|;
    AtHeader(n, maxFrame);
    if u.tranLength == 1 {
      FirstDword(h.todo[0]);
      WatchSent(v, h, maxFrame);
    }
  }

  lemma Starting(ids: TlpIds, w: Reg, h: Hist, out: View)
    requires Agree(ids, w, h, out) && w.state == SendIoReqHdr
    ensures h.pos == 0 && h.todo != [] && h.todo[0] != [] && Ready(h.todo[0]) && w.tranLength == |Words(h.todo[0])|
            && 1 <= w.tranLength <= MAX_WORDS
    ensures w.cnt == 1 && out.part == [] && Accounted(ids, h.finished, h.base, h.sofar, out.pkts)
    ensures var n := |FrameWords(h.sofar)|;
            && w.desc.doneAddr == h.base && w.desc.doneLength == n && w.newAddr == h.base + n
               && n + w.tranLength + 5 <= h.maxFrame < 0x100_0000
            && h.base + h.maxFrame <= 0x4000_0000
  {
    hide Words, FrameWords, Accounted, TranOf, Header;
    FirstDword(h.todo[0]);
  }

  /** A beat sets it in the last four dwords of the buffer. */
  lemma WatchBeat(ids: TlpIds, u: Reg, v: Reg, h: Hist, out: View, rx: Beat, maxFrame: nat)
    requires u.state == Collect && BeatTaken(u, v, rx) && Watch(u, h, maxFrame)
    requires Agree(ids, Unlimited(u, h.maxFrame), h, out) && LegalData(h, true, rx)
    requires h.todo != [] && v.state == if v.cnt == u.tranLength then AfterTlp(EndsFrame(h.todo[0])) else Collect
    ensures Watch(v, if v.cnt == u.tranLength then GroupSent(h)
                  else h.(pos := h.pos + (if u.history.eot then 0 else 1)), maxFrame)
  {
    hide Agree, FrameWords, Words, Ready, Limits, Flagged, Unlimited, Joins, Checked, CountOf, Add24, Add10, AllReady,
         Regular;
    BeatCounts(ids, u, v, h, out, rx);
    var n := |FrameWords(h.sofar)|;
    NotTiny(n, maxFrame);
    AtBeat(n, u.cnt, v.cnt, maxFrame);
    LimitsMet(maxFrame, n + v.cnt);
    if v.cnt == u.tranLength {
      WatchSent(v, h, maxFrame);
    }
  }

  lemma NotTiny(n: nat, maxFrame: nat)
    ensures !Flagged(n, maxFrame) ==> 4 <= maxFrame
  {}

  /** The other states leave it alone; a descriptor starts it anew. */
  lemma WatchControl(ids: TlpIds, u: Reg, tranRd: bool, rxValid: bool, rx: Beat, tranValid: bool, tran: Tran,
                     desc: DescFromPcie, room: Len24, h: Hist, out: View, maxFrame: nat)
    requires !InTlp(u.state) && u.state != DataDump && Watch(u, h, maxFrame)
    requires Agree(ids, Unlimited(u, h.maxFrame), h, out)
    ensures Watch(Controlled(u, tranRd, rxValid, rx, tranValid, tran, desc), Given(u, h, desc.(maxFrame := room)),
                  if u.state == AckWait && desc.newAck then desc.maxFrame else maxFrame)
  {
    hide FrameWords, Words, Ready, Unlimited, TranOf, AllReady, Regular, Accounted, Header;
    SameState(u, h.maxFrame);
    NoPackets(ids, 0);
  }

  // ---- Cut off ----

  /** The frame has been cut off at a header: one packet of one dword behind the
      transactions sent so far, the first one for which the flag was set. */
  ghost predicate CutOff(ids: TlpIds, r: Reg, h: Hist, out: View, maxFrame: nat) {
    var n := |FrameWords(h.sofar)|;
    && r.state == TrDone && r.desc.doneReq && r.desc.doneAddr == h.base && r.desc.doneLength == n + 1
    && Fresh(r.frameErr, n, maxFrame) && r.frameErr && AllReady(h.sofar)
    && h.base + n + 1 <= 0x4000_0000
    && h.todo != [] && |Words(h.todo[0])| >= 1
    && out.part == [] && out.pkts != []
    && Accounted(ids, h.finished, h.base, h.sofar, out.pkts[..|out.pkts| - 1])
    && out.pkts[|out.pkts| - 1] == TlpFor(ids, h.base + n, Words(h.todo[0])[..1])
  }

  lemma HeaderCuts(ids: TlpIds, u: Reg, v: Reg, h: Hist, out: View, rx: Beat, maxFrame: nat)
    requires u.state == SendIoReqHdr && !u.txValid && HeaderTaken(u, v, ids, rx) && Overrun(u) && Watch(u, h, maxFrame)
    requires Agree(ids, Unlimited(u, h.maxFrame), h, out) && LegalData(h, true, rx)
    ensures CutOff(ids, v, h, Absorb(out, v.tx), maxFrame)
  {
    hide Agree, FrameWords, Words, Ready, Flagged, Unlimited, HeaderData, TlpFor, Add30, TranOf, AllReady, Regular,
         Kept, Accounted, PackedBeat;
    var n := |FrameWords(h.sofar)|;
    SameState(u, h.maxFrame);
    Starting(ids, Unlimited(u, h.maxFrame), h, out);
    FirstDword(h.todo[0]);
    OverrunEnds(ids, u, v, rx);
    AtHeader(n, maxFrame);
    TinyFlagged(n, maxFrame);
    assert [] + Kept(v.tx) == Kept(v.tx);
    assert (out.pkts + [Kept(v.tx)])[..|out.pkts|] == out.pkts;
    assert Words(h.todo[0])[..1] == [rx.data.w0];
  }

  lemma TinyFlagged(n: nat, maxFrame: nat)
    ensures maxFrame < 4 ==> Flagged(n, maxFrame)
  {}

  // ---- Whole clocks ----

  ghost predicate Sound(ids: TlpIds, r: Reg, h: Hist, out: View, maxFrame: nat, cut: bool) {
    if cut then CutOff(ids, r, h, out, maxFrame)
    else Agree(ids, Unlimited(r, h.maxFrame), h, out) && Watch(r, h, maxFrame)
  }

  /** What the neighbours have to respect: as for any frame, but the frame and five
      dwords more fit into `room` dwords below 4 GB, whatever the descriptor says of
      its buffer. Nothing is said of what follows a frame that was cut off. */
  ghost predicate GoodInput(r: Reg, h: Hist, cut: bool, rxValid: bool, rx: Beat, tranValid: bool, tran: Tran,
                            desc: DescFromPcie, room: Len24) {
    if cut then !desc.doneAck
    else LegalInput(r.state, h, rxValid, rx, tranValid, tran, desc.(maxFrame := room))
         && (r.state == AckWait && desc.newAck ==> 4 <= room)
  }

  /** The header in this clock is the last of its frame, because of the limit. */
  predicate Cuts(r: Reg, dmaChannel: nat, txReady: bool, rxReady: bool) {
    r.state == SendIoReqHdr && rxReady && Overrun(Ticked(r, dmaChannel, txReady))
  }

  lemma SoundInTlp(ids: TlpIds, u: Reg, h: Hist, out: View, maxFrame: nat, rxValid: bool, rx: Beat, desc: DescFromPcie,
                   v: Reg, rxReady: bool)
    requires InTlp(u.state) && Watch(u, h, maxFrame)
    requires var w := Unlimited(u, h.maxFrame); Agree(ids, w, h, out) && StatusSettled(w)
    requires LegalData(h, rxValid, rx)
    requires if u.state == SendIoReqHdr then HeaderClock(ids, u, rxValid, rx, v, rxReady)
             else BeatClock(u, rxValid, rx, v, rxReady)
    requires !(u.state == SendIoReqHdr && rxReady && Overrun(u))
    ensures Sound(ids, v, After(u, v, h, rxReady, desc), ViewAfter(out, u, v), maxFrame, false)
  {
    hide Agree, Unlimited, Watch, HeaderTaken, BeatTaken, GroupSent, Absorb, Overrun, StatusSettled, EndsFrame;
    if u.state == SendIoReqHdr {
      if rxReady {
        PutsOut(ids, u, v, rx);
        HeaderGoesOn(ids, u, v, h, out, rx);
        WatchHeader(ids, u, v, h, out, rx, maxFrame);
      }
    } else if v != u {
      SameState(u, h.maxFrame);
      NextBeat(ids, Unlimited(u, h.maxFrame), h, out);
      BeatFields(u, v, rx);
      BeatGoesOn(ids, u, v, h, out, rx);
      WatchBeat(ids, u, v, h, out, rx, maxFrame);
    }
    SameRoom(h);
  }

  lemma SameRoom(h: Hist)
    ensures h.todo != [] ==> GroupSent(h).maxFrame == h.maxFrame
  {}

  lemma PutsOut(ids: TlpIds, u: Reg, v: Reg, rx: Beat)
    requires HeaderTaken(u, v, ids, rx)
    ensures v.txValid
  {}

  lemma SoundStep(ids: TlpIds, dmaChannel: nat, r: Reg, h: Hist, out: View, maxFrame: nat, cut: bool, rxValid: bool,
                  rx: Beat, tranValid: bool, tran: Tran, desc: DescFromPcie, room: Len24, txReady: bool, v: Reg,
                    rxReady: bool)
    requires Handshake(r) && Sound(ids, r, h, out, maxFrame, cut)
    requires GoodInput(r, h, cut, rxValid, rx, tranValid, tran, desc, room)
    requires Moved(ids, dmaChannel, r, rxValid, rx, tranValid, tran, desc, txReady, v, rxReady)
    ensures var u, cut' := Ticked(r, dmaChannel, txReady), cut || Cuts(r, dmaChannel, txReady, rxReady);
            Sound(ids, v, if cut' then h else After(u, v, h, rxReady, desc.(maxFrame := room)), ViewAfter(out, u, v),
                  if r.state == AckWait && desc.newAck then desc.maxFrame else maxFrame, cut')
  {
    hide Agree, Unlimited, Watch, HeaderTaken, BeatTaken, GroupSent, Absorb, Overrun, StatusSettled, EndsFrame,
         Controlled, CutOff, Given, LegalData, LegalControl;
    var u := Ticked(r, dmaChannel, txReady);
    if cut {
      CutStays(ids, r, dmaChannel, txReady, h, out, maxFrame, rxValid, rx, tranValid, tran, desc);
    } else {
      Erased(ids, r, dmaChannel, txReady, h, out);
      WatchTick(r, dmaChannel, txReady, h, maxFrame);
      if Cuts(r, dmaChannel, txReady, rxReady) {
        PutsOut(ids, u, v, rx);
        HeaderCuts(ids, u, v, h, out, rx, maxFrame);
      } else if InTlp(r.state) {
        SoundInTlp(ids, u, h, out, maxFrame, rxValid, rx, desc.(maxFrame := room), v, rxReady);
      } else {
        ControlGoesOn(ids, u, r.tranRd, rxValid, rx, tranValid, tran, desc, room, h, out);
        WatchControl(ids, u, r.tranRd, rxValid, rx, tranValid, tran, desc, room, h, out, maxFrame);
        ControlledLines(u, r.tranRd, rxValid, rx, tranValid, tran, desc, h);
      }
    }
  }

  lemma CutStays(ids: TlpIds, r: Reg, dmaChannel: nat, txReady: bool, h: Hist, out: View, maxFrame: nat, rxValid: bool,
                 rx: Beat, tranValid: bool, tran: Tran, desc: DescFromPcie)
    requires CutOff(ids, r, h, out, maxFrame) && !desc.doneAck
    ensures var u := Ticked(r, dmaChannel, txReady);
            && r.state == TrDone && CutOff(ids, u, h, out, maxFrame)
            && Controlled(u, r.tranRd, rxValid, rx, tranValid, tran, desc) == u
  {
    hide Fresh, Accounted, TlpFor, FrameWords, AllReady, Words;
  }

  /** An engine whose descriptors may be too small for their frames. */
  class LimitedEngine {
    const engine: Engine
    ghost var h: Hist         // maxFrame in it is the room that the frame really has
    ghost var maxFrame: nat   // what the descriptor has said
    ghost var cut: bool       // the frame has been cut off
    ghost var legal: bool     // the neighbours have been well-behaved so far

    ghost predicate Valid()
      reads this, engine
    {
      engine.Valid() && (legal ==> Sound(engine.ids, engine.r, h, engine.Out(), maxFrame, cut))
    }

    constructor (ids: TlpIds, dmaChannel: nat)
      ensures Valid() && legal && fresh(engine) && engine.r == REG_INIT && h == HIST_INIT && !cut
    {
      engine := new Engine(ids, dmaChannel);
      h, maxFrame, cut, legal := HIST_INIT, 0, false, true;
    }

    /** Transactions have been cut and are on their way through the FIFOs. */
    ghost method Arrive(gs: seq<Group>)
      requires Valid() && AllReady(gs) && Regular(gs)
      modifies this`h
      ensures Valid() && h == old(h).(todo := old(h.todo) + gs)
    {
      hide Sound;
      if legal {
        ArrivalSound(engine.ids, engine.r, h, engine.Out(), maxFrame, cut, gs);
      }
      h := h.(todo := h.todo + gs);
    }

    /** One clock, with any offer, descriptor and stall. */
    method Clock(rxValid: bool, rx: Beat, tranValid: bool, tran: Tran, desc: DescFromPcie, txReady: bool,
                 ghost room: Len24)
      returns (rxReady: bool)
      requires Valid()
      modifies this, engine
      ensures Valid()
      ensures legal == (old(legal) && GoodInput(old(engine.r), old(h), old(cut), rxValid, rx, tranValid, tran, desc,
                                                room))
      ensures cut == (old(cut) || Cuts(old(engine.r), engine.dmaChannel, txReady, rxReady))
      ensures maxFrame == if old(engine.r.state) == AckWait && desc.newAck then desc.maxFrame else old(maxFrame)
      ensures Moved(engine.ids, engine.dmaChannel, old(engine.r), rxValid, rx, tranValid, tran, desc, txReady,
                    engine.r, rxReady)
      ensures engine.sent == if txReady then WithPending(old(engine.sent), old(engine.r.txValid), old(engine.r.tx))
                             else old(engine.sent)
    {
      hide Sound, GoodInput, Moved, Cuts, After, Deframe, Ticked, WithPending, LegalInput, Flow, Turned, Answered,
           Agree, Ledger, Handshake, Engine.Valid;
      Lines(engine);
      ghost var r, was := engine.r, engine.sent;
      rxReady := engine.Clock(rxValid, rx, tranValid, tran, desc, txReady);
      ghost var cut' := cut || Cuts(r, engine.dmaChannel, txReady, rxReady);
      ghost var h' := if cut' then h else After(Ticked(r, engine.dmaChannel, txReady), engine.r, h, rxReady,
                                                desc.(maxFrame := room));
      ghost var max' := if r.state == AckWait && desc.newAck then desc.maxFrame else maxFrame;
      legal := legal && GoodInput(r, h, cut, rxValid, rx, tranValid, tran, desc, room);
      if legal {
        SoundClock(engine.ids, engine.dmaChannel, r, h, was, maxFrame, cut, rxValid, rx, tranValid, tran, desc, room,
                   txReady, engine.r, rxReady);
      }
      h, maxFrame, cut := h', max', cut';
    }
  }

  lemma Lines(engine: Engine)
    requires engine.Valid()
    ensures Handshake(engine.r)
  {}

  lemma SoundClock(ids: TlpIds, dmaChannel: nat, r: Reg, h: Hist, sent: seq<Beat>, maxFrame: nat, cut: bool,
                   rxValid: bool, rx: Beat, tranValid: bool, tran: Tran, desc: DescFromPcie, room: Len24,
                     txReady: bool, v: Reg, rxReady: bool)
    requires Handshake(r) && Sound(ids, r, h, Deframe(WithPending(sent, r.txValid, r.tx)), maxFrame, cut)
    requires GoodInput(r, h, cut, rxValid, rx, tranValid, tran, desc, room)
    requires Moved(ids, dmaChannel, r, rxValid, rx, tranValid, tran, desc, txReady, v, rxReady)
    ensures var u, cut' := Ticked(r, dmaChannel, txReady), cut || Cuts(r, dmaChannel, txReady, rxReady);
            var sent' := if txReady then WithPending(sent, r.txValid, r.tx) else sent;
            Sound(ids, v, if cut' then h else After(u, v, h, rxReady, desc.(maxFrame := room)),
                  Deframe(WithPending(sent', v.txValid, v.tx)),
                  if r.state == AckWait && desc.newAck then desc.maxFrame else maxFrame, cut')
  {
    hide Sound, GoodInput, Moved, Cuts, After, Deframe, Ticked, WithPending, Handshake;
    SoundStep(ids, dmaChannel, r, h, Deframe(WithPending(sent, r.txValid, r.tx)), maxFrame, cut, rxValid, rx,
              tranValid, tran, desc, room, txReady, v, rxReady);
    OutAfter(ids, dmaChannel, r, sent, rxValid, rx, tranValid, tran, desc, txReady, v, rxReady);
  }

  lemma ArrivalSound(ids: TlpIds, r: Reg, h: Hist, out: View, maxFrame: nat, cut: bool, gs: seq<Group>)
    requires Sound(ids, r, h, out, maxFrame, cut) && AllReady(gs) && Regular(gs)
    ensures Sound(ids, r, h.(todo := h.todo + gs), out, maxFrame, cut)
  {
    hide Agree, Unlimited, FrameWords, Words, Fresh, Whole, Ready, Accounted, TlpFor, EndsFrame, Flagged;
    if !cut {
      ArrivalKeeps(ids, Unlimited(r, h.maxFrame), h, out, gs);
    }
  }

  lemma ControlHolds(u: Reg, tranRd: bool, rxValid: bool, rx: Beat, tranValid: bool, tran: Tran, desc: DescFromPcie)
    ensures var v := Controlled(u, tranRd, rxValid, rx, tranValid, tran, desc); v.txValid == u.txValid && v.tx == u.tx
  {
    hide Add10;
  }

  lemma OutputHeld(ids: TlpIds, dmaChannel: nat, r: Reg, rxValid: bool, rx: Beat, tranValid: bool, tran: Tran,
                   desc: DescFromPcie, txReady: bool, v: Reg, rxReady: bool)
    requires Moved(ids, dmaChannel, r, rxValid, rx, tranValid, tran, desc, txReady, v, rxReady)
    ensures var u := Ticked(r, dmaChannel, txReady);
            (u.txValid ==> v.txValid && v.tx == u.tx) && u.txValid == (r.txValid && !txReady)
              && (u.txValid ==> u.tx == r.tx)
  {
    hide HeaderTaken, BeatTaken, Controlled;
    ControlHolds(Ticked(r, dmaChannel, txReady), r.tranRd, rxValid, rx, tranValid, tran, desc);
  }

  lemma OutAfter(ids: TlpIds, dmaChannel: nat, r: Reg, sent: seq<Beat>, rxValid: bool, rx: Beat, tranValid: bool,
                 tran: Tran, desc: DescFromPcie, txReady: bool, v: Reg, rxReady: bool)
    requires Moved(ids, dmaChannel, r, rxValid, rx, tranValid, tran, desc, txReady, v, rxReady)
    ensures var sent' := if txReady then WithPending(sent, r.txValid, r.tx) else sent;
            Deframe(WithPending(sent', v.txValid, v.tx))
            == ViewAfter(Deframe(WithPending(sent, r.txValid, r.tx)), Ticked(r, dmaChannel, txReady), v)
  {
    hide Deframe, Absorb, Moved, Ticked;
    OutputHeld(ids, dmaChannel, r, rxValid, rx, tranValid, tran, desc, txReady, v, rxReady);
    DeframeSnoc(if txReady then WithPending(sent, r.txValid, r.tx) else sent, v.tx);
  }

  // ---- Reported, and in bounds ----

  /** The frame that the engine reports has `length` dwords; if it was cut off, it
      had more than have been sent. */
  ghost predicate HasLength(t: LimitedEngine, length: nat)
    reads t
  {
    if t.cut then length > |FrameWords(t.h.sofar)|
    else t.h.finished != [] && length == |FrameWords(t.h.finished[|t.h.finished| - 1].groups)|
  }

  /** How many dwords of the frame have been written. */
  ghost function Extent(t: LimitedEngine): nat
    reads t
  {
    if t.cut then |FrameWords(t.h.sofar)| + 1
    else if t.h.finished != [] then |FrameWords(t.h.finished[|t.h.finished| - 1].groups)| else 0
  }

  /** The error flag in TR_DONE is a function of the frame's length and the limit. */
  lemma FlagExact(t: LimitedEngine, length: nat)
    requires t.Valid() && t.legal && t.engine.r.state == TrDone && HasLength(t, length)
    ensures t.engine.r.frameErr <==> Flagged(length, t.maxFrame)
  {
    hide Agree, FrameWords, Words, Accounted, TlpFor, AllReady, Flagged;
    if t.cut {
      StaysFlagged(|FrameWords(t.h.sofar)|, t.maxFrame, length);
    }
  }

  /** A frame that is longer than its buffer is reported as an error exactly if the
      buffer's size is not 4 nor 5 more than a multiple of 32, and it is kept inside
      its buffer exactly if this size is 1 to 4 more than a multiple, but not 4. */
  lemma OverLong(t: LimitedEngine, length: nat)
    requires t.Valid() && t.legal && t.engine.r.state == TrDone && HasLength(t, length)
    requires t.maxFrame < length
    ensures t.engine.r.frameErr <==> t.maxFrame != 4 && t.maxFrame % 32 != 5
    ensures Extent(t) <= t.maxFrame <==> t.maxFrame != 4 && 1 <= t.maxFrame % 32 <= 4
  {
    hide Agree, FrameWords, Words, Accounted, TlpFor, AllReady, Flagged;
    FlagExact(t, length);
    FlaggedOver(length, t.maxFrame);
    if t.cut {
      CutAt(|FrameWords(t.h.sofar)|, t.maxFrame);
    } else {
      NotCut(length, t.maxFrame);
    }
  }

  /** What has been written: the first Extent(t) dwords of the frame, from the address
      that the engine reports on, and nothing else of it. */
  lemma Written(t: LimitedEngine, mem: Memory) returns (earlier: seq<Job>, words: seq<Dword>)
    requires t.Valid() && t.legal && t.engine.r.state == TrDone
    ensures |words| == Extent(t) == t.engine.r.desc.doneLength
    ensures earlier <= t.h.finished
    ensures if t.cut then earlier == t.h.finished && words == FrameWords(t.h.sofar) + Words(t.h.todo[0])[..1]
            else t.h.finished != [] && words == FrameWords(t.h.finished[|t.h.finished| - 1].groups)
    ensures HostWrites(mem, t.engine.Out().pkts)
            == Stored(HostWrites(mem, JobPackets(t.engine.ids, earlier)), t.engine.r.desc.doneAddr, Swapped(words))
  {
    hide Agree, HostWrites, JobPackets, FrameWords, Words, Stored, Swapped, Deframe, Flagged, Fresh, AllReady, TlpFor;
    var ids, h, pkts := t.engine.ids, t.h, t.engine.Out().pkts;
    if t.cut {
      earlier, words := h.finished, FrameWords(h.sofar) + Words(h.todo[0])[..1];
      CutWritten(mem, ids, h, pkts);
    } else {
      var n := |h.finished| - 1;
      SameState(t.engine.r, h.maxFrame);
      Done(ids, Unlimited(t.engine.r, h.maxFrame), h, t.engine.Out());
      earlier, words := h.finished[..n], FrameWords(h.finished[n].groups);
      WholeWritten(mem, ids, h.finished);
    }
  }

  lemma CutWritten(mem: Memory, ids: TlpIds, h: Hist, pkts: seq<seq<Dword>>)
    requires AllReady(h.sofar) && h.todo != [] && |Words(h.todo[0])| >= 1
             && h.base + |FrameWords(h.sofar)| + 1 <= 0x4000_0000
    requires pkts != [] && Accounted(ids, h.finished, h.base, h.sofar, pkts[..|pkts| - 1])
    requires pkts[|pkts| - 1] == TlpFor(ids, h.base + |FrameWords(h.sofar)|, Words(h.todo[0])[..1])
    ensures HostWrites(mem, pkts) == Stored(HostWrites(mem, JobPackets(ids, h.finished)), h.base,
                                            Swapped(FrameWords(h.sofar) + Words(h.todo[0])[..1]))
  {
    hide JobPackets, FrameWords, FramePackets, Words, Stored, Swapped, HostWrite, HostWrites, TlpFor, AllReady, Fits;
    var w, d := FrameWords(h.sofar), Words(h.todo[0])[..1];
    var before := HostWrites(mem, JobPackets(ids, h.finished));
    LastWrite(mem, pkts);
    AfterJobs(mem, ids, h.finished, h.base, h.sofar, pkts[..|pkts| - 1]);
    OneMoreTlp(before, ids, h.base, w, d);
  }

  /** A packet behind what has been written. */
  lemma OneMoreTlp(mem: Memory, ids: TlpIds, base: nat, w: seq<Dword>, d: seq<Dword>)
    requires 1 <= |d| <= MAX_WORDS && base + |w| + |d| <= 0x4000_0000
    ensures HostWrite(Stored(mem, base, Swapped(w)), TlpFor(ids, base + |w|, d)) == Stored(mem, base, Swapped(w + d))
  {
    hide Stored, Swapped, HostWrite, TlpFor;
    TlpStores(Stored(mem, base, Swapped(w)), ids, base + |w|, d);
    SwappedConcat(w, d);
    StoredConcat(mem, base, Swapped(w), Swapped(d));
  }

  lemma AfterJobs(mem: Memory, ids: TlpIds, jobs: seq<Job>, base: nat, gs: seq<Group>, pkts: seq<seq<Dword>>)
    requires AllReady(gs) && base + |FrameWords(gs)| <= 0x4000_0000 && Accounted(ids, jobs, base, gs, pkts)
    ensures HostWrites(mem, pkts) == Stored(HostWrites(mem, JobPackets(ids, jobs)), base, Swapped(FrameWords(gs)))
  {
    hide JobPackets, FrameWords, FramePackets, Stored, Swapped, HostWrites, AllReady, Fits;
    HostWritesConcat(mem, JobPackets(ids, jobs), FramePackets(ids, base, gs));
    FrameIsCopied(HostWrites(mem, JobPackets(ids, jobs)), ids, base, gs);
  }

  lemma LastWrite(mem: Memory, pkts: seq<seq<Dword>>)
    requires pkts != []
    ensures HostWrites(mem, pkts) == HostWrite(HostWrites(mem, pkts[..|pkts| - 1]), pkts[|pkts| - 1])
  {}

  lemma WholeWritten(mem: Memory, ids: TlpIds, jobs: seq<Job>)
    requires jobs != [] && AllReady(jobs[|jobs| - 1].groups) && Fits(jobs[|jobs| - 1])
    ensures var n := |jobs| - 1;
            HostWrites(mem, JobPackets(ids, jobs)) == Stored(HostWrites(mem, JobPackets(ids, jobs[..n])), jobs[n].base,
                                                             Swapped(FrameWords(jobs[n].groups)))
  {
    hide HostWrites, FrameWords, FramePackets, Stored, Swapped, Ready;
    var n := |jobs| - 1;
    HostWritesConcat(mem, JobPackets(ids, jobs[..n]), FramePackets(ids, jobs[n].base, jobs[n].groups));
    FrameIsCopied(HostWrites(mem, JobPackets(ids, jobs[..n])), ids, jobs[n].base, jobs[n].groups);
  }

  lemma Done(ids: TlpIds, w: Reg, h: Hist, out: View)
    requires Agree(ids, w, h, out) && w.state == TrDone
    ensures h.finished != [] && out.pkts == JobPackets(ids, h.finished)
    ensures var j := h.finished[|h.finished| - 1];
            Fits(j) && w.desc.doneAddr == j.base && w.desc.doneLength == |FrameWords(j.groups)|
  {
    hide FrameWords, JobPackets, TranOf, Ready;
    NoPackets(ids, h.base);
    assert JobPackets(ids, h.finished) + [] == JobPackets(ids, h.finished);
  }

  /** A buffer of 37 dwords: the header at dword 32 counts to 33 unseen, and the beat
      after it to 37, past all four comparisons. */
  lemma SlipsPast(ids: TlpIds, r: Reg, u: Reg, dmaChannel: nat, v: Reg, b: Beat, rx: Beat)
    requires r.maxFrameCheck == Limits(37) && r.desc.doneLength == 32 && !r.frameErr && r.cnt == 1 && r.tranLength == 32
    requires HeaderTaken(r, u, ids, b) && BeatTaken(Ticked(u, dmaChannel, true), v, rx)
    requires b.keep == ALL && !b.eot && rx.keep.w0
    ensures u.desc.doneLength == 33 && v.desc.doneLength == 37 && !u.frameErr && !v.frameErr && v.state == Collect
    ensures forall length :: length > 37 ==> !Flagged(length, 37)
  {
    hide HeaderData, Add30;
    LimitsMet(37, 37);
  }

  /** The status lines are a clock behind: in the first clock of TR_DONE the report
      shows the error flag as it is exactly if the last beat has not just set it. */
  lemma FlagShownLate(r: Reg, dmaChannel: nat, txReady: bool, v: Reg, rx: Beat)
    requires BeatTaken(Ticked(r, dmaChannel, txReady), v, rx) && v.state == TrDone
    ensures v.desc.doneReq
    ensures v.desc.doneFrameErr == v.frameErr <==> r.frameErr || !Checked(r.maxFrameCheck, v.desc.doneLength)
  {
    hide Checked, Joins, Add24, Add10, CountOf;
  }

  /** A frame that fits is written inside its buffer, flagged or not. */
  lemma Fitting(t: LimitedEngine, length: nat)
    requires t.Valid() && t.legal && t.engine.r.state == TrDone && HasLength(t, length)
    requires length <= t.maxFrame
    ensures Extent(t) <= length
    ensures length + 5 <= t.maxFrame ==> !t.engine.r.frameErr
  {
    hide Agree, FrameWords, Words, Accounted, TlpFor, AllReady, Flagged;
    FlagExact(t, length);
    FlaggedFits(length, t.maxFrame);
  }

  lemma FlaggedOver(length: nat, maxFrame: nat)
    requires maxFrame < length
    ensures Flagged(length, maxFrame) <==> maxFrame != 4 && maxFrame % 32 != 5
  {}

  lemma FlaggedFits(length: nat, maxFrame: nat)
    ensures 5 <= length + 5 <= maxFrame ==> !Flagged(length, maxFrame)
  {}

  lemma CutAt(n: nat, maxFrame: nat)
    requires n % 32 == 0 && Flagged(n, maxFrame) && (n > 0 ==> n >= 32 && !Flagged(n - 32, maxFrame))
    ensures n + 1 <= maxFrame <==> maxFrame != 4 && 1 <= maxFrame % 32 <= 4
  {}

  lemma NotCut(length: nat, maxFrame: nat)
    requires 0 < length && maxFrame < length && !Flagged((length - 1) / 32 * 32, maxFrame)
    ensures !(maxFrame != 4 && 1 <= maxFrame % 32 <= 4)
  {
    var q := (length - 1) / 32;
    assert maxFrame / 32 <= q;
  }
}
