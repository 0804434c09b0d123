/** The receive path does not stop: how many clocks without a stall it needs for
    everything that it has been given. */
module RxProgress {
  import opened Streams
  import opened Wrappers
  import opened Transactions
  import opened PcieTypes
  import opened RxDma
  import opened HostMemory
  import opened RxPath
  import RxCutter

  // ---- What is left to do ----

  /** The engine's clocks for a transaction: for its descriptor, for its header, for its
      beats, and three between two frames. */
  function Cost(g: Group): nat {
    2 + |g| + (if EndsFrame(g) then 3 else 0)
  }

  function Clocks(gs: seq<Group>): nat {
    if gs == [] then 0 else Cost(gs[0]) + Clocks(gs[1..])
  }

  lemma {:induction false} ClocksSnoc(gs: seq<Group>, g: Group)
    ensures Clocks(gs + [g]) == Clocks(gs) + Cost(g)
  {
    if gs == [] {
      assert [] + [g] == [g];
    } else {
      ClocksSnoc(gs[1..], g);
      assert (gs + [g])[1..] == gs[1..] + [g];
    }
  }

  /** The clocks between two frames that are still to come, or those of the transaction
      in hand that have passed. */
  function Lead(s: State, pos: nat): int {
    match s
    case TrDone => 3
    case Idle => 2
    case AckWait => 1
    case ReadTrans => 0
    case SendIoReqHdr => -1
    case Collect => -1 - pos
    case DataDump => 0
  }

  /** The engine gets what its state waits for. */
  predicate Gets(r: Reg, rxValid: bool, tranValid: bool, desc: DescFromPcie, free: bool) {
    match r.state
    case Idle => tranValid && rxValid && free
    case AckWait => desc.newAck
    case ReadTrans => tranValid
    case SendIoReqHdr => rxValid && free
    case Collect => (rxValid || r.history.eot) && free
    case TrDone => desc.doneAck
    case DataDump => false
  }

  /** A clock of the engine adds nothing to what is left, and takes something off if the
      engine gets what it waits for. */
  lemma EngineLoad(r: Reg, h: Hist, rxValid: bool, tranValid: bool, desc: DescFromPcie, free: bool, s': State,
                   done': seq<Group>, pos': nat)
    requires Progress(r, h, rxValid, tranValid, desc, free, s', done', pos') && r.state != DataDump
    ensures done' == h.done || (h.todo != [] && done' == h.done + [h.todo[0]])
    ensures var todo' := if done' == h.done then h.todo else h.todo[1..];
            Clocks(todo') + Lead(s', pos')
            <= Clocks(h.todo) + Lead(r.state, h.pos) - (if Gets(r, rxValid, tranValid, desc, free) then 1 else 0)
    ensures !Gets(r, rxValid, tranValid, desc, free) ==> s' == r.state
    ensures s' == TrDone && s' != r.state ==> h.todo != []
  {
    hide EndsFrame;
    if Further(h, s', done', pos') && InTlp(r.state) {
      assert Clocks(h.todo) == Cost(h.todo[0]) + Clocks(h.todo[1..]);
    }
  }

  /** Something cut has not reached the FIFOs yet. */
  function Lag(r: RxCutter.Reg): nat {
    if r.txValid || r.tranWr then 1 else 0
  }

  /** The cutter's part of what is left, for the transactions from number n on. */
  function CutLoad(r: RxCutter.Reg, c: RxCutter.Cut, n: nat): nat
    requires n <= |c.groups|
  {
    6 * |c.open| + Clocks(c.groups[n..]) + Lag(r)
  }

  /** A clock of the cutter adds at most seven for a beat that it takes. */
  lemma CutterLoad(r: RxCutter.Reg, c: RxCutter.Cut, sValid: bool, ready: bool, tranAFull: bool, r': RxCutter.Reg,
                   c': RxCutter.Cut, sReady: bool, n: nat)
    requires CutterMoves(r, c, sValid, ready, tranAFull, r', c', sReady) && n <= |c.groups|
    ensures n <= |c'.groups| && c.groups <= c'.groups
    ensures CutLoad(r', c', n) <= CutLoad(r, c, n) + if sReady then 7 else 0
    ensures !sReady && ready ==> CutLoad(r', c', n) == CutLoad(r, c, n) - Lag(r)
  {
    hide EndsFrame, Reversed;
    if sReady && r'.tranWr {
      var all := c.open + [Reversed(r'.tx)];
      ClocksSnoc(c.groups[n..], all);
      assert c'.groups[n..] == c.groups[n..] + [all];
    } else {
      assert c'.groups == c.groups;
    }
  }

  /** What is left for cutter and engine. */
  ghost function Load(path: ReceivePath): int
    reads path, path.cutter, path.engine
  {
    if |path.engine.h.done| <= |path.cutter.cut.groups| then
      CutLoad(path.cutter.r, path.cutter.cut, |path.engine.h.done|) + Lead(path.engine.r.state, path.engine.h.pos)
    else 0
  }

  // ---- The FIFOs have what the engine waits for ----

  /** With everything cut in the FIFOs, the engine finds there what it waits for. */
  lemma Available(cr: RxCutter.Reg, c: RxCutter.Cut, taken: seq<Beat>, sent: seq<Beat>, transSent: seq<Tran>, r: Reg,
                  h: Hist, dataQ: seq<Beat>, tranQ: seq<Tran>)
    requires RxCutter.Agree(cr, c, taken, RxCutter.Emit(sent, cr), RxCutter.EmitTrans(transSent, cr)) && Lag(cr) == 0
    requires Wired(c.groups, sent, transSent, r, h, dataQ, tranQ) && (r.tranRd ==> InTlp(r.state)) && h.todo != []
    ensures !InTlp(r.state) ==> tranQ != []
    ensures h.pos < |h.todo[0]| ==> dataQ != []
    ensures h.todo[0] != []
  {
    hide Closed, RxCutter.Open, Flat, RxCutter.SameBeats, TranOf;
    assert c.groups[|h.done|] == h.todo[0] && c.groups[..|h.done|] == h.done;
    ClosedInside(c.groups[|h.done|]);
    if h.pos < |h.todo[0]| {
      FlatAt(c.groups, |h.done|, h.pos);
    }
  }

  lemma EngineGets(ids: TlpIds, r: Reg, h: Hist, out: View, rxValid: bool, tranValid: bool, desc: DescFromPcie)
    requires Agree(ids, r, h, out) && Acked(r.state, desc) && (r.state == TrDone || (h.todo != [] && h.todo[0] != []))
    requires r.state != TrDone && !InTlp(r.state) ==> tranValid
    requires h.todo != [] && h.pos < |h.todo[0]| ==> rxValid
    ensures Gets(r, rxValid, tranValid, desc, true)
  {
    hide Words, FrameWords, Accounted, Header, Ready;
    if InTlp(r.state) {
      InHand(ids, r, h, out);
    }
  }

  /** What is left is never negative, and something as long as a transaction is. */
  lemma LoadPositive(ids: TlpIds, r: Reg, h: Hist, out: View)
    requires Agree(ids, r, h, out)
    ensures Clocks(h.todo) + Lead(r.state, h.pos) >= if h.todo == [] && r.state != TrDone then 0 else 1
  {
    hide Words, FrameWords, Accounted, Header, Ready, EndsFrame;
    if InTlp(r.state) {
      InHand(ids, r, h, out);
    }
    if h.todo != [] {
      assert Clocks(h.todo) >= Cost(h.todo[0]);
    }
  }

  // ---- One clock ----

  /** The neighbours' part of a clock: the source offers its next beat, the FIFOs' stalls
      and delays, the controller's answers, the sink. */
  datatype Tick = Tick(sValid: bool, dataReady: bool, tranAFull: bool, rxVisible: bool, tranVisible: bool,
                       desc: DescFromPcie, txReady: bool)

  /** Neither the source nor the FIFOs nor the sink hold the path up ... */
  predicate Open(t: Tick) {
    t.sValid && t.dataReady && !t.tranAFull && t.rxVisible && t.tranVisible && t.txReady
  }

  /** ... nor does the controller. */
  predicate Acked(s: State, desc: DescFromPcie) {
    (s == AckWait ==> desc.newAck) && (s == TrDone ==> desc.doneAck)
  }

  predicate Clear(t: Tick) {
    Open(t) && t.desc.newAck && t.desc.doneAck
  }

  function Clears(ticks: seq<Tick>): nat
    decreases |ticks|
  {
    if ticks == [] then 0 else Clears(ticks[..|ticks| - 1]) + if Clear(ticks[|ticks| - 1]) then 1 else 0
  }

  lemma ClearsNext(ticks: seq<Tick>, n: nat)
    requires n < |ticks|
    ensures Clears(ticks[..n + 1]) == Clears(ticks[..n]) + if Clear(ticks[n]) then 1 else 0
  {
    assert ticks[..n + 1][..n] == ticks[..n];
  }

  /** Cutter and engine together: from number |done| on, or from the next one on if the
      engine has completed a transaction. */
  lemma Together(h: Hist, c: RxCutter.Cut, c': RxCutter.Cut, r': RxCutter.Reg, done': seq<Group>)
    requires c.groups == h.done + h.todo && c.groups <= c'.groups
    requires done' == h.done || (h.todo != [] && done' == h.done + [h.todo[0]])
    ensures |done'| <= |c'.groups| && c.groups[|h.done|..] == h.todo
    ensures CutLoad(r', c', |done'|) - CutLoad(r', c', |h.done|)
            == Clocks(if done' == h.done then h.todo else h.todo[1..]) - Clocks(h.todo)
  {
    var n := |h.done|;
    if done' != h.done {
      assert c'.groups[n] == c.groups[n] == h.todo[0];
      assert c'.groups[n..][1..] == c'.groups[n + 1..];
    }
  }

  /** The state of a path in good order. */
  ghost predicate Good(path: ReceivePath)
    reads path, path.cutter, path.engine
  {
    path.Valid() && path.hostOk && SourceOk(path.cutter.taken)
  }

  lemma GoodIs(path: ReceivePath)
    requires Good(path)
    ensures var e, k := path.engine, path.cutter;
            && Agree(e.ids, e.r, e.h, e.Out()) && Ledger(e.h) && (e.r.tranRd ==> InTlp(e.r.state))
            && RxCutter.Agree(k.r, k.cut, k.taken, RxCutter.Emit(k.sent, k.r), RxCutter.EmitTrans(k.transSent, k.r))
            && Wired(k.cut.groups, k.sent, k.transSent, e.r, e.h, path.dataQ, path.tranQ)
            && e.r.state != DataDump && k.cut.groups == e.h.done + e.h.todo
  {
    hide Agree, Ledger, RxCutter.Agree, Deframe, Flat;
    path.Opened();
    NeverDumps(path.engine.ids, path.engine.r, path.engine.h, path.engine.Out());
  }

  /** What is left, by the transactions that the engine has yet to send. */
  lemma LoadIs(path: ReceivePath)
    requires Good(path)
    ensures var e := path.engine;
            && Load(path) == 6 * |path.cutter.cut.open| + Clocks(e.h.todo) + Lag(path.cutter.r)
                             + Lead(e.r.state, e.h.pos)
            && Load(path) >= if e.h.todo == [] && e.r.state != TrDone then 0 else 1
  {
    hide Agree, Ledger, RxCutter.Agree, Wired, Good, Lead;
    GoodIs(path);
    var e := path.engine;
    LoadPositive(e.ids, e.r, e.h, e.Out());
    assert path.cutter.cut.groups[|e.h.done|..] == e.h.todo;
  }

  /** A clock of the path adds at most seven for a beat taken; it takes something off if
      something cut reaches the FIFOs or the engine gets what it waits for. */
  lemma ClockLoad(r: Reg, h: Hist, cr: RxCutter.Reg, c: RxCutter.Cut, t: Tick, sValid: bool, rxValid: bool,
                  tranValid: bool, s': State, done': seq<Group>, pos': nat, cr': RxCutter.Reg, c': RxCutter.Cut,
                  sReady: bool)
    requires c.groups == h.done + h.todo && r.state != DataDump
    requires Progress(r, h, rxValid, tranValid, t.desc, t.txReady || !r.txValid, s', done', pos')
    requires CutterMoves(cr, c, sValid, t.dataReady, t.tranAFull, cr', c', sReady)
    ensures |done'| <= |c'.groups| && done' <= c'.groups
    ensures var before, after := CutLoad(cr, c, |h.done|) + Lead(r.state, h.pos),
            CutLoad(cr', c', |done'|) + Lead(s', pos');
            var gets := Gets(r, rxValid, tranValid, t.desc, t.txReady || !r.txValid);
            && after <= before + (if sReady then 7 else 0)
            && (!sReady && (gets || (t.dataReady && Lag(cr) > 0)) ==> after < before)
            && (!gets ==> s' == r.state)
    ensures s' == TrDone && s' != r.state ==> h.todo != []
  {
    hide Progress, CutterMoves, Gets, Lead, CutLoad;
    EngineLoad(r, h, rxValid, tranValid, t.desc, t.txReady || !r.txValid, s', done', pos');
    CutterLoad(cr, c, sValid, t.dataReady, t.tranAFull, cr', c', sReady, |h.done|);
    Together(h, c, c', cr', done');
  }

  lemma Prepared(path: ReceivePath, t: Tick)
    requires Good(path) && Open(t) && Acked(path.engine.r.state, t.desc)
    requires Lag(path.cutter.r) == 0 && (path.engine.h.todo != [] || path.engine.r.state == TrDone)
    ensures Gets(path.engine.r, t.rxVisible && path.dataQ != [], t.tranVisible && path.tranQ != [], t.desc, true)
  {
    hide Agree, Ledger, RxCutter.Agree, Wired, Good, Gets, Acked;
    GoodIs(path);
    var e, k := path.engine, path.cutter;
    if e.h.todo != [] {
      Available(k.r, k.cut, k.taken, k.sent, k.transSent, e.r, e.h, path.dataQ, path.tranQ);
    }
    EngineGets(e.ids, e.r, e.h, e.Out(), t.rxVisible && path.dataQ != [], t.tranVisible && path.tranQ != [], t.desc);
  }

  /** What is left before and after a clock that begins in state `s`. */
  ghost predicate Lessened(t: Tick, s: State, sValid: bool, sReady: bool, before: int, todo: seq<Group>,
                           path: ReceivePath)
    reads path, path.cutter, path.engine
  {
    && Load(path) <= before + (if sReady then 7 else 0)
    && (!sReady && Open(t) && sValid ==> Load(path) < before)
    && (!sReady && Open(t) && Acked(s, t.desc) && (todo != [] || s == TrDone) ==> Load(path) < before)
    && (!sReady && path.engine.r.state != s ==> Load(path) < before)
    && (!sReady && todo == [] ==> path.engine.h.todo == [] && (s != TrDone ==> path.engine.r.state != TrDone))
  }

  lemma Clocked(r: Reg, h: Hist, cr: RxCutter.Reg, c: RxCutter.Cut, t: Tick, sValid: bool, rxValid: bool,
                tranValid: bool, path: ReceivePath, sReady: bool)
    requires Good(path) && c.groups == h.done + h.todo && r.state != DataDump
    requires Progress(r, h, rxValid, tranValid, t.desc, t.txReady || !r.txValid, path.engine.r.state,
                      path.engine.h.done, path.engine.h.pos)
    requires CutterMoves(cr, c, sValid, t.dataReady, t.tranAFull, path.cutter.r, path.cutter.cut, sReady)
    requires Open(t) && Acked(r.state, t.desc) && Lag(cr) == 0 && (h.todo != [] || r.state == TrDone) ==>
               Gets(r, rxValid, tranValid, t.desc, true)
    ensures Lessened(t, r.state, sValid, sReady, CutLoad(cr, c, |h.done|) + Lead(r.state, h.pos), h.todo, path)
  {
    hide Agree, Ledger, RxCutter.Agree, Wired, Progress, CutterMoves, Good, Gets, CutLoad, Lead, Acked;
    GoodIs(path);
    ClockLoad(r, h, cr, c, t, sValid, rxValid, tranValid, path.engine.r.state, path.engine.h.done, path.engine.h.pos,
              path.cutter.r, path.cutter.cut, sReady);
    Unhurried(cr, c, sValid, t.dataReady, t.tranAFull, path.cutter.r, path.cutter.cut, sReady);
    Resting(r, h, rxValid, tranValid, t.desc, t.txReady || !r.txValid, path.engine.r.state, path.engine.h, c,
            path.cutter.cut);
  }

  /** One clock: the beat that the source offers, whatever the others do. */
  method Clock(path: ReceivePath, sValid: bool, s: Beat, t: Tick) returns (sReady: bool)
    requires path.Valid() && (sValid ==> !s.eot)
    modifies path, path.cutter, path.engine
    ensures path.Valid() && (sReady ==> sValid)
    ensures path.cutter.taken == if sReady then old(path.cutter.taken) + [s] else old(path.cutter.taken)
    ensures Good(path) ==>
              && old(Good(path))
              && Lessened(t, old(path.engine.r.state), sValid, sReady, old(Load(path)), old(path.engine.h.todo), path)
  {
    hide Agree, Ledger, RxCutter.Agree, Wired, Progress, CutterMoves, ReceivePath.Valid, SourceOk, HostOk, Finishes,
         Answered, Turned, Sized, Gets, CutLoad, Lead, Lessened, Open, Acked;
    ghost var r, h, cr, c := path.engine.r, path.engine.h, path.cutter.r, path.cutter.cut;
    ghost var rxValid, tranValid := t.rxVisible && path.dataQ != [], t.tranVisible && path.tranQ != [];
    if Good(path) {
      GoodIs(path);
      if Open(t) && Acked(r.state, t.desc) && Lag(cr) == 0 && (h.todo != [] || r.state == TrDone) {
        Prepared(path, t);
      }
    }
    SourceOkBefore(path.cutter.taken, s);
    sReady := path.Clock(sValid, s, t.dataReady, t.tranAFull, t.rxVisible, t.tranVisible, t.desc, t.txReady);
    if Good(path) {
      Clocked(r, h, cr, c, t, sValid, rxValid, tranValid, path, sReady);
    }
  }

  /** A clear clock in which the cutter does not take the beat offered clears its lag. */
  lemma Unhurried(r: RxCutter.Reg, c: RxCutter.Cut, sValid: bool, ready: bool, tranAFull: bool, r': RxCutter.Reg,
                  c': RxCutter.Cut, sReady: bool)
    requires CutterMoves(r, c, sValid, ready, tranAFull, r', c', sReady)
    ensures !sReady && sValid && ready && !tranAFull ==> Lag(r) > 0
    ensures !sReady ==> c' == c
  {
    hide RxCutter.Extended;
  }

  lemma Resting(r: Reg, h: Hist, rxValid: bool, tranValid: bool, desc: DescFromPcie, free: bool, s': State, h': Hist,
                c: RxCutter.Cut, c': RxCutter.Cut)
    requires Progress(r, h, rxValid, tranValid, desc, free, s', h'.done, h'.pos) && r.state != DataDump
    requires c.groups == h.done + h.todo && c'.groups == h'.done + h'.todo
    ensures h.todo == [] && c' == c ==> h'.todo == []
  {
    hide EndsFrame;
  }

  // ---- Any run ----

  /** Every whole frame that the source has delivered has been finished; after whole
      frames only, the engine is between frames. */
  ghost predicate Caught(path: ReceivePath)
    reads path.cutter, path.engine
  {
    var v, e := Deframe(path.cutter.taken), path.engine;
    |e.h.finished| == |v.pkts| && (v.part == [] ==> Pausing(e.r.state, e.h))
  }

  /** What the transactions sent mean, when they are all that have been cut. */
  lemma AllCut(c: RxCutter.Cut, taken: seq<Beat>, h: Hist)
    requires RxCutter.CutOk(c) && RxCutter.SameBeats(taken, Flat(c.groups) + c.open) && SourceOk(taken)
    requires c.groups == h.done && Ledger(h)
    ensures |h.finished| == |Deframe(taken).pkts|
    ensures Deframe(taken).part == [] ==> h.sofar == []
  {
    hide Closed, Flat, Deframe, Reversed, Ready, RxCutter.SameBeats, WholeFrame, Swapped, Words;
    SwappedView(taken, Flat(c.groups) + c.open);
    forall i | 0 <= i < |h.done| ensures Ready(h.done[i]) {
      ClosedIsReady(c.groups, c.open, i);
    }
    SentView(h);
    DeframeInside(Flat(c.groups), c.open, |c.open|);
    assert c.open[..|c.open|] == c.open;
    FrameCount(h.finished);
    if h.sofar != [] {
      var n := |h.sofar| - 1;
      assert h.sofar[n] == h.done[|JobGroups(h.finished)| + n];
      FirstDword(h.sofar[n]);
      assert FrameWords(h.sofar) == FrameWords(h.sofar[..n]) + Words(h.sofar[n]);
    }
  }

  lemma NothingLeft(path: ReceivePath)
    requires Good(path) && path.engine.h.todo == []
    ensures Caught(path)
  {
    hide Agree, Ledger, Wired, Good, Deframe, SourceOk, RxCutter.CutOk, RxCutter.SameBeats, Reversed, Flat;
    GoodIs(path);
    GoodSource(path);
    var e, k := path.engine, path.cutter;
    AllCut(k.cut, k.taken, e.h);
    if InTlp(e.r.state) {
      InHand(e.ids, e.r, e.h, e.Out());
    }
  }

  lemma GoodSource(path: ReceivePath)
    requires Good(path)
    ensures SourceOk(path.cutter.taken)
  {
    hide SourceOk, ReceivePath.Valid;
  }

  /** The path under any stalls: the source offers the beats of `stream` one after the
      other. After 8 clear clocks for each beat, and what was left to do before, the
      source has got rid of all of them and every whole frame has been finished. */
  method Drive(path: ReceivePath, stream: seq<Beat>, ticks: seq<Tick>) returns (taken: nat)
    requires path.Valid() && forall i :: 0 <= i < |stream| ==> !stream[i].eot
    modifies path, path.cutter, path.engine
    ensures path.Valid() && taken <= |stream| && path.cutter.taken == old(path.cutter.taken) + stream[..taken]
    ensures Good(path) && Clears(ticks) >= 8 * |stream| + old(Load(path)) ==> taken == |stream| && Caught(path)
  {
    hide Clear, ReceivePath.Valid, Good, Load, Caught, Lessened;
    taken := 0;
    ghost var budget := 8 * |stream| + Load(path);
    for n := 0 to |ticks|
      invariant path.Valid() && taken <= |stream| && path.cutter.taken == old(path.cutter.taken) + stream[..taken]
      invariant Good(path) ==>
                  || Load(path) + 8 * (|stream| - taken) + Clears(ticks[..n]) <= budget
                  || (taken == |stream| && path.engine.h.todo == [])
    {
      var t := ticks[n];
      var sValid := t.sValid && taken < |stream|;
      ghost var before, todo, was := Load(path), path.engine.h.todo, path.engine.r.state;
      var sReady := Clock(path, sValid, if sValid then stream[taken] else NO_BEAT, t);
      taken := if sReady then taken + 1 else taken;
      ClearsNext(ticks, n);
      if Good(path) {
        LessenedIs(t, was, sValid, sReady, before, todo, path);
      }
    }
    assert ticks[..|ticks|] == ticks;
    if Good(path) {
      LoadIs(path);
      if path.engine.h.todo == [] {
        NothingLeft(path);
      }
    }
  }

  lemma LessenedIs(t: Tick, s: State, sValid: bool, sReady: bool, before: int, todo: seq<Group>, path: ReceivePath)
    requires Lessened(t, s, sValid, sReady, before, todo, path)
    ensures Load(path) <= before + (if sReady then 7 else 0)
    ensures Clear(t) ==> t.sValid && (!sReady && (todo != [] || sValid) ==> Load(path) < before)
    ensures !sReady && todo == [] ==> path.engine.h.todo == []
  {
    hide Load;
  }

  /** ... and is in memory, each frame at the base that its descriptor gave. */
  lemma CaughtIsCopied(path: ReceivePath, mem: Memory)
    requires Good(path) && Caught(path) && Deframe(path.cutter.taken).part == []
    ensures |path.engine.h.finished| == |Deframe(path.cutter.taken).pkts|
    ensures HostWrites(mem, path.engine.Out().pkts)
            == CopyAll(mem, Bases(path.engine.h.finished), Deframe(path.cutter.taken).pkts)
  {
    hide ReceivePath.Valid, SourceOk, Deframe, HostWrites, CopyAll, Pausing;
    path.Copied(mem);
    var frames := Deframe(path.cutter.taken).pkts;
    assert frames[..|frames|] == frames;
  }
}
