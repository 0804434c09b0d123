/** SsiPcieTxDmaFifoMux: one dword per clock out of beats of up to four. */
module TxSerialiser {
  import opened Streams

  /** A 32-bit output transfer. */
  datatype OutWord = OutWord(data: Dword, sof: bool, last: bool)

  datatype State = Word0 | Word1 | Word2 | Word3

  datatype Reg = Reg(txValid: bool, tx: OutWord, saved: Beat, state: State)

  const REG_INIT := Reg(false, OutWord(0, false, false), NO_BEAT, Word0)

  /** What becomes of a beat: a lone dword keeps both flags, a longer beat loses
      SOF and shows its end on its last dword. */
  function Serial(b: Beat): seq<OutWord> {
    if !b.keep.w1 then [OutWord(b.data.w0, b.sof, b.last)]
    else [OutWord(b.data.w0, false, false)] + From1(b)
  }

  function From1(b: Beat): seq<OutWord> {
    if !b.keep.w2 then [OutWord(b.data.w1, false, b.last)] else [OutWord(b.data.w1, false, false)] + From2(b)
  }

  function From2(b: Beat): seq<OutWord> {
    if !b.keep.w3 then [OutWord(b.data.w2, false, b.last)] else [OutWord(b.data.w2, false, false)] + From3(b)
  }

  function From3(b: Beat): seq<OutWord> {
    [OutWord(b.data.w3, false, b.last)]
  }

  function SerialAll(bs: seq<Beat>): seq<OutWord>
    decreases |bs|
  {
    if bs == [] then [] else SerialAll(bs[..|bs| - 1]) + Serial(bs[|bs| - 1])
  }

  lemma SerialSnoc(bs: seq<Beat>, b: Beat)
    ensures SerialAll(bs + [b]) == SerialAll(bs) + Serial(b)
  {
    assert (bs + [b])[..|bs|] == bs;
  }

  /** The part of the saved beat still to be sent. */
  function Owed(r: Reg): seq<OutWord> {
    match r.state
    case Word0 => []
    case Word1 => From1(r.saved)
    case Word2 => From2(r.saved)
    case Word3 => From3(r.saved)
  }

  function Emit(sent: seq<OutWord>, r: Reg): seq<OutWord> {
    if r.txValid then sent + [r.tx] else sent
  }

  /** Put the next dword into the free output register: the first of `s` in
      WORD0, otherwise the next of the saved beat. */
  method NextWord(r: Reg, s: Beat) returns (v: Reg)
    requires !r.tx.sof && !r.tx.last
    ensures v.txValid && [v.tx] + Owed(v) == if r.state == Word0 then Serial(s) else Owed(r)
  {
    match r.state {
      case Word0 =>
        v := r.(txValid := true, tx := r.tx.(data := s.data.w0));
        if s.keep.w1 {
          v := v.(saved := s, state := Word1);
        } else {
          v := v.(tx := v.tx.(last := s.last, sof := s.sof));
        }
      case Word1 =>
        v := r.(txValid := true, tx := r.tx.(data := r.saved.data.w1));
        if r.saved.keep.w2 {
          v := v.(state := Word2);
        } else {
          v := v.(tx := v.tx.(last := r.saved.last), state := Word0);
        }
      case Word2 =>
        v := r.(txValid := true, tx := r.tx.(data := r.saved.data.w2));
        if r.saved.keep.w3 {
          v := v.(state := Word3);
        } else {
          v := v.(tx := v.tx.(last := r.saved.last), state := Word0);
        }
      case Word3 =>
        v := r.(txValid := true, tx := r.tx.(data := r.saved.data.w3, last := r.saved.last), state := Word0);
    }
  }

  class Serialiser {
    var r: Reg
    ghost var taken: seq<Beat>
    ghost var sent: seq<OutWord>

    ghost predicate Valid()
      reads this
    {
      && Emit(sent, r) + Owed(r) == SerialAll(taken)
      && (!r.txValid ==> !r.tx.sof && !r.tx.last)
    }

    constructor ()
      ensures Valid() && r == REG_INIT && taken == [] && sent == []
    {
      r, taken, sent := REG_INIT, [], [];
    }

    /** One clock. `rxReady` accepts the offered beat; a saved beat keeps the
        output busy until its last dword. */
    method Clock(sValid: bool, s: Beat, ready: bool) returns (rxReady: bool)
      requires Valid()
      modifies this
      ensures Valid()
      ensures rxReady <==> sValid && old(r.state) == Word0 && (ready || !old(r.txValid))
      ensures taken == if rxReady then old(taken) + [s] else old(taken)
      ensures sent == if ready then Emit(old(sent), old(r)) else old(sent)
      ensures old(r.state) != Word0 ==> r.txValid
      ensures if rxReady then |Owed(r)| <= 3
              else |Owed(r)| == old(|Owed(r)|) - (if old(r.state) != Word0 && (ready || !old(r.txValid)) then 1 else 0)
      ensures (r.state == Word0) <==> |Owed(r)| == 0
    {
      hide Serial, Owed, SerialAll;
      OwedSize(r, s);
      rxReady := false;
      if ready {
        sent := Emit(sent, r);
        r := r.(txValid := false, tx := r.tx.(sof := false, last := false));
        Released(old(r), r);
      }
      if !r.txValid && (r.state != Word0 || sValid) {
        rxReady := r.state == Word0;
        ghost var out := sent;
        NothingOwed(r);
        r := NextWord(r, s);
        if rxReady {
          SerialSnoc(taken, s);
          taken := taken + [s];
        }
        Regroup(out, r.tx, Owed(r));
      }
      OwedSize(r, s);
    }
  }

  lemma OwedSize(r: Reg, s: Beat)
    ensures (r.state == Word0) <==> |Owed(r)| == 0
    ensures |Owed(r)| <= 3 && |Serial(s)| <= 4
  {}

  lemma Released(r: Reg, v: Reg)
    requires v.state == r.state && v.saved == r.saved
    ensures Owed(v) == Owed(r)
  {}

  lemma NothingOwed(r: Reg)
    ensures r.state == Word0 ==> Owed(r) == []
  {}

  lemma Regroup(out: seq<OutWord>, x: OutWord, rest: seq<OutWord>)
    ensures out + [x] + rest == out + ([x] + rest) && out + [] == out
  {}
}
