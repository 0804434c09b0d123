/** 128-bit AXI-Stream beats as the PCIe datapath uses them, and what a run of
    beats means: the packets it carries. */
module Streams {
  import opened Bits
  import opened Wrappers

  type Dword = x: int | 0 <= x < 0x1_0000_0000

  /** Four lanes of 32 bits; lane 0 is tData(31 downto 0). */
  datatype Quad<+T> = Quad(w0: T, w1: T, w2: T, w3: T)

  /** One transfer. A lane of `keep` is true iff its tKeep nibble is 0xF; the
      datapath never looks at tKeep in any other way.
        sof    tUser(1), start of frame
        eot    tUser(0), end of transaction (only inside the receive engine)
        eofe   the end-of-frame-with-error flag
        sofPos tUser(7:4) and eofPos tUser(11:8), set by the PCIe core */
  datatype Beat = Beat(data: Quad<Dword>, keep: Quad<bool>, last: bool, sof: bool, eot: bool,
                       eofe: bool, dest: nat, sofPos: nat, eofPos: nat)

  const ALL := Quad(true, true, true, true)
  const NO_BEAT := Beat(Quad(0, 0, 0, 0), Quad(false, false, false, false),
                        false, false, false, false, 0, 0, 0)

  function Lane(keep: bool, w: Dword): seq<Dword> {
    if keep then [w] else []
  }

  function LowerHalf(keep: Quad<bool>, data: Quad<Dword>): seq<Dword> {
    Lane(keep.w0, data.w0) + Lane(keep.w1, data.w1)
  }

  function UpperHalf(keep: Quad<bool>, data: Quad<Dword>): seq<Dword> {
    Lane(keep.w2, data.w2) + Lane(keep.w3, data.w3)
  }

  /** The kept dwords of a beat, in lane order. */
  function Kept(b: Beat): seq<Dword> {
    LowerHalf(b.keep, b.data) + UpperHalf(b.keep, b.data)
  }

  lemma KeptAll(b: Beat)
    requires b.keep == ALL
    ensures Kept(b) == [b.data.w0, b.data.w1, b.data.w2, b.data.w3]
  {}

  /** The kept lanes are a non-empty prefix of the four. */
  predicate KeepsPrefix(b: Beat) {
    b.keep.w0 && (b.keep.w2 ==> b.keep.w1) && (b.keep.w3 ==> b.keep.w2)
  }

  lemma KeptFirst(b: Beat)
    requires b.keep.w0
    ensures 1 <= |Kept(b)| <= 4 && Kept(b)[0] == b.data.w0
  {}

  /** Moving the lanes down by one drops the first dword. */
  lemma KeptShift(m: Beat, tx: Beat)
    requires KeepsPrefix(m)
    requires tx.data.w0 == m.data.w1 && tx.data.w1 == m.data.w2 && tx.data.w2 == m.data.w3
    requires tx.keep == Quad(m.keep.w1, m.keep.w2, m.keep.w3, false)
    ensures |Kept(m)| >= 1 && Kept(tx) == Kept(m)[1..]
    ensures |Kept(m)| > 1 ==> KeepsPrefix(tx)
  {}

  /** Only the last beat of a packet may be partial. */
  predicate PackedBeat(b: Beat) {
    if b.last then KeepsPrefix(b) else b.keep == ALL
  }

  /** What a prefix of a beat stream means: the finished packets, the dwords of
      the packet in progress, and whether the beats so far were well placed. */
  datatype View = View(pkts: seq<seq<Dword>>, part: seq<Dword>, packed: bool, framed: bool)

  const EMPTY_VIEW := View([], [], true, true)

  function Absorb(v: View, b: Beat): View {
    var part := v.part + Kept(b);
    View(if b.last then v.pkts + [part] else v.pkts,
         if b.last then [] else part,
         v.packed && PackedBeat(b),
         v.framed && (b.sof <==> v.part == []))
  }

  function Deframe(bs: seq<Beat>): (v: View)
    decreases |bs|
  {
    if bs == [] then EMPTY_VIEW else Absorb(Deframe(bs[..|bs| - 1]), bs[|bs| - 1])
  }

  lemma DeframeSnoc(bs: seq<Beat>, b: Beat)
    ensures Deframe(bs + [b]) == Absorb(Deframe(bs), b)
  {
    assert (bs + [b])[..|bs|] == bs;
  }

  /** The beats a machine has put out: those its sink accepted, then the one
      still held in the output register. */
  function WithPending(sent: seq<Beat>, valid: bool, tx: Beat): seq<Beat> {
    if valid then sent + [tx] else sent
  }

  function LaneOf<T>(q: Quad<T>, i: nat): T
    requires i < 4
  {
    if i == 0 then q.w0 else if i == 1 then q.w1 else if i == 2 then q.w2 else q.w3
  }

  function CountOf(keep: Quad<bool>): nat {
    (if keep.w0 then 1 else 0) + (if keep.w1 then 1 else 0) + (if keep.w2 then 1 else 0) + (if keep.w3 then 1 else 0)
  }

  lemma KeptCount(b: Beat)
    ensures |Kept(b)| == CountOf(b.keep) <= 4
  {}

  /** Number of full lanes, counted as the firmware's loops do. */
  method CountKeeps(keep: Quad<bool>) returns (n: nat)
    ensures n == CountOf(keep)
  {
    n := 0;
    for i := 0 to 4
      invariant n == (if i > 0 && keep.w0 then 1 else 0) + (if i > 1 && keep.w1 then 1 else 0)
                     + (if i > 2 && keep.w2 then 1 else 0) + (if i > 3 && keep.w3 then 1 else 0)
    {
      if LaneOf(keep, i) {
        n := n + 1;
      }
    }
  }

  /** The dword with byte a in bits 7:0 up to byte d in bits 31:24. */
  function Join(a: Byte, b: Byte, c: Byte, d: Byte): Dword {
    a + 0x100 * (b + 0x100 * (c + 0x100 * d))
  }

  /** A dword with its four bytes in the opposite order. */
  function ByteSwap(w: Dword): Dword {
    Join(w / 0x100 / 0x100 / 0x100, w / 0x100 / 0x100 % 0x100, w / 0x100 % 0x100, w % 0x100)
  }

  lemma LowByte(a: Byte, rest: nat)
    ensures (a + 0x100 * rest) % 0x100 == a && (a + 0x100 * rest) / 0x100 == rest
  {}

  lemma JoinBytes(a: Byte, b: Byte, c: Byte, d: Byte)
    ensures ByteSwap(Join(a, b, c, d)) == Join(d, c, b, a)
  {
    LowByte(a, b + 0x100 * (c + 0x100 * d));
    LowByte(b, c + 0x100 * d);
    LowByte(c, d);
  }

  lemma ByteSwapTwice(w: Dword)
    ensures ByteSwap(ByteSwap(w)) == w
  {
    JoinBytes(w / 0x100 / 0x100 / 0x100, w / 0x100 / 0x100 % 0x100, w / 0x100 % 0x100, w % 0x100);
  }

  /** reverseOrderPcie: every lane byte-swapped, everything else kept. */
  function Reversed(b: Beat): Beat {
    b.(data := Quad(ByteSwap(b.data.w0), ByteSwap(b.data.w1), ByteSwap(b.data.w2), ByteSwap(b.data.w3)))
  }

  lemma ReversedKept(b: Beat, e: bool)
    ensures |Kept(Reversed(b))| == |Kept(b)|
    ensures Reversed(b.(eot := e)) == Reversed(b).(eot := e)
    ensures Kept(Reversed(b.(eot := e))) == Kept(Reversed(b))
    ensures Reversed(b) == b.(data := Reversed(b).data)
  {
    hide ByteSwap;
    assert Reversed(b).keep == b.keep;
  }

  /** All dwords of a run of beats. */
  function Words(bs: seq<Beat>): seq<Dword>
    decreases |bs|
  {
    if bs == [] then [] else Words(bs[..|bs| - 1]) + Kept(bs[|bs| - 1])
  }

  lemma WordsSnoc(bs: seq<Beat>, b: Beat)
    ensures Words(bs + [b]) == Words(bs) + Kept(b)
  {
    assert (bs + [b])[..|bs|] == bs;
  }

  lemma WordsLast(bs: seq<Beat>)
    requires bs != []
    ensures Words(bs) == Words(bs[..|bs| - 1]) + Kept(bs[|bs| - 1])
  {}

  lemma {:induction false} WordsConcat(a: seq<Beat>, b: seq<Beat>)
    ensures Words(a + b) == Words(a) + Words(b)
    decreases |b|
  {
    hide Kept;
    if b == [] {
      assert a + b == a;
    } else {
      hide Words;
      var b', z := b[..|b| - 1], b[|b| - 1];
      WordsConcat(a, b');
      WordsSnoc(a + b', z);
      WordsLast(b);
      LastOff(a, b);
      Associate(Words(a), Words(b'), Kept(z));
    }
  }
}
