/** What a run of memory-write TLPs does to host memory, and why the receive
    engine's TLPs amount to one copy of the frame. */
module HostMemory {
  import opened Streams
  import opened Transactions
  import opened PcieTypes
  import opened RxDma

  /** Host memory by dword address. */
  type Memory = map<nat, Dword>

  /** A memory write the host accepts: 3-DW header with payload, a length field
      that counts the payload, and byte enables that select all of it. */
  predicate MemoryWrite(pkt: seq<Dword>) {
    && 4 <= |pkt| < 0x400 + 3
    && pkt[0] == 0x4000_0000 + (|pkt| - 3)
    && pkt[1] % 0x100 == (if |pkt| == 4 then 0x0F else 0xFF)
    && pkt[2] % 4 == 0
  }

  function DwordFor(frame: seq<Dword>, base: nat, k: nat): Dword
    requires base <= k < base + |frame|
  {
    frame[k - base]
  }

  /** `frame` stored from dword address `base` on. */
  function Stored(mem: Memory, base: nat, frame: seq<Dword>): Memory {
    mem + map k: nat | base <= k < base + |frame| :: DwordFor(frame, base, k)
  }

  function Swapped(ws: seq<Dword>): (r: seq<Dword>)
    ensures |r| == |ws|
  {
    seq(|ws|, i requires 0 <= i < |ws| => ByteSwap(ws[i]))
  }

  /** The link carries a dword's bytes lowest address first, in bits 31:24. */
  function HostWrite(mem: Memory, pkt: seq<Dword>): Memory {
    if MemoryWrite(pkt) then Stored(mem, pkt[2] / 4, Swapped(pkt[3..])) else mem
  }

  function HostWrites(mem: Memory, pkts: seq<seq<Dword>>): Memory
    decreases |pkts|
  {
    if pkts == [] then mem else HostWrite(HostWrites(mem, pkts[..|pkts| - 1]), pkts[|pkts| - 1])
  }

  lemma {:induction false} HostWritesConcat(mem: Memory, a: seq<seq<Dword>>, b: seq<seq<Dword>>)
    ensures HostWrites(mem, a + b) == HostWrites(HostWrites(mem, a), b)
    decreases |b|
  {
    hide HostWrite;
    if b == [] {
      assert a + b == a;
    } else {
      assert (a + b)[..|a + b| - 1] == a + b[..|b| - 1];
      HostWritesConcat(mem, a, b[..|b| - 1]);
    }
  }

  lemma SwappedConcat(a: seq<Dword>, b: seq<Dword>)
    ensures Swapped(a + b) == Swapped(a) + Swapped(b)
  {
    hide ByteSwap;
  }

  lemma SwappedTwice(a: seq<Dword>)
    ensures Swapped(Swapped(a)) == a
  {
    hide ByteSwap;
    forall i | 0 <= i < |a| ensures Swapped(Swapped(a))[i] == a[i] {
      ByteSwapTwice(a[i]);
    }
  }

  lemma StoredConcat(mem: Memory, base: nat, a: seq<Dword>, b: seq<Dword>)
    ensures Stored(Stored(mem, base, a), base + |a|, b) == Stored(mem, base, a + b)
  {}

  /** One TLP of the engine is accepted and stores exactly its payload. */
  lemma TlpStores(mem: Memory, ids: TlpIds, at: nat, payload: seq<Dword>)
    requires 1 <= |payload| <= MAX_WORDS && at + |payload| <= 0x4000_0000
    ensures MemoryWrite(TlpFor(ids, at, payload))
    ensures HostWrite(mem, TlpFor(ids, at, payload)) == Stored(mem, at, Swapped(payload))
  {
    hide Stored, Swapped;
    var pkt := TlpFor(ids, at, payload);
    assert pkt[3..] == payload;
    LowByte(if |payload| == 1 then 0x0F else 0xFF, ids.locId * 0x100 + ids.tag);
  }

  ghost predicate AllReady(gs: seq<Group>) {
    forall i :: 0 <= i < |gs| ==> Ready(gs[i])
  }

  /** The receive engine is memcpy: the TLPs of a frame, applied in order, store
      dword k of the frame at base + k and touch nothing else. */
  lemma {:induction false} FrameIsCopied(mem: Memory, ids: TlpIds, base: nat, gs: seq<Group>)
    requires AllReady(gs) && base + |FrameWords(gs)| <= 0x4000_0000
    ensures HostWrites(mem, FramePackets(ids, base, gs)) == Stored(mem, base, Swapped(FrameWords(gs)))
    decreases |gs|
  {
    hide HostWrite, Stored, Swapped, TlpFor, Ready;
    if gs == [] {
      EmptyStore(mem, base);
    } else {
      var pre, g := gs[..|gs| - 1], gs[|gs| - 1];
      var w := FrameWords(pre);
      FrameIsCopied(mem, ids, base, pre);
      var tlp := TlpFor(ids, base + |w|, Words(g));
      var pkts := FramePackets(ids, base, pre);
      assert (pkts + [tlp])[..|pkts|] == pkts;
      NonEmptyGroup(g);
      TlpStores(Stored(mem, base, Swapped(w)), ids, base + |w|, Words(g));
      SwappedConcat(w, Words(g));
      StoredConcat(mem, base, Swapped(w), Swapped(Words(g)));
    }
  }

  lemma EmptyStore(mem: Memory, base: nat)
    ensures Stored(mem, base, Swapped([])) == mem
  {}

  lemma NonEmptyGroup(g: Group)
    requires Ready(g)
    ensures 1 <= |Words(g)| <= MAX_WORDS
  {
    FirstDword(g);
  }
}
