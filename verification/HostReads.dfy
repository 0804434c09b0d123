/** What memory-read TLPs fetch from the host, and why the pieces of a
    descriptor fetch exactly the descriptor. */
module HostReads {
  import opened PcieTypes
  import opened Streams
  import opened TxRequester
  import opened Wrappers

  /** Host memory by dword address, fixed while it is being read. */
  type Memory = nat -> Dword

  /** The dwords of a run of addresses; the address register has 30 bits. */
  function Fetch(mem: Memory, q: Read): (r: seq<Dword>)
    ensures |r| == q.len
  {
    seq<Dword>(q.len, i requires 0 <= i < q.len => mem(Add30(q.addr, i)))
  }

  function FetchAll(mem: Memory, qs: seq<Read>): seq<Dword>
    decreases |qs|
  {
    if qs == [] then [] else FetchAll(mem, qs[..|qs| - 1]) + Fetch(mem, qs[|qs| - 1])
  }

  lemma FetchSnoc(mem: Memory, qs: seq<Read>, q: Read)
    ensures FetchAll(mem, qs + [q]) == FetchAll(mem, qs) + Fetch(mem, q)
  {
    assert (qs + [q])[..|qs|] == qs;
  }

  lemma FetchLast(mem: Memory, qs: seq<Read>)
    requires qs != []
    ensures FetchAll(mem, qs) == FetchAll(mem, qs[..|qs| - 1]) + Fetch(mem, qs[|qs| - 1])
  {}

  lemma {:induction false} FetchConcat(mem: Memory, a: seq<Read>, b: seq<Read>)
    ensures FetchAll(mem, a + b) == FetchAll(mem, a) + FetchAll(mem, b)
    decreases |b|
  {
    hide Fetch;
    if b == [] {
      assert a + b == a;
    } else {
      hide FetchAll;
      var b', z := b[..|b| - 1], b[|b| - 1];
      FetchConcat(mem, a, b');
      FetchSnoc(mem, a + b', z);
      FetchLast(mem, b);
      LastOff(a, b);
      Associate(FetchAll(mem, a), FetchAll(mem, b'), Fetch(mem, z));
    }
  }

  lemma AddTwice(a: nat, t: nat, i: nat)
    ensures Add30(Add30(a, t), i) == Add30(a, t + i)
  {}

  /** Cutting a run in two fetches the same dwords. */
  lemma FetchSplit(mem: Memory, q: Read)
    ensures Fetch(mem, q) == Fetch(mem, Piece(q)) + Fetch(mem, Rest(q))
  {
    hide Add30;
    forall i | 0 <= i < q.len ensures Fetch(mem, q)[i] == (Fetch(mem, Piece(q)) + Fetch(mem, Rest(q)))[i] {
      var t := Piece(q).len;
      if i >= t {
        AddTwice(q.addr, t, i - t);
      }
    }
  }

  /** The pieces cover [addr, addr + len) once, in order, whatever is in memory. */
  lemma {:induction false} PiecesPartition(mem: Memory, q: Read)
    ensures FetchAll(mem, Pieces(q)) == Fetch(mem, q)
    decreases q.len
  {
    hide Fetch;
    if q.len > 0 {
      FetchConcat(mem, [Piece(q)], Pieces(Rest(q)));
      FetchSnoc(mem, [], Piece(q));
      assert [] + [Piece(q)] == [Piece(q)];
      PiecesPartition(mem, Rest(q));
      FetchSplit(mem, q);
    }
  }

  lemma {:induction false} AllPiecesPartition(mem: Memory, jobs: seq<Read>)
    ensures FetchAll(mem, AllPieces(jobs)) == FetchAll(mem, jobs)
    decreases |jobs|
  {
    hide Fetch, Pieces;
    if jobs != [] {
      var pre, q := jobs[..|jobs| - 1], jobs[|jobs| - 1];
      AllPiecesPartition(mem, pre);
      PiecesPartition(mem, q);
      FetchConcat(mem, AllPieces(pre), Pieces(q));
    }
  }

  predicate SamePage(q: Read) {
    q.len > 0 && q.addr / 1024 == (q.addr + q.len - 1) / 1024
  }

  /** An aligned piece stays in its page, and the rest is aligned again. */
  lemma AlignedPiece(q: Read)
    requires q.addr % MAX_READ == 0 && q.len > 0
    ensures SamePage(Piece(q))
    ensures Rest(q).len > 0 ==> Rest(q).addr % MAX_READ == 0
  {
    var k, n := q.addr / MAX_READ, Piece(q).len;
    assert q.addr == MAX_READ * k && q.addr / 1024 == k / 4 && (q.addr + n - 1) / 1024 == k / 4;
  }

  /** Every read asks for 1 to 256 dwords; only the last is short; from a
      256-dword aligned base none crosses a 4 KB boundary (section 2.2.7 of the
      PCI Express Base Specification). */
  lemma {:induction false} PiecesLegal(q: Read)
    ensures forall i :: 0 <= i < |Pieces(q)| - 1 ==> Pieces(q)[i].len == MAX_READ
    ensures q.len > 0 ==> |Pieces(q)| > 0 && 1 <= Pieces(q)[|Pieces(q)| - 1].len <= MAX_READ
    ensures q.addr % MAX_READ == 0 ==> forall i :: 0 <= i < |Pieces(q)| ==> SamePage(Pieces(q)[i])
    decreases q.len
  {
    hide SamePage, Add30;
    if q.len > 0 {
      PiecesLegal(Rest(q));
      if q.addr % MAX_READ == 0 {
        AlignedPiece(q);
        if Rest(q).len == 0 {
          assert Pieces(Rest(q)) == [];
        }
      }
      assert Pieces(q) == [Piece(q)] + Pieces(Rest(q));
    }
  }

  /** The read that a TLP's header dwords ask for; length field 0 stands for 1024
      dwords (section 2.2.1 of the PCI Express Base Specification). */
  function Asked(tlp: Beat): Read {
    Read(tlp.data.w2 / 4, if tlp.data.w0 % 0x400 == 0 then 0x400 else tlp.data.w0 % 0x400)
  }

  /** A read TLP asks for what it is meant to ask exactly if that is at least one
      dword. */
  lemma ReadTlpDecodes(ids: TlpIds, q: Read)
    requires q.len < 0x200
    ensures Asked(ReadTlp(ids, q)) == q <==> q.len > 0
    ensures q.len == 0 ==> Asked(ReadTlp(ids, q)) == Read(q.addr, 0x400)
  {
    var tlp := ReadTlp(ids, q);
    assert tlp.data.w2 / 4 == q.addr && tlp.data.w0 == q.len;
  }

  /** IDs and byte enables of a read TLP: the last enables are zero iff the read is
      one dword long (section 2.2.5 of the PCI Express Base Specification). */
  lemma ReadTlpEnables(ids: TlpIds, q: Read)
    requires q.len < 0x200
    ensures var w := ReadTlp(ids, q).data.w1;
            && w % 0x10 == 0xF && w / 0x10 % 0x10 == (if q.len == 1 then 0 else 0xF)
            && w / 0x1_0000 == ids.locId && w / 0x100 % 0x100 == ids.tag
  {
    EnableFields(ids.locId * 0x100 + ids.tag, if q.len == 1 then 0x0F else 0xFF);
  }

  /** What the host owes for the read TLPs it has accepted. */
  function Served(mem: Memory, sent: seq<Beat>): seq<Dword>
    decreases |sent|
  {
    if sent == [] then [] else Served(mem, sent[..|sent| - 1]) + Fetch(mem, Asked(sent[|sent| - 1]))
  }

  lemma {:induction false} ServedIsFetched(mem: Memory, ids: TlpIds, issued: seq<Read>)
    requires forall i :: 0 <= i < |issued| ==> 1 <= issued[i].len <= MAX_READ
    ensures Served(mem, Tlps(ids, issued)) == FetchAll(mem, issued)
    decreases |issued|
  {
    hide Fetch, ReadTlp, Asked;
    if issued != [] {
      var pre := issued[..|issued| - 1];
      assert Tlps(ids, issued)[..|issued| - 1] == Tlps(ids, pre);
      ServedIsFetched(mem, ids, pre);
      ReadTlpDecodes(ids, issued[|issued| - 1]);
    }
  }

  /** Once a descriptor has been served, its reads have all gone out. */
  lemma AllRequested(ids: TlpIds, r: Reg, h: Hist, out: seq<Beat>)
    requires Agree(ids, r, h, out) && !Busy(r)
    ensures h.issued == AllPieces(h.jobs)
  {
    assert Pieces(Read(r.newAddr, r.reqLength)) == [];
  }
}
