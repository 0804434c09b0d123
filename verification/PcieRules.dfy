/** The receive engine's TLPs against the rules of the PCI Express Base
    Specification: byte enables (section 2.2.5) and 4 KB boundaries (section 2.2.7). */
module PcieRules {
  import opened PcieTypes
  import opened Streams
  import opened Transactions
  import opened RxDma

  /** The beats of a well-formed frame: all full but the last, which keeps a
      non-empty prefix. */
  ghost predicate PackedGroup(g: Group) {
    forall i :: 0 <= i < |g| ==> PackedBeat(g[i])
  }

  lemma {:induction false} FullBeats(g: Group, n: nat)
    requires n <= |g| && PackedGroup(g) && forall i :: 0 <= i < n ==> !g[i].last
    ensures |Words(g[..n])| == 4 * n
    decreases n
  {
    if n > 0 {
      FullBeats(g, n - 1);
      assert g[..n][..n - 1] == g[..n - 1];
      KeptAll(g[n - 1]);
    }
  }

  lemma LastKept(b: Beat)
    requires PackedBeat(b) && b.last
    ensures |Kept(b)| >= 1
  {
    KeptFirst(b);
  }

  /** The cutter's transactions of a well-formed frame: 32 dwords each, but for the
      last one, which has 1 to 32. */
  lemma GroupSize(g: Group)
    requires Closed(g) && PackedGroup(g)
    ensures if EndsFrame(g) then 1 <= |Words(g)| <= MAX_WORDS else |Words(g)| == MAX_WORDS
  {
    hide Words, Kept, KeepsPrefix;
    var n := |g| - 1;
    if EndsFrame(g) {
      WordsLast(g);
      LastKept(g[n]);
    } else {
      FullBeats(g, |g|);
      assert g[..|g|] == g;
    }
  }

  lemma {:induction false} FramePosition(ids: TlpIds, base: nat, gs: seq<Group>, i: nat)
    requires i < |gs| && forall k :: 0 <= k < |gs| - 1 ==> |Words(gs[k])| == MAX_WORDS
    ensures |FrameWords(gs[..i])| == MAX_WORDS * i
    ensures |FramePackets(ids, base, gs)| == |gs|
    ensures FramePackets(ids, base, gs)[i] == TlpFor(ids, base + MAX_WORDS * i, Words(gs[i]))
    decreases |gs|
  {
    hide TlpFor, Words;
    var n := |gs| - 1;
    var pre := gs[..n];
    if i < n {
      FramePosition(ids, base, pre, i);
      assert pre[..i] == gs[..i];
    } else {
      if n > 0 {
        FramePosition(ids, base, pre, n - 1);
        assert pre == pre[..n - 1] + [pre[n - 1]];
        FrameSnoc(ids, base, pre[..n - 1], pre[n - 1]);
      }
      assert gs[..i] == pre;
    }
  }

  /** The 4 KB page of a dword address. */
  function Page(at: nat): nat {
    at / 1024
  }

  /** A header's byte enables: the first is all ones, the last is zero iff there is
      one dword. */
  predicate EnablesOk(tlp: seq<Dword>)
    requires |tlp| > 3
  {
    && tlp[1] % 0x10 == 0xF
    && tlp[1] / 0x10 % 0x10 == if |tlp| == 4 then 0 else 0xF
  }

  /** The requester ID and the tag of a header. */
  predicate CarriesIds(tlp: seq<Dword>, ids: TlpIds)
    requires |tlp| > 3
  {
    tlp[1] / 0x1_0000 == ids.locId && tlp[1] / 0x100 % 0x100 == ids.tag
  }

  lemma TlpFields(ids: TlpIds, at: nat, payload: seq<Dword>)
    requires 1 <= |payload| <= MAX_WORDS
    ensures EnablesOk(TlpFor(ids, at, payload)) && CarriesIds(TlpFor(ids, at, payload), ids)
  {
    var be := if |payload| == 1 then 0x0F else 0xFF;
    EnableFields(ids.locId * 0x100 + ids.tag, be);
    assert TlpFor(ids, at, payload)[1] == 0x100 * (ids.locId * 0x100 + ids.tag) + be;
  }

  /** Every TLP of a well-formed frame: at most 32 dwords, legal byte enables, the
      engine's IDs and, from a 32-dword aligned buffer, no 4 KB boundary inside. */
  lemma FrameLegal(ids: TlpIds, base: nat, gs: seq<Group>, i: nat)
    requires WholeFrame(gs) && i < |gs|
    requires forall k :: 0 <= k < |gs| ==> Closed(gs[k]) && PackedGroup(gs[k])
    ensures |FramePackets(ids, base, gs)| == |gs|
    ensures var tlp, at := FramePackets(ids, base, gs)[i], base + MAX_WORDS * i;
            && tlp == TlpFor(ids, at, Words(gs[i])) && 4 <= |tlp| <= MAX_WORDS + 3
            && EnablesOk(tlp) && CarriesIds(tlp, ids)
            && (base % MAX_WORDS == 0 ==> Page(at) == Page(at + |tlp| - 4))
  {
    hide Words, Closed, PackedGroup, EnablesOk, CarriesIds, FramePackets;
    forall k | 0 <= k < |gs|
      ensures if k < |gs| - 1 then |Words(gs[k])| == MAX_WORDS else 1 <= |Words(gs[k])| <= MAX_WORDS
    {
      GroupSize(gs[k]);
    }
    FramePosition(ids, base, gs, i);
    TlpFields(ids, base + MAX_WORDS * i, Words(gs[i]));
    OnePage(base / MAX_WORDS + i, |Words(gs[i])|);
  }

  lemma OnePage(q: nat, n: nat)
    requires 1 <= n <= MAX_WORDS
    ensures Page(q * MAX_WORDS) == Page(q * MAX_WORDS + n - 1)
  {
    assert q * MAX_WORDS / 1024 == q / 32 && (q * MAX_WORDS + n - 1) / 1024 == q / 32;
  }
}
