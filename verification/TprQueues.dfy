/** The shared queues of the tpr kernel driver: one ring of events, one ring of
    BSA messages, and for each channel a ring of indices into the event ring. */
module TprQueues {
  import opened Bits
  import opened TprTypes

  const ALLQ: nat := 32768     // MAX_TPR_ALLQ
  const BSAQ: nat := 1024      // MAX_TPR_BSAQ
  const EVENT_WORDS: nat := 23 // EVENT_MSGSZ / 4
  const BSA_WORDS: nat := 11   // BSACNTL_MSGSZ / 4 and BSAEVNT_MSGSZ / 4
  const ENTRY_WORDS: nat := 32 // MSG_SIZE

  /** The words of one message, tag word first. */
  type Message = seq<Word>

  datatype Entry = Entry(word: seq<Word>, tsc: int)

  /** An event is addressed to the channels whose bits are set in its first word. */
  ghost predicate Addressed(event: Message, c: nat) {
    event != [] && c < CHANNELS && HasBit(event[0], c)
  }

  /** The low bits of an event's first word, as the driver masks them out. */
  function ChannelBits(event: Message): nat {
    if event == [] then 0 else event[0] % Pow2(CHANNELS)
  }

  lemma ChannelBit(event: Message, c: nat)
    ensures Bit(ChannelBits(event), c) <==> Addressed(event, c)
  {
    hide Bit, HasBit;
    if event == [] {
      NoBit(c);
    } else {
      LowBits(event[0], CHANNELS, c);
      BitExact(event[0], c);
    }
  }

  /** The numbers of the events addressed to channel c, oldest first. */
  ghost function Filter(events: seq<Message>, c: nat): seq<nat>
    decreases |events|
  {
    if events == [] then []
    else
      var n := |events| - 1;
      Filter(events[..n], c) + (if Addressed(events[n], c) then [n] else [])
  }

  lemma FilterSnoc(events: seq<Message>, e: Message, c: nat)
    ensures Filter(events + [e], c) == if Addressed(e, c) then Filter(events, c) + [|events|] else Filter(events, c)
  {
    assert (events + [e])[..|events|] == events;
  }

  /** Slot k mod n holds item k, for each of the last n items. */
  ghost predicate IndexRing(ring: seq<int>, items: seq<int>, n: nat) {
    && 0 < n == |ring|
    && forall k: nat :: |items| - n <= k < |items| ==> ring[k % n] == items[k]
  }

  ghost predicate EntryRing(ring: seq<Entry>, items: seq<Message>, n: nat) {
    && 0 < n == |ring|
    && (forall i :: 0 <= i < n ==> |ring[i].word| == ENTRY_WORDS)
    && forall k: nat :: |items| - n <= k < |items| ==>
         |items[k]| <= ENTRY_WORDS && ring[k % n].word[..|items[k]|] == items[k]
  }

  lemma Multiple(n: nat, d: int)
    ensures d >= 1 ==> n * d >= n
    ensures d <= 0 ==> n * d <= 0
  {
    if d >= 1 {
      assert n * d == n + n * (d - 1);
    }
  }

  /** A new item reuses only the slot of the item n places before it. */
  lemma OtherSlot(n: nat, len: nat, k: nat)
    requires 0 < n && len - n < k < len
    ensures k % n != len % n
  {
    var q, p, r, s := len / n, k / n, len % n, k % n;
    assert len == n * q + r && k == n * p + s;
    if r == s {
      assert len - k == n * (q - p) by {
        assert n * q - n * p == n * (q - p);
      }
      Multiple(n, q - p);
    }
  }

  lemma PushIndex(ring: seq<int>, items: seq<int>, n: nat, x: int)
    requires IndexRing(ring, items, n)
    ensures IndexRing(ring[|items| % n := x], items + [x], n)
  {
    forall k: nat | |items| + 1 - n <= k < |items| + 1
      ensures ring[|items| % n := x][k % n] == (items + [x])[k]
    {
      if k < |items| {
        OtherSlot(n, |items|, k);
      }
    }
  }

  lemma PushEntry(ring: seq<Entry>, items: seq<Message>, n: nat, x: Message, e: Entry)
    requires EntryRing(ring, items, n)
    requires |x| <= ENTRY_WORDS == |e.word| && e.word[..|x|] == x
    ensures EntryRing(ring[|items| % n := e], items + [x], n)
  {
    var after := ring[|items| % n := e];
    forall k: nat | |items| + 1 - n <= k < |items| + 1
      ensures |(items + [x])[k]| <= ENTRY_WORDS && after[k % n].word[..|(items + [x])[k]|] == (items + [x])[k]
    {
      if k < |items| {
        OtherSlot(n, |items|, k);
      }
    }
  }

  /** Channel c's ring and write pointer agree with its filtered event list. */
  ghost predicate ChannelOk(ring: seq<int>, wp: int, items: seq<nat>) {
    wp == |items| && IndexRing(ring, items, ALLQ)
  }

  lemma PushChannel(ring: seq<int>, wp: int, items: seq<nat>, x: nat)
    requires ChannelOk(ring, wp, items)
    ensures wp >= 0 && |ring| == ALLQ
    ensures ChannelOk(ring[wp % ALLQ := x], wp + 1, items + [x])
  {
    PushIndex(ring, items, ALLQ, x);
  }

  /** Before the pass for bit i: the lower bits have been cleared. */
  predicate TakenBelow(low: nat, mch: nat, i: nat) {
    mch == Pow2(i) * (low / Pow2(i))
  }

  lemma AllBitsLeft(event: Message)
    ensures TakenBelow(ChannelBits(event), ChannelBits(event), 0)
  {
    hide ChannelBits;
  }

  /** One pass: the bit decides, and is cleared. */
  lemma PassBit(event: Message, mch: nat, i: nat)
    requires TakenBelow(ChannelBits(event), mch, i) && mch != 0
    ensures i < CHANNELS && (Bit(mch, i) <==> Addressed(event, i))
    ensures Bit(mch, i) ==> mch >= Pow2(i)
    ensures TakenBelow(ChannelBits(event), if Bit(mch, i) then mch - Pow2(i) else mch, i + 1)
  {
    hide Bit, Pow2, Addressed, ChannelBits;
    if i >= CHANNELS {
      FewBits(event, i);
    }
    TakeBit(ChannelBits(event), mch, i);
    ChannelBit(event, i);
    AtLeast(mch, i);
  }

  lemma FewBits(event: Message, i: nat)
    requires CHANNELS <= i
    ensures ChannelBits(event) / Pow2(i) == 0
  {
    hide Pow2;
    PowGrows(CHANNELS, i);
    if event != [] {
      LowBits(event[0], CHANNELS, 0);
    }
    DivModUnique(ChannelBits(event), Pow2(i), 0, ChannelBits(event));
  }

  lemma AtLeast(m: nat, i: nat)
    ensures Bit(m, i) ==> m >= Pow2(i)
  {
    hide Pow2;
    if m < Pow2(i) {
      DivModUnique(m, Pow2(i), 0, m);
    }
  }

  lemma NoChannelLeft(event: Message, i: nat, c: nat)
    requires TakenBelow(ChannelBits(event), 0, i) && i <= c
    ensures !Addressed(event, c)
  {
    hide Bit, Pow2, Addressed;
    NoneLeft(ChannelBits(event), i, c);
    ChannelBit(event, c);
  }

  class Queues {
    const allq: array<Entry>
    const bsaq: array<Entry>
    const allrp: seq<array<int>>
    const allwp: array<int>
    var bsawp: nat
    var gwp: nat
    var fifofull: int
    ghost var events: seq<Message>  // all events published so far
    ghost var bsas: seq<Message>    // all BSA messages published so far

    ghost function Repr(): set<object> {
      {this, allq, bsaq, allwp} + set a | a in allrp
    }

    /** Distinct arrays of the right sizes. */
    ghost predicate Shape() {
      && allq != bsaq && allq.Length == ALLQ && bsaq.Length == BSAQ && allwp.Length == CHANNELS == |allrp|
      && (forall c :: 0 <= c < CHANNELS ==> allrp[c].Length == ALLQ && allrp[c] != allwp)
      && (forall c, d :: 0 <= d < c < CHANNELS ==> allrp[c] != allrp[d])
    }

    /** The rings are what filtering the message log gives. */
    ghost predicate Valid()
      reads this, Repr()
    {
      && Shape()
      && gwp == |events| && EntryRing(allq[..], events, ALLQ)
      && bsawp == |bsas| && EntryRing(bsaq[..], bsas, BSAQ)
      && forall c :: 0 <= c < CHANNELS ==> ChannelOk(allrp[c][..], allwp[c], Filter(events, c))
    }

    constructor ()
      ensures Valid() && events == [] && bsas == [] && fresh(Repr())
    {
      var blank := Entry(seq(ENTRY_WORDS, _ => 0), 0);
      var all, bsa := new Entry[ALLQ](_ => blank), new Entry[BSAQ](_ => blank);
      var wp := new int[CHANNELS](_ => 0);
      var rings: seq<array<int>> := [];
      while |rings| < CHANNELS
        invariant |rings| <= CHANNELS
        invariant forall c :: 0 <= c < |rings| ==> fresh(rings[c]) && rings[c].Length == ALLQ && rings[c] != wp
        invariant forall c, d :: 0 <= d < c < |rings| ==> rings[c] != rings[d]
        invariant forall i :: 0 <= i < ALLQ ==> all[i] == blank
        invariant forall i :: 0 <= i < BSAQ ==> bsa[i] == blank
        invariant forall c :: 0 <= c < CHANNELS ==> wp[c] == 0
      {
        var ring := new int[ALLQ](_ => 0);
        rings := rings + [ring];
      }
      allq, bsaq, allrp, allwp := all, bsa, rings, wp;
      bsawp, gwp, fifofull := 0, 0, 0xabadcafe;
      events, bsas := [], [];
    }

    /** One pass of the channel loop: event number gwp goes into ring `ich`. */
    method Index(ich: nat)
      requires Shape() && ich < CHANNELS && allwp[ich] >= 0
      modifies allrp[ich], allwp
      ensures allrp[ich][..] == old(allrp[ich][..])[old(allwp[ich]) % ALLQ := gwp]
      ensures allwp[..] == old(allwp[..])[ich := old(allwp[ich]) + 1]
    {
      var ring := allrp[ich];
      ring[allwp[ich] % ALLQ] := gwp;
      allwp[ich] := allwp[ich] + 1;
    }

    /** The channel loop: the bits of the first word are taken off one by one until
        none is left; event number gwp goes into the ring of every channel whose bit is
        set, and into no other. */
    method IndexEvent(dptr: Message)
      requires Shape() && forall c :: 0 <= c < CHANNELS ==> allwp[c] >= 0
      modifies allwp, set a | a in allrp
      ensures forall c: nat :: c < CHANNELS && Addressed(dptr, c) ==>
                && allwp[c] == old(allwp[c]) + 1
                && allrp[c][..] == old(allrp[c][..])[old(allwp[c]) % ALLQ := gwp]
      ensures forall c: nat :: c < CHANNELS && !Addressed(dptr, c) ==>
                allwp[c] == old(allwp[c]) && allrp[c][..] == old(allrp[c][..])
    {
      hide Addressed, Bit, Pow2, ChannelBits, TakenBelow;
      var mch: nat := ChannelBits(dptr);
      var ich := 0;
      AllBitsLeft(dptr);
      while mch != 0
        invariant ich <= CHANNELS && TakenBelow(ChannelBits(dptr), mch, ich)
        invariant forall c: nat :: c < ich && Addressed(dptr, c) ==>
                    && allwp[c] == old(allwp[c]) + 1
                    && allrp[c][..] == old(allrp[c][..])[old(allwp[c]) % ALLQ := gwp]
        invariant forall c: nat :: c < CHANNELS && (c >= ich || !Addressed(dptr, c)) ==>
                    allwp[c] == old(allwp[c]) && allrp[c][..] == old(allrp[c][..])
        decreases CHANNELS - ich
      {
        PassBit(dptr, mch, ich);
        if Bit(mch, ich) {
          mch := mch - Pow2(ich);
          Index(ich);
        }
        ich := ich + 1;
      }
      forall c: nat | ich <= c < CHANNELS ensures !Addressed(dptr, c) {
        NoChannelLeft(dptr, ich, c);
      }
    }

    /** EVENT_TAG: store the event once and index it for every channel named. */
    method PublishEvent(dptr: Message, tsc: int)
      requires Valid() && |dptr| == EVENT_WORDS
      modifies this`gwp, this`events, allq, allwp, set a | a in allrp
      ensures Valid() && events == old(events) + [dptr]
    {
      var entry := allq[gwp % ALLQ];
      allq[gwp % ALLQ] := Entry(dptr + entry.word[EVENT_WORDS..], tsc);
      PushEntry(old(allq[..]), events, ALLQ, dptr, allq[gwp % ALLQ]);
      assert allq[..] == old(allq[..])[gwp % ALLQ := allq[gwp % ALLQ]];
      IndexEvent(dptr);
      forall c | 0 <= c < CHANNELS ensures ChannelOk(allrp[c][..], allwp[c], Filter(events + [dptr], c)) {
        FilterSnoc(events, dptr, c);
        PushChannel(old(allrp[c][..]), old(allwp[c]), Filter(events, c), gwp);
      }
      gwp := gwp + 1;
      events := events + [dptr];
    }

    /** BSACNTL_TAG and BSAEVNT_TAG. */
    method PublishBsa(dptr: Message, tsc: int)
      requires Valid() && |dptr| == BSA_WORDS
      modifies this`bsawp, this`bsas, bsaq
      ensures Valid() && bsas == old(bsas) + [dptr]
    {
      var entry := bsaq[bsawp % BSAQ];
      bsaq[bsawp % BSAQ] := Entry(dptr + entry.word[BSA_WORDS..], tsc);
      PushEntry(old(bsaq[..]), bsas, BSAQ, dptr, bsaq[bsawp % BSAQ]);
      bsawp := bsawp + 1;
      bsas := bsas + [dptr];
    }
  }

  // ---- What readers rely on ----

  /** A channel's list is strictly increasing, names only events addressed to the
      channel, and names all of them. */
  lemma {:induction false} FilterSorted(events: seq<Message>, c: nat)
    ensures forall i, j :: 0 <= i < j < |Filter(events, c)| ==> Filter(events, c)[i] < Filter(events, c)[j]
    ensures forall i :: 0 <= i < |Filter(events, c)| ==>
              Filter(events, c)[i] < |events| && Addressed(events[Filter(events, c)[i]], c)
    ensures forall g :: 0 <= g < |events| && Addressed(events[g], c) ==> g in Filter(events, c)
    decreases |events|
  {
    hide Addressed;
    if events != [] {
      var n := |events| - 1;
      var pre, f := Filter(events[..n], c), Filter(events, c);
      FilterSorted(events[..n], c);
      forall i | 0 <= i < |f| ensures f[i] < |events| && Addressed(events[f[i]], c) {
        if i < |pre| {
          assert f[i] == pre[i] && events[pre[i]] == events[..n][pre[i]];
        }
      }
      forall g | 0 <= g < |events| && Addressed(events[g], c) ensures g in f {
        if g < n {
          assert events[..n][g] == events[g] && g in pre;
        }
      }
    }
  }

  /** The last items of an increasing list lie close to its bound. */
  lemma {:induction false} IncreasingGap(f: seq<nat>, i: nat, bound: nat)
    requires i < |f| && f[|f| - 1] < bound
    requires forall i, j :: 0 <= i < j < |f| ==> f[i] < f[j]
    ensures f[i] + (|f| - i) <= bound
    decreases |f| - i
  {
    if i < |f| - 1 {
      IncreasingGap(f, i + 1, bound);
    }
  }

  /** Demultiplexing is filtering: the k-th index of channel c, while it is among
      the channel's last 32768, is the number of the k-th event addressed to c,
      and if that event is among the last 32768 its slot still holds it. */
  lemma ReaderSees(q: Queues, c: nat, k: nat)
    requires q.Valid() && c < CHANNELS && q.allwp[c] - ALLQ <= k < q.allwp[c]
    ensures var f := Filter(q.events, c);
            var g := q.allrp[c][k % ALLQ];
            && k < |f| == q.allwp[c] && g == f[k] && 0 <= g < q.gwp && Addressed(q.events[g], c)
            && (q.gwp - ALLQ <= g ==> q.allq[g % ALLQ].word[..|q.events[g]|] == q.events[g])
  {
    FilterSorted(q.events, c);
    assert q.allrp[c][..][k % ALLQ] == Filter(q.events, c)[k];
    var g := Filter(q.events, c)[k];
    if q.gwp - ALLQ <= g {
      assert q.allq[..][g % ALLQ] == q.allq[g % ALLQ];
    }
  }

  /** Index coverage: an event still held in allq has not left the index ring of
      any channel it was addressed to. */
  lemma IndexCoverage(q: Queues, c: nat, g: nat) returns (k: nat)
    requires q.Valid() && c < CHANNELS && q.gwp - ALLQ <= g < q.gwp && Addressed(q.events[g], c)
    ensures q.allwp[c] - ALLQ <= k < q.allwp[c] && q.allrp[c][k % ALLQ] == g
  {
    var f := Filter(q.events, c);
    FilterSorted(q.events, c);
    assert g in f;
    k :| 0 <= k < |f| && f[k] == g;
    IncreasingGap(f, k, |q.events|);
    assert q.allrp[c][..][k % ALLQ] == f[k];
  }
}
