/** The bottom half of the tpr driver: DMA buffers travel round a fixed ring
    between hardware and driver, and their messages go to the shared queues. */
module TprDma {
  import opened Bits
  import opened TprQueues
  import opened TprTypes
  import opened Wrappers

  const EVENT_TAG: nat := 0
  const BSACNTL_TAG: nat := 1
  const BSAEVNT_TAG: nat := 2
  const END_TAG: nat := 15
  const BUF_WORDS: nat := 1024  // BUF_SIZE / 4

  function Tag(w: Word): nat {
    w / 0x1_0000 % 0x10
  }

  /** The size field of an event announces exactly EVENT_MSGSZ bytes. */
  predicate EventSized(w: Word) {
    (4 * w + 8) % 0x1_0000_0000 == 4 * EVENT_WORDS
  }

  const END_WORD: Word := 15 * 0x1_0000  // END_TAG << 16

  /** A first word with tag `tag` and any other bits. */
  ghost predicate Carries(w: Word, tag: nat) {
    tag < 0x10 && exists high: nat, low: nat :: low < 0x1_0000 && w == FirstWord(high, tag, low)
  }

  function FirstWord(high: nat, tag: nat, low: nat): nat {
    0x10_0000 * high + 0x1_0000 * tag + low
  }

  lemma TagExact(w: Word, tag: nat)
    ensures Carries(w, tag) <==> tag == Tag(w)
  {
    var q := w / 0x1_0000;
    assert w == FirstWord(q / 0x10, Tag(w), w % 0x1_0000);
    if Carries(w, tag) {
      var high: nat, low: nat :| low < 0x1_0000 && w == FirstWord(high, tag, low);
      DivModUnique(w, 0x1_0000, 0x10 * high + tag, low);
    }
  }

  /** The size check multiplies in 32 bits: besides 21, the number of words after the
      first two, three larger sizes pass it. */
  lemma EventSizedExact(w: Word)
    ensures EventSized(w) <==> w == 21 || w == 0x4000_0015 || w == 0x8000_0015 || w == 0xC000_0015
  {
    var k := (4 * w + 8) / 0x1_0000_0000;
    assert 4 * w + 8 == 0x1_0000_0000 * k + (4 * w + 8) % 0x1_0000_0000;
  }

  datatype Item = EventItem(msg: Message) | BsaItem(msg: Message)

  /** The messages packed into a buffer from word `at` on, up to the end tag, an
      unknown tag or an event of the wrong size. */
  function Parse(buf: seq<Word>, at: nat): seq<Item>
    decreases |buf| - at
  {
    if at >= |buf| then []
    else if Tag(buf[at]) == BSACNTL_TAG || Tag(buf[at]) == BSAEVNT_TAG then
      if at + BSA_WORDS > |buf| then []
      else [BsaItem(buf[at..at + BSA_WORDS])] + Parse(buf, at + BSA_WORDS)
    else if Tag(buf[at]) == EVENT_TAG then
      if at + EVENT_WORDS > |buf| || !EventSized(buf[at + 1]) then []
      else [EventItem(buf[at..at + EVENT_WORDS])] + Parse(buf, at + EVENT_WORDS)
    else []
  }

  /** The hardware closes every buffer, so the walk stays inside it. */
  predicate Bounded(buf: seq<Word>, at: nat)
    decreases |buf| - at
  {
    && at + 1 < |buf|
    && (Tag(buf[at]) == BSACNTL_TAG || Tag(buf[at]) == BSAEVNT_TAG ==>
          at + BSA_WORDS < |buf| && Bounded(buf, at + BSA_WORDS))
    && (Tag(buf[at]) == EVENT_TAG && EventSized(buf[at + 1]) ==>
          at + EVENT_WORDS < |buf| && Bounded(buf, at + EVENT_WORDS))
  }

  /** A message as the firmware packs it. */
  ghost predicate Proper(x: Item) {
    match x
    case EventItem(m) => |m| == EVENT_WORDS && Carries(m[0], EVENT_TAG) && m[1] == 21
    case BsaItem(m) => |m| == BSA_WORDS && (Carries(m[0], BSACNTL_TAG) || Carries(m[0], BSAEVNT_TAG))
  }

  function Packed(items: seq<Item>): seq<Word> {
    if items == [] then [] else items[0].msg + Packed(items[1..])
  }

  /** The buffer has these messages from word `at` on, then a word with the end tag and
      at least one word more. */
  ghost predicate Holds(buf: seq<Word>, at: nat, items: seq<Item>) {
    var n := |Packed(items)|;
    at + n + 1 < |buf| && buf[at..at + n] == Packed(items) && Carries(buf[at + n], END_TAG)
  }

  lemma NextHolds(buf: seq<Word>, at: nat, items: seq<Item>)
    requires items != [] && Holds(buf, at, items)
    ensures var n := |items[0].msg|;
            at + n + 1 < |buf| && buf[at..at + n] == items[0].msg && Holds(buf, at + n, items[1..])
  {
    hide Carries;
    var m, rest := items[0].msg, Packed(items[1..]);
    var part := buf[at..at + |m| + |rest|];
    assert part == m + rest;
    assert part[..|m|] == m && part[|m|..] == rest;
    assert buf[at..at + |m|] == part[..|m|] && buf[at + |m|..at + |m| + |rest|] == part[|m|..];
  }

  /** Walking over a buffer of well-formed messages finds them, one after the other,
      and stays inside it. */
  lemma {:induction false} ParsePacked(buf: seq<Word>, at: nat, items: seq<Item>)
    requires Holds(buf, at, items) && forall k :: 0 <= k < |items| ==> Proper(items[k])
    ensures Parse(buf, at) == items && Bounded(buf, at)
    decreases |items|
  {
    hide Carries, Tag, EventSized;
    if items == [] {
      TagExact(buf[at], END_TAG);
    } else {
      var x := items[0];
      var n := |x.msg|;
      NextHolds(buf, at, items);
      assert Proper(x);
      FirstWords(buf, at, x.msg);
      ParsePacked(buf, at + n, items[1..]);
      match x {
        case EventItem(m) =>
          TagExact(m[0], EVENT_TAG);
          EventSizedExact(m[1]);
        case BsaItem(m) =>
          TagExact(m[0], BSACNTL_TAG);
          TagExact(m[0], BSAEVNT_TAG);
      }
      assert items == [x] + items[1..];
    }
  }

  /** A buffer as the hardware leaves it: these messages, and the done bit set in the
      first word. */
  ghost predicate Filled(fill: seq<Word>, items: seq<Item>) {
    && |fill| == BUF_WORDS && fill[0] >= 0x8000_0000
    && Holds(fill[0 := fill[0] - 0x8000_0000], 0, items)
    && forall k :: 0 <= k < |items| ==> Proper(items[k])
  }

  /** Such a buffer is one that the driver relies on, and its messages are found. */
  lemma FilledIsGood(fill: seq<Word>, items: seq<Item>)
    requires Filled(fill, items)
    ensures GoodFill(fill) && Parse(Cleared(fill), 0) == items
  {
    hide Bit, Holds, Proper, Parse, Bounded;
    Bit31(fill[0]);
    assert Cleared(fill) == fill[0 := fill[0] - 0x8000_0000];
    ParsePacked(Cleared(fill), 0, items);
  }

  lemma FirstWords(buf: seq<Word>, at: nat, m: seq<Word>)
    requires |m| >= 2 && at + |m| <= |buf| && buf[at..at + |m|] == m
    ensures buf[at] == m[0] && buf[at + 1] == m[1]
  {
    assert buf[at] == buf[at..at + |m|][0] && buf[at + 1] == buf[at..at + |m|][1];
  }

  function Events(items: seq<Item>): seq<Message> {
    if items == [] then []
    else (match items[0] case EventItem(m) => [m] case BsaItem(_) => []) + Events(items[1..])
  }

  function Bsas(items: seq<Item>): seq<Message> {
    if items == [] then []
    else (match items[0] case BsaItem(m) => [m] case EventItem(_) => []) + Bsas(items[1..])
  }

  /** The message is for the clients whose wmask bit is l. */
  ghost predicate Concerns(x: Item, l: nat) {
    match x
    case EventItem(m) => Addressed(m, l)
    case BsaItem(_) => l == BSA_BIT
  }

  ghost predicate Wanted(items: seq<Item>, l: nat) {
    exists k :: 0 <= k < |items| && Concerns(items[k], l)
  }

  /** wmask has grown by exactly the bits of these messages. */
  ghost predicate Marks(mask: nat, items: seq<Item>, wmask: nat) {
    forall l: nat :: HasBit(wmask, l) <==> HasBit(mask, l) || Wanted(items, l)
  }

  lemma FirstItem(items: seq<Item>)
    requires items != []
    ensures Events(items) == (if items[0].EventItem? then [items[0].msg] else []) + Events(items[1..])
    ensures Bsas(items) == (if items[0].BsaItem? then [items[0].msg] else []) + Bsas(items[1..])
  {}

  lemma {:induction false} EventsConcat(a: seq<Item>, b: seq<Item>)
    ensures Events(a + b) == Events(a) + Events(b)
  {
    if a == [] {
      assert a + b == b;
    } else {
      hide Events, Bsas;
      assert (a + b)[1..] == a[1..] + b;
      EventsConcat(a[1..], b);
      FirstItem(a);
      FirstItem(a + b);
      Associate(if a[0].EventItem? then [a[0].msg] else [], Events(a[1..]), Events(b));
    }
  }

  lemma {:induction false} BsasConcat(a: seq<Item>, b: seq<Item>)
    ensures Bsas(a + b) == Bsas(a) + Bsas(b)
  {
    if a == [] {
      assert a + b == b;
    } else {
      hide Events, Bsas;
      assert (a + b)[1..] == a[1..] + b;
      BsasConcat(a[1..], b);
      FirstItem(a);
      FirstItem(a + b);
      Associate(if a[0].BsaItem? then [a[0].msg] else [], Bsas(a[1..]), Bsas(b));
    }
  }

  lemma ItemsConcat(a: seq<Item>, b: seq<Item>)
    ensures Events(a + b) == Events(a) + Events(b)
    ensures Bsas(a + b) == Bsas(a) + Bsas(b)
  {
    hide Events, Bsas;
    EventsConcat(a, b);
    BsasConcat(a, b);
  }

  lemma WantedConcat(a: seq<Item>, b: seq<Item>, l: nat)
    ensures Wanted(a + b, l) <==> Wanted(a, l) || Wanted(b, l)
  {
    hide Concerns;
    var c := a + b;
    if Wanted(a, l) {
      var k :| 0 <= k < |a| && Concerns(a[k], l);
      assert Concerns(c[k], l);
    }
    if Wanted(b, l) {
      var k :| 0 <= k < |b| && Concerns(b[k], l);
      assert Concerns(c[|a| + k], l);
    }
  }

  lemma MarksConcat(mask: nat, a: seq<Item>, w: nat, b: seq<Item>, wmask: nat)
    requires Marks(mask, a, w) && Marks(w, b, wmask)
    ensures Marks(mask, a + b, wmask)
  {
    hide HasBit, Wanted;
    forall l: nat ensures HasBit(wmask, l) <==> HasBit(mask, l) || Wanted(a + b, l) {
      WantedConcat(a, b, l);
    }
  }

  lemma NoItems(mask: nat)
    ensures Events([]) == [] && Bsas([]) == [] && Marks(mask, [], mask)
  {
    hide HasBit;
  }

  lemma OneItem(x: Item)
    ensures Events([x]) == (match x case EventItem(m) => [m] case BsaItem(_) => [])
    ensures Bsas([x]) == (match x case BsaItem(m) => [m] case EventItem(_) => [])
  {}

  /** Or-ing in an event's channel bits, or the BSA bit, marks its clients. */
  lemma OneMarked(mask: nat, x: Item)
    ensures Marks(mask, [x], Or(mask, match x case EventItem(m) => ChannelBits(m) case BsaItem(_) => Pow2(BSA_BIT)))
  {
    hide Bit, HasBit, Or, Pow2, ChannelBits, Addressed;
    var bits := match x case EventItem(m) => ChannelBits(m) case BsaItem(_) => Pow2(BSA_BIT);
    forall l: nat ensures HasBit(Or(mask, bits), l) <==> HasBit(mask, l) || Wanted([x], l) {
      assert Wanted([x], l) <==> Concerns([x][0], l);
      OrBit(mask, bits, l);
      BitExact(Or(mask, bits), l);
      BitExact(mask, l);
      match x {
        case EventItem(m) => ChannelBit(m, l);
        case BsaItem(_) => OneBit(BSA_BIT, l);
      }
    }
  }

  lemma EndWord()
    ensures Tag(END_WORD) == END_TAG
  {}

  /** The message at `dptr`, if there is a good one. */
  function First(words: seq<Word>, dptr: nat): seq<Item> {
    if |Parse(words, dptr)| == 0 then [] else Parse(words, dptr)[..1]
  }

  /** One pass of the message loop. A message it cannot take ends the buffer. */
  method HandleMessage(buf: array<Word>, dptr: nat, q: Queues, mask: nat) returns (next: nat, wmask: nat)
    requires q.Valid() && buf !in q.Repr() && Bounded(buf[..], dptr) && Tag(buf[dptr]) != END_TAG
    modifies buf, q`events, q`bsas, q`gwp, q`bsawp, q`fifofull, q.allq, q.bsaq, q.allwp, set a | a in q.allrp
    ensures q.Valid()
    ensures q.fifofull == if HasBit(old(buf[dptr]), 31) || HasBit(old(buf[dptr]), 23) then 1 else old(q.fifofull)
    ensures var words := old(buf[..]);
            var x := First(words, dptr);
            && q.events == old(q.events) + Events(x) && q.bsas == old(q.bsas) + Bsas(x) && Marks(mask, x, wmask)
            && (x == [] ==> next == dptr && buf[..] == words[dptr := END_WORD])
            && (x != [] ==> dptr < next < |words| && buf[..] == words && Bounded(words, next))
            && Parse(words, dptr) == x + (if x == [] then [] else Parse(words, next))
  {
    hide EventSized, Bit, HasBit, Events, Bsas, Marks, EntryRing, ChannelOk, Filter, Or, Pow2, ChannelBits;
    NoItems(mask);
    BitExact(buf[dptr], 31);
    BitExact(buf[dptr], 23);
    ghost var words := buf[..];
    var tsc: int := *;
    if Bit(buf[dptr], 31) || Bit(buf[dptr], 23) {
      q.fifofull := 1;
    }
    next, wmask := dptr, mask;
    var mtyp := Tag(buf[dptr]);
    if mtyp == BSACNTL_TAG || mtyp == BSAEVNT_TAG {
      wmask := Or(wmask, Pow2(BSA_BIT));
      var msg := buf[dptr..dptr + BSA_WORDS];
      q.PublishBsa(msg, tsc);
      next := dptr + BSA_WORDS;
      OneItem(BsaItem(msg));
      OneMarked(mask, BsaItem(msg));
      assert First(words, dptr) == [BsaItem(msg)];
    } else if mtyp == EVENT_TAG && EventSized(buf[dptr + 1]) {
      var msg := buf[dptr..dptr + EVENT_WORDS];
      q.PublishEvent(msg, tsc);
      wmask := Or(wmask, ChannelBits(msg));
      next := dptr + EVENT_WORDS;
      OneItem(EventItem(msg));
      OneMarked(mask, EventItem(msg));
      assert First(words, dptr) == [EventItem(msg)];
    } else {
      buf[dptr] := END_WORD;
      assert First(words, dptr) == [];
    }
  }

  lemma Accounts(events: seq<Message>, bsas: seq<Message>, done: seq<Item>, x: seq<Item>)
    ensures events + Events(done) + Events(x) == events + Events(done + x)
    ensures bsas + Bsas(done) + Bsas(x) == bsas + Bsas(done + x)
  {
    hide Events, Bsas;
    ItemsConcat(done, x);
    Associate(events, Events(done), Events(x));
    Associate(bsas, Bsas(done), Bsas(x));
  }

  /** The driver's walk over one buffer. */
  method ParseBuffer(buf: array<Word>, q: Queues, mask: nat) returns (wmask: nat)
    requires q.Valid() && buf !in q.Repr() && Bounded(buf[..], 0)
    modifies buf, q`events, q`bsas, q`gwp, q`bsawp, q`fifofull, q.allq, q.bsaq, q.allwp, set a | a in q.allrp
    ensures q.Valid()
    ensures q.events == old(q.events) + Events(Parse(old(buf[..]), 0))
    ensures q.bsas == old(q.bsas) + Bsas(Parse(old(buf[..]), 0))
    ensures Marks(mask, Parse(old(buf[..]), 0), wmask)
    ensures forall i :: 0 <= i < buf.Length ==> buf[i] == old(buf[i]) || buf[i] == END_WORD
  {
    hide EventSized, Parse, Bounded, Events, Bsas, Marks, Queues.Valid, Queues.Repr, Tag, First;
    ghost var words := buf[..];
    ghost var done := [];
    NoItems(mask);
    EndWord();
    BoundedInside(words, 0);
    wmask := mask;
    var dptr: nat := 0;
    while Tag(buf[dptr]) != END_TAG
      invariant dptr < buf.Length && q.Valid()
      invariant buf[..] == words || buf[..] == words[dptr := END_WORD]
      invariant Tag(buf[dptr]) != END_TAG ==> buf[..] == words && Bounded(words, dptr)
      invariant Parse(words, 0) == done + (if Tag(buf[dptr]) == END_TAG then [] else Parse(words, dptr))
      invariant q.events == old(q.events) + Events(done) && q.bsas == old(q.bsas) + Bsas(done)
      invariant Marks(mask, done, wmask)
      decreases if Tag(buf[dptr]) == END_TAG then 0 else buf.Length - dptr
    {
      ghost var x := First(words, dptr);
      ghost var at := dptr;
      ghost var before := wmask;
      dptr, wmask := HandleMessage(buf, dptr, q, wmask);
      Accounts(old(q.events), old(q.bsas), done, x);
      MarksConcat(mask, done, before, x, wmask);
      Regroup(done, x, Parse(words, dptr));
      if x != [] {
        BoundedInside(words, dptr);
      }
      done := done + x;
    }
    Regroup(done, [], []);
  }

  lemma BoundedInside(words: seq<Word>, at: nat)
    requires Bounded(words, at)
    ensures at < |words|
    ensures Tag(words[at]) == END_TAG ==> Parse(words, at) == []
  {}

  lemma Regroup(a: seq<Item>, b: seq<Item>, c: seq<Item>)
    ensures a + (b + c) == a + b + c && a + [] == a && b + [] == b
  {}

  // ---- The ring of DMA buffers ----

  /** Place j after place p on a ring of n. */
  function Slot(n: nat, p: nat, j: nat): nat {
    if p + j < n then p + j else p + j - n
  }

  /** The whole ring in order from place p on. */
  function RingFrom(n: nat, p: nat): seq<nat> {
    seq(n, j requires 0 <= j < n => Slot(n, p, j))
  }

  /** What a buffer holds once the driver has cleared the done bit. */
  function Cleared(fill: seq<Word>): seq<Word> {
    if fill == [] then [] else fill[0 := Clear31(fill[0])]
  }

  /** A buffer as the hardware leaves it: done bit set, closed by an end tag. */
  predicate GoodFill(fill: seq<Word>) {
    |fill| == BUF_WORDS && Bit(fill[0], 31) && Bounded(Cleared(fill), 0)
  }

  /** All messages of a run of buffers, in order. */
  function ItemsOf(fills: seq<seq<Word>>): seq<Item>
    decreases |fills|
  {
    if fills == [] then [] else ItemsOf(fills[..|fills| - 1]) + Parse(Cleared(fills[|fills| - 1]), 0)
  }

  lemma ItemsOfNext(fills: seq<seq<Word>>, n: nat)
    requires n < |fills|
    ensures ItemsOf(fills[..n + 1]) == ItemsOf(fills[..n]) + Parse(Cleared(fills[n]), 0)
  {
    assert fills[..n + 1][..n] == fills[..n];
  }

  lemma Bit31(w: Word)
    ensures Bit(w, 31) <==> w >= 0x8000_0000
    ensures !Bit(Clear31(w), 31)
  {
    hide Pow2;
    PowValues();
  }

  /** Ring order from `p` on: first the completed buffers with their pending
      contents, oldest first, then the posted ones in free-FIFO order. */
  ghost predicate RingOk(p: nat, free: seq<nat>, contents: seq<seq<Word>>, pending: seq<seq<Word>>) {
    var n := |contents|;
    && p < n && |pending| + |free| == n
    && (forall j :: 0 <= j < |free| ==> free[j] == Slot(n, p, |pending| + j))
    && (forall j :: 0 <= j < |pending| ==> contents[Slot(n, p, j)] == pending[j])
    && (forall j :: |pending| <= j < n ==>
          contents[Slot(n, p, j)] != [] && !Bit(contents[Slot(n, p, j)][0], 31))
  }

  /** The hardware fills the oldest posted buffer. */
  lemma FillKeepsRing(p: nat, free: seq<nat>, contents: seq<seq<Word>>, pending: seq<seq<Word>>, fill: seq<Word>)
    requires RingOk(p, free, contents, pending) && free != []
    ensures free[0] < |contents|
    ensures RingOk(p, free[1..], contents[free[0] := fill], pending + [fill])
  {
    hide Bit;
  }

  /** The driver takes the oldest completed buffer and posts it again. */
  lemma TakeKeepsRing(p: nat, free: seq<nat>, contents: seq<seq<Word>>, pending: seq<seq<Word>>, used: seq<Word>)
    requires RingOk(p, free, contents, pending) && pending != [] && used != [] && !Bit(used[0], 31)
    ensures contents[p] == pending[0]
    ensures RingOk(Slot(|contents|, p, 1), free + [p], contents[p := used], pending[1..])
  {
    hide Bit, Slot;
    var n := |contents|;
    var m, p', used' := |pending| - 1, Slot(n, p, 1), contents[p := used];
    SlotShift(n, p, 0);
    forall j | 0 <= j < n
      ensures Slot(n, p', j) < n && Slot(n, p', j) == if j == n - 1 then p else Slot(n, p, j + 1)
      ensures j < n - 1 ==> Slot(n, p, j + 1) != p
    {
      SlotShift(n, p, j);
    }
    assert forall j :: 0 <= j < m ==> used'[Slot(n, p', j)] == pending[1..][j];
  }

  lemma SlotShift(n: nat, p: nat, j: nat)
    requires p < n && j < n
    ensures Slot(n, p, 0) == p && Slot(n, p, 1) < n
    ensures Slot(n, Slot(n, p, 1), j) < n && Slot(n, Slot(n, p, 1), j) == if j == n - 1 then p else Slot(n, p, j + 1)
    ensures j < n - 1 ==> Slot(n, p, j + 1) < n && Slot(n, p, j + 1) != p
  {}

  /** The done bit at `p` tells whether a completed buffer is waiting. */
  lemma DoneBit(p: nat, free: seq<nat>, contents: seq<seq<Word>>, pending: seq<seq<Word>>)
    requires RingOk(p, free, contents, pending) && forall i :: 0 <= i < |pending| ==> GoodFill(pending[i])
    ensures p < |contents| && contents[p] != [] && (Bit(contents[p][0], 31) <==> pending != [])
    ensures pending == [] ==> free == RingFrom(|contents|, p)
  {
    hide Bit, Bounded;
    assert Slot(|contents|, p, 0) == p;
  }

  method AllocateBuffers(n: nat) returns (ring: seq<array<Word>>, posted: seq<nat>)
    ensures |ring| == n == |posted| && forall i :: 0 <= i < n ==> posted[i] == i
    ensures forall i :: 0 <= i < n ==> fresh(ring[i]) && ring[i].Length == BUF_WORDS
    ensures forall i :: 0 <= i < n ==> ring[i][..] == seq(BUF_WORDS, _ => 0)
    ensures forall i, j :: 0 <= i < j < n ==> ring[i] != ring[j]
  {
    ring, posted := [], [];
    while |ring| < n
      invariant |ring| == |posted| <= n && forall i :: 0 <= i < |ring| ==> posted[i] == i
      invariant forall i :: 0 <= i < |ring| ==> fresh(ring[i]) && ring[i].Length == BUF_WORDS
      invariant forall i :: 0 <= i < |ring| ==> ring[i][..] == seq(BUF_WORDS, _ => 0)
      invariant forall i, j :: 0 <= i < j < |ring| ==> ring[i] != ring[j]
    {
      var b := new Word[BUF_WORDS](_ => 0);
      b[0] := Clear31(b[0]);
      assert b[..] == seq(BUF_WORDS, _ => 0);
      posted := posted + [|ring|];
      ring := ring + [b];
    }
  }

  lemma AllPosted(posted: seq<nat>, contents: seq<seq<Word>>)
    requires 0 < |contents| == |posted| && forall i :: 0 <= i < |posted| ==> posted[i] == i
    requires forall i :: 0 <= i < |contents| ==> contents[i] != [] && !Bit(contents[i][0], 31)
    ensures RingOk(0, posted, contents, [])
  {
    hide Bit;
  }

  class Device {
    const q: Queues
    const rxBuffer: seq<array<Word>>  // in ring order
    var rxPend: nat
    var free: seq<nat>                // buffers posted to the hardware's free FIFO
    ghost var contents: seq<seq<Word>>
    ghost var fills: seq<seq<Word>>   // contents of every buffer the hardware completed
    ghost var processed: nat          // how many of them the driver has consumed

    ghost predicate Shape()
      reads this`contents, set b | b in rxBuffer
    {
      && 0 < |rxBuffer| == |contents|
      && (forall i :: 0 <= i < |rxBuffer| ==> rxBuffer[i].Length == BUF_WORDS && rxBuffer[i] !in q.Repr())
      && (forall i, j :: 0 <= i < j < |rxBuffer| ==> rxBuffer[i] != rxBuffer[j])
      && (forall i :: 0 <= i < |rxBuffer| ==> rxBuffer[i][..] == contents[i])
    }

    /** The queues hold exactly the messages of the consumed buffers. */
    ghost predicate LogOk()
      reads this`fills, this`processed, q
    {
      && processed <= |fills| && (forall i :: 0 <= i < |fills| ==> GoodFill(fills[i]))
      && q.events == Events(ItemsOf(fills[..processed]))
      && q.bsas == Bsas(ItemsOf(fills[..processed]))
    }

    ghost predicate Aligned(p: nat)
      reads this`contents, this`fills, this`processed, this`free, q, q.Repr(), set b | b in rxBuffer
    {
      Shape() && q.Valid() && LogOk() && RingOk(p, free, contents, fills[processed..])
    }

    /** tpr_probe: allocate the buffers, clear their done bits, post them all. */
    constructor (n: nat)
      requires 0 < n
      ensures Aligned(rxPend) && fills == [] && |rxBuffer| == n && fresh(q) && fresh(q.Repr())
    {
      hide EntryRing, ChannelOk, Filter, Bit, RingOk, Events, Bsas, ItemsOf;
      var ring, posted := AllocateBuffers(n);
      var queues := new Queues();
      ghost var blank: seq<Word> := seq(BUF_WORDS, _ => 0);
      Bit31(0);
      q, rxBuffer, free, rxPend := queues, ring, posted, 0;
      fills, processed, contents := [], 0, seq(n, _ => blank);
      NoItems(0);
      NoFills();
      AllPosted(posted, seq(n, _ => blank));
    }

    /** The hardware completes the buffer at the head of its free FIFO. */
    method HwFill(fill: seq<Word>, ghost p: nat)
      requires Aligned(p) && free != [] && GoodFill(fill)
      modifies this`free, this`fills, this`contents, set b | b in rxBuffer
      ensures Aligned(p) && fills == old(fills) + [fill] && free == old(free)[1..]
    {
      hide GoodFill, ItemsOf, Bit, Events, Bsas, EntryRing, ChannelOk, RingOk, IndexRing, Filter, Queues.Valid;
      FillKeepsRing(p, free, contents, fills[processed..], fill);
      assert fills[processed..] + [fill] == (fills + [fill])[processed..];
      assert (fills + [fill])[..processed] == fills[..processed];
      var b := rxBuffer[free[0]];
      SetDone(fill);
      forall i | 0 <= i < BUF_WORDS {
        b[i] := fill[i];
      }
      assert b[..] == fill;
      contents := contents[free[0] := fill];
      free := free[1..];
      fills := fills + [fill];
    }

    lemma ConsumedFirst(p: nat)
      requires Aligned(p)
      ensures processed <= |fills|
    {}

    /** The done bit of the buffer at `p`. */
    method TestDone(p: nat) returns (set31: bool)
      requires Aligned(p)
      ensures set31 <==> processed < |fills|
      ensures p < |rxBuffer| && rxBuffer[p].Length > 0 && (set31 <==> Bit(rxBuffer[p][0], 31))
      ensures processed <= |fills| && (!set31 ==> free == RingFrom(|rxBuffer|, p))
    {
      hide GoodFill, ItemsOf, Bit, Events, Bsas, EntryRing, ChannelOk, RingOk, IndexRing, Filter;
      DoneBit(p, free, contents, fills[processed..]);
      set31 := Bit(rxBuffer[p][0], 31);
    }

    /** One round of the handler: test and clear the done bit, parse the buffer,
        give it back to the hardware. */
    method ProcessBuffer(p: nat, mask: nat) returns (next: nat, wmask: nat)
      requires Aligned(p) && Bit(rxBuffer[p][0], 31)
      modifies this`free, this`contents, this`processed, set b | b in rxBuffer
      modifies q`events, q`bsas, q`gwp, q`bsawp, q`fifofull, q.allq, q.bsaq, q.allwp, set a | a in q.allrp
      ensures Aligned(next) && fills == old(fills)
      ensures old(processed) < |fills| && processed == old(processed) + 1
      ensures free == old(free) + [p] && next == Slot(|rxBuffer|, p, 1)
      ensures Marks(mask, Parse(Cleared(fills[old(processed)]), 0), wmask)
    {
      hide GoodFill, ItemsOf, Bit, Events, Bsas, Marks, Parse, EntryRing, ChannelOk, RingOk, IndexRing, Filter, Bounded;
      ghost var pending := fills[processed..];
      DoneBit(p, free, contents, pending);
      FillIsBounded(pending[0]);
      TakeFirst(p, free, contents, pending);
      var b := rxBuffer[p];
      b[0] := Clear31(b[0]);
      assert b[..] == Cleared(pending[0]);
      Bit31(pending[0][0]);
      EndWordClear();
      wmask := ParseBuffer(b, q, mask);
      ItemsOfNext(fills, processed);
      ItemsConcat(ItemsOf(fills[..processed]), Parse(Cleared(fills[processed]), 0));
      TakeKeepsRing(p, free, contents, pending, b[..]);
      free := free + [p];
      next := if p + 1 < |rxBuffer| then p + 1 else 0;
      contents := contents[p := b[..]];
      processed := processed + 1;
      assert fills[processed..] == pending[1..];
    }

    /** Buffers that the hardware completes in a row; it stops for want of a posted
        one. */
    method HwFillAll(batch: seq<seq<Word>>, ghost p: nat)
      requires Aligned(p) && forall i :: 0 <= i < |batch| ==> GoodFill(batch[i])
      modifies this`free, this`fills, this`contents, set b | b in rxBuffer
      ensures Aligned(p) && old(fills) <= fills
    {
      hide GoodFill, RingOk, Device.LogOk, Device.Shape;
      for n := 0 to |batch|
        invariant Aligned(p) && old(fills) <= fills
      {
        if free != [] {
          HwFill(batch[n], p);
        }
      }
    }

    /** tpr_handle_dma, up to waking the readers. The hardware completes the buffers
        of late[n] before round n. When the handler returns, every completed buffer
        has been consumed, in the order it was filled, and all buffers are posted
        again. */
    method HandleDma(late: seq<seq<seq<Word>>>) returns (wmask: nat)
      requires Aligned(rxPend)
      requires forall n, i :: 0 <= n < |late| && 0 <= i < |late[n]| ==> GoodFill(late[n][i])
      modifies this, set b | b in rxBuffer
      modifies q`events, q`bsas, q`gwp, q`bsawp, q`fifofull, q.allq, q.bsaq, q.allwp, set a | a in q.allrp
      ensures Aligned(rxPend) && old(fills) <= fills && processed == |fills|
      ensures free == RingFrom(|rxBuffer|, rxPend)
      ensures old(processed) <= |fills|
      ensures forall l: nat :: HasBit(wmask, l) <==> Wanted(ItemsOf(fills[old(processed)..]), l)
    {
      hide GoodFill, ItemsOf, Bit, HasBit, Wanted, Marks, Parse, Events, Bsas, EntryRing, ChannelOk, Filter, RingOk,
           RingFrom, Slot,
           Device.LogOk, Device.Shape;
      wmask := 0;
      NoItems(0);
      NoFills();
      ConsumedFirst(rxPend);
      assert fills[processed..processed] == [];
      var next, n := rxPend, 0;
      while true
        invariant Aligned(next) && n <= |late| && old(fills) <= fills
        invariant old(processed) <= processed <= |fills| && Marks(0, ItemsOf(fills[old(processed)..processed]), wmask)
        decreases |late| - n, |fills| - processed
      {
        if n < |late| {
          ghost var before := fills;
          HwFillAll(late[n], next);
          assert fills[old(processed)..processed] == before[old(processed)..processed];
          n := n + 1;
        }
        var set31 := TestDone(next);
        if !set31 {
          break;
        }
        ghost var before := wmask;
        next, wmask := ProcessBuffer(next, wmask);
        OneMore(fills, old(processed), processed - 1, before, wmask);
      }
      rxPend := next;
      assert fills[old(processed)..processed] == fills[old(processed)..];
      MarkedFrom0(ItemsOf(fills[old(processed)..]), wmask);
    }
  }

  lemma MarkedFrom0(items: seq<Item>, wmask: nat)
    requires Marks(0, items, wmask)
    ensures forall l: nat :: HasBit(wmask, l) <==> Wanted(items, l)
  {
    hide Bit, HasBit, Wanted;
    forall l: nat ensures !HasBit(0, l) {
      BitExact(0, l);
      NoBit(l);
    }
  }

  lemma FillIsBounded(fill: seq<Word>)
    requires GoodFill(fill)
    ensures |fill| == BUF_WORDS && Bounded(Cleared(fill), 0)
  {}

  lemma TakeFirst(p: nat, free: seq<nat>, contents: seq<seq<Word>>, pending: seq<seq<Word>>)
    requires RingOk(p, free, contents, pending) && pending != []
    ensures p < |contents| && contents[p] == pending[0]
  {
    assert Slot(|contents|, p, 0) == p;
  }

  lemma NoFills()
    ensures ItemsOf([]) == []
  {}

  lemma OneMore(fills: seq<seq<Word>>, k: nat, n: nat, before: nat, wmask: nat)
    requires k <= n < |fills|
    requires Marks(0, ItemsOf(fills[k..n]), before) && Marks(before, Parse(Cleared(fills[n]), 0), wmask)
    ensures Marks(0, ItemsOf(fills[k..n + 1]), wmask)
  {
    hide Parse, Marks, Cleared;
    assert fills[k..n + 1][..n - k] == fills[k..n];
    MarksConcat(0, ItemsOf(fills[k..n]), before, Parse(Cleared(fills[n]), 0), wmask);
  }

  lemma EndWordClear()
    ensures !Bit(END_WORD, 31)
  {
    Bit31(END_WORD);
  }

  lemma SetDone(fill: seq<Word>)
    requires GoodFill(fill)
    ensures |fill| == BUF_WORDS && Bit(fill[0], 31)
  {}
}
