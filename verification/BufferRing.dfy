/** The buffer queues of the SsiPcie driver: a ring of cnt + 2 slots between user
    calls, which take buffers at `read`, and the interrupt handler, which returns
    them at `write`. Posting a buffer and advancing `read` are two steps, and the
    handler may run between them. */
module BufferRing {

  // ---- Who owns a buffer ----

  ghost predicate Distinct(s: seq<nat>) {
    forall i, j :: 0 <= i < j < |s| ==> s[i] != s[j]
  }

  /** Distinct numbers below n are at most n. */
  lemma {:induction false} Pigeonhole(s: seq<nat>, n: nat)
    requires Distinct(s) && forall b :: b in s ==> b < n
    ensures |s| <= n
    decreases n
  {
    if s == [] {
    } else if n - 1 in s {
      var i :| 0 <= i < |s| && s[i] == n - 1;
      var rest := s[..i] + s[i + 1..];
      forall b | b in rest ensures b < n - 1 {
        assert b in s && b != s[i];
      }
      Pigeonhole(rest, n - 1);
    } else {
      assert s[0] in s;
      Pigeonhole(s, n - 1);
    }
  }

  /** The numbers below n. */
  function Below(n: nat): (s: set<nat>)
    ensures forall b: nat :: b in s <==> b < n
  {
    if n == 0 then {} else Below(n - 1) + {n - 1}
  }

  /** The buffers the driver holds: all queued ones, except that a head already
      posted belongs to the hardware again. */
  function Held(items: seq<nat>, posted: bool): seq<nat> {
    if posted && items != [] then items[1..] else items
  }

  /** Every buffer is either held by the driver, once, or owned by the hardware. */
  ghost predicate Split(cnt: nat, items: seq<nat>, posted: bool, hw: set<nat>) {
    && (posted ==> items != [])
    && Distinct(Held(items, posted))
    && (forall b :: b in Held(items, posted) ==> b < cnt && b !in hw)
    && (forall b :: b in hw ==> b < cnt)
    && (forall b: nat :: b < cnt ==> b in hw || b in Held(items, posted))
  }

  /** While the hardware owns a buffer, the queue has room for it. */
  lemma RoomToReturn(cnt: nat, items: seq<nat>, posted: bool, hw: set<nat>, b: nat)
    requires Split(cnt, items, posted, hw) && b in hw
    ensures |items| <= cnt
  {
    var h := Held(items, posted);
    assert b !in h;
    Pigeonhole(h + [b], cnt);
  }

  lemma PostKeepsSplit(cnt: nat, items: seq<nat>, hw: set<nat>)
    requires Split(cnt, items, false, hw) && items != []
    ensures Split(cnt, items, true, hw + {items[0]})
  {
    assert items == [items[0]] + items[1..];
    assert items[0] in items;
    forall b | b in items[1..] ensures b in items && b != items[0] {}
  }

  lemma AdvanceKeepsSplit(cnt: nat, items: seq<nat>, hw: set<nat>)
    requires Split(cnt, items, true, hw)
    ensures Split(cnt, items[1..], false, hw)
  {}

  lemma ReturnKeepsSplit(cnt: nat, items: seq<nat>, posted: bool, hw: set<nat>, b: nat)
    requires Split(cnt, items, posted, hw) && b in hw
    ensures Split(cnt, items + [b], posted, hw - {b})
  {
    assert Held(items + [b], posted) == Held(items, posted) + [b];
  }

  // ---- The ring ----

  function Wrap(cnt: nat, k: nat): nat {
    if k < cnt + 2 then k else k - (cnt + 2)
  }

  ghost predicate RingHolds(cnt: nat, queue: seq<nat>, read: nat, write: nat, items: seq<nat>) {
    && |queue| == cnt + 2 && read < cnt + 2
    && |items| <= cnt + 1 && write == Wrap(cnt, read + |items|)
    && forall i :: 0 <= i < |items| ==> queue[Wrap(cnt, read + i)] == items[i]
  }

  lemma RingPush(cnt: nat, queue: seq<nat>, read: nat, write: nat, items: seq<nat>, b: nat)
    requires RingHolds(cnt, queue, read, write, items) && |items| <= cnt
    ensures write < |queue| && Wrap(cnt, write + 1) != read
    ensures RingHolds(cnt, queue[write := b], read, Wrap(cnt, write + 1), items + [b])
  {}

  lemma Slots(cnt: nat, queue: seq<nat>, read: nat, write: nat, items: seq<nat>)
    requires RingHolds(cnt, queue, read, write, items)
    ensures |queue| == cnt + 2 && read < cnt + 2 && write < cnt + 2 && |items| <= cnt + 1
    ensures |items| == cnt + 1 ==> Wrap(cnt, write + 1) == read
  {}

  lemma RingPop(cnt: nat, queue: seq<nat>, read: nat, write: nat, items: seq<nat>)
    requires RingHolds(cnt, queue, read, write, items) && items != []
    ensures queue[read] == items[0]
    ensures RingHolds(cnt, queue, Wrap(cnt, read + 1), write, items[1..])
  {
    assert Wrap(cnt, read + 0) == read;
    var rest := items[1..];
    forall i | 0 <= i < |rest|
      ensures queue[Wrap(cnt, Wrap(cnt, read + 1) + i)] == rest[i]
    {
      assert Wrap(cnt, Wrap(cnt, read + 1) + i) == Wrap(cnt, read + (i + 1));
    }
  }

  lemma WrapIsMod(cnt: nat, k: nat)
    requires k < cnt + 2
    ensures (k + 1) % (cnt + 2) == Wrap(cnt, k + 1)
  {
    if k + 1 < cnt + 2 {
      assert (k + 1) % (cnt + 2) == k + 1;
    }
  }

  class Ring {
    const cnt: nat
    const queue: array<nat>
    var read: nat
    var write: nat
    ghost var items: seq<nat>  // queued buffers, head first
    ghost var posted: bool     // the head has been given to the hardware, read not yet advanced
    ghost var hw: set<nat>     // buffers owned by the hardware

    ghost predicate Valid()
      reads this, queue
    {
      && 0 < cnt && queue.Length == cnt + 2
      && Split(cnt, items, posted, hw)
      && RingHolds(cnt, queue[..], read, write, items)
    }

    /** Transmit side: all buffers are queued. */
    constructor Full(n: nat)
      requires 0 < n
      ensures Valid() && cnt == n && hw == {} && !posted && |items| == n
      ensures fresh(queue)
    {
      cnt := n;
      queue := new nat[n + 2](i => i);
      read, write := 0, n;
      items, posted, hw := seq(n, i => i), false, {};
      new;
      forall b: nat | b < n ensures b in items {
        assert items[b] == b;
      }
    }

    /** Receive side: all buffers are with the hardware. */
    constructor Empty(n: nat)
      requires 0 < n
      ensures Valid() && cnt == n && hw == Below(n) && !posted && items == []
      ensures fresh(queue)
    {
      cnt := n;
      queue := new nat[n + 2](i => 0);
      read, write := 0, 0;
      items, posted, hw := [], false, Below(n);
    }

    method IsEmpty() returns (empty: bool)
      requires Valid()
      ensures empty <==> items == []
    {
      empty := read == write;
    }

    /** The buffer a user call works on belongs to the driver. */
    method Head() returns (b: nat)
      requires Valid() && items != [] && !posted
      ensures b == items[0] < cnt && b !in hw
    {
      RingPop(cnt, queue[..], read, write, items);
      b := queue[read];
      assert items[0] in Held(items, posted);
    }

    /** The head's descriptor has been written to the hardware. */
    ghost method Post()
      requires Valid() && items != [] && !posted
      modifies this`posted, this`hw
      ensures Valid() && posted && hw == old(hw) + {items[0]}
    {
      PostKeepsSplit(cnt, items, hw);
      posted, hw := true, hw + {items[0]};
    }

    method Advance()
      requires Valid() && posted
      modifies this`read, this`items, this`posted
      ensures Valid() && !posted && items == old(items)[1..]
    {
      AdvanceKeepsSplit(cnt, items, hw);
      RingPop(cnt, queue[..], read, write, items);
      WrapIsMod(cnt, read);
      read := (read + 1) % (cnt + 2);
      items, posted := items[1..], false;
    }

    /** The interrupt handler returns a buffer. The queue never runs full: the
        collision it checks for does not happen. */
    method Return(b: nat) returns (collision: bool)
      requires Valid() && b in hw
      modifies this`write, this`items, this`hw, queue
      ensures Valid() && !collision && items == old(items) + [b] && hw == old(hw) - {b}
    {
      hide Split, RingHolds, Wrap, Held, Distinct;
      Slots(cnt, queue[..], read, write, items);
      RoomToReturn(cnt, items, posted, hw, b);
      ReturnKeepsSplit(cnt, items, posted, hw, b);
      RingPush(cnt, queue[..], read, write, items, b);
      WrapIsMod(cnt, write);
      var next := (write + 1) % (cnt + 2);
      collision := next == read;
      queue[write] := b;
      write := next;
      items, hw := items + [b], hw - {b};
    }
  }

  /** Why there are cnt + 2 slots: the hardware may be done with a posted head before
      `read` advances, and then cnt + 1 entries are queued. */
  method HeadReturnsEarly(n: nat) returns (ring: Ring)
    requires 0 < n
    ensures fresh(ring) && fresh(ring.queue) && ring.Valid() && ring.cnt == n
    ensures ring.posted && |ring.items| == n + 1 && (ring.write + 1) % (n + 2) == ring.read
  {
    hide Split, RingHolds, Wrap, Held, Distinct;
    ring := new Ring.Full(n);
    var b := ring.Head();
    ring.Post();
    var collision := ring.Return(b);
    Slots(n, ring.queue[..], ring.read, ring.write, ring.items);
    WrapIsMod(n, ring.write);
  }
}
