/** Open and release in the tpr driver: 256 client nodes move between one free
    list and fifteen doubly linked lists, one per channel and one for BSA. The
    nodes live in the array all_shares; a pointer is an index into it. */
module TprClients {
  import opened TprTypes

  datatype Ptr = Null | To(n: nat)

  const OPEN_SHARES: nat := 256
  const BSA: nat := 14          // number of the BSA list
  const FREE: nat := 15         // number of the free list
  const LISTS: nat := 16

  /** struct shared_tpr; its flag pendingirq is in module TprWake. */
  datatype Shared = Shared(inUse: bool, minor: int, next: Ptr, prev: Ptr)

  /** The control register of a channel: its DMA enable bit 2 and the others. */
  datatype Control = Control(dma: bool, other: int)

  function At(l: seq<nat>, i: int): Ptr {
    if 0 <= i < |l| then To(l[i]) else Null
  }

  /** The nodes of `l` are chained in this order; the free list has no back links. */
  ghost predicate Linked(nodes: seq<Shared>, l: seq<nat>, back: bool) {
    && (forall i :: 0 <= i < |l| ==> l[i] < |nodes|)
    && (forall i :: 0 <= i < |l| ==> nodes[l[i]].next == At(l, i + 1))
    && (forall i :: 0 <= i < |l| ==> nodes[l[i]].prev == if back then At(l, i - 1) else Null)
  }

  ghost predicate NoRepeats(l: seq<nat>) {
    forall i, j :: 0 <= i < j < |l| ==> l[i] != l[j]
  }

  /** Each node is on exactly one list, its home. */
  ghost predicate Partition(n: nat, lists: seq<seq<nat>>, home: seq<nat>) {
    && |lists| == LISTS && |home| == n
    && (forall k :: 0 <= k < LISTS ==> NoRepeats(lists[k]))
    && (forall k, i :: 0 <= k < LISTS && 0 <= i < |lists[k]| ==> lists[k][i] < n && home[lists[k][i]] == k)
    && (forall x :: 0 <= x < n ==> home[x] < LISTS && x in lists[home[x]])
  }

  /** What a node's own fields say about its list. */
  ghost predicate Labelled(s: Shared, home: nat) {
    && (s.inUse <==> home != FREE)
    && (home < CHANNELS ==> s.minor == home)
    && (home == BSA ==> s.minor == -1)
  }

  /** Moving x from the list it is on to the front of list k. */
  function Without(l: seq<nat>, x: nat): seq<nat> {
    if l == [] then [] else if l[0] == x then l[1..] else [l[0]] + Without(l[1..], x)
  }

  function Moved(lists: seq<seq<nat>>, from: nat, to: nat, x: nat): seq<seq<nat>>
    requires from < |lists| && to < |lists|
  {
    var out := lists[from := Without(lists[from], x)];
    out[to := [x] + out[to]]
  }

  lemma WithoutFirst(l: seq<nat>, x: nat)
    requires l != []
    ensures Without(l, x) == if l[0] == x then l[1..] else [l[0]] + Without(l[1..], x)
  {}

  lemma Spliced(l: seq<nat>, i: nat)
    requires i < |l|
    ensures i > 0 ==> l[1..][i - 1] == l[i] && l[..i] + l[i + 1..] == [l[0]] + (l[1..][..i - 1] + l[1..][i..])
    ensures i == 0 ==> l[..0] + l[1..] == l[1..]
  {}

  lemma {:induction false} WithoutAt(l: seq<nat>, i: nat)
    requires i < |l| && NoRepeats(l)
    ensures Without(l, l[i]) == l[..i] + l[i + 1..]
    decreases |l|
  {
    NoneTwice(l, i);
    hide NoRepeats, Without;
    WithoutFirst(l, l[i]);
    Spliced(l, i);
    if i > 0 {
      WithoutAt(l[1..], i - 1);
    }
  }

  lemma NoneTwice(l: seq<nat>, i: nat)
    requires i < |l| && NoRepeats(l)
    ensures NoRepeats(l[1..]) && (i > 0 ==> l[0] != l[i])
  {}

  lemma AtWithout(l: seq<nat>, i: nat, k: int)
    requires i < |l|
    ensures At(l[..i] + l[i + 1..], k) == At(l, if k < i then k else k + 1)
  {}

  lemma AtPushed(l: seq<nat>, x: nat, k: int)
    ensures At([x] + l, k) == if k == 0 then To(x) else At(l, k - 1)
  {}

  /** Nodes after l[i] has been unlinked: only its two neighbours change. */
  ghost predicate Bridged(after: seq<Shared>, l: seq<nat>, i: nat, back: bool)
    requires forall s :: 0 <= s < |l| ==> l[s] < |after|
  {
    && (forall s :: 0 <= s < |l| && s != i ==> after[l[s]].next == At(l, if s + 1 == i then i + 1 else s + 1))
    && (forall s :: 0 <= s < |l| && s != i ==>
          after[l[s]].prev == if back then At(l, if s == i + 1 then i - 1 else s - 1) else Null)
  }

  lemma BridgedAt(after: seq<Shared>, l: seq<nat>, i: nat, back: bool, s: nat)
    requires (forall k :: 0 <= k < |l| ==> l[k] < |after|) && Bridged(after, l, i, back)
    requires s < |l| && s != i
    ensures after[l[s]].next == At(l, if s + 1 == i then i + 1 else s + 1)
    ensures after[l[s]].prev == if back then At(l, if s == i + 1 then i - 1 else s - 1) else Null
  {
    hide At;
  }

  lemma UnlinkKeeps(nodes: seq<Shared>, after: seq<Shared>, l: seq<nat>, i: nat, back: bool)
    requires Linked(nodes, l, back) && i < |l| && NoRepeats(l) && |after| == |nodes|
    requires Bridged(after, l, i, back)
    ensures Linked(after, Without(l, l[i]), back)
  {
    hide Without, At, NoRepeats, Bridged;
    WithoutAt(l, i);
    var w := l[..i] + l[i + 1..];
    forall k | 0 <= k < |w|
      ensures w[k] < |after| && after[w[k]].next == At(w, k + 1)
      ensures after[w[k]].prev == if back then At(w, k - 1) else Null
    {
      var s := if k < i then k else k + 1;
      assert w[k] == l[s];
      BridgedAt(after, l, i, back, s);
      AtWithout(l, i, k + 1);
      AtWithout(l, i, k - 1);
    }
  }

  /** Linking node x in front: only it and the old head change. */
  lemma PushKeeps(nodes: seq<Shared>, after: seq<Shared>, l: seq<nat>, x: nat, back: bool)
    requires Linked(nodes, l, back) && x < |nodes| == |after|
    requires after[x].next == At(l, 0) && after[x].prev == Null
    requires forall s :: 0 <= s < |l| ==> after[l[s]].next == nodes[l[s]].next
    requires forall s :: 0 <= s < |l| ==>
               after[l[s]].prev == if back && s == 0 then To(x) else nodes[l[s]].prev
    ensures Linked(after, [x] + l, back)
  {
    hide At;
    var w := [x] + l;
    AtOutside(w, -1);
    forall k | 0 <= k < |w|
      ensures w[k] < |after| && after[w[k]].next == At(w, k + 1)
      ensures after[w[k]].prev == if back then At(w, k - 1) else Null
    {
      AtPushed(l, x, k + 1);
      AtPushed(l, x, k - 1);
    }
  }

  lemma AtOutside(l: seq<nat>, k: int)
    ensures k < 0 || k >= |l| ==> At(l, k) == Null
  {}

  ghost predicate SameLinks(a: Shared, b: Shared) {
    a.next == b.next && a.prev == b.prev
  }

  /** A list none of whose nodes changed stays linked. */
  lemma FrameKeeps(nodes: seq<Shared>, after: seq<Shared>, l: seq<nat>, back: bool)
    requires Linked(nodes, l, back) && |after| == |nodes|
    requires forall i :: 0 <= i < |l| ==> SameLinks(after[l[i]], nodes[l[i]])
    ensures Linked(after, l, back)
  {
    hide At;
  }

  lemma WithoutKeeps(l: seq<nat>, x: nat)
    requires NoRepeats(l) && x in l
    ensures NoRepeats(Without(l, x)) && x !in Without(l, x)
    ensures forall y :: y != x ==> (y in l <==> y in Without(l, x))
  {
    hide Without;
    var i :| 0 <= i < |l| && l[i] == x;
    WithoutAt(l, i);
    var w := Without(l, x);
    forall y | y != x && y in l ensures y in w {
      var j :| 0 <= j < |l| && l[j] == y;
      assert y == w[if j < i then j else j - 1];
    }
  }

  /** Moving a node keeps every node on exactly one list. */
  lemma MoveKeepsPartition(n: nat, lists: seq<seq<nat>>, home: seq<nat>, x: nat, to: nat)
    requires Partition(n, lists, home) && x < n && to < LISTS && home[x] != to
    ensures Partition(n, Moved(lists, home[x], to, x), home[x := to])
  {
    hide Without;
    var from := home[x];
    var after, home' := Moved(lists, from, to, x), home[x := to];
    WithoutKeeps(lists[from], x);
    assert x !in lists[to];
    forall k, i | 0 <= k < LISTS && 0 <= i < |after[k]|
      ensures after[k][i] < n && home'[after[k][i]] == k
    {
      assert after[k][i] in after[k];
    }
    forall y | 0 <= y < n ensures y in after[home'[y]] {
      if y != x {
        assert y in lists[home[y]];
      }
    }
  }

  // ---- The pointer updates of open and release ----

  function SetNext(nodes: seq<Shared>, p: Ptr, v: Ptr): (r: seq<Shared>)
    ensures |r| == |nodes|
  {
    if p.To? && p.n < |nodes| then nodes[p.n := nodes[p.n].(next := v)] else nodes
  }

  function SetPrev(nodes: seq<Shared>, p: Ptr, v: Ptr): (r: seq<Shared>)
    ensures |r| == |nodes|
  {
    if p.To? && p.n < |nodes| then nodes[p.n := nodes[p.n].(prev := v)] else nodes
  }

  /** The neighbours of x point past it. */
  function Unlinked(nodes: seq<Shared>, x: nat): (r: seq<Shared>)
    requires x < |nodes|
    ensures |r| == |nodes|
  {
    SetPrev(SetNext(nodes, nodes[x].prev, nodes[x].next), nodes[x].next, nodes[x].prev)
  }

  /** x in front of the list that starts at `head`. */
  function Pushed(nodes: seq<Shared>, x: nat, head: Ptr, back: bool): (r: seq<Shared>)
    requires x < |nodes|
    ensures |r| == |nodes|
  {
    var a := if back then SetPrev(nodes, head, To(x)) else nodes;
    a[x := a[x].(next := head, prev := Null)]
  }

  ghost predicate AllLinked(nodes: seq<Shared>, lists: seq<seq<nat>>) {
    |lists| == LISTS && forall k :: 0 <= k < LISTS ==> Linked(nodes, lists[k], k != FREE)
  }

  /** A node's neighbours are those its list says. */
  lemma Neighbours(nodes: seq<Shared>, lists: seq<seq<nat>>, home: seq<nat>, x: nat) returns (i: nat)
    requires Partition(|nodes|, lists, home) && AllLinked(nodes, lists) && x < |nodes|
    ensures var l := lists[home[x]];
            && i < |l| && l[i] == x && nodes[x].next == At(l, i + 1)
            && nodes[x].prev == (if home[x] == FREE then Null else At(l, i - 1))
  {
    i :| 0 <= i < |lists[home[x]]| && lists[home[x]][i] == x;
  }

  lemma UnlinkedFields(nodes: seq<Shared>, x: nat, y: nat)
    requires x < |nodes| && y < |nodes|
    ensures var a := Unlinked(nodes, x)[y];
            && a == nodes[y].(next := a.next, prev := a.prev)
            && a.next == (if nodes[x].prev == To(y) then nodes[x].next else nodes[y].next)
            && a.prev == (if nodes[x].next == To(y) then nodes[x].prev else nodes[y].prev)
  {}

  lemma AtNames(l: seq<nat>, k: int, s: nat)
    requires NoRepeats(l) && s < |l|
    ensures At(l, k) == To(l[s]) <==> k == s
  {}

  lemma AtElsewhere(l: seq<nat>, k: int, y: nat)
    requires y !in l
    ensures At(l, k) != To(y)
  {}

  lemma UnlinkEverywhere(nodes: seq<Shared>, lists: seq<seq<nat>>, home: seq<nat>, x: nat)
    requires Partition(|nodes|, lists, home) && AllLinked(nodes, lists) && x < |nodes| && home[x] != FREE
    ensures AllLinked(Unlinked(nodes, x), lists[home[x] := Without(lists[home[x]], x)])
  {
    hide Without, At, Unlinked;
    var from := home[x];
    var l := lists[from];
    var i := Neighbours(nodes, lists, home, x);
    var after := Unlinked(nodes, x);
    forall s | 0 <= s < |l| && s != i
      ensures after[l[s]].next == At(l, if s + 1 == i then i + 1 else s + 1)
      ensures after[l[s]].prev == At(l, if s == i + 1 then i - 1 else s - 1)
    {
      UnlinkedFields(nodes, x, l[s]);
      AtNames(l, i - 1, s);
      AtNames(l, i + 1, s);
    }
    UnlinkKeeps(nodes, after, l, i, true);
    forall k | 0 <= k < LISTS && k != from ensures Linked(after, lists[k], k != FREE) {
      forall s | 0 <= s < |lists[k]| ensures SameLinks(after[lists[k][s]], nodes[lists[k][s]]) {
        var y := lists[k][s];
        assert home[y] == k;
        UnlinkedFields(nodes, x, y);
        AtElsewhere(l, i - 1, y);
        AtElsewhere(l, i + 1, y);
      }
      FrameKeeps(nodes, after, lists[k], k != FREE);
    }
  }

  lemma PushEverywhere(nodes: seq<Shared>, lists: seq<seq<nat>>, x: nat, to: nat)
    requires AllLinked(nodes, lists) && x < |nodes| && to < LISTS
    requires forall k :: 0 <= k < LISTS ==> NoRepeats(lists[k]) && x !in lists[k]
    requires lists[to] != [] ==> forall k :: 0 <= k < LISTS && k != to ==> lists[to][0] !in lists[k]
    ensures var after := Pushed(nodes, x, At(lists[to], 0), to != FREE);
            && AllLinked(after, lists[to := [x] + lists[to]])
            && forall y :: 0 <= y < |nodes| ==> after[y] == nodes[y].(next := after[y].next, prev := after[y].prev)
  {
    var l := lists[to];
    var after := Pushed(nodes, x, At(l, 0), to != FREE);
    PushKeeps(nodes, after, l, x, to != FREE);
    forall k | 0 <= k < LISTS && k != to ensures Linked(after, lists[k], k != FREE) {
      FrameKeeps(nodes, after, lists[k], k != FREE);
    }
  }

  /** Taking the first node off the free list changes no node. */
  lemma PopKeeps(nodes: seq<Shared>, lists: seq<seq<nat>>)
    requires AllLinked(nodes, lists) && lists[FREE] != [] && NoRepeats(lists[FREE])
    ensures AllLinked(nodes, lists[FREE := Without(lists[FREE], lists[FREE][0])])
    ensures Without(lists[FREE], lists[FREE][0]) == lists[FREE][1..]
    ensures nodes[lists[FREE][0]].next == At(lists[FREE][1..], 0)
  {
    hide Without, Linked, At;
    var l := lists[FREE];
    WithoutAt(l, 0);
    assert l[..0] + l[1..] == l[1..];
    TailLinked(nodes, l);
  }

  lemma TailLinked(nodes: seq<Shared>, l: seq<nat>)
    requires Linked(nodes, l, false) && l != []
    ensures Linked(nodes, l[1..], false) && l[0] < |nodes| && nodes[l[0]].next == At(l[1..], 0)
  {
    hide At;
    forall i | 0 <= i < |l| - 1 ensures nodes[l[1..][i]].next == At(l[1..], i + 1) {
      AtTail(l, i + 1);
    }
    AtTail(l, 0);
  }

  lemma AtTail(l: seq<nat>, k: nat)
    requires l != []
    ensures At(l[1..], k) == At(l, k + 1)
  {}

  /** Between unlinking and pushing, x is on no list. */
  lemma OffAllLists(n: nat, lists: seq<seq<nat>>, home: seq<nat>, x: nat)
    requires Partition(n, lists, home) && x < n
    ensures var mid := lists[home[x] := Without(lists[home[x]], x)];
            && (forall k :: 0 <= k < LISTS ==> NoRepeats(mid[k]) && x !in mid[k])
            && (forall j, k :: 0 <= j < LISTS && 0 <= k < LISTS && j != k && mid[j] != [] ==> mid[j][0] !in mid[k])
  {
    hide Without;
    var from := home[x];
    var mid := lists[from := Without(lists[from], x)];
    WithoutKeeps(lists[from], x);
    forall j, k | 0 <= j < LISTS && 0 <= k < LISTS && j != k && mid[j] != [] ensures mid[j][0] !in mid[k] {
      var y := mid[j][0];
      assert y in mid[j] && y in lists[j] && home[y] == j;
    }
  }

  /** Unlink-and-push as one move from list to list. */
  lemma MoveKeepsLinks(nodes: seq<Shared>, lists: seq<seq<nat>>, home: seq<nat>, x: nat, to: nat)
    requires Partition(|nodes|, lists, home) && AllLinked(nodes, lists) && x < |nodes| && to < LISTS && home[x] != to
    requires home[x] == FREE ==> lists[FREE] != [] && x == lists[FREE][0]
    ensures var mid := if home[x] == FREE then nodes else Unlinked(nodes, x);
            AllLinked(Pushed(mid, x, At(lists[to], 0), to != FREE), Moved(lists, home[x], to, x))
  {
    hide Without, Linked, At, Unlinked, Pushed;
    OffAllLists(|nodes|, lists, home, x);
    var off := lists[home[x] := Without(lists[home[x]], x)];
    if home[x] == FREE {
      PopKeeps(nodes, lists);
      PushEverywhere(nodes, off, x, to);
    } else {
      UnlinkEverywhere(nodes, lists, home, x);
      PushEverywhere(Unlinked(nodes, x), off, x, to);
    }
  }

  lemma LinksOnly(a: seq<Shared>, b: seq<Shared>, lists: seq<seq<nat>>)
    requires AllLinked(a, lists) && |a| == |b| && forall y :: 0 <= y < |a| ==> SameLinks(a[y], b[y])
    ensures AllLinked(b, lists)
  {
    forall k | 0 <= k < LISTS ensures Linked(b, lists[k], k != FREE) {
      FrameKeeps(a, b, lists[k], k != FREE);
    }
  }

  lemma MovedHeads(lists: seq<seq<nat>>, from: nat, to: nat, x: nat)
    requires |lists| == LISTS && from < LISTS && to < LISTS && from != to
    ensures var m := Moved(lists, from, to, x);
            && m[to] == [x] + lists[to] && m[from] == Without(lists[from], x)
            && forall k :: 0 <= k < LISTS && k != from && k != to ==> m[k] == lists[k]
  {}

  lemma PushedLabels(nodes: seq<Shared>, x: nat, head: Ptr, back: bool)
    requires x < |nodes|
    ensures forall y :: 0 <= y < |nodes| ==>
              var a := Pushed(nodes, x, head, back)[y]; a == nodes[y].(next := a.next, prev := a.prev)
  {}

  lemma UnlinkedLabels(nodes: seq<Shared>, x: nat)
    requires x < |nodes|
    ensures forall y :: 0 <= y < |nodes| ==>
              var a := Unlinked(nodes, x)[y]; a == nodes[y].(next := a.next, prev := a.prev)
  {}

  /** The driver's variables describe the lists. */
  datatype State = State(nodes: seq<Shared>, heads: seq<Ptr>, freelist: Ptr, bsa: Ptr, minors: set<nat>,
                         control: seq<Control>, lists: seq<seq<nat>>, home: seq<nat>)

  ghost predicate StateOk(s: State) {
    && |s.heads| == CHANNELS == |s.control|
    && Partition(|s.nodes|, s.lists, s.home) && AllLinked(s.nodes, s.lists)
    && (forall x :: 0 <= x < |s.nodes| ==> Labelled(s.nodes[x], s.home[x]))
    && s.freelist == At(s.lists[FREE], 0) && s.bsa == At(s.lists[BSA], 0)
    && (forall c :: 0 <= c < CHANNELS ==> s.heads[c] == At(s.lists[c], 0))
    && (forall c :: 0 <= c < CHANNELS ==> (c in s.minors <==> s.lists[c] != []))
    && (forall c :: c in s.minors ==> c < CHANNELS && s.control[c].dma)
  }

  /** A channel's enable bit when its list gets a first client. */
  function Enabled(control: seq<Control>, heads: seq<Ptr>, c: nat): seq<Control>
    requires c < |control| && c < |heads|
  {
    if heads[c] == Null then control[c := control[c].(dma := true)] else control
  }

  /** Opening has set the DMA enable of channel c if this is its first client, and no
      other bit of any channel. */
  ghost predicate OnlyEnables(before: seq<Control>, after: seq<Control>, c: nat, first: bool) {
    && |after| == |before|
    && forall k :: 0 <= k < |before| ==>
         after[k].other == before[k].other && (after[k].dma <==> before[k].dma || (first && k == c))
  }

  lemma EnabledExact(control: seq<Control>, heads: seq<Ptr>, c: nat)
    requires c < |control| && c < |heads|
    ensures OnlyEnables(control, Enabled(control, heads, c), c, heads[c] == Null)
  {}

  lemma NothingEnabled(control: seq<Control>, c: nat)
    ensures OnlyEnables(control, control, c, false)
  {}

  /** The state after opening channel c. */
  lemma OpenChannelKeeps(s: State, c: nat)
    requires StateOk(s) && s.lists[FREE] != [] && c < CHANNELS
    ensures var x := s.lists[FREE][0];
            && x < |s.nodes|
            && var ready := s.nodes[x := s.nodes[x].(inUse := true, minor := c)];
               StateOk(State(Pushed(ready, x, s.heads[c], true), s.heads[c := To(x)], s.nodes[x].next, s.bsa,
                             s.minors + {c}, Enabled(s.control, s.heads, c),
                             Moved(s.lists, FREE, c, x), s.home[x := c]))
  {
    hide Without, Linked, Moved, Pushed, Unlinked, Partition;
    FreeHead(s);
    var x := s.lists[FREE][0];
    var ready := s.nodes[x := s.nodes[x].(inUse := true, minor := c)];
    PopKeeps(s.nodes, s.lists);
    LinksOnly(s.nodes, ready, s.lists);
    MoveKeepsLinks(ready, s.lists, s.home, x, c);
    MoveKeepsPartition(|s.nodes|, s.lists, s.home, x, c);
    MovedHeads(s.lists, FREE, c, x);
    PushedLabels(ready, x, s.heads[c], true);
  }

  /** The state after opening the BSA list. */
  lemma OpenBsaKeeps(s: State)
    requires StateOk(s) && s.lists[FREE] != []
    ensures var x := s.lists[FREE][0];
            && x < |s.nodes|
            && var ready := s.nodes[x := s.nodes[x].(inUse := true, minor := -1)];
               StateOk(s.(nodes := Pushed(ready, x, s.bsa, true), bsa := To(x), freelist := s.nodes[x].next,
                          lists := Moved(s.lists, FREE, BSA, x), home := s.home[x := BSA]))
  {
    hide Without, Linked, Moved, Pushed, Unlinked, Partition;
    FreeHead(s);
    var x := s.lists[FREE][0];
    var ready := s.nodes[x := s.nodes[x].(inUse := true, minor := -1)];
    PopKeeps(s.nodes, s.lists);
    LinksOnly(s.nodes, ready, s.lists);
    MoveKeepsLinks(ready, s.lists, s.home, x, BSA);
    MoveKeepsPartition(|s.nodes|, s.lists, s.home, x, BSA);
    MovedHeads(s.lists, FREE, BSA, x);
    PushedLabels(ready, x, s.bsa, true);
  }

  /** The node to be opened comes from the free list and is on no other. */
  lemma FreeHead(s: State)
    requires StateOk(s) && s.lists[FREE] != []
    ensures s.freelist == To(s.lists[FREE][0]) && |s.heads| == CHANNELS == |s.control|
    ensures forall k :: 0 <= k < CHANNELS ==> s.heads[k] == At(s.lists[k], 0) && (s.heads[k] != Null <==> k in s.minors)
    ensures s.bsa == At(s.lists[BSA], 0)
    ensures |s.home| == |s.nodes| && |s.lists| == LISTS && NoRepeats(s.lists[FREE])
    ensures var x := s.lists[FREE][0];
            && x < |s.nodes| && s.home[x] == FREE
            && forall k :: 0 <= k < FREE && At(s.lists[k], 0).To? ==>
                 At(s.lists[k], 0).n < |s.nodes| && At(s.lists[k], 0).n != x
  {}

  /** The head of a list once x has left it. */
  lemma HeadWithout(s: State, x: nat)
    requires StateOk(s) && x < |s.nodes| && s.home[x] != FREE
    ensures var l := s.lists[s.home[x]];
            && l != []
            && At(Without(l, x), 0) == (if s.nodes[x].prev == Null then s.nodes[x].next else At(l, 0))
            && (Without(l, x) == [] <==> At(Without(l, x), 0) == Null)
            && (s.nodes[x].prev.To? ==> s.nodes[x].prev.n < |s.nodes| && s.nodes[x].prev.n != x)
            && (s.nodes[x].next.To? ==> s.nodes[x].next.n < |s.nodes| && s.nodes[x].next.n != x)
            && s.nodes[x].prev != To(x) && s.nodes[x].next != To(x)
            && s.nodes[x].minor == (if s.home[x] == BSA then -1 else s.home[x])
            && s.home[x] <= BSA && |s.home| == |s.nodes| && |s.lists| == LISTS
  {
    var l := s.lists[s.home[x]];
    var i := Neighbours(s.nodes, s.lists, s.home, x);
    WithoutAt(l, i);
  }

  /** The nodes after x went back to the free list. */
  function Freed(nodes: seq<Shared>, x: nat, freelist: Ptr): seq<Shared>
    requires x < |nodes|
  {
    var a := Pushed(Unlinked(nodes, x), x, freelist, false);
    a[x := a[x].(inUse := false)]
  }

  lemma FreedNode(nodes: seq<Shared>, x: nat, freelist: Ptr)
    requires x < |nodes|
    ensures var u := Unlinked(nodes, x);
            Freed(nodes, x, freelist) == u[x := u[x].(next := freelist, prev := Null, inUse := false)]
  {
    hide Unlinked;
  }

  lemma FreedKeeps(s: State, x: nat)
    requires StateOk(s) && x < |s.nodes| && s.home[x] != FREE
    ensures var after := Freed(s.nodes, x, s.freelist);
            && |after| == |s.nodes|
            && AllLinked(after, Moved(s.lists, s.home[x], FREE, x))
            && Partition(|after|, Moved(s.lists, s.home[x], FREE, x), s.home[x := FREE])
            && forall y :: 0 <= y < |s.nodes| ==> Labelled(after[y], s.home[x := FREE][y])
  {
    hide Without, Linked, Moved, Pushed, Unlinked, At;
    var pushed := Pushed(Unlinked(s.nodes, x), x, s.freelist, false);
    MoveKeepsLinks(s.nodes, s.lists, s.home, x, FREE);
    MoveKeepsPartition(|s.nodes|, s.lists, s.home, x, FREE);
    UnlinkedLabels(s.nodes, x);
    PushedLabels(Unlinked(s.nodes, x), x, s.freelist, false);
    LinksOnly(pushed, Freed(s.nodes, x, s.freelist), Moved(s.lists, s.home[x], FREE, x));
  }

  function HeadAfter(s: State, x: nat, head: Ptr): Ptr
    requires x < |s.nodes|
  {
    if s.nodes[x].prev == Null then s.nodes[x].next else head
  }

  /** The control registers once channel c is closed: its own is written with what is
      read from channel 0. */
  function Closed(control: seq<Control>, c: nat): (r: seq<Control>)
    requires c < |control|
    ensures |r| == |control|
  {
    control[c := control[0].(dma := false)]
  }

  /** Closing a channel clears its DMA enable and changes nothing else exactly if its
      other bits are those of channel 0. */
  lemma ClosedExact(control: seq<Control>, c: nat)
    requires c < |control|
    ensures Closed(control, c) == control[c := control[c].(dma := false)] <==> control[c].other == control[0].other
  {
    assert Closed(control, c)[c] == control[0].(dma := false);
    assert control[c := control[c].(dma := false)][c] == control[c].(dma := false);
  }

  /** Closing channel 1 gives it the other bits of channel 0. */
  lemma ClosedCopies(control: seq<Control>)
    requires |control| == CHANNELS && control[0] == Control(true, 5) && control[1] == Control(true, 7)
    ensures Closed(control, 1)[1] == Control(false, 5)
  {}

  /** The state after releasing node x of channel c. */
  lemma ReleaseChannelKeeps(s: State, x: nat, c: nat)
    requires StateOk(s) && x < |s.nodes| && s.home[x] == c < CHANNELS
    ensures var head := HeadAfter(s, x, s.heads[c]);
            var last := head == Null;
            StateOk(State(Freed(s.nodes, x, s.freelist), s.heads[c := head], To(x), s.bsa,
                          if last then s.minors - {c} else s.minors,
                          if last then Closed(s.control, c) else s.control,
                          Moved(s.lists, c, FREE, x), s.home[x := FREE]))
  {
    hide Without, Linked, Moved, Pushed, Unlinked, Partition, Freed;
    HeadWithout(s, x);
    FreedKeeps(s, x);
    MovedHeads(s.lists, c, FREE, x);
  }

  /** The state after releasing a BSA node. */
  lemma ReleaseBsaKeeps(s: State, x: nat)
    requires StateOk(s) && x < |s.nodes| && s.home[x] == BSA
    ensures StateOk(s.(nodes := Freed(s.nodes, x, s.freelist), freelist := To(x), bsa := HeadAfter(s, x, s.bsa),
                       lists := Moved(s.lists, BSA, FREE, x), home := s.home[x := FREE]))
  {
    hide Without, Linked, Moved, Pushed, Unlinked, Partition, Freed;
    HeadWithout(s, x);
    FreedKeeps(s, x);
    MovedHeads(s.lists, BSA, FREE, x);
  }

  /** A node as tpr_probe chains it: each in front of the one before. */
  function FreshNode(i: nat): Shared {
    Shared(false, 0, if i > 0 then To(i - 1) else Null, Null)
  }

  function FreshList(): seq<nat> {
    seq(OPEN_SHARES, i requires 0 <= i < OPEN_SHARES => OPEN_SHARES - 1 - i)
  }

  lemma ProbeOk(s: State)
    requires |s.nodes| == OPEN_SHARES == |s.home| && |s.heads| == CHANNELS == |s.control|
    requires forall i :: 0 <= i < OPEN_SHARES ==> s.nodes[i] == FreshNode(i) && s.home[i] == FREE
    requires s.lists == seq(FREE, _ => []) + [FreshList()]
    requires (forall c :: 0 <= c < CHANNELS ==> s.heads[c] == Null) && s.minors == {}
    requires s.freelist == To(OPEN_SHARES - 1) && s.bsa == Null
    ensures StateOk(s)
  {
    hide At, FreshList;
    var free := FreshList();
    FreshListIs();
    forall k | 0 <= k < LISTS ensures Linked(s.nodes, s.lists[k], k != FREE) {
      if k == FREE {
        forall i | 0 <= i < OPEN_SHARES ensures s.nodes[free[i]].next == At(free, i + 1) {
          AtFresh(i + 1);
        }
      }
    }
    AtFresh(0);
    AtOutside([], 0);
  }

  lemma FreshListIs()
    ensures |FreshList()| == OPEN_SHARES && NoRepeats(FreshList())
    ensures forall i :: 0 <= i < OPEN_SHARES ==> FreshList()[i] == OPEN_SHARES - 1 - i
    ensures forall x :: 0 <= x < OPEN_SHARES ==> x in FreshList()
  {
    forall x | 0 <= x < OPEN_SHARES ensures x in FreshList() {
      assert FreshList()[OPEN_SHARES - 1 - x] == x;
    }
  }

  lemma AtFresh(i: int)
    requires 0 <= i <= OPEN_SHARES
    ensures At(FreshList(), i) == if i < OPEN_SHARES then To(OPEN_SHARES - 1 - i) else Null
  {}

  // ---- The driver ----

  datatype Handle = Failed | Master | Client(n: nat)

  class Clients {
    const all_shares: array<Shared>
    const shared: array<Ptr>      // head of each channel's list
    const control: array<Control> // the channels' control registers
    var freelist: Ptr
    var bsa: Ptr
    var minors: set<nat>
    var irqControl: bool
    var irqEnable: nat
    var masterInUse: bool
    ghost var lists: seq<seq<nat>>
    ghost var home: seq<nat>

    /** tpr_probe: every node is free, whatever the control registers hold. */
    constructor (registers: nat -> Control)
      ensures Valid() && !masterInUse && forall x :: 0 <= x < OPEN_SHARES ==> home[x] == FREE
    {
      hide StateOk, FreshList;
      all_shares := new Shared[OPEN_SHARES](FreshNode);
      shared := new Ptr[CHANNELS](_ => Null);
      control := new Control[CHANNELS](registers);
      freelist, bsa, minors, irqControl, irqEnable, masterInUse := To(OPEN_SHARES - 1), Null, {}, false, 0, false;
      lists := seq(FREE, _ => []) + [FreshList()];
      home := seq(OPEN_SHARES, _ => FREE);
      new;
      ProbeOk(Now());
    }

    ghost function Now(): State
      reads this, all_shares, shared, control
    {
      State(all_shares[..], shared[..], freelist, bsa, minors, control[..], lists, home)
    }

    ghost predicate Valid()
      reads this, all_shares, shared, control
    {
      all_shares.Length == OPEN_SHARES && StateOk(Now())
    }

    /** The list a minor number opens. */
    static function Target(minor: nat): nat {
      if minor < CHANNELS then minor else BSA
    }

    /** The channel part of tpr_open: enable the channel on its first client. */
    method EnableFirst(minor: nat)
      requires minor < CHANNELS == control.Length == shared.Length
      modifies this`minors, this`irqControl, this`irqEnable, control
      ensures minors == if shared[minor] == Null then old(minors) + {minor} else old(minors)
      ensures control[..] == Enabled(old(control[..]), shared[..], minor)
      ensures irqControl == (old(irqControl) || shared[minor] == Null)
      ensures irqEnable == old(irqEnable) + (if shared[minor] == Null then 1 else 0)
    {
      if shared[minor] == Null {
        minors := minors + {minor};
        control[minor] := control[minor].(dma := true);
        irqControl := true;
        irqEnable := irqEnable + 1;
      }
    }

    /** Link node x in front of the list starting at `head`. */
    method PushFront(x: nat, head: Ptr)
      requires x < all_shares.Length && (head.To? ==> head.n < all_shares.Length && head.n != x)
      modifies all_shares
      ensures all_shares[..] == Pushed(old(all_shares[..]), x, head, true)
    {
      all_shares[x] := all_shares[x].(next := head);
      if head.To? {
        all_shares[head.n] := all_shares[head.n].(prev := To(x));
      }
      all_shares[x] := all_shares[x].(prev := Null);
    }

    /** tpr_open: minors 0..13 are channels, 14 the master, 15 BSA. */
    method Open(minor: nat) returns (h: Handle)
      requires Valid()
      modifies this, all_shares, shared, control
      ensures Valid()
      ensures h.Client? <==> (minor < CHANNELS || minor == 15) && old(lists[FREE]) != []
      ensures h.Client? ==> h.n == old(lists[FREE])[0] && lists == Moved(old(lists), FREE, Target(minor), h.n)
                            && home == old(home)[h.n := Target(minor)]
      ensures !h.Client? ==> lists == old(lists) && home == old(home)
      ensures h.Master? <==> minor == 14 && !old(masterInUse)
      ensures masterInUse == (old(masterInUse) || h.Master?)
      ensures var first := h.Client? && minor < CHANNELS && old(lists[minor]) == [];
              && OnlyEnables(old(control[..]), control[..], minor, first)
              && irqControl == (old(irqControl) || first) && irqEnable == old(irqEnable) + (if first then 1 else 0)
    {
      hide OnlyEnables, StateOk;
      ListCount(Now());
      NothingEnabled(control[..], minor);
      if minor < CHANNELS || minor == 15 {
        h := OpenClient(minor);
      } else if minor == 14 {
        if masterInUse {
          return Failed;
        }
        masterInUse := true;
        h := Master;
      } else {
        h := Failed;
      }
    }

    method OpenClient(minor: nat) returns (h: Handle)
      requires Valid() && (minor < CHANNELS || minor == 15)
      modifies this`freelist, this`bsa, this`minors, this`irqControl, this`irqEnable, this`lists, this`home
      modifies all_shares, shared, control
      ensures Valid()
      ensures if old(lists[FREE]) == [] then h == Failed && lists == old(lists) && home == old(home)
              else h == Client(old(lists[FREE])[0]) && lists == Moved(old(lists), FREE, Target(minor), h.n)
                   && home == old(home)[h.n := Target(minor)]
      ensures var first := h.Client? && minor < CHANNELS && old(lists[minor]) == [];
              && OnlyEnables(old(control[..]), control[..], minor, first)
              && irqControl == (old(irqControl) || first) && irqEnable == old(irqEnable) + (if first then 1 else 0)
    {
      hide OnlyEnables, Without, Linked, Moved, Pushed, Unlinked, Partition, AllLinked, Labelled, StateOk, At;
      Sizes(Now());
      NothingEnabled(control[..], minor);
      if minor < CHANNELS {
        HeadIsNull(Now(), minor);
      }
      if freelist == Null {
        return Failed;
      }
      FreeHead(Now());
      var x := freelist.n;
      ghost var mark := if minor < CHANNELS then minor else -1;
      ghost var ready := all_shares[..][x := all_shares[x].(inUse := true, minor := mark)];
      freelist := all_shares[x].next;
      all_shares[x] := all_shares[x].(inUse := true);
      if minor < CHANNELS {
        OpenChannelKeeps(old(Now()), minor);
        EnabledExact(control[..], shared[..], minor);
        EnableFirst(minor);
        all_shares[x] := all_shares[x].(minor := minor);
        assert all_shares[..] == ready;
        PushFront(x, shared[minor]);
        shared[minor] := To(x);
        assert shared[..] == old(shared[..])[minor := To(x)];
      } else {
        OpenBsaKeeps(old(Now()));
        all_shares[x] := all_shares[x].(minor := -1);
        assert all_shares[..] == ready;
        PushFront(x, bsa);
        bsa := To(x);
      }
      lists, home := Moved(lists, FREE, Target(minor), x), home[x := Target(minor)];
      assert minor < CHANNELS ==> minors == old(minors) + {minor};
      h := Client(x);
    }

    /** The neighbours of x point past it. */
    method Unlink(x: nat)
      requires x < all_shares.Length && all_shares[x].prev != To(x) && all_shares[x].next != To(x)
      requires all_shares[x].prev.To? ==> all_shares[x].prev.n < all_shares.Length
      requires all_shares[x].next.To? ==> all_shares[x].next.n < all_shares.Length
      modifies all_shares
      ensures all_shares[..] == Unlinked(old(all_shares[..]), x)
    {
      var node := all_shares[x];
      if node.prev.To? {
        all_shares[node.prev.n] := all_shares[node.prev.n].(next := node.next);
      }
      if node.next.To? {
        all_shares[node.next.n] := all_shares[node.next.n].(prev := node.prev);
      }
    }

    /** tpr_release: false if the file is not open. */
    method Release(h: Handle) returns (ok: bool)
      requires Valid() && h != Failed && (h.Client? ==> h.n < OPEN_SHARES)
      modifies this, all_shares, shared, control
      ensures Valid()
      ensures ok <==> if h.Master? then old(masterInUse) else old(home[h.n]) != FREE
      ensures h.Client? && ok ==> lists == Moved(old(lists), old(home[h.n]), FREE, h.n)
      ensures h.Client? && ok ==> home == old(home)[h.n := FREE]
      ensures h.Client? && ok && old(home[h.n]) < CHANNELS && lists[old(home[h.n])] == [] ==>
                old(home[h.n]) !in minors && control[..] == Closed(old(control[..]), old(home[h.n]))
      ensures h.Client? && ok && (old(home[h.n]) == BSA || lists[old(home[h.n])] != []) ==>
                control[..] == old(control[..])
      ensures irqControl == old(irqControl) && irqEnable == old(irqEnable)
      ensures h.Master? || !ok ==> control[..] == old(control[..])
      ensures h.Master? || !ok ==> lists == old(lists) && home == old(home)
      ensures masterInUse == (old(masterInUse) && !h.Master?)
    {
      hide Moved, Closed, StateOk;
      if h.Master? {
        ok := masterInUse;
        masterInUse := false;
      } else {
        InUse(Now(), h.n);
        ok := all_shares[h.n].inUse;
        if ok {
          ReleaseClient(h.n);
        }
      }
    }

    /** Back to the free list. */
    method FreeNode(x: nat)
      requires x < all_shares.Length
      modifies this`freelist, all_shares
      ensures freelist == To(x)
      ensures all_shares[..] == old(all_shares[..])[x := old(all_shares[x]).(next := old(freelist), prev := Null,
                                                                             inUse := false)]
    {
      all_shares[x] := all_shares[x].(prev := Null);
      if freelist != Null {
        all_shares[x] := all_shares[x].(next := freelist);
      } else {
        all_shares[x] := all_shares[x].(next := Null);
      }
      freelist := To(x);
      all_shares[x] := all_shares[x].(inUse := false);
    }

    /** The channel's head moves on; its last client turns the channel off. */
    method LeaveChannel(c: nat, node: Shared)
      requires c < CHANNELS == shared.Length == control.Length
      modifies this`minors, shared, control
      ensures shared[..] == if node.prev == Null then old(shared[..])[c := node.next] else old(shared[..])
      ensures minors == if shared[c] == Null then old(minors) - {c} else old(minors)
      ensures control[..] == if shared[c] == Null then Closed(old(control[..]), c) else old(control[..])
    {
      if node.prev == Null {
        shared[c] := node.next;
      }
      if shared[c] == Null {
        control[c] := control[0].(dma := false);
        minors := minors - {c};
      }
    }

    method ReleaseClient(x: nat)
      requires Valid() && x < OPEN_SHARES && home[x] != FREE
      modifies this`freelist, this`bsa, this`minors, this`lists, this`home, all_shares, shared, control
      ensures Valid()
      ensures lists == Moved(old(lists), old(home[x]), FREE, x) && home == old(home)[x := FREE]
      ensures old(home[x]) < CHANNELS && lists[old(home[x])] == [] ==>
                old(home[x]) !in minors && control[..] == Closed(old(control[..]), old(home[x]))
      ensures old(home[x]) == BSA || lists[old(home[x])] != [] ==> control[..] == old(control[..])
    {
      hide Closed, Without, Linked, Moved, Pushed, Unlinked, Partition, AllLinked, At, Freed, StateOk;
      ghost var s := Now();
      HeadWithout(s, x);
      FreedNode(s.nodes, x, s.freelist);
      Sizes(s);
      var node := all_shares[x];
      Unlink(x);
      if node.minor < 0 {
        ReleaseBsaKeeps(s, x);
        if node.prev == Null {
          bsa := node.next;
        }
      } else {
        ReleaseChannelKeeps(s, x, node.minor);
        LeaveChannel(node.minor, node);
      }
      FreeNode(x);
      lists, home := Moved(lists, home[x], FREE, x), home[x := FREE];
      if node.minor >= 0 {
        assert shared[..] == s.heads[node.minor := HeadAfter(s, x, s.heads[node.minor])];
        HeadIsNull(Now(), node.minor);
      }
    }
  }

  lemma InUse(s: State, x: nat)
    requires StateOk(s) && x < |s.nodes|
    ensures |s.home| == |s.nodes| && (s.nodes[x].inUse <==> s.home[x] != FREE)
  {}

  lemma HeadIsNull(s: State, c: nat)
    requires StateOk(s) && c < CHANNELS
    ensures |s.heads| == CHANNELS && |s.lists| == LISTS && (s.heads[c] == Null <==> s.lists[c] == [])
    ensures c in s.minors <==> s.lists[c] != []
  {}

  lemma ListCount(s: State)
    requires StateOk(s)
    ensures |s.lists| == LISTS
  {}

  lemma Sizes(s: State)
    requires StateOk(s)
    ensures |s.heads| == CHANNELS == |s.control| && |s.lists| == LISTS && |s.home| == |s.nodes|
    ensures s.freelist == Null <==> s.lists[FREE] == []
  {}
}
