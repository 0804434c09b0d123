/** Waking readers: the bottom half publishes, then walks the client lists without
    the lock and sets pendingirq, while readers test and clear their flags, and
    clients come and go, between any two of its steps. */
module TprWake {
  import opened TprClients
  import opened TprTypes

  /** The wmask bit that announces messages for list l. */
  function BitOf(l: nat): nat {
    if l < BSA then l else BSA_BIT
  }

  /** Where the handler stands. Walking(l, at, flagged): in the loop of list l with its
      cursor at a node, or at the end of a list; the node's flag has just been set. */
  datatype Phase = Resting | Publishing | Walking(l: nat, at: Ptr, flagged: bool)

  /** Outcome of tpr_read. */
  datatype Read = Again | Woken

  /** The nodes' lists and homes are those of open and release. */
  datatype State = State(phase: Phase, wmask: set<nat>, lists: seq<seq<nat>>, home: seq<nat>, pending: set<nat>)

  /** Clients on the lists whose bits are in `mask`. */
  function Members(home: seq<nat>, mask: set<nat>): set<nat> {
    set x | 0 <= x < |home| && Marked(home[x], mask) :: x
  }

  predicate Marked(l: nat, mask: set<nat>) {
    l != FREE && BitOf(l) in mask
  }

  /** A list from node x on. */
  function From(l: seq<nat>, x: nat): seq<nat> {
    if l == [] || l[0] == x then l else From(l[1..], x)
  }

  /** What the `next` pointers lead to from the cursor on, whichever list that is. */
  function Rest(s: State, at: Ptr): seq<nat> {
    if at.To? && at.n < |s.home| && s.home[at.n] < |s.lists| then From(s.lists[s.home[at.n]], at.n) else []
  }

  /** The running handler will still set the flag of client x. */
  ghost predicate Owed(s: State, x: nat)
    requires x < |s.home|
  {
    match s.phase
    case Resting => false
    case Publishing => Marked(s.home[x], s.wmask)
    case Walking(cur, at, flagged) =>
      || (x in Rest(s, at) && !(flagged && at == To(x)))
      || (cur < s.home[x] && Marked(s.home[x], s.wmask))
  }

  ghost predicate WellFormed(s: State) {
    && Partition(OPEN_SHARES, s.lists, s.home)
    && (s.phase.Walking? ==> s.phase.l < FREE && (s.phase.at.To? ==> s.phase.at.n < OPEN_SHARES))
  }

  /** No lost wake-up: whoever has unseen messages is a client and has its flag set or
      is owed a wake. */
  ghost predicate Covered(s: State, unseen: set<nat>)
    requires WellFormed(s)
  {
    forall x :: x in unseen ==> x < OPEN_SHARES && s.home[x] != FREE && (x in s.pending || Owed(s, x))
  }

  // ---- Walking along lists that change ----

  lemma {:induction false} FromIs(l: seq<nat>, i: nat)
    requires i < |l| && NoRepeats(l)
    ensures From(l, l[i]) == l[i..]
    decreases |l|
  {
    if i > 0 {
      assert l[1..][i - 1] == l[i];
      FromIs(l[1..], i - 1);
    }
  }

  /** The cursor moves on by one node. */
  lemma NextFrom(l: seq<nat>, x: nat)
    requires x in l && NoRepeats(l)
    ensures var f := From(l, x);
            && f != [] && f[0] == x && x !in f[1..]
            && (|f| > 1 ==> f[1] in l && From(l, f[1]) == f[1..])
            && forall y :: y in f ==> y in l
  {
    hide From;
    var i :| 0 <= i < |l| && l[i] == x;
    FromIs(l, i);
    if i + 1 < |l| {
      FromIs(l, i + 1);
    }
  }

  lemma {:induction false} FromWithout(l: seq<nat>, x: nat, c: nat, y: nat)
    requires c != x && y != x && y in From(l, c)
    ensures y in From(Without(l, x), c)
    decreases |l|
  {
    if l == [] || l[0] == c {
      StillThere(l, x, y);
    } else if l[0] != x {
      FromWithout(l[1..], x, c, y);
    }
  }

  lemma {:induction false} StillThere(l: seq<nat>, x: nat, y: nat)
    requires y != x && y in l
    ensures y in Without(l, x)
    decreases |l|
  {
    if l[0] != x && l[0] != y {
      StillThere(l[1..], x, y);
    }
  }

  lemma FromPushed(l: seq<nat>, x: nat, c: nat)
    ensures From([x] + l, c) == if c == x then [x] + l else From(l, c)
  {
    assert ([x] + l)[1..] == l;
  }

  /** The state with node x moved to the front of list `to`. */
  function AfterMove(s: State, x: nat, to: nat): State
    requires |s.lists| == LISTS && x < |s.home| && s.home[x] < LISTS && to < LISTS
  {
    s.(lists := Moved(s.lists, s.home[x], to, x), home := s.home[x := to])
  }

  /** Clients that the cursor does not lose when node x under it changes lists; it
      never loses any when it is at another node. */
  lemma RestMoved(s: State, x: nat, to: nat, y: nat, at: Ptr)
    requires WellFormed(s) && x < OPEN_SHARES && to < LISTS && s.home[x] != to
    requires y != x && at != To(x) && (at.To? ==> at.n < OPEN_SHARES) && y in Rest(s, at)
    ensures y in Rest(AfterMove(s, x, to), at)
  {
    hide From, Without;
    var c, h := at.n, s.home[at.n];
    FromPushed(s.lists[to], x, c);
    if h == s.home[x] {
      FromWithout(s.lists[h], x, c, y);
    }
  }

  lemma RestAt(s: State, at: Ptr, y: nat)
    requires WellFormed(s) && (at.To? ==> at.n < OPEN_SHARES) && y in Rest(s, at)
    ensures at.To? && y < OPEN_SHARES && s.home[y] == s.home[at.n]
  {
    hide From;
    var l := s.lists[s.home[at.n]];
    NextFrom(l, at.n);
    var i :| 0 <= i < |l| && l[i] == y;
  }

  /** The clients that the walk forgets when its cursor's node is released: those
      behind it, unless their flag is set or a later loop reaches them. */
  ghost predicate Forgotten(s: State, x: nat, unseen: set<nat>, y: nat)
    requires WellFormed(s) && y < OPEN_SHARES
  {
    && y != x && y in unseen && s.phase.Walking? && s.phase.at == To(x) && y in Rest(s, To(x))
    && y !in s.pending && !(s.phase.l < s.home[y] && Marked(s.home[y], s.wmask))
  }

  lemma ReleaseForgets(s: State, x: nat, unseen: set<nat>)
    requires WellFormed(s) && Covered(s, unseen) && x < OPEN_SHARES && s.home[x] != FREE
    ensures var v := AfterMove(s, x, FREE);
            && WellFormed(v)
            && (Covered(v, unseen - {x}) <==> forall y :: 0 <= y < OPEN_SHARES ==> !Forgotten(s, x, unseen, y))
  {
    hide Rest, Moved, Partition;
    HomesInRange(s);
    var v := AfterMove(s, x, FREE);
    MoveKeepsPartition(OPEN_SHARES, s.lists, s.home, x, FREE);
    forall y | 0 <= y < OPEN_SHARES && y in unseen && y != x
      ensures y in v.pending || Owed(v, y) <==> !Forgotten(s, x, unseen, y)
    {
      if s.phase.Walking? {
        var at := s.phase.at;
        if at == To(x) {
          if y in Rest(v, at) {
            RestAt(v, at, y);
          }
        } else if y in Rest(s, at) {
          RestMoved(s, x, FREE, y, at);
        }
      }
    }
  }

  lemma HomesInRange(s: State)
    requires WellFormed(s)
    ensures |s.lists| == LISTS && |s.home| == OPEN_SHARES && forall x :: 0 <= x < OPEN_SHARES ==> s.home[x] < LISTS
  {}

  lemma OpenKeeps(s: State, x: nat, to: nat, unseen: set<nat>)
    requires WellFormed(s) && Covered(s, unseen) && x < OPEN_SHARES && s.home[x] == FREE && to < FREE
    ensures var v := AfterMove(s, x, to);
            WellFormed(v) && Covered(v, unseen)
  {
    hide Rest, Moved, Partition;
    HomesInRange(s);
    var v := AfterMove(s, x, to);
    MoveKeepsPartition(OPEN_SHARES, s.lists, s.home, x, to);
    forall y | 0 <= y < OPEN_SHARES && y in unseen ensures v.home[y] != FREE && (y in v.pending || Owed(v, y)) {
      if s.phase.Walking? && y in Rest(s, s.phase.at) {
        RestAt(s, s.phase.at, y);
        if s.phase.at != To(x) {
          RestMoved(s, x, to, y, s.phase.at);
        }
      }
    }
  }

  // ---- The steps of the walk ----

  function Flagged(s: State): State
    requires s.phase.Walking? && s.phase.at.To?
  {
    s.(pending := s.pending + {s.phase.at.n}, phase := Walking(s.phase.l, s.phase.at, true))
  }

  function Advanced(s: State): State
    requires s.phase.Walking?
  {
    s.(phase := Walking(s.phase.l, At(Rest(s, s.phase.at), 1), false))
  }

  /** The loop of list l begins at the list's head if its bit is set. */
  function Entered(s: State, l: nat): State
    requires l < |s.lists|
  {
    s.(phase := Walking(l, if BitOf(l) in s.wmask then At(s.lists[l], 0) else Null, false))
  }

  lemma FlagKeeps(s: State, unseen: set<nat>)
    requires WellFormed(s) && s.phase.Walking? && s.phase.at.To?
    ensures WellFormed(Flagged(s)) && (Covered(s, unseen) ==> Covered(Flagged(s), unseen))
    ensures var rest := Rest(s, s.phase.at);
            rest != [] && Rest(Flagged(s), s.phase.at) == rest
  {
    hide From, NoRepeats;
    NextFrom(s.lists[s.home[s.phase.at.n]], s.phase.at.n);
  }

  lemma AdvanceKeeps(s: State, unseen: set<nat>)
    requires WellFormed(s) && s.phase.Walking? && s.phase.at.To? && s.phase.flagged
    ensures WellFormed(Advanced(s)) && (Covered(s, unseen) ==> Covered(Advanced(s), unseen))
    ensures var rest := Rest(s, s.phase.at);
            rest != [] && Rest(Advanced(s), Advanced(s).phase.at) == rest[1..]
  {
    hide From, NoRepeats;
    var list := s.lists[s.home[s.phase.at.n]];
    NextFrom(list, s.phase.at.n);
    var rest := From(list, s.phase.at.n);
    if |rest| > 1 {
      OnItsList(s, s.home[s.phase.at.n], rest[1]);
    }
  }

  lemma OnItsList(s: State, k: nat, x: nat)
    requires WellFormed(s) && k < LISTS && x in s.lists[k]
    ensures x < OPEN_SHARES && s.home[x] == k
  {}

  lemma EnterKeeps(s: State, l: nat, unseen: set<nat>)
    requires WellFormed(s) && l < FREE
    requires if s.phase == Publishing then l == 0 else s.phase.Walking? && s.phase.at == Null && l == s.phase.l + 1
    ensures WellFormed(Entered(s, l)) && (Covered(s, unseen) ==> Covered(Entered(s, l), unseen))
  {
    hide From, NoRepeats;
    var v := Entered(s, l);
    if BitOf(l) in s.wmask && s.lists[l] != [] {
      OnItsList(s, l, s.lists[l][0]);
      assert Rest(v, v.phase.at) == s.lists[l] by {
        FromHead(s.lists[l]);
      }
    }
  }

  lemma FromHead(l: seq<nat>)
    requires l != []
    ensures From(l, l[0]) == l
  {}

  lemma WalksLists(s: State)
    requires WellFormed(s) && s.phase.Walking?
    ensures |s.lists| == LISTS && s.phase.l < FREE
  {}

  lemma RestKeeps(s: State, unseen: set<nat>)
    requires WellFormed(s) && s.phase.Walking? && s.phase.at == Null && s.phase.l + 1 == FREE
    ensures WellFormed(s.(phase := Resting)) && (Covered(s, unseen) ==> Covered(s.(phase := Resting), unseen))
  {}

  /** The cursor is at a node of a list that is to be woken. */
  ghost predicate OnMarked(s: State)
    requires WellFormed(s)
  {
    s.phase.Walking? && s.phase.at.To? ==> Marked(s.home[s.phase.at.n], s.wmask)
  }

  lemma AdvanceMarked(s: State)
    requires WellFormed(s) && OnMarked(s) && s.phase.Walking? && s.phase.at.To?
    ensures WellFormed(Advanced(s)) ==> OnMarked(Advanced(s))
  {
    hide From, NoRepeats;
    var at := At(Rest(s, s.phase.at), 1);
    if at.To? {
      RestAt(s, s.phase.at, at.n);
    }
  }

  lemma EnterMarked(s: State, l: nat)
    requires WellFormed(s) && l < FREE
    ensures WellFormed(Entered(s, l)) ==> OnMarked(Entered(s, l))
  {
    hide NoRepeats;
    if BitOf(l) in s.wmask && s.lists[l] != [] {
      OnItsList(s, l, s.lists[l][0]);
    }
  }

  lemma SameCursor(s: State)
    requires WellFormed(s) && s.phase.Walking? && s.phase.at.To?
    ensures OnMarked(s) && WellFormed(Flagged(s)) ==> OnMarked(Flagged(s))
  {}

  lemma EnteredIs(s: State, l: nat)
    requires l < |s.lists|
    ensures Entered(s, l) == s.(phase := Entered(s, l).phase)
    ensures Entered(s, l).phase.Walking? && Entered(s, l).phase.l == l
  {}

  lemma AtRest(s: State)
    ensures WellFormed(s.(phase := Resting)) ==> OnMarked(s.(phase := Resting))
  {}

  lemma RestCovered(s: State, unseen: set<nat>)
    requires WellFormed(s) && s.phase == Resting && Covered(s, unseen)
    ensures unseen <= s.pending
  {}

  class Waker {
    var s: State
    ghost var unseen: set<nat>  // clients with messages published since they last cleared their flag

    ghost predicate Valid()
      reads this
    {
      WellFormed(s) && Covered(s, unseen)
    }

    constructor ()
      ensures Valid() && unseen == {} && s.phase == Resting && s.pending == {} && s.lists[0] == []
      ensures s.lists[FREE] == FreshList() && forall x :: 0 <= x < OPEN_SHARES ==> s.home[x] == FREE
    {
      s := State.State(Resting, {}, seq(FREE, _ => []) + [FreshList()], seq(OPEN_SHARES, _ => FREE), {});
      unseen := {};
      FreshListIs();
    }

    method StartHandler()
      requires Valid() && s.phase == Resting
      modifies this
      ensures Valid() && unseen == old(unseen) && s == old(s).(phase := Publishing, wmask := {})
    {
      s := s.(phase := Publishing, wmask := {});
    }

    /** A message for the lists of `mask` enters the queues. */
    method Publish(mask: set<nat>)
      requires Valid() && s.phase == Publishing
      modifies this
      ensures Valid() && s == old(s).(wmask := old(s.wmask) + mask)
      ensures unseen == old(unseen) + Members(s.home, mask)
    {
      s := s.(wmask := s.wmask + mask);
      unseen := unseen + Members(s.home, mask);
    }

    method StartWaking()
      requires Valid() && s.phase == Publishing
      modifies this
      ensures Valid() && unseen == old(unseen)
      ensures s == old(s).(phase := Walking(0, if 0 in old(s.wmask) then At(old(s.lists)[0], 0) else Null, false))
      ensures OnMarked(s)
    {
      EnterKeeps(s, 0, unseen);
      EnterMarked(s, 0);
      s := Entered(s, 0);
    }

    /** One step of the wake loops: set the flag of the cursor's node, follow its
        `next` pointer, go on to the next list, or return. */
    method WakeStep()
      requires WellFormed(s) && s.phase.Walking?
      modifies this
      ensures WellFormed(s) && unseen == old(unseen) && (old(Valid()) ==> Valid())
      ensures s == old(s).(phase := s.phase, pending := s.pending)
      ensures s.pending == if old(s.phase.at.To? && !s.phase.flagged) then old(s.pending) + {old(s.phase.at.n)}
              else old(s.pending)
      ensures old(s.phase.at.To?) ==>
                && s.phase.Walking? && s.phase.l == old(s.phase.l) && s.phase.flagged == !old(s.phase.flagged)
                && var rest := old(Rest(s, s.phase.at));
                   rest != [] && Rest(s, s.phase.at) == if old(s.phase.flagged) then rest[1..] else rest
      ensures old(s.phase.at) == Null ==>
                s.phase == if old(s.phase.l) + 1 < FREE then s.phase else Resting
      ensures old(s.phase.at) == Null && old(s.phase.l) + 1 < FREE ==>
                s.phase.Walking? && s.phase.l == old(s.phase.l) + 1
      ensures old(OnMarked(s)) ==> OnMarked(s)
    {
      hide WellFormed, Covered, Rest, OnMarked, Entered;
      var cur, at := s.phase.l, s.phase.at;
      if at.To? {
        if !s.phase.flagged {
          FlagKeeps(s, unseen);
          SameCursor(s);
          s := s.(pending := s.pending + {at.n}, phase := Walking(cur, at, true));
        } else {
          AdvanceKeeps(s, unseen);
          if OnMarked(s) {
            AdvanceMarked(s);
          }
          s := s.(phase := Walking(cur, At(Rest(s, at), 1), false));
        }
      } else if cur + 1 < FREE {
        EnterKeeps(s, cur + 1, unseen);
        WalksLists(s);
        EnterMarked(s, cur + 1);
        EnteredIs(s, cur + 1);
        s := Entered(s, cur + 1);
      } else {
        WalksLists(s);
        RestKeeps(s, unseen);
        AtRest(s);
        s := s.(phase := Resting);
      }
    }

    /** tpr_read by client x: its flag is tested and cleared in one step; what was
        published before is then in the queues for it to see. */
    method TryRead(x: nat) returns (r: Read)
      requires Valid() && x < OPEN_SHARES
      modifies this
      ensures Valid() && s == old(s).(pending := old(s.pending) - {x})
      ensures r == if x in old(s.pending) then Woken else Again
      ensures r == Again && x in unseen ==> Owed(s, x)
      ensures unseen == if r == Woken then old(unseen) - {x} else old(unseen)
    {
      if x !in s.pending {
        return Again;
      }
      s := s.(pending := s.pending - {x});
      unseen := unseen - {x};
      r := Woken;
    }

    /** A node off the free list joins list l at any time, also during the walk; its
        flag may be stale from an earlier use. */
    method Join(l: nat)
      requires Valid() && l < FREE && s.lists[FREE] != []
      modifies this
      ensures Valid() && unseen == old(unseen)
      ensures s == AfterMove(old(s), old(s.lists[FREE][0]), l)
    {
      var x := s.lists[FREE][0];
      OpenKeeps(s, x, l, unseen);
      s := s.(lists := Moved(s.lists, FREE, l, x), home := s.home[x := l]);
    }

    /** Client x is released at any time, also during the walk, which holds no lock.
        That is harmless exactly if the walk's cursor is not at x with a client behind
        it that is still to be woken: the cursor moves to the free list with x. */
    method Leave(x: nat)
      requires Valid() && x < OPEN_SHARES && s.home[x] != FREE
      modifies this
      ensures WellFormed(s) && unseen == old(unseen) - {x} && s == AfterMove(old(s), x, FREE)
      ensures Valid() <==> forall y :: 0 <= y < OPEN_SHARES ==> !Forgotten(old(s), x, old(unseen), y)
    {
      ReleaseForgets(s, x, unseen);
      s := s.(lists := Moved(s.lists, s.home[x], FREE, x), home := s.home[x := FREE]);
      unseen := unseen - {x};
    }

    /** Left alone, the wake loops return, and then every client with unseen
        messages has its flag set: its reader will not sleep. */
    method FinishWaking()
      requires WellFormed(s) && s.phase.Walking?
      modifies this
      ensures WellFormed(s) && s.phase == Resting && unseen == old(unseen)
      ensures s == old(s).(phase := Resting, pending := s.pending)
      ensures old(s.pending) <= s.pending && (old(Valid()) ==> Valid() && unseen <= s.pending)
      ensures old(OnMarked(s)) ==> s.pending <= old(s.pending) + Members(s.home, s.wmask)
    {
      hide WellFormed, Covered, Rest, Marked;
      while s.phase != Resting
        invariant WellFormed(s) && s.phase != Publishing && unseen == old(unseen) && old(s.pending) <= s.pending
        invariant s == old(s).(phase := s.phase, pending := s.pending)
        invariant old(OnMarked(s)) ==> OnMarked(s) && s.pending <= old(s.pending) + Members(s.home, s.wmask)
        invariant old(Valid()) ==> Valid()
        decreases if s.phase.Walking? then FREE - s.phase.l else 0,
                  if s.phase.Walking? then |Rest(s, s.phase.at)| else 0,
                  s.phase.Walking? && !s.phase.flagged
      {
        if OnMarked(s) && s.phase.at.To? {
          CursorIsMember(s);
        }
        WalksLists(s);
        WakeStep();
        if s.phase.Walking? {
          WalksLists(s);
        }
      }
      if old(Valid()) {
        RestCovered(s, unseen);
      }
    }
  }

  lemma CursorIsMember(s: State)
    requires WellFormed(s) && OnMarked(s) && s.phase.Walking? && s.phase.at.To?
    ensures s.phase.at.n in Members(s.home, s.wmask)
  {}

  /** The first two clients of channel 0. */
  lemma TwoClients(s: State)
    requires |s.lists| == LISTS && |s.home| == OPEN_SHARES && s.lists[0] == [] && s.lists[FREE] == FreshList()
    requires forall x :: 0 <= x < OPEN_SHARES ==> s.home[x] == FREE
    ensures s.lists[FREE] != [] && s.lists[FREE][0] == 255
    ensures var u := AfterMove(s, 255, 0);
            && u.lists[FREE] != [] && u.lists[FREE][0] == 254
            && var v := AfterMove(u, 254, 0);
               v.lists[0] == [254, 255] && forall x :: 0 <= x < OPEN_SHARES ==> v.home[x] == if x < 254 then FREE else 0
  {
    hide FreshList;
    FreshListIs();
    var free := FreshList();
    assert Without(free, 255) == free[1..];
  }

  /** The wake of client 255 is lost when the client under the cursor is released:
      255 has messages, no flag, and the walk no longer reaches it. */
  method LostWake() returns (w: Waker)
    ensures fresh(w) && WellFormed(w.s) && w.unseen == {255} && 255 !in w.s.pending && !Owed(w.s, 255)
  {
    hide FreshList, Moved, Without;
    w := new Waker();
    ghost var s := w.s;
    TwoClients(s);
    w.Join(0);
    w.Join(0);
    w.StartHandler();
    w.Publish({0});
    assert w.unseen == {254, 255};
    w.StartWaking();
    assert w.s.phase == Walking(0, To(254), false);
    w.Leave(254);
    NotReached(w.s);
  }

  lemma NotReached(s: State)
    requires WellFormed(s) && s.phase == Walking(0, To(254), false) && s.home[254] == FREE && s.home[255] == 0
    ensures !Owed(s, 255)
  {
    hide Rest;
    if 255 in Rest(s, To(254)) {
      RestAt(s, To(254), 255);
    }
  }
}
