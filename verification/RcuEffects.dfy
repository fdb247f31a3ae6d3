/**
 What the operations of the lock-free list (common/lockfree.hpp, concurrent_list) do to the list, in
 every interleaving: which nodes are on it, in which order, and when a node leaves it. The chain
 from the head is said with `Path` and `Reaches`, which only follow next pointers.
 */
module RcuEffects {
  import opened Wrappers
  import opened RcuList

  /** Following next from the head visits exactly these nodes. */
  ghost predicate ListIs(s: State, ns: seq<nat>) { Path(s.next, s.head, ns, None) }

  /** The node can be reached from the head. */
  ghost predicate OnList(s: State, n: nat) { exists k: nat :: Reaches(s.next, s.head, n, k) }

  // ---------------------------------------------------------------- chains and reachability

  lemma {:induction false} ReachesIsOnPath(next: Links, h: Option<nat>, ns: seq<nat>, n: nat, k: nat)
    requires Path(next, h, ns, None) && Reaches(next, h, n, k)
    ensures n in ns
    decreases k
  {
    assert ns != [] && h.value == ns[0];
    if k > 0 {
      PathTail(next, h, ns, None);
      ReachesIsOnPath(next, next[ns[0]], ns[1..], n, k - 1);
    }
  }

  lemma OnListIs(s: State, ns: seq<nat>, n: nat)
    requires ListIs(s, ns)
    ensures OnList(s, n) <==> n in ns
  {
    if n in ns {
      var k :| 0 <= k < |ns| && ns[k] == n;
      PathReaches(s.next, s.head, ns, None, k);
    }
    if OnList(s, n) {
      var k: nat :| Reaches(s.next, s.head, n, k);
      ReachesIsOnPath(s.next, s.head, ns, n, k);
    }
  }

  /** There is only one chain. */
  lemma {:induction false} PathIsUnique(next: Links, h: Option<nat>, ns: seq<nat>, ms: seq<nat>)
    requires Path(next, h, ns, None) && Path(next, h, ms, None)
    ensures ns == ms
    decreases |ns|
  {
    if ns != [] && ms != [] {
      PathTail(next, h, ns, None);
      PathTail(next, h, ms, None);
      PathIsUnique(next, next[ns[0]], ns[1..], ms[1..]);
    }
  }

  // ---------------------------------------------------------------- one event

  ghost function NextShape(s: State, w: Shape, e: Event): Shape
    requires Safe(s, e)
  {
    match e
    case ByThread(t, op) => ThreadShape(s, w, t, op)
    case ByReclaimer(re) => ReShape(s, w, re)
  }

  lemma StepKeeps(s: State, w: Shape, e: Event)
    requires Inv(s, w) && Enabled(s, e)
    ensures Safe(s, e) && Inv(Apply(s, e), NextShape(s, w, e))
  {
    hide Inv;
    InvIsSafe(s, w, e);
    match e {
      case ByThread(t, op) => ThreadStepKeeps(s, w, t, op);
      case ByReclaimer(re) => ReStepKeeps(s, w, re);
    }
  }

  lemma ShapeLists(s: State, w: Shape)
    requires Inv(s, w)
    ensures ListIs(s, w.live)
  {
    hide Path, Placed, Closed, ThreadsSound, ReclaimerSound;
  }

  /** One event of a run, with the shape before and after it. */
  lemma RunStep(tr: seq<State>, es: seq<Event>, i: nat, w: Shape)
    requires Trace(tr, es) && i < |es| && Inv(tr[i], w)
    ensures Enabled(tr[i], es[i]) && Safe(tr[i], es[i]) && tr[i + 1] == Apply(tr[i], es[i])
    ensures Inv(tr[i + 1], NextShape(tr[i], w, es[i]))
  {
    hide Inv, Init, Enabled, Safe, Apply, NextShape;
    StepKeeps(tr[i], w, es[i]);
  }

  /** What an event does to the list. */
  datatype Change = Same | Pushed(node: nat) | Unlinked(node: nat) | Cleared

  predicate Changes(c: Change, ns: seq<nat>, ms: seq<nat>) {
    match c
    case Same => ms == ns
    case Pushed(n) => ms == [n] + ns
    case Unlinked(n) => exists k :: 0 <= k < |ns| && ns[k] == n && ms == ns[..k] + ns[k + 1..]
    case Cleared => ms == []
  }

  predicate Erasing(th: Thread) {
    th.EraseTop? || th.EraseHead? || th.EraseSwap? || th.EraseWalk? || th.EraseFound? || th.EraseUnlink?
  }

  /** The event that changes the list that way: a push that returns, an erase that starts disposing, a clear. */
  ghost predicate Causes(s: State, e: Event, s': State, c: Change) {
    match c
    case Same => true
    case Pushed(n) =>
      e.ByThread? && e.t in s.threads && e.t in s'.threads
      && Building(s.threads[e.t]) && s.threads[e.t].node == n && s'.threads[e.t] == Inside(Some(n))
    case Unlinked(n) =>
      e.ByThread? && e.t in s.threads && e.t in s'.threads
      && Erasing(s.threads[e.t]) && s.threads[e.t].it == n && s'.threads[e.t].Splicing?
      && n in s.next && s'.threads[e.t].after == s.next[n]
    case Cleared => e.ByThread? && e.op == ClearCall
  }

  /** Leaving the building or the erasing of a node without a change. */
  ghost predicate Ends(s: State, e: Event, s': State) {
    e.ByThread? && e.t in s.threads && e.t in s'.threads
    && ((Building(s.threads[e.t]) && s'.threads[e.t].Inside?) || (Erasing(s.threads[e.t]) && s'.threads[e.t].Splicing?))
  }

  lemma PushChanges(s: State, w: Shape, t: nat) returns (c: Change)
    requires Here(s, w, t, PushCas)
    ensures var e := ByThread(t, PushCas);
            && Changes(c, w.live, ThreadShape(s, w, t, PushCas).live) && Causes(s, e, ThreadApply(s, t, PushCas), c)
            && (c != Same <==> Ends(s, e, ThreadApply(s, t, PushCas)))
  {
    hide Inv;
    c := if s.head == s.threads[t].seen then Pushed(s.threads[t].node) else Same;
  }

  /** The victim and what comes after it, as the two unlinking accesses see them. */
  lemma VictimIs(s: State, w: Shape, t: nat, op: Op)
    requires Here(s, w, t, op) && (op == EraseCas || op == EraseStore)
    ensures t in s.threads && (if op == EraseCas then s.threads[t].EraseSwap? else s.threads[t].EraseUnlink?)
    ensures var th := s.threads[t]; th.it in s.next && th.it in w.live && s.next[th.it] == th.rest
  {
    Facts(s, w, t);
    hide Inv, Path, SpliceSound;
  }

  lemma EraseCasIs(s: State, w: Shape, t: nat)
    requires ThreadSafe(s, t, EraseCas) && s.threads[t].it in w.live
    ensures var th, s', w' := s.threads[t], ThreadApply(s, t, EraseCas), ThreadShape(s, w, t, EraseCas);
            && t in s'.threads
            && if s.head == Some(th.it) then s'.threads[t] == Splicing(AtTail(th.it, th.it), th.rest) && w'.live == w.live[1..]
               else s'.threads[t] == EraseTop(th.it) && w' == w
  {
  }

  lemma EraseStoreIs(s: State, w: Shape, t: nat)
    requires ThreadSafe(s, t, EraseStore) && s.threads[t].it in w.live
    ensures var th, s', w' := s.threads[t], ThreadApply(s, t, EraseStore), ThreadShape(s, w, t, EraseStore);
            var k := IndexOf(w.live, th.it);
            && t in s'.threads && s'.threads[t] == Splicing(AtTail(th.it, th.it), th.rest)
            && w'.live == w.live[..k] + w.live[k + 1..]
  {
  }

  lemma UnlinkHeadChanges(s: State, w: Shape, t: nat) returns (c: Change)
    requires Here(s, w, t, EraseCas)
    ensures var e := ByThread(t, EraseCas);
            && Changes(c, w.live, ThreadShape(s, w, t, EraseCas).live) && Causes(s, e, ThreadApply(s, t, EraseCas), c)
            && (c != Same <==> Ends(s, e, ThreadApply(s, t, EraseCas)))
  {
    hide Inv, ThreadShape, ThreadApply, ThreadSound;
    VictimIs(s, w, t, EraseCas);
    Heads(s, w);
    EraseCasIs(s, w, t);
    hide ThreadSafe, ThreadEnabled, Here;
    var th := s.threads[t];
    if s.head == Some(th.it) {
      c := Unlinked(th.it);
      assert w.live[..0] + w.live[0 + 1..] == w.live[1..];
      assert w.live[0] == th.it;
    } else {
      c := Same;
    }
  }

  lemma UnlinkNextChanges(s: State, w: Shape, t: nat)
    requires Here(s, w, t, EraseStore)
    ensures var e, c := ByThread(t, EraseStore), Unlinked(s.threads[t].it);
            && Changes(c, w.live, ThreadShape(s, w, t, EraseStore).live) && Causes(s, e, ThreadApply(s, t, EraseStore), c)
            && Ends(s, e, ThreadApply(s, t, EraseStore))
  {
    hide Inv, ThreadShape, ThreadApply, ThreadSound;
    VictimIs(s, w, t, EraseStore);
    EraseStoreIs(s, w, t);
    hide IndexOf, ThreadSafe, ThreadEnabled, Here;
  }

  lemma ClearChanges(s: State, w: Shape, t: nat) returns (c: Change)
    requires Here(s, w, t, ClearCall)
    ensures var e := ByThread(t, ClearCall);
            && Changes(c, w.live, ThreadShape(s, w, t, ClearCall).live) && Causes(s, e, ThreadApply(s, t, ClearCall), c)
            && !Ends(s, e, ThreadApply(s, t, ClearCall)) && (c == Same ==> w.live == [])
  {
    hide Inv, ThreadSound;
    Heads(s, w);
    c := if s.head == None then Same else Cleared;
  }

  /** What one event does to the list. */
  lemma EventChanges(s: State, w: Shape, e: Event) returns (c: Change)
    requires Inv(s, w) && Enabled(s, e) && Safe(s, e)
    ensures Changes(c, w.live, NextShape(s, w, e).live) && Causes(s, e, Apply(s, e), c)
    ensures c.Pushed? || c.Unlinked? <==> Ends(s, e, Apply(s, e))
    ensures e.ByThread? && e.op == ClearCall ==> NextShape(s, w, e).live == []
  {
    hide Inv;
    c := Same;
    if e.ByThread? {
      match e.op {
        case PushCas => c := PushChanges(s, w, e.t);
        case EraseCas => c := UnlinkHeadChanges(s, w, e.t);
        case EraseStore =>
          UnlinkNextChanges(s, w, e.t);
          c := Unlinked(s.threads[e.t].it);
        case ClearCall => c := ClearChanges(s, w, e.t);
        case _ =>
      }
    }
  }

  /** In every run, one event changes the list by at most one operation, which is the one that the thread is in. */
  lemma ListChanges(tr: seq<State>, es: seq<Event>, i: nat, ns: seq<nat>) returns (c: Change, ms: seq<nat>)
    requires Trace(tr, es) && i < |es| && ListIs(tr[i], ns)
    ensures ListIs(tr[i + 1], ms) && Changes(c, ns, ms) && Causes(tr[i], es[i], tr[i + 1], c)
    ensures c.Pushed? || c.Unlinked? <==> Ends(tr[i], es[i], tr[i + 1])
    ensures es[i].ByThread? && es[i].op == ClearCall ==> ms == []
  {
    var w := AlwaysInv(tr, es, i);
    hide Inv, Path;
    RunStep(tr, es, i, w);
    ShapeLists(tr[i], w);
    PathIsUnique(tr[i].next, tr[i].head, ns, w.live);
    c := EventChanges(tr[i], w, es[i]);
    ms := NextShape(tr[i], w, es[i]).live;
    ShapeLists(tr[i + 1], NextShape(tr[i], w, es[i]));
  }

  /** In every state the list is a chain that ends. */
  lemma AlwaysList(tr: seq<State>, es: seq<Event>, i: nat) returns (ns: seq<nat>)
    requires Trace(tr, es) && i < |tr|
    ensures ListIs(tr[i], ns)
  {
    var w := AlwaysInv(tr, es, i);
    ShapeLists(tr[i], w);
    ns := w.live;
  }

  // ---------------------------------------------------------------- erase

  ghost predicate Before(live: seq<nat>, a: nat, b: nat) {
    exists i, j :: 0 <= i < j < |live| && live[i] == a && live[j] == b
  }

  /** Thread t is erasing a node that is still on the list and, if it is looking for it, lies ahead. */
  ghost predicate Seeking(s: State, w: Shape, t: nat, it: nat) {
    t in s.threads && Erasing(s.threads[t]) && s.threads[t].it == it && it in w.live
    && (s.threads[t].EraseWalk? ==> s.threads[t].at.Some? && Before(w.live, s.threads[t].at.value, it))
  }

  /** It has unlinked the node and is disposing of it. */
  predicate Disposing(s: State, t: nat, it: nat, after: Option<nat>) {
    t in s.threads && s.threads[t].Splicing? && s.threads[t].after == after
    && !s.threads[t].sp.Walk? && s.threads[t].sp.list == it
  }

  /** What other threads and the reclaimer do leaves a thread where it is. */
  lemma OthersLeave(s: State, e: Event, t: nat)
    requires Safe(s, e) && t in s.threads && !(e.ByThread? && e.t == t)
    ensures t in Apply(s, e).threads && Apply(s, e).threads[t] == s.threads[t]
  {
  }

  /** While t removes, others can only push. */
  lemma OthersOnlyPush(s: State, w: Shape, e: Event, t: nat)
    requires Inv(s, w) && Enabled(s, e) && Safe(s, e) && t in s.threads && Removing(s.threads[t])
    requires !(e.ByThread? && e.t == t)
    ensures var live := NextShape(s, w, e).live; live == w.live || exists n :: live == [n] + w.live
  {
    hide Inv, Apply, NextShape, Safe;
    Roles(s, w);
    var c := EventChanges(s, w, e);
    assert !c.Cleared?;
    assert !c.Unlinked?;
    if c.Pushed? {
      assert NextShape(s, w, e).live == [c.node] + w.live;
    }
  }

  lemma BeforeInFront(live: seq<nat>, n: nat, a: nat, b: nat)
    requires Before(live, a, b)
    ensures Before([n] + live, a, b)
  {
    var i, j :| 0 <= i < j < |live| && live[i] == a && live[j] == b;
    var more := [n] + live;
    assert more[i + 1] == a && more[j + 1] == b;
  }

  /** The node after one that lies before b lies before b too, or is b. */
  lemma BeforeNext(s: State, w: Shape, a: nat, b: nat)
    requires Inv(s, w) && Before(w.live, a, b)
    ensures a in s.next && s.next[a].Some? && (s.next[a].value != b ==> Before(w.live, s.next[a].value, b))
  {
    ShapeLists(s, w);
    hide Inv;
    var i, j :| 0 <= i < j < |w.live| && w.live[i] == a && w.live[j] == b;
    assert s.next[w.live[i]] == RcuList.NextOf(w.live, i, None);
  }

  lemma BeforeHead(s: State, w: Shape, b: nat)
    requires Inv(s, w) && b in w.live && s.head != Some(b)
    ensures s.head.Some? && Before(w.live, s.head.value, b)
  {
    Heads(s, w);
    hide Inv;
    var j :| 0 <= j < |w.live| && w.live[j] == b;
  }

  /** Seeking goes on until the node is unlinked. */
  lemma SeekingStep(s: State, w: Shape, e: Event, t: nat, it: nat)
    requires Inv(s, w) && Enabled(s, e) && Safe(s, e) && Seeking(s, w, t, it)
    ensures it in s.next
    ensures var s', w' := Apply(s, e), NextShape(s, w, e);
            Seeking(s', w', t, it) || (e.ByThread? && e.t == t && Disposing(s', t, it, s.next[it]))
  {
    hide Inv;
    LiveIsLasting(s, w, it);
    if e.ByThread? && e.t == t {
      SeekingOwnStep(s, w, t, it, e.op);
    } else {
      OthersLeave(s, e, t);
      OthersOnlyPush(s, w, e, t);
      hide Apply, NextShape, Enabled, Safe, Before;
      var live, th := NextShape(s, w, e).live, s.threads[t];
      if live != w.live {
        var n :| live == [n] + w.live;
        if th.EraseWalk? {
          BeforeInFront(w.live, n, th.at.value, it);
        }
      }
    }
  }

  lemma SeekingOwnStep(s: State, w: Shape, t: nat, it: nat, op: Op)
    requires Here(s, w, t, op) && Seeking(s, w, t, it) && it in s.next
    ensures var s', w' := ThreadApply(s, t, op), ThreadShape(s, w, t, op);
            Seeking(s', w', t, it) || Disposing(s', t, it, s.next[it])
  {
    hide Inv, ThreadSound, Before;
    var th := s.threads[t];
    if op == EraseCas || op == EraseStore {
      VictimIs(s, w, t, op);
      if op == EraseCas { EraseCasIs(s, w, t); } else { EraseStoreIs(s, w, t); }
      hide ThreadApply, ThreadShape;
    } else {
      hide ThreadSafe;
      if s.head != Some(it) {
        BeforeHead(s, w, it);
      }
      if th.EraseWalk? {
        BeforeNext(s, w, th.at.value, it);
      }
    }
  }

  /** A node being disposed of is not on the list. */
  lemma DisposingIsOff(s: State, w: Shape, t: nat, it: nat, after: Option<nat>)
    requires Inv(s, w) && Disposing(s, t, it, after)
    ensures it !in w.live && it in w.place && w.place[it] == Removed
  {
    Facts(s, w, t);
    Present(s, w);
    hide Inv, Path;
    assert it in w.removed;
    Where(s, w, it);
  }

  /** Disposing goes on until the node is on the free list. */
  lemma DisposingStep(s: State, w: Shape, e: Event, t: nat, it: nat, after: Option<nat>)
    requires Inv(s, w) && Enabled(s, e) && Safe(s, e) && Disposing(s, t, it, after)
    ensures var s', w' := Apply(s, e), NextShape(s, w, e);
            || Disposing(s', t, it, after)
            || (t in s'.threads && s'.threads[t] == Inside(after) && it !in w'.live)
  {
    hide Inv, ThreadApply, ThreadShape, ReApply, ReShape, ThreadSafe, ReSafe, ThreadEnabled, ReEnabled;
    DisposingIsOff(s, w, t, it, after);
    if e.ByThread? && e.t == t {
      DisposingOwnStep(s, w, t, it, after, e.op);
    } else {
      OthersLeave(s, e, t);
      hide Apply, NextShape;
    }
  }

  lemma DisposingOwnStep(s: State, w: Shape, t: nat, it: nat, after: Option<nat>, op: Op)
    requires ThreadSafe(s, t, op) && Disposing(s, t, it, after) && it !in w.live
    ensures var s', w' := ThreadApply(s, t, op), ThreadShape(s, w, t, op);
            || Disposing(s', t, it, after)
            || (t in s'.threads && s'.threads[t] == Inside(after) && it !in w'.live)
  {
  }

  predicate InsideAt(s: State, t: nat) { t in s.threads && s.threads[t].Inside? }

  /** From event i on, thread t is inside an erase that has not returned before state j. */
  ghost predicate ErasesUntil(tr: seq<State>, es: seq<Event>, i: nat, j: nat, t: nat) {
    && Trace(tr, es) && i < j < |tr| && es[i] == ByThread(t, EraseCall)
    && forall k | i < k < j :: !InsideAt(tr[k], t)
  }

  /** The node that an erase has been called for. */
  function Victim(s: State, t: nat): nat
    requires InsideAt(s, t) && s.threads[t].cursor.Some?
  {
    s.threads[t].cursor.value
  }

  lemma EraseCallIs(tr: seq<State>, es: seq<Event>, i: nat, t: nat)
    requires Trace(tr, es) && i < |es| && es[i] == ByThread(t, EraseCall)
    ensures InsideAt(tr[i], t) && tr[i].threads[t].cursor.Some?
    ensures t in tr[i + 1].threads && tr[i + 1].threads[t] == EraseTop(Victim(tr[i], t))
    ensures tr[i + 1].next == tr[i].next && tr[i + 1].head == tr[i].head
  {
    EveryAccessIsSafe(tr, es, i);
    hide Safe, Init;
  }

  /** The unlinking of node n by thread t at event u. */
  ghost predicate UnlinksAt(tr: seq<State>, es: seq<Event>, u: nat, t: nat, n: nat) {
    && u < |es| && |tr| == |es| + 1 && es[u].ByThread? && es[u].t == t
    && OnList(tr[u], n) && !OnList(tr[u + 1], n)
  }

  /** What an erase of a node on the list has done by state k: it seeks, or it has unlinked the node at event u. */
  ghost predicate SoFar(tr: seq<State>, es: seq<Event>, i: nat, k: nat, t: nat, it: nat, w: Shape, u: nat)
    requires k < |tr|
  {
    || Seeking(tr[k], w, t, it)
    || (i < u < k && UnlinksAt(tr, es, u, t, it) && it in tr[u].next
        && (|| Disposing(tr[k], t, it, tr[u].next[it])
            || (InsideAt(tr[k], t) && tr[k].threads[t].cursor == tr[u].next[it] && it !in w.live)))
  }

  lemma SoFarBegins(tr: seq<State>, es: seq<Event>, i: nat, t: nat, it: nat) returns (w: Shape)
    requires Trace(tr, es) && i < |es| && es[i] == ByThread(t, EraseCall)
    requires InsideAt(tr[i], t) && tr[i].threads[t].cursor == Some(it) && OnList(tr[i], it)
    ensures Inv(tr[i + 1], w) && Seeking(tr[i + 1], w, t, it)
  {
    hide Inv, Path;
    EraseCallIs(tr, es, i, t);
    w := AlwaysInv(tr, es, i + 1);
    hide Trace;
    ShapeLists(tr[i + 1], w);
    OnListIs(tr[i + 1], w.live, it);
    assert OnList(tr[i + 1], it);
  }

  lemma SoFarStep(tr: seq<State>, es: seq<Event>, i: nat, k: nat, t: nat, it: nat, w: Shape, u: nat) returns (w': Shape, u': nat)
    requires Trace(tr, es) && i < k < |es| && !InsideAt(tr[k], t) && Inv(tr[k], w) && SoFar(tr, es, i, k, t, it, w, u)
    ensures Inv(tr[k + 1], w') && SoFar(tr, es, i, k + 1, t, it, w', u')
  {
    hide Inv, Enabled, Safe, Apply, NextShape, Seeking, Disposing, OnList;
    RunStep(tr, es, k, w);
    w', u' := NextShape(tr[k], w, es[k]), u;
    hide Init;
    if Seeking(tr[k], w, t, it) {
      SeekingStep(tr[k], w, es[k], t, it);
      if !Seeking(tr[k + 1], w', t, it) {
        u' := k;
        SeekingIsOn(tr[k], w, t, it);
        LeavesList(tr[k], w, tr[k + 1], w', t, it, tr[k].next[it]);
      }
    } else {
      DisposingStep(tr[k], w, es[k], t, it, tr[u].next[it]);
    }
  }

  lemma SeekingIsOn(s: State, w: Shape, t: nat, it: nat)
    requires Seeking(s, w, t, it)
    ensures it in w.live
  {
  }

  lemma {:induction false} EraseSoFar(tr: seq<State>, es: seq<Event>, i: nat, k: nat, t: nat, it: nat)
    returns (w: Shape, u: nat)
    requires ErasesUntil(tr, es, i, k, t) && InsideAt(tr[i], t) && tr[i].threads[t].cursor == Some(it) && OnList(tr[i], it)
    ensures Inv(tr[k], w) && SoFar(tr, es, i, k, t, it, w, u)
  {
    hide Trace, Inv, OnList, InsideAt;
    assert |tr| == |es| + 1 by {
      TraceLength(tr, es);
    }
    if k == i + 1 {
      hide SoFar;
      w := SoFarBegins(tr, es, i, t, it);
      u := i;
      SeekingIsSoFar(tr, es, i, k, t, it, w, u);
    } else {
      hide SoFar;
      var before, v := EraseSoFar(tr, es, i, k - 1, t, it);
      w, u := SoFarStep(tr, es, i, k - 1, t, it, before, v);
    }
  }

  lemma TraceLength(tr: seq<State>, es: seq<Event>)
    requires Trace(tr, es)
    ensures |tr| == |es| + 1
  {
  }

  lemma SeekingIsSoFar(tr: seq<State>, es: seq<Event>, i: nat, k: nat, t: nat, it: nat, w: Shape, u: nat)
    requires k < |tr| && Seeking(tr[k], w, t, it)
    ensures SoFar(tr, es, i, k, t, it, w, u)
  {
  }

  lemma LeavesList(s: State, w: Shape, s': State, w': Shape, t: nat, it: nat, after: Option<nat>)
    requires Inv(s, w) && it in w.live && Inv(s', w') && Disposing(s', t, it, after)
    ensures OnList(s, it) && !OnList(s', it)
  {
    hide Inv;
    DisposingIsOff(s', w', t, it, after);
    ShapeLists(s, w);
    ShapeLists(s', w');
    OnListIs(s, w.live, it);
    OnListIs(s', w'.live, it);
  }

  /**
   In every interleaving, an erase of a node that is on the list when it is called unlinks it: there
   is one access at which the node leaves the list, the cursor that is returned is what its next
   was then, and when erase returns the node cannot be reached.
   */
  lemma EraseUnlinks(tr: seq<State>, es: seq<Event>, i: nat, j: nat, t: nat) returns (u: nat)
    requires ErasesUntil(tr, es, i, j, t) && InsideAt(tr[j], t)
    ensures InsideAt(tr[i], t) && tr[i].threads[t].cursor.Some?
    ensures var it := Victim(tr[i], t);
            OnList(tr[i], it) ==>
              && i < u < j && UnlinksAt(tr, es, u, t, it) && it in tr[u].next
              && tr[j].threads[t].cursor == tr[u].next[it]
              && !OnList(tr[j], it)
  {
    u := i;
    EraseCallIs(tr, es, i, t);
    var it := Victim(tr[i], t);
    hide Trace, Inv, Path, OnList;
    if OnList(tr[i], it) {
      var w;
      w, u := EraseSoFar(tr, es, i, j, t, it);
      assert !Seeking(tr[j], w, t, it);
      ShapeLists(tr[j], w);
      OnListIs(tr[j], w.live, it);
    }
  }

  // ---------------------------------------------------------------- nothing comes back

  /** The node is neither on the list nor about to be pushed. */
  predicate Off(w: Shape, n: nat) { n in w.place && w.place[n] != Live && !w.place[n].Fresh? }

  /** A node that leaves the list is off it. */
  lemma LeavingIsOff(s: State, w: Shape, e: Event, n: nat)
    requires Inv(s, w) && Enabled(s, e) && Safe(s, e)
    requires n in w.live && n !in NextShape(s, w, e).live
    ensures Off(NextShape(s, w, e), n)
  {
    hide Inv, ThreadShape, ReShape, ThreadSafe, ReSafe, Lasting;
    LiveIsLasting(s, w, n);
    Where(s, w, n);
    if e.ByReclaimer? {
      ReLive(s, w, e.re);
    } else if e.op == EraseCas || e.op == EraseStore {
      LeavingVictim(s, w, e.t, e.op, n);
    } else {
      LeavingOther(s, w, e.t, e.op, n);
    }
  }

  lemma ReLive(s: State, w: Shape, re: ReOp)
    requires ReSafe(s, re)
    ensures ReShape(s, w, re).live == w.live
  {
  }

  lemma LeavingOther(s: State, w: Shape, t: nat, op: Op, n: nat)
    requires ThreadSafe(s, t, op) && op != EraseCas && op != EraseStore
    requires n in w.live && n in w.place && w.place[n] == Live && n !in ThreadShape(s, w, t, op).live
    ensures Off(ThreadShape(s, w, t, op), n)
  {
  }

  lemma LeavingVictim(s: State, w: Shape, t: nat, op: Op, n: nat)
    requires Here(s, w, t, op) && (op == EraseCas || op == EraseStore)
    requires n in w.live && n !in ThreadShape(s, w, t, op).live
    ensures Off(ThreadShape(s, w, t, op), n)
  {
    hide Inv, ThreadSafe, ThreadShape;
    Heads(s, w);
    VictimIs(s, w, t, op);
    var it := s.threads[t].it;
    if op == EraseCas {
      EraseCasIs(s, w, t);
      assert s.head == Some(it) ==> w.live == [it] + w.live[1..];
    } else {
      EraseStoreIs(s, w, t);
      var k := IndexOf(w.live, it);
      assert w.live == w.live[..k] + [it] + w.live[k + 1..];
    }
    assert n == it;
    VictimIsRemoved(s, w, t, op);
  }

  lemma VictimIsRemoved(s: State, w: Shape, t: nat, op: Op)
    requires ThreadSafe(s, t, op) && (op == EraseCas || op == EraseStore) && s.threads[t].it in w.live
    requires ThreadShape(s, w, t, op).live != w.live
    ensures Off(ThreadShape(s, w, t, op), s.threads[t].it)
  {
  }

  /** Off it stays, as long as it is not destroyed. */
  lemma OffStep(s: State, w: Shape, e: Event, n: nat)
    requires Inv(s, w) && Enabled(s, e) && Safe(s, e) && Off(w, n) && n in s.next && n in Apply(s, e).next
    ensures Off(NextShape(s, w, e), n)
  {
    hide Inv, ThreadShape, ReShape, ThreadApply, ReApply, ThreadSafe, ReSafe;
    BuildersOwn(s, w, 0);
    if e.ByThread? {
      OffThread(s, w, e.t, e.op, n);
    } else {
      OffReclaimer(s, w, e.re, n);
    }
  }

  lemma OffThread(s: State, w: Shape, t: nat, op: Op, n: nat)
    requires ThreadSafe(s, t, op) && Off(w, n) && n in s.next
    requires Building(s.threads[t]) ==> var m := s.threads[t].node; m in w.place && w.place[m].Fresh?
    ensures Off(ThreadShape(s, w, t, op), n)
  {
  }

  lemma OffReclaimer(s: State, w: Shape, re: ReOp, n: nat)
    requires ReSafe(s, re) && Off(w, n) && n in ReApply(s, re).next
    ensures Off(ReShape(s, w, re), n)
  {
  }

  lemma OffIsOff(s: State, w: Shape, n: nat)
    requires Inv(s, w) && Off(w, n)
    ensures !OnList(s, n)
  {
    hide OnList;
    ShapeLists(s, w);
    assert n !in w.live;
    OnListIs(s, w.live, n);
  }

  lemma {:induction false} StaysOff(tr: seq<State>, es: seq<Event>, u: nat, m: nat, n: nat) returns (w: Shape)
    requires Trace(tr, es) && u < m < |tr| && OnList(tr[u], n) && !OnList(tr[u + 1], n)
    requires forall l | u < l <= m :: n in tr[l].next
    ensures Inv(tr[m], w) && Off(w, n)
  {
    hide Inv, Path, Init, Apply, NextShape, Enabled, Safe, OnList, Off;
    var before;
    if m == u + 1 {
      before := AlwaysInv(tr, es, u);
    } else {
      before := StaysOff(tr, es, u, m - 1, n);
    }
    RunStep(tr, es, m - 1, before);
    w := NextShape(tr[m - 1], before, es[m - 1]);
    if m == u + 1 {
      ShapeLists(tr[u], before);
      ShapeLists(tr[m], w);
      OnListIs(tr[u], before.live, n);
      OnListIs(tr[m], w.live, n);
      LeavingIsOff(tr[u], before, es[u], n);
    } else {
      OffStep(tr[m - 1], before, es[m - 1], n);
    }
  }

  /** A node that has left the list is never on it again, until it is destroyed. */
  lemma GoneForGood(tr: seq<State>, es: seq<Event>, u: nat, m: nat, n: nat)
    requires Trace(tr, es) && u < m < |tr| && OnList(tr[u], n) && !OnList(tr[u + 1], n)
    requires forall l | u < l <= m :: n in tr[l].next
    ensures !OnList(tr[m], n)
  {
    var w := StaysOff(tr, es, u, m, n);
    OffIsOff(tr[m], w, n);
  }

  /**
   clear() takes every node off the list at once, those that others have pushed in the meantime
   included, and none of them can be reached afterwards until it is destroyed.
   */
  lemma ClearUnlinks(tr: seq<State>, es: seq<Event>, i: nat, m: nat, t: nat, n: nat)
    requires Trace(tr, es) && i < m < |tr| && es[i] == ByThread(t, ClearCall) && OnList(tr[i], n)
    ensures ListIs(tr[i + 1], [])
    ensures (forall l | i < l <= m :: n in tr[l].next) ==> !OnList(tr[m], n)
  {
    hide OnList, Path;
    var ns := AlwaysList(tr, es, i);
    var c, ms := ListChanges(tr, es, i, ns);
    OnListIs(tr[i + 1], [], n);
    if forall l | i < l <= m :: n in tr[l].next {
      GoneForGood(tr, es, i, m, n);
    }
  }

  // ---------------------------------------------------------------- erasing a node that has gone

  /** Thread t looks for a node that is not on the list. */
  ghost predicate InVain(s: State, w: Shape, t: nat, it: nat) {
    && t in s.threads && Off(w, it) && it in s.next
    && (s.threads[t].EraseTop? || s.threads[t].EraseWalk?) && s.threads[t].it == it
  }

  lemma InVainStep(s: State, w: Shape, e: Event, t: nat, it: nat)
    requires Inv(s, w) && Enabled(s, e) && Safe(s, e) && InVain(s, w, t, it) && it in Apply(s, e).next
    ensures var s', w' := Apply(s, e), NextShape(s, w, e);
            InVain(s', w', t, it) || (Off(w', it) && t in s'.threads && s'.threads[t] == Inside(None))
    ensures e.ByThread? && e.t == t ==> NextShape(s, w, e).live == w.live
  {
    hide Inv, ThreadSound, Path;
    OffStep(s, w, e, it);
    NothingLeadsThere(s, w, t, it);
    hide Lasting, Off;
    if !(e.ByThread? && e.t == t) {
      OthersLeave(s, e, t);
      hide Apply, NextShape;
    }
  }

  /** Neither the head nor a node on the list points to a node that is off it. */
  lemma NothingLeadsThere(s: State, w: Shape, t: nat, it: nat)
    requires Inv(s, w) && InVain(s, w, t, it)
    ensures s.head != Some(it)
    ensures var th := s.threads[t];
            th.EraseWalk? && th.at.Some? ==> th.at.value in s.next && s.next[th.at.value] != Some(it)
  {
    Facts(s, w, t);
    hide Inv, Path;
    HeadIsLasting(s, w);
    Where(s, w, it);
    var th := s.threads[t];
    if th.EraseWalk? && th.at.Some? {
      LiveIsLasting(s, w, th.at.value);
    }
  }

  /** The node was on the list and left it before event i, and it is not destroyed before state j. */
  ghost predicate LeftBefore(tr: seq<State>, m: nat, i: nat, j: nat, n: nat) {
    && m < i <= j < |tr| && OnList(tr[m], n) && !OnList(tr[m + 1], n)
    && forall l | m < l <= j :: n in tr[l].next
  }

  lemma {:induction false} InVainSoFar(tr: seq<State>, es: seq<Event>, m: nat, i: nat, k: nat, t: nat, it: nat) returns (w: Shape)
    requires ErasesUntil(tr, es, i, k, t) && InsideAt(tr[i], t) && tr[i].threads[t].cursor == Some(it) && LeftBefore(tr, m, i, k, it)
    ensures Inv(tr[k], w)
    ensures InVain(tr[k], w, t, it) || (t in tr[k].threads && tr[k].threads[t] == Inside(None))
  {
    hide Inv, Path, Init, Enabled, Safe, Apply, NextShape, OnList, Off;
    if k == i + 1 {
      w := StaysOff(tr, es, m, k, it);
      EraseCallIs(tr, es, i, t);
    } else {
      var before := InVainSoFar(tr, es, m, i, k - 1, t, it);
      RunStep(tr, es, k - 1, before);
      w := NextShape(tr[k - 1], before, es[k - 1]);
      hide Trace;
      InVainStep(tr[k - 1], before, es[k - 1], t, it);
    }
  }

  /** An erase of a node that has left the list returns the end of the list. */
  lemma EraseInVain(tr: seq<State>, es: seq<Event>, m: nat, i: nat, j: nat, t: nat)
    requires ErasesUntil(tr, es, i, j, t) && InsideAt(tr[j], t)
    requires InsideAt(tr[i], t) && tr[i].threads[t].cursor.Some? && LeftBefore(tr, m, i, j, Victim(tr[i], t))
    ensures tr[j].threads[t].cursor == None
  {
    hide Trace, Inv, Path, OnList, Off;
    var w := InVainSoFar(tr, es, m, i, j, t, Victim(tr[i], t));
  }

  // ---------------------------------------------------------------- iteration

  /** How often thread t has moved its cursor on from event i to state k. */
  function Moves(es: seq<Event>, i: nat, k: nat, t: nat): (n: nat)
    requires i <= k <= |es|
    ensures n <= k - i
  {
    if i == k then 0 else Moves(es, i, k - 1, t) + (if es[k - 1] == ByThread(t, Advance) then 1 else 0)
  }

  function At(ns: seq<nat>, k: nat): Option<nat> { if k < |ns| then Some(ns[k]) else None }

  /** From event i on, thread t walks along the list, and the list stays as it is. */
  ghost predicate WalksUntil(tr: seq<State>, es: seq<Event>, i: nat, j: nat, t: nat, ns: seq<nat>) {
    && Trace(tr, es) && i < j < |tr| && es[i] == ByThread(t, Begin)
    && (forall k | i <= k < j :: ListIs(tr[k], ns))
    && forall k | i < k < j && es[k].ByThread? && es[k].t == t :: es[k].op == Advance
  }

  lemma WalkStep(s: State, e: Event, t: nat, ns: seq<nat>, k: nat)
    requires Enabled(s, e) && Safe(s, e) && ListIs(s, ns) && InsideAt(s, t) && s.threads[t].cursor == At(ns, k)
    requires e.ByThread? && e.t == t ==> e.op == Advance
    ensures var s' := Apply(s, e);
            && InsideAt(s', t)
            && s'.threads[t].cursor == At(ns, if e == ByThread(t, Advance) then k + 1 else k)
  {
    if e == ByThread(t, Advance) {
      assert s.next[ns[k]] == RcuList.NextOf(ns, k, None);
      assert Apply(s, e) == ThreadApply(s, t, Advance);
    } else {
      OthersLeave(s, e, t);
    }
  }

  /**
   A walk along a list that stays the same while others do what they like visits its nodes one
   after the other, from the head to the end.
   */
  lemma {:induction false} WalkFollowsList(tr: seq<State>, es: seq<Event>, i: nat, j: nat, t: nat, ns: seq<nat>)
    requires WalksUntil(tr, es, i, j, t, ns)
    ensures |tr| == |es| + 1 && InsideAt(tr[j], t) && tr[j].threads[t].cursor == At(ns, Moves(es, i + 1, j, t))
    decreases j
  {
    hide Path, Init, Enabled, Safe, Apply, ListIs, At;
    EveryAccessIsSafe(tr, es, j - 1);
    if j == i + 1 {
      WalkBegins(tr[i], t, ns);
    } else {
      WalkFollowsList(tr, es, i, j - 1, t, ns);
      WalkStep(tr[j - 1], es[j - 1], t, ns, Moves(es, i + 1, j - 1, t));
    }
  }

  lemma WalkBegins(s: State, t: nat, ns: seq<nat>)
    requires Safe(s, ByThread(t, Begin)) && ListIs(s, ns)
    ensures InsideAt(Apply(s, ByThread(t, Begin)), t) && Apply(s, ByThread(t, Begin)).threads[t].cursor == At(ns, 0)
  {
    hide ThreadApply;
    assert Apply(s, ByThread(t, Begin)) == ThreadApply(s, t, Begin);
    BeginIs(s, t);
  }

  lemma BeginIs(s: State, t: nat)
    requires ThreadSafe(s, t, Begin)
    ensures InsideAt(ThreadApply(s, t, Begin), t) && ThreadApply(s, t, Begin).threads[t].cursor == s.head
  {
  }

  // ---------------------------------------------------------------- reclaim

  /** A call of reclaim() that has not returned before state j, while the list is unlocked. */
  ghost predicate ReclaimsUnlocked(tr: seq<State>, es: seq<Event>, i: nat, j: nat) {
    && Trace(tr, es) && i < j < |tr| && es[i] == ByReclaimer(LookFree)
    && (forall k | i < k < j :: !tr[k].reclaimer.Resting?)
    && forall k | i <= k <= j :: tr[k].refcount == 0
  }

  /** How far the call has come; `ns` is what was on the free list. */
  ghost predicate Reclaiming(s: State, ns: seq<nat>) {
    match s.reclaimer
    case SawGarbage => Path(s.next, s.free, ns, None)
    case SawUnlocked => Path(s.next, s.free, ns, None)
    case Taken(f) => s.free == None && Path(s.next, Some(f), ns, None)
    case Destroying(at) => s.free == None && exists ms :: Remains(s.next, at, ns, ms)
    case Resting => s.free == None && forall n | n in ns :: n !in s.next
    case _ => false
  }

  /** What has not been destroyed yet is still ahead. */
  ghost predicate Remains(next: Links, at: Option<nat>, ns: seq<nat>, ms: seq<nat>) {
    Path(next, at, ms, None) && forall n | n in ns :: n !in next || n in ms
  }

  /** With the list unlocked before and after it, an event is one of the reclaimer. */
  lemma NobodyMoves(s: State, w: Shape, e: Event)
    requires Inv(s, w) && Enabled(s, e) && Safe(s, e) && s.refcount == 0 && Apply(s, e).refcount == 0
    ensures e.ByReclaimer?
  {
    NobodyInside(s, w);
    hide Inv;
  }

  lemma DestroyStep(next: Links, n: nat, ns: seq<nat>, ms: seq<nat>)
    requires Remains(next, Some(n), ns, ms)
    ensures n in next && ms != [] && Remains(next - {n}, next[n], ns, ms[1..])
  {
    NonEmptyPath(next, n, ms);
    PathTail(next, Some(n), ms, None);
    PathDrop(next, next[n], ms[1..], None, n);
    hide Path;
    forall m | m in ns ensures m !in next - {n} || m in ms[1..] {
      assert ms == [n] + ms[1..];
    }
  }

  lemma ReclaimStep(s: State, re: ReOp, ns: seq<nat>)
    requires ReSafe(s, re) && s.refcount == 0 && Reclaiming(s, ns) && !s.reclaimer.Resting?
    ensures Reclaiming(ReApply(s, re), ns)
  {
    hide Path;
    match s.reclaimer {
      case SawUnlocked =>
        if s.free == None {
          EmptyPath(s.next, ns);
        }
      case Taken(f) =>
        assert Remains(s.next, Some(f), ns, ns);
      case Destroying(at) =>
        var ms :| Remains(s.next, at, ns, ms);
        if at.Some? {
          DestroyStep(s.next, at.value, ns, ms);
          hide Remains;
        } else {
          EmptyPath(s.next, ms);
        }
      case _ =>
    }
  }

  lemma EmptyPath(next: Links, ns: seq<nat>)
    requires Path(next, None, ns, None)
    ensures ns == []
  {
  }

  lemma {:induction false} ReclaimSoFar(tr: seq<State>, es: seq<Event>, i: nat, k: nat, ns: seq<nat>)
    requires ReclaimsUnlocked(tr, es, i, k) && Path(tr[i].next, tr[i].free, ns, None)
    ensures Reclaiming(tr[k], ns)
    decreases k
  {
    hide Path, Inv, Init, ReApply, Reclaiming;
    var w := AlwaysInv(tr, es, k - 1);
    RunStep(tr, es, k - 1, w);
    if k == i + 1 {
      ReclaimBegins(tr[i], ns);
    } else {
      ReclaimSoFar(tr, es, i, k - 1, ns);
      NobodyMoves(tr[k - 1], w, es[k - 1]);
      ReclaimStep(tr[k - 1], es[k - 1].re, ns);
    }
  }

  lemma ReclaimBegins(s: State, ns: seq<nat>)
    requires ReSafe(s, LookFree) && Path(s.next, s.free, ns, None)
    ensures Reclaiming(ReApply(s, LookFree), ns)
  {
    if s.free == None {
      EmptyPath(s.next, ns);
    }
    hide Path;
  }

  /** If nobody locks the list in the meantime, reclaim destroys every node that is on the free list. */
  lemma ReclaimDestroys(tr: seq<State>, es: seq<Event>, i: nat, j: nat, n: nat, k: nat)
    requires ReclaimsUnlocked(tr, es, i, j) && tr[j].reclaimer.Resting?
    requires Reaches(tr[i].next, tr[i].free, n, k)
    ensures n !in tr[j].next && tr[j].free == None
  {
    var w := AlwaysInv(tr, es, i);
    FreeIsPath(tr[i], w);
    hide Inv, Path;
    ReachesIsOnPath(tr[i].next, tr[i].free, w.garbage, n, k);
    ReclaimSoFar(tr, es, i, j, w.garbage);
  }

  lemma FreeIsPath(s: State, w: Shape)
    requires Inv(s, w)
    ensures Path(s.next, s.free, w.garbage, None)
  {
    hide Path, Placed, Closed, ThreadsSound, ReclaimerSound;
  }
}
