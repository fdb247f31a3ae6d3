/**
 The lock-free list with deferred reclamation of common/lockfree.hpp (concurrent_list).

 Threads that hold the list locked (counted by refcount) walk it, push to its front and, one
 at a time, erase nodes or clear the list. An unlinked node goes to a free list, which
 rewrites its `next`; a reader standing on it may therefore leave the live list. A separate
 thread takes the whole free list and destroys it if it then finds the list unlocked, or puts
 it back. Each event is one access to shared memory; a trace is any interleaving of any number
 of threads with the reclaiming thread.
 */
module RcuList {
  import opened Wrappers

  type Links = map<nat, Option<nat>>

  /** Prepending a private chain `list` .. `tail` to the free list (dispose_node, dispose_list). */
  datatype Splice =
    | Walk(list: nat, tail: nat)                        // looking for the last node
    | AtTail(list: nat, tail: nat)                      // last node known, free list head not yet read
    | Loaded(list: nat, tail: nat, seen: Option<nat>)   // free list head read
    | Stored(list: nat, tail: nat, seen: Option<nat>)   // tail->next written, CAS pending

  datatype Thread =
    | Outside                                                // list not locked
    | Inside(cursor: Option<nat>)                            // list locked
    | PushReady(node: nat, seen: Option<nat>)                // emplace_front: node built, head read
    | PushStored(node: nat, seen: Option<nat>)               // node->next written, CAS pending
    | EraseTop(it: nat)                                      // erase: about to read the head
    | EraseHead(it: nat)                                     // the head is the node to erase
    | EraseSwap(it: nat, rest: Option<nat>)                  // its next was read, CAS pending
    | EraseWalk(it: nat, at: Option<nat>)                    // looking for the predecessor
    | EraseFound(it: nat, pred: nat)                         // predecessor found
    | EraseUnlink(it: nat, pred: nat, rest: Option<nat>)     // next of the victim read, store pending
    | Splicing(sp: Splice, after: Option<nat>)               // victim is private; `after` will be returned

  datatype Reclaimer =
    | Resting
    | SawGarbage                  // the free list looked non-empty
    | SawUnlocked                 // and the refcount looked zero
    | Taken(list: nat)            // the free list has been exchanged for null
    | Putting(list: nat)          // the refcount was not zero: try to put the list back
    | PuttingSplice(sp: Splice)   // the free list is in use again: prepend to it
    | Destroying(at: Option<nat>)

  datatype State = State(
    next: Links,                  // the allocated nodes and their next pointers
    head: Option<nat>, free: Option<nat>, refcount: int,
    threads: map<nat, Thread>, reclaimer: Reclaimer)

  /** What a thread does next. */
  datatype Op =
    | Lock | Unlock | Begin | Advance
    | NewNode(node: nat) | PushStore | PushCas
    | EraseCall | EraseLoad | EraseRead | EraseCas | EraseStep | EraseRead2 | EraseStore
    | ClearCall
    | SpliceWalk | SpliceLoad | SpliceStore | SpliceCas

  /** What the reclaiming thread does next. */
  datatype ReOp = LookFree | LookRefs | Take | Recheck | DestroyOne | PutCas | ReWalk | ReLoad | ReStore | ReCas

  datatype Event = ByThread(t: nat, op: Op) | ByReclaimer(re: ReOp)

  predicate Removing(th: Thread) {
    th.EraseTop? || th.EraseHead? || th.EraseSwap? || th.EraseWalk? || th.EraseFound? || th.EraseUnlink? || th.Splicing?
  }

  ghost predicate Init(s: State) {
    && s.next == map[] && s.head == None && s.free == None && s.refcount == 0
    && (forall t | t in s.threads :: s.threads[t] == Outside)
    && s.reclaimer == Resting
  }

  /** Which operations a thread may do where it stands; removals must not run concurrently. */
  ghost predicate ThreadEnabled(s: State, t: nat, op: Op) {
    t in s.threads &&
    var th := s.threads[t];
    match op
    case Lock => th.Outside?
    case Unlock => th.Inside?
    case Begin => th.Inside?
    case Advance => th.Inside? && th.cursor.Some?
    case NewNode(n) => th.Inside? && n !in s.next
    case PushStore => th.PushReady?
    case PushCas => th.PushStored?
    case EraseCall => th.Inside? && th.cursor.Some? && NoRemover(s.threads)
    case EraseLoad => th.EraseTop?
    case EraseRead => th.EraseHead?
    case EraseCas => th.EraseSwap?
    case EraseStep => th.EraseWalk?
    case EraseRead2 => th.EraseFound?
    case EraseStore => th.EraseUnlink?
    case ClearCall => th.Inside? && NoRemover(s.threads)
    case SpliceWalk => th.Splicing? && th.sp.Walk?
    case SpliceLoad => th.Splicing? && th.sp.AtTail?
    case SpliceStore => th.Splicing? && th.sp.Loaded?
    case SpliceCas => th.Splicing? && th.sp.Stored?
  }

  predicate ReEnabled(s: State, re: ReOp) {
    var r := s.reclaimer;
    match re
    case LookFree => r.Resting?
    case LookRefs => r.SawGarbage?
    case Take => r.SawUnlocked?
    case Recheck => r.Taken?
    case DestroyOne => r.Destroying?
    case PutCas => r.Putting?
    case ReWalk => r.PuttingSplice? && r.sp.Walk?
    case ReLoad => r.PuttingSplice? && r.sp.AtTail?
    case ReStore => r.PuttingSplice? && r.sp.Loaded?
    case ReCas => r.PuttingSplice? && r.sp.Stored?
  }

  ghost predicate NoRemover(threads: map<nat, Thread>) {
    forall t | t in threads :: !Removing(threads[t])
  }

  /** The node whose memory the operation touches, if any, is still allocated. */
  ghost predicate ThreadSafe(s: State, t: nat, op: Op) {
    ThreadEnabled(s, t, op) &&
    var th := s.threads[t];
    match op
    case Advance => th.cursor.value in s.next
    case PushStore => th.node in s.next
    case EraseRead => th.it in s.next
    case EraseStep => th.at.Some? ==> th.at.value in s.next
    case EraseRead2 => th.it in s.next
    case EraseStore => th.pred in s.next
    case SpliceWalk => th.sp.tail in s.next
    case SpliceStore => th.sp.tail in s.next
    case _ => true
  }

  predicate ReSafe(s: State, re: ReOp) {
    ReEnabled(s, re) &&
    match re
    case DestroyOne => s.reclaimer.at.Some? ==> s.reclaimer.at.value in s.next
    case ReWalk => s.reclaimer.sp.tail in s.next
    case ReStore => s.reclaimer.sp.tail in s.next
    case _ => true
  }

  ghost predicate Enabled(s: State, e: Event) {
    match e
    case ByThread(t, op) => ThreadEnabled(s, t, op)
    case ByReclaimer(re) => ReEnabled(s, re)
  }

  ghost predicate Safe(s: State, e: Event) {
    match e
    case ByThread(t, op) => ThreadSafe(s, t, op)
    case ByReclaimer(re) => ReSafe(s, re)
  }

  function To(s: State, t: nat, th: Thread): State { s.(threads := s.threads[t := th]) }

  /** One more step along the chain that is being spliced. */
  function WalkOn(next: Links, sp: Splice): Splice
    requires sp.Walk? && sp.tail in next
  {
    if next[sp.tail].Some? then Walk(sp.list, next[sp.tail].value) else AtTail(sp.list, sp.tail)
  }

  ghost function ThreadApply(s: State, t: nat, op: Op): State
    requires ThreadSafe(s, t, op)
  {
    var th := s.threads[t];
    match op
    case Lock => To(s, t, Inside(None)).(refcount := s.refcount + 1)
    case Unlock => To(s, t, Outside).(refcount := s.refcount - 1)
    case Begin => To(s, t, Inside(s.head))
    case Advance => To(s, t, Inside(s.next[th.cursor.value]))
    case NewNode(n) => To(s, t, PushReady(n, s.head)).(next := s.next[n := None])
    case PushStore =>
      To(s, t, PushStored(th.node, th.seen)).(next := s.next[th.node := th.seen])
    case PushCas =>
      if s.head == th.seen then To(s, t, Inside(Some(th.node))).(head := Some(th.node))
      else To(s, t, PushReady(th.node, s.head))
    case EraseCall => To(s, t, EraseTop(th.cursor.value))
    case EraseLoad =>
      To(s, t, if s.head == Some(th.it) then EraseHead(th.it) else EraseWalk(th.it, s.head))
    case EraseRead => To(s, t, EraseSwap(th.it, s.next[th.it]))
    case EraseCas =>
      if s.head == Some(th.it) then
        To(s, t, Splicing(AtTail(th.it, th.it), th.rest)).(head := th.rest)
      else
        To(s, t, EraseTop(th.it)) // somebody pushed in between, start over
    case EraseStep =>
      To(s, t, if th.at == None then Inside(None)
               else if s.next[th.at.value] == Some(th.it) then EraseFound(th.it, th.at.value)
               else EraseWalk(th.it, s.next[th.at.value]))
    case EraseRead2 =>
      To(s, t, EraseUnlink(th.it, th.pred, s.next[th.it]))
    case EraseStore =>
      To(s, t, Splicing(AtTail(th.it, th.it), th.rest)).(next := s.next[th.pred := th.rest])
    case ClearCall =>
      if s.head == None then s
      else To(s, t, Splicing(Walk(s.head.value, s.head.value), None)).(head := None)
    case SpliceWalk =>
      To(s, t, Splicing(WalkOn(s.next, th.sp), th.after))
    case SpliceLoad =>
      To(s, t, Splicing(Loaded(th.sp.list, th.sp.tail, s.free), th.after))
    case SpliceStore =>
      To(s, t, Splicing(Stored(th.sp.list, th.sp.tail, th.sp.seen), th.after))
        .(next := s.next[th.sp.tail := th.sp.seen])
    case SpliceCas =>
      if s.free == th.sp.seen then To(s, t, Inside(th.after)).(free := Some(th.sp.list))
      else To(s, t, Splicing(Loaded(th.sp.list, th.sp.tail, s.free), th.after))
  }

  function ReApply(s: State, re: ReOp): State
    requires ReSafe(s, re)
  {
    match re
    case LookFree => s.(reclaimer := if s.free.Some? then SawGarbage else Resting)
    case LookRefs => s.(reclaimer := if s.refcount == 0 then SawUnlocked else Resting)
    case Take => s.(free := None, reclaimer := if s.free.Some? then Taken(s.free.value) else Resting)
    case Recheck =>
      s.(reclaimer := if s.refcount == 0 then Destroying(Some(s.reclaimer.list)) else Putting(s.reclaimer.list))
    case DestroyOne =>
      if s.reclaimer.at == None then s.(reclaimer := Resting)
      else s.(next := s.next - {s.reclaimer.at.value}, reclaimer := Destroying(s.next[s.reclaimer.at.value]))
    case PutCas =>
      var f := s.reclaimer.list;
      if s.free == None then s.(free := Some(f), reclaimer := Resting)
      else s.(reclaimer := PuttingSplice(Walk(f, f)))
    case ReWalk => s.(reclaimer := PuttingSplice(WalkOn(s.next, s.reclaimer.sp)))
    case ReLoad =>
      var sp := s.reclaimer.sp;
      s.(reclaimer := PuttingSplice(Loaded(sp.list, sp.tail, s.free)))
    case ReStore =>
      var sp := s.reclaimer.sp;
      s.(next := s.next[sp.tail := sp.seen], reclaimer := PuttingSplice(Stored(sp.list, sp.tail, sp.seen)))
    case ReCas =>
      var sp := s.reclaimer.sp;
      if s.free == sp.seen then s.(free := Some(sp.list), reclaimer := Resting)
      else s.(reclaimer := PuttingSplice(Loaded(sp.list, sp.tail, s.free)))
  }

  ghost function Apply(s: State, e: Event): State
    requires Safe(s, e)
  {
    match e
    case ByThread(t, op) => ThreadApply(s, t, op)
    case ByReclaimer(re) => ReApply(s, re)
  }

  ghost predicate Trace(tr: seq<State>, es: seq<Event>) {
    && |tr| == |es| + 1
    && Init(tr[0])
    && forall i | 0 <= i < |es| :: Enabled(tr[i], es[i]) && (Safe(tr[i], es[i]) ==> tr[i + 1] == Apply(tr[i], es[i]))
  }

  // ---------------------------------------------------------------- chains

  function NextOf(ns: seq<nat>, i: nat, end: Option<nat>): Option<nat> {
    if i + 1 < |ns| then Some(ns[i + 1]) else end
  }

  /** Following `next` from `h` visits exactly `ns`, all different, and then points to `end`. */
  ghost predicate Path(next: Links, h: Option<nat>, ns: seq<nat>, end: Option<nat>) {
    && h == (if ns == [] then end else Some(ns[0]))
    && (forall i | 0 <= i < |ns| :: ns[i] in next && next[ns[i]] == NextOf(ns, i, end))
    && (forall i, j | 0 <= i < j < |ns| :: ns[i] != ns[j])
  }

  lemma PathPrepend(next: Links, h: Option<nat>, ns: seq<nat>, end: Option<nat>, n: nat)
    requires Path(next, h, ns, end) && n in next && n !in ns && next[n] == h
    ensures Path(next, Some(n), [n] + ns, end)
  {
    var ms := [n] + ns;
    forall i | 0 <= i < |ms| ensures ms[i] in next && next[ms[i]] == NextOf(ms, i, end) {
      if i > 0 {
        assert ms[i] == ns[i - 1];
      }
    }
  }

  lemma PathConcat(next: Links, h: Option<nat>, ns: seq<nat>, m: Option<nat>, ms: seq<nat>, end: Option<nat>)
    requires Path(next, h, ns, m) && Path(next, m, ms, end)
    requires forall n | n in ns :: n !in ms
    ensures Path(next, h, ns + ms, end)
  {
    var all := ns + ms;
    forall i | 0 <= i < |all| ensures all[i] in next && next[all[i]] == NextOf(all, i, end) {
      if i < |ns| {
        assert next[ns[i]] == NextOf(ns, i, m);
      } else {
        assert next[ms[i - |ns|]] == NextOf(ms, i - |ns|, end);
      }
    }
    forall i, j | 0 <= i < j < |all| ensures all[i] != all[j] {
      if i < |ns| <= j {
        assert ns[i] in ns && ms[j - |ns|] in ms;
      }
    }
  }

  lemma PathTail(next: Links, h: Option<nat>, ns: seq<nat>, end: Option<nat>)
    requires Path(next, h, ns, end) && ns != []
    ensures Path(next, next[ns[0]], ns[1..], end)
    ensures ns[0] !in ns[1..]
  {
    var ms := ns[1..];
    assert next[ns[0]] == NextOf(ns, 0, end);
    forall i | 0 <= i < |ms| ensures ms[i] in next && next[ms[i]] == NextOf(ms, i, end) {
      assert ms[i] == ns[i + 1];
    }
  }

  lemma PathSplit(next: Links, h: Option<nat>, ns: seq<nat>, end: Option<nat>, k: nat)
    requires Path(next, h, ns, end) && 0 < k < |ns|
    ensures Path(next, h, ns[..k], Some(ns[k]))
    ensures Path(next, Some(ns[k]), ns[k..], end)
    ensures forall n | n in ns[..k] :: n !in ns[k..]
  {
    var a, b := ns[..k], ns[k..];
    forall i | 0 <= i < |a| ensures a[i] in next && next[a[i]] == NextOf(a, i, Some(ns[k])) {
      assert next[ns[i]] == NextOf(ns, i, end);
    }
    forall i | 0 <= i < |b| ensures b[i] in next && next[b[i]] == NextOf(b, i, end) {
      assert next[ns[k + i]] == NextOf(ns, k + i, end);
    }
  }

  /** Writing the last node's `next` redirects the end of the path. */
  lemma PathRetarget(next: Links, h: Option<nat>, ns: seq<nat>, end: Option<nat>, v: Option<nat>)
    requires Path(next, h, ns, end) && ns != []
    ensures Path(next[ns[|ns| - 1] := v], h, ns, v)
  {
    var next' := next[ns[|ns| - 1] := v];
    forall i | 0 <= i < |ns| ensures ns[i] in next' && next'[ns[i]] == NextOf(ns, i, v) {
      assert next[ns[i]] == NextOf(ns, i, end);
    }
  }

  /** Writing the `next` of a node that is not on the path leaves the path alone. */
  lemma PathFrame(next: Links, h: Option<nat>, ns: seq<nat>, end: Option<nat>, n: nat, v: Option<nat>)
    requires Path(next, h, ns, end) && n !in ns
    ensures Path(next[n := v], h, ns, end)
  {
    forall i | 0 <= i < |ns| ensures next[n := v][ns[i]] == NextOf(ns, i, end) {
      assert ns[i] in ns;
    }
  }

  /** Unlinking the k-th node behind its predecessor. */
  lemma PathUnlink(next: Links, h: Option<nat>, ns: seq<nat>, end: Option<nat>, k: nat)
    requires Path(next, h, ns, end) && 0 < k < |ns|
    ensures ns[k] in next && Path(next[ns[k - 1] := next[ns[k]]], h, ns[..k] + ns[k + 1..], end)
  {
    var a, b, rest := ns[..k], ns[k..], next[ns[k]];
    PathSplit(next, h, ns, end, k);
    PathTail(next, Some(ns[k]), b, end);
    assert b[1..] == ns[k + 1..];
    PathRetarget(next, h, a, Some(ns[k]), rest);
    assert a[k - 1] in a && a[|a| - 1] == ns[k - 1];
    PathFrame(next, rest, b[1..], end, ns[k - 1], rest);
    PathConcat(next[ns[k - 1] := rest], h, a, rest, b[1..], end);
  }

  // ---------------------------------------------------------------- the invariant

  /** Where an allocated node is. */
  datatype Place = Live | Garbage | Captured | Removed | Fresh(t: nat)

  /**
   The live list, the free list, the list the reclaimer has taken and the chain the remover
   has unlinked but not yet disposed of, together with the remover and the place of every node.
   */
  datatype Shape = Shape(
    live: seq<nat>, garbage: seq<nat>, captured: seq<nat>, removed: seq<nat>,
    remover: Option<nat>, place: map<nat, Place>)

  ghost predicate Lists(next: Links, head: Option<nat>, free: Option<nat>, w: Shape) {
    && Path(next, head, w.live, None)
    && Path(next, free, w.garbage, None)
  }

  /** Every allocated node is in exactly one place. */
  ghost predicate Placed(next: Links, threads: map<nat, Thread>, w: Shape) {
    && w.place.Keys == next.Keys
    && (forall n | n in w.place :: w.place[n] == Live <==> n in w.live)
    && (forall n | n in w.place :: w.place[n] == Garbage <==> n in w.garbage)
    && (forall n | n in w.place :: w.place[n] == Captured <==> n in w.captured)
    && (forall n | n in w.place :: w.place[n] == Removed <==> n in w.removed)
    && (forall n | n in w.place && w.place[n].Fresh? ::
          w.place[n].t in threads && Building(threads[w.place[n].t]) && threads[w.place[n].t].node == n)
    && (forall n | n in w.live || n in w.garbage || n in w.captured || n in w.removed :: n in w.place)
  }

  predicate Building(th: Thread) { th.PushReady? || th.PushStored? }

  /** A node that will not be destroyed by the run of destroy_list in progress. */
  predicate Lasting(next: Links, place: map<nat, Place>, doomed: bool, n: nat) {
    n in next && n in place && !(doomed && place[n] == Captured)
  }

  predicate LastingOpt(next: Links, place: map<nat, Place>, doomed: bool, o: Option<nat>) {
    o.Some? ==> Lasting(next, place, doomed, o.value)
  }

  /** Lasting nodes only point to lasting nodes. */
  ghost predicate Closed(next: Links, place: map<nat, Place>, doomed: bool) {
    forall n | n in next && Lasting(next, place, doomed, n) :: LastingOpt(next, place, doomed, next[n])
  }

  ghost predicate SpliceSound(next: Links, ns: seq<nat>, sp: Splice) {
    && ns != [] && sp.list == ns[0] && sp.tail in ns && sp.tail in next
    && (sp.Walk? ==> Path(next, Some(sp.list), ns, None))
    && (!sp.Walk? ==> sp.tail == ns[|ns| - 1] && Path(next, Some(sp.list), ns, next[sp.tail]))
    && (sp.Stored? ==> next[sp.tail] == sp.seen)
  }

  /** What a thread remembers is still true and all its pointers are lasting. */
  ghost predicate ThreadSound(next: Links, doomed: bool, w: Shape, t: nat, th: Thread) {
    match th
    case Outside => true
    case Inside(c) => LastingOpt(next, w.place, doomed, c)
    case PushReady(n, seen) =>
      n in next && n in w.place && w.place[n] == Fresh(t) && LastingOpt(next, w.place, doomed, seen)
    case PushStored(n, seen) =>
      n in next && n in w.place && w.place[n] == Fresh(t) && LastingOpt(next, w.place, doomed, seen) && next[n] == seen
    case EraseTop(it) => Lasting(next, w.place, doomed, it)
    case EraseHead(it) => it in next && it in w.live
    case EraseSwap(it, rest) => it in next && it in w.live && next[it] == rest
    case EraseWalk(it, at) =>
      Lasting(next, w.place, doomed, it) && (at.Some? ==> at.value in next && at.value in w.live)
    case EraseFound(it, pred) => pred in next && pred in w.live && next[pred] == Some(it) && it in next && it in w.live
    case EraseUnlink(it, pred, rest) =>
      pred in next && pred in w.live && next[pred] == Some(it) && it in next && it in w.live && next[it] == rest
    case Splicing(sp, after) =>
      && SpliceSound(next, w.removed, sp)
      && LastingOpt(next, w.place, doomed, after)
      && (sp.Loaded? || sp.Stored? ==> LastingOpt(next, w.place, doomed, sp.seen))
  }

  ghost predicate ThreadsSound(next: Links, doomed: bool, w: Shape, threads: map<nat, Thread>) {
    && (forall t | t in threads :: ThreadSound(next, doomed, w, t, threads[t]))
    && (forall t | t in threads :: Removing(threads[t]) <==> w.remover == Some(t))
    && (w.remover.Some? ==> w.remover.value in threads)
    && (w.removed != [] ==> w.remover.Some? && threads[w.remover.value].Splicing?)
  }

  ghost predicate ReclaimerSound(next: Links, w: Shape, r: Reclaimer) {
    match r
    case Taken(f) => w.captured != [] && Path(next, Some(f), w.captured, None)
    case Putting(f) => w.captured != [] && Path(next, Some(f), w.captured, None)
    case PuttingSplice(sp) =>
      SpliceSound(next, w.captured, sp) && (sp.Loaded? || sp.Stored? ==> sp.seen.Some? ==> sp.seen.value in next)
    case Destroying(at) => Path(next, at, w.captured, None)
    case _ => w.captured == []
  }

  function Locked(threads: map<nat, Thread>): set<nat> {
    set t | t in threads && threads[t] != Outside
  }

  ghost predicate Inv(s: State, w: Shape) {
    && Lists(s.next, s.head, s.free, w)
    && Placed(s.next, s.threads, w)
    && Closed(s.next, w.place, s.reclaimer.Destroying?)
    && ThreadsSound(s.next, s.reclaimer.Destroying?, w, s.threads)
    && ReclaimerSound(s.next, w, s.reclaimer)
    && s.refcount == |Locked(s.threads)|
  }

  lemma InvIsSafe(s: State, w: Shape, e: Event)
    requires Inv(s, w) && Enabled(s, e)
    ensures Safe(s, e)
  {
    if e.ByThread? {
      assert ThreadSound(s.next, s.reclaimer.Destroying?, w, e.t, s.threads[e.t]);
    }
  }

  // ---------------------------------------------------------------- how the shape moves

  function Retag(place: map<nat, Place>, from: Place, to: Place): map<nat, Place> {
    map n | n in place :: if place[n] == from then to else place[n]
  }

  /** Position of `it` in the live list, behind `pred`. */
  ghost function IndexOf(ns: seq<nat>, n: nat): (k: nat)
    requires n in ns
    ensures k < |ns| && ns[k] == n
  {
    var k :| 0 <= k < |ns| && ns[k] == n;
    k
  }

  ghost function ThreadShape(s: State, w: Shape, t: nat, op: Op): Shape
    requires ThreadSafe(s, t, op)
  {
    var th := s.threads[t];
    match op
    case NewNode(n) => w.(place := w.place[n := Fresh(t)])
    case PushCas =>
      if s.head == th.seen then w.(live := [th.node] + w.live, place := w.place[th.node := Live]) else w
    case EraseCall => w.(remover := Some(t))
    case EraseStep => if th.at == None then w.(remover := None) else w
    case EraseCas =>
      if s.head == Some(th.it) && w.live != [] then
        w.(live := w.live[1..], removed := [th.it], place := w.place[th.it := Removed])
      else w
    case EraseStore =>
      if th.it in w.live then
        var k := IndexOf(w.live, th.it);
        w.(live := w.live[..k] + w.live[k + 1..], removed := [th.it], place := w.place[th.it := Removed])
      else w
    case ClearCall =>
      if s.head == None then w
      else w.(live := [], removed := w.live, remover := Some(t), place := Retag(w.place, Live, Removed))
    case SpliceCas =>
      if s.free == th.sp.seen then
        w.(garbage := w.removed + w.garbage, removed := [], remover := None, place := Retag(w.place, Removed, Garbage))
      else w
    case _ => w
  }

  ghost function ReShape(s: State, w: Shape, re: ReOp): Shape
    requires ReSafe(s, re)
  {
    match re
    case Take => w.(garbage := [], captured := w.garbage, place := Retag(w.place, Garbage, Captured))
    case DestroyOne =>
      if s.reclaimer.at.Some? && w.captured != [] then
        w.(captured := w.captured[1..], place := w.place - {s.reclaimer.at.value})
      else w
    case PutCas =>
      if s.free == None then w.(garbage := w.captured, captured := [], place := Retag(w.place, Captured, Garbage)) else w
    case ReCas =>
      if s.free == s.reclaimer.sp.seen then
        w.(garbage := w.captured + w.garbage, captured := [], place := Retag(w.place, Captured, Garbage))
      else w
    case _ => w
  }

  // ---------------------------------------------------------------- frames

  lemma LockedSame(threads: map<nat, Thread>, t: nat, th: Thread)
    requires t in threads && threads[t] != Outside && th != Outside
    ensures Locked(threads[t := th]) == Locked(threads)
  {
  }

  /** Changes that keep lasting nodes, the node a thread builds and what a remover relies on leave it sound. */
  lemma ThreadFrame(next: Links, next': Links, doomed: bool, w: Shape, w': Shape, u: nat, th: Thread)
    requires ThreadSound(next, doomed, w, u, th)
    requires forall n | Lasting(next, w.place, doomed, n) :: Lasting(next', w'.place, doomed, n)
    requires Building(th) ==>
               th.node in next' && th.node in w'.place && w'.place[th.node] == Fresh(u) && next'[th.node] == next[th.node]
    requires Removing(th) ==> forall n | n in w.live :: n in w'.live && n in next && n in next' && next'[n] == next[n]
    requires th.Splicing? ==> w'.removed == w.removed && forall n | n in w.removed :: n in next' && n in next && next'[n] == next[n]
    ensures ThreadSound(next', doomed, w', u, th)
  {
    if th.Splicing? {
      assert th.sp.tail in w.removed;
    }
    if th.EraseFound? || th.EraseUnlink? {
      assert th.pred in w.live;
    }
  }

  /** Giving one thread another state, and the remover's role with it. */
  lemma ThreadsMove(next: Links, doomed: bool, w: Shape, r: Option<nat>, ts: map<nat, Thread>, t: nat, th: Thread)
    requires ThreadsSound(next, doomed, w, ts) && t in ts
    requires ThreadSound(next, doomed, w, t, th)
    requires r == (if Removing(th) then Some(t) else if Removing(ts[t]) then None else w.remover)
    requires Removing(th) ==> Removing(ts[t]) || NoRemover(ts)
    requires w.removed != [] && Removing(ts[t]) ==> th.Splicing?
    ensures ThreadsSound(next, doomed, w.(remover := r), ts[t := th])
  {
    var w' := w.(remover := r);
    forall u | u in ts ensures ThreadSound(next, doomed, w', u, ts[t := th][u]) {
      assert ThreadSound(next, doomed, w, u, ts[t := th][u]);
    }
    forall u | u in ts ensures Removing(ts[t := th][u]) <==> r == Some(u) {
    }
  }

  lemma PlacedMove(next: Links, w: Shape, ts: map<nat, Thread>, t: nat, th: Thread)
    requires Placed(next, ts, w) && t in ts
    requires Building(ts[t]) ==> Building(th) && th.node == ts[t].node
    ensures Placed(next, ts[t := th], w)
  {
  }

  /** A locked thread that only changes its own mind. */
  lemma MoveKeeps(s: State, w: Shape, t: nat, th: Thread, r: Option<nat>)
    requires Inv(s, w) && t in s.threads && s.threads[t] != Outside && th != Outside
    requires ThreadSound(s.next, s.reclaimer.Destroying?, w, t, th)
    requires Building(s.threads[t]) ==> Building(th) && th.node == s.threads[t].node
    requires r == (if Removing(th) then Some(t) else if Removing(s.threads[t]) then None else w.remover)
    requires Removing(th) ==> Removing(s.threads[t]) || NoRemover(s.threads)
    requires s.threads[t].Splicing? ==> th.Splicing?
    ensures Inv(To(s, t, th), w.(remover := r))
  {
    LockedSame(s.threads, t, th);
    ThreadsMove(s.next, s.reclaimer.Destroying?, w, r, s.threads, t, th);
    PlacedMove(s.next, w, s.threads, t, th);
  }

  lemma WalkOnSound(next: Links, ns: seq<nat>, sp: Splice)
    requires SpliceSound(next, ns, sp) && sp.Walk?
    ensures SpliceSound(next, ns, WalkOn(next, sp))
  {
    var i :| 0 <= i < |ns| && ns[i] == sp.tail;
    assert next[ns[i]] == NextOf(ns, i, None);
  }

  lemma LiveIsLasting(s: State, w: Shape, n: nat)
    requires Inv(s, w) && n in w.live
    ensures n in s.next && Lasting(s.next, w.place, s.reclaimer.Destroying?, n)
    ensures s.next[n].Some? ==> s.next[n].value in w.live && s.next[n].value in s.next
  {
    var i :| 0 <= i < |w.live| && w.live[i] == n;
    assert s.next[w.live[i]] == NextOf(w.live, i, None);
    assert w.place[n] == Live;
  }

  lemma HeadIsLasting(s: State, w: Shape)
    requires Inv(s, w)
    ensures s.head.Some? ==> s.head.value in w.live
    ensures LastingOpt(s.next, w.place, s.reclaimer.Destroying?, s.head)
    ensures LastingOpt(s.next, w.place, s.reclaimer.Destroying?, s.free)
  {
    if s.head.Some? {
      LiveIsLasting(s, w, w.live[0]);
    }
    if s.free.Some? {
      assert w.garbage[0] in w.garbage && w.place[w.garbage[0]] == Garbage;
    }
  }

  // ---------------------------------------------------------------- operations that only read

  ghost predicate Here(s: State, w: Shape, t: nat, op: Op) {
    Inv(s, w) && ThreadSafe(s, t, op)
  }

  /** What the invariant says about one thread. */
  lemma Facts(s: State, w: Shape, t: nat)
    requires Inv(s, w) && t in s.threads
    ensures ThreadSound(s.next, s.reclaimer.Destroying?, w, t, s.threads[t])
    ensures Removing(s.threads[t]) <==> w.remover == Some(t)
  {
  }

  /** A lasting node's successor is lasting. */
  lemma SuccessorLasts(s: State, w: Shape, n: nat)
    requires Inv(s, w) && Lasting(s.next, w.place, s.reclaimer.Destroying?, n)
    ensures LastingOpt(s.next, w.place, s.reclaimer.Destroying?, s.next[n])
  {
  }

  lemma BeginKeeps(s: State, w: Shape, t: nat)
    requires Here(s, w, t, Begin)
    ensures Inv(ThreadApply(s, t, Begin), w)
  {
    hide Inv;
    Facts(s, w, t);
    HeadIsLasting(s, w);
    MoveKeeps(s, w, t, Inside(s.head), w.remover);
  }

  lemma AdvanceKeeps(s: State, w: Shape, t: nat)
    requires Here(s, w, t, Advance)
    ensures Inv(ThreadApply(s, t, Advance), w)
  {
    hide Inv;
    Facts(s, w, t);
    SuccessorLasts(s, w, s.threads[t].cursor.value);
    MoveKeeps(s, w, t, Inside(s.next[s.threads[t].cursor.value]), w.remover);
  }

  lemma EraseCallKeeps(s: State, w: Shape, t: nat)
    requires Here(s, w, t, EraseCall)
    ensures Inv(ThreadApply(s, t, EraseCall), ThreadShape(s, w, t, EraseCall))
  {
    hide Inv;
    Facts(s, w, t);
    MoveKeeps(s, w, t, EraseTop(s.threads[t].cursor.value), Some(t));
  }

  lemma EraseLoadKeeps(s: State, w: Shape, t: nat)
    requires Here(s, w, t, EraseLoad)
    ensures Inv(ThreadApply(s, t, EraseLoad), w)
  {
    hide Inv;
    Facts(s, w, t);
    HeadIsLasting(s, w);
    MoveKeeps(s, w, t, ThreadApply(s, t, EraseLoad).threads[t], Some(t));
  }

  lemma EraseReadKeeps(s: State, w: Shape, t: nat)
    requires Here(s, w, t, EraseRead)
    ensures Inv(ThreadApply(s, t, EraseRead), w)
  {
    hide Inv;
    Facts(s, w, t);
    MoveKeeps(s, w, t, EraseSwap(s.threads[t].it, s.next[s.threads[t].it]), Some(t));
  }

  lemma EraseStepKeeps(s: State, w: Shape, t: nat)
    requires Here(s, w, t, EraseStep)
    ensures Inv(ThreadApply(s, t, EraseStep), ThreadShape(s, w, t, EraseStep))
  {
    hide Inv;
    Facts(s, w, t);
    var th := s.threads[t];
    if th.at.Some? {
      LiveIsLasting(s, w, th.at.value);
      MoveKeeps(s, w, t, ThreadApply(s, t, EraseStep).threads[t], Some(t));
    } else {
      MoveKeeps(s, w, t, Inside(None), None);
    }
  }

  lemma EraseRead2Keeps(s: State, w: Shape, t: nat)
    requires Here(s, w, t, EraseRead2)
    ensures Inv(ThreadApply(s, t, EraseRead2), w)
  {
    hide Inv;
    Facts(s, w, t);
    var th := s.threads[t];
    MoveKeeps(s, w, t, EraseUnlink(th.it, th.pred, s.next[th.it]), Some(t));
  }

  lemma SpliceWalkKeeps(s: State, w: Shape, t: nat)
    requires Here(s, w, t, SpliceWalk)
    ensures Inv(ThreadApply(s, t, SpliceWalk), w)
  {
    hide Inv;
    Facts(s, w, t);
    var th := s.threads[t];
    WalkOnSound(s.next, w.removed, th.sp);
    MoveKeeps(s, w, t, Splicing(WalkOn(s.next, th.sp), th.after), Some(t));
  }

  lemma SpliceLoadKeeps(s: State, w: Shape, t: nat)
    requires Here(s, w, t, SpliceLoad)
    ensures Inv(ThreadApply(s, t, SpliceLoad), w)
  {
    hide Inv;
    Facts(s, w, t);
    var th := s.threads[t];
    HeadIsLasting(s, w);
    MoveKeeps(s, w, t, Splicing(Loaded(th.sp.list, th.sp.tail, s.free), th.after), Some(t));
  }

  // ---------------------------------------------------------------- locking

  lemma LockedCount(threads: map<nat, Thread>, t: nat, th: Thread)
    requires t in threads && (threads[t] == Outside) != (th == Outside)
    ensures |Locked(threads[t := th])| == |Locked(threads)| + (if th == Outside then -1 else 1)
  {
    if th == Outside {
      assert Locked(threads[t := th]) == Locked(threads) - {t};
    } else {
      assert Locked(threads[t := th]) == Locked(threads) + {t};
    }
  }

  lemma LockKeeps(s: State, w: Shape, t: nat)
    requires Here(s, w, t, Lock)
    ensures Inv(ThreadApply(s, t, Lock), w)
  {
    hide Lists, Placed, Closed, ThreadsSound, ReclaimerSound, Locked;
    Facts(s, w, t);
    ThreadsMove(s.next, s.reclaimer.Destroying?, w, w.remover, s.threads, t, Inside(None));
    PlacedMove(s.next, w, s.threads, t, Inside(None));
    LockedCount(s.threads, t, Inside(None));
  }

  lemma UnlockKeeps(s: State, w: Shape, t: nat)
    requires Here(s, w, t, Unlock)
    ensures Inv(ThreadApply(s, t, Unlock), w)
  {
    hide Lists, Placed, Closed, ThreadsSound, ReclaimerSound, Locked;
    Facts(s, w, t);
    ThreadsMove(s.next, s.reclaimer.Destroying?, w, w.remover, s.threads, t, Outside);
    PlacedMove(s.next, w, s.threads, t, Outside);
    LockedCount(s.threads, t, Outside);
  }

  // ---------------------------------------------------------------- writing through a private node

  lemma ClosedWrite(next: Links, place: map<nat, Place>, doomed: bool, n: nat, v: Option<nat>)
    requires Closed(next, place, doomed) && n in next && LastingOpt(next, place, doomed, v)
    ensures Closed(next[n := v], place, doomed)
  {
    var next' := next[n := v];
    forall m | m in next' && Lasting(next', place, doomed, m) ensures LastingOpt(next', place, doomed, next'[m]) {
      assert m in next && Lasting(next, place, doomed, m);
      assert LastingOpt(next, place, doomed, next'[m]);
    }
  }

  /** Threads other than `t` do not notice a write to a node that is neither live nor theirs. */
  lemma ThreadsWrite(next: Links, doomed: bool, w: Shape, ts: map<nat, Thread>, t: nat, n: nat, v: Option<nat>)
    requires ThreadsSound(next, doomed, w, ts) && Placed(next, ts, w) && n in next
    requires n !in w.live && (n in w.removed ==> w.remover == Some(t))
    requires w.place[n].Fresh? ==> w.place[n].t == t
    ensures forall u | u in ts && u != t :: ThreadSound(next[n := v], doomed, w, u, ts[u])
  {
    forall u | u in ts && u != t ensures ThreadSound(next[n := v], doomed, w, u, ts[u]) {
      assert ThreadSound(next, doomed, w, u, ts[u]);
      assert Removing(ts[u]) <==> w.remover == Some(u);
      ThreadFrame(next, next[n := v], doomed, w, w, u, ts[u]);
    }
  }

  /** Putting a thread's new state next to the others'. */
  lemma ThreadsJoin(next: Links, doomed: bool, w: Shape, ts: map<nat, Thread>, t: nat, th: Thread)
    requires t in ts && ThreadSound(next, doomed, w, t, th)
    requires forall u | u in ts && u != t :: ThreadSound(next, doomed, w, u, ts[u])
    requires forall u | u in ts && u != t :: Removing(ts[u]) <==> w.remover == Some(u)
    requires Removing(th) <==> w.remover == Some(t)
    requires w.remover.Some? ==> w.remover.value in ts
    requires w.removed != [] ==>
               w.remover.Some? && (w.remover.value == t ==> th.Splicing?)
               && (w.remover.value != t ==> w.remover.value in ts && ts[w.remover.value].Splicing?)
    ensures ThreadsSound(next, doomed, w, ts[t := th])
  {
  }

  /** A node is in the list that its place names and in no other. */
  lemma Where(s: State, w: Shape, n: nat)
    requires Inv(s, w) && n in s.next
    ensures n in w.place
    ensures w.place[n] == Live <==> n in w.live
    ensures w.place[n] == Garbage <==> n in w.garbage
    ensures w.place[n] == Captured <==> n in w.captured
    ensures w.place[n] == Removed <==> n in w.removed
  {
  }

  lemma Roles(s: State, w: Shape)
    requires Inv(s, w)
    ensures forall u | u in s.threads :: Removing(s.threads[u]) <==> w.remover == Some(u)
    ensures w.remover.Some? ==> w.remover.value in s.threads
    ensures w.removed != [] ==> w.remover.Some? && s.threads[w.remover.value].Splicing?
  {
  }

  lemma ListsWrite(next: Links, head: Option<nat>, free: Option<nat>, w: Shape, n: nat, v: Option<nat>)
    requires Lists(next, head, free, w) && n !in w.live && n !in w.garbage
    ensures Lists(next[n := v], head, free, w)
  {
    PathFrame(next, head, w.live, None, n, v);
    PathFrame(next, free, w.garbage, None, n, v);
  }

  lemma SpliceWriteFrame(next: Links, ns: seq<nat>, sp: Splice, n: nat, v: Option<nat>)
    requires SpliceSound(next, ns, sp) && n !in ns
    ensures SpliceSound(next[n := v], ns, sp)
  {
    if sp.Walk? {
      PathFrame(next, Some(sp.list), ns, None, n, v);
    } else {
      PathFrame(next, Some(sp.list), ns, next[sp.tail], n, v);
    }
  }

  lemma ReclaimerWrite(next: Links, w: Shape, r: Reclaimer, n: nat, v: Option<nat>)
    requires ReclaimerSound(next, w, r) && n !in w.captured
    ensures ReclaimerSound(next[n := v], w, r)
  {
    match r {
      case Taken(f) => PathFrame(next, Some(f), w.captured, None, n, v);
      case Putting(f) => PathFrame(next, Some(f), w.captured, None, n, v);
      case Destroying(at) => PathFrame(next, at, w.captured, None, n, v);
      case PuttingSplice(sp) => SpliceWriteFrame(next, w.captured, sp, n, v);
      case _ =>
    }
  }

  lemma PlacedWrite(next: Links, ts: map<nat, Thread>, w: Shape, n: nat, v: Option<nat>)
    requires Placed(next, ts, w) && n in next
    ensures Placed(next[n := v], ts, w)
  {
    assert next[n := v].Keys == next.Keys;
  }

  /** Everything the invariant says survives a write to a private node, except about the writer. */
  lemma WriteKeeps(s: State, w: Shape, t: nat, th: Thread, n: nat, v: Option<nat>)
    requires Inv(s, w) && t in s.threads && s.threads[t] != Outside && th != Outside && n in s.next
    requires n !in w.live && n !in w.garbage && n !in w.captured && (n in w.removed ==> w.remover == Some(t))
    requires n in w.place && (w.place[n].Fresh? ==> w.place[n].t == t)
    requires LastingOpt(s.next, w.place, s.reclaimer.Destroying?, v)
    requires ThreadSound(s.next[n := v], s.reclaimer.Destroying?, w, t, th)
    requires Building(s.threads[t]) ==> Building(th) && th.node == s.threads[t].node
    requires Removing(th) == Removing(s.threads[t]) && (s.threads[t].Splicing? ==> th.Splicing?)
    ensures Inv(To(s, t, th).(next := s.next[n := v]), w)
  {
    hide Path, ThreadSound, Lists, Placed, Closed, ThreadsSound, ReclaimerSound, Locked;
    var next', doomed := s.next[n := v], s.reclaimer.Destroying?;
    Roles(s, w);
    ListsWrite(s.next, s.head, s.free, w, n, v);
    PlacedMove(s.next, w, s.threads, t, th);
    PlacedWrite(s.next, s.threads[t := th], w, n, v);
    ClosedWrite(s.next, w.place, doomed, n, v);
    ReclaimerWrite(s.next, w, s.reclaimer, n, v);
    ThreadsWrite(s.next, doomed, w, s.threads, t, n, v);
    ThreadsJoin(next', doomed, w, s.threads, t, th);
    LockedSame(s.threads, t, th);
  }

  lemma LastingWrite(next: Links, place: map<nat, Place>, doomed: bool, o: Option<nat>, n: nat, v: Option<nat>)
    requires LastingOpt(next, place, doomed, o) && n in next
    ensures LastingOpt(next[n := v], place, doomed, o)
  {
  }

  lemma PushStoreKeeps(s: State, w: Shape, t: nat)
    requires Here(s, w, t, PushStore)
    ensures Inv(ThreadApply(s, t, PushStore), w)
  {
    hide Inv;
    Facts(s, w, t);
    var th := s.threads[t];
    Where(s, w, th.node);
    LastingWrite(s.next, w.place, s.reclaimer.Destroying?, th.seen, th.node, th.seen);
    WriteKeeps(s, w, t, PushStored(th.node, th.seen), th.node, th.seen);
  }

  lemma SpliceStoreKeeps(s: State, w: Shape, t: nat)
    requires Here(s, w, t, SpliceStore)
    ensures Inv(ThreadApply(s, t, SpliceStore), w)
  {
    hide Inv, Path;
    Facts(s, w, t);
    var th, doomed := s.threads[t], s.reclaimer.Destroying?;
    var n, v := th.sp.tail, th.sp.seen;
    Where(s, w, n);
    LastingWrite(s.next, w.place, doomed, v, n, v);
    LastingWrite(s.next, w.place, doomed, th.after, n, v);
    PathRetarget(s.next, Some(th.sp.list), w.removed, s.next[n], v);
    WriteKeeps(s, w, t, Splicing(Stored(th.sp.list, n, v), th.after), n, v);
  }

  // ---------------------------------------------------------------- operations that move nodes

  lemma ThreadsReshape(next: Links, next': Links, doomed: bool, w: Shape, w': Shape, ts: map<nat, Thread>, t: nat)
    requires ThreadsSound(next, doomed, w, ts)
    requires forall n | Lasting(next, w.place, doomed, n) :: Lasting(next', w'.place, doomed, n)
    requires forall u | u in ts && u != t && Building(ts[u]) :: var n := ts[u].node;
               n in next ==> n in next' && n in w'.place && w'.place[n] == Fresh(u) && next'[n] == next[n]
    requires w.remover.Some? && w.remover.value != t ==>
               && w'.removed == w.removed
               && (forall n | n in w.live || n in w.removed :: n in next && n in next' && next'[n] == next[n])
               && (forall n | n in w.live :: n in w'.live)
    ensures forall u | u in ts && u != t :: ThreadSound(next', doomed, w', u, ts[u])
  {
    forall u | u in ts && u != t ensures ThreadSound(next', doomed, w', u, ts[u]) {
      assert ThreadSound(next, doomed, w, u, ts[u]);
      assert Removing(ts[u]) <==> w.remover == Some(u);
      ThreadFrame(next, next', doomed, w, w', u, ts[u]);
    }
  }

  lemma ClosedReplace(next: Links, place: map<nat, Place>, place': map<nat, Place>, doomed: bool)
    requires Closed(next, place, doomed)
    requires forall n | n in next :: Lasting(next, place, doomed, n) <==> Lasting(next, place', doomed, n)
    ensures Closed(next, place', doomed)
  {
    forall n | n in next && Lasting(next, place', doomed, n) ensures LastingOpt(next, place', doomed, next[n]) {
      assert LastingOpt(next, place, doomed, next[n]);
    }
  }

  lemma BuildersOwn(s: State, w: Shape, t: nat)
    requires Inv(s, w)
    ensures forall u | u in s.threads && Building(s.threads[u]) ::
              var n := s.threads[u].node; n in s.next && n in w.place && w.place[n] == Fresh(u)
  {
    forall u | u in s.threads && Building(s.threads[u])
      ensures var n := s.threads[u].node; n in s.next && n in w.place && w.place[n] == Fresh(u)
    {
      Facts(s, w, u);
    }
  }

  lemma PlacedNew(next: Links, ts: map<nat, Thread>, w: Shape, t: nat, th: Thread, n: nat)
    requires Placed(next, ts, w) && t in ts && !Building(ts[t]) && n !in next && th.PushReady? && th.node == n
    ensures Placed(next[n := None], ts[t := th], w.(place := w.place[n := Fresh(t)]))
  {
  }

  lemma ClosedNew(next: Links, place: map<nat, Place>, doomed: bool, n: nat, t: nat)
    requires Closed(next, place, doomed) && n !in next
    ensures Closed(next[n := None], place[n := Fresh(t)], doomed)
  {
    var next', place' := next[n := None], place[n := Fresh(t)];
    forall m | m in next' && Lasting(next', place', doomed, m) ensures LastingOpt(next', place', doomed, next'[m]) {
      if m != n {
        assert Lasting(next, place, doomed, m);
        assert LastingOpt(next, place, doomed, next[m]);
      }
    }
  }

  lemma NewNodeKeeps(s: State, w: Shape, t: nat, n: nat)
    requires Here(s, w, t, NewNode(n))
    ensures Inv(ThreadApply(s, t, NewNode(n)), ThreadShape(s, w, t, NewNode(n)))
  {
    hide Path, ThreadSound, Lists, Placed, Closed, ThreadsSound, ReclaimerSound, Locked;
    var next', doomed, th := s.next[n := None], s.reclaimer.Destroying?, PushReady(n, s.head);
    var w' := w.(place := w.place[n := Fresh(t)]);
    Absent(s, w, n);
    Roles(s, w);
    HeadIsLasting(s, w);
    ListsWrite(s.next, s.head, s.free, w, n, None);
    ListsSame(next', s.head, s.free, w, w');
    PlacedNew(s.next, s.threads, w, t, th, n);
    ClosedNew(s.next, w.place, doomed, n, t);
    ReclaimerWrite(s.next, w, s.reclaimer, n, None);
    ReclaimerSame(next', w, w', s.reclaimer);
    BuildersOwn(s, w, t);
    Present(s, w);
    ThreadsReshape(s.next, next', doomed, w, w', s.threads, t);
    SoundReady(next', doomed, w', t, n, s.head);
    ThreadsJoin(next', doomed, w', s.threads, t, th);
    LockedSame(s.threads, t, th);
  }

  lemma SoundReady(next: Links, doomed: bool, w: Shape, t: nat, n: nat, seen: Option<nat>)
    requires n in next && n in w.place && w.place[n] == Fresh(t) && LastingOpt(next, w.place, doomed, seen)
    ensures ThreadSound(next, doomed, w, t, PushReady(n, seen))
  {
  }

  lemma Absent(s: State, w: Shape, n: nat)
    requires Inv(s, w) && n !in s.next
    ensures n !in w.place && n !in w.live && n !in w.garbage && n !in w.captured && n !in w.removed
  {
  }

  lemma Present(s: State, w: Shape)
    requires Inv(s, w)
    ensures w.place.Keys == s.next.Keys
    ensures forall n | n in w.live || n in w.garbage || n in w.captured || n in w.removed :: n in s.next && n in w.place
  {
  }

  lemma ListsSame(next: Links, head: Option<nat>, free: Option<nat>, w: Shape, w': Shape)
    requires Lists(next, head, free, w) && w'.live == w.live && w'.garbage == w.garbage
    ensures Lists(next, head, free, w')
  {
  }

  lemma ReclaimerSame(next: Links, w: Shape, w': Shape, r: Reclaimer)
    requires ReclaimerSound(next, w, r) && w'.captured == w.captured
    ensures ReclaimerSound(next, w', r)
  {
  }

  predicate SameCaptured(place: map<nat, Place>, place': map<nat, Place>) {
    place'.Keys == place.Keys && forall n | n in place :: place[n] == Captured <==> place'[n] == Captured
  }

  /** A thread that moves nodes between lists without touching any `next`. */
  lemma ShapeKeeps(s: State, w: Shape, t: nat, th: Thread, head: Option<nat>, free: Option<nat>, w': Shape)
    requires Inv(s, w) && t in s.threads && s.threads[t] != Outside && th != Outside
    requires Lists(s.next, head, free, w') && Placed(s.next, s.threads[t := th], w')
    requires w'.captured == w.captured && SameCaptured(w.place, w'.place)
    requires forall n | n in w.place && w.place[n].Fresh? && w.place[n].t != t :: w'.place[n] == w.place[n]
    requires w.remover.Some? && w.remover.value != t ==>
               w'.removed == w.removed && w'.remover == w.remover && forall n | n in w.live :: n in w'.live
    requires ThreadSound(s.next, s.reclaimer.Destroying?, w', t, th)
    requires Removing(th) <==> w'.remover == Some(t)
    requires w'.remover.Some? && w'.remover.value != t ==> w'.remover == w.remover
    requires w'.removed != [] && w'.remover == Some(t) ==> th.Splicing?
    requires w'.removed != [] ==> w'.remover.Some?
    ensures Inv(To(s, t, th).(head := head, free := free), w')
  {
    hide Path, ThreadSound, Lists, Placed, Closed, ThreadsSound, ReclaimerSound, Locked;
    var doomed := s.reclaimer.Destroying?;
    Roles(s, w);
    Present(s, w);
    BuildersOwn(s, w, t);
    ClosedReplace(s.next, w.place, w'.place, doomed);
    ReclaimerSame(s.next, w, w', s.reclaimer);
    ThreadsReshape(s.next, s.next, doomed, w, w', s.threads, t);
    ThreadsJoin(s.next, doomed, w', s.threads, t, th);
    LockedSame(s.threads, t, th);
  }

  lemma PlacedPush(next: Links, ts: map<nat, Thread>, w: Shape, t: nat, th: Thread, n: nat)
    requires Placed(next, ts, w) && t in ts && n in w.place && w.place[n] == Fresh(t) && th.Inside?
    ensures Placed(next, ts[t := th], w.(live := [n] + w.live, place := w.place[n := Live]))
  {
    var w' := w.(live := [n] + w.live, place := w.place[n := Live]);
    assert forall m :: m in w'.live <==> m == n || m in w.live;
  }

  lemma ListsPush(next: Links, head: Option<nat>, free: Option<nat>, w: Shape, w': Shape, n: nat)
    requires Lists(next, head, free, w) && n in next && n !in w.live && next[n] == head
    requires w'.live == [n] + w.live && w'.garbage == w.garbage
    ensures Lists(next, Some(n), free, w')
  {
    PathPrepend(next, head, w.live, None, n);
  }

  lemma PushCasKeeps(s: State, w: Shape, t: nat)
    requires Here(s, w, t, PushCas)
    ensures Inv(ThreadApply(s, t, PushCas), ThreadShape(s, w, t, PushCas))
  {
    hide Path, Lists, Placed, Closed, ThreadsSound, ReclaimerSound, Locked;
    Facts(s, w, t);
    var th := s.threads[t];
    var n, w' := th.node, ThreadShape(s, w, t, PushCas);
    if s.head == th.seen {
      Where(s, w, n);
      ListsPush(s.next, s.head, s.free, w, w', n);
      PlacedPush(s.next, s.threads, w, t, Inside(Some(n)), n);
      Roles(s, w);
      ShapeKeeps(s, w, t, Inside(Some(n)), Some(n), s.free, w');
    } else {
      HeadIsLasting(s, w);
      MoveKeeps(s, w, t, PushReady(n, s.head), w.remover);
    }
  }

  lemma PlacedRemove(next: Links, ts: map<nat, Thread>, w: Shape, t: nat, th: Thread, n: nat, k: nat)
    requires Placed(next, ts, w) && t in ts && !Building(ts[t]) && w.removed == []
    requires k < |w.live| && w.live[k] == n && forall i, j | 0 <= i < j < |w.live| :: w.live[i] != w.live[j]
    ensures Placed(next, ts[t := th],
                   w.(live := w.live[..k] + w.live[k + 1..], removed := [n], place := w.place[n := Removed]))
  {
    var live := w.live[..k] + w.live[k + 1..];
    forall m ensures m in live <==> m in w.live && m != n {
      if m in w.live && m != n {
        var i :| 0 <= i < |w.live| && w.live[i] == m;
        assert live[if i < k then i else i - 1] == m;
      }
    }
  }

  lemma ListsPop(next: Links, head: Option<nat>, free: Option<nat>, w: Shape, w': Shape)
    requires Lists(next, head, free, w) && w.live != [] && w'.live == w.live[1..] && w'.garbage == w.garbage
    ensures w.live[0] in next && Lists(next, next[w.live[0]], free, w')
  {
    PathTail(next, head, w.live, None);
  }

  lemma Heads(s: State, w: Shape)
    requires Inv(s, w)
    ensures s.head == (if w.live == [] then None else Some(w.live[0]))
    ensures forall i, j | 0 <= i < j < |w.live| :: w.live[i] != w.live[j]
  {
  }

  lemma SingleSplice(next: Links, n: nat)
    requires n in next
    ensures SpliceSound(next, [n], AtTail(n, n))
  {
  }

  lemma NotYetRemoved(s: State, w: Shape, t: nat)
    requires Inv(s, w) && t in s.threads && w.remover in {Some(t), None} && !s.threads[t].Splicing?
    ensures w.removed == []
  {
  }

  lemma EraseCasKeeps(s: State, w: Shape, t: nat)
    requires Here(s, w, t, EraseCas)
    ensures Inv(ThreadApply(s, t, EraseCas), ThreadShape(s, w, t, EraseCas))
  {
    hide Path, SpliceSound, Lists, Placed, Closed, ThreadsSound, ReclaimerSound, Locked;
    Facts(s, w, t);
    Heads(s, w);
    var th := s.threads[t];
    var n, w' := th.it, ThreadShape(s, w, t, EraseCas);
    LiveIsLasting(s, w, n);
    Where(s, w, n);
    if s.head == Some(n) {
      var to := Splicing(AtTail(n, n), th.rest);
      NotYetRemoved(s, w, t);
      assert w.live[..0] + w.live[1..] == w.live[1..];
      ListsPop(s.next, s.head, s.free, w, w');
      PlacedRemove(s.next, s.threads, w, t, to, n, 0);
      SingleSplice(s.next, n);
      SuccessorLasts(s, w, n);
      ShapeKeeps(s, w, t, to, th.rest, s.free, w');
    } else {
      MoveKeeps(s, w, t, EraseTop(n), Some(t));
    }
  }

  lemma ListsUnlink(next: Links, head: Option<nat>, free: Option<nat>, w: Shape, w': Shape, k: nat)
    requires Lists(next, head, free, w) && 0 < k < |w.live| && w.live[k - 1] !in w.garbage
    requires w'.live == w.live[..k] + w.live[k + 1..] && w'.garbage == w.garbage
    ensures w.live[k] in next && Lists(next[w.live[k - 1] := next[w.live[k]]], head, free, w')
  {
    PathUnlink(next, head, w.live, None, k);
    PathFrame(next, free, w.garbage, None, w.live[k - 1], next[w.live[k]]);
  }

  /** The predecessor found by erase is the node right before the victim. */
  lemma PredecessorIsPrevious(next: Links, head: Option<nat>, free: Option<nat>, w: Shape, it: nat, pred: nat)
    requires Lists(next, head, free, w) && pred in w.live && it in w.live && pred in next && next[pred] == Some(it)
    ensures IndexOf(w.live, it) > 0 && w.live[IndexOf(w.live, it) - 1] == pred
  {
    var j :| 0 <= j < |w.live| && w.live[j] == pred;
    assert next[w.live[j]] == NextOf(w.live, j, None);
    var k := IndexOf(w.live, it);
    assert w.live[j + 1] == w.live[k];
  }

  lemma EraseStoreKeeps(s: State, w: Shape, t: nat)
    requires Here(s, w, t, EraseStore)
    ensures Inv(ThreadApply(s, t, EraseStore), ThreadShape(s, w, t, EraseStore))
  {
    hide Path, ThreadsSound, SpliceSound, Lists, Placed, Closed, ReclaimerSound, Locked;
    Facts(s, w, t);
    Heads(s, w);
    var th, doomed, w' := s.threads[t], s.reclaimer.Destroying?, ThreadShape(s, w, t, EraseStore);
    var n, next' := th.it, s.next[th.pred := th.rest];
    var k, to := IndexOf(w.live, n), Splicing(AtTail(n, n), th.rest);
    PredecessorIsPrevious(s.next, s.head, s.free, w, n, th.pred);
    Where(s, w, n);
    Where(s, w, th.pred);
    NotYetRemoved(s, w, t);
    Roles(s, w);
    Present(s, w);
    LiveIsLasting(s, w, n);
    SuccessorLasts(s, w, n);
    ListsUnlink(s.next, s.head, s.free, w, w', k);
    PlacedRemove(s.next, s.threads, w, t, to, n, k);
    PlacedWrite(s.next, s.threads[t := to], w', th.pred, th.rest);
    ClosedWrite(s.next, w.place, doomed, th.pred, th.rest);
    ClosedReplace(next', w.place, w'.place, doomed);
    ReclaimerWrite(s.next, w, s.reclaimer, th.pred, th.rest);
    ReclaimerSame(next', w, w', s.reclaimer);
    BuildersOwn(s, w, t);
    ThreadsReshape(s.next, next', doomed, w, w', s.threads, t);
    SingleSplice(next', n);
    ThreadsJoin(next', doomed, w', s.threads, t, to);
    LockedSame(s.threads, t, to);
  }

  lemma PlacedClear(next: Links, ts: map<nat, Thread>, w: Shape, t: nat, th: Thread)
    requires Placed(next, ts, w) && t in ts && !Building(ts[t]) && w.removed == []
    ensures Placed(next, ts[t := th],
                   w.(live := [], removed := w.live, remover := Some(t), place := Retag(w.place, Live, Removed)))
  {
  }

  lemma ListsClear(next: Links, head: Option<nat>, free: Option<nat>, w: Shape, w': Shape)
    requires Lists(next, head, free, w) && head.Some? && w'.live == [] && w'.garbage == w.garbage
    ensures Lists(next, None, free, w')
    ensures head.value in next && SpliceSound(next, w.live, Walk(head.value, head.value))
  {
  }

  lemma ClearCallKeeps(s: State, w: Shape, t: nat)
    requires Here(s, w, t, ClearCall)
    ensures Inv(ThreadApply(s, t, ClearCall), ThreadShape(s, w, t, ClearCall))
  {
    hide Path, ThreadsSound, SpliceSound, Lists, Placed, Closed, ReclaimerSound, Locked;
    Roles(s, w);
    Heads(s, w);
    if s.head.Some? {
      var w', to := ThreadShape(s, w, t, ClearCall), Splicing(Walk(s.head.value, s.head.value), None);
      ListsClear(s.next, s.head, s.free, w, w');
      PlacedClear(s.next, s.threads, w, t, to);
      ShapeKeeps(s, w, t, to, None, s.free, w');
    }
  }

  /** Putting a chain in front of the free list. */
  lemma GarbageGrows(next: Links, head: Option<nat>, free: Option<nat>, w: Shape, w': Shape, ns: seq<nat>, sp: Splice)
    requires Lists(next, head, free, w) && SpliceSound(next, ns, sp) && sp.Stored? && sp.seen == free
    requires forall n | n in ns :: n !in w.garbage
    requires w'.live == w.live && w'.garbage == ns + w.garbage
    ensures Lists(next, head, Some(sp.list), w')
  {
    PathConcat(next, Some(sp.list), ns, free, w.garbage, None);
  }

  lemma PlacedDispose(next: Links, ts: map<nat, Thread>, w: Shape, t: nat, th: Thread)
    requires Placed(next, ts, w) && t in ts && !Building(ts[t])
    ensures Placed(next, ts[t := th],
                   w.(garbage := w.removed + w.garbage, removed := [], remover := None,
                      place := Retag(w.place, Removed, Garbage)))
  {
  }

  lemma Apart(s: State, w: Shape)
    requires Inv(s, w)
    ensures forall n | n in w.removed :: n !in w.garbage
    ensures forall n | n in w.captured :: n !in w.garbage
  {
  }

  lemma SpliceCasKeeps(s: State, w: Shape, t: nat)
    requires Here(s, w, t, SpliceCas)
    ensures Inv(ThreadApply(s, t, SpliceCas), ThreadShape(s, w, t, SpliceCas))
  {
    hide Path, ThreadsSound, SpliceSound, Lists, Placed, Closed, ReclaimerSound, Locked;
    Facts(s, w, t);
    var th, w' := s.threads[t], ThreadShape(s, w, t, SpliceCas);
    if s.free == th.sp.seen {
      Apart(s, w);
      GarbageGrows(s.next, s.head, s.free, w, w', w.removed, th.sp);
      PlacedDispose(s.next, s.threads, w, t, Inside(th.after));
      ShapeKeeps(s, w, t, Inside(th.after), s.head, Some(th.sp.list), w');
    } else {
      var to := Loaded(th.sp.list, th.sp.tail, s.free);
      HeadIsLasting(s, w);
      SpliceReload(s.next, w.removed, th.sp, s.free);
      MoveKeeps(s, w, t, Splicing(to, th.after), Some(t));
    }
  }

  lemma SpliceReload(next: Links, ns: seq<nat>, sp: Splice, seen: Option<nat>)
    requires SpliceSound(next, ns, sp) && !sp.Walk?
    ensures SpliceSound(next, ns, Loaded(sp.list, sp.tail, seen))
  {
  }

  // ---------------------------------------------------------------- the reclaiming thread

  ghost predicate There(s: State, w: Shape, re: ReOp) {
    Inv(s, w) && ReSafe(s, re)
  }

  /** Steps of the reclaimer that move no node and do not start or end a destruction. */
  lemma ReLocalKeeps(s: State, w: Shape, r: Reclaimer)
    requires Inv(s, w) && ReclaimerSound(s.next, w, r) && r.Destroying? == s.reclaimer.Destroying?
    ensures Inv(s.(reclaimer := r), w)
  {
  }

  lemma NothingCaptured(s: State, w: Shape)
    requires Inv(s, w) && (s.reclaimer.Resting? || s.reclaimer.SawGarbage? || s.reclaimer.SawUnlocked?)
    ensures w.captured == []
  {
  }

  lemma LookKeeps(s: State, w: Shape, re: ReOp)
    requires There(s, w, re) && (re == LookFree || re == LookRefs)
    ensures Inv(ReApply(s, re), w)
  {
    hide Inv;
    NothingCaptured(s, w);
    ReLocalKeeps(s, w, ReApply(s, re).reclaimer);
  }

  /** Threads do not care which list a node outside the live list is in, unless it is about to go. */
  lemma ThreadsRetag(next: Links, w: Shape, w': Shape, ts: map<nat, Thread>)
    requires ThreadsSound(next, false, w, ts)
    requires w'.live == w.live && w'.removed == w.removed && w'.remover == w.remover && w'.place.Keys == w.place.Keys
    requires forall n | n in w.place && w.place[n].Fresh? :: w'.place[n] == w.place[n]
    ensures ThreadsSound(next, false, w', ts)
  {
  }

  lemma ClosedRetag(next: Links, place: map<nat, Place>, place': map<nat, Place>)
    requires Closed(next, place, false) && place'.Keys == place.Keys
    ensures Closed(next, place', false)
  {
    ClosedReplace(next, place, place', false);
  }

  lemma PlacedTake(next: Links, ts: map<nat, Thread>, w: Shape)
    requires Placed(next, ts, w) && w.captured == []
    ensures Placed(next, ts, w.(garbage := [], captured := w.garbage, place := Retag(w.place, Garbage, Captured)))
  {
  }

  lemma ListsTake(next: Links, head: Option<nat>, free: Option<nat>, w: Shape, w': Shape)
    requires Lists(next, head, free, w) && w'.live == w.live && w'.garbage == []
    ensures Lists(next, head, None, w')
    ensures Path(next, free, w.garbage, None)
  {
  }

  lemma TakeKeeps(s: State, w: Shape)
    requires There(s, w, Take)
    ensures Inv(ReApply(s, Take), ReShape(s, w, Take))
  {
    hide Lists, Placed, Closed, ThreadsSound, Locked;
    NothingCaptured(s, w);
    var w' := ReShape(s, w, Take);
    ListsTake(s.next, s.head, s.free, w, w');
    PlacedTake(s.next, s.threads, w);
    ClosedRetag(s.next, w.place, w'.place);
    ThreadsRetag(s.next, w, w', s.threads);
  }

  /** With nobody inside, every node is live, garbage or captured. */
  lemma NobodyInside(s: State, w: Shape)
    requires Inv(s, w) && s.refcount == 0
    ensures forall t | t in s.threads :: s.threads[t] == Outside
    ensures w.removed == []
    ensures forall n | n in s.next :: n in w.live || n in w.garbage || n in w.captured
  {
    assert Locked(s.threads) == {};
    forall t | t in s.threads ensures s.threads[t] == Outside {
      assert t !in Locked(s.threads);
    }
    forall n | n in s.next ensures n in w.live || n in w.garbage || n in w.captured {
      assert n in w.place;
    }
  }

  /** Nodes on a path that ends in null point to nodes on it. */
  lemma PathStays(next: Links, h: Option<nat>, ns: seq<nat>, n: nat)
    requires Path(next, h, ns, None) && n in ns
    ensures n in next && (next[n].Some? ==> next[n].value in ns)
  {
    var i :| 0 <= i < |ns| && ns[i] == n;
    assert next[ns[i]] == NextOf(ns, i, None);
  }

  /** Once the list is found unlocked, nothing outside the captured list refers to it. */
  lemma CapturedIsUnreachable(s: State, w: Shape)
    requires Inv(s, w) && s.refcount == 0
    ensures Closed(s.next, w.place, true)
  {
    NobodyInside(s, w);
    forall n | n in s.next && Lasting(s.next, w.place, true, n) ensures LastingOpt(s.next, w.place, true, s.next[n]) {
      if n in w.live {
        PathStays(s.next, s.head, w.live, n);
        assert s.next[n].Some? ==> s.next[n].value in w.live && w.place[s.next[n].value] == Live;
      } else {
        PathStays(s.next, s.free, w.garbage, n);
        assert s.next[n].Some? ==> s.next[n].value in w.garbage && w.place[s.next[n].value] == Garbage;
      }
    }
  }

  lemma RecheckKeeps(s: State, w: Shape)
    requires There(s, w, Recheck)
    ensures Inv(ReApply(s, Recheck), w)
  {
    if s.refcount == 0 {
      hide Path, Lists, Placed, Closed, Locked;
      NobodyInside(s, w);
      CapturedIsUnreachable(s, w);
    } else {
      hide Path, Lists, Placed, Closed, ThreadsSound, Locked;
    }
  }

  lemma PathDrop(next: Links, h: Option<nat>, ns: seq<nat>, end: Option<nat>, n: nat)
    requires Path(next, h, ns, end) && n !in ns
    ensures Path(next - {n}, h, ns, end)
  {
    forall i | 0 <= i < |ns| ensures ns[i] in next - {n} {
      assert ns[i] in ns;
    }
  }

  lemma ListsDrop(next: Links, head: Option<nat>, free: Option<nat>, w: Shape, w': Shape, n: nat)
    requires Lists(next, head, free, w) && n !in w.live && n !in w.garbage
    requires w'.live == w.live && w'.garbage == w.garbage
    ensures Lists(next - {n}, head, free, w')
  {
    PathDrop(next, head, w.live, None, n);
    PathDrop(next, free, w.garbage, None, n);
  }

  lemma PlacedDrop(next: Links, ts: map<nat, Thread>, w: Shape, n: nat)
    requires Placed(next, ts, w) && n in next && w.captured != [] && w.captured[0] == n && n !in w.captured[1..]
    requires w.place[n] == Captured
    ensures Placed(next - {n}, ts, w.(captured := w.captured[1..], place := w.place - {n}))
  {
    assert (next - {n}).Keys == next.Keys - {n};
    assert forall m :: m in w.captured <==> m == n || m in w.captured[1..];
  }

  lemma ClosedDrop(next: Links, place: map<nat, Place>, n: nat)
    requires Closed(next, place, true) && n in place && place[n] == Captured
    ensures Closed(next - {n}, place - {n}, true)
  {
    var next', place' := next - {n}, place - {n};
    forall m | m in next' && Lasting(next', place', true, m) ensures LastingOpt(next', place', true, next'[m]) {
      assert Lasting(next, place, true, m);
      assert LastingOpt(next, place, true, next[m]);
    }
  }

  lemma ThreadsDrop(next: Links, w: Shape, w': Shape, ts: map<nat, Thread>, n: nat)
    requires ThreadsSound(next, true, w, ts) && Placed(next, ts, w) && n in w.place && w.place[n] == Captured
    requires w'.live == w.live && w'.removed == w.removed && w'.remover == w.remover && w'.place == w.place - {n}
    ensures ThreadsSound(next - {n}, true, w', ts)
  {
    forall u | u in ts ensures ThreadSound(next - {n}, true, w', u, ts[u]) {
      assert ThreadSound(next, true, w, u, ts[u]);
      ThreadFrame(next, next - {n}, true, w, w', u, ts[u]);
    }
  }

  lemma CapturedHead(s: State, w: Shape)
    requires Inv(s, w) && s.reclaimer.Destroying?
    ensures Path(s.next, s.reclaimer.at, w.captured, None)
  {
  }

  /** Destroying one node hurts nobody. */
  lemma DestroySomeKeeps(s: State, w: Shape)
    requires There(s, w, DestroyOne) && s.reclaimer.at.Some?
    ensures Inv(ReApply(s, DestroyOne), ReShape(s, w, DestroyOne))
  {
    hide Path, Lists, Placed, Closed, ThreadsSound, Locked;
    var n := s.reclaimer.at.value;
    CapturedHead(s, w);
    NonEmptyPath(s.next, n, w.captured);
    Where(s, w, n);
    var w' := ReShape(s, w, DestroyOne);
    ListsDrop(s.next, s.head, s.free, w, w', n);
    PathTail(s.next, Some(n), w.captured, None);
    PathDrop(s.next, s.next[n], w.captured[1..], None, n);
    PlacedDrop(s.next, s.threads, w, n);
    ClosedDrop(s.next, w.place, n);
    ThreadsDrop(s.next, w, w', s.threads, n);
  }

  lemma NonEmptyPath(next: Links, n: nat, ns: seq<nat>)
    requires Path(next, Some(n), ns, None)
    ensures ns != [] && ns[0] == n && n in ns
  {
  }

  lemma DestroyEndKeeps(s: State, w: Shape)
    requires There(s, w, DestroyOne) && s.reclaimer.at == None
    ensures Inv(ReApply(s, DestroyOne), w)
  {
    hide Lists, Locked;
    assert w.captured == [];
    assert forall n | n in w.place :: w.place[n] != Captured;
    assert forall n :: Lasting(s.next, w.place, true, n) <==> Lasting(s.next, w.place, false, n);
    forall t | t in s.threads ensures ThreadSound(s.next, false, w, t, s.threads[t]) {
      assert ThreadSound(s.next, true, w, t, s.threads[t]);
    }
  }

  lemma PlacedReturn(next: Links, ts: map<nat, Thread>, w: Shape)
    requires Placed(next, ts, w)
    ensures Placed(next, ts, w.(garbage := w.captured + w.garbage, captured := [], place := Retag(w.place, Captured, Garbage)))
  {
  }

  lemma ListsReturn(next: Links, head: Option<nat>, w: Shape, w': Shape, list: nat)
    requires Lists(next, head, None, w) && Path(next, Some(list), w.captured, None)
    requires w'.live == w.live && w'.garbage == w.captured
    ensures w.garbage == [] && Lists(next, head, Some(list), w')
  {
  }

  lemma PutCasKeeps(s: State, w: Shape)
    requires There(s, w, PutCas)
    ensures Inv(ReApply(s, PutCas), ReShape(s, w, PutCas))
  {
    hide Path, Lists, Placed, Closed, ThreadsSound, Locked;
    var f, w' := s.reclaimer.list, ReShape(s, w, PutCas);
    NonEmptyPath(s.next, f, w.captured);
    if s.free == None {
      ListsReturn(s.next, s.head, w, w', f);
      PlacedReturn(s.next, s.threads, w);
      assert w.captured + w.garbage == w.captured;
      ClosedRetag(s.next, w.place, w'.place);
      ThreadsRetag(s.next, w, w', s.threads);
    } else {
      Present(s, w);
    }
  }

  lemma ReWalkKeeps(s: State, w: Shape)
    requires There(s, w, ReWalk)
    ensures Inv(ReApply(s, ReWalk), w)
  {
    hide Path, Lists, Placed, Closed, ThreadsSound, Locked;
    WalkOnSound(s.next, w.captured, s.reclaimer.sp);
  }

  lemma ReLoadKeeps(s: State, w: Shape)
    requires There(s, w, ReLoad)
    ensures Inv(ReApply(s, ReLoad), w)
  {
    hide Path, Lists, Placed, Closed, ThreadsSound, Locked;
    HeadIsLasting(s, w);
    SpliceReload(s.next, w.captured, s.reclaimer.sp, s.free);
  }

  lemma ThreadsWriteAll(next: Links, w: Shape, ts: map<nat, Thread>, n: nat, v: Option<nat>)
    requires ThreadsSound(next, false, w, ts) && Placed(next, ts, w) && n in next && n in w.place && w.place[n] == Captured
    ensures ThreadsSound(next[n := v], false, w, ts)
  {
    forall u | u in ts ensures ThreadSound(next[n := v], false, w, u, ts[u]) {
      assert ThreadSound(next, false, w, u, ts[u]);
      ThreadFrame(next, next[n := v], false, w, w, u, ts[u]);
    }
  }

  lemma ReStoreKeeps(s: State, w: Shape)
    requires There(s, w, ReStore)
    ensures Inv(ReApply(s, ReStore), w)
  {
    hide Path, Lists, Placed, Closed, ThreadsSound, Locked;
    var sp := s.reclaimer.sp;
    Where(s, w, sp.tail);
    Present(s, w);
    ListsWrite(s.next, s.head, s.free, w, sp.tail, sp.seen);
    PlacedWrite(s.next, s.threads, w, sp.tail, sp.seen);
    ClosedWrite(s.next, w.place, false, sp.tail, sp.seen);
    ThreadsWriteAll(s.next, w, s.threads, sp.tail, sp.seen);
    PathRetarget(s.next, Some(sp.list), w.captured, s.next[sp.tail], sp.seen);
  }

  lemma ReCasKeeps(s: State, w: Shape)
    requires There(s, w, ReCas)
    ensures Inv(ReApply(s, ReCas), ReShape(s, w, ReCas))
  {
    hide Path, Lists, Placed, Closed, ThreadsSound, Locked;
    var sp, w' := s.reclaimer.sp, ReShape(s, w, ReCas);
    if s.free == sp.seen {
      Apart(s, w);
      GarbageGrows(s.next, s.head, s.free, w, w', w.captured, sp);
      PlacedReturn(s.next, s.threads, w);
      ClosedRetag(s.next, w.place, w'.place);
      ThreadsRetag(s.next, w, w', s.threads);
    } else {
      HeadIsLasting(s, w);
      SpliceReload(s.next, w.captured, sp, s.free);
    }
  }

  // ---------------------------------------------------------------- every interleaving

  lemma ThreadStepKeeps(s: State, w: Shape, t: nat, op: Op)
    requires Here(s, w, t, op)
    ensures Inv(ThreadApply(s, t, op), ThreadShape(s, w, t, op))
  {
    hide Inv;
    match op {
      case Lock => LockKeeps(s, w, t);
      case Unlock => UnlockKeeps(s, w, t);
      case Begin => BeginKeeps(s, w, t);
      case Advance => AdvanceKeeps(s, w, t);
      case NewNode(n) => NewNodeKeeps(s, w, t, n);
      case PushStore => PushStoreKeeps(s, w, t);
      case PushCas => PushCasKeeps(s, w, t);
      case EraseCall => EraseCallKeeps(s, w, t);
      case EraseLoad => EraseLoadKeeps(s, w, t);
      case EraseRead => EraseReadKeeps(s, w, t);
      case EraseCas => EraseCasKeeps(s, w, t);
      case EraseStep => EraseStepKeeps(s, w, t);
      case EraseRead2 => EraseRead2Keeps(s, w, t);
      case EraseStore => EraseStoreKeeps(s, w, t);
      case ClearCall => ClearCallKeeps(s, w, t);
      case SpliceWalk => SpliceWalkKeeps(s, w, t);
      case SpliceLoad => SpliceLoadKeeps(s, w, t);
      case SpliceStore => SpliceStoreKeeps(s, w, t);
      case SpliceCas => SpliceCasKeeps(s, w, t);
    }
  }

  lemma ReStepKeeps(s: State, w: Shape, re: ReOp)
    requires There(s, w, re)
    ensures Inv(ReApply(s, re), ReShape(s, w, re))
  {
    hide Inv;
    match re {
      case LookFree => LookKeeps(s, w, re);
      case LookRefs => LookKeeps(s, w, re);
      case Take => TakeKeeps(s, w);
      case Recheck => RecheckKeeps(s, w);
      case DestroyOne => if s.reclaimer.at.Some? { DestroySomeKeeps(s, w); } else { DestroyEndKeeps(s, w); }
      case PutCas => PutCasKeeps(s, w);
      case ReWalk => ReWalkKeeps(s, w);
      case ReLoad => ReLoadKeeps(s, w);
      case ReStore => ReStoreKeeps(s, w);
      case ReCas => ReCasKeeps(s, w);
    }
  }

  lemma InitHolds(s: State)
    requires Init(s)
    ensures Inv(s, Shape([], [], [], [], None, map[]))
  {
    assert Locked(s.threads) == {};
  }

  lemma {:induction false} AlwaysInv(tr: seq<State>, es: seq<Event>, i: nat) returns (w: Shape)
    requires Trace(tr, es) && i < |tr|
    ensures Inv(tr[i], w)
    ensures i < |es| ==> Safe(tr[i], es[i])
  {
    hide Inv, Init;
    if i == 0 {
      InitHolds(tr[0]);
      w := Shape([], [], [], [], None, map[]);
    } else {
      var before := AlwaysInv(tr, es, i - 1);
      match es[i - 1] {
        case ByThread(t, op) =>
          ThreadStepKeeps(tr[i - 1], before, t, op);
          w := ThreadShape(tr[i - 1], before, t, op);
        case ByReclaimer(re) =>
          ReStepKeeps(tr[i - 1], before, re);
          w := ReShape(tr[i - 1], before, re);
      }
    }
    if i < |es| {
      InvIsSafe(tr[i], w, es[i]);
    }
  }

  /** In every interleaving, a cursor held while the list is locked points to a node that still exists. */
  lemma CursorNeverDangles(tr: seq<State>, es: seq<Event>, i: nat, t: nat)
    requires Trace(tr, es) && i < |tr| && t in tr[i].threads
    ensures tr[i].threads[t].Inside? && tr[i].threads[t].cursor.Some? ==> tr[i].threads[t].cursor.value in tr[i].next
    ensures Removing(tr[i].threads[t]) && !tr[i].threads[t].Splicing? ==> tr[i].threads[t].it in tr[i].next
  {
    var w := AlwaysInv(tr, es, i);
    Facts(tr[i], w, t);
  }

  /** No access of any thread, and none of the reclaimer, ever touches freed memory. */
  lemma EveryAccessIsSafe(tr: seq<State>, es: seq<Event>, i: nat)
    requires Trace(tr, es) && i < |es|
    ensures Safe(tr[i], es[i]) && tr[i + 1] == Apply(tr[i], es[i])
  {
    var w := AlwaysInv(tr, es, i);
  }

  /** A node reachable from the head through k next pointers. */
  ghost predicate Reaches(next: Links, h: Option<nat>, n: nat, k: nat)
    decreases k
  {
    h.Some? && h.value in next && (if k == 0 then h.value == n else Reaches(next, next[h.value], n, k - 1))
  }

  lemma {:induction false} PathReaches(next: Links, h: Option<nat>, ns: seq<nat>, end: Option<nat>, k: nat)
    requires Path(next, h, ns, end) && k < |ns|
    ensures Reaches(next, h, ns[k], k)
    decreases k
  {
    if k > 0 {
      PathTail(next, h, ns, end);
      PathReaches(next, next[ns[0]], ns[1..], end, k - 1);
    }
  }

  /**
   Nothing is lost: when no thread is in the middle of an operation and the reclaimer rests,
   every allocated node can be reached from the head of the live list or of the free list.
   */
  lemma NoNodeIsLost(tr: seq<State>, es: seq<Event>, i: nat, n: nat)
    requires Trace(tr, es) && i < |tr| && n in tr[i].next
    requires forall t | t in tr[i].threads :: tr[i].threads[t].Outside? || tr[i].threads[t].Inside?
    requires tr[i].reclaimer.Resting?
    ensures exists k: nat :: Reaches(tr[i].next, tr[i].head, n, k) || Reaches(tr[i].next, tr[i].free, n, k)
  {
    var s := tr[i];
    var w := AlwaysInv(tr, es, i);
    Quiescent(s, w, n);
    if n in w.live {
      var k :| 0 <= k < |w.live| && w.live[k] == n;
      PathReaches(s.next, s.head, w.live, None, k);
    } else {
      var k :| 0 <= k < |w.garbage| && w.garbage[k] == n;
      PathReaches(s.next, s.free, w.garbage, None, k);
    }
  }

  lemma Quiescent(s: State, w: Shape, n: nat)
    requires Inv(s, w) && n in s.next && s.reclaimer.Resting?
    requires forall t | t in s.threads :: s.threads[t].Outside? || s.threads[t].Inside?
    ensures Lists(s.next, s.head, s.free, w) && (n in w.live || n in w.garbage)
  {
    Where(s, w, n);
    Roles(s, w);
  }
}
