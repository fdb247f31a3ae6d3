/**
 The tagged Treiber stack of aoo/src/rt_memory_pool.hpp (class free_list).

 A block is named by its offset in the pool. Any number of threads push and pop
 concurrently; between the load of the head and its compare-and-swap everything
 may happen, and the owner of a block may overwrite its `next` word with anything,
 so a popper may read garbage. The head carries a 16-bit tag; the state counts head
 changes without bound in `version` and the code only ever sees `version % TAGS`.
 */
module FreeList {
  import opened Wrappers

  const TAGS: nat := 0x1_0000

  /** The index that stands for "no block"; no block has this offset. */
  const SENTINEL: nat := 0xffff_ffff_ffff

  /** What a thread has seen of the head; `version` only records when and is invisible to the code. */
  datatype Snapshot = Snapshot(tag: nat, value: nat, version: nat)

  datatype Pc =
    | Idle
    | PushLoaded(block: nat, head: Snapshot)            // head read, next not yet written
    | PushLinked(block: nat, head: Snapshot)            // block->next written, CAS pending
    | PopLoaded(head: Snapshot)                         // head read
    | PopRead(head: Snapshot, next: nat)                // head and its (possibly garbage) next read

  datatype State = State(
    head: nat,                // value part of the head word
    version: nat,             // number of head changes; the tag part is version % TAGS
    next: map<nat, nat>,      // the `next` word of every block of the pool
    owner: map<nat, nat>,     // blocks handed out, and the thread that owns each
    pcs: map<nat, Pc>)

  datatype Event =
    | PushLoad(t: nat, block: nat)
    | PushLink(t: nat)
    | PushCas(t: nat)
    | PopLoad(t: nat)
    | PopNext(t: nat)
    | PopCas(t: nat)
    | Scribble(t: nat, block: nat, word: nat)
    | HandOver(t: nat, block: nat, to: nat)

  function Load(s: State): Snapshot { Snapshot(s.version % TAGS, s.head, s.version) }

  /** compare_exchange looks at the tag and the value, never at the version. */
  predicate CasMatches(s: State, seen: Snapshot) {
    seen.tag == s.version % TAGS && seen.value == s.head
  }

  predicate Pushing(pc: Pc, block: nat) {
    (pc.PushLoaded? || pc.PushLinked?) && pc.block == block
  }

  predicate Owns(s: State, t: nat, block: nat) {
    block in s.owner && s.owner[block] == t
  }

  ghost predicate Init(s: State) {
    && s.head == SENTINEL
    && SENTINEL !in s.next
    && s.owner.Keys == s.next.Keys
    && (forall t | t in s.pcs :: s.pcs[t] == Idle)
    && (forall b | b in s.owner :: s.owner[b] in s.pcs)
  }

  predicate Enabled(s: State, e: Event) {
    e.t in s.pcs &&
    match e
    case PushLoad(t, b) => s.pcs[t] == Idle && Owns(s, t, b)
    case PushLink(t) => s.pcs[t].PushLoaded? && s.pcs[t].block in s.next
    case PushCas(t) => s.pcs[t].PushLinked?
    case PopLoad(t) => s.pcs[t] == Idle
    // the load of the block's next word must hit the pool
    case PopNext(t) => s.pcs[t].PopLoaded? && s.pcs[t].head.value in s.next
    case PopCas(t) => s.pcs[t].PopRead?
    case Scribble(t, b, _) => Owns(s, t, b) && b in s.next && !Pushing(s.pcs[t], b)
    case HandOver(t, b, to) => Owns(s, t, b) && to in s.pcs && !Pushing(s.pcs[t], b)
  }

  function Apply(s: State, e: Event): State
    requires Enabled(s, e)
  {
    match e
    case PushLoad(t, b) => s.(pcs := s.pcs[t := PushLoaded(b, Load(s))])
    case PushLink(t) =>
      var b, h := s.pcs[t].block, s.pcs[t].head;
      s.(next := s.next[b := h.value], pcs := s.pcs[t := PushLinked(b, h)])
    case PushCas(t) =>
      var b, h := s.pcs[t].block, s.pcs[t].head;
      if CasMatches(s, h) then
        s.(head := b, version := s.version + 1, owner := s.owner - {b}, pcs := s.pcs[t := Idle])
      else
        s.(pcs := s.pcs[t := PushLoaded(b, Load(s))])
    case PopLoad(t) =>
      s.(pcs := s.pcs[t := if s.head == SENTINEL then Idle else PopLoaded(Load(s))])
    case PopNext(t) =>
      var h := s.pcs[t].head;
      s.(pcs := s.pcs[t := PopRead(h, s.next[h.value])])
    case PopCas(t) =>
      var h, n := s.pcs[t].head, s.pcs[t].next;
      if CasMatches(s, h) then
        s.(head := n, version := s.version + 1, owner := s.owner[h.value := t], pcs := s.pcs[t := Idle])
      else
        s.(pcs := s.pcs[t := if s.head == SENTINEL then Idle else PopLoaded(Load(s))])
    case Scribble(t, b, w) => s.(next := s.next[b := w])
    case HandOver(t, b, to) => s.(owner := s.owner[b := to])
  }

  /** The head word a thread holds, if it holds one. */
  predicate Holds(pc: Pc) { !pc.Idle? }

  /** The tag has not gone full circle between this thread's load and now. */
  ghost predicate TagStillFresh(s: State, t: nat) {
    t in s.pcs && Holds(s.pcs[t]) ==> s.version < s.pcs[t].head.version + TAGS
  }

  ghost predicate Trace(tr: seq<State>, es: seq<Event>) {
    && |tr| == |es| + 1
    && Init(tr[0])
    && forall i | 0 <= i < |es| ::
         Enabled(tr[i], es[i]) && tr[i + 1] == Apply(tr[i], es[i]) && TagStillFresh(tr[i], es[i].t)
  }

  function Succ(list: seq<nat>, i: nat): nat {
    if i + 1 < |list| then list[i + 1] else SENTINEL
  }

  /** `list` is the chain of free blocks from the head to the sentinel, without repetition. */
  ghost predicate IsList(s: State, list: seq<nat>) {
    && (forall i | 0 <= i < |list| :: list[i] in s.next)
    && (forall i, j | 0 <= i < j < |list| :: list[i] != list[j])
    && s.head == (if list == [] then SENTINEL else list[0])
    && (forall i | 0 <= i < |list| :: s.next[list[i]] == Succ(list, i))
  }

  /** Every block is free or handed out, never both. */
  ghost predicate Partition(s: State, list: seq<nat>) {
    && (forall b | b in list :: b !in s.owner)
    && (forall b | b in s.owner :: b in s.next)
    && (forall b | b in s.next :: b in list || b in s.owner)
  }

  /** Two threads never push the same block, and a block being pushed belongs to its pusher. */
  ghost predicate PushersOwn(s: State) {
    && (forall t | t in s.pcs && (s.pcs[t].PushLoaded? || s.pcs[t].PushLinked?) :: Owns(s, t, s.pcs[t].block))
    && (forall t | t in s.pcs && s.pcs[t].PushLinked? ::
          s.pcs[t].block in s.next && s.next[s.pcs[t].block] == s.pcs[t].head.value)
  }

  /**
   A snapshot that is still current is accurate; an outdated one promises nothing about
   the `next` word that was read through it.
   */
  ghost predicate SnapshotsSound(s: State) {
    forall t | t in s.pcs && Holds(s.pcs[t]) ::
      var h := s.pcs[t].head;
      && h.version <= s.version
      && h.tag == h.version % TAGS
      && (h.version == s.version ==> h.value == s.head)
      && (s.pcs[t].PopLoaded? || s.pcs[t].PopRead? ==> h.value in s.next)
      && (h.version == s.version && s.pcs[t].PopRead? ==> s.pcs[t].next == s.next[h.value])
  }

  ghost predicate Inv(s: State, list: seq<nat>) {
    && SENTINEL !in s.next
    && IsList(s, list)
    && Partition(s, list)
    && PushersOwn(s)
    && SnapshotsSound(s)
  }

  /** Within one turn of the tag, a CAS succeeds exactly when the head has not changed since the load. */
  lemma CasIsExact(s: State, list: seq<nat>, t: nat)
    requires Inv(s, list) && t in s.pcs && Holds(s.pcs[t]) && TagStillFresh(s, t)
    ensures CasMatches(s, s.pcs[t].head) <==> s.pcs[t].head.version == s.version
  {
    SameTag(s.pcs[t].head.version, s.version);
  }

  lemma SameTag(a: nat, b: nat)
    requires a <= b < a + TAGS
    ensures a % TAGS == b % TAGS <==> a == b
  {
    var qa, qb := a / TAGS, b / TAGS;
    assert a == TAGS * qa + a % TAGS && b == TAGS * qb + b % TAGS;
    if a % TAGS == b % TAGS {
      assert b - a == TAGS * (qb - qa);
    }
  }

  lemma InitHolds(s: State)
    requires Init(s)
    ensures Inv(s, [])
  {
  }

  /** The free list after an event. */
  ghost function NextList(s: State, list: seq<nat>, e: Event): seq<nat>
    requires Enabled(s, e)
  {
    match e
    case PushCas(t) => if CasMatches(s, s.pcs[t].head) then [s.pcs[t].block] + list else list
    case PopCas(t) => if CasMatches(s, s.pcs[t].head) && list != [] then list[1..] else list
    case _ => list
  }

  lemma PushKeeps(s: State, list: seq<nat>, t: nat)
    requires Inv(s, list) && Enabled(s, PushCas(t)) && TagStillFresh(s, t)
    ensures Inv(Apply(s, PushCas(t)), NextList(s, list, PushCas(t)))
  {
    CasIsExact(s, list, t);
    var s', list' := Apply(s, PushCas(t)), NextList(s, list, PushCas(t));
    if CasMatches(s, s.pcs[t].head) {
      var b := s.pcs[t].block;
      assert list'[0] == b && list'[1..] == list && b !in list;
      forall i | 0 <= i < |list'| ensures list'[i] in s'.next && s'.next[list'[i]] == Succ(list', i) {
        if i > 0 {
          assert list'[i] == list[i - 1];
          assert s.next[list[i - 1]] == Succ(list, i - 1);
        }
      }
    }
  }

  lemma PopKeeps(s: State, list: seq<nat>, t: nat)
    requires Inv(s, list) && Enabled(s, PopCas(t)) && TagStillFresh(s, t)
    ensures Inv(Apply(s, PopCas(t)), NextList(s, list, PopCas(t)))
    ensures CasMatches(s, s.pcs[t].head) ==> list != [] && s.pcs[t].head.value == list[0] && list[0] !in s.owner
  {
    CasIsExact(s, list, t);
    var s', list' := Apply(s, PopCas(t)), NextList(s, list, PopCas(t));
    if CasMatches(s, s.pcs[t].head) {
      assert s.next[list[0]] == Succ(list, 0);
      forall i | 0 <= i < |list'| ensures list'[i] in s'.next && s'.next[list'[i]] == Succ(list', i) {
        assert list'[i] == list[i + 1];
        assert s.next[list[i + 1]] == Succ(list, i + 1);
      }
      assert forall b :: b in list <==> b == list[0] || b in list';
    }
  }

  lemma QuietKeeps(s: State, list: seq<nat>, e: Event)
    requires Inv(s, list) && Enabled(s, e) && !e.PushCas? && !e.PopCas?
    ensures Inv(Apply(s, e), list)
  {
  }

  /** In every interleaving the free blocks form an acyclic chain disjoint from what is handed out. */
  lemma {:induction false} AlwaysWellFormed(tr: seq<State>, es: seq<Event>, i: nat) returns (list: seq<nat>)
    requires Trace(tr, es) && i < |tr|
    ensures Inv(tr[i], list)
  {
    if i == 0 {
      InitHolds(tr[0]);
      list := [];
    } else {
      var before := AlwaysWellFormed(tr, es, i - 1);
      var s, e := tr[i - 1], es[i - 1];
      list := NextList(s, before, e);
      match e {
        case PushCas(t) => PushKeeps(s, before, t);
        case PopCas(t) => PopKeeps(s, before, t);
        case _ => QuietKeeps(s, before, e);
      }
    }
  }

  /** A successful pop hands out a block that nobody owned. */
  lemma PopGivesUnownedBlock(tr: seq<State>, es: seq<Event>, i: nat, t: nat)
    requires Trace(tr, es) && i < |es| && es[i] == PopCas(t) && CasMatches(tr[i], tr[i].pcs[t].head)
    ensures tr[i].pcs[t].head.value in tr[i].next
    ensures tr[i].pcs[t].head.value !in tr[i].owner
    ensures Owns(tr[i + 1], t, tr[i].pcs[t].head.value)
  {
    var list := AlwaysWellFormed(tr, es, i);
    PopKeeps(tr[i], list, t);
  }

  /** Reading through a stale head never leaves the pool, so the load in pop() is always possible. */
  lemma PopNextAlwaysPossible(tr: seq<State>, es: seq<Event>, i: nat, t: nat)
    requires Trace(tr, es) && i < |tr| && t in tr[i].pcs && tr[i].pcs[t].PopLoaded?
    ensures Enabled(tr[i], PopNext(t))
  {
    var list := AlwaysWellFormed(tr, es, i);
  }

  // ---------------------------------------------------------------- a full turn of the tag

  /** The state after a sequence of events, whether or not snapshots stay fresh. */
  function Exec(s: State, es: seq<Event>): (r: Option<State>)
    decreases |es|
  {
    if es == [] then Some(s)
    else if Enabled(s, es[0]) then Exec(Apply(s, es[0]), es[1..])
    else None
  }

  /** A trace is such an execution that meets the freshness assumption. */
  lemma {:induction false} TraceIsExec(tr: seq<State>, es: seq<Event>, i: nat)
    requires Trace(tr, es) && i <= |es|
    ensures Exec(tr[i], es[i..]) == Some(tr[|es|])
    decreases |es| - i
  {
    if i < |es| {
      TraceIsExec(tr, es, i + 1);
      assert es[i..][1..] == es[i + 1..];
    }
  }

  lemma {:induction false} ExecAppend(s: State, a: seq<Event>, t: State, b: seq<Event>)
    requires Exec(s, a) == Some(t)
    ensures Exec(s, a + b) == Exec(t, b)
    decreases |a|
  {
    if a == [] {
      assert a + b == b;
    } else {
      assert (a + b)[1..] == a[1..] + b;
      ExecAppend(Apply(s, a[0]), a[1..], t, b);
    }
  }

  function PopEvents(t: nat): seq<Event> { [PopLoad(t), PopNext(t), PopCas(t)] }

  function PushEvents(t: nat, b: nat): seq<Event> { [PushLoad(t, b), PushLink(t), PushCas(t)] }

  function Popped(s: State, t: nat): State
    requires s.head in s.next
  {
    s.(head := s.next[s.head], version := s.version + 1, owner := s.owner[s.head := t])
  }

  function Pushed(s: State, b: nat): State {
    s.(head := b, version := s.version + 1, next := s.next[b := s.head], owner := s.owner - {b})
  }

  /** An undisturbed pop takes the head. */
  lemma PopAlone(s: State, t: nat)
    requires t in s.pcs && s.pcs[t] == Idle && s.head != SENTINEL && s.head in s.next
    ensures Exec(s, PopEvents(t)) == Some(Popped(s, t))
  {
    var s1 := Apply(s, PopLoad(t));
    var s2 := Apply(s1, PopNext(t));
    var s3 := Apply(s2, PopCas(t));
    assert s3.pcs == s.pcs;
    var es := PopEvents(t);
    assert es[1..] == [PopNext(t), PopCas(t)] && es[1..][1..] == [PopCas(t)] && es[1..][1..][1..] == [];
    assert Exec(s3, []) == Some(s3) && Exec(s2, [PopCas(t)]) == Some(s3);
    assert Exec(s1, [PopNext(t), PopCas(t)]) == Some(s3);
  }

  /** An undisturbed push puts the block in front. */
  lemma PushAlone(s: State, t: nat, b: nat)
    requires t in s.pcs && s.pcs[t] == Idle && Owns(s, t, b) && b in s.next
    ensures Exec(s, PushEvents(t, b)) == Some(Pushed(s, b))
  {
    var s1 := Apply(s, PushLoad(t, b));
    var s2 := Apply(s1, PushLink(t));
    var s3 := Apply(s2, PushCas(t));
    assert s3.pcs == s.pcs;
    var es := PushEvents(t, b);
    assert es[1..] == [PushLink(t), PushCas(t)] && es[1..][1..] == [PushCas(t)] && es[1..][1..][1..] == [];
    assert Exec(s3, []) == Some(s3) && Exec(s2, [PushCas(t)]) == Some(s3);
    assert Exec(s1, [PushLink(t), PushCas(t)]) == Some(s3);
  }

  /** n times a pop and a push of the same block change nothing but the version. */
  lemma {:induction false} Cycles(s: State, t: nat, n: nat) returns (es: seq<Event>)
    requires t in s.pcs && s.pcs[t] == Idle && s.head != SENTINEL && s.head in s.next && s.head !in s.owner
    ensures Exec(s, es) == Some(s.(version := s.version + 2 * n))
    decreases n
  {
    if n == 0 {
      es := [];
    } else {
      var b := s.head;
      PopAlone(s, t);
      var s1 := Popped(s, t);
      PushAlone(s1, t, b);
      var s2 := Pushed(s1, b);
      assert s2.owner == s.owner && s2.next == s.next;
      assert s2 == s.(version := s.version + 2);
      ExecAppend(s, PopEvents(t), s1, PushEvents(t, b));
      var rest := Cycles(s2, t, n - 1);
      ExecAppend(s, PopEvents(t) + PushEvents(t, b), s2, rest);
      es := PopEvents(t) + PushEvents(t, b) + rest;
    }
  }

  /** Three blocks owned by thread 2; thread 1 is going to be slow. */
  function Start(): State {
    State(SENTINEL, 0, map[0 := SENTINEL, 64 := SENTINEL, 128 := SENTINEL], map[0 := 2, 64 := 2, 128 := 2],
          map[1 := Idle, 2 := Idle])
  }

  /** Thread 1 has read head and next of the list 0, 64; then 64 has been exchanged for 128. */
  function Slow(version: nat): State {
    State(0, version, map[0 := 128, 64 := SENTINEL, 128 := SENTINEL], map[64 := 2],
          map[1 := PopRead(Snapshot(2, 0, 2), 64), 2 := Idle])
  }

  /** The first half of a pop. */
  lemma PeekAlone(s: State, t: nat)
    requires t in s.pcs && s.pcs[t] == Idle && s.head != SENTINEL && s.head in s.next
    ensures Exec(s, [PopLoad(t), PopNext(t)]) == Some(s.(pcs := s.pcs[t := PopRead(Load(s), s.next[s.head])]))
  {
    var s1 := Apply(s, PopLoad(t));
    var s2 := Apply(s1, PopNext(t));
    assert s2.pcs == s.pcs[t := PopRead(Load(s), s.next[s.head])];
    var es := [PopLoad(t), PopNext(t)];
    assert es[1..] == [PopNext(t)] && es[1..][1..] == [];
    assert Exec(s2, []) == Some(s2) && Exec(s1, [PopNext(t)]) == Some(s2);
  }

  lemma Filled() returns (es: seq<Event>, s: State)
    ensures Exec(Start(), es) == Some(s)
    ensures s == State(0, 2, map[0 := 64, 64 := SENTINEL, 128 := SENTINEL], map[128 := 2], map[1 := Idle, 2 := Idle])
  {
    hide Exec;
    var s0 := Start();
    PushAlone(s0, 2, 64);
    var s1 := Pushed(s0, 64);
    PushAlone(s1, 2, 0);
    s := Pushed(s1, 0);
    assert s.next == map[0 := 64, 64 := SENTINEL, 128 := SENTINEL] && s.owner == map[128 := 2];
    ExecAppend(s0, PushEvents(2, 64), s1, PushEvents(2, 0));
    es := PushEvents(2, 64) + PushEvents(2, 0);
  }

  lemma ReachSlow() returns (es: seq<Event>)
    ensures Init(Start()) && Exec(Start(), es) == Some(Slow(6))
  {
    hide Exec;
    var s;
    es, s := Filled();
    PeekAlone(s, 1);
    var s1 := s.(pcs := s.pcs[1 := PopRead(Load(s), s.next[s.head])]);
    ExecAppend(Start(), es, s, [PopLoad(1), PopNext(1)]);
    es := es + [PopLoad(1), PopNext(1)];
    assert s1.pcs == map[1 := PopRead(Snapshot(2, 0, 2), 64), 2 := Idle];
    var more := Exchange(s1);
    ExecAppend(Start(), es, s1, more);
    es := es + more;
  }

  lemma Exchange(s: State) returns (es: seq<Event>)
    requires s == State(0, 2, map[0 := 64, 64 := SENTINEL, 128 := SENTINEL], map[128 := 2],
                        map[1 := PopRead(Snapshot(2, 0, 2), 64), 2 := Idle])
    ensures Exec(s, es) == Some(Slow(6))
  {
    hide Exec;
    PopAlone(s, 2);
    var s1 := Popped(s, 2);
    PopAlone(s1, 2);
    var s2 := Popped(s1, 2);
    PushAlone(s2, 2, 128);
    var s3 := Pushed(s2, 128);
    PushAlone(s3, 2, 0);
    var s4 := Pushed(s3, 0);
    assert s4.next == Slow(6).next && s4.owner == Slow(6).owner;
    es := PopEvents(2);
    ExecAppend(s, es, s1, PopEvents(2));
    es := es + PopEvents(2);
    ExecAppend(s, es, s2, PushEvents(2, 128));
    es := es + PushEvents(2, 128);
    ExecAppend(s, es, s3, PushEvents(2, 0));
    es := es + PushEvents(2, 0);
  }

  /**
   The freshness assumption is needed: a run from the initial state in which the head changes
   exactly 2^16 times between a pop's load and its compare-and-swap. The stale compare-and-swap
   succeeds and puts a block that another thread still owns at the head of the free list.
   */
  lemma TagWrapBreaks() returns (es: seq<Event>, s: State)
    ensures Init(Start()) && Exec(Start(), es) == Some(s)
    ensures Enabled(s, PopCas(1)) && s.version == s.pcs[1].head.version + TAGS && CasMatches(s, s.pcs[1].head)
    ensures Owns(Apply(s, PopCas(1)), 2, 64) && Apply(s, PopCas(1)).head == 64
    ensures !exists l :: Inv(Apply(s, PopCas(1)), l)
  {
    hide Exec;
    es := ReachSlow();
    var turn := Cycles(Slow(6), 2, (TAGS - 4) / 2);
    s := Slow(2 + TAGS);
    assert Slow(6).(version := 6 + 2 * ((TAGS - 4) / 2)) == s;
    ExecAppend(Start(), es, Slow(6), turn);
    es := es + turn;
    var s' := Apply(s, PopCas(1));
    assert s'.head == 64 && 64 != SENTINEL;
    forall l ensures !Inv(s', l) {
      if l != [] && l[0] == 64 {
        assert 64 in l;
      }
    }
  }
}
